/** The file operations that staging needs, the first of them that a plan of faults
    lets fail, and how many files that leaves. */
module FilePlan {
  import opened Wrappers

  datatype Operation = CreatePart | WriteHeader | WriteRecord | ClosePart | MeasurePart | WriteArchive

  /** Which operations succeed, by their number. */
  type Plan = nat -> bool

  predicate Succeeds(plan: Plan, n: nat) {
    plan(n)
  }

  /** So many operations succeed. */
  predicate AllOk(plan: Plan, from: nat, n: nat) {
    forall k: nat :: from <= k < from + n ==> Succeeds(plan, k)
  }

  ghost predicate AllSucceed(plan: Plan, from: nat) {
    forall k: nat :: k >= from ==> Succeeds(plan, k)
  }

  /** How many operations were tried, and how many part files are kept track of. */
  datatype Tally = Tally(operations: nat, parts: nat)

  datatype Progress = Progress(fault: Option<Operation>, tally: Tally)

  /** A part counts once it has its header, and no more when its closing fails. */
  function Tried(operation: Operation, ok: bool, at: Tally): Tally {
    Tally(at.operations + 1,
          if ok && operation == WriteHeader then at.parts + 1
          else if !ok && operation == ClosePart && at.parts > 0 then at.parts - 1
          else at.parts)
  }

  /** Operations one after the other until the first fault. */
  function Carry(operations: seq<Operation>, plan: Plan, at: Tally): Progress {
    if operations == [] then Progress(None, at)
    else
      var ok := Succeeds(plan, at.operations);
      var next := Tried(operations[0], ok, at);
      if ok then Carry(operations[1..], plan, next) else Progress(Some(operations[0]), next)
  }

  lemma {:induction false} CarryConcat(a: seq<Operation>, b: seq<Operation>, plan: Plan, at: Tally)
    ensures var first := Carry(a, plan, at);
            Carry(a + b, plan, at) == if first.fault.Some? then first else Carry(b, plan, first.tally)
  {
    if a == [] {
      assert a + b == b;
    } else {
      assert (a + b)[1..] == a[1..] + b;
      CarryConcat(a[1..], b, plan, Tried(a[0], Succeeds(plan, at.operations), at));
    }
  }

  lemma {:induction false} NoFault(operations: seq<Operation>, plan: Plan, at: Tally)
    requires AllSucceed(plan, at.operations)
    ensures Carry(operations, plan, at).fault.None?
  {
    if operations != [] {
      NoFault(operations[1..], plan, Tried(operations[0], true, at));
    }
  }

  lemma {:induction false} TriesMore(operations: seq<Operation>, plan: Plan, at: Tally)
    ensures var p := Carry(operations, plan, at);
            p.tally.operations >= at.operations + if p.fault.Some? then 1 else 0
  {
    if operations != [] && Succeeds(plan, at.operations) {
      TriesMore(operations[1..], plan, Tried(operations[0], true, at));
    }
  }

  lemma SucceedsLater(operations: seq<Operation>, plan: Plan, at: Tally)
    requires AllSucceed(plan, at.operations)
    ensures AllSucceed(plan, Carry(operations, plan, at).tally.operations)
  {
    TriesMore(operations, plan, at);
  }

  lemma {:induction false} FaultAmong(operations: seq<Operation>, plan: Plan, at: Tally)
    ensures var fault := Carry(operations, plan, at).fault; fault.Some? ==> fault.value in operations
  {
    if operations != [] && Succeeds(plan, at.operations) {
      FaultAmong(operations[1..], plan, Tried(operations[0], true, at));
    }
  }

  /** Success, or the first fault. */
  predicate Outcome<T>(p: Progress, r: Result<T, Operation>) {
    match p.fault
    case None => r.Ok?
    case Some(operation) => r == Err(operation)
  }

  predicate Follows<T>(operations: seq<Operation>, plan: Plan, from: Tally, r: Result<T, Operation>, to: Tally) {
    var p := Carry(operations, plan, from);
    Outcome(p, r) && to == p.tally
  }

  lemma FollowsInTurn<T, U>(a: seq<Operation>, b: seq<Operation>, plan: Plan, from: Tally, first: Result<T, Operation>,
        mid: Tally, r: Result<U, Operation>, to: Tally)
    requires Follows(a, plan, from, first, mid)
    requires if first.Err? then r == Err(first.error) && to == mid else Follows(b, plan, mid, r, to)
    ensures Follows(a + b, plan, from, r, to)
  {
    CarryConcat(a, b, plan, from);
  }

  lemma SingleFollows<T>(operation: Operation, plan: Plan, from: Tally, r: Result<T, Operation>, to: Tally)
    requires if Succeeds(plan, from.operations) then r.Ok? else r == Err(operation)
    requires to == Tried(operation, r.Ok?, from)
    ensures Follows([operation], plan, from, r, to)
  {
  }

  lemma NoneFollows<T>(plan: Plan, at: Tally, r: Result<T, Operation>)
    requires r.Ok?
    ensures Follows([], plan, at, r, at)
  {
  }

  lemma OpeningFollows<T>(plan: Plan, from: Tally, r: Result<T, Operation>, to: Tally)
    requires if !Succeeds(plan, from.operations) then r == Err(CreatePart)
             else if !Succeeds(plan, from.operations + 1) then r == Err(WriteHeader) else r.Ok?
    requires to.operations == from.operations + (if r.Err? && r.error == CreatePart then 1 else 2)
    requires to.parts == from.parts + if r.Ok? then 1 else 0
    ensures Follows([CreatePart, WriteHeader], plan, from, r, to)
  {
    var created := Tally(from.operations + 1, from.parts);
    var first: Result<(), Operation> := if Succeeds(plan, from.operations) then Ok(()) else Err(CreatePart);
    SingleFollows(CreatePart, plan, from, first, created);
    if first.Ok? {
      SingleFollows(WriteHeader, plan, created, r, to);
    }
    FollowsInTurn([CreatePart], [WriteHeader], plan, from, first, created, r, to);
    assert [CreatePart] + [WriteHeader] == [CreatePart, WriteHeader];
  }

  lemma {:induction false} OfOneKind(operations: seq<Operation>, kind: Operation, plan: Plan, at: Tally, done: nat)
    requires kind != WriteHeader && kind != ClosePart && forall j :: 0 <= j < |operations| ==> operations[j] == kind
    requires done <= |operations| && AllOk(plan, at.operations, done)
    requires done < |operations| ==> !Succeeds(plan, at.operations + done)
    ensures Carry(operations, plan, at)
            == if done == |operations| then Progress(None, Tally(at.operations + done, at.parts))
               else Progress(Some(kind), Tally(at.operations + done + 1, at.parts))
  {
    if done > 0 {
      OfOneKind(operations[1..], kind, plan, Tally(at.operations + 1, at.parts), done - 1);
    }
  }

  // ----- Writing rows

  /** What it takes to have room for a row, given the rows of the current part, if there is one. */
  function Room(limit: nat, count: Option<nat>): seq<Operation> {
    match count
    case None => [CreatePart, WriteHeader]
    case Some(n) => if n >= limit then [ClosePart, CreatePart, WriteHeader] else []
  }

  function CountAfterRow(limit: nat, count: Option<nat>): nat {
    if count.None? || count.value >= limit then 1 else count.value + 1
  }

  function ForRows(limit: nat, count: Option<nat>, n: nat): seq<Operation>
    decreases n
  {
    if n == 0 then []
    else (Room(limit, count) + [WriteRecord]) + ForRows(limit, Some(CountAfterRow(limit, count)), n - 1)
  }

  function CountAfter(limit: nat, count: Option<nat>, n: nat): Option<nat>
    decreases n
  {
    if n == 0 then count else CountAfter(limit, Some(CountAfterRow(limit, count)), n - 1)
  }

  lemma {:induction false} ForMoreRows(limit: nat, count: Option<nat>, n: nat, m: nat)
    ensures ForRows(limit, count, n + m) == ForRows(limit, count, n) + ForRows(limit, CountAfter(limit, count, n), m)
    decreases n
  {
    if n == 0 {
      assert ForRows(limit, count, 0) + ForRows(limit, count, m) == ForRows(limit, count, m);
    } else {
      var next := Some(CountAfterRow(limit, count));
      ForMoreRows(limit, next, n - 1, m);
      var first := Room(limit, count) + [WriteRecord];
      hide ForRows, Room, CountAfterRow;
      OneThenMore(limit, count, n);
      OneThenMore(limit, count, n + m);
      assert first + (ForRows(limit, next, n - 1) + ForRows(limit, CountAfter(limit, next, n - 1), m))
          == first + ForRows(limit, next, n - 1) + ForRows(limit, CountAfter(limit, next, n - 1), m);
    }
  }

  lemma OneThenMore(limit: nat, count: Option<nat>, n: nat)
    requires n > 0
    ensures ForRows(limit, count, n)
            == (Room(limit, count) + [WriteRecord]) + ForRows(limit, Some(CountAfterRow(limit, count)), n - 1)
    ensures CountAfter(limit, count, n) == CountAfter(limit, Some(CountAfterRow(limit, count)), n - 1)
  {
  }

  lemma {:induction false} CountsAdd(limit: nat, count: Option<nat>, n: nat, m: nat)
    ensures CountAfter(limit, count, n + m) == CountAfter(limit, CountAfter(limit, count, n), m)
    decreases n
  {
    if n > 0 {
      CountsAdd(limit, Some(CountAfterRow(limit, count)), n - 1, m);
    }
  }

  lemma {:induction false} RowOperations(limit: nat, count: Option<nat>, n: nat)
    ensures forall operation :: operation in ForRows(limit, count, n) ==>
              operation != MeasurePart && operation != WriteArchive
    ensures CountAfter(limit, count, n).None? <==> count.None? && n == 0
    decreases n
  {
    if n > 0 {
      RowOperations(limit, Some(CountAfterRow(limit, count)), n - 1);
    }
  }

  /** Some rows and then some more. */
  lemma RowsFollow(limit: nat, plan: Plan, count: Option<nat>, n: nat, m: nat, all: nat, from: Tally,
      first: Result<(), Operation>, mid: Tally, r: Result<(), Operation>, to: Tally)
    requires all == n + m && Follows(ForRows(limit, count, n), plan, from, first, mid)
    requires if first.Err? then r == first && to == mid
             else Follows(ForRows(limit, CountAfter(limit, count, n), m), plan, mid, r, to)
    ensures Follows(ForRows(limit, count, all), plan, from, r, to)
    ensures CountAfter(limit, count, all) == CountAfter(limit, CountAfter(limit, count, n), m)
  {
    ForMoreRows(limit, count, n, m);
    CountsAdd(limit, count, n, m);
    FollowsInTurn(ForRows(limit, count, n), ForRows(limit, CountAfter(limit, count, n), m), plan, from,
                  first, mid, r, to);
  }

  /** One row more of several. */
  lemma RowFollows(limit: nat, plan: Plan, count: Option<nat>, i: nat, n: nat, from: Tally,
      before: Result<(), Operation>, at: Tally, r: Result<(), Operation>, to: Tally)
    requires i < n && before.Ok? && Follows(ForRows(limit, count, i), plan, from, before, at)
    requires Follows(Room(limit, CountAfter(limit, count, i)) + [WriteRecord], plan, at, r, to)
    ensures r.Ok? ==> Follows(ForRows(limit, count, i + 1), plan, from, r, to)
    ensures r.Err? ==> Follows(ForRows(limit, count, n), plan, from, r, to)
    ensures CountAfter(limit, count, i + 1) == Some(CountAfterRow(limit, CountAfter(limit, count, i)))
  {
    OneRow(limit, CountAfter(limit, count, i));
    hide *;
    RowsFollow(limit, plan, count, i, 1, i + 1, from, before, at, r, to);
    if r.Err? {
      RowsFollow(limit, plan, count, i + 1, n - (i + 1), n, from, r, to, r, to);
    }
  }

  lemma OneRow(limit: nat, count: Option<nat>)
    ensures ForRows(limit, count, 1) == Room(limit, count) + [WriteRecord]
    ensures CountAfter(limit, count, 1) == Some(CountAfterRow(limit, count))
  {
    assert ForRows(limit, Some(CountAfterRow(limit, count)), 0) == [];
  }

  lemma NothingFollows(limit: nat, plan: Plan, count: Option<nat>, at: Tally,
        r: Result<(), Operation>)
    requires r.Ok?
    ensures Follows(ForRows(limit, count, 0), plan, at, r, at) && CountAfter(limit, count, 0) == count
  {
  }

  // ----- Finishing

  function Archiving(parts: nat): seq<Operation> {
    seq(parts + 2, _ => WriteArchive)
  }

  /** An archive whose first operations succeeded and whose next one did or did not. */
  lemma ArchivingFollows(parts: nat, plan: Plan, from: Tally, done: nat, ok: bool, to: Tally)
    requires done < parts + 2 && ok == Succeeds(plan, from.operations + done)
    requires done == 0 || AllOk(plan, from.operations, done)
    requires to.operations == from.operations + done + 1 && to.parts == from.parts
    ensures ok ==> AllOk(plan, from.operations, done + 1)
    ensures !ok ==> Follows<nat>(Archiving(parts), plan, from, Err(WriteArchive), to)
    ensures ok && done == parts + 1 ==> Follows<nat>(Archiving(parts), plan, from, Ok(parts), to)
  {
    if ok {
      if done == parts + 1 {
        OfOneKind(Archiving(parts), WriteArchive, plan, from, parts + 2);
      }
    } else {
      OfOneKind(Archiving(parts), WriteArchive, plan, from, done);
    }
  }

  /** Closing the last part, or a header-only one. */
  function Closing(count: Option<nat>): seq<Operation> {
    (if count.None? then [CreatePart, WriteHeader] else []) + [ClosePart]
  }

  /** Delivering one part or an archive of all. */
  function Ending(parts: nat): seq<Operation> {
    if parts == 1 then [MeasurePart] else Archiving(parts)
  }

  function PartsOf(limit: nat, n: nat): nat
    requires limit > 0
  {
    if n == 0 then 1 else (n + limit - 1) / limit
  }

  function ForFinish(count: Option<nat>, parts: nat): seq<Operation> {
    Closing(count) + Ending(parts)
  }

  /** All the operations of staging so many rows, however they are batched. */
  function ForExport(limit: nat, n: nat): seq<Operation>
    requires limit > 0
  {
    ForRows(limit, None, n) + ForFinish(CountAfter(limit, None, n), PartsOf(limit, n))
  }

  // ----- What stays behind

  /** How many of so many removals fail. */
  function Refused(plan: Plan, from: nat, n: nat): nat
    decreases n
  {
    if n == 0 then 0 else Refused(plan, from, n - 1) + if Succeeds(plan, from + n - 1) then 0 else 1
  }

  lemma {:induction false} NoneRefused(plan: Plan, from: nat, n: nat)
    ensures Refused(plan, from, n) == 0 <==> AllOk(plan, from, n)
    decreases n
  {
    if n > 0 {
      NoneRefused(plan, from, n - 1);
    }
  }

  /** The paths that are removed when these are tried one after the other. */
  function Removed(paths: seq<nat>, plan: Plan, from: nat): (gone: set<nat>)
    ensures gone <= Among(paths)
  {
    set i | 0 <= i < |paths| && Succeeds(plan, from + i) :: paths[i]
  }

  lemma RemovedSnoc(paths: seq<nat>, path: nat, plan: Plan, from: nat)
    ensures Removed(paths + [path], plan, from)
            == Removed(paths, plan, from) + if Succeeds(plan, from + |paths|) then {path} else {}
  {
    var all := paths + [path];
    forall i | 0 <= i < |all| && Succeeds(plan, from + i)
      ensures all[i] in Removed(paths, plan, from) + if Succeeds(plan, from + |paths|) then {path} else {}
    {
      assert i < |paths| ==> all[i] == paths[i];
    }
    forall gone | gone in Removed(paths, plan, from)
      ensures gone in Removed(all, plan, from)
    {
      var i :| 0 <= i < |paths| && Succeeds(plan, from + i) && paths[i] == gone;
      assert all[i] == gone;
    }
    assert all[|paths|] == path;
  }

  lemma RemovedInTurn(first: seq<nat>, rest: seq<nat>, plan: Plan, from: nat)
    ensures Removed(first + rest, plan, from) == Removed(first, plan, from) + Removed(rest, plan, from + |first|)
  {
    if rest == [] {
      assert first + rest == first;
    } else {
      var n := |rest| - 1;
      assert rest == rest[..n] + [rest[n]] && first + rest == (first + rest[..n]) + [rest[n]];
      RemovedInTurn(first, rest[..n], plan, from);
      RemovedSnoc(rest[..n], rest[n], plan, from + |first|);
      RemovedSnoc(first + rest[..n], rest[n], plan, from);
    }
  }

  function Among(paths: seq<nat>): set<nat> {
    set path | path in paths
  }

  predicate Distinct(paths: seq<nat>) {
    forall i, j :: 0 <= i < j < |paths| ==> paths[i] != paths[j]
  }

  lemma NothingLeft(gone: set<nat>)
    ensures Among([]) - gone == {}
  {
  }

  lemma AllButLast(paths: seq<nat>)
    requires Distinct(paths) && paths != []
    ensures var n := |paths| - 1;
            paths == paths[..n] + [paths[n]] && Distinct(paths[..n]) && paths[n] !in paths[..n]
  {
  }

  /** As many paths are left as removals fail. */
  lemma {:induction false} RemovedCount(paths: seq<nat>, plan: Plan, from: nat)
    requires Distinct(paths)
    ensures |Among(paths) - Removed(paths, plan, from)| == Refused(plan, from, |paths|)
    decreases |paths|
  {
    hide Among, Distinct, Removed;
    if paths == [] {
      NothingLeft(Removed([], plan, from));
    } else {
      var n := |paths| - 1;
      AllButLast(paths);
      RemovedSnoc(paths[..n], paths[n], plan, from);
      RemovedOne(paths[..n], Removed(paths[..n], plan, from), paths[n], Succeeds(plan, from + n));
      RemovedCount(paths[..n], plan, from);
    }
  }

  lemma {:induction false} AmongCount(paths: seq<nat>)
    requires Distinct(paths)
    ensures |Among(paths)| == |paths|
  {
    if paths != [] {
      var n := |paths| - 1;
      AllButLast(paths);
      AmongCount(paths[..n]);
      assert Among(paths) == Among(paths[..n]) + {paths[n]};
    }
  }

  lemma RemovedOne(paths: seq<nat>, gone: set<nat>, path: nat, ok: bool)
    requires path !in paths && gone <= Among(paths)
    ensures |Among(paths + [path]) - (gone + if ok then {path} else {})|
            == |Among(paths) - gone| + if ok then 0 else 1
  {
    assert Among(paths + [path]) == Among(paths) + {path};
    assert (Among(paths) + {path}) - (gone + if ok then {path} else {})
        == (Among(paths) - gone) + if ok then {} else {path};
  }

  /** A part without its header, or not closed, is on disk but lost track of. */
  function Strays(operation: Operation): nat {
    if operation == WriteHeader || operation == ClosePart then 1 else 0
  }

  /** Every removal of a part that fails leaves one, beside the archive; a failed
      archive is removed last, and is there to be removed unless its very first
      operation failed. */
  function LeftByZip(parts: nat, plan: Plan, at: Tally): nat {
    var p := Carry(Archiving(parts), plan, at);
    if p.fault.None? then 1 + Refused(plan, p.tally.operations, parts)
    else if p.tally.operations == at.operations + 1 then Refused(plan, p.tally.operations, parts)
    else Refused(plan, p.tally.operations, parts + 1)
  }

  lemma LeftByZipIs<T>(parts: nat, plan: Plan, at: Tally, r: Result<T, Operation>, to: Tally)
    requires Follows(Archiving(parts), plan, at, r, to)
    ensures Outcome(Carry(Archiving(parts), plan, at), r)
    ensures LeftByZip(parts, plan, at)
            == if r.Ok? then 1 + Refused(plan, to.operations, parts)
               else if to.operations > at.operations + 1 then Refused(plan, to.operations, parts + 1)
               else Refused(plan, to.operations, parts)
  {
    TriesMore(Archiving(parts), plan, at);
  }

  /** A single part stays, delivered or not. */
  function LeftByEnding(parts: nat, plan: Plan, at: Tally): nat {
    if parts == 1 then 1 else LeftByZip(parts, plan, at)
  }

  /** When closing fails nothing is removed. */
  function LeftByFinish(count: Option<nat>, parts: nat, plan: Plan, at: Tally): nat {
    var p := Carry(Closing(count), plan, at);
    match p.fault
    case Some(operation) => p.tally.parts + Strays(operation)
    case None => LeftByEnding(parts, plan, p.tally)
  }

  /** How many files an export of so many rows leaves, the delivered one included:
      when writing rows fails, those lost track of and those that an abort cannot remove. */
  function FilesLeft(limit: nat, n: nat, plan: Plan, from: nat): nat
    requires limit > 0
  {
    var p := Carry(ForRows(limit, None, n), plan, Tally(from, 0));
    match p.fault
    case Some(operation) => Strays(operation) + Refused(plan, p.tally.operations, p.tally.parts)
    case None => LeftByFinish(CountAfter(limit, None, n), PartsOf(limit, n), plan, p.tally)
  }

  /** An export is its rows and what finishes it. */
  lemma ExportFollows<T, U>(limit: nat, n: nat, plan: Plan, from: nat, rows: Result<T, Operation>, mid: Tally,
        r: Result<U, Operation>)
    requires limit > 0 && Follows(ForRows(limit, None, n), plan, Tally(from, 0), rows, mid)
    requires if rows.Err? then r == Err(rows.error)
             else Outcome(Carry(ForFinish(CountAfter(limit, None, n), PartsOf(limit, n)), plan, mid), r)
    ensures Outcome(Carry(ForExport(limit, n), plan, Tally(from, 0)), r)
    ensures rows.Err? ==>
            FilesLeft(limit, n, plan, from) == Strays(rows.error) + Refused(plan, mid.operations, mid.parts)
    ensures rows.Ok? ==>
              FilesLeft(limit, n, plan, from) == LeftByFinish(CountAfter(limit, None, n), PartsOf(limit, n), plan, mid)
  {
    CarryConcat(ForRows(limit, None, n), ForFinish(CountAfter(limit, None, n), PartsOf(limit, n)), plan,
                Tally(from, 0));
    hide Carry, ForRows, CountAfter, ForFinish, PartsOf, LeftByFinish, Refused;
  }

  /** Which operation fails decides whether a failed export can leave nothing. */
  predicate LeavesNothing(operation: Operation) {
    operation == CreatePart || operation == WriteRecord || operation == WriteArchive
  }

  /** What an operation sequence that ended like this leaves: something, unless it
      failed where nothing is lost; and no more than it should if all removals succeed. */
  ghost predicate LeavesRightly(p: Progress, plan: Plan, left: nat) {
    && (left == 0 ==> p.fault.Some? && LeavesNothing(p.fault.value))
    && (AllSucceed(plan, p.tally.operations) ==>
          if p.fault.None? then left == 1 else left == 0 <==> LeavesNothing(p.fault.value))
  }

  lemma EndingLeavesRightly(parts: nat, plan: Plan, at: Tally)
    ensures LeavesRightly(Carry(Ending(parts), plan, at), plan, LeftByEnding(parts, plan, at))
  {
    var to := Carry(Ending(parts), plan, at).tally.operations;
    FaultAmong(Ending(parts), plan, at);
    NoneRefused(plan, to, parts);
    NoneRefused(plan, to, parts + 1);
    hide Refused;
    if parts == 1 {
      assert Carry([MeasurePart][1..], plan, Tried(MeasurePart, true, at)).fault.None?;
    } else {
      hide Carry;
    }
  }

  lemma ClosingLeavesRightly(count: Option<nat>, plan: Plan, at: Tally)
    requires count.None? ==> at.parts == 0
    ensures var p := Carry(Closing(count), plan, at);
            p.fault.Some? ==> LeavesRightly(p, plan, p.tally.parts + Strays(p.fault.value))
  {
    CarryConcat(if count.None? then [CreatePart, WriteHeader] else [], [ClosePart], plan, at);
    if count.None? {
      CarryConcat([CreatePart], [WriteHeader], plan, at);
      assert [CreatePart] + [WriteHeader] == [CreatePart, WriteHeader];
    }
    FaultAmong(Closing(count), plan, at);
  }

  /** A failed export leaves nothing only if it failed where nothing is lost track of;
      when the operations after the first fault succeed, exactly then. */
  lemma ExportLeavesRightly(limit: nat, n: nat, plan: Plan, from: nat)
    requires limit > 0
    ensures LeavesRightly(Carry(ForExport(limit, n), plan, Tally(from, 0)), plan, FilesLeft(limit, n, plan, from))
  {
    var count, parts, start := CountAfter(limit, None, n), PartsOf(limit, n), Tally(from, 0);
    var rows := Carry(ForRows(limit, None, n), plan, start);
    CarryConcat(ForRows(limit, None, n), ForFinish(count, parts), plan, start);
    FaultAmong(ForRows(limit, None, n), plan, start);
    RowOperations(limit, None, n);
    assert ForRows(limit, None, 0) == [] && Carry([], plan, start).tally == start;
    CarryConcat(Closing(count), Ending(parts), plan, rows.tally);
    var closing := Carry(Closing(count), plan, rows.tally);
    NoneRefused(plan, rows.tally.operations, rows.tally.parts);
    hide Carry, Refused, ForRows, CountAfter, PartsOf, Closing, Ending, LeftByEnding;
    if rows.fault.None? {
      ClosingLeavesRightly(count, plan, rows.tally);
      if closing.fault.None? {
        EndingLeavesRightly(parts, plan, closing.tally);
      }
    }
  }
}
