/** The concurrent export with the assembler it writes to: what is in the file
    that is delivered. */
module EndToEnd {
  import opened Wrappers
  import opened Upstream
  import opened AbortCounter
  import opened FuelFetch
  import opened MergeJoin
  import opened ConcurrentExport
  import opened ConcurrentConservation
  import opened ConcurrentSafety
  import opened Chunking
  import opened FilePlan
  import opened Assembly

  function Widened(widen: WidenedRow -> Row, rows: seq<WidenedRow>): seq<Row> {
    seq(|rows|, i requires 0 <= i < |rows| => widen(rows[i]))
  }

  lemma WidenedConcat(widen: WidenedRow -> Row, a: seq<WidenedRow>, b: seq<WidenedRow>)
    ensures Widened(widen, a + b) == Widened(widen, a) + Widened(widen, b)
  {
  }

  /** The rows of a delivered file, without the headers. */
  function DataRows(file: File): seq<Row> {
    match file
    case Csv(records, _) => if records == [] then [] else records[1..]
    case Archive(parts, _) =>
      Flatten(seq(|parts|, i requires 0 <= i < |parts| => if parts[i] == [] then [] else parts[i][1..]))
  }

  lemma DeliveredRows(header: Row, rows: seq<Row>, limit: nat, report: Option<string>)
    requires limit > 0
    ensures DataRows(Delivery(header, rows, limit, report)) == rows
  {
    var file := Delivery(header, rows, limit, report);
    DeliveryHoldsTheRows(header, rows, limit, report);
    if file.Archive? {
      var parts := file.parts;
      assert seq(|parts|, i requires 0 <= i < |parts| => if parts[i] == [] then [] else parts[i][1..])
          == seq(|parts|, i requires 0 <= i < |parts| => parts[i][1..]);
    }
  }

  /** The rows an event hands to the assembler. */
  function Outgoing(c: Setting, s: State, e: Event): seq<WidenedRow>
    requires c.Valid() && Enabled(c, s, e)
  {
    match e
    case Work(i, Write) => s.workers[i].rows
    case Work(i, WriteFails(written)) => s.workers[i].rows[..written]
    case _ => []
  }

  lemma NextEmits(c: Setting, s: State, e: Event)
    requires c.Valid() && Enabled(c, s, e)
    ensures Next(c, s, e).shared.emitted == s.shared.emitted + Outgoing(c, s, e)
  {
    hide Setting.Valid, Register, Joinable, FetchFuel, NestedLoopJoin, LoadOf, Plus, ShouldAbort;
  }

  lemma {:induction false} RunEmits(c: Setting, s: State, events: seq<Event>)
    requires c.Valid() && Schedule(c, s, events)
    ensures |Run(c, s, events).shared.emitted| >= |s.shared.emitted|
    decreases |events|
  {
    if events != [] {
      NextEmits(c, s, events[0]);
      RunEmits(c, Next(c, s, events[0]), events[1..]);
    }
  }

  lemma InitEmitsNothing(c: Setting)
    ensures Init(c).shared.emitted == []
  {
  }

  /** The k-th event of a run and what is emitted with it. */
  lemma StepOfRun(c: Setting, s: State, events: seq<Event>, k: nat)
    requires c.Valid() && k < |events| && Schedule(c, s, events[k..])
    ensures Enabled(c, s, events[k]) && Schedule(c, Next(c, s, events[k]), events[k + 1..])
    ensures Run(c, s, events[k..]) == Run(c, Next(c, s, events[k]), events[k + 1..])
    ensures var t := Next(c, s, events[k]);
            && t.shared.emitted == s.shared.emitted + Outgoing(c, s, events[k])
            && |Run(c, s, events[k..]).shared.emitted| >= |t.shared.emitted|
  {
    assert events[k..][0] == events[k] && events[k..][1..] == events[k + 1..];
    NextEmits(c, s, events[k]);
    RunEmits(c, Next(c, s, events[k]), events[k + 1..]);
  }

  /** An export that returns Ok, carried out with an assembler and finished: it
      succeeds and leaves files as staging its rows does, and the delivered file
      holds one row for each matching vehicle, and no other. */
  method ExportToFile(c: Setting, events: seq<Event>, widen: WidenedRow -> Row,
      dir: TempDir, header: Row, limit: nat, report: Option<string>)
    returns (r: Result<Assembled, Operation>)
    requires c.Valid() && c.pageSize > 0 && Schedule(c, Init(c), events) && EndsOk(Run(c, Init(c), events))
    requires dir.Valid() && limit > 0
    modifies dir
    ensures Staged(old(dir.files), limit, |Run(c, Init(c), events).shared.emitted|, dir.plan, old(dir.operations), r,
                   dir.files)
    ensures r.Ok? ==> DataRows(dir.files[r.value.path]) == Widened(widen, Run(c, Init(c), events).shared.emitted)
  {
    hide Assembler.Valid, Assembler.Owns, Assembler.Holds, Assembler.Tracked, Assembler.Steady, Assembler.Rows;
    hide Assembler.Count, Assembler.Here, Assembler.PathsToRemove, TempDir.Valid, Staged, GoneAstray, Flatten, Delivery;
    hide Chunks, Carry, Follows, Outcome, ForRows, CountAfter, ForFinish, ForExport, PartsOf, Refused, Removed;
    hide FilesLeft, LeftByFinish, Setting.Valid, Next, Enabled, Init, EndsOk, DataRows;
    var assembler := new Assembler(header, limit, dir);
    var s := Init(c);
    ghost var all, start := Run(c, s, events).shared.emitted, assembler.Here();
    var written: Result<(), Operation> := Ok(());
    NothingFollows(limit, dir.plan, None, start, written);
    InitEmitsNothing(c);
    assert events[0..] == events;
    for k := 0 to |events|
      invariant assembler.Valid() && assembler.sound && assembler.Steady() && assembler.Foreign() == old(dir.files)
      invariant fresh(assembler) && assembler.dir == dir && assembler.limit == limit && assembler.header == header
      invariant Schedule(c, s, events[k..]) && Run(c, s, events[k..]) == Run(c, Init(c), events)
      invariant assembler.Rows() == Widened(widen, s.shared.emitted) && assembler.astray == {} && written.Ok?
      invariant assembler.Count() == CountAfter(limit, None, |s.shared.emitted|)
      invariant Follows(ForRows(limit, None, |s.shared.emitted|), dir.plan, start, written, assembler.Here())
    {
      StepOfRun(c, s, events, k);
      var outgoing, t := Outgoing(c, s, events[k]), Next(c, s, events[k]);
      WidenedConcat(widen, s.shared.emitted, outgoing);
      ghost var before, at, m := written, assembler.Here(), |outgoing|;
      written := assembler.WriteRows(Widened(widen, outgoing));
      ghost var to := assembler.Here();
      RowsFollow(limit, dir.plan, None, |s.shared.emitted|, m, |t.shared.emitted|, start, before, at, written, to);
      if written.Err? {
        FirstAstray(assembler.astray, written.error);
        assembler.Abort();
        r := Err(written.error);
        StagedIs(old(dir.files), limit, |t.shared.emitted|, |all|, dir.plan, start.operations, written, to, r,
          dir.files, assembler.created);
        return;
      }
      s := t;
    }
    ghost var mid := assembler.Here();
    r := assembler.Finish(report);
    DeliveredRows(header, Widened(widen, s.shared.emitted), limit, report);
    StagedIs(old(dir.files), limit, |all|, |all|, dir.plan, start.operations, written, mid, r, dir.files,
      assembler.created);
  }

  // ----- The delivered rows are those of the population

  lemma Cancel<T>(x: multiset<T>, a: multiset<T>, b: multiset<T>)
    requires x + a == x + b
    ensures a == b
  {
    assert a == (x + a) - x && b == (x + b) - x;
  }

  lemma RemoveAt(rows: seq<WidenedRow>, i: nat)
    requires i < |rows|
    ensures var rest := rows[..i] + rows[i + 1..];
            && multiset(rows) == multiset([rows[i]]) + multiset(rest)
            && multiset(VehiclesOf(rows)) == multiset([rows[i].vehicle]) + multiset(VehiclesOf(rest))
            && |rest| == |rows| - 1
  {
    var rest := rows[..i] + rows[i + 1..];
    var vehicles := VehiclesOf(rows);
    assert rows == rows[..i] + ([rows[i]] + rows[i + 1..]);
    assert vehicles == vehicles[..i] + ([vehicles[i]] + vehicles[i + 1..]);
    assert VehiclesOf(rest) == vehicles[..i] + vehicles[i + 1..];
  }

  function WithoutAt(rows: seq<WidenedRow>, i: nat): seq<WidenedRow>
    requires i < |rows|
  {
    rows[..i] + rows[i + 1..]
  }

  /** The row of the first vehicle, and what is left without both. */
  lemma RowOfFirst(emitted: seq<WidenedRow>, vehicles: seq<VehicleRow>) returns (i: nat)
    requires multiset(VehiclesOf(emitted)) == multiset(vehicles) && vehicles != []
    ensures i < |emitted| && emitted[i].vehicle == vehicles[0]
    ensures multiset(VehiclesOf(WithoutAt(emitted, i))) == multiset(vehicles[1..])
    ensures multiset(emitted) == multiset([emitted[i]]) + multiset(WithoutAt(emitted, i))
  {
    assert vehicles == [vehicles[0]] + vehicles[1..];
    assert vehicles[0] in multiset(VehiclesOf(emitted));
    i :| 0 <= i < |VehiclesOf(emitted)| && VehiclesOf(emitted)[i] == vehicles[0];
    RemoveAt(emitted, i);
    MultisetOfParts(vehicles, [vehicles[0]], vehicles[1..]);
    Cancel(multiset([vehicles[0]]), multiset(VehiclesOf(WithoutAt(emitted, i))), multiset(vehicles[1..]));
  }

  lemma InFront(row: WidenedRow, others: seq<WidenedRow>)
    ensures VehiclesOf([row] + others) == [row.vehicle] + VehiclesOf(others)
    ensures multiset([row] + others) == multiset([row]) + multiset(others)
  {
  }

  /** Rows for these vehicles in any order can be put in the order of the vehicles. */
  lemma {:induction false} InOrderOf(emitted: seq<WidenedRow>, vehicles: seq<VehicleRow>)
    returns (rows: seq<WidenedRow>)
    requires multiset(VehiclesOf(emitted)) == multiset(vehicles)
    ensures VehiclesOf(rows) == vehicles && multiset(rows) == multiset(emitted)
    decreases |vehicles|
  {
    SameSize(VehiclesOf(emitted), vehicles);
    if vehicles == [] {
      rows := [];
      assert emitted == [];
    } else {
      var i := RowOfFirst(emitted, vehicles);
      var others := InOrderOf(WithoutAt(emitted, i), vehicles[1..]);
      rows := [emitted[i]] + others;
      InFront(emitted[i], others);
    }
  }

  lemma WidenedWithout(widen: WidenedRow -> Row, rows: seq<WidenedRow>, i: nat)
    requires i < |rows|
    ensures multiset(Widened(widen, rows)) == multiset([widen(rows[i])]) + multiset(Widened(widen, WithoutAt(rows, i)))
  {
    var all := Widened(widen, rows);
    WidenedConcat(widen, rows[..i], rows[i + 1..]);
    assert all == all[..i] + ([all[i]] + all[i + 1..]);
    assert all[..i] == Widened(widen, rows[..i]) && all[i + 1..] == Widened(widen, rows[i + 1..]);
  }

  lemma SameRest(a: seq<WidenedRow>, b: seq<WidenedRow>) returns (i: nat)
    requires multiset(a) == multiset(b) && a != []
    ensures i < |b| && b[i] == a[0] && multiset(WithoutAt(a, 0)) == multiset(WithoutAt(b, i))
  {
    assert a[0] in multiset(b);
    i :| 0 <= i < |b| && b[i] == a[0];
    hide VehiclesOf;
    RemoveAt(a, 0);
    RemoveAt(b, i);
    Cancel(multiset([a[0]]), multiset(WithoutAt(a, 0)), multiset(WithoutAt(b, i)));
  }

  lemma {:induction false} WidenedInAnyOrder(widen: WidenedRow -> Row, a: seq<WidenedRow>, b: seq<WidenedRow>)
    requires multiset(a) == multiset(b)
    ensures multiset(Widened(widen, a)) == multiset(Widened(widen, b))
    decreases |a|
  {
    if a == [] {
      SameSize(a, b);
      assert b == [];
    } else {
      var i := SameRest(a, b);
      assert |WithoutAt(a, 0)| < |a|;
      WidenedWithout(widen, a, 0);
      WidenedWithout(widen, b, i);
      hide Widened;
      assert WithoutAt(a, 0) == a[..0] + a[0 + 1..];
      hide *;
      WidenedInAnyOrder(widen, WithoutAt(a, 0), WithoutAt(b, i));
    }
  }

  /** On Ok the data rows of the file are, in some order, one right or marked
      row for each vehicle of the population; without failed fetches they are
      the rows of the nested-loop join. */
  lemma FileHoldsThePopulation(c: Setting, events: seq<Event>, widen: WidenedRow -> Row, file: File)
    returns (rows: seq<WidenedRow>)
    requires c.Valid() && c.pageSize > 0 && Schedule(c, Init(c), events) && EndsOk(Run(c, Init(c), events))
    requires DataRows(file) == Widened(widen, Run(c, Init(c), events).shared.emitted)
    ensures VehiclesOf(rows) == c.Vehicles() && RowsOk(c, rows)
    ensures multiset(DataRows(file)) == multiset(Widened(widen, rows))
    ensures Run(c, Init(c), events).result.value.value.failures == 0 ==>
              Register(c.Vehicles()) && rows == NestedLoopJoin(c.Vehicles(), c.fuelData, false)
  {
    var s := Run(c, Init(c), events);
    var emitted := s.shared.emitted;
    OkMeansExactlyOnce(c, events);
    OkAccountsForDegradation(c, events);
    SelectedIsRegister(c.data, c.merken, None, None);
    hide Schedule, Run, DataRows, RowOk, Setting.Valid, Register;
    rows := InOrderOf(emitted, c.Vehicles());
    WidenedInAnyOrder(widen, rows, emitted);
    forall i | 0 <= i < |rows|
      ensures RowOk(c, rows[i]) && rows[i] in emitted
    {
      assert rows[i] in multiset(emitted);
    }
    if s.result.value.value.failures == 0 {
      NoneMarked(emitted);
      RightRows(c, rows, c.Vehicles());
    }
  }

  lemma {:induction false} NoneMarked(rows: seq<WidenedRow>)
    requires Unavailable(rows) == 0
    ensures forall row :: row in rows ==> row.status != FuelUnavailable
  {
    if rows != [] {
      NoneMarked(rows[1..]);
      assert rows == [rows[0]] + rows[1..];
    }
  }

  lemma RightRows(c: Setting, rows: seq<WidenedRow>, vehicles: seq<VehicleRow>)
    requires RowsOk(c, rows) && VehiclesOf(rows) == vehicles && Register(vehicles)
    requires forall row :: row in rows ==> row.status != FuelUnavailable
    ensures rows == NestedLoopJoin(vehicles, c.fuelData, false)
  {
    forall i | 0 <= i < |rows|
      ensures rows[i] == JoinRow(vehicles[i], c.fuelData, false)
    {
      assert rows[i] in rows && RowOk(c, rows[i]) && VehiclesOf(rows)[i] == rows[i].vehicle;
    }
    assert |VehiclesOf(rows)| == |rows|;
  }
}
