/** Staging an export in a temporary directory: rows arrive in batches, are
    written to part files of limited size, and end as one CSV or one archive. */
module Assembly {
  import opened Wrappers
  import opened Arithmetic
  import opened Chunking
  import opened FilePlan

  const EXCEL_MAX_DATA_ROWS := 1_048_575

  type Row = seq<string>

  datatype File =
    | Csv(records: seq<Row>, closed: bool)                          // a part; complete once closed
    | Archive(parts: seq<seq<Row>>, report: Option<string>)

  datatype Assembled = SingleCsv(path: nat) | Zip(path: nat, partCount: nat)

  function WithHeader(header: Row, pieces: seq<seq<Row>>): seq<seq<Row>> {
    seq(|pieces|, i requires 0 <= i < |pieces| => [header] + pieces[i])
  }

  /** What a finished export of these rows holds. */
  function Delivery(header: Row, rows: seq<Row>, limit: nat, report: Option<string>): File
    requires limit > 0
  {
    if |rows| <= limit then Csv([header] + rows, true)
    else Archive(WithHeader(header, Chunks(rows, limit)), report)
  }

  // ----- The directory, where any operation can fail

  class TempDir {
    const plan: Plan
    var operations: nat
    var files: map<nat, File>
    var counter: nat

    constructor (plan: Plan)
      ensures Valid() && files == map[] && operations == 0 && this.plan == plan
    {
      this.plan, operations, files, counter := plan, 0, map[], 0;
    }

    ghost predicate Valid()
      reads this
    {
      forall path :: path in files ==> path < counter
    }

    method UniquePath() returns (path: nat)
      requires Valid()
      modifies this`counter
      ensures Valid() && path == old(counter) && counter == path + 1
    {
      path := counter;
      counter := counter + 1;
    }

    method Create(path: nat, file: File) returns (ok: bool)
      requires Valid() && path < counter
      modifies this`files, this`operations
      ensures Valid() && files == if ok then old(files)[path := file] else old(files)
      ensures ok == Succeeds(plan, old(operations)) && operations == old(operations) + 1
    {
      ok := Succeeds(plan, operations);
      operations := operations + 1;
      if ok {
        files := files[path := file];
      }
    }

    /** A failed write leaves the file with whatever reached the disk. */
    method Write(path: nat, file: File) returns (ok: bool)
      requires Valid() && path in files && files[path].Csv? == file.Csv?
      modifies this`files, this`operations
      ensures Valid() && path in files && files[path].Csv? == file.Csv?
      ensures files == old(files)[path := files[path]] && (ok ==> files[path] == file)
      ensures ok == Succeeds(plan, old(operations)) && operations == old(operations) + 1
    {
      ok := Succeeds(plan, operations);
      operations := operations + 1;
      var tornRecords: seq<Row>, tornParts: seq<seq<Row>> := *, *;
      var torn := if file.Csv? then Csv(tornRecords, false) else Archive(tornParts, None);
      files := files[path := if ok then file else torn];
    }

    /** An operation that changes no file. */
    method Attempt() returns (ok: bool)
      modifies this`operations
      ensures ok == Succeeds(plan, old(operations)) && operations == old(operations) + 1
    {
      ok := Succeeds(plan, operations);
      operations := operations + 1;
    }

    method Remove(path: nat) returns (ok: bool)
      requires Valid()
      modifies this`files, this`operations
      ensures Valid() && files == if ok then old(files) - {path} else old(files)
      ensures ok == Succeeds(plan, old(operations)) && operations == old(operations) + 1
    {
      ok := Succeeds(plan, operations);
      operations := operations + 1;
      if ok {
        files := files - {path};
      }
    }

    /** Try to remove each; a file that cannot be removed is left and no error is raised. */
    method RemoveAll(paths: seq<nat>)
      requires Valid()
      modifies this`files, this`operations
      ensures Valid() && operations == old(operations) + |paths|
      ensures files == old(files) - Removed(paths, plan, old(operations))
    {
      ghost var from := operations;
      for i := 0 to |paths|
        invariant Valid() && operations == from + i
        invariant files == old(files) - Removed(paths[..i], plan, from)
      {
        var _ := Remove(paths[i]);
        RemovedSnoc(paths[..i], paths[i], plan, from);
        assert paths[..i + 1] == paths[..i] + [paths[i]];
      }
      assert paths[..|paths|] == paths;
    }
  }

  // ----- What removals leave

  /** Removing one path and then the others. */
  lemma RemovedFirst(files: map<nat, File>, path: nat, others: seq<nat>, plan: Plan, from: nat)
    ensures files - Removed([path] + others, plan, from)
            == (if Succeeds(plan, from) then files - {path} else files) - Removed(others, plan, from + 1)
  {
    RemovedInTurn([path], others, plan, from);
    RemovedSnoc([], path, plan, from);
    assert [] + [path] == [path] && Removed([], plan, from) == {};
  }

  lemma Without(files: map<nat, File>, created: set<nat>, gone: set<nat>, left: map<nat, File>)
    requires gone <= created && left == files - gone
    ensures left - created == files - created && left.Keys * created == files.Keys * created - gone
  {
  }

  /** What is left of these files after the paths were tried. */
  lemma LeftAfter(files: map<nat, File>, created: set<nat>, astray: set<nat>, paths: seq<nat>, n: nat, plan: Plan,
      from: nat, left: map<nat, File>)
    requires Distinct(paths) && n == |paths|
    requires files.Keys * created == Among(paths) + astray && astray !! Among(paths)
    requires left == files - Removed(paths, plan, from)
    ensures left - created == files - created
    ensures astray <= left.Keys * created && |left.Keys * created| == |astray| + Refused(plan, from, n)
  {
    hide *;
    var gone, all := Removed(paths, plan, from), Among(paths);
    RemovedCount(paths, plan, from);
    assert gone <= all <= created;
    Without(files, created, gone, left);
    assert (all + astray) - gone == (all - gone) + astray;
  }

  /** The paths of the parts and of the archive, if there is one. */
  lemma ZipAmong(before: map<nat, File>, created: set<nat>, partPaths: seq<nat>, zipPath: nat, files: map<nat, File>)
    requires Distinct(partPaths) && before.Keys * created == Among(partPaths)
    requires zipPath !in created && zipPath !in partPaths && zipPath !in before && files - {zipPath} == before
    ensures files - (created + {zipPath}) == before - created
    ensures files.Keys * (created + {zipPath}) == if zipPath in files then Among(partPaths) + {zipPath}
            else Among(partPaths)
    ensures zipPath !in Among(partPaths) && Distinct(partPaths + [zipPath])
    ensures Among(partPaths + [zipPath]) == Among(partPaths) + {zipPath}
  {
    var made := if zipPath in files then {zipPath} else {};
    assert files.Keys == before.Keys + made;
    assert files - (created + {zipPath}) == (files - {zipPath}) - created;
  }

  lemma LeftOfAll(files: map<nat, File>, created: set<nat>, paths: seq<nat>, n: nat, plan: Plan, from: nat,
      left: map<nat, File>)
    requires Distinct(paths) && n == |paths| && files.Keys * created == Among(paths)
    requires left == files - Removed(paths, plan, from)
    ensures left - created == files - created && |left.Keys * created| == Refused(plan, from, n)
  {
    hide *;
    assert Among(paths) + {} == Among(paths);
    LeftAfter(files, created, {}, paths, n, plan, from, left);
  }

  /** What is left besides an archive. */
  lemma ArchiveLeaves(before: map<nat, File>, created: set<nat>, partPaths: seq<nat>, n: nat, zipPath: nat, plan: Plan,
      from: nat, files: map<nat, File>, after: map<nat, File>)
    requires Distinct(partPaths) && n == |partPaths| && before.Keys * created == Among(partPaths)
    requires zipPath !in created && zipPath !in partPaths && zipPath !in before && files - {zipPath} == before
    requires zipPath in files && after == files - Removed(partPaths, plan, from)
    ensures after - (created + {zipPath}) == before - created
    ensures |after.Keys * (created + {zipPath})| == 1 + Refused(plan, from, n)
    ensures zipPath in after && after[zipPath] == files[zipPath]
  {
    ZipAmong(before, created, partPaths, zipPath, files);
    hide *;
    LeftAfter(files, created + {zipPath}, {zipPath}, partPaths, n, plan, from, after);
  }

  lemma AbsentRemoved(files: map<nat, File>, paths: seq<nat>, path: nat, plan: Plan, from: nat)
    requires path !in files
    ensures files - Removed(paths + [path], plan, from) == files - Removed(paths, plan, from)
  {
    RemovedSnoc(paths, path, plan, from);
  }

  /** What is left after an archive failed. */
  lemma FailureLeaves(before: map<nat, File>, created: set<nat>, partPaths: seq<nat>, n: nat, zipPath: nat, plan: Plan,
      from: nat, files: map<nat, File>, after: map<nat, File>)
    requires Distinct(partPaths) && n == |partPaths| && before.Keys * created == Among(partPaths)
    requires zipPath !in created && zipPath !in partPaths && zipPath !in before && files - {zipPath} == before
    requires after == files - Removed(partPaths + [zipPath], plan, from)
    ensures after - (created + {zipPath}) == before - created
    ensures zipPath in files ==> |after.Keys * (created + {zipPath})| == Refused(plan, from, n + 1)
    ensures zipPath !in files ==> |after.Keys * (created + {zipPath})| == Refused(plan, from, n)
  {
    hide *;
    ZipAmong(before, created, partPaths, zipPath, files);
    if zipPath in files {
      LeftOfAll(files, created + {zipPath}, partPaths + [zipPath], n + 1, plan, from, after);
    } else {
      AbsentRemoved(files, partPaths, zipPath, plan, from);
      LeftOfAll(files, created + {zipPath}, partPaths, n, plan, from, after);
    }
  }

  /** What is left once an archive was tried and what is no longer needed removed. */
  lemma ZipLeaves<T>(before: map<nat, File>, created: set<nat>, partPaths: seq<nat>, n: nat, zipPath: nat, plan: Plan,
      at: Tally, result: Result<T, Operation>, to: Tally, files: map<nat, File>, after: map<nat, File>)
    requires Distinct(partPaths) && n == |partPaths| && before.Keys * created == Among(partPaths)
    requires zipPath !in created && zipPath !in partPaths && zipPath !in before && files - {zipPath} == before
    requires Follows(Archiving(|partPaths|), plan, at, result, to)
    requires zipPath in files <==> result.Ok? || to.operations > at.operations + 1
    requires after == files - Removed(if result.Err? then partPaths + [zipPath] else partPaths, plan, to.operations)
    ensures after - (created + {zipPath}) == before - created
    ensures Outcome(Carry(Archiving(n), plan, at), result)
    ensures |after.Keys * (created + {zipPath})| == LeftByZip(n, plan, at)
    ensures result.Ok? ==> zipPath in after && after[zipPath] == files[zipPath]
  {
    LeftByZipIs(n, plan, at, result, to);
    hide *;
    if result.Ok? {
      ArchiveLeaves(before, created, partPaths, n, zipPath, plan, to.operations, files, after);
    } else {
      FailureLeaves(before, created, partPaths, n, zipPath, plan, to.operations, files, after);
    }
  }

  lemma PathAppended(paths: seq<nat>, path: nat)
    requires Distinct(paths) && path !in paths
    ensures Distinct(paths + [path]) && Among(paths + [path]) == Among(paths) + {path}
  {
  }

  // ----- The assembler

  /** A failed header or closing leaves one more file astray, and no other failure does. */
  ghost predicate GoneAstray(before: set<nat>, operation: Operation, after: set<nat>) {
    if Strays(operation) == 0 then after == before else exists path :: path !in before && after == before + {path}
  }

  lemma OneAstray(before: set<nat>, operation: Operation, path: nat)
    requires Strays(operation) == 1 && path !in before
    ensures GoneAstray(before, operation, before + {path})
  {
  }

  datatype Part = Part(path: nat, rowCount: nat)

  class Assembler {
    const header: Row
    const limit: nat
    const dir: TempDir
    var partPaths: seq<nat>
    var current: Option<Part>

    ghost var created: set<nat>         // every path at which this assembler made a file
    ghost var parts: seq<seq<Row>>      // the rows of the closed parts
    ghost var open: seq<Row>            // the rows of the current part
    ghost var astray: set<nat>          // its files on disk that no field leads to any more
    ghost var sound: bool               // no operation has failed so far

    constructor (header: Row, limit: nat, dir: TempDir)
      requires limit > 0 && dir.Valid()
      ensures this.header == header && this.limit == limit && this.dir == dir
      ensures Valid() && sound && Steady() && created == {} && Rows() == [] && astray == {}
      ensures Foreign() == dir.files && Count() == None && Here() == Tally(dir.operations, 0)
    {
      this.header, this.limit, this.dir := header, limit, dir;
      partPaths, current := [], None;
      created, parts, open, astray, sound := {}, [], [], {}, true;
    }

    /** The rows of the current part, if there is one. */
    function Count(): Option<nat>
      reads this
    {
      if current.Some? then Some(current.value.rowCount) else None
    }

    ghost function Tracked(): set<nat>
      reads this
    {
      Among(partPaths) + if current.Some? then {current.value.path} else {}
    }

    /** How many operations the directory has seen, and how many parts are kept track of. */
    ghost function Here(): Tally
      reads this, dir
    {
      Tally(dir.operations, |partPaths| + if current.Some? then 1 else 0)
    }

    /** The files of everyone else. */
    ghost function Foreign(): map<nat, File>
      reads this, dir
    {
      dir.files - created
    }

    /** The files made here that are on disk. */
    ghost function Left(): set<nat>
      reads this, dir
    {
      dir.files.Keys * created
    }

    ghost function Rows(): seq<Row>
      reads this
    {
      Flatten(parts) + open
    }

    ghost predicate Owns()
      reads this, dir
    {
      && dir.Valid()
      && (forall path :: path in created ==> path < dir.counter)
      && Left() == Tracked() + astray && astray !! Tracked()
      && (forall path :: path in Tracked() ==> path in created && path in dir.files && dir.files[path].Csv?)
      && Distinct(partPaths)
      && (current.Some? ==> current.value.path !in partPaths)
    }

    /** The files hold the header and the rows accepted. */
    ghost predicate Holds()
      requires Owns()
      reads this, dir
    {
      && |parts| == |partPaths|
      && (forall i :: 0 <= i < |parts| ==>
            partPaths[i] in Tracked() && dir.files[partPaths[i]] == Csv([header] + parts[i], true))
      && |open| <= limit && astray == {}
      && match current
         case Some(part) => dir.files[part.path] == Csv([header] + open, false) && part.rowCount == |open|
         case None => open == []
    }

    ghost predicate Valid()
      reads this, dir
    {
      limit > 0 && Owns() && (sound ==> Holds())
    }

    /** Between batches every closed part is full, and a part is open if there are any rows. */
    ghost predicate Steady()
      reads this
    {
      && (forall i :: 0 <= i < |parts| ==> |parts[i]| == limit)
      && (if current.Some? then open != [] else parts == [] && open == [])
    }

    /** Create the file of a new part, under a name not used before, with the header. */
    method CreateFile() returns (r: Result<nat, Operation>)
      requires Owns()
      modifies this`created, this`astray, dir
      ensures Owns() && Foreign() == old(Foreign()) && old(created) <= created
      ensures var n := old(dir.operations);
              && (if !Succeeds(dir.plan, n) then r == Err(CreatePart)
                  else if !Succeeds(dir.plan, n + 1) then r == Err(WriteHeader) else r.Ok?)
              && dir.operations == n + if r.Err? && r.error == CreatePart then 1 else 2
      ensures r.Err? ==> GoneAstray(old(astray), r.error, astray) && (astray == old(astray) <==> r.error == CreatePart)
      ensures r.Ok? ==> r.value !in old(astray) && astray == old(astray) + {r.value}
      ensures r.Ok? ==> r.value !in old(created) && r.value !in old(dir.files) && r.value !in Tracked()
      ensures r.Ok? ==> dir.files == old(dir.files)[r.value := Csv([header], false)]
    {
      assert GoneAstray(astray, CreatePart, astray);
      hide Succeeds, GoneAstray;
      var path := dir.UniquePath();
      var ok := dir.Create(path, Csv([], false));
      if !ok {
        return Err(CreatePart);
      }
      created, astray := created + {path}, astray + {path};
      ok := dir.Write(path, Csv([header], false));
      BesideNew(old(dir.files), old(created), path, dir.files);
      if !ok {
        OneAstray(old(astray), WriteHeader, path);
        return Err(WriteHeader);
      }
      return Ok(path);
    }

    method OpenNewPart() returns (r: Result<(), Operation>)
      requires Valid() && current.None?
      modifies this, dir
      ensures Valid() && Foreign() == old(Foreign()) && old(created) <= created
      ensures r.Ok? ==>
              current.Some? && sound == old(sound) && open == [] && parts == old(parts) && astray == old(astray)
      ensures r.Ok? ==> current.value.rowCount == 0
      ensures partPaths == old(partPaths) && (r.Err? ==> current.None?)
      ensures Follows([CreatePart, WriteHeader], dir.plan, old(Here()), r, Here())
      ensures r.Err? ==> !sound && (r.error == CreatePart || r.error == WriteHeader)
      ensures r.Err? ==> (astray == old(astray) <==> r.error == CreatePart) && GoneAstray(old(astray), r.error, astray)
    {
      ghost var from := Here();
      hide Succeeds, Follows, GoneAstray, Distinct;
      var made := CreateFile();
      if made.Err? {
        sound := false;
        r := Err(made.error);
      } else {
        current := Some(Part(made.value, 0));
        open, astray := [], astray - {made.value};
        r := Ok(());
        assert [header] + open == [header];
      }
      OpeningFollows(dir.plan, from, r, Here());
    }

    method CloseCurrentPart() returns (r: Result<(), Operation>)
      requires Valid()
      modifies this, dir
      ensures Valid() && Foreign() == old(Foreign()) && created == old(created) && current.None?
      ensures r.Ok? ==> sound == old(sound) && astray == old(astray)
      ensures r.Ok? ==> parts == old(if current.Some? then parts + [open] else parts)
      ensures r.Ok? ==> partPaths == old(if current.Some? then partPaths + [current.value.path] else partPaths)
      ensures r.Ok? && sound ==> open == []
      ensures Follows(if old(current.Some?) then [ClosePart] else [], dir.plan, old(Here()), r, Here())
      ensures r.Err? ==> !sound && r.error == ClosePart && old(astray) < astray
      ensures r.Err? ==> GoneAstray(old(astray), r.error, astray)
    {
      ghost var from := Here();
      if current.Some? {
        PathAppended(partPaths, current.value.path);
      }
      hide Succeeds, Follows, GoneAstray, Distinct;
      if current.Some? {
        var part := current.value;
        current := None;
        var ok := dir.Write(part.path, Csv(dir.files[part.path].records, true));
        assert dir.files - created == old(dir.files) - created;
        assert Left() == Tracked() + (astray + {part.path}) == old(Left());
        if ok {
          partPaths := partPaths + [part.path];
          parts := parts + [open];
          open := [];
          r := Ok(());
        } else {
          sound := false;
          astray := astray + {part.path};
          OneAstray(old(astray), ClosePart, part.path);
          r := Err(ClosePart);
        }
        SingleFollows(ClosePart, dir.plan, from, r, Here());
      } else {
        r := Ok(());
        NoneFollows(dir.plan, from, r);
      }
    }

    method WriteRow(row: Row) returns (r: Result<(), Operation>)
      requires Valid() && current.Some? && (sound ==> |open| < limit)
      modifies this, dir
      ensures Valid() && Foreign() == old(Foreign()) && created == old(created)
      ensures astray == old(astray)
      ensures r.Ok? ==> sound == old(sound) && current.Some? && parts == old(parts) && open == old(open) + [row]
      ensures Follows([WriteRecord], dir.plan, old(Here()), r, Here())
      ensures r.Ok? ==> current.value.rowCount == old(current.value.rowCount) + 1
      ensures r.Err? ==> !sound && r.error == WriteRecord
    {
      ghost var from := Here();
      hide Succeeds, Follows, GoneAstray;
      var part := current.value;
      var ok := dir.Write(part.path, Csv(dir.files[part.path].records + [row], false));
      if !ok {
        sound := false;
        r := Err(WriteRecord);
        SingleFollows(WriteRecord, dir.plan, from, r, Here());
        return;
      }
      current := Some(part.(rowCount := part.rowCount + 1));
      open := open + [row];
      r := Ok(());
      SingleFollows(WriteRecord, dir.plan, from, r, Here());
    }

    /** Have a part open that can take one more row. */
    method MakeRoom() returns (r: Result<(), Operation>)
      requires Valid() && (sound ==> Steady())
      modifies this, dir
      ensures Valid() && Foreign() == old(Foreign())
      ensures Follows(Room(limit, old(Count())), dir.plan, old(Here()), r, Here())
      ensures r.Ok? ==> current.Some? && current.value.rowCount + 1 == CountAfterRow(limit, old(Count()))
      ensures r.Ok? ==> sound == old(sound) && astray == old(astray)
      ensures r.Ok? && sound ==> |open| < limit && Rows() == old(Rows())
      ensures r.Ok? && sound ==> forall i :: 0 <= i < |parts| ==> |parts[i]| == limit
      ensures r.Err? ==>
              !sound && r.error != WriteRecord && r.error != WriteArchive
                && (astray == old(astray) <==> r.error == CreatePart)
      ensures r.Err? ==> GoneAstray(old(astray), r.error, astray)
    {
      assert sound && current.Some? ==> current.value.rowCount == |open| <= limit;
      FlattenSnoc(parts, open);
      ghost var from := Here();
      hide Owns, Holds, Foreign, Here, Flatten, Follows, GoneAstray;
      if current.None? {
        r := OpenNewPart();
        return;
      }
      if current.value.rowCount >= limit {
        assert Room(limit, old(Count())) == [ClosePart] + [CreatePart, WriteHeader];
        r := CloseCurrentPart();
        ghost var closed, mid := r, Here();
        if r.Ok? {
          r := OpenNewPart();
        }
        FollowsInTurn([ClosePart], [CreatePart, WriteHeader], dir.plan, from, closed, mid, r, Here());
        return;
      }
      r := Ok(());
      NoneFollows(dir.plan, from, r);
    }

    /** One row, in a new part if need be. */
    method TakeRow(row: Row) returns (r: Result<(), Operation>)
      requires Valid() && (sound ==> Steady())
      modifies this, dir
      ensures Valid() && Foreign() == old(Foreign())
      ensures r.Ok? ==> sound == old(sound) && astray == old(astray)
      ensures r.Ok? && sound ==> Steady() && Rows() == old(Rows()) + [row]
      ensures Follows(Room(limit, old(Count())) + [WriteRecord], dir.plan, old(Here()), r, Here())
      ensures r.Ok? ==> Count() == Some(CountAfterRow(limit, old(Count())))
      ensures r.Err? ==> !sound && r.error != WriteArchive
      ensures r.Err? ==> GoneAstray(old(astray), r.error, astray)
      ensures r.Err? ==> (astray == old(astray) <==> r.error == CreatePart || r.error == WriteRecord)
    {
      hide Owns, Holds, Foreign, Here, Flatten, Follows, Room, CountAfterRow;
      ghost var from, room := Here(), Room(limit, Count());
      assert GoneAstray(astray, WriteRecord, astray);
      hide GoneAstray;
      r := MakeRoom();
      ghost var made, mid := r, Here();
      ghost var closed, written := Flatten(parts), open;
      if r.Ok? {
        r := WriteRow(row);
        assert closed + (written + [row]) == (closed + written) + [row];
      }
      FollowsInTurn(room, [WriteRecord], dir.plan, from, made, mid, r, Here());
    }

    /** Write one batch. A failure leaves a file astray exactly when it happened
        while writing a header or closing a part. */
    method WriteRows(batch: seq<Row>) returns (r: Result<(), Operation>)
      requires Valid() && (sound ==> Steady())
      modifies this, dir
      ensures Valid() && Foreign() == old(Foreign())
      ensures r.Ok? ==> sound == old(sound) && astray == old(astray)
      ensures r.Ok? && sound ==> Steady() && Rows() == old(Rows()) + batch
      ensures Follows(ForRows(limit, old(Count()), |batch|), dir.plan, old(Here()), r, Here())
      ensures r.Ok? ==> Count() == CountAfter(limit, old(Count()), |batch|)
      ensures r.Err? ==> !sound && r.error != WriteArchive
      ensures r.Err? ==> GoneAstray(old(astray), r.error, astray)
      ensures r.Err? ==> (astray == old(astray) <==> r.error == CreatePart || r.error == WriteRecord)
    {
      ghost var from, count0, rows := Here(), Count(), Rows();
      r := Ok(());
      PrefixGrows(rows, batch, |batch|);
      NothingFollows(limit, dir.plan, count0, from, r);
      hide *;
      for i := 0 to |batch|
        invariant Valid() && Foreign() == old(Foreign()) && sound == old(sound) && astray == old(astray)
        invariant sound ==> Steady() && Rows() == rows + batch[..i]
        invariant r.Ok? && Follows(ForRows(limit, count0, i), dir.plan, from, r, Here())
        invariant Count() == CountAfter(limit, count0, i)
      {
        ghost var before, at := r, Here();
        r := TakeRow(batch[i]);
        RowFollows(limit, dir.plan, count0, i, |batch|, from, before, at, r, Here());
        if r.Err? {
          return;
        }
        PrefixGrows(rows, batch, i);
      }
    }

    /** Write batch after batch, giving up at the first failure; the batches matter
        only for the rows they hold together. */
    method WriteBatches(batches: seq<seq<Row>>) returns (r: Result<(), Operation>)
      requires Valid() && sound && Steady()
      modifies this, dir
      ensures Valid() && Foreign() == old(Foreign())
      ensures r.Ok? ==> sound && Steady() && astray == old(astray) && Rows() == old(Rows()) + Flatten(batches)
      ensures r.Ok? ==> Count() == CountAfter(limit, old(Count()), |Flatten(batches)|)
      ensures Follows(ForRows(limit, old(Count()), |Flatten(batches)|), dir.plan, old(Here()), r, Here())
      ensures r.Err? ==> r.error != WriteArchive
      ensures r.Err? ==> GoneAstray(old(astray), r.error, astray)
      ensures r.Err? ==> (astray == old(astray) <==> r.error == CreatePart || r.error == WriteRecord)
      decreases |batches|
    {
      if batches == [] {
        r := Ok(());
        NothingFollows(limit, dir.plan, Count(), Here(), r);
        return;
      }
      ghost var from, count, rows := Here(), Count(), Rows();
      ghost var rest := Flatten(batches[1..]);
      FirstBatch(batches, rows);
      hide *;
      r := WriteRows(batches[0]);
      ghost var written, mid := r, Here();
      if r.Ok? {
        r := WriteBatches(batches[1..]);
      }
      RowsFollow(limit, dir.plan, count, |batches[0]|, |rest|, |Flatten(batches)|, from, written, mid, r, Here());
    }

    /** The paths an abort goes through, in its order. */
    ghost function PathsToRemove(): seq<nat>
      reads this
    {
      (if current.Some? then [current.value.path] else []) + partPaths
    }

    /** Try to remove the current part and every closed one. */
    method RemoveTracked()
      requires dir.Valid()
      modifies dir
      ensures dir.files == old(dir.files) - Removed(old(PathsToRemove()), dir.plan, old(dir.operations))
      ensures dir.operations == old(dir.operations) + old(Here()).parts
    {
      ghost var files, from := dir.files, dir.operations;
      hide Removed;
      if current.Some? {
        var path := current.value.path;
        var _ := dir.Remove(path);
        RemovedFirst(files, path, partPaths, dir.plan, from);
      } else {
        assert [] + partPaths == partPaths;
      }
      dir.RemoveAll(partPaths);
    }

    /** Remove every file still kept track of. What is left are the files that went
        astray before and those whose removal fails. */
    method Abort()
      requires Valid()
      modifies this, dir
      ensures Foreign() == old(Foreign()) && created == old(created)
      ensures dir.operations == old(dir.operations) + old(Here()).parts
      ensures dir.files == old(dir.files) - Removed(old(PathsToRemove()), dir.plan, old(dir.operations))
      ensures old(astray) <= Left()
      ensures |Left()| == |old(astray)| + Refused(dir.plan, old(Here()).operations, old(Here()).parts)
    {
      ghost var paths, n, files, from := PathsToRemove(), Here().parts, dir.files, Here().operations;
      DistinctPaths();
      assert from == dir.operations;
      hide Valid, Owns, Holds, Tracked, PathsToRemove, Here, Removed, Distinct, Among, Refused;
      RemoveTracked();
      LeftAfter(files, created, astray, paths, n, dir.plan, from, dir.files);
    }

    lemma DistinctPaths()
      requires Owns()
      ensures Distinct(PathsToRemove()) && Among(PathsToRemove()) == Tracked() && |PathsToRemove()| == Here().parts
      ensures Left() == Among(PathsToRemove()) + astray && astray !! Among(PathsToRemove()) && dir.Valid()
    {
      var paths := PathsToRemove();
      var skip := |paths| - |partPaths|;
      assert forall i :: skip <= i < |paths| ==> paths[i] == partPaths[i - skip];
      assert forall path :: path in paths <==> path in Tracked();
    }

    method CloseFinalPart() returns (r: Result<(), Operation>)
      requires Valid() && sound && Steady()
      modifies this, dir
      ensures Foreign() == old(Foreign())
      ensures r.Ok? ==> Valid() && sound && current.None?
      ensures r.Ok? ==> parts == if old(Rows()) == [] then [[]] else Chunks(old(Rows()), limit)
      ensures r.Err? ==> (Left() == {} <==> r.error == CreatePart) && r.error != WriteArchive && r.error != WriteRecord
      ensures r.Err? ==> |Left()| == Here().parts + Strays(r.error)
      ensures Follows(Closing(old(Count())), dir.plan, old(Here()), r, Here())
    {
      PiecesOfRows(parts, open, limit, current.Some?);
      assert astray == {} && (current.None? ==> partPaths == []);
      ghost var from, pieces := Here(), if current.None? then [[]] else parts + [open];
      ghost var opening := if current.None? then [CreatePart, WriteHeader] else [];
      assert pieces == if Rows() == [] then [[]] else Chunks(Rows(), limit);
      r := Ok(());
      NoneFollows(dir.plan, from, r);
      hide Rows, Flatten, Chunks, Follows, Owns, Holds, Tracked, Foreign, Distinct, Among, GoneAstray, Left;
      if current.None? && partPaths == [] {
        r := OpenNewPart();
      }
      ghost var first, mid := r, Here();
      if r.Ok? {
        assert parts + [open] == pieces;
        r := CloseCurrentPart();
      }
      FollowsInTurn(opening, [ClosePart], dir.plan, from, first, mid, r, Here());
      if r.Err? {
        LeftUnfinished(r.error);
      }
    }

    lemma LeftUnfinished(operation: Operation)
      requires Owns() && (operation == CreatePart || operation == WriteHeader || operation == ClosePart)
      requires if operation == CreatePart then astray == {} && Here().parts == 0 else GoneAstray({}, operation, astray)
      ensures Left() == {} <==> operation == CreatePart
      ensures |Left()| == Here().parts + Strays(operation)
    {
      TrackedCount();
    }

    lemma TrackedCount()
      requires Owns()
      ensures Left() == Tracked() + astray && |Left()| == Here().parts + |astray|
      ensures Here().parts == 1 && partPaths != [] ==> Tracked() == {partPaths[0]}
    {
      AmongCount(partPaths);
      assert Left() == Tracked() + astray;
    }

    /** Copy every part into an archive. */
    method TryZipParts(zipPath: nat, report: Option<string>) returns (r: Result<nat, Operation>)
      requires dir.Valid() && zipPath < dir.counter && zipPath !in dir.files
      requires forall i :: 0 <= i < |partPaths| ==> partPaths[i] in dir.files && dir.files[partPaths[i]].Csv?
      modifies dir
      ensures dir.Valid() && dir.files - {zipPath} == old(dir.files)
      ensures r.Ok? ==> r.value == |partPaths| && zipPath in dir.files && dir.files[zipPath].Archive?
      ensures r.Ok? ==> dir.files[zipPath].report == report && |dir.files[zipPath].parts| == |partPaths|
      ensures r.Ok? ==> forall i :: 0 <= i < |partPaths| ==>
              dir.files[zipPath].parts[i] == old(dir.files[partPaths[i]].records)
      ensures Follows(Archiving(|partPaths|), dir.plan, old(Here()), r, Here()) && (r.Err? ==> r.error == WriteArchive)
      ensures zipPath in dir.files <==> r.Ok? || dir.operations > old(dir.operations) + 1
    {
      ghost var from := Here();
      hide Follows, Archiving, Succeeds, AllOk;
      var ok := dir.Create(zipPath, Archive([], None));
      ArchivingFollows(|partPaths|, dir.plan, from, 0, ok, Here());
      if !ok {
        return Err(WriteArchive);
      }
      var entries: seq<seq<Row>> := [];
      for i := 0 to |partPaths|
        invariant dir.Valid() && zipPath in dir.files && dir.files - {zipPath} == old(dir.files)
        invariant dir.files[zipPath] == Archive(entries, None) && |entries| == i
        invariant dir.operations == from.operations + i + 1 && AllOk(dir.plan, from.operations, i + 1)
        invariant forall j :: 0 <= j < i ==> entries[j] == old(dir.files[partPaths[j]].records)
      {
        assert partPaths[i] in dir.files - {zipPath};
        entries := entries + [dir.files[partPaths[i]].records];
        ok := dir.Write(zipPath, Archive(entries, None));
        ArchivingFollows(|partPaths|, dir.plan, from, i + 1, ok, Here());
        if !ok {
          return Err(WriteArchive);
        }
      }
      ok := dir.Write(zipPath, Archive(entries, report));
      ArchivingFollows(|partPaths|, dir.plan, from, |partPaths| + 1, ok, Here());
      if !ok {
        return Err(WriteArchive);
      }
      return Ok(|partPaths|);
    }

    /** Try to remove the parts, and the archive if it failed. */
    method ClearUp(zipPath: nat, failed: bool)
      requires dir.Valid()
      modifies dir
      ensures dir.files == old(dir.files) - Removed(if failed then partPaths + [zipPath] else partPaths, dir.plan,
                                                    old(dir.operations))
    {
      hide Removed;
      dir.RemoveAll(partPaths);
      if failed {
        var _ := dir.Remove(zipPath);
        RemovedSnoc(partPaths, zipPath, dir.plan, old(dir.operations));
      }
    }

    /** Deliver an archive of the parts, and leave no part; on failure leave no archive either. */
    method ZipParts(report: Option<string>) returns (r: Result<Assembled, Operation>)
      requires Valid() && sound && current.None?
      modifies this, dir
      ensures Foreign() == old(Foreign())
      ensures r.Ok? ==> r.value.Zip? && r.value.partCount == |old(parts)| && r.value.path in Left()
      ensures r.Ok? ==>
              r.value.path in dir.files && dir.files[r.value.path] == Archive(WithHeader(header, old(parts)), report)
      ensures Outcome(Carry(Archiving(|old(parts)|), dir.plan, old(Here())), r)
      ensures |Left()| == LeftByZip(|old(parts)|, dir.plan, old(Here()))
    {
      DistinctPaths();
      assert PathsToRemove() == partPaths && |parts| == |partPaths| && Left() == Among(partPaths);
      ghost var n, at, before, mine := |parts|, Here(), dir.files, created;
      hide Carry, Archiving, Removed, Refused, Distinct, Among, LeftByZip;
      var zipPath := dir.UniquePath();
      assert zipPath !in created && zipPath !in partPaths;
      var result := TryZipParts(zipPath, report);
      ghost var to, files := Here(), dir.files;
      assert to.operations == dir.operations && at.operations == old(dir.operations);
      assert Follows(Archiving(|partPaths|), dir.plan, at, result, to);
      assert result.Ok? ==> dir.files[zipPath].parts == WithHeader(header, parts);
      created := created + {zipPath};
      hide Valid, Owns, Holds, Tracked, Here;
      ClearUp(zipPath, result.Err?);
      ZipLeaves(before, mine, partPaths, n, zipPath, dir.plan, at, result, to, files, dir.files);
      r := if result.Ok? then Ok(Zip(zipPath, result.value)) else Err(result.error);
    }

    method FinishParts(report: Option<string>) returns (r: Result<Assembled, Operation>)
      requires Valid() && sound && current.None? && parts != []
      modifies this, dir
      ensures Foreign() == old(Foreign())
      ensures r.Ok? ==> (r.value.SingleCsv? <==> |old(parts)| == 1) && r.value.path in Left()
      ensures r.Ok? && r.value.SingleCsv? ==> dir.files[r.value.path] == Csv([header] + old(parts)[0], true)
      ensures r.Ok? && r.value.Zip? ==> dir.files[r.value.path] == Archive(WithHeader(header, old(parts)), report)
      ensures r.Ok? && r.value.Zip? ==> r.value.partCount == |old(parts)|
      ensures Outcome(Carry(Ending(|old(parts)|), dir.plan, old(Here())), r)
      ensures |Left()| == LeftByEnding(|old(parts)|, dir.plan, old(Here()))
    {
      if |partPaths| == 1 {
        TrackedCount();
        assert |Left()| == 1;
        ghost var from := Here();
        var path := partPaths[0];
        partPaths := [];
        var measured := dir.Attempt();
        r := if measured then Ok(SingleCsv(path)) else Err(MeasurePart);
        SingleFollows(MeasurePart, dir.plan, from, r, Tally(dir.operations, from.parts));
      } else {
        r := ZipParts(report);
      }
    }

    /** What is delivered depends on the rows alone, not on the batches they came in. */
    method Finish(report: Option<string>) returns (r: Result<Assembled, Operation>)
      requires Valid() && sound && Steady()
      modifies this, dir
      ensures Foreign() == old(Foreign())
      ensures r.Ok? ==>
              r.value.path in Left() && dir.files[r.value.path] == Delivery(header, old(Rows()), limit, report)
      ensures r.Ok? ==> (r.value.SingleCsv? <==> |old(Rows())| <= limit)
      ensures r.Ok? && r.value.Zip? ==> r.value.partCount == |Chunks(old(Rows()), limit)|
      ensures var parts := PartsOf(limit, |old(Rows())|);
              && Outcome(Carry(ForFinish(old(Count()), parts), dir.plan, old(Here())), r)
              && |Left()| == LeftByFinish(old(Count()), parts, dir.plan, old(Here()))
    {
      ghost var rows, from, count := Rows(), Here(), Count();
      ghost var ending := Ending(PartsOf(limit, |rows|));
      OneChunk(rows, limit);
      CarryConcat(Closing(count), ending, dir.plan, from);
      hide Holds, Owns, Tracked, Carry, Closing, Ending, PartsOf, Chunks, LeftByEnding;
      var closed := CloseFinalPart();
      if closed.Err? {
        return Err(closed.error);
      }
      r := FinishParts(report);
    }
  }

  lemma PrefixGrows(rows: seq<Row>, batch: seq<Row>, i: nat)
    requires i <= |batch|
    ensures rows + batch[..0] == rows && batch[..|batch|] == batch
    ensures i < |batch| ==> rows + batch[..i + 1] == (rows + batch[..i]) + [batch[i]]
  {
  }

  /** The part files at the end, header-only if there was no row. */
  lemma PiecesOfRows(parts: seq<seq<Row>>, open: seq<Row>, limit: nat, any: bool)
    requires limit > 0 && |open| <= limit && forall i :: 0 <= i < |parts| ==> |parts[i]| == limit
    requires if any then open != [] else parts == [] && open == []
    ensures var rows := Flatten(parts) + open;
            && (rows == [] <==> !any)
            && (any ==> parts + [open] == Chunks(rows, limit))
  {
    if any {
      FlattenSnoc(parts, open);
      assert (Flatten(parts) + open)[|Flatten(parts)|] == open[0];
      NeatMeansChunks(parts + [open], limit);
    }
  }

  lemma OneChunk(rows: seq<Row>, limit: nat)
    requires limit > 0
    ensures |rows| > limit <==> |Chunks(rows, limit)| > 1
    ensures 0 < |rows| <= limit ==> Chunks(rows, limit) == [rows]
    ensures PartsOf(limit, |rows|) == if rows == [] then 1 else |Chunks(rows, limit)|
  {
    if |rows| > limit {
      assert Chunks(rows[limit..], limit) != [];
    }
    var pieces := Chunks(rows, limit);
    ChunksAreNeat(rows, limit);
    NeatCount(pieces, limit);
    if rows != [] {
      QuotientIs(|rows| + limit - 1, limit, |pieces|);
    }
  }

  // ----- Whole exports

  /** Every part starts with the header and holds at most the limit, all but the
      last are full, the parts together are the rows in order, and there are
      as many as the limit requires; an archive holds the report beside them. */
  lemma DeliveryHoldsTheRows(header: Row, rows: seq<Row>, limit: nat, report: Option<string>)
    requires limit > 0
    ensures var file := Delivery(header, rows, limit, report);
            && (file.Csv? <==> |rows| <= limit)
            && (file.Csv? ==> file.records == [header] + rows)
            && (file.Archive? ==>
                  && var parts := file.parts;
                  && (forall i :: 0 <= i < |parts| ==> 1 < |parts[i]| <= limit + 1 && parts[i][0] == header)
                  && (forall i :: 0 <= i < |parts| - 1 ==> |parts[i]| == limit + 1)
                  && file.report == report
                  && Flatten(seq(|parts|, i requires 0 <= i < |parts| => parts[i][1..])) == rows
                  && |parts| == (|rows| + limit - 1) / limit)
  {
    var pieces := Chunks(rows, limit);
    ChunksAreNeat(rows, limit);
    NeatCount(pieces, limit);
    if |rows| > limit {
      var parts := WithHeader(header, pieces);
      assert seq(|parts|, i requires 0 <= i < |parts| => parts[i][1..]) == pieces;
      QuotientIs(|rows| + limit - 1, limit, |parts|);
    }
  }

  /** What is said of a staged export. It is delivered unless an operation fails,
      and it leaves as many files as the plan of faults says. If no operation
      fails, that is the delivered file alone. If none fails but the first to
      fail, it is none exactly when that one loses track of nothing. */
  ghost predicate Staged(before: map<nat, File>, limit: nat, n: nat, plan: Plan, from: nat,
        r: Result<Assembled, Operation>, after: map<nat, File>)
    requires limit > 0
  {
    var p := Carry(ForExport(limit, n), plan, Tally(from, 0));
    && Outcome(p, r)
    && |after.Keys| == |before.Keys| + FilesLeft(limit, n, plan, from)
    && (forall path :: path in before ==> path in after && after[path] == before[path])
    && (r.Ok? ==> r.value.path in after && r.value.path !in before)
    && (AllSucceed(plan, from) ==> r.Ok? && after.Keys == before.Keys + {r.value.path})
    && (r.Err? && after.Keys == before.Keys ==> LeavesNothing(r.error))
    && (AllSucceed(plan, p.tally.operations) ==>
          if r.Ok? then after.Keys == before.Keys + {r.value.path}
          else after.Keys == before.Keys <==> LeavesNothing(r.error))
  }

  /** A failure among the first rows is the failure of them all. */
  lemma FailedEarlier(limit: nat, done: nat, n: nat, plan: Plan, from: nat, rows: Result<(), Operation>, mid: Tally)
    requires Follows(ForRows(limit, None, done), plan, Tally(from, 0), rows, mid)
    requires if rows.Err? then done <= n else done == n
    ensures Follows(ForRows(limit, None, n), plan, Tally(from, 0), rows, mid)
  {
    if rows.Err? {
      RowsFollow(limit, plan, None, done, n - done, n, Tally(from, 0), rows, mid, rows, mid);
    }
  }

  /** From the rows written, and what finished or aborted the export, to the whole. */
  lemma StagedIs(before: map<nat, File>, limit: nat, done: nat, n: nat, plan: Plan, from: nat,
      rows: Result<(), Operation>, mid: Tally, r: Result<Assembled, Operation>, after: map<nat, File>,
      created: set<nat>)
    requires limit > 0 && Follows(ForRows(limit, None, done), plan, Tally(from, 0), rows, mid)
    requires if rows.Err? then done <= n else done == n
    requires after - created == before && (r.Ok? ==> r.value.path in after.Keys * created)
    requires rows.Err? ==>
               && r == Err(rows.error)
               && |after.Keys * created| == Strays(rows.error) + Refused(plan, mid.operations, mid.parts)
    requires rows.Ok? ==>
               && var (count, parts) := (CountAfter(limit, None, n), PartsOf(limit, n));
               && Outcome(Carry(ForFinish(count, parts), plan, mid), r)
               && |after.Keys * created| == LeftByFinish(count, parts, plan, mid)
    ensures Staged(before, limit, n, plan, from, r, after)
  {
    FailedEarlier(limit, done, n, plan, from, rows, mid);
    ExportFollows(limit, n, plan, from, rows, mid, r);
    ExportLeavesRightly(limit, n, plan, from);
    FilesBeside(before, created, if r.Ok? then r.value.path else 0, after);
    hide Carry, ForExport, FilesLeft, LeavesNothing, Follows, ForRows, CountAfter, PartsOf, ForFinish, LeftByFinish,
      AllSucceed, Strays, Refused;
    if AllSucceed(plan, from) {
      NoFault(ForExport(limit, n), plan, Tally(from, 0));
      SucceedsLater(ForExport(limit, n), plan, Tally(from, 0));
    }
  }

  lemma FilesBeside(before: map<nat, File>, created: set<nat>, path: nat, after: map<nat, File>)
    requires after - created == before
    ensures var made := after.Keys * created;
            && |after.Keys| == |before.Keys| + |made|
            && (after.Keys == before.Keys <==> |made| == 0)
            && (forall other :: other in before ==> other in after && after[other] == before[other])
            && (path in made ==> path in after && path !in before)
            && (path in made && |made| == 1 ==> after.Keys == before.Keys + {path})
  {
    var made := after.Keys * created;
    assert after.Keys == before.Keys + made && before.Keys !! made;
    assert path in made ==> made == {path} + (made - {path});
    assert after.Keys == before.Keys ==> made == {};
  }

  /** Stage rows already in memory, split at the row limit of a spreadsheet. */
  method Assemble(dir: TempDir, header: Row, rows: seq<Row>) returns (r: Result<Assembled, Operation>)
    requires dir.Valid()
    modifies dir
    ensures Staged(old(dir.files), EXCEL_MAX_DATA_ROWS, |rows|, dir.plan, old(dir.operations), r, dir.files)
    ensures r.Ok? ==> dir.files[r.value.path] == Delivery(header, rows, EXCEL_MAX_DATA_ROWS, None)
  {
    r := StageBatches(dir, header, [rows], EXCEL_MAX_DATA_ROWS, None);
    assert Flatten([rows]) == rows + Flatten([rows][1..]) == rows;
  }

  lemma FirstBatch(batches: seq<seq<Row>>, rows: seq<Row>)
    requires batches != []
    ensures |Flatten(batches)| == |batches[0]| + |Flatten(batches[1..])|
    ensures (rows + batches[0]) + Flatten(batches[1..]) == rows + Flatten(batches)
  {
  }

  /** Stage rows in batches and deliver them, or abort when a batch fails. */
  method StageBatches(dir: TempDir, header: Row, batches: seq<seq<Row>>, limit: nat, report: Option<string>)
    returns (r: Result<Assembled, Operation>)
    requires dir.Valid() && limit > 0
    modifies dir
    ensures Staged(old(dir.files), limit, |Flatten(batches)|, dir.plan, old(dir.operations), r, dir.files)
    ensures r.Ok? ==> dir.files[r.value.path] == Delivery(header, Flatten(batches), limit, report)
  {
    hide Assembler.Valid, Assembler.Owns, Assembler.Holds, Assembler.Tracked, Assembler.Steady, Assembler.Rows;
    hide Assembler.Count, Assembler.Here, Assembler.PathsToRemove, TempDir.Valid, Staged, GoneAstray, Flatten, Delivery;
    hide Chunks, Carry, Follows, Outcome, ForRows, CountAfter, ForFinish, ForExport, PartsOf, Refused, Removed;
    hide FilesLeft, LeftByFinish;
    var assembler := new Assembler(header, limit, dir);
    ghost var n, from := |Flatten(batches)|, dir.operations;
    assert [] + Flatten(batches) == Flatten(batches);
    var written := assembler.WriteBatches(batches);
    ghost var mid := assembler.Here();
    if written.Err? {
      FirstAstray(assembler.astray, written.error);
      assembler.Abort();
      r := Err(written.error);
    } else {
      r := assembler.Finish(report);
    }
    StagedIs(old(dir.files), limit, n, n, dir.plan, from, written, mid, r, dir.files, assembler.created);
  }

  lemma FirstAstray(astray: set<nat>, operation: Operation)
    requires GoneAstray({}, operation, astray)
    ensures |astray| == Strays(operation)
  {
  }

  /** Making one new file changes no other, and it is one of its maker's files. */
  lemma BesideNew(files: map<nat, File>, created: set<nat>, path: nat, files': map<nat, File>)
    requires path !in files && path !in created && path in files' && files' == files[path := files'[path]]
    ensures files' - (created + {path}) == files - created
    ensures files'.Keys * (created + {path}) == files.Keys * created + {path}
  {
  }
}
