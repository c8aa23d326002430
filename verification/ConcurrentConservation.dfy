/** What every step of the concurrent export keeps: each vehicle is emitted,
    held by one worker, still queued, or dropped by a run that is bound to
    fail; and every count of failures and rows is in exactly one place. */
module ConcurrentConservation {
  import opened Wrappers
  import opened Ranges
  import opened Upstream
  import opened AbortCounter
  import opened MergeJoin
  import opened FuelFetch
  import opened ConcurrentExport

  // ----- The quantity conserved

  /** What the shared state accounts for, less what it still owes. */
  function Held(c: Setting, sh: Shared): Load {
    Load(multiset(VehiclesOf(sh.emitted)) + multiset(SelectedByAll(c.data, c.merken, sh.queue)) + sh.abandoned.rows,
         Unavailable(sh.emitted) + sh.abandoned.affected - sh.summary.vehiclesAffected,
         sh.emittedCount + sh.abandoned.uncounted - |sh.emitted|,
         sh.counters.attempted + sh.abandoned.unattempted - sh.summary.attempted,
         sh.counters.failures + sh.abandoned.unfailed - sh.summary.failures)
  }

  function Total(c: Setting, workers: seq<Stage>): Load {
    if workers == [] then NOTHING else Plus(LoadOf(c, workers[0]), Total(c, workers[1..]))
  }

  predicate Conserved(c: Setting, s: State) {
    Plus(Held(c, s.shared), Total(c, s.workers)) == Load(multiset(c.Vehicles()), 0, 0, 0, 0)
  }

  lemma PlusLaws(a: Load, b: Load, d: Load)
    ensures Plus(a, b) == Plus(b, a)
    ensures Plus(Plus(a, b), d) == Plus(a, Plus(b, d))
    ensures Plus(NOTHING, a) == a
  {
    assert a.rows + b.rows == b.rows + a.rows;
    assert a.rows + b.rows + d.rows == a.rows + (b.rows + d.rows);
    assert multiset{} + a.rows == a.rows;
  }

  lemma {:induction false} TotalUpdate(c: Setting, workers: seq<Stage>, i: nat, w: Stage)
    requires i < |workers|
    ensures Plus(Total(c, workers[i := w]), LoadOf(c, workers[i])) == Plus(Total(c, workers), LoadOf(c, w))
  {
    hide LoadOf;
    var updated := workers[i := w];
    if i == 0 {
      assert updated[1..] == workers[1..];
      var rest := Total(c, workers[1..]);
      PlusLaws(LoadOf(c, w), rest, LoadOf(c, workers[0]));
      PlusLaws(rest, LoadOf(c, workers[0]), NOTHING);
      PlusLaws(LoadOf(c, workers[0]), rest, LoadOf(c, w));
      PlusLaws(Plus(rest, LoadOf(c, workers[0])), LoadOf(c, w), NOTHING);
    } else {
      assert updated[1..] == workers[1..][i - 1 := w];
      TotalUpdate(c, workers[1..], i - 1, w);
      PlusLaws(LoadOf(c, workers[0]), Total(c, updated[1..]), LoadOf(c, workers[i]));
      PlusLaws(LoadOf(c, workers[0]), Total(c, workers[1..]), LoadOf(c, w));
    }
  }

  /** A step that conserves what it touches conserves the whole. */
  lemma Rebalance(held: Load, total: Load, old': Load, held': Load, total': Load, new': Load)
    requires Plus(held', new') == Plus(held, old')
    requires Plus(total', old') == Plus(total, new')
    ensures Plus(held', total') == Plus(held, total)
  {
    assert held'.rows + new'.rows == held.rows + old'.rows by {
      assert Plus(held', new').rows == Plus(held, old').rows;
    }
    assert total'.rows + old'.rows == total.rows + new'.rows by {
      assert Plus(total', old').rows == Plus(total, new').rows;
    }
    forall v
      ensures (held'.rows + total'.rows)[v] == (held.rows + total.rows)[v]
    {
      assert (held'.rows + new'.rows)[v] == (held.rows + old'.rows)[v];
      assert (total'.rows + old'.rows)[v] == (total.rows + new'.rows)[v];
    }
    assert held'.rows + total'.rows == held.rows + total.rows;
  }

  // ----- The shape of what a worker holds

  /** A page is a nonempty run of its range; a short one ends it. */
  predicate PageOk(c: Setting, range: KentekenRange, page: seq<VehicleRow>) {
    && page != [] && Register(page) && |page| <= c.pageSize
    && (|page| < c.pageSize ==> LeftBehind(c, range, page) == [])
  }

  /** The fuel rows of a page are those fetched, or none when the fetch failed. */
  predicate GoodFuel(c: Setting, page: seq<VehicleRow>, fuel: seq<FuelRow>, failed: bool)
    requires c.Valid() && Register(page)
  {
    if failed then fuel == [] else FetchFuel(c.fuelData, PlatesOf(page), c.fuelBatch, c.fuelLimit) == Ok(fuel)
  }

  predicate BatchOk(c: Setting, b: Batch)
    requires c.Valid()
  {
    && PageOk(c, b.range, b.page)
    && GoodFuel(c, b.page, b.fuel, b.failed)
  }

  /** An emitted row is the vehicle's row of the nested-loop join over the
      whole fuel dataset and says of it what is true, or is marked as lacking its fuel rows. */
  predicate RowOk(c: Setting, row: WidenedRow) {
    && row.vehicle.kenteken.Some?
    && if row.status == FuelUnavailable then row.fuels == []
       else
         && row == JoinRow(row.vehicle, c.fuelData, false) && WellNumbered(row.fuels)
         && TellsTheTruth(row, c.fuelData, false)
  }

  predicate RowsOk(c: Setting, rows: seq<WidenedRow>) {
    forall i :: 0 <= i < |rows| ==> RowOk(c, rows[i])
  }

  predicate ShapeOk(c: Setting, w: Stage)
    requires c.Valid()
  {
    match w
    case Fueling(range, page) => PageOk(c, range, page)
    case Fueled(b) => BatchOk(c, b)
    case Recording(b, phase) => BatchOk(c, b) && (phase.Counted? ==> phase.failed == b.failed)
    case Recorded(b) => BatchOk(c, b)
    case Joined(range, page, rows) => PageOk(c, range, page) && VehiclesOf(rows) == page && RowsOk(c, rows)
    case Written(range, page, rows) => PageOk(c, range, page) && |rows| == |page|
    case _ => true
  }

  // ----- Facts about pages and rows

  lemma PageSplitsAhead(c: Setting, range: KentekenRange, cursor: Option<string>)
    requires c.Valid()
    ensures var page := c.Page(range, cursor);
            && (page == [] && c.pageSize > 0 ==> c.Ahead(range, cursor) == [])
            && (page != [] ==> PageOk(c, range, page) && c.Ahead(range, cursor) == page + LeftBehind(c, range, page))
  {
    var ahead, page := c.Ahead(range, cursor), c.Page(range, cursor);
    var q := RangePageQuery(c.merken, range, cursor, c.pageSize);
    SelectedIsRegister(c.data, q.merken, q.after, q.upTo);
    assert ahead == page + ahead[|page|..];
    if page != [] {
      ResumeAfterPage(c.data, q.merken, q.after, q.upTo, page, ahead[|page|..]);
      assert LastPlate(page).Some?;
      PrefixIsRegister(ahead, page);
    }
  }

  lemma PrefixIsRegister(rows: seq<VehicleRow>, prefix: seq<VehicleRow>)
    requires Register(rows) && prefix <= rows
    ensures Register(prefix)
  {
    assert forall i :: 0 <= i < |prefix| ==> prefix[i] == rows[i];
  }

  lemma MultisetOfParts<T>(whole: seq<T>, first: seq<T>, second: seq<T>)
    requires whole == first + second
    ensures multiset(whole) == multiset(first) + multiset(second)
  {
  }

  lemma {:induction false} UnavailableConcat(a: seq<WidenedRow>, b: seq<WidenedRow>)
    ensures Unavailable(a + b) == Unavailable(a) + Unavailable(b)
  {
    if a == [] {
      assert a + b == b;
    } else {
      assert (a + b)[1..] == a[1..] + b;
      UnavailableConcat(a[1..], b);
    }
  }

  lemma RowsOfParts(whole: seq<WidenedRow>, first: seq<WidenedRow>, second: seq<WidenedRow>)
    requires whole == first + second
    ensures multiset(VehiclesOf(whole)) == multiset(VehiclesOf(first)) + multiset(VehiclesOf(second))
    ensures Unavailable(whole) == Unavailable(first) + Unavailable(second)
  {
    UnavailableConcat(first, second);
    hide Unavailable;
    assert VehiclesOf(whole) == VehiclesOf(first) + VehiclesOf(second);
    hide VehiclesOf;
    MultisetOfParts(VehiclesOf(whole), VehiclesOf(first), VehiclesOf(second));
  }

  lemma {:induction false} UnavailableAll(rows: seq<WidenedRow>, failed: bool)
    requires forall i :: 0 <= i < |rows| ==> (rows[i].status == FuelUnavailable <==> failed)
    ensures Unavailable(rows) == if failed then |rows| else 0
  {
    if rows != [] {
      UnavailableAll(rows[1..], failed);
    }
  }

  /** The rows joined for a page are right, whichever way its fuel fetch went. */
  lemma RowsOfPage(c: Setting, page: seq<VehicleRow>, fuel: seq<FuelRow>, failed: bool)
    requires c.Valid() && Register(page) && GoodFuel(c, page, fuel, failed) && Joinable(page, fuel)
    ensures var rows := NestedLoopJoin(page, fuel, failed);
            && VehiclesOf(rows) == page && RowsOk(c, rows) && Unavailable(rows) == if failed then |page| else 0
  {
    var rows := NestedLoopJoin(page, fuel, failed);
    UnavailableAll(rows, failed);
    if !failed {
      FetchThenJoin(page, c.fuelData, c.fuelBatch, c.fuelLimit);
      var whole := NestedLoopJoin(page, c.fuelData, false);
      forall i | 0 <= i < |rows|
        ensures RowOk(c, rows[i])
      {
        JoinRowTellsTheTruth(page[i], c.fuelData, false);
        assert rows[i] == whole[i] == JoinRow(page[i], c.fuelData, false);
      }
    }
  }

  // ----- One step conserves

  predicate Conserves(c: Setting, sh: Shared, w: Stage, sh': Shared, w': Stage) {
    Plus(Held(c, sh'), LoadOf(c, w')) == Plus(Held(c, sh), LoadOf(c, w))
  }

  /** A step conserves if, vehicle by vehicle and count by count, it only moves things. */
  lemma MovesConserve(c: Setting, sh: Shared, w: Stage, sh': Shared, w': Stage, before: Load, after: Load)
    requires before == LoadOf(c, w) && after == LoadOf(c, w')
    requires multiset(VehiclesOf(sh'.emitted)) + multiset(SelectedByAll(c.data, c.merken, sh'.queue))
             + sh'.abandoned.rows + after.rows
          == multiset(VehiclesOf(sh.emitted)) + multiset(SelectedByAll(c.data, c.merken, sh.queue)) + sh.abandoned.rows
            + before.rows
    requires Unavailable(sh'.emitted) + sh'.abandoned.affected - sh'.summary.vehiclesAffected + after.affected
          == Unavailable(sh.emitted) + sh.abandoned.affected - sh.summary.vehiclesAffected + before.affected
    requires sh'.emittedCount + sh'.abandoned.uncounted - |sh'.emitted| + after.uncounted
          == sh.emittedCount + sh.abandoned.uncounted - |sh.emitted| + before.uncounted
    requires sh'.counters.attempted + sh'.abandoned.unattempted - sh'.summary.attempted + after.unattempted
          == sh.counters.attempted + sh.abandoned.unattempted - sh.summary.attempted + before.unattempted
    requires sh'.counters.failures + sh'.abandoned.unfailed - sh'.summary.failures + after.unfailed
          == sh.counters.failures + sh.abandoned.unfailed - sh.summary.failures + before.unfailed
    ensures Conserves(c, sh, w, sh', w')
  {
    hide LoadOf;
  }

  lemma AbandonConserves(c: Setting, sh: Shared, w: Stage, w': Stage)
    requires LoadOf(c, w') == NOTHING
    ensures Conserves(c, sh, w, Abandon(c, sh, w), w')
  {
    var sh' := Abandon(c, sh, w);
    var load := LoadOf(c, w);
    assert sh' == sh.(abandoned := Load(sh.abandoned.rows + load.rows, sh.abandoned.affected + load.affected,
      sh.abandoned.uncounted + load.uncounted, sh.abandoned.unattempted + load.unattempted,
      sh.abandoned.unfailed + load.unfailed));
    hide *;
    Regroup(multiset(VehiclesOf(sh.emitted)), multiset(SelectedByAll(c.data, c.merken, sh.queue)), sh.abandoned.rows,
      load.rows);
    MovesConserve(c, sh, w, sh', w', load, NOTHING);
  }

  lemma PopConserves(c: Setting, sh: Shared, w: Stage)
    requires c.Valid() && CanAct(c, sh, w, Pop)
    ensures var (sh', w') := Act(c, sh, w, Pop); Conserves(c, sh, w, sh', w')
  {
    hide Held, Plus, Conserves, Register, FuelDataset, Selected, Answer, Unavailable, VehiclesOf;
    var (sh', w') := Act(c, sh, w, Pop);
    if sh.queue == [] {
      MovesConserve(c, sh, w, sh', w', NOTHING, NOTHING);
    } else {
      var first, rest := c.Ahead(sh.queue[0], None), SelectedByAll(c.data, c.merken, sh.queue[1..]);
      assert SelectedByAll(c.data, c.merken, sh.queue) == first + rest;
      assert LoadOf(c, w') == Load(multiset(first), 0, 0, 0, 0) && LoadOf(c, w) == NOTHING;
      MultisetOfParts(SelectedByAll(c.data, c.merken, sh.queue), first, rest);
      hide Act, CanAct, SelectedByAll, LoadOf;
      Regroup(multiset(VehiclesOf(sh.emitted)), multiset(rest), sh.abandoned.rows, multiset(first));
      MovesConserve(c, sh, w, sh', w', NOTHING, LoadOf(c, w'));
    }
  }

  lemma Regroup(e: multiset<VehicleRow>, q: multiset<VehicleRow>, a: multiset<VehicleRow>, moved: multiset<VehicleRow>)
    ensures e + q + a + moved == e + (moved + q) + a + multiset{}
    ensures e + q + a + moved == (e + moved) + q + a
    ensures e + q + a + moved == e + q + (a + moved)
  {
  }

  lemma RegroupEmitted(e: multiset<VehicleRow>, q: multiset<VehicleRow>, a: multiset<VehicleRow>,
      written: multiset<VehicleRow>, left: multiset<VehicleRow>, e': multiset<VehicleRow>, before: multiset<VehicleRow>)
    requires e' == e + written && before == written + left
    ensures e' + q + a + left == e + q + a + before
  {
  }

  lemma PageArrivesConserves(c: Setting, sh: Shared, w: Stage)
    requires c.Valid() && CanAct(c, sh, w, PageArrives)
    ensures var (sh', w') := Act(c, sh, w, PageArrives); Conserves(c, sh, w, sh', w') && ShapeOk(c, w')
  {
    hide Register, FuelDataset, Joinable, FetchFuel, NestedLoopJoin, SelectedByAll,
      Selected, Answer, Unavailable, VehiclesOf, ShouldAbort, RowsOk;
    PageSplitsAhead(c, w.range, w.cursor);
    var page := c.Page(w.range, w.cursor);
    if page == [] {
      AbandonConserves(c, sh, w, Idle);
    } else {
      MultisetOfParts(c.Ahead(w.range, w.cursor), page, LeftBehind(c, w.range, page));
    }
  }

  lemma FuelConserves(c: Setting, sh: Shared, w: Stage, a: Action)
    requires c.Valid() && CanAct(c, sh, w, a) && ShapeOk(c, w)
    requires a.FuelArrives? || a.FuelFails? || a.NoteAttempt?
    ensures var (sh', w') := Act(c, sh, w, a); Conserves(c, sh, w, sh', w') && ShapeOk(c, w')
  {
    hide Held, Plus, Conserves, Register, FuelDataset, Joinable, FetchFuel, NestedLoopJoin, SelectedByAll,
      Selected, Answer, Unavailable, VehiclesOf, ShouldAbort, RowsOk;
    var (sh', w') := Act(c, sh, w, a);
    MovesConserve(c, sh, w, sh', w', LoadOf(c, w), LoadOf(c, w'));
  }

  lemma RecordConserves(c: Setting, sh: Shared, w: Stage)
    requires c.Valid() && CanAct(c, sh, w, Record) && ShapeOk(c, w)
    ensures var (sh', w') := Act(c, sh, w, Record); Conserves(c, sh, w, sh', w') && ShapeOk(c, w')
  {
    hide Held, Plus, Conserves, Register, FuelDataset, Joinable, FetchFuel, NestedLoopJoin, SelectedByAll,
      Selected, Answer, Unavailable, VehiclesOf, ShouldAbort, RowsOk;
    var (sh', w') := Act(c, sh, w, Record);
    if w.phase.Settled? && sh.counters.aborted {
      AbandonConserves(c, sh, w, Idle);
    } else {
      MovesConserve(c, sh, w, sh', w', LoadOf(c, w), LoadOf(c, w'));
    }
  }

  lemma JoinConserves(c: Setting, sh: Shared, w: Stage)
    requires c.Valid() && CanAct(c, sh, w, Join) && ShapeOk(c, w)
    ensures var (sh', w') := Act(c, sh, w, Join); Conserves(c, sh, w, sh', w') && ShapeOk(c, w')
  {
    hide Register, FuelDataset, Joinable, FetchFuel, NestedLoopJoin, SelectedByAll,
      Selected, Answer, Unavailable, VehiclesOf, ShouldAbort, RowsOk;
    if Joinable(w.batch.page, w.batch.fuel) {
      RowsOfPage(c, w.batch.page, w.batch.fuel, w.batch.failed);
    } else {
      AbandonConserves(c, sh, w, Failing(DataIntegrity));
    }
  }

  lemma LoadOfWriting(c: Setting, sh: Shared, w: Stage)
    requires c.Valid() && CanAct(c, sh, w, Write) && ShapeOk(c, w)
    ensures w.Joined? && Act(c, sh, w, Write) == (sh.(emitted := sh.emitted + w.rows), Written(w.range, w.page, w.rows))
    ensures var l := multiset(LeftBehind(c, w.range, w.page));
            && LoadOf(c, w) == Load(multiset(VehiclesOf(w.rows)) + l, Unavailable(w.rows), 0, 0, 0)
            && LoadOf(c, Written(w.range, w.page, w.rows)) == Load(l, 0, |w.rows|, 0, 0)
  {
    hide Setting.Valid, ShapeOk, VehiclesOf, Unavailable, LeftBehind, Abandon, Plus, FetchFuel, NestedLoopJoin,
      Joinable;
  }

  lemma WriteConserves(c: Setting, sh: Shared, w: Stage)
    requires c.Valid() && CanAct(c, sh, w, Write) && ShapeOk(c, w)
    ensures var (sh', w') := Act(c, sh, w, Write); Conserves(c, sh, w, sh', w')
  {
    hide *;
    LoadOfWriting(c, sh, w);
    var (sh', w') := Act(c, sh, w, Write);
    var l, v := multiset(LeftBehind(c, w.range, w.page)), multiset(VehiclesOf(w.rows));
    RowsOfParts(sh'.emitted, sh.emitted, w.rows);
    RegroupEmitted(multiset(VehiclesOf(sh.emitted)), multiset(SelectedByAll(c.data, c.merken, sh.queue)),
                   sh.abandoned.rows, v, l, multiset(VehiclesOf(sh'.emitted)), LoadOf(c, w).rows);
    MovesConserve(c, sh, w, sh', w', LoadOf(c, w), LoadOf(c, w'));
  }

  lemma WriteFailsConserves(c: Setting, sh: Shared, w: Stage, written: nat)
    requires c.Valid() && CanAct(c, sh, w, WriteFails(written))
    ensures var (sh', w') := Act(c, sh, w, WriteFails(written)); Conserves(c, sh, w, sh', w')
  {
    hide Held, Conserves, Register, FuelDataset, Joinable, FetchFuel, NestedLoopJoin, SelectedByAll,
      Selected, Answer, Unavailable, VehiclesOf, ShouldAbort, RowsOk;
    var (sh', w') := Act(c, sh, w, WriteFails(written));
    var done, left := w.rows[..written], w.rows[written..];
    assert w.rows == done + left;
    var l := multiset(LeftBehind(c, w.range, w.page));
    assert LoadOf(c, w) == Load(multiset(VehiclesOf(w.rows)) + l, Unavailable(w.rows), 0, 0, 0)
      && LoadOf(c, w') == NOTHING;
    var dropped := Load(multiset(VehiclesOf(left)) + l, Unavailable(left), written, 0, 0);
    assert sh' == sh.(emitted := sh.emitted + done, abandoned := Plus(sh.abandoned, dropped));
    RowsOfParts(sh'.emitted, sh.emitted, done);
    RowsOfParts(w.rows, done, left);
    hide Act, CanAct, LoadOf;
    var e, q, a := multiset(VehiclesOf(sh.emitted)), multiset(SelectedByAll(c.data, c.merken, sh.queue)),
      sh.abandoned.rows;
    var d := multiset(VehiclesOf(done));
    Regroup(e, q, a + dropped.rows, d);
    assert (e + d) + q + (a + dropped.rows) + multiset{} == e + q + a + (d + multiset(VehiclesOf(left)) + l);
    MovesConserve(c, sh, w, sh', w', LoadOf(c, w), NOTHING);
  }

  lemma CountConserves(c: Setting, sh: Shared, w: Stage)
    requires c.Valid() && CanAct(c, sh, w, Count) && ShapeOk(c, w)
    ensures var (sh', w') := Act(c, sh, w, Count); Conserves(c, sh, w, sh', w')
  {
    hide Held, Plus, Conserves, Register, FuelDataset, Joinable, FetchFuel, NestedLoopJoin, SelectedByAll,
      Selected, Answer, Unavailable, VehiclesOf, ShouldAbort, RowsOk;
    var (sh', w') := Act(c, sh, w, Count);
    assert LoadOf(c, w) == Load(multiset(LeftBehind(c, w.range, w.page)), 0, |w.rows|, 0, 0);
    assert LoadOf(c, w') == Load(multiset(LeftBehind(c, w.range, w.page)), 0, 0, 0, 0);
    hide LoadOf, CanAct, ShapeOk;
    MovesConserve(c, sh, w, sh', w', LoadOf(c, w), LoadOf(c, w'));
  }

  lemma NothingMoves(c: Setting, sh: Shared, w: Stage, sh': Shared, w': Stage)
    requires LoadOf(c, w') == LoadOf(c, w)
    requires sh' == sh.(hardError := sh'.hardError, errorFlag := sh'.errorFlag)
    ensures Conserves(c, sh, w, sh', w')
  {
    hide LoadOf, Plus;
    assert Held(c, sh') == Held(c, sh);
  }

  lemma ReadAbortConserves(c: Setting, sh: Shared, w: Stage)
    requires c.Valid() && CanAct(c, sh, w, ReadAbort)
    ensures var (sh', w') := Act(c, sh, w, ReadAbort); Conserves(c, sh, w, sh', w') && ShapeOk(c, w')
  {
    hide Held, Plus, Conserves, Selected, Setting.Valid;
    if w.RangeTop? && sh.counters.aborted {
      AbandonConserves(c, sh, w, Idle);
    } else {
      var (sh', w') := Act(c, sh, w, ReadAbort);
      NothingMoves(c, sh, w, sh', w');
    }
  }

  predicate EmptyHanded(w: Stage) {
    w.Unaborted? || w.Claiming? || w.Failing? || w.ErrorStored? || w.Done? || w.Panicked? || w.Cancelled? || w.Reaped?
  }

  lemma EmptyHands(c: Setting, w: Stage)
    requires c.Valid() && EmptyHanded(w)
    ensures LoadOf(c, w) == NOTHING && ShapeOk(c, w)
  {
    hide Setting.Valid;
  }

  lemma FlagStepEnds(c: Setting, sh: Shared, w: Stage, a: Action)
    requires c.Valid() && CanAct(c, sh, w, a)
    requires a.ReadErrorFlag? || a.StoreError? || a.RaiseFlag? || a.Reap?
    ensures var (sh', w') := Act(c, sh, w, a);
            EmptyHanded(w) && EmptyHanded(w') && sh' == sh.(hardError := sh'.hardError, errorFlag := sh'.errorFlag)
  {
    hide Setting.Valid, Abandon, Plus, FetchFuel, NestedLoopJoin, Joinable;
  }

  lemma FlagStepConserves(c: Setting, sh: Shared, w: Stage, a: Action)
    requires c.Valid() && CanAct(c, sh, w, a)
    requires a.ReadErrorFlag? || a.StoreError? || a.RaiseFlag? || a.Reap?
    ensures var (sh', w') := Act(c, sh, w, a); Conserves(c, sh, w, sh', w') && ShapeOk(c, w')
  {
    hide *;
    FlagStepEnds(c, sh, w, a);
    var (sh', w') := Act(c, sh, w, a);
    EmptyHands(c, w);
    EmptyHands(c, w');
    NothingMoves(c, sh, w, sh', w');
  }

  lemma DropConserves(c: Setting, sh: Shared, w: Stage, a: Action)
    requires c.Valid() && CanAct(c, sh, w, a)
    requires a.PageFails? || a.Panic? || a.Cancel?
    ensures var (sh', w') := Act(c, sh, w, a); Conserves(c, sh, w, sh', w') && ShapeOk(c, w')
  {
    AbandonConserves(c, sh, w, Act(c, sh, w, a).1);
  }

  lemma CountKeepsShape(c: Setting, sh: Shared, w: Stage, a: Action)
    requires c.Valid() && CanAct(c, sh, w, a)
    requires a.Pop? || a.Count? || a.WriteFails?
    ensures ShapeOk(c, Act(c, sh, w, a).1)
  {
  }

  lemma WriteKeepsShape(c: Setting, sh: Shared, w: Stage)
    requires c.Valid() && CanAct(c, sh, w, Write) && ShapeOk(c, w)
    ensures ShapeOk(c, Act(c, sh, w, Write).1)
  {
    assert |VehiclesOf(w.rows)| == |w.rows|;
  }

  /** Whatever a worker does, what leaves its hands arrives somewhere, and it
      goes on holding only genuine pages and correct rows. */
  lemma ActConserves(c: Setting, sh: Shared, w: Stage, a: Action)
    requires c.Valid() && CanAct(c, sh, w, a) && ShapeOk(c, w)
    ensures var (sh', w') := Act(c, sh, w, a); Conserves(c, sh, w, sh', w') && ShapeOk(c, w')
  {
    hide *;
    match a
    case ReadAbort => ReadAbortConserves(c, sh, w);
    case Pop => PopConserves(c, sh, w); CountKeepsShape(c, sh, w, a);
    case PageArrives => PageArrivesConserves(c, sh, w);
    case FuelArrives => FuelConserves(c, sh, w, a);
    case FuelFails => FuelConserves(c, sh, w, a);
    case NoteAttempt => FuelConserves(c, sh, w, a);
    case Record => RecordConserves(c, sh, w);
    case Join => JoinConserves(c, sh, w);
    case Write => WriteConserves(c, sh, w); WriteKeepsShape(c, sh, w);
    case WriteFails(written) => WriteFailsConserves(c, sh, w, written); CountKeepsShape(c, sh, w, a);
    case Count => CountConserves(c, sh, w); CountKeepsShape(c, sh, w, a);
    case PageFails(_) => DropConserves(c, sh, w, a);
    case Panic => DropConserves(c, sh, w, a);
    case Cancel => DropConserves(c, sh, w, a);
    case _ => FlagStepConserves(c, sh, w, a);
  }
}
