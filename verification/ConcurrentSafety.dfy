/** What the result of a concurrent export says about the whole run, under any
    schedule and any faults. */
module ConcurrentSafety {
  import opened Wrappers
  import opened Ranges
  import opened Upstream
  import opened MergeJoin
  import opened FuelFetch
  import opened ConcurrentExport
  import opened ConcurrentConservation

  // ----- The invariant

  /** The run has decided to fail. */
  predicate Doomed(sh: Shared) {
    sh.counters.aborted || sh.hardError.Some?
  }

  /** A worker that will make the run fail. */
  predicate Troubled(w: Stage) {
    w.Failing? || w.Panicked?
  }

  function Affected(ranges: seq<FailedRange>): nat {
    if ranges == [] then 0 else Affected(ranges[..|ranges| - 1]) + ranges[|ranges| - 1].vehicleCount
  }

  predicate SharedOk(c: Setting, sh: Shared) {
    && (sh.errorFlag ==> sh.hardError.Some?)
    && sh.hardError != Some(RowCountMismatch)
    && (sh.cancelled ==> Doomed(sh))
    && RowsOk(c, sh.emitted)
    && (c.pageSize == 0 ==> sh.emitted == [])
    && sh.summary.failures == |sh.summary.failedRanges|
    && sh.summary.vehiclesAffected == Affected(sh.summary.failedRanges)
  }

  /** A worker stops only because the queue is empty or the run is doomed. */
  predicate ControlOk(sh: Shared, w: Stage) {
    match w
    case Done => Doomed(sh) || sh.queue == []
    case Reaped => Doomed(sh) || sh.queue == []
    case Cancelled => Doomed(sh)
    case ErrorStored => sh.hardError.Some?
    case Failing(e) => e != RowCountMismatch
    case _ => true
  }

  predicate LossOk(c: Setting, s: State) {
    s.shared.abandoned == NOTHING || c.pageSize == 0 || Doomed(s.shared)
    || exists i :: 0 <= i < |s.workers| && Troubled(s.workers[i])
  }

  predicate Invariant(c: Setting, s: State)
    requires c.Valid()
  {
    && Conserved(c, s)
    && SharedOk(c, s.shared)
    && (forall i :: 0 <= i < |s.workers| ==> ShapeOk(c, s.workers[i]) && ControlOk(s.shared, s.workers[i]))
    && LossOk(c, s)
    && |s.workers| > 0
    && (s.result.Some? ==>
          s.result.value == Verdict(c, s.shared) && forall i :: 0 <= i < |s.workers| ==> s.workers[i].Reaped?)
  }

  // ----- One step

  /** What a step may do to the shared state as others rely on it. */
  predicate Progresses(sh: Shared, sh': Shared) {
    && (Doomed(sh) ==> Doomed(sh'))
    && (sh.hardError.Some? ==> sh'.hardError.Some?)
    && (sh.queue == [] ==> sh'.queue == [])
  }

  lemma FailureNoted(s: Summary, page: seq<VehicleRow>)
    requires s.failures == |s.failedRanges| && s.vehiclesAffected == Affected(s.failedRanges)
    ensures var s' := NoteFailure(s, page);
            s'.failures == |s'.failedRanges| && s'.vehiclesAffected == Affected(s'.failedRanges)
  {
    var s' := NoteFailure(s, page);
    assert s'.failedRanges[..|s.failedRanges|] == s.failedRanges;
  }

  lemma ActKeepsShared(c: Setting, sh: Shared, w: Stage, a: Action)
    requires c.Valid() && CanAct(c, sh, w, a) && ShapeOk(c, w) && SharedOk(c, sh) && ControlOk(sh, w)
    ensures SharedOk(c, Act(c, sh, w, a).0)
  {
    hide Setting.Valid, Register, Joinable, FetchFuel, NestedLoopJoin, RowsOk, RowOk, Affected, LoadOf;
    match a
    case FuelFails => FailureNoted(sh.summary, w.page);
    case Write => RowsOkJoin(c, sh.emitted, w.rows, |w.rows|);
    case WriteFails(written) => RowsOkJoin(c, sh.emitted, w.rows, written);
    case _ =>
  }

  lemma RowsOkJoin(c: Setting, a: seq<WidenedRow>, b: seq<WidenedRow>, n: nat)
    requires RowsOk(c, a) && RowsOk(c, b) && n <= |b|
    ensures RowsOk(c, a + b[..n])
    ensures b[..|b|] == b
  {
    hide RowOk;
  }

  lemma EmptyPageLosesNothing(c: Setting, sh: Shared, w: Stage)
    requires c.Valid() && w.Paging? && c.pageSize > 0 && c.Page(w.range, w.cursor) == []
    ensures Abandon(c, sh, w).abandoned == sh.abandoned
  {
    PageSplitsAhead(c, w.range, w.cursor);
    assert LoadOf(c, w) == Load(multiset(c.Ahead(w.range, w.cursor)), 0, 0, 0, 0);
    assert Abandon(c, sh, w).abandoned == Plus(sh.abandoned, LoadOf(c, w));
    hide *;
    assert LoadOf(c, w) == NOTHING;
    PlusLaws(NOTHING, sh.abandoned, NOTHING);
    PlusLaws(sh.abandoned, NOTHING, NOTHING);
  }

  lemma ActKeepsControl(c: Setting, sh: Shared, w: Stage, a: Action)
    requires c.Valid() && CanAct(c, sh, w, a) && SharedOk(c, sh) && ControlOk(sh, w)
    ensures var (sh', w') := Act(c, sh, w, a);
            && Progresses(sh, sh') && ControlOk(sh', w')
            && (Troubled(w) ==> Troubled(w') || Doomed(sh'))
  {
    hide Setting.Valid, Register, Joinable, FetchFuel, NestedLoopJoin, RowsOk, Affected, LoadOf;
  }

  /** Vehicles are dropped only on the way to a failure, or when pages are empty by configuration. */
  lemma ActLoses(c: Setting, sh: Shared, w: Stage, a: Action)
    requires c.Valid() && CanAct(c, sh, w, a) && SharedOk(c, sh)
    ensures var (sh', w') := Act(c, sh, w, a);
            sh'.abandoned == sh.abandoned || c.pageSize == 0 || Doomed(sh') || Troubled(w')
  {
    hide Setting.Valid, Setting.Page, Plus, Register, Joinable, FetchFuel, NestedLoopJoin, RowsOk, Affected, LoadOf;
    if a.PageArrives? && c.pageSize > 0 && c.Page(w.range, w.cursor) == [] {
      EmptyPageLosesNothing(c, sh, w);
    }
  }

  lemma WorkKeepsInvariant(c: Setting, s: State, i: nat, a: Action)
    requires c.Valid() && Invariant(c, s) && Enabled(c, s, Work(i, a))
    ensures Invariant(c, Next(c, s, Work(i, a)))
  {
    hide *;
    NextWork(c, s, i, a);
    var w := s.workers[i];
    var (sh', w') := Act(c, s.shared, w, a);
    var s' := Next(c, s, Work(i, a));
    InvariantParts(c, s);
    ActConserves(c, s.shared, w, a);
    ActKeepsShared(c, s.shared, w, a);
    ActKeepsControl(c, s.shared, w, a);
    ActLoses(c, s.shared, w, a);
    WorkConserves(c, s, s', i, w');
    OthersKeepControl(c, s, s', i, w');
    LossKept(c, s, s', i, w');
    InvariantFrom(c, s');
  }

  lemma NextWork(c: Setting, s: State, i: nat, a: Action)
    requires c.Valid() && Enabled(c, s, Work(i, a))
    ensures i < |s.workers| && CanAct(c, s.shared, s.workers[i], a)
    ensures var (sh', w') := Act(c, s.shared, s.workers[i], a);
            Next(c, s, Work(i, a)) == State(sh', s.workers[i := w'], None)
  {
  }

  predicate WorkersOk(c: Setting, s: State)
    requires c.Valid()
  {
    forall i :: 0 <= i < |s.workers| ==> ShapeOk(c, s.workers[i]) && ControlOk(s.shared, s.workers[i])
  }

  lemma InvariantParts(c: Setting, s: State)
    requires c.Valid() && Invariant(c, s)
    ensures Conserved(c, s) && SharedOk(c, s.shared) && WorkersOk(c, s) && LossOk(c, s) && |s.workers| > 0
    ensures forall i :: 0 <= i < |s.workers| ==> ShapeOk(c, s.workers[i]) && ControlOk(s.shared, s.workers[i])
  {
  }

  lemma InvariantFrom(c: Setting, s: State)
    requires c.Valid() && s.result.None? && |s.workers| > 0
    requires Conserved(c, s) && SharedOk(c, s.shared) && WorkersOk(c, s) && LossOk(c, s)
    ensures Invariant(c, s)
  {
  }

  lemma WorkConserves(c: Setting, s: State, s': State, i: nat, w': Stage)
    requires Conserved(c, s) && i < |s.workers| && s'.workers == s.workers[i := w']
    requires Conserves(c, s.shared, s.workers[i], s'.shared, w')
    ensures Conserved(c, s')
  {
    TotalUpdate(c, s.workers, i, w');
    hide Held, Total, LoadOf, Plus;
    Rebalance(Held(c, s.shared), Total(c, s.workers), LoadOf(c, s.workers[i]),
              Held(c, s'.shared), Total(c, s'.workers), LoadOf(c, w'));
  }

  lemma OthersKeepControl(c: Setting, s: State, s': State, i: nat, w': Stage)
    requires c.Valid() && WorkersOk(c, s) && i < |s.workers| && s'.workers == s.workers[i := w']
    requires Progresses(s.shared, s'.shared) && ShapeOk(c, w') && ControlOk(s'.shared, w')
    ensures WorkersOk(c, s')
  {
    hide ShapeOk;
  }

  lemma LossKept(c: Setting, s: State, s': State, i: nat, w': Stage)
    requires LossOk(c, s) && i < |s.workers| && s'.workers == s.workers[i := w']
    requires Progresses(s.shared, s'.shared)
    requires s'.shared.abandoned == s.shared.abandoned || c.pageSize == 0 || Doomed(s'.shared) || Troubled(w')
    requires Troubled(s.workers[i]) ==> Troubled(w') || Doomed(s'.shared)
    ensures LossOk(c, s')
  {
    assert s'.workers[i] == w';
    if j :| 0 <= j < |s.workers| && Troubled(s.workers[j]) {
      assert j != i ==> s'.workers[j] == s.workers[j];
    }
  }

  lemma NextKeepsInvariant(c: Setting, s: State, e: Event)
    requires c.Valid() && Invariant(c, s) && Enabled(c, s, e)
    ensures Invariant(c, Next(c, s, e))
  {
    match e
    case Work(i, a) => WorkKeepsInvariant(c, s, i, a);
    case CancelAll => CancelKeepsInvariant(c, s);
    case Finish =>
  }

  lemma CancelKeepsInvariant(c: Setting, s: State)
    requires c.Valid() && Invariant(c, s) && Enabled(c, s, CancelAll)
    ensures Invariant(c, Next(c, s, CancelAll))
  {
    hide Setting.Valid, ShapeOk, Total, Plus, Verdict, RowsOk, Affected, SelectedByAll, VehiclesOf, Unavailable;
    var s' := Next(c, s, CancelAll);
    assert Held(c, s'.shared) == Held(c, s.shared);
    assert forall i :: 0 <= i < |s.workers| ==> ControlOk(s'.shared, s.workers[i]);
  }

  lemma {:induction false} IdleTotal(c: Setting, workers: seq<Stage>)
    requires forall i :: 0 <= i < |workers| ==> workers[i] == Idle
    ensures Total(c, workers) == NOTHING
  {
    if workers != [] {
      assert LoadOf(c, workers[0]) == NOTHING;
      hide LoadOf;
      IdleTotal(c, workers[1..]);
      PlusLaws(NOTHING, NOTHING, NOTHING);
    }
  }

  lemma InitHolds(c: Setting)
    requires c.Valid()
    ensures Held(c, Init(c).shared) == Load(multiset(c.Vehicles()), 0, 0, 0, 0)
  {
    var sh := Init(c).shared;
    assert sh.emitted == [] && sh.queue == Bands(c.rangeCount) && sh.abandoned == NOTHING;
    BandsTile(c.rangeCount);
    TilingSelectsPopulation(c.data, c.merken, Bands(c.rangeCount));
    assert VehiclesOf([]) == [];
    hide Bands, Tiling, Selected, SelectedByAll, VehiclesOf;
    var population := multiset(c.Vehicles());
    assert multiset{} + population + multiset{} == population;
  }

  lemma InitIsIdle(c: Setting)
    ensures var s := Init(c);
            && s.result.None? && |s.workers| == WorkerTotal(c) > 0
            && forall i :: 0 <= i < |s.workers| ==> s.workers[i] == Idle
  {
  }

  lemma InitConserved(c: Setting)
    requires c.Valid()
    ensures Conserved(c, Init(c))
  {
    hide *;
    InitIsIdle(c);
    InitHolds(c);
    IdleTotal(c, Init(c).workers);
    PlusLaws(NOTHING, Held(c, Init(c).shared), NOTHING);
    PlusLaws(Held(c, Init(c).shared), NOTHING, NOTHING);
    ConservedFrom(c, Init(c));
  }

  lemma ConservedFrom(c: Setting, s: State)
    requires Plus(Held(c, s.shared), Total(c, s.workers)) == Load(multiset(c.Vehicles()), 0, 0, 0, 0)
    ensures Conserved(c, s)
  {
  }

  lemma InitWorkersOk(c: Setting)
    requires c.Valid()
    ensures WorkersOk(c, Init(c)) && SharedOk(c, Init(c).shared) && LossOk(c, Init(c))
  {
    hide Bands, Setting.Valid;
  }

  lemma ConservedTo(c: Setting, s: State)
    ensures Conserved(c, s) ==> Plus(Held(c, s.shared), Total(c, s.workers)) == Load(multiset(c.Vehicles()), 0, 0, 0, 0)
  {
  }

  lemma InitKeepsInvariant(c: Setting)
    requires c.Valid()
    ensures Invariant(c, Init(c))
  {
    hide *;
    InitIsIdle(c);
    InitConserved(c);
    InitWorkersOk(c);
    InvariantFrom(c, Init(c));
  }

  lemma {:induction false} RunKeepsInvariant(c: Setting, s: State, events: seq<Event>)
    requires c.Valid() && Invariant(c, s) && Schedule(c, s, events)
    ensures Invariant(c, Run(c, s, events))
    decreases |events|
  {
    hide Invariant, Setting.Valid, Enabled, Next;
    if events != [] {
      NextKeepsInvariant(c, s, events[0]);
      RunKeepsInvariant(c, Next(c, s, events[0]), events[1..]);
    }
  }

  // ----- What an Ok result means

  predicate EndsOk(s: State) {
    s.result.Some? && s.result.value.Ok?
  }

  lemma {:induction false} ReapedTotal(c: Setting, workers: seq<Stage>)
    requires forall i :: 0 <= i < |workers| ==> workers[i].Reaped?
    ensures Total(c, workers) == NOTHING
  {
    if workers != [] {
      assert LoadOf(c, workers[0]) == NOTHING;
      hide LoadOf;
      ReapedTotal(c, workers[1..]);
      PlusLaws(NOTHING, NOTHING, NOTHING);
    }
  }

  /** The run finished without an abort or an error. */
  predicate EndsCalm(s: State) {
    s.result.Some? && !Doomed(s.shared)
  }

  /** Such a run emptied its queue, cancelled nobody and dropped nothing. */
  lemma CalmLosesNothing(c: Setting, s: State)
    requires c.Valid() && Invariant(c, s) && EndsCalm(s)
    ensures !s.shared.cancelled && s.shared.queue == []
    ensures c.pageSize > 0 ==> s.shared.abandoned == NOTHING
    ensures forall i :: 0 <= i < |s.workers| ==> s.workers[i].Reaped?
  {
    hide Setting.Valid, Conserved, ShapeOk, RowsOk, Affected;
    assert ControlOk(s.shared, s.workers[0]);
  }

  lemma OkIsCalm(c: Setting, s: State)
    requires c.Valid() && Invariant(c, s) && EndsOk(s)
    ensures EndsCalm(s) && s.result.value.value == s.shared.summary && !s.shared.errorFlag
  {
    hide Setting.Valid, Conserved, ShapeOk, RowsOk, Affected;
  }

  /** All that the shared state holds at the end of a calm run is the population. */
  lemma CalmHoldsAll(c: Setting, s: State)
    requires c.Valid() && Invariant(c, s) && EndsCalm(s)
    ensures Held(c, s.shared) == Load(multiset(c.Vehicles()), 0, 0, 0, 0)
  {
    hide *;
    CalmLosesNothing(c, s);
    InvariantParts(c, s);
    ConservedTo(c, s);
    ReapedTotal(c, s.workers);
    PlusLaws(NOTHING, Held(c, s.shared), NOTHING);
    PlusLaws(Held(c, s.shared), NOTHING, NOTHING);
  }

  predicate ExactlyOnce(c: Setting, s: State) {
    multiset(VehiclesOf(s.shared.emitted)) == multiset(c.Vehicles())
  }

  lemma CalmBalances(c: Setting, s: State)
    requires c.Valid() && Invariant(c, s) && EndsCalm(s) && c.pageSize > 0
    ensures multiset(VehiclesOf(s.shared.emitted)) == multiset(c.Vehicles())
    ensures |s.shared.emitted| == |c.Vehicles()| == s.shared.emittedCount
    ensures Unavailable(s.shared.emitted) == s.shared.summary.vehiclesAffected
    ensures s.shared.counters.attempted == s.shared.summary.attempted
    ensures s.shared.counters.failures == s.shared.summary.failures
  {
    hide *;
    CalmLosesNothing(c, s);
    CalmHoldsAll(c, s);
    WhatIsHeld(c, s.shared);
    SameSize(VehiclesOf(s.shared.emitted), c.Vehicles());
  }

  lemma WhatIsHeld(c: Setting, sh: Shared)
    requires sh.queue == [] && sh.abandoned == NOTHING
    ensures var held := Held(c, sh);
            && held.rows == multiset(VehiclesOf(sh.emitted))
            && held.affected == Unavailable(sh.emitted) - sh.summary.vehiclesAffected
            && held.uncounted == sh.emittedCount - |sh.emitted|
            && held.unattempted == sh.counters.attempted - sh.summary.attempted
            && held.unfailed == sh.counters.failures - sh.summary.failures
    ensures |VehiclesOf(sh.emitted)| == |sh.emitted|
  {
    assert SelectedByAll(c.data, c.merken, sh.queue) == [];
    hide SelectedByAll, Unavailable;
  }

  lemma SameSize<T>(a: seq<T>, b: seq<T>)
    requires multiset(a) == multiset(b)
    ensures |a| == |b|
  {
    assert |multiset(a)| == |a| && |multiset(b)| == |b|;
  }

  /** Whatever the numbers of ranges and workers, the page size, the schedule
      and the faults along the way: an export that returns Ok has emitted every
      matching vehicle exactly once, each with the row the nested-loop join
      gives it or marked as lacking its fuel rows. */
  lemma OkMeansExactlyOnce(c: Setting, events: seq<Event>)
    requires c.Valid() && c.pageSize > 0
    requires Schedule(c, Init(c), events) && EndsOk(Run(c, Init(c), events))
    ensures var sh := Run(c, Init(c), events).shared;
            && multiset(VehiclesOf(sh.emitted)) == multiset(Population(c.data, c.merken))
            && sh.emittedCount == |sh.emitted| == |Population(c.data, c.merken)|
            && forall i :: 0 <= i < |sh.emitted| ==> RowOk(c, sh.emitted[i])
  {
    hide Enabled, Next, RowOk;
    InitKeepsInvariant(c);
    RunKeepsInvariant(c, Init(c), events);
    OkIsCalm(c, Run(c, Init(c), events));
    CalmBalances(c, Run(c, Init(c), events));
  }

  /** Ok is never the result of stopping early. */
  lemma OkMeansNoEarlyStop(c: Setting, events: seq<Event>)
    requires c.Valid()
    requires Schedule(c, Init(c), events) && EndsOk(Run(c, Init(c), events))
    ensures var s := Run(c, Init(c), events);
            && !s.shared.counters.aborted && s.shared.hardError.None? && !s.shared.errorFlag && !s.shared.cancelled
            && s.shared.queue == []
            && (c.pageSize > 0 ==> s.shared.abandoned == NOTHING)
            && forall i :: 0 <= i < |s.workers| ==> s.workers[i].Reaped?
  {
    hide Enabled, Next, Conserved, ShapeOk;
    InitKeepsInvariant(c);
    RunKeepsInvariant(c, Init(c), events);
    OkIsCalm(c, Run(c, Init(c), events));
    CalmLosesNothing(c, Run(c, Init(c), events));
  }

  /** Degradation is fully accounted for: the summary returned with Ok counts
      exactly the rows emitted without fuel data, range by range, and agrees
      with the failure counter. */
  lemma OkAccountsForDegradation(c: Setting, events: seq<Event>)
    requires c.Valid() && c.pageSize > 0
    requires Schedule(c, Init(c), events) && EndsOk(Run(c, Init(c), events))
    ensures var s := Run(c, Init(c), events);
            var summary := s.result.value.value;
            && Unavailable(s.shared.emitted) == summary.vehiclesAffected == Affected(summary.failedRanges)
            && summary.failures == |summary.failedRanges| == s.shared.counters.failures
            && summary.attempted == s.shared.counters.attempted
  {
    hide Enabled, Next, Conserved, ShapeOk, RowsOk;
    InitKeepsInvariant(c);
    RunKeepsInvariant(c, Init(c), events);
    var s := Run(c, Init(c), events);
    OkIsCalm(c, s);
    CalmBalances(c, s);
  }

  /** A page size of zero makes every page look like the end of its range: an
      Ok export has then emitted nothing. So exactly-once holds for Ok exports
      exactly when pages hold at least one row or there is nothing to export. */
  lemma ExactlyOnceIffPagesHoldRows(c: Setting, events: seq<Event>)
    requires c.Valid()
    requires Schedule(c, Init(c), events) && EndsOk(Run(c, Init(c), events))
    ensures ExactlyOnce(c, Run(c, Init(c), events)) <==> c.pageSize > 0 || c.Vehicles() == []
  {
    var s := Run(c, Init(c), events);
    hide Enabled, Next, Conserved, ShapeOk, RowsOk, Population, Register, FuelDataset;
    InitKeepsInvariant(c);
    RunKeepsInvariant(c, Init(c), events);
    if c.pageSize > 0 {
      OkIsCalm(c, s);
      CalmBalances(c, s);
    } else {
      assert s.shared.emitted == [];
      assert multiset(VehiclesOf([])) == multiset{};
      if c.Vehicles() != [] {
        assert c.Vehicles()[0] in multiset(c.Vehicles());
      }
    }
  }

  /** On a fixed dataset the row-count reconciliation never turns a run that
      is otherwise in order into a failure. */
  lemma ReconciliationNeverFails(c: Setting, events: seq<Event>)
    requires c.Valid() && c.pageSize > 0 && Schedule(c, Init(c), events)
    ensures Run(c, Init(c), events).result != Some(Err(RowCountMismatch))
  {
    hide Enabled, Next, Conserved, ShapeOk, RowsOk, Affected;
    InitKeepsInvariant(c);
    RunKeepsInvariant(c, Init(c), events);
    var s := Run(c, Init(c), events);
    if EndsCalm(s) {
      CalmBalances(c, s);
    }
  }
}
