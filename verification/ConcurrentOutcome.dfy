/** Which result a finished export has, and which rows it has marked, from the
    faults of its schedule alone. */
module ConcurrentOutcome {
  import opened Wrappers
  import opened Order
  import opened Ranges
  import opened Upstream
  import opened AbortCounter
  import opened MergeJoin
  import opened FuelFetch
  import opened ConcurrentExport
  import opened ConcurrentConservation
  import opened ConcurrentSafety
  import opened ConcurrentProgress

  // ----- Doomed runs

  predicate InTrouble(s: State) {
    Doomed(s.shared) || exists i :: 0 <= i < |s.workers| && Troubled(s.workers[i])
  }

  lemma TroubleStays(c: Setting, s: State, e: Event)
    requires c.Valid() && Invariant(c, s) && Enabled(c, s, e)
    ensures InTrouble(s) ==> InTrouble(Next(c, s, e))
    ensures s.shared.cancelled ==> Doomed(s.shared)
  {
    hide Setting.Valid, Conserved, ShapeOk, RowsOk, Affected, Act, CanAct, Verdict, LossOk;
    if e.Work? {
      var w, w' := s.workers[e.worker], Act(c, s.shared, s.workers[e.worker], e.action).1;
      ActKeepsControl(c, s.shared, w, e.action);
      var s' := Next(c, s, e);
      assert s'.workers[e.worker] == w';
      if j :| 0 <= j < |s.workers| && Troubled(s.workers[j]) {
        assert j != e.worker ==> s'.workers[j] == s.workers[j];
      }
    }
  }

  lemma NewTrouble(c: Setting, s: State, e: Event)
    requires c.Valid() && Enabled(c, s, e) && e.Work?
    ensures Troubled(Act(c, s.shared, s.workers[e.worker], e.action).1) ==> InTrouble(Next(c, s, e))
    ensures Doomed(Act(c, s.shared, s.workers[e.worker], e.action).0) ==> InTrouble(Next(c, s, e))
  {
    hide Setting.Valid, Act, CanAct;
    var s' := Next(c, s, e);
    assert s'.workers[e.worker] == Act(c, s.shared, s.workers[e.worker], e.action).1;
  }

  // ----- The errors raised along a run

  /** The error an event raises: a failing page or write, a panic, or a page that cannot be joined. */
  function Raised(s: State, e: Event): set<PipelineError> {
    if !e.Work? || e.worker >= |s.workers| then {}
    else
      match e.action
      case PageFails(error) => {error}
      case WriteFails(_) => {Assembly}
      case Panic => {WorkerPanic}
      case Join =>
        var w := s.workers[e.worker];
        if w.Recorded? && !Joinable(w.batch.page, w.batch.fuel) then {DataIntegrity} else {}
      case _ => {}
  }

  function AllRaised(c: Setting, s: State, events: seq<Event>): set<PipelineError>
    requires c.Valid() && Schedule(c, s, events)
    decreases |events|
  {
    if events == [] then {} else Raised(s, events[0]) + AllRaised(c, Next(c, s, events[0]), events[1..])
  }

  predicate HasCause(w: Stage, raised: set<PipelineError>) {
    (w.Failing? ==> w.error in raised) && (w.Panicked? ==> WorkerPanic in raised)
  }

  /** Every error held or stored was raised, and one raised is stored or will be. */
  predicate CausesOk(s: State, raised: set<PipelineError>) {
    && (s.shared.hardError.Some? ==> s.shared.hardError.value in raised)
    && (forall i :: 0 <= i < |s.workers| ==> HasCause(s.workers[i], raised))
    && (raised != {} ==> s.shared.hardError.Some? || exists i :: 0 <= i < |s.workers| && Troubled(s.workers[i]))
  }

  /** A step raises what its worker then holds, and a stored error stays. */
  lemma ActCauses(c: Setting, s: State, i: nat, a: Action)
    requires c.Valid() && Enabled(c, s, Work(i, a))
    ensures var w, (sh', w') := s.workers[i], Act(c, s.shared, s.workers[i], a);
            var raised := Raised(s, Work(i, a));
            && (raised != {} ==> Troubled(w'))
            && (w'.Failing? ==> w'.error in raised || w == w')
            && (w'.Panicked? ==> WorkerPanic in raised || w == w')
            && (s.shared.hardError.Some? ==> sh'.hardError.Some?)
            && (Troubled(w) ==> Troubled(w') || sh'.hardError.Some?)
            && (sh'.hardError.Some? ==>
                  || sh'.hardError == s.shared.hardError
                  || (w.Failing? && sh'.hardError.value == w.error)
                  || (w.Panicked? && sh'.hardError.value == WorkerPanic))
  {
    hide Setting.Valid, Register, Joinable, FetchFuel, NestedLoopJoin, LoadOf, Plus, ShouldAbort, Setting.Page;
  }

  lemma NextHasCauses(c: Setting, s: State, e: Event, raised: set<PipelineError>)
    requires c.Valid() && Enabled(c, s, e) && CausesOk(s, raised)
    ensures CausesOk(Next(c, s, e), raised + Raised(s, e))
  {
    hide Setting.Valid, Act, CanAct, Verdict;
    var s' := Next(c, s, e);
    if e.Work? {
      ActCauses(c, s, e.worker, e.action);
      hide Raised;
      var w' := Act(c, s.shared, s.workers[e.worker], e.action).1;
      assert s'.workers[e.worker] == w';
      if j :| 0 <= j < |s.workers| && Troubled(s.workers[j]) {
        assert j != e.worker ==> s'.workers[j] == s.workers[j];
      }
    }
  }

  lemma {:induction false} RunHasCauses(c: Setting, s: State, events: seq<Event>, raised: set<PipelineError>)
    requires c.Valid() && Schedule(c, s, events) && CausesOk(s, raised)
    ensures CausesOk(Run(c, s, events), raised + AllRaised(c, s, events))
    decreases |events|
  {
    hide Setting.Valid, Enabled, Next, CausesOk, Raised;
    if events == [] {
      assert raised + {} == raised;
    } else {
      var next := Next(c, s, events[0]);
      NextHasCauses(c, s, events[0], raised);
      RunHasCauses(c, next, events[1..], raised + Raised(s, events[0]));
      assert (raised + Raised(s, events[0])) + AllRaised(c, next, events[1..])
          == raised + (Raised(s, events[0]) + AllRaised(c, next, events[1..]));
    }
  }

  /** A finished export is Ok exactly when the flag is not set and no error is
      stored; otherwise it reports the stored error, or else that too many
      fetches failed. */
  lemma ResultIsExact(c: Setting, events: seq<Event>)
    requires c.Valid() && c.pageSize > 0 && Schedule(c, Init(c), events)
    ensures var s := Run(c, Init(c), events);
            s.result.Some? ==>
              && (s.result.value.Ok? <==> !s.shared.counters.aborted && s.shared.hardError.None?)
              && (s.result.value.Ok? ==> s.result.value.value == s.shared.summary)
              && (s.shared.hardError.Some? ==> s.result.value == Err(s.shared.hardError.value))
              && (s.shared.hardError.None? && s.shared.counters.aborted ==>
                    s.result.value == Err(FuelFailureThresholdExceeded))
  {
    hide Enabled, Next, Conserved, ShapeOk, RowsOk, Affected;
    InitKeepsInvariant(c);
    RunKeepsInvariant(c, Init(c), events);
    var s := Run(c, Init(c), events);
    if EndsCalm(s) {
      CalmBalances(c, s);
    }
  }

  /** In a finished export an error is stored if and only if one was raised. */
  lemma StoredIffRaised(c: Setting, events: seq<Event>)
    requires c.Valid() && Schedule(c, Init(c), events) && Run(c, Init(c), events).result.Some?
    ensures var error, raised := Run(c, Init(c), events).shared.hardError, AllRaised(c, Init(c), events);
            (error.Some? <==> raised != {}) && (error.Some? ==> error.value in raised)
  {
    var s, raised := Run(c, Init(c), events), AllRaised(c, Init(c), events);
    InitHasNoCauses(c);
    RunHasCauses(c, Init(c), events, {});
    assert {} + raised == raised;
    InitKeepsInvariant(c);
    RunKeepsInvariant(c, Init(c), events);
    hide *;
    FinishedIsReaped(c, s);
    ReapedHasNoCauses(s, raised);
  }

  lemma InitHasNoCauses(c: Setting)
    ensures CausesOk(Init(c), {})
  {
    hide Bands;
    InitIsIdle(c);
  }

  lemma FinishedIsReaped(c: Setting, s: State)
    requires c.Valid() && Invariant(c, s) && s.result.Some?
    ensures forall i :: 0 <= i < |s.workers| ==> s.workers[i].Reaped?
  {
  }

  lemma ReapedHasNoCauses(s: State, raised: set<PipelineError>)
    requires CausesOk(s, raised) && forall i :: 0 <= i < |s.workers| ==> s.workers[i].Reaped?
    ensures s.shared.hardError.Some? <==> raised != {}
    ensures s.shared.hardError.Some? ==> s.shared.hardError.value in raised
  {
  }

  /** From the faults alone: a finished export is Ok exactly when none of its
      events raised an error and the flag is not set. An error reported was
      raised, and one raised is reported before too many failed fetches are. */
  lemma ResultFollowsFaults(c: Setting, events: seq<Event>)
    requires c.Valid() && c.pageSize > 0 && Schedule(c, Init(c), events)
    ensures var s, raised := Run(c, Init(c), events), AllRaised(c, Init(c), events);
            s.result.Some? ==>
              && (s.result.value.Ok? <==> raised == {} && !s.shared.counters.aborted)
              && (raised != {} ==> s.result.value.Err? && s.result.value.error in raised)
              && (raised == {} && s.shared.counters.aborted ==> s.result.value == Err(FuelFailureThresholdExceeded))
  {
    ResultIsExact(c, events);
    if Run(c, Init(c), events).result.Some? {
      StoredIffRaised(c, events);
    }
  }

  /** The error the result will be if no more is stored: the last that a worker
      stored, or a panic if there was one before any of those. */
  function LastStored(c: Setting, s: State, events: seq<Event>, before: Option<PipelineError>): Option<PipelineError>
    requires c.Valid() && Schedule(c, s, events)
    decreases |events|
  {
    if events == [] then before
    else
      var e := events[0];
      var stored :=
        if !e.Work? || e.worker >= |s.workers| then before
        else if s.workers[e.worker].Failing? && e.action.StoreError? then Some(s.workers[e.worker].error)
        else if s.workers[e.worker].Panicked? && before.None? then Some(WorkerPanic)
        else before;
      LastStored(c, Next(c, s, e), events[1..], stored)
  }

  lemma ActStores(c: Setting, sh: Shared, w: Stage, a: Action)
    requires c.Valid() && CanAct(c, sh, w, a)
    ensures Act(c, sh, w, a).0.hardError
            == if w.Failing? && a.StoreError? then Some(w.error)
               else if w.Panicked? && sh.hardError.None? then Some(WorkerPanic)
               else sh.hardError
  {
    hide Setting.Valid, Setting.Page, Register, Joinable, FetchFuel, NestedLoopJoin, LoadOf, Plus, ShouldAbort;
  }

  lemma {:induction false} RunStores(c: Setting, s: State, events: seq<Event>)
    requires c.Valid() && Schedule(c, s, events)
    ensures Run(c, s, events).shared.hardError == LastStored(c, s, events, s.shared.hardError)
    decreases |events|
  {
    hide Setting.Valid, Act, CanAct, Verdict;
    if events != [] {
      if events[0].Work? {
        ActStores(c, s.shared, s.workers[events[0].worker], events[0].action);
      }
      RunStores(c, Next(c, s, events[0]), events[1..]);
    }
  }

  /** The error a finished export reports is the last that a worker stored; a
      panic is reported only if none is stored after it, nor before. */
  lemma LastStoredIsReported(c: Setting, events: seq<Event>)
    requires c.Valid() && c.pageSize > 0 && Schedule(c, Init(c), events)
    ensures var s, error := Run(c, Init(c), events), LastStored(c, Init(c), events, None);
            s.result.Some? && error.Some? ==> s.result.value == Err(error.value)
  {
    hide Schedule, Run, LastStored, Bands;
    ResultIsExact(c, events);
    RunStores(c, Init(c), events);
  }

  /** A difference in the row count is tolerated up to 50 rows or one in 2000. */
  lemma ToleranceIs(expected: nat, difference: nat)
    ensures difference <= RowCountTolerance(expected) <==> difference <= 50 || 2000 * difference <= expected
  {
  }

  // ----- Which pages lose their fuel rows

  predicate FetchFails(e: Event) {
    e.Work? && e.action.FuelFails?
  }

  function FailedFetches(events: seq<Event>): nat {
    if events == [] then 0 else (if FetchFails(events[0]) then 1 else 0) + FailedFetches(events[1..])
  }

  /** The page whose fetch this event fails, if it is such an event. */
  function FailedPage(s: State, e: Event): seq<seq<VehicleRow>> {
    if FetchFails(e) && e.worker < |s.workers| && s.workers[e.worker].Fueling? then [s.workers[e.worker].page] else []
  }

  function FailedPages(c: Setting, s: State, events: seq<Event>): seq<seq<VehicleRow>>
    requires c.Valid() && Schedule(c, s, events)
    decreases |events|
  {
    if events == [] then [] else FailedPage(s, events[0]) + FailedPages(c, Next(c, s, events[0]), events[1..])
  }

  /** A failed range has the plates of its page for boundaries, and its size. */
  predicate Describes(range: FailedRange, page: seq<VehicleRow>) {
    && range.vehicleCount == |page| && range.lo.Some? && range.hi.Some?
    && (exists v :: v in page && v.kenteken == range.lo) && (exists v :: v in page && v.kenteken == range.hi)
    && forall v :: v in page ==> v.kenteken.Some? && AtMost(range.lo.value, v.kenteken.value)
                                 && AtMost(v.kenteken.value, range.hi.value)
  }

  predicate DescribeAll(ranges: seq<FailedRange>, pages: seq<seq<VehicleRow>>) {
    |ranges| == |pages| && forall k :: 0 <= k < |ranges| ==> Describes(ranges[k], pages[k])
  }

  lemma NotedRangeDescribes(c: Setting, s: Summary, range: KentekenRange, page: seq<VehicleRow>)
    requires PageOk(c, range, page)
    ensures var ranges := NoteFailure(s, page).failedRanges;
            ranges == s.failedRanges + [ranges[|s.failedRanges|]] && Describes(ranges[|s.failedRanges|], page)
  {
    assert page[0] in page && page[|page| - 1] in page;
    forall v | v in page
      ensures AtMost(page[0].kenteken.value, v.kenteken.value)
           && AtMost(v.kenteken.value, page[|page| - 1].kenteken.value)
    {
      var i :| 0 <= i < |page| && page[i] == v;
    }
  }

  lemma NextDescribes(c: Setting, s: State, e: Event, pages: seq<seq<VehicleRow>>)
    requires c.Valid() && Invariant(c, s) && Enabled(c, s, e) && DescribeAll(s.shared.summary.failedRanges, pages)
    ensures DescribeAll(Next(c, s, e).shared.summary.failedRanges, pages + FailedPage(s, e))
    ensures |FailedPage(s, e)| == if FetchFails(e) then 1 else 0
  {
    hide Setting.Valid, Register, Joinable, FetchFuel, NestedLoopJoin, LoadOf, Plus, ShouldAbort, Setting.Page,
      Conserved, SharedOk, LossOk, ControlOk, NoteFailure, Describes, PageOk, Verdict;
    if FetchFails(e) {
      var w := s.workers[e.worker];
      assert ShapeOk(c, w);
      NotedRangeDescribes(c, s.shared.summary, w.range, w.page);
    }
  }

  lemma {:induction false} RunDescribes(c: Setting, s: State, events: seq<Event>, pages: seq<seq<VehicleRow>>)
    requires c.Valid() && Invariant(c, s) && Schedule(c, s, events)
    requires DescribeAll(s.shared.summary.failedRanges, pages)
    ensures DescribeAll(Run(c, s, events).shared.summary.failedRanges, pages + FailedPages(c, s, events))
    ensures |FailedPages(c, s, events)| == FailedFetches(events)
    decreases |events|
  {
    hide Setting.Valid, Enabled, Next, Invariant, DescribeAll, FailedPage, FetchFails;
    if events == [] {
      assert pages + [] == pages;
    } else {
      var next := Next(c, s, events[0]);
      NextKeepsInvariant(c, s, events[0]);
      NextDescribes(c, s, events[0], pages);
      RunDescribes(c, next, events[1..], pages + FailedPage(s, events[0]));
      assert (pages + FailedPage(s, events[0])) + FailedPages(c, next, events[1..])
          == pages + (FailedPage(s, events[0]) + FailedPages(c, next, events[1..]));
    }
  }

  /** At any moment of any run the failed ranges are the pages whose fetch
      failed, in that order, with their boundaries and sizes. */
  lemma FailedRangesAreThePages(c: Setting, events: seq<Event>)
    requires c.Valid() && Schedule(c, Init(c), events)
    ensures DescribeAll(Run(c, Init(c), events).shared.summary.failedRanges, FailedPages(c, Init(c), events))
    ensures Run(c, Init(c), events).shared.summary.failures == FailedFetches(events)
  {
    hide Run, Schedule, FailedPages, Conserved, ShapeOk, RowsOk, LossOk, Verdict, Affected;
    InitKeepsInvariant(c);
    RunKeepsInvariant(c, Init(c), events);
    RunDescribes(c, Init(c), events, []);
    assert [] + FailedPages(c, Init(c), events) == FailedPages(c, Init(c), events);
  }

  // ----- Which rows are marked

  function Times(page: seq<VehicleRow>, v: VehicleRow): nat {
    multiset(page)[v]
  }

  /** How often the vehicle is on these pages. */
  function OnPages(pages: seq<seq<VehicleRow>>, v: VehicleRow): nat {
    if pages == [] then 0 else Times(pages[0], v) + OnPages(pages[1..], v)
  }

  /** How many of these rows are of this vehicle and marked. */
  function Marked(rows: seq<WidenedRow>, v: VehicleRow): nat {
    if rows == [] then 0
    else Marked(rows[..|rows| - 1], v)
         + if rows[|rows| - 1].status == FuelUnavailable && rows[|rows| - 1].vehicle == v then 1 else 0
  }

  /** What a worker holds that is marked or will be. */
  function MarkedIn(w: Stage, v: VehicleRow): nat {
    match w
    case Fueled(b) => if b.failed then Times(b.page, v) else 0
    case Recording(b, _) => if b.failed then Times(b.page, v) else 0
    case Recorded(b) => if b.failed then Times(b.page, v) else 0
    case Joined(_, _, rows) => Marked(rows, v)
    case _ => 0
  }

  function MarkedByAll(workers: seq<Stage>, v: VehicleRow): nat {
    if workers == [] then 0 else MarkedIn(workers[0], v) + MarkedByAll(workers[1..], v)
  }

  lemma {:induction false} MarkedConcat(a: seq<WidenedRow>, b: seq<WidenedRow>, v: VehicleRow)
    ensures Marked(a + b, v) == Marked(a, v) + Marked(b, v)
    decreases |b|
  {
    if b == [] {
      assert a + b == a;
    } else {
      assert (a + b)[..|a + b| - 1] == a + b[..|b| - 1];
      MarkedConcat(a, b[..|b| - 1], v);
    }
  }

  lemma {:induction false} MarkedAll(rows: seq<WidenedRow>, failed: bool, v: VehicleRow)
    requires forall i :: 0 <= i < |rows| ==> (rows[i].status == FuelUnavailable <==> failed)
    ensures Marked(rows, v) == if failed then Times(VehiclesOf(rows), v) else 0
  {
    if rows == [] {
      assert VehiclesOf(rows) == [];
    } else {
      var front := rows[..|rows| - 1];
      MarkedAll(front, failed, v);
      assert VehiclesOf(rows) == VehiclesOf(front) + [rows[|rows| - 1].vehicle];
    }
  }

  lemma {:induction false} MarkedUpdate(workers: seq<Stage>, i: nat, w: Stage, v: VehicleRow)
    requires i < |workers|
    ensures MarkedByAll(workers[i := w], v) + MarkedIn(workers[i], v) == MarkedByAll(workers, v) + MarkedIn(w, v)
  {
    hide MarkedIn;
    if i > 0 {
      assert workers[i := w][1..] == workers[1..][i - 1 := w];
      MarkedUpdate(workers[1..], i - 1, w, v);
    } else {
      assert workers[i := w][1..] == workers[1..];
    }
  }

  lemma {:induction false} NoneMarked(workers: seq<Stage>, v: VehicleRow)
    requires forall i :: 0 <= i < |workers| ==> workers[i].Idle? || workers[i].Reaped?
    ensures MarkedByAll(workers, v) == 0
  {
    if workers != [] {
      NoneMarked(workers[1..], v);
    }
  }

  lemma StatusOfJoin(page: seq<VehicleRow>, fuel: seq<FuelRow>, failed: bool)
    requires Register(page)
    ensures var rows := NestedLoopJoin(page, fuel, failed);
            && VehiclesOf(rows) == page
            && forall i :: 0 <= i < |rows| ==> (rows[i].status == FuelUnavailable <==> failed)
  {
  }

  lemma JoinMarks(c: Setting, sh: Shared, w: Stage, v: VehicleRow)
    requires c.Valid() && CanAct(c, sh, w, Join)
    ensures var (sh', w') := Act(c, sh, w, Join);
            || w'.Failing?
            || (sh'.emitted == sh.emitted && MarkedIn(w', v) == MarkedIn(w, v))
  {
    hide Setting.Valid, NestedLoopJoin;
    var b := w.batch;
    if Joinable(b.page, b.fuel) {
      StatusOfJoin(b.page, b.fuel, b.failed);
      MarkedAll(NestedLoopJoin(b.page, b.fuel, b.failed), b.failed, v);
    }
  }

  /** A step moves marked rows towards the output, a failed fetch adds its
      page, and only a step on the way to a failure loses any. */
  lemma ActMarks(c: Setting, sh: Shared, w: Stage, a: Action, v: VehicleRow)
    requires c.Valid() && CanAct(c, sh, w, a) && (sh.cancelled ==> Doomed(sh))
    ensures var (sh', w') := Act(c, sh, w, a);
            || Doomed(sh') || Troubled(w')
            || Marked(sh'.emitted, v) + MarkedIn(w', v)
               == Marked(sh.emitted, v) + MarkedIn(w, v) + if a.FuelFails? then Times(w.page, v) else 0
  {
    hide Setting.Valid, Setting.Page, Setting.Ahead, Register, FetchFuel, LoadOf, Plus, Marked, ShouldAbort, Times,
      Joinable, NestedLoopJoin;
    match a
    case Join => JoinMarks(c, sh, w, v);
    case Write => MarkedConcat(sh.emitted, w.rows, v);
    case _ =>
  }

  predicate MarksOk(s: State, pages: seq<seq<VehicleRow>>, v: VehicleRow) {
    InTrouble(s) || Marked(s.shared.emitted, v) + MarkedByAll(s.workers, v) == OnPages(pages, v)
  }

  lemma {:induction false} OnePageMore(pages: seq<seq<VehicleRow>>, more: seq<seq<VehicleRow>>, v: VehicleRow)
    requires |more| <= 1
    ensures OnPages(pages + more, v) == OnPages(pages, v) + if more == [] then 0 else Times(more[0], v)
  {
    hide Times;
    if pages == [] {
      assert pages + more == more;
    } else {
      assert (pages + more)[1..] == pages[1..] + more;
      OnePageMore(pages[1..], more, v);
    }
  }

  lemma NextMarks(c: Setting, s: State, e: Event, pages: seq<seq<VehicleRow>>, v: VehicleRow)
    requires c.Valid() && Invariant(c, s) && Enabled(c, s, e) && MarksOk(s, pages, v)
    ensures MarksOk(Next(c, s, e), pages + FailedPage(s, e), v)
  {
    hide Setting.Valid, Invariant, Act, CanAct, Marked, MarkedIn, InTrouble, OnPages, Times, Doomed, Troubled, Verdict;
    TroubleStays(c, s, e);
    OnePageMore(pages, FailedPage(s, e), v);
    if e.Work? {
      ActMarks(c, s.shared, s.workers[e.worker], e.action, v);
      NewTrouble(c, s, e);
      MarkedUpdate(s.workers, e.worker, Act(c, s.shared, s.workers[e.worker], e.action).1, v);
      if FetchFails(e) {
        FailsWhereItWaits(c, s, e);
      }
    }
  }

  lemma FailsWhereItWaits(c: Setting, s: State, e: Event)
    requires c.Valid() && Enabled(c, s, e) && FetchFails(e)
    ensures s.workers[e.worker].Fueling?
  {
    hide Setting.Valid;
  }

  lemma {:induction false} RunMarks(c: Setting, s: State, events: seq<Event>, pages: seq<seq<VehicleRow>>,
      v: VehicleRow)
    requires c.Valid() && Invariant(c, s) && Schedule(c, s, events) && MarksOk(s, pages, v)
    ensures MarksOk(Run(c, s, events), pages + FailedPages(c, s, events), v)
    decreases |events|
  {
    hide Setting.Valid, Enabled, Next, Invariant, MarksOk, FailedPage;
    if events == [] {
      assert pages + [] == pages;
    } else {
      var next := Next(c, s, events[0]);
      NextKeepsInvariant(c, s, events[0]);
      NextMarks(c, s, events[0], pages, v);
      RunMarks(c, next, events[1..], pages + FailedPage(s, events[0]), v);
      assert (pages + FailedPage(s, events[0])) + FailedPages(c, next, events[1..])
          == pages + (FailedPage(s, events[0]) + FailedPages(c, next, events[1..]));
    }
  }

  lemma InitMarksNothing(c: Setting, v: VehicleRow)
    ensures MarksOk(Init(c), [], v)
  {
    hide Bands;
    InitIsIdle(c);
    NoneMarked(Init(c).workers, v);
  }

  lemma OkMarksTheRest(c: Setting, s: State, pages: seq<seq<VehicleRow>>, v: VehicleRow)
    requires c.Valid() && Invariant(c, s) && EndsOk(s) && MarksOk(s, pages, v)
    ensures Marked(s.shared.emitted, v) == OnPages(pages, v)
  {
    hide Conserved, ShapeOk, SharedOk, LossOk, Setting.Valid, Marked, OnPages;
    OkIsCalm(c, s);
    NoneMarked(s.workers, v);
  }

  /** An Ok export has marked exactly the vehicles on the pages whose fetch failed. */
  lemma OkMarksFailedPages(c: Setting, events: seq<Event>, v: VehicleRow)
    requires c.Valid() && Schedule(c, Init(c), events) && EndsOk(Run(c, Init(c), events))
    ensures Marked(Run(c, Init(c), events).shared.emitted, v) == OnPages(FailedPages(c, Init(c), events), v)
  {
    var s := Run(c, Init(c), events);
    hide *;
    InitMarksNothing(c, v);
    InitKeepsInvariant(c);
    RunKeepsInvariant(c, Init(c), events);
    RunMarks(c, Init(c), events, [], v);
    assert [] + FailedPages(c, Init(c), events) == FailedPages(c, Init(c), events);
    OkMarksTheRest(c, s, FailedPages(c, Init(c), events), v);
  }

  // ----- Failures within the floor

  lemma {:induction false} NoneOwed(c: Setting, workers: seq<Stage>)
    ensures ConcurrentConservation.Total(c, workers).unfailed >= 0
  {
    if workers != [] {
      NoneOwed(c, workers[1..]);
    }
  }

  lemma ActAbandons(c: Setting, sh: Shared, w: Stage, a: Action)
    requires c.Valid() && CanAct(c, sh, w, a)
    ensures Act(c, sh, w, a).0.abandoned.unfailed >= sh.abandoned.unfailed
  {
    hide Setting.Valid, Setting.Page, Setting.Ahead, Register, Joinable, FetchFuel, NestedLoopJoin, ShouldAbort,
      VehiclesOf, Unavailable, LeftBehind;
  }

  lemma {:induction false} RunAbandons(c: Setting, s: State, events: seq<Event>)
    requires c.Valid() && Schedule(c, s, events)
    ensures Run(c, s, events).shared.abandoned.unfailed >= s.shared.abandoned.unfailed
    decreases |events|
  {
    hide Setting.Valid, Act, CanAct, Verdict;
    if events != [] {
      if events[0].Work? {
        ActAbandons(c, s.shared, s.workers[events[0].worker], events[0].action);
      }
      RunAbandons(c, Next(c, s, events[0]), events[1..]);
    }
  }

  /** Whatever else happens, failed fetches within the floor never abort an export. */
  lemma FloorNeverAborts(c: Setting, events: seq<Event>)
    requires c.Valid() && Schedule(c, Init(c), events) && FailedFetches(events) <= c.failure.floor
    ensures !Run(c, Init(c), events).shared.counters.aborted
  {
    var s := Run(c, Init(c), events);
    hide Run, Schedule, FailedFetches, ShapeOk, RowsOk, LossOk, SharedOk, ControlOk, ConcurrentConservation.Total,
      LoadOf, VehiclesOf,
      Unavailable, SelectedByAll, Bands;
    FailedRangesAreThePages(c, events);
    RunAbandons(c, Init(c), events);
    InitKeepsInvariant(c);
    RunKeepsInvariant(c, Init(c), events);
    NoneOwed(c, s.workers);
    AbortInTheExport(c, events);
  }

  // ----- What an abort stops

  /** The worker goes on: it finds no abort before its next range, requests a
      page, or takes on the page whose fetch it has recorded. */
  predicate GoesOn(w: Stage) {
    w.Unaborted? || w.Paging? || w.Recorded?
  }

  /** How often a worker goes on along a run, and how often one goes on to claim a range. */
  function WorkBegun(c: Setting, s: State, events: seq<Event>): nat
    requires c.Valid() && Schedule(c, s, events)
    decreases |events|
  {
    if events == [] then 0
    else
      var e, next := events[0], Next(c, s, events[0]);
      (if e.Work? && GoesOn(next.workers[e.worker]) then 1 else 0) + WorkBegun(c, next, events[1..])
  }

  function ClaimsBegun(c: Setting, s: State, events: seq<Event>): nat
    requires c.Valid() && Schedule(c, s, events)
    decreases |events|
  {
    if events == [] then 0
    else
      var e, next := events[0], Next(c, s, events[0]);
      (if e.Work? && next.workers[e.worker].Claiming? then 1 else 0) + ClaimsBegun(c, next, events[1..])
  }

  lemma ActAfterStop(c: Setting, sh: Shared, w: Stage, a: Action)
    requires c.Valid() && CanAct(c, sh, w, a)
    ensures var (sh', w') := Act(c, sh, w, a);
            && (sh.counters.aborted ==> sh'.counters.aborted && !GoesOn(w'))
            && (sh.errorFlag ==> sh'.errorFlag && !w'.Claiming?)
  {
    hide Setting.Valid, Setting.Page, Register, Joinable, FetchFuel, NestedLoopJoin, LoadOf, Plus, ShouldAbort;
  }

  /** Once the export is aborted no worker goes on, and once its error flag is
      raised none goes on to claim a range. */
  lemma {:induction false} NothingBeginsAfterStop(c: Setting, s: State, events: seq<Event>)
    requires c.Valid() && Schedule(c, s, events)
    ensures s.shared.counters.aborted ==>
              WorkBegun(c, s, events) == 0 && Run(c, s, events).shared.counters.aborted
    ensures s.shared.errorFlag ==> ClaimsBegun(c, s, events) == 0 && Run(c, s, events).shared.errorFlag
    decreases |events|
  {
    hide Setting.Valid, Act, CanAct, Verdict, GoesOn;
    if events != [] {
      var e := events[0];
      if e.Work? {
        ActAfterStop(c, s.shared, s.workers[e.worker], e.action);
      }
      NothingBeginsAfterStop(c, Next(c, s, e), events[1..]);
    }
  }

  /** A stored error raises the flag, or some worker is about to raise it or panicked on the way. */
  predicate FlagFollows(s: State) {
    s.shared.hardError.Some? ==>
      s.shared.errorFlag || exists i :: 0 <= i < |s.workers| && (s.workers[i].ErrorStored? || s.workers[i].Panicked?)
  }

  lemma ActRaisesFlag(c: Setting, sh: Shared, w: Stage, a: Action)
    requires c.Valid() && CanAct(c, sh, w, a)
    ensures var (sh', w') := Act(c, sh, w, a);
            && (sh.errorFlag ==> sh'.errorFlag)
            && (sh'.hardError != sh.hardError || w.ErrorStored? || w.Panicked? ==>
                  sh'.errorFlag || w'.ErrorStored? || w'.Panicked?)
  {
    hide Setting.Valid, Setting.Page, Register, Joinable, FetchFuel, NestedLoopJoin, LoadOf, Plus, ShouldAbort;
  }

  lemma {:induction false} RunRaisesFlag(c: Setting, s: State, events: seq<Event>)
    requires c.Valid() && Schedule(c, s, events) && FlagFollows(s)
    ensures FlagFollows(Run(c, s, events))
    decreases |events|
  {
    hide Setting.Valid, Act, CanAct, Verdict;
    if events != [] {
      var e, next := events[0], Next(c, s, events[0]);
      if e.Work? {
        ActRaisesFlag(c, s.shared, s.workers[e.worker], e.action);
        assert next.workers[e.worker] == Act(c, s.shared, s.workers[e.worker], e.action).1;
        assert forall j :: 0 <= j < |s.workers| && j != e.worker ==> next.workers[j] == s.workers[j];
      }
      RunRaisesFlag(c, next, events[1..]);
    }
  }

  /** So an error does stop the others: an export that finished with one had raised its flag. */
  lemma ErrorsRaiseTheFlag(c: Setting, events: seq<Event>)
    requires c.Valid() && Schedule(c, Init(c), events)
    ensures FlagFollows(Run(c, Init(c), events))
    ensures var s := Run(c, Init(c), events);
            s.result.Some? && s.shared.hardError.Some? ==> s.shared.errorFlag
  {
    InitKeepsInvariant(c);
    RunKeepsInvariant(c, Init(c), events);
    RunRaisesFlag(c, Init(c), events);
    hide Run, Schedule, Conserved, ShapeOk, SharedOk, LossOk, Verdict;
  }
}
