/** On orderly data and without faults but failed fuel fetches, only an abort
    keeps a schedule of the concurrent export from ending in success. */
module ConcurrentSuccess {
  import opened Wrappers
  import opened Ranges
  import opened Upstream
  import opened AbortCounter
  import opened MergeJoin
  import opened FuelFetch
  import opened ConcurrentExport
  import opened ConcurrentConservation
  import opened ConcurrentSafety
  import opened ConcurrentProgress
  import opened ConcurrentOutcome

  /** Fuel rows are in order and well numbered for every vehicle to export,
      pages hold rows, and a full batch cannot reach the fuel limit. */
  predicate Orderly(c: Setting) {
    && c.Valid() && c.pageSize > 0 && c.fuelBatch * MAX_FUEL_ENTRIES < c.fuelLimit
    && FuelInOrder(c.fuelData)
    && forall v :: v in c.Vehicles() ==> v.kenteken.Some? && WellNumbered(FuelOf(c.fuelData, v.kenteken.value))
  }

  /** Any fault but a failed fuel fetch, which degrades its page. */
  predicate IsFatal(e: Event) {
    e.Work? && (e.action.PageFails? || e.action.WriteFails? || e.action.Panic?)
  }

  // ----- Pages in hand hold vehicles to export

  predicate FromPopulation(c: Setting, page: seq<VehicleRow>) {
    forall i :: 0 <= i < |page| ==> page[i] in c.Vehicles()
  }

  predicate Sourced(c: Setting, w: Stage) {
    match w
    case Fueling(_, page) => FromPopulation(c, page)
    case Fueled(b) => FromPopulation(c, b.page)
    case Recording(b, _) => FromPopulation(c, b.page)
    case Recorded(b) => FromPopulation(c, b.page)
    case _ => true
  }

  predicate AllSourced(c: Setting, s: State) {
    forall i :: 0 <= i < |s.workers| ==> Sourced(c, s.workers[i])
  }

  lemma PageIsFromPopulation(c: Setting, range: KentekenRange, cursor: Option<string>)
    ensures FromPopulation(c, c.Page(range, cursor))
  {
    var q := RangePageQuery(c.merken, range, cursor, c.pageSize);
    SelectedMatch(c.data, c.merken, q.after, q.upTo);
    SelectedMatch(c.data, c.merken, None, None);
    var ahead, page := c.Ahead(range, cursor), c.Page(range, cursor);
    hide Selected;
    forall i | 0 <= i < |page|
      ensures page[i] in c.Vehicles()
    {
      assert page[i] == ahead[i] && ahead[i] in Selected(c.data, q.merken, q.after, q.upTo);
      assert Matches(page[i], c.merken, None, None);
    }
  }

  lemma ActStaysSourced(c: Setting, sh: Shared, w: Stage, a: Action)
    requires c.Valid() && CanAct(c, sh, w, a) && Sourced(c, w)
    ensures Sourced(c, Act(c, sh, w, a).1)
  {
    hide Setting.Valid, Setting.Page, Setting.Ahead, Register, FetchFuel, LoadOf, Plus, FromPopulation, ShouldAbort,
      Joinable, NestedLoopJoin;
    if a.PageArrives? {
      PageIsFromPopulation(c, w.range, w.cursor);
    }
  }

  lemma NextStaysSourced(c: Setting, s: State, e: Event)
    requires c.Valid() && Enabled(c, s, e) && AllSourced(c, s)
    ensures AllSourced(c, Next(c, s, e))
  {
    hide Setting.Valid, Act, CanAct, Sourced, Verdict;
    if e.Work? {
      ActStaysSourced(c, s.shared, s.workers[e.worker], e.action);
    }
  }

  // ----- Orderly data raise no error and hold nobody up

  lemma PageIsJoinable(c: Setting, page: seq<VehicleRow>, fuel: seq<FuelRow>)
    requires Orderly(c) && Register(page) && FromPopulation(c, page) && GoodFuel(c, page, fuel, false)
    ensures Joinable(page, fuel)
  {
    FetchThenJoin(page, c.fuelData, c.fuelBatch, c.fuelLimit);
    assert forall i :: 0 <= i < |page| ==> WellNumbered(FuelOf(c.fuelData, page[i].kenteken.value));
  }

  lemma PageIsFetchable(c: Setting, page: seq<VehicleRow>)
    requires Orderly(c) && Register(page) && FromPopulation(c, page)
    ensures FetchFuel(c.fuelData, PlatesOf(page), c.fuelBatch, c.fuelLimit).Ok?
  {
    var plates := PlatesOf(page);
    forall k | k in plates
      ensures |FuelOf(c.fuelData, k)| <= MAX_FUEL_ENTRIES
    {
      var i :| 0 <= i < |plates| && plates[i] == k;
      assert page[i] in c.Vehicles();
    }
    NoFalseTruncation(c.fuelData, plates, c.fuelBatch, c.fuelLimit);
  }

  lemma NothingRaised(c: Setting, s: State, e: Event)
    requires Orderly(c) && Invariant(c, s) && AllSourced(c, s) && Enabled(c, s, e) && !IsFatal(e)
    ensures Raised(s, e) == {}
  {
    if e.Work? && e.action.Join? {
      var b := s.workers[e.worker].batch;
      assert ShapeOk(c, s.workers[e.worker]);
      if b.failed {
        assert b.fuel == [] && FuelInOrder([]);
      } else {
        PageIsJoinable(c, b.page, b.fuel);
      }
    }
  }

  lemma {:induction false} RunRaisesNothing(c: Setting, s: State, events: seq<Event>)
    requires Orderly(c) && Invariant(c, s) && AllSourced(c, s) && Schedule(c, s, events)
    requires forall i :: 0 <= i < |events| ==> !IsFatal(events[i])
    ensures AllRaised(c, s, events) == {}
    ensures Invariant(c, Run(c, s, events)) && AllSourced(c, Run(c, s, events))
    decreases |events|
  {
    hide Setting.Valid, FuelInOrder, WellNumbered, Enabled, Next, Invariant, AllSourced, Raised, IsFatal;
    if events != [] {
      NextKeepsInvariant(c, s, events[0]);
      NextStaysSourced(c, s, events[0]);
      NothingRaised(c, s, events[0]);
      RunRaisesNothing(c, Next(c, s, events[0]), events[1..]);
    }
  }

  lemma WorkerCanGoOn(c: Setting, sh: Shared, w: Stage) returns (a: Action)
    requires Orderly(c) && ShapeOk(c, w) && Sourced(c, w) && !w.Reaped?
    ensures CanAct(c, sh, w, a) && !IsFatal(Work(0, a)) && !a.FuelFails?
  {
    assert c.Valid();
    a := NextAction(w);
    if w.Fueling? {
      PageIsFetchable(c, w.page);
    } else {
      NextActionIsPossible(c, sh, w);
    }
  }

  /** As long as there is no result, there is a next step that is no fault. */
  lemma CanGoOnWithoutFaults(c: Setting, s: State)
    requires Orderly(c) && Invariant(c, s) && AllSourced(c, s) && s.result.None?
    ensures exists e :: Enabled(c, s, e) && !IsFatal(e) && !FetchFails(e)
  {
    hide ShapeOk, CanAct, Sourced, Conserved, SharedOk, LossOk, FuelInOrder;
    if i :| 0 <= i < |s.workers| && !s.workers[i].Reaped? {
      var a := WorkerCanGoOn(c, s.shared, s.workers[i]);
      assert Enabled(c, s, Work(i, a)) && !IsFatal(Work(i, a)) && !FetchFails(Work(i, a));
    } else {
      assert Enabled(c, s, Finish) && !IsFatal(Finish) && !FetchFails(Finish);
    }
  }

  // ----- How such runs end

  /** The only faults are failed fuel fetches, and the run can go on only with a fault. */
  ghost predicate OnlyFetchesFail(c: Setting, events: seq<Event>)
    requires c.Valid() && Schedule(c, Init(c), events)
  {
    && (forall i :: 0 <= i < |events| ==> !IsFatal(events[i]))
    && forall e :: Enabled(c, Run(c, Init(c), events), e) ==> IsFatal(e) || FetchFails(e)
  }

  lemma InitIsSourced(c: Setting)
    requires c.Valid()
    ensures Invariant(c, Init(c)) && AllSourced(c, Init(c))
  {
    InitKeepsInvariant(c);
    InitIsIdle(c);
  }

  /** Every vehicle is exported once and exactly those on the pages whose fetch failed are marked. */
  ghost predicate Succeeds(c: Setting, events: seq<Event>)
    requires c.Valid() && Schedule(c, Init(c), events)
  {
    var s := Run(c, Init(c), events);
    && EndsOk(s) && ExactlyOnce(c, s)
    && s.result.value.value.failures == FailedFetches(events)
    && forall v :: Marked(s.shared.emitted, v) == OnPages(FailedPages(c, Init(c), events), v)
  }

  lemma OkSucceeds(c: Setting, events: seq<Event>)
    requires c.Valid() && c.pageSize > 0 && Schedule(c, Init(c), events) && EndsOk(Run(c, Init(c), events))
    ensures Succeeds(c, events)
  {
    OkMeansExactlyOnce(c, events);
    ResultIsExact(c, events);
    FailedRangesAreThePages(c, events);
    forall v
      ensures Marked(Run(c, Init(c), events).shared.emitted, v) == OnPages(FailedPages(c, Init(c), events), v)
    {
      OkMarksFailedPages(c, events, v);
    }
  }

  /** Every schedule with no fault but failed fuel fetches, however many, that
      cannot go on without a fault has ended: with success if the export was
      not aborted, and with too many failed fetches if it was. */
  lemma OnlyAnAbortFails(c: Setting, events: seq<Event>)
    requires Orderly(c) && Schedule(c, Init(c), events) && OnlyFetchesFail(c, events)
    ensures var s := Run(c, Init(c), events);
            if s.shared.counters.aborted then s.result == Some(Err(FuelFailureThresholdExceeded))
            else Succeeds(c, events)
  {
    InitIsSourced(c);
    RunRaisesNothing(c, Init(c), events);
    hide Run, Schedule, AllRaised, Invariant, AllSourced, Init, Setting.Valid, FuelInOrder, WellNumbered, Succeeds;
    if Run(c, Init(c), events).result.None? {
      CanGoOnWithoutFaults(c, Run(c, Init(c), events));
      assert false;
    }
    ResultFollowsFaults(c, events);
    if !Run(c, Init(c), events).shared.counters.aborted {
      OkSucceeds(c, events);
    }
  }

  /** So every such schedule with no more failed fetches than the floor succeeds. */
  lemma TolerableRunsSucceed(c: Setting, events: seq<Event>)
    requires Orderly(c) && Schedule(c, Init(c), events) && OnlyFetchesFail(c, events)
    requires FailedFetches(events) <= c.failure.floor
    ensures Succeeds(c, events)
  {
    FloorNeverAborts(c, events);
    OnlyAnAbortFails(c, events);
  }
}
