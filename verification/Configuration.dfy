/** What the program passes to the concurrent export, and what becomes of the
    page size of zero that the export itself would accept. */
module Configuration {
  import opened Wrappers
  import opened Ranges
  import opened Upstream
  import opened AbortCounter
  import opened EarlyAbort
  import opened FuelFetch
  import opened ConcurrentExport
  import opened ConcurrentConservation
  import opened ConcurrentSafety
  import opened EarlyExport
  import opened EarlyWitness

  // ----- The program's settings

  /** Environment variables that are set to a number. */
  datatype Environment = Environment(
    rangeCount: Option<nat>, workerCount: Option<nat>, pageSize: Option<nat>, fuelBatch: Option<nat>)

  const VEHICLE_PAGE_LIMIT := 50_000

  function OrDefault(raw: Option<nat>, default: nat): nat {
    if raw.Some? then raw.value else default
  }

  function AtLeastOne(n: nat): nat {
    if n < 1 then 1 else n
  }

  /** The page size is clamped where it is read. */
  function RangePageSize(raw: Option<nat>): nat {
    var size := AtLeastOne(OrDefault(raw, 3_000));
    if size > VEHICLE_PAGE_LIMIT then VEHICLE_PAGE_LIMIT else size
  }

  function ProgramSetting(env: Environment, data: seq<VehicleRow>, fuelData: seq<FuelRow>, merken: seq<string>,
      failure: FailureConfig): Setting
  {
    Setting(data, fuelData, merken, AtLeastOne(OrDefault(env.rangeCount, 64)), OrDefault(env.workerCount, 16),
            RangePageSize(env.pageSize), AtLeastOne(OrDefault(env.fuelBatch, FUEL_KENTEKEN_BATCH)),
            DEFAULT_FUEL_PAGE_LIMIT, failure)
  }

  /** The page size used is the size between 1 and 50,000 nearest to the one asked for. */
  lemma PageSizeIsNearest(wanted: nat, other: nat)
    requires 1 <= other <= 50_000
    ensures var size := RangePageSize(Some(wanted));
            1 <= size <= 50_000 && Difference(size, wanted) <= Difference(other, wanted)
  {
  }

  /** Whatever its environment says, an export of the program that returns Ok is exactly-once. */
  lemma ProgramExportsExactlyOnce(env: Environment, data: seq<VehicleRow>, fuelData: seq<FuelRow>, merken: seq<string>,
      failure: FailureConfig, events: seq<Event>)
    requires Register(data) && FuelDataset(fuelData)
    requires var c := ProgramSetting(env, data, fuelData, merken, failure);
             Schedule(c, Init(c), events) && EndsOk(Run(c, Init(c), events))
    ensures var c := ProgramSetting(env, data, fuelData, merken, failure);
            var emitted := Run(c, Init(c), events).shared.emitted;
            && multiset(VehiclesOf(emitted)) == multiset(Population(data, merken))
            && forall i :: 0 <= i < |emitted| ==> RowOk(c, emitted[i])
  {
    var c := ProgramSetting(env, data, fuelData, merken, failure);
    hide Schedule, Run, RowOk, Population;
    OkMeansExactlyOnce(c, events);
  }

  // ----- A page size of zero

  /** Nothing has failed and nothing was written. */
  predicate Untroubled(c: Setting, s: State) {
    && s.result.None? && s.shared.counters == Counters(0, 0, false) && !s.shared.errorFlag && s.shared.hardError.None?
    && s.shared.emittedCount == 0
  }

  /** A worker goes through all the ranges left, finding each empty, and is joined. */
  lemma {:induction false} Drains(c: Setting, s: State, i: nat, sh: Shared, before: seq<Event>)
    returns (events: seq<Event>, sh': Shared)
    requires c.Valid() && c.pageSize == 0 && i < |s.workers| && Leads(c, s, before, Put(s, i, sh, Idle))
    requires Untroubled(c, Put(s, i, sh, Idle))
    ensures Leads(c, s, events, Put(s, i, sh', Reaped)) && Untroubled(c, Put(s, i, sh', Reaped)) && sh'.queue == []
    decreases |sh.queue|
  {
    assert !Over(c.failure, sh.counters);
    if sh.queue == [] {
      assert Acts(c, sh, Idle, ReadAbort, sh, Unaborted) && Acts(c, sh, Unaborted, ReadErrorFlag, sh, Claiming);
      assert Acts(c, sh, Claiming, Pop, sh, Done) && Acts(c, sh, Done, Reap, sh, Reaped);
      hide Acts, Act, Leads, Setting.Valid, Over;
      events := Extend(c, s, i, sh, Idle, before, ReadAbort, sh, Unaborted);
      events := Extend(c, s, i, sh, Unaborted, events, ReadErrorFlag, sh, Claiming);
      events := Extend(c, s, i, sh, Claiming, events, Pop, sh, Done);
      events := Extend(c, s, i, sh, Done, events, Reap, sh, Reaped);
      sh' := sh;
    } else {
      assert c.Page(sh.queue[0], None) == [];
      hide Acts, Act, Leads, Setting.Valid, Over, Setting.Page;
      events := Claims(c, s, i, sh, before);
      events, sh' := Passes(c, s, i, sh.queue[0], Popped(sh), events);
      events, sh' := Drains(c, s, i, sh', events);
    }
  }

  lemma {:induction false} AllDrain(c: Setting, s: State, i: nat) returns (events: seq<Event>, end: State)
    requires c.Valid() && c.pageSize == 0 && Untroubled(c, s) && i <= |s.workers|
    requires forall k :: 0 <= k < |s.workers| ==> s.workers[k] == if k < i then Reaped else Idle
    ensures Leads(c, s, events, end) && Untroubled(c, end)
            && forall k :: 0 <= k < |end.workers| ==> end.workers[k].Reaped?
    decreases |s.workers| - i
  {
    assert !Over(c.failure, s.shared.counters);
    hide Leads, Over, Setting.Valid;
    if i == |s.workers| {
      events, end := [], s;
      StayPut(c, s);
    } else {
      NoStepYet(c, s, i);
      assert s.workers[i := Idle] == s.workers;
      var first, sh := Drains(c, s, i, s.shared, []);
      var middle := Put(s, i, sh, Reaped);
      var rest;
      rest, end := AllDrain(c, middle, i + 1);
      events := first + rest;
      OneAfterAnother(c, s, first, middle, rest, end);
    }
  }

  lemma Finishes(c: Setting, events: seq<Event>, end: State)
    requires c.Valid() && Leads(c, Init(c), events, end) && Untroubled(c, end)
             && |c.Vehicles()| <= RowCountTolerance(|c.Vehicles()|)
    requires forall k :: 0 <= k < |end.workers| ==> end.workers[k].Reaped?
    ensures Schedule(c, Init(c), events + [Finish]) && EndsOk(Run(c, Init(c), events + [Finish]))
  {
    var s := Next(c, end, Finish);
    assert Schedule(c, end, [Finish]) && Run(c, end, [Finish]) == s by {
      assert [Finish][1..] == [];
      hide Setting.Vehicles;
    }
    hide Next, Enabled, Setting.Valid, Setting.Vehicles, Quiet;
    ThenRun(c, Init(c), events, [Finish]);
  }

  lemma {:induction false} ThenRun(c: Setting, s: State, first: seq<Event>, second: seq<Event>)
    requires c.Valid() && Schedule(c, s, first) && Schedule(c, Run(c, s, first), second)
    ensures Schedule(c, s, first + second) && Run(c, s, first + second) == Run(c, Run(c, s, first), second)
    decreases |first|
  {
    hide Setting.Valid, Enabled, Next;
    if first == [] {
      assert first + second == second;
    } else {
      assert (first + second)[1..] == first[1..] + second;
      ThenRun(c, Next(c, s, first[0]), first[1..], second);
    }
  }

  /** No worker holds a page, and nothing was written. */
  predicate Pageless(s: State) {
    && s.shared.emitted == [] && s.shared.emittedCount == 0
    && forall i :: 0 <= i < |s.workers| ==> WithoutPage(s.workers[i])
  }

  predicate WithoutPage(w: Stage) {
    !w.Fueling? && !w.Fueled? && !w.Recording? && !w.Recorded? && !w.Joined? && !w.Written?
  }

  lemma ActStaysPageless(c: Setting, sh: Shared, w: Stage, a: Action)
    requires c.Valid() && c.pageSize == 0 && CanAct(c, sh, w, a) && WithoutPage(w)
    ensures var (sh', w') := Act(c, sh, w, a);
            WithoutPage(w') && sh'.emitted == sh.emitted && sh'.emittedCount == sh.emittedCount
  {
    hide Setting.Valid, LoadOf, Plus;
  }

  lemma {:induction false} RunStaysPageless(c: Setting, s: State, events: seq<Event>)
    requires c.Valid() && c.pageSize == 0 && Schedule(c, s, events) && Pageless(s)
    requires s.result.Some? ==> s.result.value == Verdict(c, s.shared)
    ensures var end := Run(c, s, events);
            Pageless(end) && (end.result.Some? ==> end.result.value == Verdict(c, end.shared))
    decreases |events|
  {
    if events != [] {
      var e := events[0];
      hide Setting.Valid, Act, CanAct, WithoutPage, Verdict;
      if e.Work? {
        ActStaysPageless(c, s.shared, s.workers[e.worker], e.action);
      }
      RunStaysPageless(c, Next(c, s, e), events[1..]);
    }
  }

  lemma ZeroSizeEmitsNothing(c: Setting, events: seq<Event>)
    requires c.Valid() && c.pageSize == 0 && Schedule(c, Init(c), events) && EndsOk(Run(c, Init(c), events))
    ensures Run(c, Init(c), events).shared.emitted == [] && |c.Vehicles()| <= 50
  {
    InitIsIdle(c);
    hide Schedule, Run, Setting.Valid, Setting.Vehicles, Bands;
    RunStaysPageless(c, Init(c), events);
  }

  /** With a page size of zero the export can return Ok, having emitted
      nothing, exactly when so few vehicles match that the row-count check
      tolerates the loss of them all. */
  lemma PageSizeZeroExactly(c: Setting)
    requires c.Valid() && c.pageSize == 0
    ensures (exists events :: Schedule(c, Init(c), events) && EndsOk(Run(c, Init(c), events))) <==> |c.Vehicles()| <= 50
  {
    hide Leads, Setting.Vehicles, Setting.Valid, Schedule, Run, Bands;
    if |c.Vehicles()| <= 50 {
      InitIsIdle(c);
      var events, end := AllDrain(c, Init(c), 0);
      Finishes(c, events, end);
    }
    forall events | Schedule(c, Init(c), events) && EndsOk(Run(c, Init(c), events))
      ensures |c.Vehicles()| <= 50
    {
      ZeroSizeEmitsNothing(c, events);
    }
  }
}
