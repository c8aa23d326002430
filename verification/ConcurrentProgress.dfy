/** Every schedule of the concurrent export ends, its failure counter behaves
    as the interleaved counter alone does, and without faults it succeeds. */
module ConcurrentProgress {
  import opened Ranges
  import opened Upstream
  import opened AbortCounter
  import opened MergeJoin
  import opened FuelFetch
  import opened ConcurrentExport
  import opened ConcurrentConservation
  import opened ConcurrentSafety

  // ----- Termination

  /** An upper bound on the steps a worker can still take with what it holds. */
  function StageCost(c: Setting, w: Stage): nat {
    match w
    case Idle => 6
    case Unaborted => 5
    case Claiming => 4
    case RangeTop(range, cursor) => 20 * |c.Ahead(range, cursor)| + 9
    case Paging(range, cursor) => 20 * |c.Ahead(range, cursor)| + 8
    case Fueling(range, page) => 20 * |LeftBehind(c, range, page)| + 27
    case Fueled(b) => 20 * |LeftBehind(c, b.range, b.page)| + 26
    case Recording(b, phase) =>
      20 * |LeftBehind(c, b.range, b.page)|
      + match phase { case Outside => 25 case Counted(_, _) => 24 case Weighed(_, _) => 23 case Settled => 22 }
    case Recorded(b) => 20 * |LeftBehind(c, b.range, b.page)| + 21
    case Joined(range, page, _) => 20 * |LeftBehind(c, range, page)| + 20
    case Written(range, page, _) => 20 * |LeftBehind(c, range, page)| + 19
    case Failing(_) => 3
    case ErrorStored => 2
    case Done => 1
    case Panicked => 1
    case Cancelled => 1
    case Reaped => 0
  }

  function WorkersCost(c: Setting, workers: seq<Stage>): nat {
    if workers == [] then 0 else StageCost(c, workers[0]) + WorkersCost(c, workers[1..])
  }

  function QueueCost(c: Setting, queue: seq<KentekenRange>): nat {
    if queue == [] then 0
      else 20 * |Selected(c.data, c.merken, queue[0].lo, queue[0].hi)| + 9 + QueueCost(c, queue[1..])
  }

  function Measure(c: Setting, s: State): nat {
    WorkersCost(c, s.workers) + QueueCost(c, s.shared.queue)
    + (if s.shared.cancelled then 0 else 1) + (if s.result.None? then 1 else 0)
  }

  lemma {:induction false} WorkersCostUpdate(c: Setting, workers: seq<Stage>, i: nat, w: Stage)
    requires i < |workers|
    ensures WorkersCost(c, workers[i := w]) == WorkersCost(c, workers) - StageCost(c, workers[i]) + StageCost(c, w)
  {
    hide StageCost;
    if i == 0 {
      assert workers[i := w][1..] == workers[1..];
    } else {
      assert workers[i := w][1..] == workers[1..][i - 1 := w];
      WorkersCostUpdate(c, workers[1..], i - 1, w);
    }
  }

  predicate Cheaper(c: Setting, sh: Shared, w: Stage, sh': Shared, w': Stage) {
    && StageCost(c, w') + QueueCost(c, sh'.queue) < StageCost(c, w) + QueueCost(c, sh.queue)
    && sh'.cancelled == sh.cancelled
  }

  lemma PagingCosts(c: Setting, sh: Shared, w: Stage, a: Action)
    requires c.Valid() && CanAct(c, sh, w, a) && (a.Pop? || a.PageArrives? || a.Count?)
    ensures var (sh', w') := Act(c, sh, w, a); Cheaper(c, sh, w, sh', w')
  {
    hide Setting.Valid, Setting.Page, Register, Joinable, FetchFuel, NestedLoopJoin, LoadOf, Selected, ShouldAbort;
    match a
    case PageArrives => PageSplitsAhead(c, w.range, w.cursor);
    case _ =>
  }

  lemma BatchCosts(c: Setting, sh: Shared, w: Stage, a: Action)
    requires c.Valid() && CanAct(c, sh, w, a)
    requires a.FuelArrives? || a.FuelFails? || a.NoteAttempt? || a.Record? || a.Join? || a.Write? || a.WriteFails?
    ensures var (sh', w') := Act(c, sh, w, a); Cheaper(c, sh, w, sh', w')
  {
    hide Setting.Valid, LeftBehind, QueueCost, Register, Joinable, FetchFuel, NestedLoopJoin, LoadOf, ShouldAbort;
  }

  lemma ControlCosts(c: Setting, sh: Shared, w: Stage, a: Action)
    requires c.Valid() && CanAct(c, sh, w, a)
    requires a.ReadAbort? || a.ReadErrorFlag? || a.PageFails? || a.StoreError? || a.RaiseFlag? || a.Panic? || a.Cancel?
             || a.Reap?
    ensures var (sh', w') := Act(c, sh, w, a); Cheaper(c, sh, w, sh', w')
  {
    hide Setting.Valid, Setting.Ahead, LeftBehind, QueueCost, Register, LoadOf;
  }

  /** Each step uses up some of what bounds the steps to come. */
  lemma ActCosts(c: Setting, sh: Shared, w: Stage, a: Action)
    requires c.Valid() && CanAct(c, sh, w, a)
    ensures var (sh', w') := Act(c, sh, w, a); Cheaper(c, sh, w, sh', w')
  {
    hide *;
    if a.Pop? || a.PageArrives? || a.Count? {
      PagingCosts(c, sh, w, a);
    } else if a.FuelArrives? || a.FuelFails? || a.NoteAttempt? || a.Record? || a.Join? || a.Write? || a.WriteFails? {
      BatchCosts(c, sh, w, a);
    } else {
      ControlCosts(c, sh, w, a);
    }
  }

  lemma NextDecreases(c: Setting, s: State, e: Event)
    requires c.Valid() && Enabled(c, s, e)
    ensures Measure(c, Next(c, s, e)) < Measure(c, s)
  {
    hide Setting.Valid, Act, CanAct, StageCost, QueueCost, WorkersCost, Verdict;
    if e.Work? {
      ActCosts(c, s.shared, s.workers[e.worker], e.action);
      WorkersCostUpdate(c, s.workers, e.worker, Act(c, s.shared, s.workers[e.worker], e.action).1);
    }
  }

  lemma {:induction false} ScheduleIsBounded(c: Setting, s: State, events: seq<Event>)
    requires c.Valid() && Schedule(c, s, events)
    ensures |events| <= Measure(c, s)
    decreases |events|
  {
    hide Setting.Valid, Enabled, Next, Measure;
    if events != [] {
      NextDecreases(c, s, events[0]);
      ScheduleIsBounded(c, Next(c, s, events[0]), events[1..]);
    }
  }

  lemma {:induction false} QueueCostIs(c: Setting, queue: seq<KentekenRange>)
    ensures QueueCost(c, queue) == 20 * |SelectedByAll(c.data, c.merken, queue)| + 9 * |queue|
  {
    if queue != [] {
      QueueCostIs(c, queue[1..]);
      hide Selected;
    }
  }

  lemma {:induction false} IdleCost(c: Setting, workers: seq<Stage>)
    requires forall i :: 0 <= i < |workers| ==> workers[i] == Idle
    ensures WorkersCost(c, workers) == 6 * |workers|
  {
    if workers != [] {
      assert StageCost(c, workers[0]) == 6;
      IdleCost(c, workers[1..]);
    }
  }

  /** No schedule goes on for ever: its length is bounded by the workers,
      ranges and vehicles, whatever the page size. */
  lemma EveryScheduleEnds(c: Setting, events: seq<Event>)
    requires c.Valid() && Schedule(c, Init(c), events)
    ensures |events| <= 6 * WorkerTotal(c) + 9 * Clamped(c.rangeCount) + 20 * |c.Vehicles()| + 2
  {
    hide Schedule, Enabled, Next, Population, Selected, Bands;
    ScheduleIsBounded(c, Init(c), events);
    InitIsIdle(c);
    IdleCost(c, Init(c).workers);
    BandsTile(c.rangeCount);
    TilingSelectsPopulation(c.data, c.merken, Bands(c.rangeCount));
    QueueCostIs(c, Bands(c.rangeCount));
  }

  /** What a worker does next when nothing is wrong. */
  function NextAction(w: Stage): Action {
    match w
    case Idle => ReadAbort
    case Unaborted => ReadErrorFlag
    case Claiming => Pop
    case RangeTop(_, _) => ReadAbort
    case Paging(_, _) => PageArrives
    case Fueling(_, _) => FuelArrives
    case Fueled(_) => NoteAttempt
    case Recording(_, _) => Record
    case Recorded(_) => Join
    case Joined(_, _, _) => Write
    case Written(_, _, _) => Count
    case Failing(_) => StoreError
    case ErrorStored => RaiseFlag
    case _ => Reap
  }

  lemma NextActionIsPossible(c: Setting, sh: Shared, w: Stage)
    requires c.Valid() && !w.Reaped? && !w.Fueling?
    ensures CanAct(c, sh, w, NextAction(w))
  {
    hide Setting.Valid;
  }

  /** An export that has no result yet can always go on. */
  lemma NeverStuck(c: Setting, s: State)
    requires c.Valid() && s.result.None?
    ensures exists e :: Enabled(c, s, e)
  {
    if i :| 0 <= i < |s.workers| && !s.workers[i].Reaped? {
      var w := s.workers[i];
      var a := if w.Fueling? then FuelFails else NextAction(w);
      if !w.Fueling? {
        NextActionIsPossible(c, s.shared, w);
      }
      assert Enabled(c, s, Work(i, a));
    } else {
      assert Enabled(c, s, Finish);
    }
  }

  // ----- The failure counter inside the export

  function PhaseOf(w: Stage): Phase {
    if w.Recording? then w.phase else Outside
  }

  /** The export seen as callers of the failure counter. */
  function Callers(s: State): Machine {
    Machine(s.shared.counters, seq(|s.workers|, i requires 0 <= i < |s.workers| => PhaseOf(s.workers[i])))
  }

  /** A worker's step is one step of its call to the counter, or does not touch it. */
  lemma ActRefinesCounter(c: Setting, sh: Shared, w: Stage, a: Action)
    requires c.Valid() && CanAct(c, sh, w, a)
    ensures var (sh', w') := Act(c, sh, w, a);
            if a.Record? then
              (sh'.counters, PhaseOf(w'))
              == if w.phase.Outside? then Begin(sh.counters, w.batch.failed)
                else Advance(c.failure, sh.counters, w.phase)
            else sh'.counters == sh.counters && PhaseOf(w') == PhaseOf(w)
  {
    hide Setting.Valid, Setting.Page, Register, Joinable, FetchFuel, NestedLoopJoin, LoadOf, ShouldAbort;
  }

  lemma NextRefinesCounter(c: Setting, s: State, e: Event) returns (turns: seq<Turn>)
    requires c.Valid() && Enabled(c, s, e)
    ensures Callers(Next(c, s, e)) == RunTurns(c.failure, Callers(s), turns) && |turns| <= 1
  {
    var m, m' := Callers(s), Callers(Next(c, s, e));
    hide Setting.Valid, Act, CanAct, ShouldAbort, Advance, Verdict;
    turns := [];
    if e.Work? {
      var i, a := e.worker, e.action;
      var w := s.workers[i];
      ActRefinesCounter(c, s.shared, w, a);
      if a.Record? {
        var turn := Turn(i, w.Recording? && w.batch.failed);
        turns := [turn];
        assert w.Recording? by { RecordIsRecording(c, s.shared, w); }
        assert m.callers[i] == w.phase;
        assert m' == Step(c.failure, m, turn);
        assert turns[1..] == [];
      } else {
        assert m' == m;
      }
    } else {
      assert m' == m;
    }
  }

  lemma RecordIsRecording(c: Setting, sh: Shared, w: Stage)
    requires c.Valid() && CanAct(c, sh, w, Record)
    ensures w.Recording?
  {
  }

  lemma {:induction false} RunRefinesCounter(c: Setting, s: State, events: seq<Event>) returns (turns: seq<Turn>)
    requires c.Valid() && Schedule(c, s, events)
    ensures Callers(Run(c, s, events)) == RunTurns(c.failure, Callers(s), turns)
    decreases |events|
  {
    turns := [];
    if events != [] {
      hide Setting.Valid, Enabled, Next, Step, Callers;
      var first := NextRefinesCounter(c, s, events[0]);
      var rest := RunRefinesCounter(c, Next(c, s, events[0]), events[1..]);
      RunConcat(c.failure, Callers(s), first, rest);
      turns := first + rest;
    }
  }

  /** During the export as in isolation: failures within the floor never
      abort, and totals beyond the allowance abort once no worker is still
      deciding. */
  lemma AbortInTheExport(c: Setting, events: seq<Event>)
    requires c.Valid() && Schedule(c, Init(c), events)
    ensures var s := Run(c, Init(c), events);
            && (s.shared.counters.failures <= c.failure.floor ==> !s.shared.counters.aborted)
            && ((forall i :: 0 <= i < |s.workers| ==> !PhaseOf(s.workers[i]).Weighed?)
                && s.shared.counters.failures > c.failure.floor
                && s.shared.counters.failures as real > c.failure.ratio * s.shared.counters.attempted as real
                ==> s.shared.counters.aborted)
  {
    var s := Run(c, Init(c), events);
    var turns := RunRefinesCounter(c, Init(c), events);
    InitIsIdle(c);
    hide Run, Schedule, ShouldAbort, Setting.Valid, RunTurns, Bands;
    assert Callers(Init(c)) == Start(WorkerTotal(c));
    NoMissedAndNoPrematureAbort(c.failure, WorkerTotal(c), turns, []);
    assert forall i :: 0 <= i < |s.workers| ==> Callers(s).callers[i] == PhaseOf(s.workers[i]);
  }

  /** An export that returns Ok is within the allowance for failed fetches. */
  lemma OkIsWithinAllowance(c: Setting, events: seq<Event>)
    requires c.Valid() && c.pageSize > 0
    requires Schedule(c, Init(c), events) && EndsOk(Run(c, Init(c), events))
    ensures var summary := Run(c, Init(c), events).result.value.value;
            || summary.failures <= c.failure.floor
            || summary.failures as real <= c.failure.ratio * summary.attempted as real
  {
    hide Schedule, Run, ShouldAbort, Setting.Valid;
    AbortInTheExport(c, events);
    OkMeansNoEarlyStop(c, events);
    OkAccountsForDegradation(c, events);
  }
}
