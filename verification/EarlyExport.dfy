/** When the concurrent export can abort early: for some data and schedule,
    exactly when the ratio is positive and at least two workers run. */
module EarlyExport {
  import opened Ranges
  import opened AbortCounter
  import opened EarlyAbort
  import opened ConcurrentExport
  import opened ConcurrentSafety
  import opened ConcurrentProgress

  /** No state along the schedule has totals beyond the allowance. */
  predicate Quiet(c: Setting, s: State, events: seq<Event>)
    requires c.Valid() && Schedule(c, s, events)
    decreases |events|
  {
    !Over(c.failure, s.shared.counters) && (events == [] || Quiet(c, Next(c, s, events[0]), events[1..]))
  }

  predicate AbortsEarly(c: Setting, events: seq<Event>) {
    && c.Valid() && Schedule(c, Init(c), events) && Quiet(c, Init(c), events)
    && Run(c, Init(c), events).shared.counters.aborted
  }

  // ----- An early abort of the export is one of its counter

  lemma {:induction false} QuietTurns(c: Setting, s: State, events: seq<Event>) returns (turns: seq<Turn>)
    requires c.Valid() && Schedule(c, s, events) && Quiet(c, s, events)
    ensures Callers(Run(c, s, events)) == RunTurns(c.failure, Callers(s), turns)
    ensures NeverOver(c.failure, Callers(s), turns)
    decreases |events|
  {
    if events == [] {
      turns := [];
      RunTurnsStep(c.failure, Callers(s), Turn(0, false), []);
    } else {
      hide Setting.Valid, Enabled, Next, Step, Over, NeverOver, RunTurns;
      var first := NextRefinesCounter(c, s, events[0]);
      var rest := QuietTurns(c, Next(c, s, events[0]), events[1..]);
      turns := first + rest;
      RunConcat(c.failure, Callers(s), first, rest);
      if first == [] {
        assert first + rest == rest;
        RunTurnsStep(c.failure, Callers(s), Turn(0, false), []);
      } else {
        assert first == [first[0]];
        RunTurnsStep(c.failure, Callers(s), first[0], []);
        RunTurnsStep(c.failure, Step(c.failure, Callers(s), first[0]), first[0], []);
        assert [first[0]] + [] == first;
        NeverOverStep(c.failure, Callers(s), first[0], rest);
      }
    }
  }

  lemma AbortsEarlyOnlyIf(c: Setting, events: seq<Event>)
    requires AbortsEarly(c, events)
    ensures c.failure.ratio > 0.0 && WorkerTotal(c) >= 2
    ensures c.rangeCount >= 2 && c.workerCount >= 2
  {
    var turns := QuietTurns(c, Init(c), events);
    InitIsIdle(c);
    hide Run, Schedule, Over, RunTurns, Bands, Quiet, NeverOver;
    assert Callers(Init(c)) == Start(WorkerTotal(c));
    forall n | 0 <= n <= |turns|
      ensures !Over(c.failure, RunTurns(c.failure, Start(WorkerTotal(c)), turns[..n]).counters)
    {
      NeverOverPrefix(c.failure, Start(WorkerTotal(c)), turns, n);
    }
    assert Early(c.failure, WorkerTotal(c), turns);
    EarlyAbortExactly(c.failure, WorkerTotal(c));
  }
}
