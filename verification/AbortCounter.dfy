/** The export-wide failure counter. `record_and_check` is four atomic steps,
    and any number of range workers interleave theirs. */
module AbortCounter {

  datatype FailureConfig = FailureConfig(floor: nat, ratio: real)

  /** Abort when `failures > max(floor, ratio * attempted)`. */
  predicate ShouldAbort(config: FailureConfig, failures: nat, attempted: nat) {
    var ratioAllowance := config.ratio * attempted as real;
    var allowance := if ratioAllowance > config.floor as real then ratioAllowance else config.floor as real;
    failures as real > allowance
  }

  /** Both clauses have to hold: the larger of the two allowances counts. */
  lemma AbortsBeyondBoth(config: FailureConfig, failures: nat, attempted: nat)
    ensures ShouldAbort(config, failures, attempted)
       <==> failures > config.floor && failures as real > config.ratio * attempted as real
  {
    assert failures as real > config.floor as real <==> failures > config.floor;
  }

  lemma ShouldAbortWeakens(config: FailureConfig, failures: nat, fewer: nat, more: nat)
    requires fewer <= more && ShouldAbort(config, failures, more)
    ensures ShouldAbort(config, failures, fewer)
    ensures failures > config.floor
  {
    if config.ratio >= 0.0 {
      assert config.ratio * (more - fewer) as real >= 0.0;
      assert config.ratio * more as real == config.ratio * fewer as real + config.ratio * (more - fewer) as real;
    } else {
      assert config.ratio * fewer as real <= 0.0;
    }
  }

  // ----- One call, step by step

  datatype Counters = Counters(attempted: nat, failures: nat, aborted: bool)

  /** Where a call stands: not in progress, after the first increment, after
      reading or raising the failures, and after the possible store. */
  datatype Phase =
    | Outside
    | Counted(failed: bool, attempted: nat)
    | Weighed(attempted: nat, failures: nat)
    | Settled

  function Begin(c: Counters, failed: bool): (Counters, Phase) {
    (c.(attempted := c.attempted + 1), Counted(failed, c.attempted + 1))
  }

  /** The next atomic step of a call in progress. */
  function Advance(config: FailureConfig, c: Counters, p: Phase): (Counters, Phase)
    requires !p.Outside?
  {
    match p
    case Counted(failed, attempted) =>
      var failures := if failed then c.failures + 1 else c.failures;
      (c.(failures := failures), Weighed(attempted, failures))
    case Weighed(attempted, failures) =>
      (if ShouldAbort(config, failures, attempted) then c.(aborted := true) else c, Settled)
    case Settled => (c, Outside)
  }

  // ----- Any number of callers

  datatype Machine = Machine(counters: Counters, callers: seq<Phase>)

  function Start(callers: nat): Machine {
    Machine(Counters(0, 0, false), seq(callers, _ => Outside))
  }

  /** Caller `who` takes its next step; `failed` matters only when a call begins. */
  datatype Turn = Turn(who: nat, failed: bool)

  function Step(config: FailureConfig, m: Machine, t: Turn): Machine {
    if t.who >= |m.callers| then m
    else
      var p := m.callers[t.who];
      var (c, p') := if p.Outside? then Begin(m.counters, t.failed) else Advance(config, m.counters, p);
      Machine(c, m.callers[t.who := p'])
  }

  function RunTurns(config: FailureConfig, m: Machine, schedule: seq<Turn>): Machine
    decreases |schedule|
  {
    if schedule == [] then m else RunTurns(config, Step(config, m, schedule[0]), schedule[1..])
  }

  /** Some caller holds the current number of failures and has yet to decide on it. */
  predicate DecisionPending(m: Machine) {
    exists i :: 0 <= i < |m.callers| && m.callers[i].Weighed? && m.callers[i].failures == m.counters.failures
  }

  predicate CounterOk(config: FailureConfig, m: Machine) {
    && (forall i :: 0 <= i < |m.callers| ==>
          match m.callers[i]
          case Counted(_, attempted) => attempted <= m.counters.attempted
          case Weighed(attempted, failures) => attempted <= m.counters.attempted && failures <= m.counters.failures
          case _ => true)
    && (m.counters.aborted ==> m.counters.failures > config.floor)
    && (ShouldAbort(config, m.counters.failures, m.counters.attempted) ==>
          m.counters.aborted || DecisionPending(m))
  }

  lemma StepKeepsCounter(config: FailureConfig, m: Machine, t: Turn)
    requires CounterOk(config, m)
    ensures CounterOk(config, Step(config, m, t))
    ensures m.counters.aborted ==> Step(config, m, t).counters.aborted
  {
    if t.who < |m.callers| {
      var m' := Step(config, m, t);
      var p := m.callers[t.who];
      var failures, attempted := m'.counters.failures, m'.counters.attempted;
      hide ShouldAbort;
      if ShouldAbort(config, failures, attempted) {
        ShouldAbortWeakens(config, failures, m.counters.attempted, attempted);
        if p.Weighed? && p.failures == failures {
          ShouldAbortWeakens(config, failures, p.attempted, attempted);
        } else if failures == m.counters.failures && !m.counters.aborted {
          var i :| 0 <= i < |m.callers| && m.callers[i].Weighed? && m.callers[i].failures == m.counters.failures;
          assert i != t.who && m'.callers[i] == m.callers[i];
        } else {
          assert failures != m.counters.failures ==>
            m'.callers[t.who].Weighed? && m'.callers[t.who].failures == failures;
        }
      }
      if p.Weighed? && ShouldAbort(config, p.failures, p.attempted) {
        ShouldAbortWeakens(config, p.failures, p.attempted, p.attempted);
      }
    }
  }

  lemma {:induction false} RunKeepsCounter(config: FailureConfig, m: Machine, schedule: seq<Turn>)
    requires CounterOk(config, m)
    ensures CounterOk(config, RunTurns(config, m, schedule))
    ensures m.counters.aborted ==> RunTurns(config, m, schedule).counters.aborted
    decreases |schedule|
  {
    if schedule != [] {
      StepKeepsCounter(config, m, schedule[0]);
      RunKeepsCounter(config, Step(config, m, schedule[0]), schedule[1..]);
    }
  }

  predicate Quiescent(m: Machine) {
    forall i :: 0 <= i < |m.callers| ==> !m.callers[i].Weighed?
  }

  /** Whatever the interleaving: totals within the floor never abort, totals
      beyond the allowance are never missed once every started decision has
      been taken, and an abort is final. */
  lemma NoMissedAndNoPrematureAbort(config: FailureConfig, callers: nat, before: seq<Turn>, after: seq<Turn>)
    ensures var m := RunTurns(config, Start(callers), before);
            && (m.counters.failures <= config.floor ==> !m.counters.aborted)
            && (Quiescent(m)
                && m.counters.failures > config.floor
                && m.counters.failures as real > config.ratio * m.counters.attempted as real
                ==> m.counters.aborted)
            && (m.counters.aborted ==> RunTurns(config, m, after).counters.aborted)
  {
    assert !ShouldAbort(config, 0, 0);
    var c := RunTurns(config, Start(callers), before).counters;
    AbortsBeyondBoth(config, c.failures, c.attempted);
    RunKeepsCounter(config, Start(callers), before);
    RunKeepsCounter(config, RunTurns(config, Start(callers), before), after);
  }

  /** Interleaving can abort early: a caller that counted its attempt before
      another's and its failure after compares the new failure with the old
      number of attempts. Here no state along the run has totals beyond the
      allowance. */
  lemma AbortCanBeEarly()
    ensures var config := FailureConfig(0, 0.5);
            var schedule := [Turn(0, true), Turn(1, false), Turn(0, true), Turn(0, true)];
            && RunTurns(config, Start(2), schedule).counters.aborted
            && forall n :: 0 <= n <= |schedule| ==>
                 var c := RunTurns(config, Start(2), schedule[..n]).counters;
                 !(c.failures > config.floor && c.failures as real > config.ratio * c.attempted as real)
  {
    var config := FailureConfig(0, 0.5);
    var schedule := [Turn(0, true), Turn(1, false), Turn(0, true), Turn(0, true)];
    var s0 := Start(2);
    var s1 := Step(config, s0, schedule[0]);
    var s2 := Step(config, s1, schedule[1]);
    var s3 := Step(config, s2, schedule[2]);
    var s4 := Step(config, s3, schedule[3]);
    assert s1 == Machine(Counters(1, 0, false), [Counted(true, 1), Outside]);
    assert s2 == Machine(Counters(2, 0, false), [Counted(true, 1), Counted(false, 2)]);
    assert s3 == Machine(Counters(2, 1, false), [Weighed(1, 1), Counted(false, 2)]);
    assert s4 == Machine(Counters(2, 1, true), [Settled, Counted(false, 2)]);
    RunPrefix(config, s0, schedule, [s0, s1, s2, s3, s4]);
  }

  /** The states along a run, given one by one. */
  lemma {:induction false} RunPrefix(config: FailureConfig, m: Machine, schedule: seq<Turn>, states: seq<Machine>)
    requires |states| == |schedule| + 1 && states[0] == m
    requires forall i :: 0 <= i < |schedule| ==> states[i + 1] == Step(config, states[i], schedule[i])
    ensures forall n :: 0 <= n <= |schedule| ==> RunTurns(config, m, schedule[..n]) == states[n]
    ensures RunTurns(config, m, schedule) == states[|schedule|]
    decreases |schedule|
  {
    if schedule != [] {
      RunPrefix(config, states[1], schedule[1..], states[1..]);
      forall n | 1 <= n <= |schedule|
        ensures RunTurns(config, m, schedule[..n]) == states[n]
      {
        assert schedule[..n][1..] == schedule[1..][..n - 1];
        assert states[1..][n - 1] == states[n];
      }
    }
    assert schedule[..|schedule|] == schedule;
  }

  // ----- Calls one after another

  /** One whole call of a caller. */
  function WholeCall(t: Turn): seq<Turn> {
    [t, t, t, t]
  }

  function Serial(calls: seq<Turn>): seq<Turn> {
    if calls == [] then [] else Serial(calls[..|calls| - 1]) + WholeCall(calls[|calls| - 1])
  }

  function FailuresIn(calls: seq<Turn>): nat {
    if calls == [] then 0
    else FailuresIn(calls[..|calls| - 1]) + if calls[|calls| - 1].failed then 1 else 0
  }

  lemma {:induction false} RunConcat(config: FailureConfig, m: Machine, first: seq<Turn>, second: seq<Turn>)
    ensures RunTurns(config, m, first + second) == RunTurns(config, RunTurns(config, m, first), second)
    decreases |first|
  {
    if first == [] {
      assert first + second == second;
    } else {
      assert (first + second)[1..] == first[1..] + second;
      RunConcat(config, Step(config, m, first[0]), first[1..], second);
    }
  }

  function AfterCall(config: FailureConfig, c: Counters, failed: bool): Counters {
    var failures := if failed then c.failures + 1 else c.failures;
    Counters(c.attempted + 1, failures, c.aborted || ShouldAbort(config, failures, c.attempted + 1))
  }

  /** The states during one whole call, whatever the others are waiting for. */
  lemma WholeCallSteps(config: FailureConfig, m: Machine, t: Turn)
    requires t.who < |m.callers| && m.callers[t.who] == Outside
    ensures var c, attempted := m.counters, m.counters.attempted + 1;
            var failures := if t.failed then c.failures + 1 else c.failures;
            var s1 := Step(config, m, t);
            var s2 := Step(config, s1, t);
            var s3 := Step(config, s2, t);
            && s1 == Machine(c.(attempted := attempted), m.callers[t.who := Counted(t.failed, attempted)])
            && s2 == Machine(Counters(attempted, failures, c.aborted), m.callers[t.who := Weighed(attempted, failures)])
            && s3 == Machine(AfterCall(config, c, t.failed), m.callers[t.who := Settled])
            && Step(config, s3, t) == Machine(AfterCall(config, c, t.failed), m.callers)
            && RunTurns(config, m, WholeCall(t)) == Step(config, s3, t)
  {
    hide ShouldAbort;
    var s1 := Step(config, m, t);
    var s2 := Step(config, s1, t);
    var s3 := Step(config, s2, t);
    assert m.callers[t.who := Settled][t.who := Outside] == m.callers;
    RunPrefix(config, m, WholeCall(t), [m, s1, s2, s3, Step(config, s3, t)]);
  }

  lemma WholeCallRuns(config: FailureConfig, m: Machine, t: Turn)
    requires t.who < |m.callers| && m.callers[t.who] == Outside
    ensures RunTurns(config, m, WholeCall(t)) == Machine(AfterCall(config, m.counters, t.failed), m.callers)
  {
    WholeCallSteps(config, m, t);
  }

  lemma {:induction false} SerialCalls(config: FailureConfig, callers: nat, calls: seq<Turn>)
    requires forall i :: 0 <= i < |calls| ==> calls[i].who < callers
    ensures var m := RunTurns(config, Start(callers), Serial(calls));
            && m.callers == Start(callers).callers
            && m.counters.attempted == |calls| && m.counters.failures == FailuresIn(calls)
            && (m.counters.aborted <==>
                  exists n :: 1 <= n <= |calls| && ShouldAbort(config, FailuresIn(calls[..n]), n))
  {
    hide ShouldAbort, Step, RunTurns, WholeCall;
    if calls == [] {
      NothingRuns(config, callers);
    } else {
      var last := |calls| - 1;
      var earlier := calls[..last];
      var m := RunTurns(config, Start(callers), Serial(earlier));
      SerialCalls(config, callers, earlier);
      RunConcat(config, Start(callers), Serial(earlier), WholeCall(calls[last]));
      WholeCallRuns(config, m, calls[last]);
      PrefixesGrow(config, calls);
    }
  }

  /** When calls do not overlap, whoever makes them, the export aborts exactly
      when some prefix of the fetches has more failures than the floor and more
      than its share. */
  lemma SerialAbortIsExact(config: FailureConfig, callers: nat, calls: seq<Turn>)
    requires forall i :: 0 <= i < |calls| ==> calls[i].who < callers
    ensures var m := RunTurns(config, Start(callers), Serial(calls));
            && m.callers == Start(callers).callers
            && m.counters.attempted == |calls| && m.counters.failures == FailuresIn(calls)
            && (m.counters.aborted <==>
                  exists n :: 1 <= n <= |calls| && FailuresIn(calls[..n]) > config.floor
                    && FailuresIn(calls[..n]) as real > config.ratio * n as real)
  {
    SerialCalls(config, callers, calls);
    forall n: nat | n <= |calls|
      ensures ShouldAbort(config, FailuresIn(calls[..n]), n)
         <==> FailuresIn(calls[..n]) > config.floor && FailuresIn(calls[..n]) as real > config.ratio * n as real
    {
      AbortsBeyondBoth(config, FailuresIn(calls[..n]), n);
    }
    hide ShouldAbort, FailuresIn, Serial, RunTurns;
  }

  lemma NothingRuns(config: FailureConfig, callers: nat)
    ensures RunTurns(config, Start(callers), []) == Start(callers)
  {
  }

  lemma PrefixesGrow(config: FailureConfig, calls: seq<Turn>)
    requires calls != []
    ensures var last := |calls| - 1;
            (exists n :: 1 <= n <= |calls| && ShouldAbort(config, FailuresIn(calls[..n]), n))
            <==> ShouldAbort(config, FailuresIn(calls), |calls|)
                 || exists n :: 1 <= n <= last && ShouldAbort(config, FailuresIn(calls[..last][..n]), n)
  {
    hide ShouldAbort, FailuresIn;
    var last := |calls| - 1;
    assert calls[..last + 1] == calls;
    assert forall n :: 1 <= n <= last ==> calls[..last][..n] == calls[..n];
  }

  /** The counter as an object, called without interleaving. */
  class GlobalAbort {
    var attempted: nat
    var failures: nat
    var aborted: bool

    function Current(): Counters
      reads this
    {
      Counters(attempted, failures, aborted)
    }

    constructor ()
      ensures Current() == Counters(0, 0, false)
    {
      attempted, failures, aborted := 0, 0, false;
    }

    method RecordAndCheck(failed: bool, config: FailureConfig) returns (abort: bool)
      modifies this
      ensures attempted == old(attempted) + 1 && failures == old(failures) + if failed then 1 else 0
      ensures aborted <==> old(aborted) || (failures > config.floor
                                           && failures as real > config.ratio * attempted as real)
      ensures Current() == AfterCall(config, old(Current()), failed)
      ensures abort == aborted
    {
      attempted := attempted + 1;
      var counted := attempted;
      if failed {
        failures := failures + 1;
      }
      if ShouldAbort(config, failures, counted) {
        aborted := true;
      }
      abort := aborted;
      AbortsBeyondBoth(config, failures, attempted);
    }
  }
}
