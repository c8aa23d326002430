/** When interleaving can make the counter abort early, that is, although no
    state of the run has totals beyond the allowance: exactly when the ratio is
    positive and there are at least two callers. */
module EarlyAbort {
  import opened AbortCounter

  predicate Over(config: FailureConfig, c: Counters) {
    ShouldAbort(config, c.failures, c.attempted)
  }

  /** The run ends aborted although none of its states has totals beyond the allowance. */
  predicate Early(config: FailureConfig, callers: nat, schedule: seq<Turn>) {
    && RunTurns(config, Start(callers), schedule).counters.aborted
    && forall n :: 0 <= n <= |schedule| ==> !Over(config, RunTurns(config, Start(callers), schedule[..n]).counters)
  }

  // ----- Why both conditions are needed

  lemma NoRatioNoEarly(config: FailureConfig, callers: nat, schedule: seq<Turn>)
    requires config.ratio <= 0.0
    ensures !Early(config, callers, schedule)
  {
    NoMissedAndNoPrematureAbort(config, callers, schedule, []);
    var c := RunTurns(config, Start(callers), schedule).counters;
    assert schedule[..|schedule|] == schedule;
    if c.aborted {
      FloorIsTheAllowance(config, c);
    }
  }

  lemma FloorIsTheAllowance(config: FailureConfig, c: Counters)
    requires config.ratio <= 0.0 && c.failures > config.floor
    ensures Over(config, c)
  {
    assert config.ratio * c.attempted as real <= 0.0;
  }

  /** What every caller has read is what the counters hold. */
  predicate Current(m: Machine) {
    forall i :: 0 <= i < |m.callers| ==>
      match m.callers[i]
      case Counted(_, attempted) => attempted == m.counters.attempted
      case Weighed(attempted, failures) => attempted == m.counters.attempted && failures == m.counters.failures
      case _ => true
  }

  lemma StepStaysCurrent(config: FailureConfig, m: Machine, t: Turn)
    requires |m.callers| <= 1 && Current(m)
    ensures var m' := Step(config, m, t);
            |m'.callers| == |m.callers| && Current(m')
              && (m'.counters.aborted ==> m.counters.aborted || Over(config, m.counters))
  {
    hide ShouldAbort;
  }

  lemma {:induction false} OneCallerIsNeverEarly(config: FailureConfig, m: Machine, schedule: seq<Turn>)
    requires |m.callers| <= 1 && Current(m) && !m.counters.aborted
    requires RunTurns(config, m, schedule).counters.aborted
    ensures exists n :: 0 <= n <= |schedule| && Over(config, RunTurns(config, m, schedule[..n]).counters)
    decreases |schedule|
  {
    StepStaysCurrent(config, m, schedule[0]);
    var next := Step(config, m, schedule[0]);
    hide Step, ShouldAbort, Current;
    if next.counters.aborted {
      assert RunTurns(config, m, schedule[..0]) == m;
    } else {
      OneCallerIsNeverEarly(config, next, schedule[1..]);
      var n :| 0 <= n <= |schedule| - 1 && Over(config, RunTurns(config, next, schedule[1..][..n]).counters);
      assert schedule[..n + 1][0] == schedule[0] && schedule[..n + 1][1..] == schedule[1..][..n];
      assert RunTurns(config, m, schedule[..n + 1]) == RunTurns(config, next, schedule[1..][..n]);
    }
  }

  // ----- A schedule that aborts early

  /** No state along the run is over the allowance. */
  predicate NeverOver(config: FailureConfig, m: Machine, schedule: seq<Turn>)
    decreases |schedule|
  {
    !Over(config, m.counters) && (schedule == [] || NeverOver(config, Step(config, m, schedule[0]), schedule[1..]))
  }

  lemma {:induction false} NeverOverPrefix(config: FailureConfig, m: Machine, schedule: seq<Turn>, n: nat)
    requires NeverOver(config, m, schedule) && n <= |schedule|
    ensures !Over(config, RunTurns(config, m, schedule[..n]).counters)
    decreases n
  {
    if n > 0 {
      hide Step, Over;
      assert schedule[..n][0] == schedule[0] && schedule[..n][1..] == schedule[1..][..n - 1];
      NeverOverPrefix(config, Step(config, m, schedule[0]), schedule[1..], n - 1);
    }
  }

  lemma {:induction false} NeverOverConcat(config: FailureConfig, m: Machine, first: seq<Turn>, second: seq<Turn>)
    requires NeverOver(config, m, first) && NeverOver(config, RunTurns(config, m, first), second)
    ensures NeverOver(config, m, first + second)
    decreases |first|
  {
    hide Step, Over;
    if first == [] {
      assert first + second == second;
    } else {
      assert (first + second)[1..] == first[1..] + second;
      NeverOverConcat(config, Step(config, m, first[0]), first[1..], second);
    }
  }

  /** The ratio alone allows so many failures. */
  predicate Covers(config: FailureConfig, failures: nat, attempted: nat) {
    failures as real <= config.ratio * attempted as real
  }

  predicate Roomy(config: FailureConfig, c: Counters) {
    c.failures == 0 || Covers(config, c.failures, c.attempted)
  }

  lemma RoomyIsNotOver(config: FailureConfig, c: Counters)
    requires Roomy(config, c)
    ensures !Over(config, c)
  {
  }

  lemma CoversLess(config: FailureConfig, failures: nat, attempted: nat, fewer: nat, more: nat)
    requires config.ratio > 0.0 && fewer <= failures && attempted <= more && Covers(config, failures, attempted)
    ensures Covers(config, fewer, more)
  {
    assert config.ratio * (more - attempted) as real >= 0.0;
    assert config.ratio * more as real == config.ratio * attempted as real + config.ratio * (more - attempted) as real;
  }

  /** A call that stays roomy throughout does not abort. */
  lemma RoomyCall(config: FailureConfig, m: Machine, t: Turn)
    requires t.who < |m.callers| && m.callers[t.who] == Outside && !m.counters.aborted
    requires var c := m.counters;
             && Roomy(config, c) && Roomy(config, c.(attempted := c.attempted + 1))
             && Roomy(config, AfterCall(config, c, t.failed))
    ensures NeverOver(config, m, WholeCall(t))
    ensures !AfterCall(config, m.counters, t.failed).aborted
  {
    WholeCallSteps(config, m, t);
    var s1 := Step(config, m, t);
    var s2 := Step(config, s1, t);
    var s3 := Step(config, s2, t);
    var s4 := Step(config, s3, t);
    RoomyIsNotOver(config, m.counters);
    RoomyIsNotOver(config, s1.counters);
    RoomyIsNotOver(config, s3.counters);
    assert !Over(config, s2.counters) && !Over(config, s4.counters);
    hide Step, Over, ShouldAbort, AfterCall;
    assert NeverOver(config, s4, []);
    NeverOverStep(config, s3, t, []);
    NeverOverStep(config, s2, t, [t] + []);
    NeverOverStep(config, s1, t, [t] + ([t] + []));
    NeverOverStep(config, m, t, [t] + ([t] + ([t] + [])));
    assert WholeCall(t) == [t] + ([t] + ([t] + ([t] + [])));
  }

  lemma NeverOverStep(config: FailureConfig, m: Machine, t: Turn, rest: seq<Turn>)
    requires !Over(config, m.counters) && NeverOver(config, Step(config, m, t), rest)
    ensures NeverOver(config, m, [t] + rest)
  {
    assert ([t] + rest)[1..] == rest;
  }

  function Calls(t: Turn, n: nat): seq<Turn> {
    if n == 0 then [] else WholeCall(t) + Calls(t, n - 1)
  }

  /** Any number of roomy calls of one caller. */
  lemma {:induction false} RoomyCalls(config: FailureConfig, m: Machine, t: Turn, n: nat)
    requires config.ratio > 0.0 && t.who < |m.callers| && m.callers[t.who] == Outside && !m.counters.aborted
    requires if t.failed then Covers(config, m.counters.failures + n, m.counters.attempted)
             else m.counters.failures == 0
    ensures NeverOver(config, m, Calls(t, n))
    ensures RunTurns(config, m, Calls(t, n))
            == Machine(Counters(m.counters.attempted + n, m.counters.failures + (if t.failed then n else 0), false),
              m.callers)
    decreases n
  {
    var c := m.counters;
    if n == 0 {
      RunTurnsStep(config, m, t, []);
      if t.failed { CoversLess(config, c.failures, c.attempted, c.failures, c.attempted); }
      RoomyIsNotOver(config, c);
    } else {
      var c' := AfterCall(config, c, t.failed);
      hide Covers, Step, Over, ShouldAbort, NeverOver, RunTurns, WholeCall;
      if t.failed {
        CoversLess(config, c.failures + n, c.attempted, c.failures, c.attempted);
        CoversLess(config, c.failures + n, c.attempted, c.failures, c.attempted + 1);
        CoversLess(config, c.failures + n, c.attempted, c.failures + 1, c.attempted + 1);
        CoversLess(config, c.failures + n, c.attempted, c.failures + n, c.attempted + 1);
      }
      RoomyCall(config, m, t);
      WholeCallRuns(config, m, t);
      RoomyCalls(config, Machine(c', m.callers), t, n - 1);
      RunConcat(config, m, WholeCall(t), Calls(t, n - 1));
      NeverOverConcat(config, m, WholeCall(t), Calls(t, n - 1));
    }
  }

  /** One failure more than the floor and than the ratio allows a single attempt. */
  function Enough(config: FailureConfig): nat
    requires config.ratio > 0.0
  {
    1 + if config.ratio.Floor > config.floor then config.ratio.Floor else config.floor
  }

  /** So many attempts that the ratio allows all those failures. */
  function Cover(config: FailureConfig): nat
    requires config.ratio > 0.0
  {
    (Enough(config) as real / config.ratio).Floor + 1
  }

  lemma CoverIsRoomy(config: FailureConfig, attempted: nat)
    requires config.ratio > 0.0 && attempted >= Cover(config)
    ensures Covers(config, Enough(config), attempted)
    ensures ShouldAbort(config, Enough(config), 1)
  {
    var k := Enough(config) as real;
    var q := k / config.ratio;
    assert q * config.ratio == k;
    assert attempted as real >= q;
    assert (attempted as real - q) * config.ratio >= 0.0;
    assert (attempted as real - q) * config.ratio == attempted as real * config.ratio - q * config.ratio;
    assert config.ratio * 1.0 == config.ratio;
  }

  /** Caller 0 counts its attempt and waits; caller 1 succeeds until the ratio
      allows many failures, and then fails; caller 0 fails at last and weighs
      all those failures against its one attempt. */
  function EarlySchedule(config: FailureConfig): seq<Turn>
    requires config.ratio > 0.0
  {
    [Turn(0, true)] + (Calls(Turn(1, false), Cover(config)) + (Calls(Turn(1, true), Enough(config) - 1)
                       + ([Turn(0, true)] + ([Turn(0, true)] + []))))
  }

  lemma RunTurnsStep(config: FailureConfig, m: Machine, t: Turn, rest: seq<Turn>)
    ensures RunTurns(config, m, [t] + rest) == RunTurns(config, Step(config, m, t), rest)
    ensures RunTurns(config, m, []) == m
    ensures NeverOver(config, m, []) <==> !Over(config, m.counters)
  {
    assert ([t] + rest)[1..] == rest;
  }

  lemma LateFailure(config: FailureConfig, m: Machine)
    requires config.ratio > 0.0 && |m.callers| > 0 && m.callers[0] == Counted(true, 1) && !m.counters.aborted
    requires m.counters.failures == Enough(config) - 1 && m.counters.attempted >= Cover(config)
    ensures var s1 := Step(config, m, Turn(0, true));
            var s2 := Step(config, s1, Turn(0, true));
            && !Over(config, m.counters) && !Over(config, s1.counters) && !Over(config, s2.counters)
            && s2.counters.aborted
  {
    var s1 := Step(config, m, Turn(0, true));
    var k := Enough(config);
    CoverIsRoomy(config, m.counters.attempted);
    hide Enough, Cover, ShouldAbort, Covers;
    CoversLess(config, k, m.counters.attempted, k - 1, m.counters.attempted);
    assert s1.counters == Counters(m.counters.attempted, k, false) && s1.callers[0] == Weighed(1, k);
    RoomyIsNotOver(config, m.counters);
    RoomyIsNotOver(config, s1.counters);
  }

  lemma LastTurns(config: FailureConfig, m: Machine)
    requires config.ratio > 0.0 && |m.callers| > 0 && m.callers[0] == Counted(true, 1) && !m.counters.aborted
    requires m.counters.failures == Enough(config) - 1 && m.counters.attempted >= Cover(config)
    ensures var schedule := [Turn(0, true)] + ([Turn(0, true)] + []);
            NeverOver(config, m, schedule) && RunTurns(config, m, schedule).counters.aborted
  {
    LateFailure(config, m);
    hide *;
    var t := Turn(0, true);
    var s1 := Step(config, m, t);
    var s2 := Step(config, s1, t);
    RunTurnsStep(config, m, t, [t] + []);
    RunTurnsStep(config, s1, t, []);
    RunTurnsStep(config, s2, t, []);
    NeverOverStep(config, s1, t, []);
    NeverOverStep(config, m, t, [t] + []);
  }

  lemma FirstTurn(config: FailureConfig, callers: nat)
    requires callers >= 2
    ensures var m := Step(config, Start(callers), Turn(0, true));
            && m.counters == Counters(1, 0, false) && |m.callers| == callers
            && m.callers[0] == Counted(true, 1) && m.callers[1] == Outside
    ensures !Over(config, Start(callers).counters)
  {
  }

  /** Caller 0 waits with its attempt counted, the others are outside. */
  predicate Parked(m: Machine, attempted: nat, failures: nat) {
    m.counters == Counters(attempted, failures, false) && |m.callers| >= 2
    && m.callers[0] == Counted(true, 1) && m.callers[1] == Outside
  }

  /** A run that stays within the allowance and ends aborted. */
  predicate AbortsQuietly(config: FailureConfig, m: Machine, schedule: seq<Turn>) {
    NeverOver(config, m, schedule) && RunTurns(config, m, schedule).counters.aborted
  }

  lemma QuietConcat(config: FailureConfig, m: Machine, first: seq<Turn>, second: seq<Turn>)
    requires NeverOver(config, m, first) && AbortsQuietly(config, RunTurns(config, m, first), second)
    ensures AbortsQuietly(config, m, first + second)
  {
    hide NeverOver, RunTurns;
    RunConcat(config, m, first, second);
    NeverOverConcat(config, m, first, second);
  }

  lemma FailuresThenLate(config: FailureConfig, m: Machine, attempted: nat, rest: seq<Turn>)
    requires config.ratio > 0.0 && Parked(m, attempted, 0) && attempted >= Cover(config)
    requires rest == [Turn(0, true)] + ([Turn(0, true)] + [])
    ensures AbortsQuietly(config, m, Calls(Turn(1, true), Enough(config) - 1) + rest)
  {
    var k := Enough(config);
    CoverIsRoomy(config, attempted);
    hide Enough, Cover, Covers, NeverOver, RunTurns, Calls, ShouldAbort;
    CoversLess(config, k, attempted, 0 + (k - 1), attempted);
    RoomyCalls(config, m, Turn(1, true), k - 1);
    LastTurns(config, Machine(Counters(attempted + (k - 1), k - 1, false), m.callers));
    QuietConcat(config, m, Calls(Turn(1, true), k - 1), rest);
  }

  lemma SuccessesFirst(config: FailureConfig, m: Machine, s: nat, rest: seq<Turn>)
    requires config.ratio > 0.0 && Parked(m, 1, 0)
    requires forall m' :: Parked(m', 1 + s, 0) ==> AbortsQuietly(config, m', rest)
    ensures AbortsQuietly(config, m, Calls(Turn(1, false), s) + rest)
  {
    hide NeverOver, RunTurns, Calls, AbortsQuietly;
    RoomyCalls(config, m, Turn(1, false), s);
    QuietConcat(config, m, Calls(Turn(1, false), s), rest);
  }

  lemma EarlyScheduleIsEarly(config: FailureConfig, callers: nat)
    requires config.ratio > 0.0 && callers >= 2
    ensures Early(config, callers, EarlySchedule(config))
  {
    var s, k := Cover(config), Enough(config);
    var late := [Turn(0, true)] + ([Turn(0, true)] + []);
    var failures := Calls(Turn(1, true), k - 1) + late;
    var successes := Calls(Turn(1, false), s) + failures;
    assert EarlySchedule(config) == [Turn(0, true)] + successes;
    FirstTurn(config, callers);
    hide EarlySchedule, Early, NeverOver, RunTurns, Step, Calls, Over, Cover, Enough;
    var m := Step(config, Start(callers), Turn(0, true));
    forall m' | Parked(m', 1 + s, 0)
      ensures AbortsQuietly(config, m', failures)
    {
      FailuresThenLate(config, m', 1 + s, late);
    }
    SuccessesFirst(config, m, s, failures);
    NeverOverStep(config, Start(callers), Turn(0, true), successes);
    EarlyFromNeverOver(config, callers, Turn(0, true), successes);
  }

  lemma EarlyFromNeverOver(config: FailureConfig, callers: nat, t: Turn, rest: seq<Turn>)
    requires NeverOver(config, Start(callers), [t] + rest)
    requires RunTurns(config, Step(config, Start(callers), t), rest).counters.aborted
    ensures Early(config, callers, [t] + rest)
  {
    var schedule := [t] + rest;
    assert schedule[1..] == rest;
    assert RunTurns(config, Start(callers), schedule).counters.aborted;
    hide RunTurns, Step, Over, NeverOver;
    forall n | 0 <= n <= |schedule|
      ensures !Over(config, RunTurns(config, Start(callers), schedule[..n]).counters)
    {
      NeverOverPrefix(config, Start(callers), schedule, n);
    }
  }

  /** Some interleaving aborts early exactly when the ratio is positive and
      there are at least two callers. */
  lemma EarlyAbortExactly(config: FailureConfig, callers: nat)
    ensures (exists schedule :: Early(config, callers, schedule)) <==> config.ratio > 0.0 && callers >= 2
  {
    if config.ratio > 0.0 && callers >= 2 {
      EarlyScheduleIsEarly(config, callers);
    } else {
      forall schedule
        ensures !Early(config, callers, schedule)
      {
        if config.ratio <= 0.0 {
          NoRatioNoEarly(config, callers, schedule);
        } else if RunTurns(config, Start(callers), schedule).counters.aborted {
          OneCallerIsNeverEarly(config, Start(callers), schedule);
        }
      }
    }
  }
}
