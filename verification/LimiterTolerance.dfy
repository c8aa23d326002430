/** How much disorder of clocks the limiter tolerates, exactly: checks of a key
    may not fall back behind midnight, and an eviction may lead a later check
    by a day and a second. */
module LimiterTolerance {
  import opened Wrappers
  import opened RateLimit

  predicate AdmissibleRunWithin(l: Ledger, calls: seq<Call>, slack: Slack)
    decreases |calls|
  {
    calls == []
    || (AdmissibleWithin(l, calls[0], slack) && AdmissibleRunWithin(NextLedger(l, calls[0]), calls[1..], slack))
  }

  function RunEntries(entries: Entries, calls: seq<Call>): Entries
    decreases |calls|
  {
    if calls == [] then entries else RunEntries(NextEntries(entries, calls[0]), calls[1..])
  }

  lemma {:induction false} LessSlack(l: Ledger, calls: seq<Call>, slack: Slack)
    requires AdmissibleRunWithin(l, calls, slack) && slack.days == 0 && slack.lead <= MAX_LEAD
    ensures AdmissibleRun(l, calls)
    decreases |calls|
  {
    if calls != [] {
      hide DayKey, NextLedger;
      LessSlack(NextLedger(l, calls[0]), calls[1..], slack);
    }
  }

  lemma {:induction false} OutcomesConcat(entries: Entries, first: seq<Call>, second: seq<Call>)
    ensures Outcomes(entries, first + second) == Outcomes(entries, first) + Outcomes(RunEntries(entries, first), second)
    decreases |first|
  {
    if first == [] {
      assert first + second == second;
    } else {
      assert (first + second)[1..] == first[1..] + second;
      hide NextEntries, OutcomeOf;
      OutcomesConcat(NextEntries(entries, first[0]), first[1..], second);
    }
  }

  function ThreeChecks(key: string, now: int): seq<Call> {
    [CheckCall(key, now), CheckCall(key, now), CheckCall(key, now)]
  }

  /** Three checks on a fresh day of a week with `w` grants. */
  lemma ThreeChecksPass(entries: Entries, key: string, now: int, w: nat)
    requires var e := Rolled(EntryOf(entries, key), now); e.dayCount == 0 && e.weekCount == w <= 3
    ensures Outcomes(entries, ThreeChecks(key, now)) == [Allowed, Allowed, if w == 3 then WeekExceeded else Allowed]
    ensures w == 0 ==> RunEntries(entries, ThreeChecks(key, now))
                       == entries[key := WindowState(DayKey(now), 3, WeekKey(now), 3, now)]
  {
    var calls := ThreeChecks(key, now);
    hide DayKey, WeekKey;
    var e1 := Check(entries, key, now).0;
    var e2 := Check(e1, key, now).0;
    var e3 := Check(e2, key, now).0;
    assert calls[1..] == [CheckCall(key, now), CheckCall(key, now)] && calls[1..][1..] == [CheckCall(key, now)];
    assert e1 == entries[key := WindowState(DayKey(now), 1, WeekKey(now), w + 1, now)];
    assert e2 == e1[key := WindowState(DayKey(now), 2, WeekKey(now), w + 2, now)];
    assert w < 3 ==> e3 == e2[key := WindowState(DayKey(now), 3, WeekKey(now), w + 3, now)];
    assert Outcomes(e2, calls[1..][1..]) == [if w == 3 then WeekExceeded else Allowed];
    assert RunEntries(e2, calls[1..][1..]) == e3;
    assert Outcomes(e1, calls[1..]) == [Allowed] + Outcomes(e2, calls[1..][1..]);
  }

  // ----- Evictions ahead of checks

  /** No run from an empty limiter can tell whether idle entries were evicted. */
  ghost predicate EvictionsHide(lead: int) {
    forall calls :: AdmissibleRunWithin(NO_GRANTS, calls, Slack(0, lead))
      ==> Outcomes(map[], WithoutEvictions(calls)) == Outcomes(map[], calls)
  }

  const MONDAY := 4 * SECONDS_PER_DAY

  const SUNDAY := 11 * SECONDS_PER_DAY - 1

  /** Three grants early on Monday are evicted by a clock that leads a check
      late on Sunday by two seconds more than a day. */
  const EVICTED_MONDAY :=
    ThreeChecks("k", MONDAY) + ([EvictCall(SUNDAY + MAX_LEAD + 1)] + ThreeChecks("k", SUNDAY))

  lemma EvictedMondayShows()
    ensures Outcomes(map[], EVICTED_MONDAY) == [Allowed, Allowed, Allowed, Allowed, Allowed, Allowed]
    ensures Outcomes(map[], WithoutEvictions(EVICTED_MONDAY))
            == [Allowed, Allowed, Allowed, Allowed, Allowed, WeekExceeded]
  {
    var monday, sunday := ThreeChecks("k", MONDAY), ThreeChecks("k", SUNDAY);
    var evict := EvictCall(SUNDAY + MAX_LEAD + 1);
    var spent: Entries := map["k" := WindowState(4, 3, 1, 3, MONDAY)];
    assert DayKey(MONDAY) == 4 && WeekKey(MONDAY) == 1 && DayKey(SUNDAY) == 10 && WeekKey(SUNDAY) == 1;
    ThreeChecksPass(map[], "k", MONDAY, 0);
    OutcomesConcat(map[], monday, [evict] + sunday);
    OutcomesConcat(spent, [evict], sunday);
    assert [evict][1..] == [];
    assert NextEntries(spent, evict) == map[];
    ThreeChecksPass(map[], "k", SUNDAY, 0);
    OutcomesConcat(map[], monday, sunday);
    ThreeChecksPass(spent, "k", SUNDAY, 3);
    WithoutTheEviction(monday, evict, sunday);
  }

  lemma WithoutTheEviction(before: seq<Call>, evict: Call, after: seq<Call>)
    requires |before| == 3 && |after| == 3 && evict.EvictCall?
    requires forall i :: 0 <= i < 3 ==> before[i].CheckCall? && after[i].CheckCall?
    ensures WithoutEvictions(before + ([evict] + after)) == before + after
  {
    NothingToLeaveOut(after);
    var rest := [evict] + after;
    assert rest[1..] == after && WithoutEvictions(rest) == after;
    LeaveOutLater(before, rest);
  }

  lemma {:induction false} NothingToLeaveOut(calls: seq<Call>)
    requires forall i :: 0 <= i < |calls| ==> !calls[i].EvictCall?
    ensures WithoutEvictions(calls) == calls
  {
    if calls != [] {
      NothingToLeaveOut(calls[1..]);
    }
  }

  lemma {:induction false} LeaveOutLater(before: seq<Call>, rest: seq<Call>)
    requires forall i :: 0 <= i < |before| ==> !before[i].EvictCall?
    ensures WithoutEvictions(before + rest) == before + WithoutEvictions(rest)
  {
    if before == [] {
      assert before + rest == rest;
    } else {
      assert (before + rest)[1..] == before[1..] + rest;
      LeaveOutLater(before[1..], rest);
    }
  }

  /** Without releases, whether a run is admissible depends on its clocks alone. */
  lemma OnlyClocksMatter(l: Ledger, call: Call)
    requires !call.ReleaseCall?
    ensures var l' := NextLedger(l, call);
            if call.CheckCall? then l'.seen == l.seen[call.key := call.now] && l'.evicted == l.evicted
            else l'.seen == l.seen && (l.evicted.None? ==> l'.evicted == Some(call.now))
  {
    hide LogOutcome;
  }

  lemma DaysAre()
    ensures DayKey(MONDAY) == 4 && DayKey(SUNDAY) == 10
  {
  }

  /** Checks of one key at one moment are admissible if the first of them is. */
  lemma {:induction false} ChecksAreAdmissible(l: Ledger, calls: seq<Call>, rest: seq<Call>, key: string, now: int,
        slack: Slack)
    returns (end: Ledger)
    requires forall i :: 0 <= i < |calls| ==> calls[i] == CheckCall(key, now)
    requires AdmissibleWithin(l, CheckCall(key, now), slack)
    ensures end.evicted == l.evicted && end.seen == if calls == [] then l.seen else l.seen[key := now]
    ensures AdmissibleRunWithin(l, calls + rest, slack) <==> AdmissibleRunWithin(end, rest, slack)
    decreases |calls|
  {
    hide NextLedger, DayKey;
    if calls == [] {
      end := l;
      assert calls + rest == rest;
    } else {
      OnlyClocksMatter(l, calls[0]);
      assert (calls + rest)[1..] == calls[1..] + rest;
      end := ChecksAreAdmissible(NextLedger(l, calls[0]), calls[1..], rest, key, now, slack);
    }
  }

  lemma EvictedMondayIsAdmissible(lead: int)
    requires lead > MAX_LEAD
    ensures AdmissibleRunWithin(NO_GRANTS, EVICTED_MONDAY, Slack(0, lead))
  {
    hide NextLedger, DayKey, WeekKey;
    DaysAre();
    var monday, sunday, slack := ThreeChecks("k", MONDAY), ThreeChecks("k", SUNDAY), Slack(0, lead);
    var evict := EvictCall(SUNDAY + MAX_LEAD + 1);
    var before := ChecksAreAdmissible(NO_GRANTS, monday, [evict] + sunday, "k", MONDAY, slack);
    var after := NextLedger(before, evict);
    OnlyClocksMatter(before, evict);
    assert ([evict] + sunday)[1..] == sunday;
    var end := ChecksAreAdmissible(after, sunday, [], "k", SUNDAY, slack);
    assert sunday + [] == sunday;
  }

  /** Evictions are unobservable exactly when none leads a later check by more
      than the idle time less a week, and a second. */
  lemma EvictionLeadIsExact(lead: int)
    ensures EvictionsHide(lead) <==> lead <= STALE_AFTER_SECS - 7 * SECONDS_PER_DAY + 1
  {
    if lead <= MAX_LEAD {
      forall calls | AdmissibleRunWithin(NO_GRANTS, calls, Slack(0, lead))
        ensures Outcomes(map[], WithoutEvictions(calls)) == Outcomes(map[], calls)
      {
        LessSlack(NO_GRANTS, calls, Slack(0, lead));
        assert Refines(map[], NO_GRANTS);
        EvictionIsUnobservable(map[], NO_GRANTS, calls);
      }
    } else {
      EvictedMondayIsAdmissible(lead);
      EvictedMondayShows();
    }
  }

  // ----- Checks overtaking one another

  /** Every run from an empty limiter gets the verdicts of the log. */
  ghost predicate VerdictsAreTheLogs(days: nat) {
    forall calls :: AdmissibleRunWithin(NO_GRANTS, calls, Slack(days, MAX_LEAD))
      ==> Outcomes(map[], calls) == LogOutcomes(NO_GRANTS, calls)
  }

  const TUESDAY := 5 * SECONDS_PER_DAY

  /** The second check belongs to the last second of Monday. */
  const BACK_OVER_MIDNIGHT :=
    [CheckCall("k", TUESDAY), CheckCall("k", TUESDAY - 1)] + ThreeChecks("k", TUESDAY)

  lemma FourGrantsOnTuesday()
    ensures Outcomes(map[], BACK_OVER_MIDNIGHT) == [Allowed, Allowed, Allowed, Allowed, Allowed]
  {
    var back := [CheckCall("k", TUESDAY), CheckCall("k", TUESDAY - 1)];
    MidnightIs();
    var none: Entries := map[];
    var e1, e2: Entries := map["k" := WindowState(5, 1, 1, 1, TUESDAY)],
      map["k" := WindowState(4, 1, 1, 2, TUESDAY - 1)];
    assert Check(none, "k", TUESDAY) == (e1, Allowed) && Check(e1, "k", TUESDAY - 1).1 == Allowed;
    assert Check(e1, "k", TUESDAY - 1).0 == e2;
    assert back[1..] == [CheckCall("k", TUESDAY - 1)] && back[1..][1..] == [];
    assert Outcomes(e1, back[1..]) == [Allowed] + Outcomes(e2, back[1..][1..]) == [Allowed];
    assert RunEntries(e1, back[1..]) == RunEntries(e2, back[1..][1..]) == e2;
    OutcomesConcat(none, back, ThreeChecks("k", TUESDAY));
    ThreeChecksPass(e2, "k", TUESDAY, 2);
  }

  /** The log holds so many grants on that Tuesday, on that Monday and in their week. */
  predicate Tally(l: Ledger, tuesday: nat, monday: nat, week: nat) {
    Spent(l.log, "k", Day(5)) == tuesday && Spent(l.log, "k", Day(4)) == monday && Spent(l.log, "k", Week(1)) == week
  }

  lemma MidnightIs()
    ensures DayKey(TUESDAY) == 5 && WeekKey(TUESDAY) == 1 && DayKey(TUESDAY - 1) == 4 && WeekKey(TUESDAY - 1) == 1
  {
  }

  lemma TallyStep(l: Ledger, at: int, tuesday: nat, monday: nat, week: nat)
    requires Tally(l, tuesday, monday, week) && week < 5 && (at == TUESDAY || at == TUESDAY - 1) && monday < 3
    ensures var call := CheckCall("k", at);
            var outcome := LogOutcome(l.log, "k", at);
            && outcome == (if at == TUESDAY && tuesday >= 3 then DayExceeded else Allowed)
            && (outcome == Allowed ==>
                  if at == TUESDAY then Tally(NextLedger(l, call), tuesday + 1, monday, week + 1)
                  else Tally(NextLedger(l, call), tuesday, monday + 1, week + 1))
            && NextLedger(l, call).seen == l.seen["k" := at] && NextLedger(l, call).evicted == l.evicted
  {
    hide DayKey, WeekKey, Spent;
    MidnightIs();
    SpentSnoc(l.log, Grant("k", at), "k", Day(5));
    SpentSnoc(l.log, Grant("k", at), "k", Day(4));
    SpentSnoc(l.log, Grant("k", at), "k", Week(1));
  }

  /** Clocks one day apart at most, and no eviction. */
  lemma MayFollow(l: Ledger, at: int, days: nat)
    requires days > 0 && l.evicted.None? && (at == TUESDAY || at == TUESDAY - 1)
    requires "k" in l.seen ==> l.seen["k"] == TUESDAY || l.seen["k"] == TUESDAY - 1
    ensures AdmissibleWithin(l, CheckCall("k", at), Slack(days, MAX_LEAD))
  {
    hide DayKey, WeekKey;
    MidnightIs();
  }

  lemma TwoMoreOnTuesday(l: Ledger, days: nat)
    requires days > 0 && l.evicted.None? && "k" in l.seen && l.seen["k"] == TUESDAY - 1 && Tally(l, 1, 1, 2)
    ensures AdmissibleRunWithin(l, ThreeChecks("k", TUESDAY), Slack(days, MAX_LEAD))
    ensures LogOutcomes(l, ThreeChecks("k", TUESDAY)) == [Allowed, Allowed, DayExceeded]
  {
    hide *;
    var call, slack := CheckCall("k", TUESDAY), Slack(days, MAX_LEAD);
    var l1 := NextLedger(l, call);
    var l2 := NextLedger(l1, call);
    TallyStep(l, TUESDAY, 1, 1, 2);
    TallyStep(l1, TUESDAY, 2, 1, 3);
    TallyStep(l2, TUESDAY, 3, 1, 4);
    MayFollow(l, TUESDAY, days);
    MayFollow(l1, TUESDAY, days);
    MayFollow(l2, TUESDAY, days);
    LogEnds(NextLedger(l2, call), slack);
    LogStep(l2, call, [], slack);
    LogStep(l1, call, [call], slack);
    LogStep(l, call, [call, call], slack);
    ThreeChecksAre(call);
  }

  lemma ThreeChecksAre(call: Call)
    requires call.CheckCall?
    ensures ThreeChecks(call.key, call.now) == [call] + [call, call]
    ensures [call, call] == [call] + [call] && [call] == [call] + []
  {
  }

  lemma NothingTallied()
    ensures Tally(NO_GRANTS, 0, 0, 0) && NO_GRANTS.evicted.None? && NO_GRANTS.seen == map[]
    ensures BACK_OVER_MIDNIGHT
            == [CheckCall("k", TUESDAY)] + ([CheckCall("k", TUESDAY - 1)] + ThreeChecks("k", TUESDAY))
  {
  }

  lemma LogRefusesTheFourth(days: nat)
    requires days > 0
    ensures AdmissibleRunWithin(NO_GRANTS, BACK_OVER_MIDNIGHT, Slack(days, MAX_LEAD))
    ensures LogOutcomes(NO_GRANTS, BACK_OVER_MIDNIGHT) == [Allowed, Allowed] + [Allowed, Allowed, DayExceeded]
  {
    hide *;
    var first, second, slack := CheckCall("k", TUESDAY), CheckCall("k", TUESDAY - 1), Slack(days, MAX_LEAD);
    var rest := ThreeChecks("k", TUESDAY);
    var l1 := NextLedger(NO_GRANTS, first);
    var l2 := NextLedger(l1, second);
    NothingTallied();
    TallyStep(NO_GRANTS, TUESDAY, 0, 0, 0);
    TallyStep(l1, TUESDAY - 1, 1, 0, 1);
    MayFollow(NO_GRANTS, TUESDAY, days);
    MayFollow(l1, TUESDAY - 1, days);
    TwoMoreOnTuesday(l2, days);
    LogStep(l1, second, rest, slack);
    LogStep(NO_GRANTS, first, [second] + rest, slack);
  }

  lemma LogStep(l: Ledger, call: Call, rest: seq<Call>, slack: Slack)
    requires call.CheckCall? && AdmissibleWithin(l, call, slack)
    ensures AdmissibleRunWithin(NextLedger(l, call), rest, slack) ==> AdmissibleRunWithin(l, [call] + rest, slack)
    ensures LogOutcomes(l, [call] + rest)
            == [LogOutcome(l.log, call.key, call.now)] + LogOutcomes(NextLedger(l, call), rest)
  {
    assert ([call] + rest)[1..] == rest;
  }

  lemma LogEnds(l: Ledger, slack: Slack)
    ensures AdmissibleRunWithin(l, [], slack) && LogOutcomes(l, []) == []
  {
  }

  /** The limiter is the log it stands for exactly when no check of a key falls
      back behind midnight; one that does can give a fourth grant of a day. */
  lemma DayOrderIsExact(days: nat)
    ensures VerdictsAreTheLogs(days) <==> days == 0
  {
    if days == 0 {
      forall calls | AdmissibleRunWithin(NO_GRANTS, calls, Slack(days, MAX_LEAD))
        ensures Outcomes(map[], calls) == LogOutcomes(NO_GRANTS, calls)
      {
        LessSlack(NO_GRANTS, calls, Slack(days, MAX_LEAD));
        FreshLimiterRefinesLog(calls);
      }
    } else {
      LogRefusesTheFourth(days);
      FourGrantsOnTuesday();
      assert LogOutcomes(NO_GRANTS, BACK_OVER_MIDNIGHT)[4] == DayExceeded;
    }
  }
}
