/** The waits reported with a refusal (delay-seconds of RFC 9110, section 10.2.3). */
module RetryAfter {
  import opened RateLimit

  function NotNegative(n: int): nat {
    if n < 0 then 0 else n
  }

  function SecondsUntilNextDay(now: int): nat {
    var nextDay := (now / 86_400 + 1) * 86_400;
    NotNegative(nextDay - now)
  }

  function SecondsUntilNextWeek(now: int): nat {
    var dayIndex := now / 86_400;
    var weekStartDay := (dayIndex + 3) / 7 * 7 - 3;
    NotNegative((weekStartDay + 7) * 86_400 - now)
  }

  /** The least wait that reaches another day. */
  lemma DayWaitIsLeast(now: int, later: int)
    ensures SecondsUntilNextDay(now) > 0
    ensures DayKey(now + SecondsUntilNextDay(now)) == DayKey(now) + 1
    ensures now <= later < now + SecondsUntilNextDay(now) ==> DayKey(later) == DayKey(now)
  {
    var day := now / 86_400;
    assert day * 86_400 <= now < day * 86_400 + 86_400;
  }

  /** The least wait that reaches another week, by the limiter's own week
      number, although the wait is computed by a formula of its own. */
  lemma WeekWaitIsLeast(now: int, later: int)
    ensures SecondsUntilNextWeek(now) > 0
    ensures WeekKey(now + SecondsUntilNextWeek(now)) == WeekKey(now) + 1
    ensures DayKey(now + SecondsUntilNextWeek(now)) > DayKey(now)
    ensures now <= later < now + SecondsUntilNextWeek(now) ==> WeekKey(later) == WeekKey(now)
  {
    var day := now / 86_400;
    var week := (day + 3) / 7;
    assert day * 86_400 <= now < day * 86_400 + 86_400 && 7 * week <= day + 3 < 7 * week + 7;
    if now <= later < now + SecondsUntilNextWeek(now) {
      var d := later / 86_400;
      assert d * 86_400 <= later < d * 86_400 + 86_400;
      assert day <= d < 7 * week + 4;
    }
  }

  /** A caller refused for the day is refused at every moment before the
      reported wait is over; then the request is allowed unless the week's
      budget is spent as well and the week is still the same. */
  lemma AfterDayExceeded(entries: Entries, key: string, now: int, later: int)
    requires Check(entries, key, now).1 == DayExceeded
    ensures var entries', wait := Check(entries, key, now).0, SecondsUntilNextDay(now);
            && (now <= later < now + wait ==> Check(entries', key, later).1 == DayExceeded)
            && Check(entries', key, now + wait).1
               == if entries'[key].weekCount >= WEEK_LIMIT && WeekKey(now + wait) == WeekKey(now)
                  then WeekExceeded else Allowed
  {
    DayWaitIsLeast(now, later);
    hide DayKey, SecondsUntilNextDay;
  }

  /** A caller refused for the week is refused at every moment before the
      reported wait is over, and allowed at exactly that wait. */
  lemma AfterWeekExceeded(entries: Entries, key: string, now: int, later: int)
    requires Check(entries, key, now).1 == WeekExceeded
    ensures var entries', wait := Check(entries, key, now).0, SecondsUntilNextWeek(now);
            && (now <= later < now + wait ==> Check(entries', key, later).1 == WeekExceeded)
            && Check(entries', key, now + wait).1 == Allowed
  {
    WeekWaitIsLeast(now, later);
    hide DayKey, WeekKey, SecondsUntilNextWeek;
  }

  /** The key is refused, and in the same way at every moment before this wait
      is over. Then the window it was refused for is the next one, and the key
      is allowed unless that was the day and the week is spent and still the same. */
  ghost predicate RightWait(entries: Entries, key: string, now: int, wait: nat) {
    var verdict, end, e := Check(entries, key, now).1, now + wait, EntryOf(entries, key);
    && verdict != Allowed
    && (forall later :: now <= later < end ==> Check(entries, key, later).1 == verdict)
    && if verdict == WeekExceeded then WeekKey(end) == WeekKey(now) + 1 && Check(entries, key, end).1 == Allowed
       else
         && DayKey(end) == DayKey(now) + 1
         && Check(entries, key, end).1
            == if e.weekCount >= WEEK_LIMIT && e.weekKey == WeekKey(now) == WeekKey(end) then WeekExceeded else Allowed
  }

  /** There is only one such wait. */
  lemma OneRightWait(entries: Entries, key: string, now: int, wait: nat, other: nat)
    requires RightWait(entries, key, now, wait) && RightWait(entries, key, now, other)
    ensures wait == other
  {
    hide Check, DayKey, WeekKey;
    assert Check(entries, key, now + wait).1 != Check(entries, key, now).1;
    assert Check(entries, key, now + other).1 != Check(entries, key, now).1;
  }

  /** What a refusing check leaves has as its right wait that until the next
      week if the week is spent, and otherwise that until the next day. */
  lemma RefusalHasRightWait(entries: Entries, key: string, now: int)
    requires Check(entries, key, now).1 != Allowed
    ensures var (entries', outcome) := Check(entries, key, now);
            && Check(entries', key, now).1 == outcome
            && RightWait(entries', key, now,
                 if outcome == WeekExceeded then SecondsUntilNextWeek(now) else SecondsUntilNextDay(now))
  {
    var (entries', outcome) := Check(entries, key, now);
    var wait := if outcome == WeekExceeded then SecondsUntilNextWeek(now) else SecondsUntilNextDay(now);
    DayWaitIsLeast(now, now);
    WeekWaitIsLeast(now, now);
    forall later | now <= later < now + wait
      ensures Check(entries', key, later).1 == outcome
    {
      if outcome == WeekExceeded {
        AfterWeekExceeded(entries, key, now, later);
      } else {
        AfterDayExceeded(entries, key, now, later);
      }
    }
    hide DayKey, WeekKey, SecondsUntilNextDay, SecondsUntilNextWeek;
  }

  lemma SameEntrySameWait(entries: Entries, others: Entries, key: string, now: int, wait: nat)
    requires EntryOf(entries, key) == EntryOf(others, key)
    ensures Check(entries, key, now).1 == Check(others, key, now).1
    ensures RightWait(entries, key, now, wait) ==> RightWait(others, key, now, wait)
  {
    hide DayKey, WeekKey;
    assert forall later :: Check(entries, key, later).1 == Check(others, key, later).1;
  }

  // ----- Whatever others do meanwhile

  predicate NothingReturned(calls: seq<Call>, key: string) {
    forall i :: 0 <= i < |calls| && calls[i].ReleaseCall? ==> calls[i].key != key
  }

  lemma {:induction false} SpentOnlyGrows(l: Ledger, calls: seq<Call>, key: string, w: Window)
    requires AdmissibleRun(l, calls) && NothingReturned(calls, key)
    ensures Spent(l.log, key, w) <= Spent(RunLedger(l, calls).log, key, w)
    decreases |calls|
  {
    if calls != [] {
      var call := calls[0];
      hide InWindow, LogOutcome, Without;
      SpentOnlyGrows(NextLedger(l, call), calls[1..], key, w);
      hide Spent;
      match call
      case CheckCall(k, now) => SpentSnoc(l.log, Grant(k, now), key, w);
      case ReleaseCall(k, at) => SpentWithout(l.log, Grant(k, at), key, w);
      case EvictCall(_) =>
    }
  }

  /** As long as none of the key's grants is given back, no run of calls by
      anyone makes the limiter allow the key before the reported wait is over. */
  lemma DayRefusalLasts(l: Ledger, calls: seq<Call>, key: string, now: int, later: int)
    requires LogOutcome(l.log, key, now) == DayExceeded
    requires AdmissibleRun(l, calls) && NothingReturned(calls, key)
    requires now <= later < now + SecondsUntilNextDay(now)
    ensures LogOutcome(RunLedger(l, calls).log, key, later) == DayExceeded
  {
    DayWaitIsLeast(now, later);
    hide DayKey, WeekKey, SecondsUntilNextDay, Spent;
    SpentOnlyGrows(l, calls, key, Day(DayKey(now)));
  }

  lemma WeekRefusalLasts(l: Ledger, calls: seq<Call>, key: string, now: int, later: int)
    requires LogOutcome(l.log, key, now) == WeekExceeded
    requires AdmissibleRun(l, calls) && NothingReturned(calls, key)
    requires now <= later < now + SecondsUntilNextWeek(now)
    ensures LogOutcome(RunLedger(l, calls).log, key, later) != Allowed
  {
    WeekWaitIsLeast(now, later);
    hide DayKey, WeekKey, SecondsUntilNextWeek, Spent;
    SpentOnlyGrows(l, calls, key, Week(WeekKey(now)));
  }
}
