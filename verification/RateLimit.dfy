/** The fixed-window rate limiter: 3 grants a UTC day and 5 a Monday-aligned
    week for each key, against a plain log of grants. */
module RateLimit {
  import opened Wrappers

  const DAY_LIMIT := 3
  const WEEK_LIMIT := 5
  const SECONDS_PER_DAY := 86_400
  const STALE_AFTER_SECS := 8 * SECONDS_PER_DAY

  /** How far the clock of an eviction may be ahead of a later check: a day and a second. */
  const MAX_LEAD := 86_401

  datatype Outcome = Allowed | DayExceeded | WeekExceeded

  datatype WindowState = WindowState(dayKey: int, dayCount: nat, weekKey: int, weekCount: nat, lastSeen: int)

  function DayKey(now: int): int {
    now / SECONDS_PER_DAY
  }

  function WeekKey(now: int): int {
    (DayKey(now) + 3) / 7
  }

  datatype Weekday = Monday | Tuesday | Wednesday | Thursday | Friday | Saturday | Sunday

  function Following(d: Weekday): Weekday {
    match d
    case Monday => Tuesday case Tuesday => Wednesday case Wednesday => Thursday case Thursday => Friday
    case Friday => Saturday case Saturday => Sunday case Sunday => Monday
  }

  function Preceding(d: Weekday): Weekday {
    match d
    case Monday => Sunday case Tuesday => Monday case Wednesday => Tuesday case Thursday => Wednesday
    case Friday => Thursday case Saturday => Friday case Sunday => Saturday
  }

  /** The weekday of a day counted from 1 January 1970, which was a Thursday. */
  function WeekdayOf(day: int): Weekday
    decreases if day < 0 then -day else day
  {
    if day == 0 then Thursday
    else if day > 0 then Following(WeekdayOf(day - 1))
    else Preceding(WeekdayOf(day + 1))
  }

  lemma {:induction false} MondayOneIn7(day: int)
    ensures (day + 3) % 7 == match WeekdayOf(day)
                             case Monday => 0 case Tuesday => 1 case Wednesday => 2 case Thursday => 3
                             case Friday => 4 case Saturday => 5 case Sunday => 6
    decreases if day < 0 then -day else day
  {
    if day > 0 {
      MondayOneIn7(day - 1);
    } else if day < 0 {
      MondayOneIn7(day + 1);
    }
  }

  /** The week changes with each Monday, and with no other day. */
  lemma WeeksBeginOnMonday(now: int)
    ensures var tomorrow := now + 24 * 60 * 60;
            && DayKey(tomorrow) == DayKey(now) + 1
            && WeekKey(tomorrow) == WeekKey(now) + if WeekdayOf(DayKey(tomorrow)) == Monday then 1 else 0
  {
    var day := DayKey(now) + 1;
    MondayOneIn7(day);
    assert DayKey(now + 86_400) == day;
    hide DayKey, WeekdayOf;
    assert (day + 3) / 7 == (day + 2) / 7 + if (day + 3) % 7 == 0 then 1 else 0;
  }

  type Entries = map<string, WindowState>

  // ----- What each call does to the entries

  /** The entry with any window that is not the current one emptied. */
  function Rolled(e: WindowState, now: int): WindowState {
    WindowState(DayKey(now), if e.dayKey == DayKey(now) then e.dayCount else 0,
                WeekKey(now), if e.weekKey == WeekKey(now) then e.weekCount else 0, e.lastSeen)
  }

  function EntryOf(entries: Entries, key: string): WindowState {
    if key in entries then entries[key] else WindowState(0, 0, 0, 0, 0)
  }

  function Check(entries: Entries, key: string, now: int): (Entries, Outcome) {
    var e := Rolled(EntryOf(entries, key), now);
    if e.dayCount >= DAY_LIMIT then (entries[key := e], DayExceeded)
    else if e.weekCount >= WEEK_LIMIT then (entries[key := e], WeekExceeded)
    else (entries[key := WindowState(e.dayKey, e.dayCount + 1, e.weekKey, e.weekCount + 1, now)], Allowed)
  }

  function Decremented(n: nat): nat {
    if n == 0 then 0 else n - 1
  }

  function Release(entries: Entries, key: string, at: int): Entries {
    if key !in entries then entries
    else
      var e := entries[key];
      entries[key := WindowState(
        e.dayKey, if e.dayKey == DayKey(at) then Decremented(e.dayCount) else e.dayCount,
        e.weekKey, if e.weekKey == WeekKey(at) then Decremented(e.weekCount) else e.weekCount,
        e.lastSeen)]
  }

  function Evict(entries: Entries, now: int): Entries {
    map key | key in entries && now - entries[key].lastSeen <= STALE_AFTER_SECS :: entries[key]
  }

  class RateLimiter {
    var entries: Entries

    constructor ()
      ensures entries == map[]
    {
      entries := map[];
    }

    method CheckAndRecord(key: string, now: int) returns (outcome: Outcome)
      modifies this
      ensures (entries, outcome) == Check(old(entries), key, now)
    {
      var dk := now / SECONDS_PER_DAY;
      var wk := (dk + 3) / 7;
      var entry := WindowState(0, 0, 0, 0, 0);
      if key in entries {
        entry := entries[key];
      }
      if entry.dayKey != dk {
        entry := entry.(dayKey := dk, dayCount := 0);
      }
      if entry.weekKey != wk {
        entry := entry.(weekKey := wk, weekCount := 0);
      }
      entries := entries[key := entry];
      if entry.dayCount >= DAY_LIMIT {
        return DayExceeded;
      }
      if entry.weekCount >= WEEK_LIMIT {
        return WeekExceeded;
      }
      entry := entry.(dayCount := entry.dayCount + 1, weekCount := entry.weekCount + 1, lastSeen := now);
      entries := entries[key := entry];
      assert entries == old(entries)[key := entry];
      outcome := Allowed;
    }

    method ReleaseOne(key: string, now: int)
      modifies this
      ensures entries == Release(old(entries), key, now)
    {
      var dk := now / SECONDS_PER_DAY;
      var wk := (dk + 3) / 7;
      if key in entries {
        var entry := entries[key];
        if entry.dayKey == dk {
          entry := entry.(dayCount := if entry.dayCount > 0 then entry.dayCount - 1 else 0);
        }
        if entry.weekKey == wk {
          entry := entry.(weekCount := if entry.weekCount > 0 then entry.weekCount - 1 else 0);
        }
        entries := entries[key := entry];
      }
    }

    method EvictStale(now: int)
      modifies this
      ensures forall key :: key in entries
                <==> key in old(entries) && now - old(entries)[key].lastSeen <= STALE_AFTER_SECS
      ensures forall key :: key in entries ==> entries[key] == old(entries)[key]
      ensures entries == Evict(old(entries), now)
    {
      entries := map key | key in entries && now - entries[key].lastSeen <= STALE_AFTER_SECS :: entries[key];
    }
  }

  // ----- The log of grants

  datatype Grant = Grant(key: string, at: int)

  datatype Window = Day(day: int) | Week(week: int)

  predicate InWindow(at: int, w: Window) {
    match w
    case Day(day) => DayKey(at) == day
    case Week(week) => WeekKey(at) == week
  }

  /** How many of a key's grants in the log fall into a window. */
  function Spent(log: seq<Grant>, key: string, w: Window): nat {
    if log == [] then 0
    else Spent(log[..|log| - 1], key, w)
         + if log[|log| - 1].key == key && InWindow(log[|log| - 1].at, w) then 1 else 0
  }

  function Budget(w: Window): nat {
    if w.Day? then 3 else 5
  }

  /** The verdict a caller is promised: under 3 unreleased grants today and under 5 this week. */
  function LogOutcome(log: seq<Grant>, key: string, now: int): Outcome {
    if Spent(log, key, Day(DayKey(now))) >= Budget(Day(DayKey(now))) then DayExceeded
    else if Spent(log, key, Week(WeekKey(now))) >= Budget(Week(WeekKey(now))) then WeekExceeded
    else Allowed
  }

  /** The log without the latest occurrence of a grant. */
  function Without(log: seq<Grant>, g: Grant): seq<Grant> {
    if log == [] then []
    else if log[|log| - 1] == g then log[..|log| - 1]
    else Without(log[..|log| - 1], g) + [log[|log| - 1]]
  }

  /** The log, and what is needed to say which calls may come next: the last
      check of each key and the latest eviction. */
  datatype Ledger = Ledger(log: seq<Grant>, seen: map<string, int>, evicted: Option<int>)

  const NO_GRANTS := Ledger([], map[], None)

  datatype Call = CheckCall(key: string, now: int) | ReleaseCall(key: string, at: int) | EvictCall(now: int)

  /** How many days a check may fall behind the previous check of its key, and
      how many seconds behind the latest eviction. */
  datatype Slack = Slack(days: nat, lead: int)

  /** A release gives back a grant still in the log, however late. */
  predicate AdmissibleWithin(l: Ledger, call: Call, slack: Slack) {
    match call
    case CheckCall(key, now) =>
      && (key in l.seen ==> DayKey(l.seen[key]) - slack.days <= DayKey(now))
      && (l.evicted.Some? ==> l.evicted.value - slack.lead <= now)
    case ReleaseCall(key, at) => Grant(key, at) in l.log
    case EvictCall(_) => true
  }

  /** Checks of a key come in the order of their days, in any order within a
      day, and at most a day and a second behind an eviction. */
  predicate Admissible(l: Ledger, call: Call) {
    AdmissibleWithin(l, call, Slack(0, MAX_LEAD))
  }

  function NextLedger(l: Ledger, call: Call): Ledger {
    match call
    case CheckCall(key, now) =>
      Ledger(if LogOutcome(l.log, key, now) == Allowed then l.log + [Grant(key, now)] else l.log,
             l.seen[key := now], l.evicted)
    case ReleaseCall(key, at) => l.(log := Without(l.log, Grant(key, at)))
    case EvictCall(now) => l.(evicted := if l.evicted.Some? && l.evicted.value > now then l.evicted else Some(now))
  }

  function NextEntries(entries: Entries, call: Call): Entries {
    match call
    case CheckCall(key, now) => Check(entries, key, now).0
    case ReleaseCall(key, at) => Release(entries, key, at)
    case EvictCall(now) => Evict(entries, now)
  }

  function OutcomeOf(entries: Entries, call: Call): Option<Outcome> {
    if call.CheckCall? then Some(Check(entries, call.key, call.now).1) else None
  }

  function LogOutcomeOf(l: Ledger, call: Call): Option<Outcome> {
    if call.CheckCall? then Some(LogOutcome(l.log, call.key, call.now)) else None
  }

  // ----- Counting

  lemma SpentSnoc(log: seq<Grant>, g: Grant, key: string, w: Window)
    ensures Spent(log + [g], key, w) == Spent(log, key, w) + if g.key == key && InWindow(g.at, w) then 1 else 0
  {
    assert (log + [g])[..|log|] == log;
  }

  lemma {:induction false} SpentWithout(log: seq<Grant>, g: Grant, key: string, w: Window)
    requires g in log
    ensures Spent(log, key, w) == Spent(Without(log, g), key, w) + if g.key == key && InWindow(g.at, w) then 1 else 0
    ensures forall h :: h in Without(log, g) ==> h in log
  {
    var last, earlier := log[|log| - 1], log[..|log| - 1];
    assert log == earlier + [last];
    if last != g {
      SpentWithout(earlier, g, key, w);
      SpentSnoc(Without(earlier, g), last, key, w);
    }
  }

  lemma {:induction false} NothingSpent(log: seq<Grant>, key: string, w: Window)
    requires forall g :: g in log && g.key == key ==> !InWindow(g.at, w)
    ensures Spent(log, key, w) == 0
  {
    if log != [] {
      assert log[|log| - 1] in log;
      NothingSpent(log[..|log| - 1], key, w);
    }
  }

  lemma {:induction false} SomethingSpent(log: seq<Grant>, g: Grant, w: Window)
    requires g in log && InWindow(g.at, w)
    ensures Spent(log, g.key, w) > 0
  {
    if log[|log| - 1] != g {
      assert log == log[..|log| - 1] + [log[|log| - 1]];
      SomethingSpent(log[..|log| - 1], g, w);
    }
  }

  // ----- Windows

  lemma KeysAscend(a: int, b: int)
    requires a <= b
    ensures DayKey(a) <= DayKey(b) && WeekKey(a) <= WeekKey(b)
  {
    var p, q := a / SECONDS_PER_DAY, b / SECONDS_PER_DAY;
    assert a < p * SECONDS_PER_DAY + SECONDS_PER_DAY && q * SECONDS_PER_DAY <= b;
    assert p <= q;
  }

  lemma WeeksFollowDays(a: int, b: int)
    ensures DayKey(a) <= DayKey(b) ==> WeekKey(a) <= WeekKey(b)
    ensures DayKey(a) <= DayKey(b) - 7 ==> WeekKey(a) < WeekKey(b)
  {
  }

  /** A moment long enough before an eviction lies a week before every check the eviction may precede. */
  lemma StaleIsAWeekAgo(evicted: int, now: int)
    requires evicted - MAX_LEAD <= now
    ensures DayKey(evicted - STALE_AFTER_SECS - 1) <= DayKey(now) - 7
  {
    KeysAscend(evicted - STALE_AFTER_SECS - 1, now - 7 * SECONDS_PER_DAY);
    assert DayKey(now - 7 * SECONDS_PER_DAY) == DayKey(now) - 7;
  }

  // ----- The limiter refines the log

  /** An entry counts its key's grants in the windows of the last check; a
      missing entry means that all grants of the key lie far in the past. */
  predicate KeyOk(entries: Entries, l: Ledger, key: string) {
    if key in entries then
      var e := entries[key];
      && key in l.seen
      && e.dayKey == DayKey(l.seen[key]) && e.weekKey == WeekKey(l.seen[key])
      && DayKey(e.lastSeen) <= DayKey(l.seen[key])
      && e.dayCount == Spent(l.log, key, Day(e.dayKey)) && e.weekCount == Spent(l.log, key, Week(e.weekKey))
      && forall g :: g in l.log && g.key == key ==> DayKey(g.at) <= DayKey(e.lastSeen)
    else
      OldGrants(l, key)
  }

  predicate OldGrants(l: Ledger, key: string) {
    forall g :: g in l.log && g.key == key ==>
      l.evicted.Some? && DayKey(g.at) <= DayKey(l.evicted.value - STALE_AFTER_SECS - 1)
  }

  ghost predicate Refines(entries: Entries, l: Ledger) {
    forall key: string :: KeyOk(entries, l, key)
  }

  /** A key's grants lie on or before a day not later than today's, in no later window. */
  lemma WindowIsNew(log: seq<Grant>, key: string, w: Window, bound: int, now: int)
    requires forall g :: g in log && g.key == key ==> DayKey(g.at) <= DayKey(bound)
    requires DayKey(bound) <= DayKey(now)
    requires || (w == Day(DayKey(now)) && DayKey(bound) != DayKey(now))
             || (w == Week(WeekKey(now)) && WeekKey(bound) != WeekKey(now))
    ensures Spent(log, key, w) == 0
  {
    WeeksFollowDays(bound, now);
    forall g | g in log && g.key == key
      ensures !InWindow(g.at, w)
    {
      WeeksFollowDays(g.at, bound);
    }
    NothingSpent(log, key, w);
  }

  /** After rolling, the counts are those of the log in the windows of now. */
  lemma RolledCounts(entries: Entries, l: Ledger, key: string, now: int)
    requires KeyOk(entries, l, key) && Admissible(l, CheckCall(key, now))
    ensures var e := Rolled(EntryOf(entries, key), now);
            e.dayCount == Spent(l.log, key, Day(DayKey(now))) && e.weekCount == Spent(l.log, key, Week(WeekKey(now)))
  {
    var e := EntryOf(entries, key);
    hide DayKey, WeekKey, InWindow;
    if key in entries {
      var seen := l.seen[key];
      if e.dayKey != DayKey(now) { WindowIsNew(l.log, key, Day(DayKey(now)), seen, now); }
      if e.weekKey != WeekKey(now) { WindowIsNew(l.log, key, Week(WeekKey(now)), seen, now); }
    } else {
      LongAgo(l, key, now);
    }
  }

  lemma LongAgo(l: Ledger, key: string, now: int)
    requires OldGrants(l, key)
    requires l.evicted.Some? ==> l.evicted.value - MAX_LEAD <= now
    ensures Spent(l.log, key, Day(DayKey(now))) == 0 && Spent(l.log, key, Week(WeekKey(now))) == 0
    ensures forall g :: g in l.log && g.key == key ==> DayKey(g.at) <= DayKey(now)
  {
    forall g | g in l.log && g.key == key
      ensures !InWindow(g.at, Week(WeekKey(now))) && !InWindow(g.at, Day(DayKey(now))) && DayKey(g.at) <= DayKey(now)
    {
      StaleIsAWeekAgo(l.evicted.value, now);
      hide DayKey;
      WeeksFollowDays(g.at, now);
    }
    NothingSpent(l.log, key, Day(DayKey(now)));
    NothingSpent(l.log, key, Week(WeekKey(now)));
  }

  lemma CheckKeepsKey(entries: Entries, l: Ledger, key: string, now: int, k: string)
    requires KeyOk(entries, l, key) && KeyOk(entries, l, k) && Admissible(l, CheckCall(key, now))
    requires Check(entries, key, now).1 == LogOutcome(l.log, key, now)
    ensures KeyOk(Check(entries, key, now).0, NextLedger(l, CheckCall(key, now)), k)
  {
    hide DayKey, WeekKey, Spent, LogOutcome;
    RolledCounts(entries, l, key, now);
    var entries', l' := Check(entries, key, now).0, NextLedger(l, CheckCall(key, now));
    if l'.log != l.log {
      SpentSnoc(l.log, Grant(key, now), k, Day(if k in entries' then entries'[k].dayKey else 0));
      SpentSnoc(l.log, Grant(key, now), k, Week(if k in entries' then entries'[k].weekKey else 0));
      if k == key && key !in entries {
        LongAgo(l, key, now);
      }
    } else if k == key && key !in entries {
      LongAgo(l, key, now);
      assert false;
    }
  }

  lemma CheckRefines(entries: Entries, l: Ledger, key: string, now: int)
    requires Refines(entries, l) && Admissible(l, CheckCall(key, now))
    ensures Check(entries, key, now).1 == LogOutcome(l.log, key, now)
    ensures Refines(Check(entries, key, now).0, NextLedger(l, CheckCall(key, now)))
  {
    hide DayKey, WeekKey, Spent, KeyOk, NextLedger, Admissible;
    RolledCounts(entries, l, key, now);
    forall k: string
      ensures KeyOk(Check(entries, key, now).0, NextLedger(l, CheckCall(key, now)), k)
    {
      CheckKeepsKey(entries, l, key, now, k);
    }
  }

  /** Giving back a grant that is in the log never meets a count of zero. */
  lemma ReleaseNeverSaturates(entries: Entries, l: Ledger, key: string, at: int)
    requires Refines(entries, l) && Admissible(l, ReleaseCall(key, at)) && key in entries
    ensures entries[key].dayKey == DayKey(at) ==> entries[key].dayCount > 0
    ensures entries[key].weekKey == WeekKey(at) ==> entries[key].weekCount > 0
  {
    assert KeyOk(entries, l, key);
    var g := Grant(key, at);
    if entries[key].dayKey == DayKey(at) { SomethingSpent(l.log, g, Day(DayKey(at))); }
    if entries[key].weekKey == WeekKey(at) { SomethingSpent(l.log, g, Week(WeekKey(at))); }
  }

  lemma ReleaseRefines(entries: Entries, l: Ledger, key: string, at: int)
    requires Refines(entries, l) && Admissible(l, ReleaseCall(key, at))
    ensures Refines(Release(entries, key, at), NextLedger(l, ReleaseCall(key, at)))
  {
    var g := Grant(key, at);
    var entries', l' := Release(entries, key, at), NextLedger(l, ReleaseCall(key, at));
    if key in entries {
      ReleaseNeverSaturates(entries, l, key, at);
    }
    hide DayKey, WeekKey, Spent, Without;
    forall k: string
      ensures KeyOk(entries', l', k)
    {
      assert KeyOk(entries, l, k);
      SpentWithout(l.log, g, k, Day(if k in entries then entries[k].dayKey else 0));
      SpentWithout(l.log, g, k, Week(if k in entries then entries[k].weekKey else 0));
    }
  }

  lemma EvictRefines(entries: Entries, l: Ledger, now: int)
    requires Refines(entries, l)
    ensures Refines(Evict(entries, now), NextLedger(l, EvictCall(now)))
  {
    hide DayKey, WeekKey, Spent;
    var latest := NextLedger(l, EvictCall(now)).evicted.value;
    forall k: string
      ensures KeyOk(Evict(entries, now), NextLedger(l, EvictCall(now)), k)
    {
      assert KeyOk(entries, l, k);
      if k in entries {
        if k !in Evict(entries, now) { KeysAscend(entries[k].lastSeen, latest - STALE_AFTER_SECS - 1); }
      } else if l.evicted.Some? {
        KeysAscend(l.evicted.value - STALE_AFTER_SECS - 1, latest - STALE_AFTER_SECS - 1);
      }
    }
  }

  // ----- Whole runs

  predicate AdmissibleRun(l: Ledger, calls: seq<Call>)
    decreases |calls|
  {
    calls == [] || (Admissible(l, calls[0]) && AdmissibleRun(NextLedger(l, calls[0]), calls[1..]))
  }

  /** The verdicts of the checks of a run, in order. */
  function Outcomes(entries: Entries, calls: seq<Call>): seq<Outcome>
    decreases |calls|
  {
    if calls == [] then []
    else
      (match OutcomeOf(entries, calls[0]) case Some(o) => [o] case None => [])
      + Outcomes(NextEntries(entries, calls[0]), calls[1..])
  }

  function LogOutcomes(l: Ledger, calls: seq<Call>): seq<Outcome>
    decreases |calls|
  {
    if calls == [] then []
    else
      (match LogOutcomeOf(l, calls[0]) case Some(o) => [o] case None => [])
      + LogOutcomes(NextLedger(l, calls[0]), calls[1..])
  }

  lemma CallRefines(entries: Entries, l: Ledger, call: Call)
    requires Refines(entries, l) && Admissible(l, call)
    ensures OutcomeOf(entries, call) == LogOutcomeOf(l, call)
    ensures Refines(NextEntries(entries, call), NextLedger(l, call))
  {
    match call
    case CheckCall(key, now) => CheckRefines(entries, l, key, now);
    case ReleaseCall(key, at) => ReleaseRefines(entries, l, key, at);
    case EvictCall(now) => EvictRefines(entries, l, now);
  }

  /** The counters, with their lazy resets, late releases and evictions, give
      every check of every run the verdict of the log. */
  lemma {:induction false} RunRefinesLog(entries: Entries, l: Ledger, calls: seq<Call>)
    requires Refines(entries, l) && AdmissibleRun(l, calls)
    ensures Outcomes(entries, calls) == LogOutcomes(l, calls)
    decreases |calls|
  {
    if calls != [] {
      hide Refines, Admissible, NextLedger, NextEntries, OutcomeOf, LogOutcomeOf;
      CallRefines(entries, l, calls[0]);
      RunRefinesLog(NextEntries(entries, calls[0]), NextLedger(l, calls[0]), calls[1..]);
    }
  }

  lemma FreshLimiterRefinesLog(calls: seq<Call>)
    requires AdmissibleRun(NO_GRANTS, calls)
    ensures Outcomes(map[], calls) == LogOutcomes(NO_GRANTS, calls)
  {
    assert Refines(map[], NO_GRANTS);
    RunRefinesLog(map[], NO_GRANTS, calls);
  }

  // ----- Budgets

  ghost predicate WithinBudgets(log: seq<Grant>) {
    forall key: string, w: Window :: Spent(log, key, w) <= Budget(w)
  }

  function RunLedger(l: Ledger, calls: seq<Call>): Ledger
    decreases |calls|
  {
    if calls == [] then l else RunLedger(NextLedger(l, calls[0]), calls[1..])
  }

  lemma CallKeepsBudgets(l: Ledger, call: Call)
    requires WithinBudgets(l.log) && Admissible(l, call)
    ensures WithinBudgets(NextLedger(l, call).log)
  {
    var l' := NextLedger(l, call);
    hide DayKey, WeekKey, Spent;
    forall key: string, w: Window
      ensures Spent(l'.log, key, w) <= Budget(w)
    {
      assert Spent(l.log, key, w) <= Budget(w);
      match call
      case CheckCall(k, now) => SpentSnoc(l.log, Grant(k, now), key, w);
      case ReleaseCall(k, at) => SpentWithout(l.log, Grant(k, at), key, w);
      case EvictCall(_) =>
    }
  }

  /** No run ever leaves a key with more unreleased grants than a day or a week allows. */
  lemma {:induction false} BudgetsNeverExceeded(l: Ledger, calls: seq<Call>)
    requires WithinBudgets(l.log) && AdmissibleRun(l, calls)
    ensures WithinBudgets(RunLedger(l, calls).log)
    decreases |calls|
  {
    if calls != [] {
      hide WithinBudgets, NextLedger, Admissible;
      CallKeepsBudgets(l, calls[0]);
      BudgetsNeverExceeded(NextLedger(l, calls[0]), calls[1..]);
    }
  }

  // ----- Same log, same verdicts

  /** One ledger asks at least as much of the calls to come as another with the same log. */
  predicate Stricter(strict: Ledger, loose: Ledger) {
    && strict.log == loose.log
    && (forall key :: key in loose.seen ==> key in strict.seen && DayKey(loose.seen[key]) <= DayKey(strict.seen[key]))
    && (loose.evicted.Some? ==> strict.evicted.Some? && loose.evicted.value <= strict.evicted.value)
  }

  lemma {:induction false} SameLogSameVerdicts(strict: Ledger, loose: Ledger, calls: seq<Call>)
    requires Stricter(strict, loose) && AdmissibleRun(strict, calls)
    ensures AdmissibleRun(loose, calls) && LogOutcomes(strict, calls) == LogOutcomes(loose, calls)
    decreases |calls|
  {
    if calls != [] {
      hide LogOutcome, Spent, Without;
      assert Admissible(loose, calls[0]);
      SameLogSameVerdicts(NextLedger(strict, calls[0]), NextLedger(loose, calls[0]), calls[1..]);
    }
  }

  function WithoutEvictions(calls: seq<Call>): seq<Call> {
    if calls == [] then []
    else (if calls[0].EvictCall? then [] else [calls[0]]) + WithoutEvictions(calls[1..])
  }

  lemma {:induction false} EvictionsDoNotMatterToLog(l: Ledger, bare: Ledger, calls: seq<Call>)
    requires Stricter(l, bare) && AdmissibleRun(l, calls)
    ensures AdmissibleRun(bare, WithoutEvictions(calls))
    ensures LogOutcomes(bare, WithoutEvictions(calls)) == LogOutcomes(l, calls)
    decreases |calls|
  {
    if calls != [] {
      var first, rest := calls[0], WithoutEvictions(calls[1..]);
      hide LogOutcome, Spent, Without;
      if first.EvictCall? {
        EvictionsDoNotMatterToLog(NextLedger(l, first), bare, calls[1..]);
        assert WithoutEvictions(calls) == rest;
      } else {
        assert Admissible(bare, first);
        EvictionsDoNotMatterToLog(NextLedger(l, first), NextLedger(bare, first), calls[1..]);
        assert WithoutEvictions(calls)[1..] == rest;
      }
    }
  }

  /** Evicting idle entries, whenever it happens, changes no verdict. */
  lemma EvictionIsUnobservable(entries: Entries, l: Ledger, calls: seq<Call>)
    requires Refines(entries, l) && AdmissibleRun(l, calls)
    ensures Outcomes(entries, WithoutEvictions(calls)) == Outcomes(entries, calls)
  {
    EvictionsDoNotMatterToLog(l, l, calls);
    RunRefinesLog(entries, l, calls);
    RunRefinesLog(entries, l, WithoutEvictions(calls));
  }
}
