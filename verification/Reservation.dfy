/** How a request draws on the budget of every brand it names, and what it
    gives back when it is refused or its export fails. */
module Reservation {
  import opened Wrappers
  import opened RateLimit
  import opened RetryAfter

  // ----- The reservation loop

  function ReleaseEach(entries: Entries, keys: seq<string>, now: int): Entries {
    if keys == [] then entries else ReleaseEach(Release(entries, keys[0], now), keys[1..], now)
  }

  /** Check one key after the other; at the first refusal give back those already recorded. */
  function Reserve(entries: Entries, recorded: seq<string>, keys: seq<string>, now: int): (Entries, Option<Outcome>)
    decreases |keys|
  {
    if keys == [] then (entries, None)
    else
      var (entries', outcome) := Check(entries, keys[0], now);
      if outcome == Allowed then Reserve(entries', recorded + [keys[0]], keys[1..], now)
      else (ReleaseEach(entries', recorded, now), Some(outcome))
  }

  method ReleaseAll(limiter: RateLimiter, keys: seq<string>, now: int)
    modifies limiter
    ensures limiter.entries == ReleaseEach(old(limiter.entries), keys, now)
  {
    for i := 0 to |keys|
      invariant ReleaseEach(limiter.entries, keys[i..], now) == ReleaseEach(old(limiter.entries), keys, now)
    {
      assert keys[i..][1..] == keys[i + 1..];
      limiter.ReleaseOne(keys[i], now);
    }
  }

  predicate Distinct(keys: seq<string>) {
    forall i, j :: 0 <= i < j < |keys| ==> keys[i] != keys[j]
  }

  predicate AllAllowedBy(entries: Entries, keys: seq<string>, now: int) {
    forall i :: 0 <= i < |keys| ==> Check(entries, keys[i], now).1 == Allowed
  }

  /** The first key these entries refuse is the i-th. */
  predicate Refuses(entries: Entries, keys: seq<string>, i: int, now: int) {
    0 <= i < |keys| && AllAllowedBy(entries, keys[..i], now) && Check(entries, keys[i], now).1 != Allowed
  }

  function RetryAfterFor(outcome: Outcome, now: int): nat {
    if outcome == WeekExceeded then SecondsUntilNextWeek(now) else SecondsUntilNextDay(now)
  }

  lemma {:induction false} ReleaseLeavesOthers(entries: Entries, keys: seq<string>, now: int, key: string)
    requires key !in keys
    ensures EntryOf(ReleaseEach(entries, keys, now), key) == EntryOf(entries, key)
    decreases |keys|
  {
    if keys != [] {
      ReleaseLeavesOthers(Release(entries, keys[0], now), keys[1..], now, key);
    }
  }

  /** Which key a check refuses does not depend on the check of another key. */
  lemma CheckLeavesOthers(entries: Entries, keys: seq<string>, now: int)
    requires keys != [] && Distinct(keys)
    ensures var entries', rest := Check(entries, keys[0], now).0, keys[1..];
            && (AllAllowedBy(entries', rest, now) <==> AllAllowedBy(entries, rest, now))
            && forall i :: Refuses(entries', rest, i, now) <==> Refuses(entries, rest, i, now)
  {
    var entries', rest := Check(entries, keys[0], now).0, keys[1..];
    forall i | 0 <= i < |rest|
      ensures Check(entries', rest[i], now).1 == Check(entries, rest[i], now).1
    {
      assert EntryOf(entries', rest[i]) == EntryOf(entries, rest[i]);
    }
  }

  lemma FirstIsAllowed(entries: Entries, keys: seq<string>, now: int)
    requires keys != [] && Check(entries, keys[0], now).1 == Allowed
    ensures AllAllowedBy(entries, keys[1..], now) ==> AllAllowedBy(entries, keys, now)
    ensures forall i :: Refuses(entries, keys[1..], i, now) ==> Refuses(entries, keys, i + 1, now)
  {
    hide Check;
    assert forall i :: 0 < i < |keys| ==> keys[i] == keys[1..][i - 1];
    forall i | Refuses(entries, keys[1..], i, now)
      ensures Refuses(entries, keys, i + 1, now)
    {
      assert keys[..i + 1] == [keys[0]] + keys[1..][..i];
    }
  }

  /** A reservation of different keys succeeds if every key is allowed at its
      start; otherwise its refusal has the right wait of the first key refused. */
  lemma {:induction false} RefusalHasItsWait(entries: Entries, recorded: seq<string>, keys: seq<string>, now: int)
    requires Distinct(recorded + keys)
    ensures var (entries', refusal) := Reserve(entries, recorded, keys, now);
            match refusal
            case None => AllAllowedBy(entries, keys, now)
            case Some(outcome) => exists i :: Refuses(entries, keys, i, now)
                                              && RightWait(entries', keys[i], now, RetryAfterFor(outcome, now))
    decreases |keys|
  {
    if keys != [] {
      var (next, outcome) := Check(entries, keys[0], now);
      var (entries', refusal) := Reserve(entries, recorded, keys, now);
      hide Check, RightWait;
      FirstIsNew(recorded, keys);
      if outcome == Allowed {
        FirstIsAllowed(entries, keys, now);
        DistinctSuffix(recorded, keys);
        CheckLeavesOthers(entries, keys, now);
        assert (recorded + [keys[0]]) + keys[1..] == recorded + keys;
        RefusalHasItsWait(next, recorded + [keys[0]], keys[1..], now);
        if refusal.Some? {
          var i :| Refuses(next, keys[1..], i, now)
                   && RightWait(entries', keys[1..][i], now, RetryAfterFor(refusal.value, now));
          assert Refuses(entries, keys, i + 1, now);
        }
      } else {
        RefusalHasRightWait(entries, keys[0], now);
        ReleaseLeavesOthers(next, recorded, now, keys[0]);
        SameEntrySameWait(next, entries', keys[0], now, RetryAfterFor(outcome, now));
        assert Refuses(entries, keys, 0, now);
      }
    }
  }

  method ReserveAll(limiter: RateLimiter, keys: seq<string>, now: int) returns (retryAfter: Option<nat>)
    modifies limiter
    ensures var (entries', refusal) := Reserve(old(limiter.entries), [], keys, now);
            && limiter.entries == entries'
            && retryAfter == match refusal { case Some(outcome) => Some(RetryAfterFor(outcome, now)) case None => None }
    ensures Distinct(keys) ==>
              match retryAfter
              case None => AllAllowedBy(old(limiter.entries), keys, now)
              case Some(wait) => exists i :: Refuses(old(limiter.entries), keys, i, now)
                                             && RightWait(limiter.entries, keys[i], now, wait)
  {
    hide Check, RightWait, Refuses, AllAllowedBy, Distinct, ReleaseEach, SecondsUntilNextWeek, SecondsUntilNextDay;
    if Distinct(keys) {
      assert [] + keys == keys;
      RefusalHasItsWait(limiter.entries, [], keys, now);
    }
    var recorded: seq<string> := [];
    for i := 0 to |keys|
      invariant recorded == keys[..i]
      invariant Reserve(limiter.entries, recorded, keys[i..], now) == Reserve(old(limiter.entries), [], keys, now)
    {
      assert keys[i..][0] == keys[i] && keys[i..][1..] == keys[i + 1..] && keys[..i + 1] == keys[..i] + [keys[i]];
      var outcome := limiter.CheckAndRecord(keys[i], now);
      if outcome == Allowed {
        recorded := recorded + [keys[i]];
      } else {
        ReleaseAll(limiter, recorded, now);
        retryAfter := Some(if outcome == WeekExceeded then SecondsUntilNextWeek(now) else SecondsUntilNextDay(now));
        return;
      }
    }
    retryAfter := None;
  }

  // ----- The log of a reservation

  function GrantsFor(keys: seq<string>, now: int): seq<Grant> {
    seq(|keys|, i requires 0 <= i < |keys| => Grant(keys[i], now))
  }

  lemma {:induction false} WithoutInTail(base: seq<Grant>, g: Grant, tail: seq<Grant>)
    requires g !in tail
    ensures Without(base + [g] + tail, g) == base + tail
  {
    var log := base + [g] + tail;
    if tail == [] {
      assert log[..|log| - 1] == base;
    } else {
      var last := tail[|tail| - 1];
      assert log[..|log| - 1] == base + [g] + tail[..|tail| - 1];
      WithoutInTail(base, g, tail[..|tail| - 1]);
      assert base + tail[..|tail| - 1] + [last] == base + tail;
    }
  }

  /** Giving back everything just taken restores the log exactly. */
  lemma {:induction false} ReleaseEachRestores(entries: Entries, l: Ledger, base: seq<Grant>, keys: seq<string>,
        now: int)
    requires Refines(entries, l) && l.log == base + GrantsFor(keys, now) && Distinct(keys)
    ensures Refines(ReleaseEach(entries, keys, now), l.(log := base))
    decreases |keys|
  {
    var grants := GrantsFor(keys, now);
    hide Refines, Release, Without;
    if keys == [] {
      assert l.(log := base) == l;
    } else {
      var g, tail := grants[0], GrantsFor(keys[1..], now);
      assert grants == [g] + tail && base + grants == base + [g] + tail;
      assert g in l.log by { assert l.log[|base|] == g; }
      WithoutInTail(base, g, tail);
      ReleaseRefines(entries, l, keys[0], now);
      ReleaseEachRestores(Release(entries, keys[0], now), l.(log := base + tail), base, keys[1..], now);
    }
  }

  lemma {:induction false} SpentOfOthers(log: seq<Grant>, keys: seq<string>, now: int, key: string, w: Window)
    requires key !in keys
    ensures Spent(log + GrantsFor(keys, now), key, w) == Spent(log, key, w)
  {
    var grants := GrantsFor(keys, now);
    if keys == [] {
      assert log + grants == log;
    } else {
      var n := |keys| - 1;
      SpentOfOthers(log, keys[..n], now, key, w);
      assert log + grants == log + GrantsFor(keys[..n], now) + [grants[n]];
      SpentSnoc(log + GrantsFor(keys[..n], now), grants[n], key, w);
    }
  }

  predicate AllAdmissible(l: Ledger, keys: seq<string>, now: int) {
    forall i :: 0 <= i < |keys| ==> Admissible(l, CheckCall(keys[i], now))
  }

  predicate AllAllowed(log: seq<Grant>, keys: seq<string>, now: int) {
    forall i :: 0 <= i < |keys| ==> LogOutcome(log, keys[i], now) == Allowed
  }

  /** The loop takes one grant for every key, exactly when the log allows every
      key; otherwise it reports the first refusal and leaves the log as it was. */
  lemma {:induction false} ReserveRefines(entries: Entries, base: seq<Grant>, l: Ledger, recorded: seq<string>,
        keys: seq<string>, now: int)
    returns (l': Ledger)
    requires Refines(entries, l) && l.log == base + GrantsFor(recorded, now)
    requires Distinct(recorded + keys) && AllAdmissible(l, keys, now)
    ensures var (entries', refusal) := Reserve(entries, recorded, keys, now);
            && Refines(entries', l')
            && (refusal.None? <==> AllAllowed(base, keys, now))
            && l'.log == (if refusal.None? then base + GrantsFor(recorded + keys, now) else base)
            && (refusal.Some? ==> exists i :: 0 <= i < |keys| && AllAllowed(base, keys[..i], now)
                                     && refusal.value == LogOutcome(base, keys[i], now) != Allowed)
    ensures Stricter(l'.(log := base), l.(log := base)) && l'.evicted == l.evicted
    ensures forall k :: k in l'.seen ==> (k in keys && l'.seen[k] == now) || (k in l.seen && l'.seen[k] == l.seen[k])
    decreases |keys|
  {
    if keys == [] {
      l' := l;
      assert recorded + keys == recorded;
    } else {
      var key := keys[0];
      var call := CheckCall(key, now);
      var next := NextLedger(l, call);
      FirstIsNew(recorded, keys);
      SameVerdictAsBase(base, recorded, key, now);
      CheckRefines(entries, l, key, now);
      var entries' := Check(entries, key, now).0;
      if LogOutcome(base, key, now) == Allowed {
        var more := recorded + [key];
        assert next.log == base + GrantsFor(more, now);
        assert more + keys[1..] == recorded + keys;
        StillAdmissible(l, key, keys, now, next);
        l' := ReserveRefines(entries', base, next, more, keys[1..], now);
        ReserveOneMore(entries, base, recorded, keys, now);
      } else {
        assert AllAllowed(base, keys[..0], now);
        DistinctPrefix(recorded, keys);
        ReleaseEachRestores(entries', next, base, recorded, now);
        l' := next.(log := base);
      }
    }
  }

  lemma SameVerdictAsBase(base: seq<Grant>, recorded: seq<string>, key: string, now: int)
    requires key !in recorded
    ensures LogOutcome(base + GrantsFor(recorded, now), key, now) == LogOutcome(base, key, now)
  {
    SpentOfOthers(base, recorded, now, key, Day(DayKey(now)));
    SpentOfOthers(base, recorded, now, key, Week(WeekKey(now)));
  }

  lemma StillAdmissible(l: Ledger, key: string, keys: seq<string>, now: int, next: Ledger)
    requires keys != [] && key == keys[0] && AllAdmissible(l, keys, now) && next == NextLedger(l, CheckCall(key, now))
    ensures AllAdmissible(next, keys[1..], now)
  {
    forall i | 0 <= i < |keys[1..]|
      ensures Admissible(next, CheckCall(keys[1..][i], now))
    {
      assert Admissible(l, CheckCall(keys[i + 1], now));
    }
  }

  lemma FirstIsNew(recorded: seq<string>, keys: seq<string>)
    requires keys != [] && Distinct(recorded + keys)
    ensures keys[0] !in recorded
  {
    var all := recorded + keys;
    assert forall i :: 0 <= i < |recorded| ==> all[i] == recorded[i] && all[i] != all[|recorded|];
  }

  lemma DistinctSuffix(a: seq<string>, b: seq<string>)
    requires Distinct(a + b)
    ensures Distinct(b)
  {
    assert forall i :: 0 <= i < |b| ==> (a + b)[|a| + i] == b[i];
  }

  lemma DistinctPrefix(a: seq<string>, b: seq<string>)
    requires Distinct(a + b)
    ensures Distinct(a)
  {
    assert forall i :: 0 <= i < |a| ==> (a + b)[i] == a[i];
  }

  lemma ReserveOneMore(entries: Entries, base: seq<Grant>, recorded: seq<string>, keys: seq<string>, now: int)
    requires keys != [] && LogOutcome(base, keys[0], now) == Allowed
    ensures AllAllowed(base, keys[1..], now) <==> AllAllowed(base, keys, now)
    ensures forall i :: 0 <= i < |keys| - 1 && AllAllowed(base, keys[1..][..i], now) ==>
            AllAllowed(base, keys[..i + 1], now)
    ensures forall i :: 0 <= i < |keys| - 1 ==> keys[1..][i] == keys[i + 1]
  {
    assert keys == [keys[0]] + keys[1..];
    forall i | 0 <= i < |keys| - 1 && AllAllowed(base, keys[1..][..i], now)
      ensures AllAllowed(base, keys[..i + 1], now)
    {
      var front := keys[..i + 1];
      forall j | 0 <= j < |front|
        ensures LogOutcome(base, front[j], now) == Allowed
      {
        if j > 0 { assert keys[1..][..i][j - 1] == keys[j]; }
      }
    }
  }

  /** A ledger that has seen all these keys as late as now. */
  function Seen(l: Ledger, keys: seq<string>, now: int): Ledger {
    l.(seen := map key | key in l.seen.Keys + (set k | k in keys) :: if key in keys then now else l.seen[key])
  }

  /** A refused request, eviction included, is unobservable: every sequence of
      calls that may follow has the verdicts it would have had without it. */
  lemma RefusedLeavesNoTrace(entries: Entries, l: Ledger, keys: seq<string>, now: int, later: seq<Call>)
    requires Refines(entries, l) && Distinct(keys)
    requires var evicted := NextLedger(l, EvictCall(now));
             AllAdmissible(evicted, keys, now) && AdmissibleRun(Seen(evicted, keys, now), later)
    requires Reserve(Evict(entries, now), [], keys, now).1.Some?
    ensures Outcomes(Reserve(Evict(entries, now), [], keys, now).0, later) == Outcomes(entries, later)
  {
    var evicted := NextLedger(l, EvictCall(now));
    hide Refines, AdmissibleRun, LogOutcomes, Outcomes, Reserve, Evict;
    EvictRefines(entries, l, now);
    assert l.log + GrantsFor([], now) == l.log && [] + keys == keys;
    var l' := ReserveRefines(Evict(entries, now), l.log, evicted, [], keys, now);
    var strict := Seen(evicted, keys, now);
    SeenIsStricter(evicted, l', keys, now);
    SameLogSameVerdicts(strict, l', later);
    SameLogSameVerdicts(strict, l, later);
    RunRefinesLog(Reserve(Evict(entries, now), [], keys, now).0, l', later);
    RunRefinesLog(entries, l, later);
  }

  lemma SeenIsStricter(l: Ledger, l': Ledger, keys: seq<string>, now: int)
    requires AllAdmissible(l, keys, now) && l'.log == l.log && l'.evicted == l.evicted
    requires forall k :: k in l'.seen ==> (k in keys && l'.seen[k] == now) || (k in l.seen && l'.seen[k] == l.seen[k])
    ensures Stricter(Seen(l, keys, now), l') && Stricter(Seen(l, keys, now), l)
  {
    forall k | k in l.seen && k in keys
      ensures DayKey(l.seen[k]) <= DayKey(now)
    {
      var i :| 0 <= i < |keys| && keys[i] == k;
      assert Admissible(l, CheckCall(keys[i], now));
    }
  }
}
