/** When a request that never gets to export can be noticed by others while
    it holds grants: exactly, check by check and over whole runs. */
module Interference {
  import opened Wrappers
  import opened RateLimit
  import opened Reservation
  import opened Requests

  // ----- One check

  /** A check of one of the held keys is noticed if the grant held is the one
      that fills the day, or the week. */
  predicate Notices(log: seq<Grant>, held: seq<string>, at: int, key: string, now: int) {
    var day, week := Spent(log, key, Day(DayKey(now))), Spent(log, key, Week(WeekKey(now)));
    && key in held && day < DAY_LIMIT
    && ((DayKey(at) == DayKey(now) && day == DAY_LIMIT - 1)
        || (WeekKey(at) == WeekKey(now) && week == WEEK_LIMIT - 1))
  }

  lemma LastHeld(log: seq<Grant>, held: seq<string>, at: int)
    requires held != [] && Distinct(held)
    ensures var n := |held| - 1;
            && Distinct(held[..n]) && held[n] !in held[..n] && held == held[..n] + [held[n]]
            && log + GrantsFor(held, at) == (log + GrantsFor(held[..n], at)) + [Grant(held[n], at)]
  {
  }

  lemma InSnoc(front: seq<string>, last: string, key: string)
    ensures key in front + [last] <==> key in front || key == last
  {
  }

  lemma {:induction false} SpentWithHeld(log: seq<Grant>, held: seq<string>, at: int, key: string, w: Window)
    requires Distinct(held)
    ensures Spent(log + GrantsFor(held, at), key, w)
            == Spent(log, key, w) + if key in held && InWindow(at, w) then 1 else 0
  {
    if held == [] {
      assert log + GrantsFor(held, at) == log;
    } else {
      var n := |held| - 1;
      LastHeld(log, held, at);
      hide *;
      SpentWithHeld(log, held[..n], at, key, w);
      SpentSnoc(log + GrantsFor(held[..n], at), Grant(held[n], at), key, w);
      InSnoc(held[..n], held[n], key);
    }
  }

  /** The verdict of a check differs because of the grants held exactly when it notices them. */
  lemma NoticedExactly(log: seq<Grant>, held: seq<string>, at: int, key: string, now: int)
    requires Distinct(held)
    ensures LogOutcome(log + GrantsFor(held, at), key, now) != LogOutcome(log, key, now)
       <==> Notices(log, held, at, key, now)
  {
    SpentWithHeld(log, held, at, key, Day(DayKey(now)));
    SpentWithHeld(log, held, at, key, Week(WeekKey(now)));
    hide Spent, DayKey, WeekKey, GrantsFor;
  }

  // ----- The same run without the request's steps

  function Untouched(r: Request): Request {
    r.(progress := Checking(0))
  }

  /** One run has taken steps of request `i` that the other has not. */
  ghost predicate Twins(desk: Desk, l: Ledger, desk': Desk, l': Ledger, i: nat) {
    && Balanced(desk, l) && Balanced(desk', l')
    && (forall key :: key in l'.seen ==> key in l.seen && DayKey(l'.seen[key]) <= DayKey(l.seen[key]))
    && l'.evicted == l.evicted
    && desk'.requests == if i < |desk.requests| then desk.requests[i := Untouched(desk.requests[i])] else desk.requests
  }

  /** Request `i` names no key twice and never holds the permit. */
  predicate StaysOut(desk: Desk, i: nat) {
    i < |desk.requests| ==> Distinct(desk.requests[i].keys) && !HoldsPermit(desk.requests[i])
  }

  predicate StaysOutAlong(desk: Desk, i: nat, events: seq<Event>)
    decreases |events|
  {
    StaysOut(desk, i) && (events == [] || StaysOutAlong(Next(desk, events[0]), i, events[1..]))
  }

  function HeldBy(desk: Desk, i: nat): (seq<string>, int) {
    if i < |desk.requests| then (Charged(desk.requests[i]), desk.requests[i].now) else ([], 0)
  }

  lemma ChargedIsDistinct(r: Request)
    requires Distinct(r.keys)
    ensures Distinct(Charged(r))
  {
    var held := Charged(r);
    var start := if r.progress.Returning? then r.progress.first else 0;
    assert forall k :: 0 <= k < |held| ==> held[k] == r.keys[start + k];
  }

  lemma NoGrants(now: int, g: Grant)
    ensures Times(GrantsFor([], now), g) == 0
  {
    assert GrantsFor([], now) == [];
  }

  lemma UntouchedDrawsNothing(r: Request, g: Grant)
    ensures Drawn(Untouched(r), g) == 0
  {
    assert r.keys[..0] == [];
    NoGrants(r.now, g);
  }

  /** The logs of twins differ by what the request holds. */
  lemma LogsDiffer(desk: Desk, l: Ledger, desk': Desk, l': Ledger, i: nat, g: Grant)
    requires Twins(desk, l, desk', l', i)
    ensures Times(l.log, g) == Times(l'.log + GrantsFor(HeldBy(desk, i).0, HeldBy(desk, i).1), g)
  {
    var (held, at) := HeldBy(desk, i);
    TimesConcat(l'.log, GrantsFor(held, at), g);
    NoGrants(0, g);
    if i < |desk.requests| {
      UntouchedDrawsNothing(desk.requests[i], g);
      hide Charged, Times, GrantsFor, Refines, Untouched, WellFormed, AtMostOnePermit;
      DrawnReplaced(desk.requests, |desk.requests|, i, Untouched(desk.requests[i]), g);
    }
  }

  lemma SameLogOutcome(a: seq<Grant>, b: seq<Grant>, key: string, now: int)
    requires forall g :: Times(a, g) == Times(b, g)
    ensures LogOutcome(a, key, now) == LogOutcome(b, key, now)
  {
    hide Times, Spent, DayKey, WeekKey;
    SpentByMultiplicity(a, b, key, Day(DayKey(now)));
    SpentByMultiplicity(b, a, key, Day(DayKey(now)));
    SpentByMultiplicity(a, b, key, Week(WeekKey(now)));
    SpentByMultiplicity(b, a, key, Week(WeekKey(now)));
  }

  /** The check that an event makes for another request, if it makes one. */
  function CheckOf(desk: Desk, event: Event, i: nat): Option<Call> {
    match CallOf(desk, event)
    case Some(call) => if call.CheckCall? && event.Proceed? && event.i != i then Some(call) else None
    case None => None
  }

  predicate NoticesNow(desk: Desk, l': Ledger, i: nat, event: Event) {
    var (held, at) := HeldBy(desk, i);
    match CheckOf(desk, event, i)
    case Some(call) => Notices(l'.log, held, at, call.key, call.now)
    case None => false
  }

  /** While a request holds grants, another request's check gets a different
      verdict exactly when it notices them. */
  lemma CheckNoticesExactly(desk: Desk, l: Ledger, desk': Desk, l': Ledger, i: nat, event: Event)
    requires Twins(desk, l, desk', l', i) && StaysOut(desk, i) && OnTime(desk, l, event)
    requires CheckOf(desk, event, i).Some?
    ensures CheckOf(desk', event, i) == CheckOf(desk, event, i) && OnTime(desk', l', event)
    ensures var call := CheckOf(desk, event, i).value;
            Check(desk.entries, call.key, call.now).1 != Check(desk'.entries, call.key, call.now).1
            <==> NoticesNow(desk, l', i, event)
  {
    var call := CheckOf(desk, event, i).value;
    var (held, at) := HeldBy(desk, i);
    assert desk'.requests[event.i] == desk.requests[event.i];
    if i < |desk.requests| { ChargedIsDistinct(desk.requests[i]); }
    forall g
      ensures Times(l.log, g) == Times(l'.log + GrantsFor(held, at), g)
    {
      LogsDiffer(desk, l, desk', l', i, g);
    }
    assert Admissible(l, call) && Admissible(l', call);
    hide Check, Notices, GrantsFor, Times, DayKey, Admissible, Drawn, WellFormed, AtMostOnePermit, Charged;
    CheckRefines(desk.entries, l, call.key, call.now);
    CheckRefines(desk'.entries, l', call.key, call.now);
    SameLogOutcome(l.log, l'.log + GrantsFor(held, at), call.key, call.now);
    NoticedExactly(l'.log, held, at, call.key, call.now);
  }

  // ----- Whole runs

  lemma SeenGrows(l: Ledger, l': Ledger, call: Call)
    requires Admissible(l, call)
    requires forall key :: key in l'.seen ==> key in l.seen && DayKey(l'.seen[key]) <= DayKey(l.seen[key])
    ensures var next := NextLedger(l, call);
            && (forall key :: key in l'.seen ==> key in next.seen && DayKey(l'.seen[key]) <= DayKey(next.seen[key]))
            && (!call.EvictCall? ==> next.evicted == l.evicted)
    ensures var next, next' := NextLedger(l, call), NextLedger(l', call);
            && (forall key :: key in next'.seen ==>
              key in next.seen && DayKey(next'.seen[key]) <= DayKey(next.seen[key]))
            && (l'.evicted == l.evicted ==> next'.evicted == next.evicted)
  {
    hide DayKey, LogOutcome, Without;
  }

  lemma OwnStepKeepsTwins(desk: Desk, l: Ledger, desk': Desk, l': Ledger, i: nat, event: Event)
    requires Twins(desk, l, desk', l', i) && OnTime(desk, l, event) && event.Proceed? && event.i == i
    ensures Twins(Next(desk, event), NextBooks(desk, l, event), desk', l', i)
  {
    NextKeepsBooks(desk, l, event);
    if CallOf(desk, event).Some? {
      CallIsAdmissible(desk, l, event);
      SeenGrows(l, l', CallOf(desk, event).value);
    }
    hide Balanced, NextLedger, NextEntries, NextProgress, Admissible;
  }

  lemma SamePermit(desk: Desk, desk': Desk, i: nat)
    requires StaysOut(desk, i)
    requires desk'.requests
             == if i < |desk.requests| then desk.requests[i := Untouched(desk.requests[i])] else desk.requests
    ensures PermitTaken(desk) == PermitTaken(desk')
  {
    if PermitTaken(desk) {
      var k :| 0 <= k < |desk.requests| && HoldsPermit(desk.requests[k]);
      assert HoldsPermit(desk'.requests[k]);
    }
    if PermitTaken(desk') {
      var k :| 0 <= k < |desk'.requests| && HoldsPermit(desk'.requests[k]);
      assert HoldsPermit(desk.requests[k]);
    }
  }

  lemma SameStep(desk: Desk, l: Ledger, desk': Desk, l': Ledger, i: nat, event: Event)
    requires Twins(desk, l, desk', l', i) && StaysOut(desk, i) && OnTime(desk, l, event)
    requires event.Proceed? ==> event.i != i && event.i < |desk.requests|
    requires !NoticesNow(desk, l', i, event)
    ensures CallOf(desk', event) == CallOf(desk, event) && OnTime(desk', l', event)
    ensures event.Proceed? ==> NextProgress(desk', desk'.requests[event.i], event.ending)
                               == NextProgress(desk, desk.requests[event.i], event.ending)
  {
    if event.Proceed? {
      assert desk'.requests[event.i] == desk.requests[event.i];
      SamePermit(desk, desk', i);
      if CheckOf(desk, event, i).Some? {
        CheckNoticesExactly(desk, l, desk', l', i, event);
      }
      hide Balanced, Check, Admissible, NoticesNow, PermitTaken;
    }
  }

  lemma OtherStepKeepsTwins(desk: Desk, l: Ledger, desk': Desk, l': Ledger, i: nat, event: Event)
    requires Twins(desk, l, desk', l', i) && StaysOut(desk, i) && OnTime(desk, l, event)
    requires event.Proceed? ==> event.i != i
    requires !NoticesNow(desk, l', i, event)
    ensures OnTime(desk', l', event)
    ensures Twins(Next(desk, event), NextBooks(desk, l, event), Next(desk', event), NextBooks(desk', l', event), i)
  {
    if event.Proceed? && event.i >= |desk.requests| {
    } else {
      SameStep(desk, l, desk', l', i, event);
      NextKeepsBooks(desk, l, event);
      NextKeepsBooks(desk', l', event);
      if CallOf(desk, event).Some? {
        CallIsAdmissible(desk, l, event);
        SeenGrows(l, l', CallOf(desk, event).value);
      }
      hide Balanced, NextLedger, NextEntries, NextProgress, Admissible, NoticesNow, OnTime, StaysOut, CallOf;
      assert event.Arrive? ==>
        Next(desk', event).requests == desk'.requests + [Request(event.keys, event.now, Checking(0))];
    }
  }

  function Verdict(desk: Desk, event: Event, i: nat): seq<Outcome> {
    match CheckOf(desk, event, i)
    case Some(call) => [Check(desk.entries, call.key, call.now).1]
    case None => []
  }

  /** The verdicts that the other requests' checks get along a run. */
  function Verdicts(desk: Desk, events: seq<Event>, i: nat): seq<Outcome>
    decreases |events|
  {
    if events == [] then [] else Verdict(desk, events[0], i) + Verdicts(Next(desk, events[0]), events[1..], i)
  }

  /** The run in which request `i` arrives but never takes a step. */
  function WithoutSteps(events: seq<Event>, i: nat): seq<Event> {
    if events == [] then []
    else (if events[0].Proceed? && events[0].i == i then [] else [events[0]]) + WithoutSteps(events[1..], i)
  }

  /** Some check along the run notices what the request holds at that moment. */
  predicate NoticedAlong(desk: Desk, desk': Desk, l': Ledger, i: nat, events: seq<Event>)
    decreases |events|
  {
    events != []
    && var event := events[0];
       if event.Proceed? && event.i == i then NoticedAlong(Next(desk, event), desk', l', i, events[1..])
       else || NoticesNow(desk, l', i, event)
            || NoticedAlong(Next(desk, event), Next(desk', event), NextBooks(desk', l', event), i, events[1..])
  }

  lemma HeadsDecide(a: seq<Outcome>, b: seq<Outcome>, rest: seq<Outcome>, rest': seq<Outcome>)
    requires |a| == |b| <= 1
    ensures a + rest == b + rest' <==> a == b && rest == rest'
  {
    if a + rest == b + rest' {
      assert a == (a + rest)[..|a|] && b == (b + rest')[..|b|];
      assert rest == (a + rest)[|a|..] && rest' == (b + rest')[|b|..];
    }
  }

  lemma VerdictsDecide(desk: Desk, l: Ledger, desk': Desk, l': Ledger, i: nat, event: Event)
    requires Twins(desk, l, desk', l', i) && StaysOut(desk, i) && OnTime(desk, l, event)
    requires event.Proceed? ==> event.i != i
    ensures |Verdict(desk, event, i)| == |Verdict(desk', event, i)| <= 1
    ensures Verdict(desk, event, i) != Verdict(desk', event, i) <==> NoticesNow(desk, l', i, event)
  {
    if CheckOf(desk, event, i).Some? {
      CheckNoticesExactly(desk, l, desk', l', i, event);
    } else {
      assert event.Proceed? && event.i < |desk.requests| ==> desk'.requests[event.i] == desk.requests[event.i];
      assert CheckOf(desk', event, i).None?;
    }
  }

  lemma VerdictsStep(desk: Desk, event: Event, rest: seq<Event>, i: nat)
    ensures Verdicts(desk, [event] + rest, i) == Verdict(desk, event, i) + Verdicts(Next(desk, event), rest, i)
    ensures event.Arrive? || event.i == i ==> Verdict(desk, event, i) == []
  {
    assert ([event] + rest)[1..] == rest;
  }

  lemma AlongStep(desk: Desk, l: Ledger, i: nat, event: Event, rest: seq<Event>)
    requires OnTimeRun(desk, l, [event] + rest) && StaysOutAlong(desk, i, [event] + rest)
    ensures OnTime(desk, l, event) && StaysOut(desk, i)
    ensures OnTimeRun(Next(desk, event), NextBooks(desk, l, event), rest) && StaysOutAlong(Next(desk, event), i, rest)
  {
    assert ([event] + rest)[1..] == rest;
  }

  lemma NoticedStep(desk: Desk, desk': Desk, l': Ledger, i: nat, event: Event, rest: seq<Event>)
    ensures var own := event.Proceed? && event.i == i;
            && (NoticedAlong(desk, desk', l', i, [event] + rest)
                <==> if own then NoticedAlong(Next(desk, event), desk', l', i, rest)
                     else NoticesNow(desk, l', i, event)
                          || NoticedAlong(Next(desk, event), Next(desk', event), NextBooks(desk', l', event), i, rest))
            && WithoutSteps([event] + rest, i) == (if own then [] else [event]) + WithoutSteps(rest, i)
  {
    assert ([event] + rest)[1..] == rest;
  }

  /** A request that never gets to export leaves no trace in the verdicts of
      the others exactly when none of their checks notices a grant it holds. */
  lemma {:induction false} TraceIsExact(desk: Desk, l: Ledger, desk': Desk, l': Ledger, i: nat, events: seq<Event>)
    requires Twins(desk, l, desk', l', i) && OnTimeRun(desk, l, events) && StaysOutAlong(desk, i, events)
    ensures Verdicts(desk, events, i) != Verdicts(desk', WithoutSteps(events, i), i)
       <==> NoticedAlong(desk, desk', l', i, events)
    decreases |events|
  {
    if events != [] {
      var event, rest := events[0], events[1..];
      assert events == [event] + rest;
      hide *;
      AlongStep(desk, l, i, event, rest);
      VerdictsStep(desk, event, rest, i);
      NoticedStep(desk, desk', l', i, event, rest);
      var next := Next(desk, event);
      var bare := WithoutSteps(rest, i);
      if event.Proceed? && event.i == i {
        OwnStepKeepsTwins(desk, l, desk', l', i, event);
        TraceIsExact(next, NextBooks(desk, l, event), desk', l', i, rest);
        assert [] + bare == bare && [] + Verdicts(next, rest, i) == Verdicts(next, rest, i);
      } else {
        VerdictsStep(desk', event, bare, i);
        VerdictsDecide(desk, l, desk', l', i, event);
        var next' := Next(desk', event);
        HeadsDecide(Verdict(desk, event, i), Verdict(desk', event, i), Verdicts(next, rest, i),
          Verdicts(next', bare, i));
        if !NoticesNow(desk, l', i, event) {
          OtherStepKeepsTwins(desk, l, desk', l', i, event);
          TraceIsExact(next, NextBooks(desk, l, event), next', NextBooks(desk', l', event), i, rest);
        }
      }
    }
  }

  // ----- Requests that were refused

  /** The request has held the permit. */
  predicate WasPermitted(r: Request) {
    HoldsPermit(r) || (r.progress.Answered? && !Unpermitted(r.progress.answer))
  }

  lemma StepStays(desk: Desk, i: nat, event: Event)
    requires i < |desk.requests|
    ensures var next := Next(desk, event);
            && i < |next.requests| && next.requests[i].keys == desk.requests[i].keys
            && (WasPermitted(desk.requests[i]) ==> WasPermitted(next.requests[i]))
  {
    hide Check, NextEntries, CallOf, PermitTaken;
  }

  lemma {:induction false} RunStays(desk: Desk, i: nat, events: seq<Event>)
    requires i < |desk.requests|
    ensures var end := RunDesk(desk, events);
            && i < |end.requests| && end.requests[i].keys == desk.requests[i].keys
            && (WasPermitted(desk.requests[i]) ==> WasPermitted(end.requests[i]))
    decreases |events|
  {
    if events != [] {
      hide Next, WasPermitted;
      StepStays(desk, i, events[0]);
      RunStays(Next(desk, events[0]), i, events[1..]);
    }
  }

  lemma {:induction false} UnpermittedStaysOut(desk: Desk, i: nat, events: seq<Event>)
    requires var end := RunDesk(desk, events);
             i < |end.requests| && Distinct(end.requests[i].keys) && !WasPermitted(end.requests[i])
    ensures StaysOutAlong(desk, i, events)
    decreases |events|
  {
    if i < |desk.requests| {
      RunStays(desk, i, events);
    }
    if events != [] {
      hide Next, HoldsPermit, Distinct;
      UnpermittedStaysOut(Next(desk, events[0]), i, events[1..]);
    }
  }

  /** Under any interleaving from an empty limiter, a request of distinct keys
      that is answered RateLimited or Busy leaves a trace in the verdicts of
      the others exactly when one of their checks notices a grant it holds. */
  lemma RefusedLeavesTraceExactly(i: nat, events: seq<Event>)
    requires OnTimeRun(OPEN, NO_GRANTS, events)
    requires var end := RunDesk(OPEN, events);
             && i < |end.requests| && Distinct(end.requests[i].keys)
             && end.requests[i].progress.Answered? && Unpermitted(end.requests[i].progress.answer)
    ensures Verdicts(OPEN, events, i) != Verdicts(OPEN, WithoutSteps(events, i), i)
       <==> NoticedAlong(OPEN, OPEN, NO_GRANTS, i, events)
  {
    UnpermittedStaysOut(OPEN, i, events);
    OpeningIsBalanced();
    assert Twins(OPEN, NO_GRANTS, OPEN, NO_GRANTS, i) by { hide Balanced; }
    hide *;
    TraceIsExact(OPEN, NO_GRANTS, OPEN, NO_GRANTS, i, events);
  }
}
