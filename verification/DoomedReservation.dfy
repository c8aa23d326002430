/** A run of requests from the empty limiter in which a request is refused
    because of a reservation that is refused itself. */
module DoomedReservation {
  import opened RateLimit
  import opened Reservation
  import opened Requests
  import opened Interference

  lemma {:induction false} OneClockIsOnTime(desk: Desk, l: Ledger, now: int, events: seq<Event>)
    requires forall k :: 0 <= k < |events| && events[k].Arrive? ==> events[k].now == now
    requires forall k :: 0 <= k < |desk.requests| ==> desk.requests[k].now == now
    requires forall key :: key in l.seen ==> l.seen[key] == now
    requires l.evicted.Some? ==> l.evicted.value == now
    ensures OnTimeRun(desk, l, events)
    decreases |events|
  {
    if events != [] {
      hide Check, NextEntries, NextProgress, DayKey, LogOutcome, Without;
      OneClockIsOnTime(Next(desk, events[0]), NextBooks(desk, l, events[0]), now, events[1..]);
    }
  }

  function Counts(now: int, n: nat): WindowState {
    WindowState(DayKey(now), n, WeekKey(now), n, now)
  }

  /** Both keys with so many grants now. */
  function Budgets(now: int, a: nat, b: nat): Entries {
    if b == 0 then map["a" := Counts(now, a)] else map["a" := Counts(now, a), "b" := Counts(now, b)]
  }

  lemma BudgetsStep(now: int, a: nat, b: nat)
    requires 0 < a <= 3 && b <= 3
    ensures Evict(Budgets(now, a, b), now) == Budgets(now, a, b)
    ensures a < 3 ==> Check(Budgets(now, a, b), "a", now) == (Budgets(now, a + 1, b), Allowed)
    ensures a == 3 ==> Check(Budgets(now, a, b), "a", now) == (Budgets(now, a, b), DayExceeded)
    ensures b < 3 ==> Check(Budgets(now, a, b), "b", now) == (Budgets(now, a, b + 1), Allowed)
    ensures b == 3 ==> Check(Budgets(now, a, b), "b", now) == (Budgets(now, a, b), DayExceeded)
    ensures b == 3 ==> Release(Budgets(now, a, b), "a", now) == Budgets(now, a - 1, b)
  {
    hide DayKey, WeekKey;
    var e := Budgets(now, a, b);
    assert a < 3 ==> Check(e, "a", now).0 == Budgets(now, a + 1, b);
    assert a == 3 ==> Check(e, "a", now).0 == e;
    assert b < 3 ==> Check(e, "b", now).0 == Budgets(now, a, b + 1);
    assert b == 3 ==> Check(e, "b", now).0 == e;
  }

  lemma Associative<T>(a: seq<T>, b: seq<T>, c: seq<T>)
    ensures (a + b) + c == a + (b + c)
  {
  }

  lemma NothingFirst(desk: Desk, second: seq<Event>, i: nat)
    ensures [] + second == second && RunDesk(desk, []) == desk
    ensures Verdicts(desk, [], i) + Verdicts(desk, second, i) == Verdicts(desk, second, i)
    ensures WithoutSteps([], i) + WithoutSteps(second, i) == WithoutSteps(second, i)
  {
  }

  lemma {:induction false} RunsConcat(desk: Desk, first: seq<Event>, second: seq<Event>, i: nat)
    ensures RunDesk(desk, first + second) == RunDesk(RunDesk(desk, first), second)
    ensures Verdicts(desk, first + second, i) == Verdicts(desk, first, i) + Verdicts(RunDesk(desk, first), second, i)
    ensures WithoutSteps(first + second, i) == WithoutSteps(first, i) + WithoutSteps(second, i)
    decreases |first|
  {
    hide *;
    if first == [] {
      NothingFirst(desk, second, i);
    } else {
      var event, rest := first[0], first[1..];
      var next := Next(desk, event);
      assert first == [event] + rest;
      Associative([event], rest, second);
      RunStep(desk, event, rest);
      RunStep(desk, event, rest + second);
      VerdictsStep(desk, event, rest, i);
      VerdictsStep(desk, event, rest + second, i);
      SkipStep(event, rest, i);
      SkipStep(event, rest + second, i);
      RunsConcat(next, rest, second, i);
      Associative(Verdict(desk, event, i), Verdicts(next, rest, i), Verdicts(RunDesk(next, rest), second, i));
      Associative([event], WithoutSteps(rest, i), WithoutSteps(second, i));
    }
  }

  lemma RunStep(desk: Desk, event: Event, rest: seq<Event>)
    ensures RunDesk(desk, [event] + rest) == RunDesk(Next(desk, event), rest)
    ensures RunDesk(desk, []) == desk
  {
    assert ([event] + rest)[1..] == rest;
  }

  lemma NextArrival(entries: Entries, requests: seq<Request>, keys: seq<string>, now: int)
    requires Evict(entries, now) == entries
    ensures Next(Desk(entries, requests), Arrive(keys, now))
            == Desk(entries, requests + [Request(keys, now, Checking(0))])
  {
  }

  lemma NextDraw(entries: Entries, requests: seq<Request>, keys: seq<string>, now: int, n: nat, after: Entries)
    requires n < |keys| && Check(entries, keys[n], now) == (after, Allowed)
    ensures Next(Desk(entries, requests + [Request(keys, now, Checking(n))]), Proceed(|requests|, Sent))
            == Desk(after, requests + [Request(keys, now, Checking(n + 1))])
  {
    var r := Request(keys, now, Checking(n));
    assert (requests + [r])[|requests| := r.(progress := Checking(n + 1))]
        == requests + [r.(progress := Checking(n + 1))];
  }

  // Three requests leave one grant of key "a" and none of key "b"; then a
  // request for both keys is refused while another one asks for "a".
  const BOTH := ["a", "b"]

  function DrawsBoth(i: nat, now: int): seq<Event> {
    [Arrive(BOTH, now)] + ([Proceed(i, Sent)] + ([Proceed(i, Sent)] + []))
  }

  lemma DrawBoth(entries: Entries, requests: seq<Request>, now: int, a: nat, b: nat)
    requires a < 3 && b < 3 && Evict(entries, now) == entries
    requires if a == b == 0 then entries == map[] else a > 0 && entries == Budgets(now, a, b)
    ensures RunDesk(Desk(entries, requests), DrawsBoth(|requests|, now))
            == Desk(Budgets(now, a + 1, b + 1), requests + [Request(BOTH, now, Checking(2))])
  {
    assert Check(entries, "a", now) == (Budgets(now, a + 1, b), Allowed) by {
      if a > 0 { BudgetsStep(now, a, b); } else { FirstDraw(now); }
    }
    BudgetsStep(now, a + 1, b);
    hide Check, Evict, Budgets, Next, RunDesk;
    var after := requests + [Request(BOTH, now, Checking(1))];
    NextArrival(entries, requests, BOTH, now);
    NextDraw(entries, requests, BOTH, now, 0, Budgets(now, a + 1, b));
    NextDraw(Budgets(now, a + 1, b), requests, BOTH, now, 1, Budgets(now, a + 1, b + 1));
    var p := Proceed(|requests|, Sent);
    RunStep(Desk(entries, requests), Arrive(BOTH, now), [p] + ([p] + []));
    RunStep(Next(Desk(entries, requests), Arrive(BOTH, now)), p, [p] + []);
    RunStep(Desk(Budgets(now, a + 1, b), after), p, []);
  }

  lemma FirstDraw(now: int)
    ensures Check(map[], "a", now) == (Budgets(now, 1, 0), Allowed)
  {
    hide DayKey, WeekKey;
    assert Check(map[], "a", now).0 == Budgets(now, 1, 0);
  }

  function DrawsB(i: nat, now: int): seq<Event> {
    [Arrive(["b"], now)] + ([Proceed(i, Sent)] + [])
  }

  function Setup(now: int): seq<Event> {
    DrawsBoth(0, now) + (DrawsBoth(1, now) + DrawsB(2, now))
  }

  function Three(now: int): seq<Request> {
    [Request(BOTH, now, Checking(2))] + [Request(BOTH, now, Checking(2))] + [Request(["b"], now, Checking(1))]
  }

  lemma DrawB(requests: seq<Request>, now: int)
    ensures RunDesk(Desk(Budgets(now, 2, 2), requests), DrawsB(|requests|, now))
            == Desk(Budgets(now, 2, 3), requests + [Request(["b"], now, Checking(1))])
  {
    BudgetsStep(now, 2, 2);
    var desk, p := Desk(Budgets(now, 2, 2), requests), Proceed(|requests|, Sent);
    hide Check, Evict, Budgets, RunDesk, Next;
    NextArrival(Budgets(now, 2, 2), requests, ["b"], now);
    NextDraw(Budgets(now, 2, 2), requests, ["b"], now, 0, Budgets(now, 2, 3));
    RunStep(desk, Arrive(["b"], now), [p] + []);
    RunStep(Next(desk, Arrive(["b"], now)), p, []);
  }

  lemma ThreeAre(now: int)
    ensures var none: seq<Request> := [];
            var one := none + [Request(BOTH, now, Checking(2))];
            var two := one + [Request(BOTH, now, Checking(2))];
            && |one| == 1 && |two| == 2 && Evict(map[], now) == map[] && OPEN == Desk(map[], none)
            && two + [Request(["b"], now, Checking(1))] == Three(now)
    ensures Setup(now) == DrawsBoth(0, now) + (DrawsBoth(1, now) + DrawsB(2, now))
  {
  }

  lemma AfterSetup(now: int)
    ensures RunDesk(OPEN, Setup(now)) == Desk(Budgets(now, 2, 3), Three(now))
  {
    hide *;
    var none: seq<Request> := [];
    var one := none + [Request(BOTH, now, Checking(2))];
    var two := one + [Request(BOTH, now, Checking(2))];
    ThreeAre(now);
    BudgetsStep(now, 1, 1);
    BudgetsStep(now, 2, 2);
    DrawBoth(map[], none, now, 0, 0);
    DrawBoth(Budgets(now, 1, 1), one, now, 1, 1);
    DrawB(two, now);
    RunsConcat(OPEN, DrawsBoth(0, now), DrawsBoth(1, now) + DrawsB(2, now), 3);
    RunsConcat(Desk(Budgets(now, 1, 1), one), DrawsBoth(1, now), DrawsB(2, now), 3);
  }

  function Doomed(now: int): seq<Event> {
    var own := Proceed(3, Sent);
    [Arrive(BOTH, now)] + ([own] + ([Arrive(["a"], now)] + ([Proceed(4, Sent)] + ([own] + ([own] + ([own] + []))))))
  }

  function Crowd(now: int, doomed: Progress, other: Progress): seq<Request> {
    Three(now) + [Request(BOTH, now, doomed), Request(["a"], now, other)]
  }

  lemma NextRefusal(now: int, doomed: Progress, other: Progress, b: nat)
    requires b == 3
    ensures var wait := RetryAfterFor(DayExceeded, now);
            var desk := Desk(Budgets(now, 3, b), Crowd(now, doomed, other));
            && (other == Checking(0) ==>
                  && Next(desk, Proceed(4, Sent))
                    == desk.(requests := Crowd(now, doomed, Returning(0, 0, RateLimited(wait))))
                  && Verdict(desk, Proceed(4, Sent), 3) == [DayExceeded])
            && (doomed == Checking(1) ==>
                  Next(desk, Proceed(3, Sent))
                    == desk.(requests := Crowd(now, Returning(0, 1, RateLimited(wait)), other)))
            && (doomed == Returning(0, 1, RateLimited(wait)) ==>
                  Next(desk, Proceed(3, Sent))
                  == Desk(Budgets(now, 2, 3), Crowd(now, Returning(1, 1, RateLimited(wait)), other)))
    ensures var wait := RetryAfterFor(DayExceeded, now);
            doomed == Returning(1, 1, RateLimited(wait)) ==>
              Next(Desk(Budgets(now, 2, 3), Crowd(now, doomed, other)), Proceed(3, Sent))
              == Desk(Budgets(now, 2, 3), Crowd(now, Answered(RateLimited(wait)), other))
  {
    BudgetsStep(now, 3, 3);
    hide Check, Evict, Release, Budgets, RetryAfterFor;
    var crowd := Crowd(now, doomed, other);
    assert |crowd| == 5 && crowd[3] == Request(BOTH, now, doomed) && crowd[4] == Request(["a"], now, other);
    forall p: Progress
      ensures crowd[3 := crowd[3].(progress := p)] == Crowd(now, p, other)
      ensures crowd[4 := crowd[4].(progress := p)] == Crowd(now, doomed, p)
    {
    }
  }

  /** One more step at the front of a run. */
  lemma Onward(desk: Desk, event: Event, next: Desk, verdict: seq<Outcome>, rest: seq<Event>, end: Desk,
        verdicts: seq<Outcome>)
    requires Next(desk, event) == next && RunDesk(next, rest) == end && Verdicts(next, rest, 3) == verdicts
    requires if event.Arrive? || event.i == 3 then verdict == [] else Verdict(desk, event, 3) == verdict
    ensures RunDesk(desk, [event] + rest) == end && Verdicts(desk, [event] + rest, 3) == verdict + verdicts
  {
    hide *;
    RunStep(desk, event, rest);
    VerdictsStep(desk, event, rest, 3);
  }

  lemma CrowdGathers(now: int, doomed: Progress, other: Progress)
    ensures var three := Three(now);
            && |three| == 3
            && (three + [Request(BOTH, now, doomed)]) + [Request(["a"], now, other)] == Crowd(now, doomed, other)
  {
  }

  lemma RunEnds(desk: Desk)
    ensures RunDesk(desk, []) == desk && Verdicts(desk, [], 3) == []
  {
  }

  lemma DoomedEnds(now: int)
    ensures var wait := RetryAfterFor(DayExceeded, now);
            var start := Desk(Budgets(now, 2, 3), Three(now));
            && RunDesk(start, Doomed(now))
               == start.(requests := Crowd(now, Answered(RateLimited(wait)), Returning(0, 0, RateLimited(wait))))
            && Verdicts(start, Doomed(now), 3) == [DayExceeded]
  {
    var own, refused := Proceed(3, Sent), RateLimited(RetryAfterFor(DayExceeded, now));
    var other := Returning(0, 0, refused);
    var full, open := Budgets(now, 3, 3), Budgets(now, 2, 3);
    var three, both, a := Three(now), Arrive(BOTH, now), Arrive(["a"], now);
    BudgetsStep(now, 2, 3);
    BudgetsStep(now, 3, 3);
    var d0, d1, d2 := Desk(open, three), Desk(open, three + [Request(BOTH, now, Checking(0))]),
      Desk(full, three + [Request(BOTH, now, Checking(1))]);
    var d3, d4 := Desk(full, Crowd(now, Checking(1), Checking(0))), Desk(full, Crowd(now, Checking(1), other));
    var d5, d6 := Desk(full, Crowd(now, Returning(0, 1, refused), other)),
      Desk(open, Crowd(now, Returning(1, 1, refused), other));
    var d7 := Desk(open, Crowd(now, Answered(refused), other));
    assert Doomed(now) == [both] + ([own] + ([a] + ([Proceed(4, Sent)] + ([own] + ([own] + ([own] + []))))));
    assert d0.(requests := Crowd(now, Answered(refused), other)) == d7;
    CrowdGathers(now, Checking(1), Checking(0));
    NextArrival(open, three, BOTH, now);
    NextDraw(open, three, BOTH, now, 0, full);
    NextArrival(full, d2.requests, ["a"], now);
    NextRefusal(now, Checking(1), Checking(0), 3);
    NextRefusal(now, Checking(1), other, 3);
    NextRefusal(now, Returning(0, 1, refused), other, 3);
    NextRefusal(now, Returning(1, 1, refused), other, 3);
    hide *;
    RunEnds(d7);
    Onward(d6, own, d7, [], [], d7, []);
    Onward(d5, own, d6, [], [own] + [], d7, []);
    Onward(d4, own, d5, [], [own] + ([own] + []), d7, []);
    Onward(d3, Proceed(4, Sent), d4, [DayExceeded], [own] + ([own] + ([own] + [])), d7, []);
    var rest := [Proceed(4, Sent)] + ([own] + ([own] + ([own] + [])));
    Onward(d2, a, d3, [], rest, d7, [DayExceeded]);
    Onward(d1, own, d2, [], [a] + rest, d7, [DayExceeded]);
    Onward(d0, both, d1, [], [own] + ([a] + rest), d7, [DayExceeded]);
  }

  lemma SkipStep(event: Event, rest: seq<Event>, i: nat)
    ensures WithoutSteps([event] + rest, i)
            == if event.Proceed? && event.i == i then WithoutSteps(rest, i) else [event] + WithoutSteps(rest, i)
    ensures WithoutSteps([], i) == []
  {
    assert ([event] + rest)[1..] == rest;
  }

  lemma {:induction false} NothingToSkip(events: seq<Event>, i: nat)
    requires forall k :: 0 <= k < |events| && events[k].Proceed? ==> events[k].i != i
    ensures WithoutSteps(events, i) == events
  {
    if events != [] {
      NothingToSkip(events[1..], i);
    }
  }

  lemma SkipDoomed(now: int)
    ensures WithoutSteps(Setup(now), 3) == Setup(now)
    ensures WithoutSteps(Doomed(now), 3) == [Arrive(BOTH, now)] + ([Arrive(["a"], now)] + ([Proceed(4, Sent)] + []))
  {
    var own, both, a := Proceed(3, Sent), Arrive(BOTH, now), Arrive(["a"], now);
    var setup := Setup(now);
    assert forall k :: 0 <= k < |setup| && setup[k].Proceed? ==> setup[k].i < 3;
    assert Doomed(now) == [both] + ([own] + ([a] + ([Proceed(4, Sent)] + ([own] + ([own] + ([own] + []))))));
    hide *;
    NothingToSkip(setup, 3);
    SkipStep(own, [], 3);
    SkipStep(own, [own] + [], 3);
    SkipStep(own, [own] + ([own] + []), 3);
    var rest := [own] + ([own] + ([own] + []));
    SkipStep(Proceed(4, Sent), rest, 3);
    SkipStep(a, [Proceed(4, Sent)] + rest, 3);
    SkipStep(own, [a] + ([Proceed(4, Sent)] + rest), 3);
    SkipStep(both, [own] + ([a] + ([Proceed(4, Sent)] + rest)), 3);
  }

  lemma WithoutDoomed(now: int)
    ensures Verdicts(Desk(Budgets(now, 2, 3), Three(now)), WithoutSteps(Doomed(now), 3), 3) == [Allowed]
  {
    var three, both, a := Three(now), Arrive(BOTH, now), Arrive(["a"], now);
    var full, open := Budgets(now, 3, 3), Budgets(now, 2, 3);
    BudgetsStep(now, 2, 3);
    SkipDoomed(now);
    var d0, d1 := Desk(open, three), Desk(open, three + [Request(BOTH, now, Checking(0))]);
    var d2, d3 := Desk(open, Crowd(now, Checking(0), Checking(0))), Desk(full, Crowd(now, Checking(0), Checking(1)));
    CrowdGathers(now, Checking(0), Checking(0));
    NextArrival(open, three, BOTH, now);
    NextArrival(open, d1.requests, ["a"], now);
    NextDraw(open, d1.requests, ["a"], now, 0, full);
    CrowdGathers(now, Checking(0), Checking(1));
    assert Verdict(d2, Proceed(4, Sent), 3) == [Allowed] by {
      assert d2.requests[4] == Request(["a"], now, Checking(0));
      hide Check, Budgets;
    }
    hide *;
    RunEnds(d3);
    Onward(d2, Proceed(4, Sent), d3, [Allowed], [], d3, []);
    Onward(d1, a, d2, [], [Proceed(4, Sent)] + [], d3, [Allowed]);
    Onward(d0, both, d1, [], [a] + ([Proceed(4, Sent)] + []), d3, [Allowed]);
  }

  /** The run is made of one moment's requests to the empty limiter: the fourth
      request is refused, and because of it the fifth one is as well. */
  lemma RefusedReservationCanRefuseAnother(now: int)
    ensures var events := Setup(now) + Doomed(now);
            var end := RunDesk(OPEN, events);
            var wait := RetryAfterFor(DayExceeded, now);
            && OnTimeRun(OPEN, NO_GRANTS, events)
            && end.requests == Crowd(now, Answered(RateLimited(wait)), Returning(0, 0, RateLimited(wait)))
            && Verdicts(OPEN, events, 3) == Verdicts(OPEN, Setup(now), 3) + [DayExceeded]
            && Verdicts(OPEN, WithoutSteps(events, 3), 3) == Verdicts(OPEN, Setup(now), 3) + [Allowed]
  {
    var setup, doomed := Setup(now), Doomed(now);
    var events := setup + doomed;
    assert forall k :: 0 <= k < |events| && events[k].Arrive? ==> events[k].now == now;
    OneClockIsOnTime(OPEN, NO_GRANTS, now, events);
    hide *;
    AfterSetup(now);
    RunsConcat(OPEN, setup, doomed, 3);
    RunsConcat(OPEN, setup, WithoutSteps(doomed, 3), 3);
    DoomedEnds(now);
    WithoutDoomed(now);
    SkipDoomed(now);
  }
}
