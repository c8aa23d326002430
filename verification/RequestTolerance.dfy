/** How much disorder of clocks the budgets of requests tolerate, exactly: runs
    of requests that overspend, and why there are none within the bounds. */
module RequestTolerance {
  import opened Wrappers
  import opened RateLimit
  import opened Requests
  import opened LimiterTolerance

  /** Checks may fall back by so many days, and so many seconds behind an eviction. */
  predicate OnTimeWithin(desk: Desk, l: Ledger, event: Event, slack: Slack) {
    match CallOf(desk, event)
    case Some(call) => call.CheckCall? ==> AdmissibleWithin(l, call, slack)
    case None => true
  }

  predicate OnTimeRunWithin(desk: Desk, l: Ledger, events: seq<Event>, slack: Slack)
    decreases |events|
  {
    events == []
    || (OnTimeWithin(desk, l, events[0], slack)
        && OnTimeRunWithin(Next(desk, events[0]), NextBooks(desk, l, events[0]), events[1..], slack))
  }

  /** In every such run from the start, no key is ever served beyond its budget. */
  ghost predicate DeliveriesFit(slack: Slack) {
    forall events, key, w :: OnTimeRunWithin(OPEN, NO_GRANTS, events, slack)
      ==> Spent(AllGrants(RunDesk(OPEN, events).requests, {Delivered}), key, w) <= Budget(w)
  }

  // ----- Within the bounds

  /** Requests evict at their own time when they arrive, so no check is ahead of all evictions. */
  predicate Stamped(desk: Desk, l: Ledger) {
    && (forall r :: r in desk.requests ==> l.evicted.Some? && r.now <= l.evicted.value)
    && (forall key :: key in l.seen ==> l.evicted.Some? && l.seen[key] <= l.evicted.value)
  }

  lemma NextStaysStamped(desk: Desk, l: Ledger, event: Event)
    requires Stamped(desk, l)
    ensures Stamped(Next(desk, event), NextBooks(desk, l, event))
  {
    hide NextEntries, NextProgress, LogOutcome, Without;
    match event
    case Arrive(_, _) =>
    case Proceed(i, ending) =>
      if i < |desk.requests| {
        assert desk.requests[i] in desk.requests;
        var requests := Next(desk, event).requests;
        forall r | r in requests
          ensures l.evicted.Some? && r.now <= l.evicted.value
        {
          var k :| 0 <= k < |requests| && requests[k] == r;
          assert desk.requests[k] in desk.requests && r.now == desk.requests[k].now;
        }
      }
  }

  lemma {:induction false} WithinBoundsIsOnTime(desk: Desk, l: Ledger, events: seq<Event>, slack: Slack)
    requires slack.lead <= MAX_LEAD && (slack.days == 0 || slack.lead <= 0)
    requires Stamped(desk, l) && OnTimeRunWithin(desk, l, events, slack)
    ensures OnTimeRun(desk, l, events)
    decreases |events|
  {
    if events != [] {
      NextStaysStamped(desk, l, events[0]);
      assert OnTime(desk, l, events[0]) by {
        if CallOf(desk, events[0]).Some? && CallOf(desk, events[0]).value.CheckCall? {
          var call := CallOf(desk, events[0]).value;
          if call.key in l.seen && l.seen[call.key] <= call.now {
            KeysAscend(l.seen[call.key], call.now);
          }
        }
      }
      hide Stamped, OnTime, OnTimeWithin, Next, NextBooks;
      WithinBoundsIsOnTime(Next(desk, events[0]), NextBooks(desk, l, events[0]), events[1..], slack);
    }
  }

  // ----- Requests for one key served one after the other

  const ONE_KEY := ["k"]

  /** A request arrives, draws on its key, takes the permit and is served. */
  function Serve(i: nat, now: int): seq<Event> {
    var step := Proceed(i, Sent);
    [Arrive(ONE_KEY, now)] + ([step] + ([step] + ([step] + [])))
  }

  function ServeAll(i: nat, stamps: seq<int>): seq<Event>
    decreases |stamps|
  {
    if stamps == [] then [] else Serve(i, stamps[0]) + ServeAll(i + 1, stamps[1..])
  }

  function Served(stamps: seq<int>): seq<Request> {
    seq(|stamps|, k requires 0 <= k < |stamps| => Request(ONE_KEY, stamps[k], Answered(Delivered)))
  }

  /** The limiter after them, each arriving and drawing at its time. */
  function EntriesAfter(entries: Entries, stamps: seq<int>): Entries
    decreases |stamps|
  {
    if stamps == [] then entries
    else EntriesAfter(Check(Evict(entries, stamps[0]), "k", stamps[0]).0, stamps[1..])
  }

  predicate AllPass(entries: Entries, stamps: seq<int>)
    decreases |stamps|
  {
    stamps == []
    || (var (after, outcome) := Check(Evict(entries, stamps[0]), "k", stamps[0]);
        outcome == Allowed && AllPass(after, stamps[1..]))
  }

  /** The clocks that decide whether a check is on time. */
  datatype Clocks = Clocks(seen: Option<int>, evicted: Option<int>)

  predicate Shows(l: Ledger, c: Clocks) {
    c.evicted == l.evicted && c.seen == if "k" in l.seen then Some(l.seen["k"]) else None
  }

  function Latest(evicted: Option<int>, now: int): int {
    if evicted.Some? && evicted.value > now then evicted.value else now
  }

  predicate Timely(c: Clocks, stamps: seq<int>, slack: Slack)
    decreases |stamps|
  {
    stamps == []
    || (var now, evicted := stamps[0], Latest(c.evicted, stamps[0]);
        && (c.seen.Some? ==> DayKey(c.seen.value) - slack.days <= DayKey(now))
        && evicted - slack.lead <= now
        && Timely(Clocks(Some(now), Some(evicted)), stamps[1..], slack))
  }

  function ClocksAfter(c: Clocks, stamps: seq<int>): Clocks
    decreases |stamps|
  {
    if stamps == [] then c
    else ClocksAfter(Clocks(Some(stamps[0]), Some(Latest(c.evicted, stamps[0]))), stamps[1..])
  }

  predicate NoneHolds(requests: seq<Request>) {
    forall r :: r in requests ==> !HoldsPermit(r)
  }

  lemma WithStep(requests: seq<Request>, r: Request, p: Progress)
    ensures (requests + [r])[|requests| := r.(progress := p)] == requests + [r.(progress := p)]
  {
  }

  /** The steps of a request that finds the permit free. */
  lemma StepsOf(entries: Entries, requests: seq<Request>, now: int)
    requires NoneHolds(requests)
    ensures var checked := requests + [Request(ONE_KEY, now, Checking(1))];
            var exporting := requests + [Request(ONE_KEY, now, Exporting)];
            && Next(Desk(entries, checked), Proceed(|requests|, Sent)) == Desk(entries, exporting)
            && CallOf(Desk(entries, checked), Proceed(|requests|, Sent)) == None
            && Next(Desk(entries, exporting), Proceed(|requests|, Sent))
               == Desk(entries, requests + Served([now]))
            && CallOf(Desk(entries, exporting), Proceed(|requests|, Sent)) == None
  {
    var checked := requests + [Request(ONE_KEY, now, Checking(1))];
    WithStep(requests, Request(ONE_KEY, now, Checking(1)), Exporting);
    WithStep(requests, Request(ONE_KEY, now, Exporting), Answered(Delivered));
    assert !PermitTaken(Desk(entries, checked)) by {
      forall i | 0 <= i < |checked|
        ensures !HoldsPermit(checked[i])
      {
        assert i < |requests| ==> checked[i] == requests[i] && requests[i] in requests;
      }
    }
    assert Served([now]) == [Request(ONE_KEY, now, Answered(Delivered))];
  }

  lemma Arrives(entries: Entries, requests: seq<Request>, l: Ledger, keys: seq<string>, now: int, slack: Slack)
    ensures var desk, l' := Desk(entries, requests), NextBooks(Desk(entries, requests), l, Arrive(keys, now));
            && Next(desk, Arrive(keys, now)) == Desk(Evict(entries, now), requests + [Request(keys, now, Checking(0))])
            && OnTimeWithin(desk, l, Arrive(keys, now), slack)
            && l'.seen == l.seen && l'.log == l.log && l'.evicted == Some(Latest(l.evicted, now))
  {
    hide Evict;
  }

  lemma Draws(entries: Entries, requests: seq<Request>, now: int)
    requires Check(entries, "k", now).1 == Allowed
    ensures var desk := Desk(entries, requests + [Request(ONE_KEY, now, Checking(0))]);
            && CallOf(desk, Proceed(|requests|, Sent)) == Some(CheckCall("k", now))
            && Next(desk, Proceed(|requests|, Sent))
               == Desk(Check(entries, "k", now).0, requests + [Request(ONE_KEY, now, Checking(1))])
  {
    hide Check;
    WithStep(requests, Request(ONE_KEY, now, Checking(0)), Checking(1));
  }

  lemma RunsOnward(desk: Desk, l: Ledger, event: Event, rest: seq<Event>, slack: Slack)
    ensures var next, l' := Next(desk, event), NextBooks(desk, l, event);
            && RunDesk(desk, [event] + rest) == RunDesk(next, rest)
            && RunBooks(desk, l, [event] + rest) == RunBooks(next, l', rest)
            && (OnTimeRunWithin(desk, l, [event] + rest, slack)
                <==> OnTimeWithin(desk, l, event, slack) && OnTimeRunWithin(next, l', rest, slack))
    ensures RunDesk(desk, []) == desk && RunBooks(desk, l, []) == l && OnTimeRunWithin(desk, l, [], slack)
  {
    assert ([event] + rest)[1..] == rest;
  }

  lemma {:induction false} RunsJoin(desk: Desk, l: Ledger, first: seq<Event>, second: seq<Event>, slack: Slack)
    ensures var mid, l' := RunDesk(desk, first), RunBooks(desk, l, first);
            && RunDesk(desk, first + second) == RunDesk(mid, second)
            && RunBooks(desk, l, first + second) == RunBooks(mid, l', second)
            && (OnTimeRunWithin(desk, l, first + second, slack)
                <==> OnTimeRunWithin(desk, l, first, slack) && OnTimeRunWithin(mid, l', second, slack))
    decreases |first|
  {
    if first == [] {
      assert first + second == second;
    } else {
      assert first == [first[0]] + first[1..] && first + second == [first[0]] + (first[1..] + second);
      hide *;
      RunsOnward(desk, l, first[0], first[1..], slack);
      RunsOnward(desk, l, first[0], first[1..] + second, slack);
      RunsJoin(Next(desk, first[0]), NextBooks(desk, l, first[0]), first[1..], second, slack);
    }
  }

  lemma OneIsServed(entries: Entries, requests: seq<Request>, l: Ledger, c: Clocks, now: int, slack: Slack)
    requires NoneHolds(requests) && Shows(l, c) && AllPass(entries, [now]) && Timely(c, [now], slack)
    ensures var desk, events := Desk(entries, requests), Serve(|requests|, now);
            && RunDesk(desk, events) == Desk(EntriesAfter(entries, [now]), requests + Served([now]))
            && OnTimeRunWithin(desk, l, events, slack)
            && Shows(RunBooks(desk, l, events), ClocksAfter(c, [now]))
  {
    var step, cleared := Proceed(|requests|, Sent), Evict(entries, now);
    var d0, d1 := Desk(entries, requests), Desk(cleared, requests + [Request(ONE_KEY, now, Checking(0))]);
    var after := Check(cleared, "k", now).0;
    var d2, d3 := Desk(after, requests + [Request(ONE_KEY, now, Checking(1))]),
      Desk(after, requests + [Request(ONE_KEY, now, Exporting)]);
    assert [now][1..] == [];
    assert EntriesAfter(entries, [now]) == EntriesAfter(after, [now][1..]) == after;
    assert ClocksAfter(c, [now]) == ClocksAfter(Clocks(Some(now), Some(Latest(c.evicted, now))), [now][1..]);
    Arrives(entries, requests, l, ONE_KEY, now, slack);
    Draws(cleared, requests, now);
    StepsOf(after, requests, now);
    var l1 := NextBooks(d0, l, Arrive(ONE_KEY, now));
    var l2 := NextBooks(d1, l1, step);
    hide Check, Evict, Served, LogOutcome, Next;
    assert l2 == NextLedger(l1, CheckCall("k", now)) && Shows(l2, ClocksAfter(c, [now]));
    assert Timely(c, [now], slack) && OnTimeWithin(d1, l1, step, slack);
    assert NextBooks(d2, l2, step) == l2 && NextBooks(d3, l2, step) == l2;
    assert OnTimeWithin(d2, l2, step, slack) && OnTimeWithin(d3, l2, step, slack);
    hide *;
    RunsOnward(d3, l2, step, [], slack);
    RunsOnward(Desk(after, requests + Served([now])), l2, step, [], slack);
    RunsOnward(d2, l2, step, [step] + [], slack);
    RunsOnward(d1, l1, step, [step] + ([step] + []), slack);
    RunsOnward(d0, l, Arrive(ONE_KEY, now), [step] + ([step] + ([step] + [])), slack);
    ServeIs(|requests|, now);
  }

  lemma ServeIs(i: nat, now: int)
    ensures var step := Proceed(i, Sent); Serve(i, now) == [Arrive(ONE_KEY, now)] + ([step] + ([step] + ([step] + [])))
  {
  }

  lemma {:induction false} AllAreServed(entries: Entries, requests: seq<Request>, i: nat, l: Ledger, c: Clocks,
      stamps: seq<int>, slack: Slack)
    requires i == |requests| && NoneHolds(requests) && Shows(l, c)
    requires AllPass(entries, stamps) && Timely(c, stamps, slack)
    ensures var desk, events := Desk(entries, requests), ServeAll(i, stamps);
            && RunDesk(desk, events) == Desk(EntriesAfter(entries, stamps), requests + Served(stamps))
            && OnTimeRunWithin(desk, l, events, slack)
            && Shows(RunBooks(desk, l, events), ClocksAfter(c, stamps))
    decreases |stamps|
  {
    var desk := Desk(entries, requests);
    if stamps == [] {
      assert requests + Served(stamps) == requests;
    } else {
      var now, rest := stamps[0], stamps[1..];
      FirstOfAll(entries, c, stamps, slack);
      assert requests + Served(stamps) == (requests + Served([now])) + Served(rest);
      assert NoneHolds(requests + Served([now]));
      hide *;
      OneIsServed(entries, requests, l, c, now, slack);
      var l' := RunBooks(desk, l, Serve(i, now));
      assert |requests + Served([now])| == i + 1 by { OneMore(requests, now); }
      AllAreServed(EntriesAfter(entries, [now]), requests + Served([now]), i + 1, l', ClocksAfter(c, [now]), rest,
        slack);
      RunsJoin(desk, l, Serve(i, now), ServeAll(i + 1, rest), slack);
      ServeFirst(i, stamps);
    }
  }

  lemma OneMore(requests: seq<Request>, now: int)
    ensures |requests + Served([now])| == |requests| + 1
  {
  }

  lemma ServeFirst(i: nat, stamps: seq<int>)
    requires stamps != []
    ensures ServeAll(i, stamps) == Serve(i, stamps[0]) + ServeAll(i + 1, stamps[1..])
  {
  }

  lemma FirstOfAll(entries: Entries, c: Clocks, stamps: seq<int>, slack: Slack)
    requires stamps != []
    ensures var (now, rest) := (stamps[0], stamps[1..]);
            && (AllPass(entries, stamps) <==> AllPass(entries, [now]) && AllPass(EntriesAfter(entries, [now]), rest))
            && EntriesAfter(entries, stamps) == EntriesAfter(EntriesAfter(entries, [now]), rest)
            && (Timely(c, stamps, slack) <==> Timely(c, [now], slack) && Timely(ClocksAfter(c, [now]), rest, slack))
            && ClocksAfter(c, stamps) == ClocksAfter(ClocksAfter(c, [now]), rest)
  {
    assert [stamps[0]][1..] == [];
    hide Check, Evict, DayKey;
  }

  // ----- How much was delivered

  function CountIn(stamps: seq<int>, w: Window): nat {
    if stamps == [] then 0 else (if InWindow(stamps[0], w) then 1 else 0) + CountIn(stamps[1..], w)
  }

  function SpentBy(requests: seq<Request>, w: Window): nat {
    Spent(AllGrants(requests, {Delivered}), "k", w)
  }

  lemma {:induction false} GrantsOfPrefix(requests: seq<Request>, r: Request, n: nat, answers: set<Answer>)
    requires n <= |requests|
    ensures GrantsOfFirst(requests + [r], n, answers) == GrantsOfFirst(requests, n, answers)
  {
    if n > 0 {
      GrantsOfPrefix(requests, r, n - 1, answers);
    }
  }

  lemma DeliveredSnoc(requests: seq<Request>, r: Request, w: Window)
    requires r.keys == ONE_KEY
    ensures SpentBy(requests + [r], w)
            == SpentBy(requests, w) + if r.progress == Answered(Delivered) && InWindow(r.now, w) then 1 else 0
  {
    var earlier := AllGrants(requests, {Delivered});
    GrantsOfPrefix(requests, r, |requests|, {Delivered});
    assert GrantsOf(r, {Delivered}) == if r.progress == Answered(Delivered) then [Grant("k", r.now)] else [];
    assert AllGrants(requests + [r], {Delivered}) == earlier + GrantsOf(r, {Delivered});
    SpentSnoc(earlier, Grant("k", r.now), "k", w);
    assert earlier + [] == earlier;
  }

  lemma {:induction false} DeliveredAll(requests: seq<Request>, stamps: seq<int>, w: Window)
    ensures SpentBy(requests + Served(stamps), w) == SpentBy(requests, w) + CountIn(stamps, w)
    decreases |stamps|
  {
    if stamps == [] {
      assert requests + Served(stamps) == requests;
    } else {
      var r := Request(ONE_KEY, stamps[0], Answered(Delivered));
      assert requests + Served(stamps) == (requests + [r]) + Served(stamps[1..]);
      hide SpentBy, InWindow;
      DeliveredSnoc(requests, r, w);
      DeliveredAll(requests + [r], stamps[1..], w);
    }
  }

  // ----- Falling back over midnight

  /** The second request is stamped in the last second of Monday. */
  const ACROSS_MIDNIGHT := [TUESDAY, TUESDAY - 1, TUESDAY, TUESDAY, TUESDAY]

  lemma Keeps(state: WindowState, now: int)
    requires now - state.lastSeen <= STALE_AFTER_SECS
    ensures var entries: Entries := map["k" := state];
            Evict(entries, now) == entries
  {
  }

  /** One more draw on a day of a week with so many grants. */
  lemma DrawPasses(state: WindowState, now: int, rest: seq<int>)
    requires now - state.lastSeen <= STALE_AFTER_SECS
    requires var e := Rolled(state, now); e.dayCount < 3 && e.weekCount < 5
    ensures var e := Rolled(state, now);
            AllPass(map["k" := WindowState(e.dayKey, e.dayCount + 1, e.weekKey, e.weekCount + 1, now)], rest)
            ==> AllPass(map["k" := state], [now] + rest)
  {
    var e := Rolled(state, now);
    var entries: Entries := map["k" := state];
    Keeps(state, now);
    assert ([now] + rest)[1..] == rest;
    assert Check(entries, "k", now).0
        == map["k" := WindowState(e.dayKey, e.dayCount + 1, e.weekKey, e.weekCount + 1, now)];
  }

  lemma FirstPasses(now: int, rest: seq<int>)
    ensures AllPass(map["k" := WindowState(DayKey(now), 1, WeekKey(now), 1, now)], rest) ==>
            AllPass(map[], [now] + rest)
  {
    var none: Entries := map[];
    assert ([now] + rest)[1..] == rest;
    assert Evict(none, now) == none;
    assert Check(none, "k", now).0 == map["k" := WindowState(DayKey(now), 1, WeekKey(now), 1, now)];
  }

  lemma TuesdayPasses()
    ensures AllPass(map["k" := WindowState(4, 1, 1, 2, TUESDAY - 1)], [TUESDAY] + ([TUESDAY] + [TUESDAY]))
  {
    assert DayKey(TUESDAY) == 5 && WeekKey(TUESDAY) == 1;
    assert [TUESDAY] + [] == [TUESDAY];
    hide AllPass, DayKey, WeekKey;
    AllPassNone(map["k" := WindowState(5, 3, 1, 5, TUESDAY)]);
    DrawPasses(WindowState(5, 2, 1, 4, TUESDAY), TUESDAY, []);
    DrawPasses(WindowState(5, 1, 1, 3, TUESDAY), TUESDAY, [TUESDAY]);
    DrawPasses(WindowState(4, 1, 1, 2, TUESDAY - 1), TUESDAY, [TUESDAY] + [TUESDAY]);
  }

  lemma AcrossMidnightPasses()
    ensures AllPass(map[], ACROSS_MIDNIGHT)
  {
    assert DayKey(TUESDAY) == 5 && WeekKey(TUESDAY) == 1 && DayKey(TUESDAY - 1) == 4 && WeekKey(TUESDAY - 1) == 1;
    var three := [TUESDAY] + ([TUESDAY] + [TUESDAY]);
    assert ACROSS_MIDNIGHT == [TUESDAY] + ([TUESDAY - 1] + three);
    hide AllPass, DayKey, WeekKey;
    TuesdayPasses();
    DrawPasses(WindowState(5, 1, 1, 1, TUESDAY), TUESDAY - 1, three);
    FirstPasses(TUESDAY, [TUESDAY - 1] + three);
  }

  lemma AllPassNone(entries: Entries)
    ensures AllPass(entries, [])
  {
  }

  lemma TimelyStep(c: Clocks, now: int, rest: seq<int>, slack: Slack)
    requires c.seen.Some? ==> DayKey(c.seen.value) - slack.days <= DayKey(now)
    requires Latest(c.evicted, now) - slack.lead <= now
    ensures Timely(Clocks(Some(now), Some(Latest(c.evicted, now))), rest, slack) ==> Timely(c, [now] + rest, slack)
    ensures Timely(c, [], slack)
  {
    assert ([now] + rest)[1..] == rest;
  }

  lemma AcrossMidnightIsTimely(slack: Slack)
    requires slack.days > 0 && slack.lead > 0
    ensures Timely(Clocks(None, None), ACROSS_MIDNIGHT, slack)
  {
    assert DayKey(TUESDAY) == 5 && DayKey(TUESDAY - 1) == 4;
    var three, two, one: seq<int> := [TUESDAY] + ([TUESDAY] + [TUESDAY]), [TUESDAY] + [TUESDAY], [TUESDAY] + [];
    hide Timely, DayKey;
    var tuesday, monday := Clocks(Some(TUESDAY), Some(TUESDAY)), Clocks(Some(TUESDAY - 1), Some(TUESDAY));
    TimelyStep(tuesday, TUESDAY, [], slack);
    TimelyStep(tuesday, TUESDAY, one, slack);
    TimelyStep(monday, TUESDAY, two, slack);
    TimelyStep(tuesday, TUESDAY - 1, three, slack);
    TimelyStep(Clocks(None, None), TUESDAY, [TUESDAY - 1] + three, slack);
    assert one == [TUESDAY] && ACROSS_MIDNIGHT == [TUESDAY] + ([TUESDAY - 1] + three);
  }

  /** Five requests, each served before the next arrives; the second one is
      stamped a second earlier than the others, and four are served on one day. */
  lemma FourServedOnTuesday(slack: Slack)
    requires slack.days > 0 && slack.lead > 0
    ensures var events := ServeAll(0, ACROSS_MIDNIGHT);
            && OnTimeRunWithin(OPEN, NO_GRANTS, events, slack)
            && RunDesk(OPEN, events).requests == Served(ACROSS_MIDNIGHT)
            && Spent(AllGrants(RunDesk(OPEN, events).requests, {Delivered}), "k", Day(5)) == 4
  {
    AcrossMidnightPasses();
    AcrossMidnightIsTimely(slack);
    assert DayKey(TUESDAY) == 5 && DayKey(TUESDAY - 1) == 4;
    assert ACROSS_MIDNIGHT[4..][1..] == [] && ACROSS_MIDNIGHT[3..][1..] == ACROSS_MIDNIGHT[4..];
    assert ACROSS_MIDNIGHT[2..][1..] == ACROSS_MIDNIGHT[3..] && ACROSS_MIDNIGHT[1..][1..] == ACROSS_MIDNIGHT[2..];
    assert CountIn(ACROSS_MIDNIGHT[4..], Day(5)) == 1;
    assert CountIn(ACROSS_MIDNIGHT[3..], Day(5)) == 2;
    assert CountIn(ACROSS_MIDNIGHT[2..], Day(5)) == CountIn(ACROSS_MIDNIGHT[1..], Day(5)) == 3;
    assert CountIn(ACROSS_MIDNIGHT, Day(5)) == 4;
    hide AllPass, Timely, DayKey, ServeAll, Served, CountIn;
    AllAreServed(map[], [], 0, NO_GRANTS, Clocks(None, None), ACROSS_MIDNIGHT, slack);
    DeliveredAll([], ACROSS_MIDNIGHT, Day(5));
    assert [] + Served(ACROSS_MIDNIGHT) == Served(ACROSS_MIDNIGHT);
  }

  // ----- Evictions too far ahead

  const EARLY := [MONDAY, MONDAY, MONDAY]

  const LATE := [SUNDAY, SUNDAY, SUNDAY]

  /** Three requests on Monday, one whose arrival evicts them a second too far
      ahead, and three late on Sunday. */
  function EvictedWeek(): seq<Event> {
    ServeAll(0, EARLY) + ([Arrive(ONE_KEY, SUNDAY + MAX_LEAD + 1)] + ServeAll(4, LATE))
  }

  /** Three draws on a day from nothing. */
  lemma ThreePass(now: int)
    ensures AllPass(map[], [now, now, now])
    ensures EntriesAfter(map[], [now, now, now]) == map["k" := WindowState(DayKey(now), 3, WeekKey(now), 3, now)]
  {
    var d, w := DayKey(now), WeekKey(now);
    hide DayKey, WeekKey;
    var e0: Entries, e1, e2, e3: Entries := map[], map["k" := WindowState(d, 1, w, 1, now)],
      map["k" := WindowState(d, 2, w, 2, now)], map["k" := WindowState(d, 3, w, 3, now)];
    assert Evict(e0, now) == e0 && Evict(e1, now) == e1 && Evict(e2, now) == e2;
    assert Check(e0, "k", now).0 == e1 && Check(e1, "k", now).0 == e2 && Check(e2, "k", now).0 == e3;
    assert Check(e0, "k", now).1 == Check(e1, "k", now).1 == Check(e2, "k", now).1 == Allowed;
    assert [now, now, now][1..] == [now, now] && [now, now][1..] == [now] && [now][1..] == [];
    hide Check, Evict;
    assert EntriesAfter(e2, [now]) == EntriesAfter(e3, []);
    assert EntriesAfter(e1, [now, now]) == EntriesAfter(e2, [now]);
    assert AllPass(e3, []);
    assert AllPass(e2, [now]);
    assert AllPass(e1, [now, now]);
  }

  lemma ThreeAreTimely(c: Clocks, now: int, slack: Slack)
    requires c.seen.Some? ==> DayKey(c.seen.value) <= DayKey(now)
    requires Latest(c.evicted, now) - slack.lead <= now
    ensures Timely(c, [now, now, now], slack)
    ensures ClocksAfter(c, [now, now, now]) == Clocks(Some(now), Some(Latest(c.evicted, now)))
  {
    hide DayKey;
    assert [now, now, now][1..] == [now, now] && [now, now][1..] == [now] && [now][1..] == [];
    var next := Clocks(Some(now), Some(Latest(c.evicted, now)));
    assert ClocksAfter(next, [now]) == ClocksAfter(next, [])
      && ClocksAfter(next, [now, now]) == ClocksAfter(next, [now]);
    assert Timely(next, [now], slack);
    assert Timely(next, [now, now], slack);
  }

  /** Six requests are served in one week, checks in the order of their days. */
  lemma SixServedInAWeek(slack: Slack)
    requires slack.lead > MAX_LEAD
    ensures OnTimeRunWithin(OPEN, NO_GRANTS, EvictedWeek(), slack)
    ensures Spent(AllGrants(RunDesk(OPEN, EvictedWeek()).requests, {Delivered}), "k", Week(1)) == 6
  {
    var none: seq<Request>, waiting := [], Request(ONE_KEY, SUNDAY + MAX_LEAD + 1, Checking(0));
    var spent: Entries, arrival := map["k" := WindowState(4, 3, 1, 3, MONDAY)], Arrive(ONE_KEY, waiting.now);
    assert DayKey(MONDAY) == 4 && WeekKey(MONDAY) == 1 && DayKey(SUNDAY) == 10 && WeekKey(SUNDAY) == 1;
    assert OPEN == Desk(map[], none) && Evict(spent, waiting.now) == map[];
    ThreePass(MONDAY);
    ThreePass(SUNDAY);
    ThreeAreTimely(Clocks(None, None), MONDAY, slack);
    ThreeAreTimely(Clocks(Some(MONDAY), Some(waiting.now)), SUNDAY, slack);
    AllAreServed(map[], none, 0, NO_GRANTS, Clocks(None, None), EARLY, slack);
    var monday, l := none + Served(EARLY), RunBooks(OPEN, NO_GRANTS, ServeAll(0, EARLY));
    var arrived, rest := Desk(spent, monday), [arrival] + ServeAll(4, LATE);
    Arrives(spent, monday, l, ONE_KEY, waiting.now, slack);
    var l' := NextBooks(arrived, l, arrival);
    assert |monday + [waiting]| == 4 && NoneHolds(monday + [waiting]);
    assert Shows(l', Clocks(Some(MONDAY), Some(waiting.now)));
    DeliveredInWeek(none, waiting);
    hide *;
    AllAreServed(map[], monday + [waiting], 4, l', Clocks(Some(MONDAY), Some(waiting.now)), LATE, slack);
    RunsOnward(arrived, l, arrival, ServeAll(4, LATE), slack);
    RunsJoin(OPEN, NO_GRANTS, ServeAll(0, EARLY), rest, slack);
    EvictedWeekIs();
  }

  lemma EvictedWeekIs()
    ensures EvictedWeek() == ServeAll(0, EARLY) + ([Arrive(ONE_KEY, SUNDAY + MAX_LEAD + 1)] + ServeAll(4, LATE))
  {
  }

  lemma DeliveredInWeek(none: seq<Request>, waiting: Request)
    requires none == [] && waiting.keys == ONE_KEY && waiting.progress == Checking(0)
    ensures SpentBy(((none + Served(EARLY)) + [waiting]) + Served(LATE), Week(1)) == 6
  {
    assert WeekKey(MONDAY) == 1 && WeekKey(SUNDAY) == 1;
    assert EARLY[1..][1..] == EARLY[2..] && LATE[1..][1..] == LATE[2..] && EARLY[2..][1..] == LATE[2..][1..] == [];
    assert CountIn(EARLY[2..], Week(1)) == 1 && CountIn(LATE[2..], Week(1)) == 1;
    assert CountIn(EARLY, Week(1)) == 3 && CountIn(LATE, Week(1)) == 3;
    hide CountIn, Served, WeekKey;
    DeliveredAll(none, EARLY, Week(1));
    DeliveredSnoc(none + Served(EARLY), waiting, Week(1));
    DeliveredAll((none + Served(EARLY)) + [waiting], LATE, Week(1));
  }

  // ----- The exact condition

  /** Deliveries stay within the budgets in every run exactly when no check is
      more than a day and a second behind an eviction, and checks either never
      fall back behind midnight or never behind an eviction. */
  lemma DeliveriesFitExactly(slack: Slack)
    ensures DeliveriesFit(slack) <==> slack.lead <= MAX_LEAD && (slack.days == 0 || slack.lead <= 0)
  {
    if slack.lead > MAX_LEAD {
      SixServedInAWeek(slack);
      assert Budget(Week(1)) == 5;
    } else if slack.days > 0 && slack.lead > 0 {
      FourServedOnTuesday(slack);
      assert Budget(Day(5)) == 3;
    } else {
      forall events, key, w | OnTimeRunWithin(OPEN, NO_GRANTS, events, slack)
        ensures Spent(AllGrants(RunDesk(OPEN, events).requests, {Delivered}), key, w) <= Budget(w)
      {
        assert Stamped(OPEN, NO_GRANTS);
        WithinBoundsIsOnTime(OPEN, NO_GRANTS, events, slack);
        DeliveriesStayWithinBudget(events, key, w);
      }
    }
  }
}
