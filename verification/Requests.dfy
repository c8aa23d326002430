/** Requests at the door of the export: they draw on the budgets key by key,
    compete for the one export permit and give back what they drew, all
    interleaved with one another one limiter call at a time. */
module Requests {
  import opened Wrappers
  import opened RateLimit
  import opened RetryAfter
  import opened Reservation
  import opened ConcurrentExport

  datatype Answer =
    | RateLimited(wait: nat) | Busy | Delivered
    | BadGateway | GatewayTimeout | NotAcceptable

  /** How an export that holds the permit ends. */
  datatype Ending = Sent | PipelineFailed(error: PipelineError) | AssemblyFailed | UnreadableFile | TooLargeUncompressed

  datatype Progress =
    | Checking(n: nat)                                      // the first n keys are recorded
    | Exporting                                             // all keys are recorded, the permit is held
    | Returning(first: nat, end: nat, answer: Answer)       // keys first..end are still to be given back
    | Answered(answer: Answer)

  datatype Request = Request(keys: seq<string>, now: int, progress: Progress)

  datatype Desk = Desk(entries: Entries, requests: seq<Request>)

  // ----- The steps

  function PipelineAnswer(error: PipelineError): Answer {
    if error.Timeout? then GatewayTimeout else BadGateway
  }

  function AfterExport(keys: seq<string>, ending: Ending): Progress {
    match ending
    case Sent => Answered(Delivered)
    case PipelineFailed(error) =>
      var answer := PipelineAnswer(error);
      if answer == BadGateway || answer == GatewayTimeout then Returning(0, |keys|, answer) else Answered(answer)
    case AssemblyFailed => Returning(0, |keys|, BadGateway)
    case UnreadableFile => Returning(0, |keys|, BadGateway)
    case TooLargeUncompressed => Returning(0, |keys|, NotAcceptable)
  }

  /** The answers given to requests that never held the permit. */
  predicate Unpermitted(answer: Answer) {
    answer.RateLimited? || answer.Busy?
  }

  /** The permit is held from its acquisition until the request is answered. */
  predicate HoldsPermit(r: Request) {
    r.progress.Exporting? || (r.progress.Returning? && !Unpermitted(r.progress.answer))
  }

  predicate PermitTaken(desk: Desk) {
    exists i :: 0 <= i < |desk.requests| && HoldsPermit(desk.requests[i])
  }

  /** Of all the answers only 200 and Busy keep the charge. */
  predicate KeepsCharge(answer: Answer) {
    answer == Delivered || answer == Busy
  }

  predicate WellFormed(r: Request) {
    match r.progress
    case Checking(n) => n <= |r.keys|
    case Returning(first, end, answer) => first <= end <= |r.keys| && !KeepsCharge(answer)
    case _ => true
  }

  /** A request arrives, or one of those present takes its next step. */
  datatype Event = Arrive(keys: seq<string>, now: int) | Proceed(i: nat, ending: Ending)

  /** The limiter call the event makes, if any. */
  function CallOf(desk: Desk, event: Event): Option<Call> {
    match event
    case Arrive(_, now) => Some(EvictCall(now))
    case Proceed(i, _) =>
      if i >= |desk.requests| then None
      else
        var r := desk.requests[i];
        match r.progress
        case Checking(n) => if n < |r.keys| then Some(CheckCall(r.keys[n], r.now)) else None
        case Returning(first, end, _) =>
          if first < end <= |r.keys| then Some(ReleaseCall(r.keys[first], r.now)) else None
        case _ => None
  }

  function NextProgress(desk: Desk, r: Request, ending: Ending): Progress {
    match r.progress
    case Checking(n) =>
      if n < |r.keys| then
        var outcome := Check(desk.entries, r.keys[n], r.now).1;
        if outcome == Allowed then Checking(n + 1) else Returning(0, n, RateLimited(RetryAfterFor(outcome, r.now)))
      else if PermitTaken(desk) then Answered(Busy)
      else Exporting
    case Exporting => AfterExport(r.keys, ending)
    case Returning(first, end, answer) => if first < end then Returning(first + 1, end, answer) else Answered(answer)
    case Answered(_) => r.progress
  }

  function Next(desk: Desk, event: Event): Desk {
    var entries :=
      match CallOf(desk, event)
      case Some(call) => NextEntries(desk.entries, call)
      case None => desk.entries;
    match event
    case Arrive(keys, now) => Desk(entries, desk.requests + [Request(keys, now, Checking(0))])
    case Proceed(i, ending) =>
      if i >= |desk.requests| then desk
      else
        var r := desk.requests[i];
        Desk(entries, desk.requests[i := r.(progress := NextProgress(desk, r, ending))])
  }

  function NextBooks(desk: Desk, l: Ledger, event: Event): Ledger {
    match CallOf(desk, event) case Some(call) => NextLedger(l, call) case None => l
  }

  // ----- What a request has drawn and not given back

  /** The keys that count against the caller. */
  function Charged(r: Request): seq<string> {
    match r.progress
    case Checking(n) => if n <= |r.keys| then r.keys[..n] else []
    case Exporting => r.keys
    case Returning(first, end, _) => if first <= end <= |r.keys| then r.keys[first..end] else []
    case Answered(answer) => if KeepsCharge(answer) then r.keys else []
  }

  function Times(log: seq<Grant>, g: Grant): nat {
    multiset(log)[g]
  }

  /** How often a request holds a grant. */
  function Drawn(r: Request, g: Grant): nat {
    Times(GrantsFor(Charged(r), r.now), g)
  }

  /** How often the first n requests hold it. */
  function DrawnByFirst(requests: seq<Request>, n: nat, g: Grant): nat
    requires n <= |requests|
  {
    if n == 0 then 0 else DrawnByFirst(requests, n - 1, g) + Drawn(requests[n - 1], g)
  }

  function AllDrawn(requests: seq<Request>, g: Grant): nat {
    DrawnByFirst(requests, |requests|, g)
  }

  lemma {:induction false} DrawnReplaced(requests: seq<Request>, n: nat, i: nat, r: Request, g: Grant)
    requires n <= |requests| && i < |requests|
    ensures DrawnByFirst(requests[i := r], n, g) + (if i < n then Drawn(requests[i], g) else 0)
            == DrawnByFirst(requests, n, g) + if i < n then Drawn(r, g) else 0
  {
    hide Drawn;
    if n > 0 {
      DrawnReplaced(requests, n - 1, i, r, g);
    }
  }

  lemma {:induction false} DrawnByOthers(requests: seq<Request>, n: nat, r: Request, g: Grant)
    requires n <= |requests|
    ensures DrawnByFirst(requests + [r], n, g) == DrawnByFirst(requests, n, g)
  {
    hide Drawn;
    if n > 0 {
      DrawnByOthers(requests, n - 1, r, g);
    }
  }

  lemma {:induction false} DrawnOf(requests: seq<Request>, n: nat, i: nat, g: Grant)
    requires i < n <= |requests|
    ensures Drawn(requests[i], g) <= DrawnByFirst(requests, n, g)
  {
    hide Drawn;
    if i < n - 1 {
      DrawnOf(requests, n - 1, i, g);
    }
  }

  lemma {:induction false} WithoutOne(log: seq<Grant>, g: Grant, h: Grant)
    requires g in log
    ensures Times(log, h) == Times(Without(log, g), h) + if h == g then 1 else 0
  {
    var n := |log| - 1;
    assert log == log[..n] + [log[n]];
    if log[n] != g {
      WithoutOne(log[..n], g, h);
    }
  }

  lemma TimesSnoc(log: seq<Grant>, g: Grant, h: Grant)
    ensures Times(log + [g], h) == Times(log, h) + if h == g then 1 else 0
  {
  }

  lemma GrantsSnoc(keys: seq<string>, key: string, now: int, g: Grant)
    ensures Times(GrantsFor(keys + [key], now), g)
            == Times(GrantsFor(keys, now), g) + if g == Grant(key, now) then 1 else 0
  {
    assert GrantsFor(keys + [key], now) == GrantsFor(keys, now) + [Grant(key, now)];
  }

  lemma GrantsCons(key: string, keys: seq<string>, now: int, g: Grant)
    ensures Times(GrantsFor([key] + keys, now), g)
            == Times(GrantsFor(keys, now), g) + if g == Grant(key, now) then 1 else 0
  {
    assert GrantsFor([key] + keys, now) == [Grant(key, now)] + GrantsFor(keys, now);
  }

  // ----- The books are kept

  ghost predicate Balanced(desk: Desk, l: Ledger) {
    && Refines(desk.entries, l)
    && (forall g :: Times(l.log, g) == AllDrawn(desk.requests, g))
    && (forall i :: 0 <= i < |desk.requests| ==> WellFormed(desk.requests[i]))
    && AtMostOnePermit(desk.requests)
  }

  /** All that is asked of the order of the steps: no check of a key falls back
      behind midnight or more than a day and a second behind an eviction. */
  predicate OnTime(desk: Desk, l: Ledger, event: Event) {
    match CallOf(desk, event)
    case Some(call) => call.CheckCall? ==> Admissible(l, call)
    case None => true
  }

  function Proceeded(desk: Desk, i: nat, ending: Ending): Request
    requires i < |desk.requests|
  {
    desk.requests[i].(progress := NextProgress(desk, desk.requests[i], ending))
  }

  lemma StaysWellFormed(desk: Desk, i: nat, ending: Ending)
    requires i < |desk.requests| && WellFormed(desk.requests[i])
    ensures WellFormed(Proceeded(desk, i, ending))
  {
    hide Check, PermitTaken, RetryAfterFor;
  }

  /** What a step of a request changes in its charges is what its limiter call changes in the log. */
  predicate Follows(desk: Desk, l: Ledger, i: nat, ending: Ending, g: Grant)
    requires i < |desk.requests|
  {
    Times(NextBooks(desk, l, Proceed(i, ending)).log, g) + Drawn(desk.requests[i], g)
    == Times(l.log, g) + Drawn(Proceeded(desk, i, ending), g)
  }

  /** What a step of a reservation does, given the verdict of its check, if it makes one. */
  lemma StepOfReservation(desk: Desk, i: nat, ending: Ending, key: string, outcome: Outcome)
    requires i < |desk.requests| && WellFormed(desk.requests[i]) && desk.requests[i].progress.Checking?
    requires var r := desk.requests[i];
             r.progress.n < |r.keys| ==> key == r.keys[r.progress.n] && outcome == Check(desk.entries, key, r.now).1
    ensures var r, r', event := desk.requests[i], Proceeded(desk, i, ending), Proceed(i, ending);
            if r.progress.n < |r.keys| then
              && CallOf(desk, event) == Some(CheckCall(key, r.now))
              && Charged(r') == if outcome == Allowed then Charged(r) + [key] else Charged(r)
            else
              CallOf(desk, event) == None && Charged(r') == Charged(r)
  {
    hide Check, RetryAfterFor, PermitTaken;
    var r := desk.requests[i];
    if r.progress.n == |r.keys| {
      assert r.keys[..r.progress.n] == r.keys;
    }
  }

  /** An allowed check charges its key; any other step of the reservation charges nothing. */
  lemma CheckCharges(desk: Desk, l: Ledger, i: nat, ending: Ending)
    requires Refines(desk.entries, l) && i < |desk.requests| && WellFormed(desk.requests[i])
    requires desk.requests[i].progress.Checking? && OnTime(desk, l, Proceed(i, ending))
    ensures var r, r', l' := desk.requests[i], Proceeded(desk, i, ending), NextBooks(desk, l, Proceed(i, ending));
            || (Charged(r') == Charged(r) && l'.log == l.log)
            || exists key :: Charged(r') == Charged(r) + [key] && l'.log == l.log + [Grant(key, r.now)]
  {
    hide Check, Refines, Admissible, LogOutcome, Charged, Proceeded, CallOf;
    var r := desk.requests[i];
    if r.progress.n < |r.keys| {
      var key := r.keys[r.progress.n];
      StepOfReservation(desk, i, ending, key, Check(desk.entries, key, r.now).1);
      CheckRefines(desk.entries, l, key, r.now);
    } else {
      StepOfReservation(desk, i, ending, "", Allowed);
    }
  }

  lemma CheckFollows(desk: Desk, l: Ledger, i: nat, ending: Ending, g: Grant)
    requires Refines(desk.entries, l) && i < |desk.requests| && WellFormed(desk.requests[i])
    requires desk.requests[i].progress.Checking? && OnTime(desk, l, Proceed(i, ending))
    ensures Follows(desk, l, i, ending, g)
  {
    CheckCharges(desk, l, i, ending);
    var r, r', l' := desk.requests[i], Proceeded(desk, i, ending), NextBooks(desk, l, Proceed(i, ending));
    assert r'.now == r.now;
    hide Proceeded, NextBooks, Charged, Times, GrantsFor, Refines, OnTime, WellFormed;
    if Charged(r') != Charged(r) || l'.log != l.log {
      var key :| Charged(r') == Charged(r) + [key] && l'.log == l.log + [Grant(key, r.now)];
      GrantsSnoc(Charged(r), key, r.now, g);
      TimesSnoc(l.log, Grant(key, r.now), g);
    }
  }

  lemma ReturnIsAdmissible(desk: Desk, l: Ledger, r: Request)
    requires r.progress.Returning? && r.progress.first < r.progress.end <= |r.keys|
    requires Drawn(r, Grant(r.keys[r.progress.first], r.now)) <= Times(l.log, Grant(r.keys[r.progress.first], r.now))
    ensures Grant(r.keys[r.progress.first], r.now) in l.log
    ensures Charged(r) == [r.keys[r.progress.first]] + r.keys[r.progress.first + 1..r.progress.end]
  {
    var key, rest := r.keys[r.progress.first], r.keys[r.progress.first + 1..r.progress.end];
    assert Charged(r) == [key] + rest;
    GrantsCons(key, rest, r.now, Grant(key, r.now));
  }

  lemma ReturnFollows(desk: Desk, l: Ledger, i: nat, ending: Ending, g: Grant)
    requires i < |desk.requests| && WellFormed(desk.requests[i]) && desk.requests[i].progress.Returning?
    requires forall h :: Drawn(desk.requests[i], h) <= Times(l.log, h)
    ensures Follows(desk, l, i, ending, g)
  {
    var r, r', l' := desk.requests[i], Proceeded(desk, i, ending), NextBooks(desk, l, Proceed(i, ending));
    var first, end := r.progress.first, r.progress.end;
    assert r'.now == r.now;
    if first < end {
      ReturnIsAdmissible(desk, l, r);
      var lent := Grant(r.keys[first], r.now);
      assert Charged(r') == r.keys[first + 1..end] && l'.log == Without(l.log, lent) by {
        hide Without, Release, Times, PermitTaken;
      }
      GrantsCons(r.keys[first], r.keys[first + 1..end], r.now, g);
      WithoutOne(l.log, lent, g);
      hide Proceeded, NextBooks, Charged, Times, GrantsFor, Without, WellFormed;
    } else {
      assert Charged(r') == Charged(r) && l'.log == l.log;
      hide Proceeded, NextBooks, Charged, Times, GrantsFor, Without, WellFormed;
    }
  }

  lemma ProceedFollows(desk: Desk, l: Ledger, i: nat, ending: Ending, g: Grant)
    requires Refines(desk.entries, l) && i < |desk.requests| && WellFormed(desk.requests[i])
    requires OnTime(desk, l, Proceed(i, ending)) && forall h :: Drawn(desk.requests[i], h) <= Times(l.log, h)
    ensures Follows(desk, l, i, ending, g)
  {
    var r := desk.requests[i];
    if r.progress.Checking? {
      CheckFollows(desk, l, i, ending, g);
    } else if r.progress.Returning? {
      ReturnFollows(desk, l, i, ending, g);
    } else {
      assert r.keys[0..|r.keys|] == r.keys;
      hide Times, GrantsFor;
    }
  }

  lemma CallIsAdmissible(desk: Desk, l: Ledger, event: Event)
    requires Balanced(desk, l) && OnTime(desk, l, event) && CallOf(desk, event).Some?
    ensures Admissible(l, CallOf(desk, event).value)
  {
    match event
    case Arrive(_, _) =>
    case Proceed(i, _) =>
      var r := desk.requests[i];
      hide Drawn, Refines;
      if r.progress.Returning? {
        DrawnOf(desk.requests, |desk.requests|, i, Grant(r.keys[r.progress.first], r.now));
        ReturnIsAdmissible(desk, l, r);
      }
  }

  predicate AtMostOnePermit(requests: seq<Request>) {
    forall i, j :: 0 <= i < j < |requests| && HoldsPermit(requests[i]) ==> !HoldsPermit(requests[j])
  }

  lemma PermitStaysExclusive(desk: Desk, i: nat, ending: Ending)
    requires i < |desk.requests| && AtMostOnePermit(desk.requests)
    ensures AtMostOnePermit(Next(desk, Proceed(i, ending)).requests)
  {
    var r := desk.requests[i];
    var r' := r.(progress := NextProgress(desk, r, ending));
    assert HoldsPermit(r') ==> HoldsPermit(r) || !PermitTaken(desk);
  }

  lemma ArriveKeepsBooks(desk: Desk, l: Ledger, keys: seq<string>, now: int)
    requires Balanced(desk, l)
    ensures Balanced(Next(desk, Arrive(keys, now)), NextBooks(desk, l, Arrive(keys, now)))
  {
    EvictRefines(desk.entries, l, now);
    var r := Request(keys, now, Checking(0));
    var requests := desk.requests + [r];
    hide Refines, Evict, Times, Charged;
    forall g
      ensures AllDrawn(requests, g) == AllDrawn(desk.requests, g)
    {
      NothingDrawn(keys, now, g);
      DrawnByOthers(desk.requests, |desk.requests|, r, g);
    }
  }

  lemma NothingDrawn(keys: seq<string>, now: int, g: Grant)
    ensures Drawn(Request(keys, now, Checking(0)), g) == 0
  {
    assert GrantsFor(keys[..0], now) == [];
  }

  /** Every step keeps the books: the limiter agrees with a log that holds
      exactly what the requests have drawn and not given back. */
  lemma NextKeepsBooks(desk: Desk, l: Ledger, event: Event)
    requires Balanced(desk, l) && OnTime(desk, l, event)
    ensures Balanced(Next(desk, event), NextBooks(desk, l, event))
  {
    match event
    case Arrive(keys, now) => ArriveKeepsBooks(desk, l, keys, now);
    case Proceed(i, ending) =>
      if i < |desk.requests| {
        var r' := Proceeded(desk, i, ending);
        var l' := NextBooks(desk, l, event);
        if CallOf(desk, event).Some? {
          CallIsAdmissible(desk, l, event);
          CallRefines(desk.entries, l, CallOf(desk, event).value);
        }
        StaysWellFormed(desk, i, ending);
        PermitStaysExclusive(desk, i, ending);
        hide Drawn, Times, NextProgress, HoldsPermit, NextLedger, NextEntries, Refines, CallOf, WellFormed;
        forall h
          ensures Drawn(desk.requests[i], h) <= Times(l.log, h)
        {
          DrawnOf(desk.requests, |desk.requests|, i, h);
        }
        forall g
          ensures Times(l'.log, g) == AllDrawn(desk.requests[i := r'], g)
        {
          ProceedFollows(desk, l, i, ending, g);
          DrawnReplaced(desk.requests, |desk.requests|, i, r', g);
        }
      }
  }

  // ----- Whole runs

  predicate OnTimeRun(desk: Desk, l: Ledger, events: seq<Event>)
    decreases |events|
  {
    events == []
    || (OnTime(desk, l, events[0]) && OnTimeRun(Next(desk, events[0]), NextBooks(desk, l, events[0]), events[1..]))
  }

  function RunDesk(desk: Desk, events: seq<Event>): Desk
    decreases |events|
  {
    if events == [] then desk else RunDesk(Next(desk, events[0]), events[1..])
  }

  function RunBooks(desk: Desk, l: Ledger, events: seq<Event>): Ledger
    decreases |events|
  {
    if events == [] then l else RunBooks(Next(desk, events[0]), NextBooks(desk, l, events[0]), events[1..])
  }

  /** Whatever the interleaving, the books stay balanced and within the budgets. */
  lemma {:induction false} RunKeepsBooks(desk: Desk, l: Ledger, events: seq<Event>)
    requires Balanced(desk, l) && WithinBudgets(l.log) && OnTimeRun(desk, l, events)
    ensures Balanced(RunDesk(desk, events), RunBooks(desk, l, events))
    ensures WithinBudgets(RunBooks(desk, l, events).log)
    decreases |events|
  {
    if events != [] {
      var event := events[0];
      hide Balanced, WithinBudgets, Next, NextLedger, Admissible, CallOf;
      NextKeepsBooks(desk, l, event);
      if CallOf(desk, event).Some? {
        CallIsAdmissible(desk, l, event);
        CallKeepsBudgets(l, CallOf(desk, event).value);
      }
      RunKeepsBooks(Next(desk, event), NextBooks(desk, l, event), events[1..]);
    }
  }

  /** One grant for each key of a request answered in one of these ways. */
  function GrantsOf(r: Request, answers: set<Answer>): seq<Grant> {
    if r.progress.Answered? && r.progress.answer in answers then GrantsFor(r.keys, r.now) else []
  }

  function GrantsOfFirst(requests: seq<Request>, n: nat, answers: set<Answer>): seq<Grant>
    requires n <= |requests|
  {
    if n == 0 then [] else GrantsOfFirst(requests, n - 1, answers) + GrantsOf(requests[n - 1], answers)
  }

  function AllGrants(requests: seq<Request>, answers: set<Answer>): seq<Grant> {
    GrantsOfFirst(requests, |requests|, answers)
  }

  lemma TimesConcat(a: seq<Grant>, b: seq<Grant>, g: Grant)
    ensures Times(a + b, g) == Times(a, g) + Times(b, g)
  {
  }

  lemma NoTimes(g: Grant)
    ensures Times([], g) == 0
  {
  }

  lemma GrantsAreDrawn(r: Request, answers: set<Answer>, g: Grant)
    requires answers <= {Delivered, Busy}
    ensures Times(GrantsOf(r, answers), g) <= Drawn(r, g)
    ensures r.progress.Answered? && answers == {Delivered, Busy} ==> Times(GrantsOf(r, answers), g) == Drawn(r, g)
  {
    assert Times([], g) == 0;
    assert GrantsFor([], r.now) == [];
    hide Times, GrantsFor;
  }

  predicate AllAnswered(requests: seq<Request>) {
    forall i :: 0 <= i < |requests| ==> requests[i].progress.Answered?
  }

  lemma {:induction false} AllGrantsAreDrawn(requests: seq<Request>, n: nat, answers: set<Answer>, g: Grant)
    requires n <= |requests| && answers <= {Delivered, Busy}
    ensures Times(GrantsOfFirst(requests, n, answers), g) <= DrawnByFirst(requests, n, g)
    ensures AllAnswered(requests) && answers == {Delivered, Busy}
            ==> Times(GrantsOfFirst(requests, n, answers), g) == DrawnByFirst(requests, n, g)
  {
    hide Times, GrantsOf, Drawn;
    if n == 0 {
      NoTimes(g);
    } else {
      AllGrantsAreDrawn(requests, n - 1, answers, g);
      GrantsAreDrawn(requests[n - 1], answers, g);
      TimesConcat(GrantsOfFirst(requests, n - 1, answers), GrantsOf(requests[n - 1], answers), g);
    }
  }

  lemma {:induction false} SpentByMultiplicity(a: seq<Grant>, b: seq<Grant>, key: string, w: Window)
    requires forall g :: Times(a, g) <= Times(b, g)
    ensures Spent(a, key, w) <= Spent(b, key, w)
    decreases |a|
  {
    if a != [] {
      var front, last := a[..|a| - 1], a[|a| - 1];
      assert a == front + [last];
      assert Times(a, last) > 0 && last in b;
      hide Times, InWindow;
      forall g
        ensures Times(front, g) <= Times(Without(b, last), g)
      {
        TimesSnoc(front, last, g);
        WithoutOne(b, last, g);
      }
      SpentByMultiplicity(front, Without(b, last), key, w);
      SpentWithout(b, last, key, w);
    }
  }

  const OPEN := Desk(map[], [])

  lemma OpeningIsBalanced()
    ensures Balanced(OPEN, NO_GRANTS) && WithinBudgets(NO_GRANTS.log)
  {
  }

  /** Whatever else the interleaving, if checks keep the order of their days, at any moment no key has been served more
      exports in a day or in a week than its budget, and one export runs at a time. */
  lemma DeliveriesStayWithinBudget(events: seq<Event>, key: string, w: Window)
    requires OnTimeRun(OPEN, NO_GRANTS, events)
    ensures Spent(AllGrants(RunDesk(OPEN, events).requests, {Delivered}), key, w) <= Budget(w)
    ensures AtMostOnePermit(RunDesk(OPEN, events).requests)
  {
    OpeningIsBalanced();
    RunKeepsBooks(OPEN, NO_GRANTS, events);
    var requests, log := RunDesk(OPEN, events).requests, RunBooks(OPEN, NO_GRANTS, events).log;
    hide Spent, Times, GrantsOf, RunDesk, RunBooks, OnTimeRun, Refines, AtMostOnePermit;
    forall g
      ensures Times(AllGrants(requests, {Delivered}), g) <= Times(log, g)
    {
      AllGrantsAreDrawn(requests, |requests|, {Delivered}, g);
    }
    SpentByMultiplicity(AllGrants(requests, {Delivered}), log, key, w);
  }

  /** Once every request is answered, the budgets are spent on exactly one
      grant for each key of each request answered 200 or Busy: refusals and
      failed exports have given back all they drew, and nothing was given back twice. */
  lemma NetChargeIsExact(events: seq<Event>)
    requires OnTimeRun(OPEN, NO_GRANTS, events)
    requires AllAnswered(RunDesk(OPEN, events).requests)
    ensures multiset(RunBooks(OPEN, NO_GRANTS, events).log)
            == multiset(AllGrants(RunDesk(OPEN, events).requests, {Delivered, Busy}))
  {
    OpeningIsBalanced();
    RunKeepsBooks(OPEN, NO_GRANTS, events);
    var requests, log := RunDesk(OPEN, events).requests, RunBooks(OPEN, NO_GRANTS, events).log;
    var kept := AllGrants(requests, {Delivered, Busy});
    hide Spent, GrantsOf, AllAnswered, RunDesk, RunBooks, OnTimeRun, Refines, AtMostOnePermit, WellFormed;
    forall g
      ensures multiset(log)[g] == multiset(kept)[g]
    {
      AllGrantsAreDrawn(requests, |requests|, {Delivered, Busy}, g);
      assert Times(log, g) == Times(kept, g);
    }
  }

  // ----- The wait of a refusal

  predicate RefusedWith(p: Progress, wait: nat) {
    (p.Returning? || p.Answered?) && p.answer == RateLimited(wait)
  }

  /** At this event the limiter refuses a key of this request, and this is the right wait for that key. */
  ghost predicate RefusedAt(desk: Desk, event: Event, i: nat, wait: nat) {
    && i < |desk.requests| && event.Proceed? && event.i == i && desk.requests[i].progress.Checking?
    && var r, n := desk.requests[i], desk.requests[i].progress.n;
       n < |r.keys| && RightWait(Next(desk, event).entries, r.keys[n], r.now, wait)
  }

  lemma StepRefusesRightly(desk: Desk, event: Event, i: nat, wait: nat)
    requires i < |Next(desk, event).requests| && RefusedWith(Next(desk, event).requests[i].progress, wait)
    ensures (i < |desk.requests| && RefusedWith(desk.requests[i].progress, wait)) || RefusedAt(desk, event, i, wait)
  {
    hide Check, RightWait, PermitTaken, Release, Evict;
    if event.Proceed? && event.i == i && desk.requests[i].progress.Checking? {
      var r, n := desk.requests[i], desk.requests[i].progress.n;
      assert n < |r.keys| && Check(desk.entries, r.keys[n], r.now).1 != Allowed;
      RefusalHasRightWait(desk.entries, r.keys[n], r.now);
    }
  }

  lemma {:induction false} RunRefusesRightly(desk: Desk, events: seq<Event>, i: nat, wait: nat)
    requires i < |RunDesk(desk, events).requests| && RefusedWith(RunDesk(desk, events).requests[i].progress, wait)
    ensures (i < |desk.requests| && RefusedWith(desk.requests[i].progress, wait))
         || exists k :: 0 <= k < |events| && RefusedAt(RunDesk(desk, events[..k]), events[k], i, wait)
    decreases |events|
  {
    hide RefusedAt, RefusedWith, Next;
    if events != [] {
      var next, rest := Next(desk, events[0]), events[1..];
      RunRefusesRightly(next, rest, i, wait);
      if k :| 0 <= k < |rest| && RefusedAt(RunDesk(next, rest[..k]), rest[k], i, wait) {
        assert events[..k + 1][1..] == rest[..k] && events[..k + 1][0] == events[0];
        assert RefusedAt(RunDesk(desk, events[..k + 1]), events[k + 1], i, wait);
      } else {
        StepRefusesRightly(desk, events[0], i, wait);
        assert RunDesk(desk, events[..0]) == desk;
      }
    }
  }

  /** Whatever the interleaving, a request answered with a wait was refused
      one of its keys, and the wait is right for that key at that moment. */
  lemma WaitsAreRight(events: seq<Event>, i: nat, wait: nat)
    requires i < |RunDesk(OPEN, events).requests| && RefusedWith(RunDesk(OPEN, events).requests[i].progress, wait)
    ensures exists k :: 0 <= k < |events| && RefusedAt(RunDesk(OPEN, events[..k]), events[k], i, wait)
  {
    hide RefusedAt, RunDesk;
    RunRefusesRightly(OPEN, events, i, wait);
  }

  // ----- A request that is not interrupted

  function RunAlone(desk: Desk, i: nat, steps: nat): Desk
    decreases steps
  {
    if steps == 0 then desk else RunAlone(Next(desk, Proceed(i, Sent)), i, steps - 1)
  }

  function At(desk: Desk, i: nat, entries: Entries, progress: Progress): Desk
    requires i < |desk.requests|
  {
    Desk(entries, desk.requests[i := desk.requests[i].(progress := progress)])
  }

  lemma {:induction false} ReturnsAlone(desk: Desk, i: nat)
    requires i < |desk.requests| && WellFormed(desk.requests[i]) && desk.requests[i].progress.Returning?
    ensures var r := desk.requests[i];
            var p := r.progress;
            RunAlone(desk, i, p.end - p.first + 1)
            == At(desk, i, ReleaseEach(desk.entries, r.keys[p.first..p.end], r.now), Answered(p.answer))
    decreases desk.requests[i].progress.end - desk.requests[i].progress.first
  {
    var r := desk.requests[i];
    var p := r.progress;
    hide Release, PermitTaken, Check;
    var next := Next(desk, Proceed(i, Sent));
    assert RunAlone(desk, i, p.end - p.first + 1) == RunAlone(next, i, p.end - p.first);
    if p.first < p.end {
      assert r.keys[p.first..p.end][1..] == r.keys[p.first + 1..p.end];
      assert next == At(desk, i, Release(desk.entries, r.keys[p.first], r.now),
        Returning(p.first + 1, p.end, p.answer));
      ReturnsAlone(next, i);
    }
  }

  lemma {:induction false} ReservationRunsOn(desk: Desk, i: nat) returns (steps: nat)
    requires i < |desk.requests| && WellFormed(desk.requests[i]) && desk.requests[i].progress.Checking?
    ensures var r := desk.requests[i];
            var (entries, refusal) := Reserve(desk.entries, r.keys[..r.progress.n], r.keys[r.progress.n..], r.now);
            RunAlone(desk, i, steps)
            == At(desk, i, entries, match refusal
                                    case None => Checking(|r.keys|)
                                    case Some(outcome) => Answered(RateLimited(RetryAfterFor(outcome, r.now))))
    decreases |desk.requests[i].keys| - desk.requests[i].progress.n
  {
    var r := desk.requests[i];
    var n := r.progress.n;
    hide Check, PermitTaken, RetryAfterFor, ReleaseEach;
    if n == |r.keys| {
      steps := 0;
      assert desk.requests[i := r] == desk.requests;
    } else {
      var next := Next(desk, Proceed(i, Sent));
      var (entries, outcome) := Check(desk.entries, r.keys[n], r.now);
      assert r.keys[n..][0] == r.keys[n] && r.keys[n..][1..] == r.keys[n + 1..]
        && r.keys[..n] + [r.keys[n]] == r.keys[..n + 1];
      if outcome == Allowed {
        assert next == At(desk, i, entries, Checking(n + 1));
        var more := ReservationRunsOn(next, i);
        steps := more + 1;
      } else {
        assert next == At(desk, i, entries, Returning(0, n, RateLimited(RetryAfterFor(outcome, r.now))));
        ReturnsAlone(next, i);
        assert r.keys[0..n] == r.keys[..n];
        steps := n + 2;
      }
    }
  }

  /** Taken without interruption, the steps of a reservation are the loop of
      the handler: its entries, and either all keys recorded or the refusal
      answered, with the right wait of the first key the desk refuses. */
  lemma ReservesAlone(desk: Desk, i: nat) returns (steps: nat, wait: nat)
    requires i < |desk.requests| && WellFormed(desk.requests[i]) && desk.requests[i].progress == Checking(0)
    ensures var r := desk.requests[i];
            var (entries, refusal) := Reserve(desk.entries, [], r.keys, r.now);
            && RunAlone(desk, i, steps)
               == At(desk, i, entries, if refusal.None? then Checking(|r.keys|) else Answered(RateLimited(wait)))
            && (Distinct(r.keys) ==>
                  if refusal.None? then AllAllowedBy(desk.entries, r.keys, r.now)
                  else exists j :: Refuses(desk.entries, r.keys, j, r.now)
                                   && RightWait(entries, r.keys[j], r.now, wait))
  {
    var r := desk.requests[i];
    var (entries, refusal) := Reserve(desk.entries, [], r.keys, r.now);
    hide Check, RightWait, PermitTaken, RetryAfterFor, Next, Reserve, Refuses, AllAllowedBy;
    wait := if refusal.Some? then RetryAfterFor(refusal.value, r.now) else 0;
    assert r.keys[..0] == [] && r.keys[0..] == r.keys && [] + r.keys == r.keys;
    steps := ReservationRunsOn(desk, i);
    if Distinct(r.keys) {
      RefusalHasItsWait(desk.entries, [], r.keys, r.now);
    }
  }

  /** Taken without interruption, an export that was sent is answered 200 and
      stays charged; every other ending gives back each key once and is
      answered 504 for a timeout, 406 for a file too large to expand, and
      502 for all the rest. */
  lemma EndsAlone(desk: Desk, i: nat, ending: Ending) returns (steps: nat)
    requires i < |desk.requests| && desk.requests[i].progress.Exporting?
    ensures var r := desk.requests[i];
            RunAlone(Next(desk, Proceed(i, ending)), i, steps)
            == if ending.Sent? then At(desk, i, desk.entries, Answered(Delivered))
               else
                 At(desk, i, ReleaseEach(desk.entries, r.keys, r.now), Answered(
                   if ending == PipelineFailed(Timeout) then GatewayTimeout
                   else if ending.TooLargeUncompressed? then NotAcceptable
                   else BadGateway))
  {
    hide PermitTaken, Check, Release, ReleaseEach;
    var r, next := desk.requests[i], Next(desk, Proceed(i, ending));
    steps := 0;
    if !ending.Sent? {
      ReturnsAlone(next, i);
      assert r.keys[0..|r.keys|] == r.keys;
      steps := |r.keys| + 1;
    }
  }

  lemma {:induction false} RunsOnAlone(desk: Desk, i: nat, steps: nat, more: nat, total: nat)
    requires total == steps + more
    ensures RunAlone(desk, i, total) == RunAlone(RunAlone(desk, i, steps), i, more)
    decreases steps
  {
    hide Next;
    if steps > 0 {
      RunsOnAlone(Next(desk, Proceed(i, Sent)), i, steps - 1, more, total - 1);
    }
  }

  /** Taken without interruption, a request whose keys the desk allows is
      charged one grant of each and served, unless an export is under way. */
  lemma ServedAlone(desk: Desk, i: nat) returns (steps: nat)
    requires i < |desk.requests| && WellFormed(desk.requests[i]) && desk.requests[i].progress == Checking(0)
    requires Distinct(desk.requests[i].keys) && AllAllowedBy(desk.entries, desk.requests[i].keys, desk.requests[i].now)
    ensures var r := desk.requests[i];
            var underWay := exists j :: 0 <= j < |desk.requests| && HoldsPermit(desk.requests[j]);
            RunAlone(desk, i, steps)
            == At(desk, i, Reserve(desk.entries, [], r.keys, r.now).0, Answered(if underWay then Busy else Delivered))
  {
    var r := desk.requests[i];
    var entries := Reserve(desk.entries, [], r.keys, r.now).0;
    var reserved, wait := ReservesAlone(desk, i);
    hide Check, RightWait, RetryAfterFor, Reserve, AllAllowedBy;
    var ready := At(desk, i, entries, Checking(|r.keys|));
    assert RunAlone(desk, i, reserved) == ready;
    assert PermitTaken(ready) <==> PermitTaken(desk) by {
      assert forall j :: 0 <= j < |desk.requests| ==> HoldsPermit(ready.requests[j]) == HoldsPermit(desk.requests[j]);
    }
    var more := if PermitTaken(desk) then 1 else 2;
    steps := reserved + more;
    RunsOnAlone(desk, i, reserved, more, steps);
    var next := Next(ready, Proceed(i, Sent));
    assert RunAlone(ready, i, more) == RunAlone(next, i, more - 1);
    if PermitTaken(desk) {
      assert next == At(desk, i, entries, Answered(Busy));
    } else {
      assert next == At(desk, i, entries, Exporting);
      var served := Next(next, Proceed(i, Sent));
      assert served == At(desk, i, entries, Answered(Delivered));
      assert RunAlone(next, i, 1) == RunAlone(served, i, 0);
    }
  }
}
