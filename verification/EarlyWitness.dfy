/** An export that aborts early, for every floor, every positive ratio and
    every number of ranges and workers that lets two workers run. */
module EarlyWitness {
  import opened Wrappers
  import opened Order
  import opened Ranges
  import opened Upstream
  import opened AbortCounter
  import opened EarlyAbort
  import opened MergeJoin
  import opened FuelFetch
  import opened ConcurrentExport
  import opened ConcurrentConservation
  import opened EarlyExport

  // ----- Putting runs together

  /** The events lead from one state to another without exceeding the allowance. */
  predicate Leads(c: Setting, s: State, events: seq<Event>, end: State)
    requires c.Valid()
  {
    Schedule(c, s, events) && Quiet(c, s, events) && Run(c, s, events) == end
  }

  lemma StayPut(c: Setting, s: State)
    requires c.Valid() && !Over(c.failure, s.shared.counters)
    ensures Leads(c, s, [], s)
  {
  }

  lemma OneMore(c: Setting, s: State, e: Event, next: State, events: seq<Event>, end: State)
    requires c.Valid() && Enabled(c, s, e) && next == Next(c, s, e) && !Over(c.failure, s.shared.counters)
    requires Leads(c, next, events, end)
    ensures Leads(c, s, [e] + events, end)
  {
    assert ([e] + events)[1..] == events;
  }

  lemma {:induction false} OneAfterAnother(c: Setting, s: State, first: seq<Event>, middle: State, second: seq<Event>,
        end: State)
    requires c.Valid() && Leads(c, s, first, middle) && Leads(c, middle, second, end)
    ensures Leads(c, s, first + second, end)
    decreases |first|
  {
    if first == [] {
      assert first + second == second;
    } else {
      var e, rest := first[0], first[1..];
      hide Setting.Valid, Enabled, Next, Over;
      OneAfterAnother(c, Next(c, s, e), rest, middle, second, end);
      OneMore(c, s, e, Next(c, s, e), rest + second, end);
      assert [e] + (rest + second) == first + second;
    }
  }

  // ----- The data: no fuel rows, one vehicle before all boundaries, and many behind them

  function Plate(i: nat): string {
    seq(i + 1, _ => '~')
  }

  function Behind(n: nat): seq<VehicleRow> {
    seq(n, i requires 0 <= i < n => VehicleRow(Some(Plate(i)), "M", map[]))
  }

  const FIRST := VehicleRow(Some(""), "M", map[])

  function Data(n: nat): seq<VehicleRow> {
    [FIRST] + Behind(n)
  }

  /** One vehicle a page, and no fuel rows to find. */
  predicate Plain(c: Setting) {
    c.Valid() && c.fuelData == [] && c.merken == ["M"] && c.pageSize == 1 && c.fuelBatch == 1 && c.fuelLimit == 4
  }

  lemma {:induction false} PrefixIsBefore(a: string, b: string)
    requires a < b
    ensures Before(a, b)
  {
    if a != [] {
      assert a[0] == b[0] && a[1..] < b[1..];
      PrefixIsBefore(a[1..], b[1..]);
    }
  }

  lemma DataIsRegister(n: nat)
    ensures Register(Data(n))
  {
    var data := Data(n);
    forall i, j | 0 <= i < j < |data|
      ensures Before(data[i].kenteken.value, data[j].kenteken.value)
    {
      if i > 0 {
        assert data[i].kenteken == Some(Plate(i - 1));
      }
      assert data[j].kenteken == Some(Plate(j - 1));
      PrefixIsBefore(data[i].kenteken.value, data[j].kenteken.value);
    }
  }

  /** Every boundary lies between the first plate and the others. */
  lemma BoundaryBetween(k: nat, n: nat, i: nat)
    requires k < n
    ensures Before("", Boundary(k, n)) && Before(Boundary(k, n), Plate(i))
  {
    BandStartBounds(k, n);
    var code := BandStart(k, n);
    SymbolCode(code / 36);
    assert Boundary(k, n)[0] == ALPHABET[code / 36] < '~' == Plate(i)[0];
  }

  lemma {:induction false} AllSelected(data: seq<VehicleRow>, merken: seq<string>, after: Option<string>,
        upTo: Option<string>)
    requires forall i :: 0 <= i < |data| ==> Matches(data[i], merken, after, upTo)
    ensures Selected(data, merken, after, upTo) == data
  {
    if data != [] {
      AllSelected(data[1..], merken, after, upTo);
    }
  }

  lemma {:induction false} NoneSelected(data: seq<VehicleRow>, merken: seq<string>, after: Option<string>,
        upTo: Option<string>)
    requires forall i :: 0 <= i < |data| ==> !Matches(data[i], merken, after, upTo)
    ensures Selected(data, merken, after, upTo) == []
  {
    if data != [] {
      NoneSelected(data[1..], merken, after, upTo);
    }
  }

  lemma AtBoundary(boundary: string, plate: string)
    requires Before("", boundary) && Before(boundary, plate)
    ensures Above(Some(boundary), plate) && !Above(Some(boundary), "")
    ensures !UpTo(plate, Some(boundary)) && UpTo("", Some(boundary))
  {
    Trichotomy(boundary, plate);
  }

  lemma BandMatches(bands: nat, k: nat, i: nat)
    requires k < bands && bands >= 2
    ensures var band := Band(k, bands);
            && (Matches(VehicleRow(Some(Plate(i)), "M", map[]), ["M"], band.lo, band.hi) <==> k == bands - 1)
            && (Matches(FIRST, ["M"], band.lo, band.hi) <==> k == 0)
  {
    if k > 0 {
      BoundaryBetween(k, bands, i);
      AtBoundary(Boundary(k, bands), Plate(i));
    }
    if k + 1 < bands {
      BoundaryBetween(k + 1, bands, i);
      AtBoundary(Boundary(k + 1, bands), Plate(i));
    }
    assert Above(None, Plate(i)) && Above(None, "") && UpTo(Plate(i), None) && UpTo("", None);
    hide Boundary, Before, Plate, Above, UpTo;
  }

  /** The first band holds the first vehicle, the last one the others, and those between hold none. */
  lemma WhatBandsHold(c: Setting, n: nat, bands: nat, k: nat)
    requires c.data == Data(n) && c.merken == ["M"] && k < bands && bands >= 2
    ensures |c.Ahead(Band(k, bands), None)| == if k == 0 then 1 else if k == bands - 1 then n else 0
  {
    var band, behind := Band(k, bands), Behind(n);
    assert c.data[0] == FIRST && c.data[1..] == behind;
    hide Band, Matches;
    BandMatches(bands, k, 0);
    forall i | 0 <= i < n
      ensures Matches(behind[i], ["M"], band.lo, band.hi) <==> k == bands - 1
    {
      BandMatches(bands, k, i);
    }
    if k == bands - 1 {
      AllSelected(behind, ["M"], band.lo, band.hi);
    } else {
      NoneSelected(behind, ["M"], band.lo, band.hi);
    }
  }

  lemma NoFuelAnywhere(c: Setting, page: seq<VehicleRow>)
    requires Plain(c) && Register(page)
    ensures FetchFuel(c.fuelData, PlatesOf(page), c.fuelBatch, c.fuelLimit) == Ok([])
    ensures Joinable(page, [])
  {
    var plates := PlatesOf(page);
    PlatesSorted(page);
    NoFalseTruncation([], plates, 1, 4);
    FetchIsComplete([], plates, 1, 4);
  }

  // ----- One worker at a time

  /** The state with some other shared part and one worker's stage replaced. */
  function Put(s: State, i: nat, sh: Shared, w: Stage): State
    requires i < |s.workers|
  {
    State(sh, s.workers[i := w], None)
  }

  lemma PutTwice(s: State, i: nat, sh: Shared, w: Stage, sh': Shared, w': Stage)
    requires i < |s.workers|
    ensures Put(Put(s, i, sh, w), i, sh', w') == Put(s, i, sh', w')
    ensures var put := Put(s, i, sh, w);
            put.workers[i] == w && |put.workers| == |s.workers| && put.shared == sh && put.result.None?
  {
    assert s.workers[i := w][i := w'] == s.workers[i := w'];
  }

  predicate Acts(c: Setting, sh: Shared, w: Stage, a: Action, sh': Shared, w': Stage)
    requires c.Valid()
  {
    CanAct(c, sh, w, a) && Act(c, sh, w, a) == (sh', w') && !Over(c.failure, sh.counters)
      && !Over(c.failure, sh'.counters)
  }

  lemma NoStepYet(c: Setting, s: State, i: nat)
    requires c.Valid() && s.result.None? && i < |s.workers| && !Over(c.failure, s.shared.counters)
    ensures Leads(c, s, [], Put(s, i, s.shared, s.workers[i]))
  {
    assert s.workers[i := s.workers[i]] == s.workers;
    StayPut(c, s);
  }

  /** One more step of the worker. */
  lemma Extend(c: Setting, s: State, i: nat, sh: Shared, w: Stage, before: seq<Event>, a: Action, sh': Shared,
        w': Stage)
    returns (events: seq<Event>)
    requires c.Valid() && i < |s.workers| && Leads(c, s, before, Put(s, i, sh, w)) && Acts(c, sh, w, a, sh', w')
    ensures Leads(c, s, events, Put(s, i, sh', w'))
  {
    var middle, end := Put(s, i, sh, w), Put(s, i, sh', w');
    PutTwice(s, i, sh, w, sh', w');
    assert Enabled(c, middle, Work(i, a)) && Next(c, middle, Work(i, a)) == end;
    hide Act, CanAct, Enabled, Next, Over, Leads, Setting.Valid, Put;
    PutTwice(s, i, sh', w', sh', w');
    StayPut(c, end);
    OneMore(c, middle, Work(i, a), end, [], end);
    events := before + ([Work(i, a)] + []);
    OneAfterAnother(c, s, before, middle, [Work(i, a)] + [], end);
  }

  /** A worker at the top of a range in which something is left. */
  predicate Facing(c: Setting, s: State, i: nat, range: KentekenRange, cursor: Option<string>) {
    && s.result.None? && i < |s.workers| && s.workers[i] == RangeTop(range, cursor) && !s.shared.counters.aborted
    && c.Ahead(range, cursor) != []
  }

  /** The next page of a plain export with its fuel fetch, failed or not. */
  function NextBatch(c: Setting, range: KentekenRange, cursor: Option<string>, failed: bool): Batch {
    Batch(range, c.Page(range, cursor), [], failed)
  }

  lemma PlainPage(c: Setting, range: KentekenRange, cursor: Option<string>)
    requires Plain(c) && c.Ahead(range, cursor) != []
    ensures var page := c.Page(range, cursor);
            && |page| == 1 && PageOk(c, range, page) && Register(page)
            && c.Ahead(range, LastPlate(page)) == LeftBehind(c, range, page)
            && |LeftBehind(c, range, page)| == |c.Ahead(range, cursor)| - 1
  {
    PageSplitsAhead(c, range, cursor);
  }

  function AfterFetch(sh: Shared, page: seq<VehicleRow>, failed: bool): Shared {
    if failed then sh.(summary := NoteFailure(sh.summary, page)) else sh
  }

  function Attempted(sh: Shared): Shared {
    sh.(summary := sh.summary.(attempted := sh.summary.attempted + 1))
  }

  function WithCounters(sh: Shared, attempted: nat, failures: nat): Shared {
    sh.(counters := Counters(attempted, failures, sh.counters.aborted))
  }

  lemma FetchActs(c: Setting, sh: Shared, range: KentekenRange, cursor: Option<string>, failed: bool)
    requires Plain(c) && !sh.counters.aborted && c.Ahead(range, cursor) != [] && !Over(c.failure, sh.counters)
    ensures var b, page := NextBatch(c, range, cursor, failed), c.Page(range, cursor);
            var fetched := AfterFetch(sh, page, failed);
            && Acts(c, sh, RangeTop(range, cursor), ReadAbort, sh, Paging(range, cursor))
            && Acts(c, sh, Paging(range, cursor), PageArrives, sh, Fueling(range, page))
            && Acts(c, sh, Fueling(range, page), if failed then FuelFails else FuelArrives, fetched, Fueled(b))
            && Acts(c, fetched, Fueled(b), NoteAttempt, Attempted(fetched), Recording(b, Outside))
  {
    PlainPage(c, range, cursor);
    NoFuelAnywhere(c, c.Page(range, cursor));
  }

  /** From the top of a range to a fetch whose failure is noted in the summary. */
  lemma Fetches(c: Setting, s: State, i: nat, range: KentekenRange, cursor: Option<string>, failed: bool)
    returns (events: seq<Event>)
    requires Plain(c) && Facing(c, s, i, range, cursor) && !Over(c.failure, s.shared.counters)
    ensures var b := NextBatch(c, range, cursor, failed);
            Leads(c, s, events, Put(s, i, Attempted(AfterFetch(s.shared, b.page, failed)), Recording(b, Outside)))
  {
    var sh, page := s.shared, c.Page(range, cursor);
    var b, fetched := NextBatch(c, range, cursor, failed), AfterFetch(sh, page, failed);
    var a := if failed then FuelFails else FuelArrives;
    assert c.Valid() && b.page == page;
    hide Acts, Act, Setting.Valid, AfterFetch, NextBatch, Leads, Put, Setting.Page, Setting.Ahead, Over;
    FetchActs(c, sh, range, cursor, failed);
    NoStepYet(c, s, i);
    events := Extend(c, s, i, sh, s.workers[i], [], ReadAbort, sh, Paging(range, cursor));
    events := Extend(c, s, i, sh, Paging(range, cursor), events, PageArrives, sh, Fueling(range, page));
    events := Extend(c, s, i, sh, Fueling(range, page), events, a, fetched, Fueled(b));
    events := Extend(c, s, i, fetched, Fueled(b), events, NoteAttempt, Attempted(fetched), Recording(b, Outside));
  }

  /** The totals before, during and after a call. */
  predicate StaysWithin(config: FailureConfig, c: Counters, failed: bool) {
    && !c.aborted && !ShouldAbort(config, c.failures, c.attempted) && !ShouldAbort(config, c.failures, c.attempted + 1)
    && !ShouldAbort(config, if failed then c.failures + 1 else c.failures, c.attempted + 1)
  }

  /** A whole call to the counter that does not abort. */
  lemma Records(c: Setting, s: State, i: nat, b: Batch, sh: Shared, before: seq<Event>) returns (events: seq<Event>)
    requires c.Valid() && i < |s.workers| && Leads(c, s, before, Put(s, i, sh, Recording(b, Outside)))
    requires StaysWithin(c.failure, sh.counters, b.failed)
    ensures var k := if b.failed then sh.counters.failures + 1 else sh.counters.failures;
            Leads(c, s, events, Put(s, i, WithCounters(sh, sh.counters.attempted + 1, k), Recorded(b)))
  {
    var n, k := sh.counters.attempted + 1, sh.counters.failures;
    var k' := if b.failed then k + 1 else k;
    var sh1, sh2 := WithCounters(sh, n, k), WithCounters(sh, n, k');
    hide ShouldAbort, Setting.Valid;
    assert Acts(c, sh, Recording(b, Outside), Record, sh1, Recording(b, Counted(b.failed, n)));
    assert Acts(c, sh1, Recording(b, Counted(b.failed, n)), Record, sh2, Recording(b, Weighed(n, k')));
    assert Acts(c, sh2, Recording(b, Weighed(n, k')), Record, sh2, Recording(b, Settled));
    assert Acts(c, sh2, Recording(b, Settled), Record, sh2, Recorded(b));
    hide Acts, Act, WithCounters, Leads, Put;
    events := Extend(c, s, i, sh, Recording(b, Outside), before, Record, sh1, Recording(b, Counted(b.failed, n)));
    events := Extend(c, s, i, sh1, Recording(b, Counted(b.failed, n)), events, Record, sh2,
      Recording(b, Weighed(n, k')));
    events := Extend(c, s, i, sh2, Recording(b, Weighed(n, k')), events, Record, sh2, Recording(b, Settled));
    events := Extend(c, s, i, sh2, Recording(b, Settled), events, Record, sh2, Recorded(b));
  }

  function Exported(sh: Shared, rows: seq<WidenedRow>): Shared {
    sh.(emitted := sh.emitted + rows, emittedCount := sh.emittedCount + |rows|)
  }

  /** The page is joined and written, and the worker is back at the top of its range. */
  lemma Exports(c: Setting, s: State, i: nat, b: Batch, sh: Shared, before: seq<Event>) returns (events: seq<Event>)
    requires Plain(c) && i < |s.workers| && Leads(c, s, before, Put(s, i, sh, Recorded(b)))
    requires |b.page| == 1 && Register(b.page) && b.fuel == [] && !Over(c.failure, sh.counters)
    ensures var rows := NestedLoopJoin(b.page, b.fuel, b.failed);
            Leads(c, s, events, Put(s, i, Exported(sh, rows), RangeTop(b.range, LastPlate(b.page))))
  {
    NoFuelAnywhere(c, b.page);
    var rows := NestedLoopJoin(b.page, b.fuel, b.failed);
    var written := sh.(emitted := sh.emitted + rows);
    hide Joinable, NestedLoopJoin, Over;
    assert Acts(c, sh, Recorded(b), Join, sh, Joined(b.range, b.page, rows));
    assert Acts(c, sh, Joined(b.range, b.page, rows), Write, written, Written(b.range, b.page, rows));
    assert Acts(c, written, Written(b.range, b.page, rows), Count, Exported(sh, rows),
      RangeTop(b.range, LastPlate(b.page)));
    hide Acts, Act, Leads, Put, Setting.Valid, Exported;
    events := Extend(c, s, i, sh, Recorded(b), before, Join, sh, Joined(b.range, b.page, rows));
    events := Extend(c, s, i, sh, Joined(b.range, b.page, rows), events, Write, written,
      Written(b.range, b.page, rows));
    events := Extend(c, s, i, written, Written(b.range, b.page, rows), events,
                     Count, Exported(sh, rows), RangeTop(b.range, LastPlate(b.page)));
  }

  // ----- Whole pages

  /** The worker has paged on in its range; totals as given, and nothing claimed. */
  predicate PagedOn(c: Setting, s: State, end: State, i: nat, range: KentekenRange, cursor: Option<string>,
        attempted: nat, failures: nat)
  {
    && i < |s.workers| && end.result.None? && end.workers == s.workers[i := RangeTop(range, cursor)]
    && end.shared.counters == Counters(attempted, failures, false)
    && end.shared.queue == s.shared.queue && end.shared.errorFlag == s.shared.errorFlag
  }

  lemma OnePage(c: Setting, s: State, i: nat, range: KentekenRange, cursor: Option<string>, failed: bool)
    returns (events: seq<Event>, end: State, cursor': Option<string>)
    requires Plain(c) && Facing(c, s, i, range, cursor) && StaysWithin(c.failure, s.shared.counters, failed)
    ensures Leads(c, s, events, end)
    ensures PagedOn(c, s, end, i, range, cursor', s.shared.counters.attempted + 1,
                    s.shared.counters.failures + if failed then 1 else 0)
    ensures |c.Ahead(range, cursor')| == |c.Ahead(range, cursor)| - 1
  {
    var b := NextBatch(c, range, cursor, failed);
    PlainPage(c, range, cursor);
    cursor' := LastPlate(b.page);
    var sh := Attempted(AfterFetch(s.shared, b.page, failed));
    var k := if failed then sh.counters.failures + 1 else sh.counters.failures;
    var counted := WithCounters(sh, sh.counters.attempted + 1, k);
    var rows := NestedLoopJoin(b.page, b.fuel, b.failed);
    hide ShouldAbort, NestedLoopJoin, Setting.Valid, Leads, Setting.Ahead, Setting.Page, LeftBehind;
    events := Fetches(c, s, i, range, cursor, failed);
    events := Records(c, s, i, b, sh, events);
    events := Exports(c, s, i, b, counted, events);
    end := Put(s, i, Exported(counted, rows), RangeTop(range, cursor'));
  }

  lemma RoomyStaysWithin(config: FailureConfig, c: Counters, failed: bool, n: nat)
    requires config.ratio > 0.0 && !c.aborted && n > 0
    requires if failed then Covers(config, c.failures + n, c.attempted) else c.failures == 0
    ensures StaysWithin(config, c, failed)
    ensures failed ==> Covers(config, c.failures + n, c.attempted + 1)
    ensures !Over(config, c)
  {
    var k := if failed then c.failures + 1 else c.failures;
    hide ShouldAbort, Covers;
    if failed {
      CoversLess(config, c.failures + n, c.attempted, c.failures, c.attempted);
      CoversLess(config, c.failures + n, c.attempted, c.failures, c.attempted + 1);
      CoversLess(config, c.failures + n, c.attempted, k, c.attempted + 1);
      CoversLess(config, c.failures + n, c.attempted, c.failures + n, c.attempted + 1);
    }
    RoomyIsNotOver(config, c);
    RoomyIsNotOver(config, c.(attempted := c.attempted + 1));
    RoomyIsNotOver(config, Counters(c.attempted + 1, k, false));
  }

  lemma NoPages(c: Setting, s: State, i: nat, range: KentekenRange, cursor: Option<string>)
    requires c.Valid() && s.result.None? && i < |s.workers| && s.workers[i] == RangeTop(range, cursor)
             && !s.shared.counters.aborted
    requires !Over(c.failure, s.shared.counters)
    ensures Leads(c, s, [], s)
    ensures PagedOn(c, s, s, i, range, cursor, s.shared.counters.attempted, s.shared.counters.failures)
  {
    assert s.workers[i := s.workers[i]] == s.workers;
    StayPut(c, s);
  }

  /** Any number of pages of one kind, as many as are left. */
  lemma {:induction false} Pages(c: Setting, s: State, i: nat, range: KentekenRange, cursor: Option<string>,
        failed: bool, n: nat)
    returns (events: seq<Event>, end: State, cursor': Option<string>)
    requires Plain(c) && s.result.None? && i < |s.workers| && s.workers[i] == RangeTop(range, cursor)
    requires !s.shared.counters.aborted && n <= |c.Ahead(range, cursor)|
    requires c.failure.ratio > 0.0
    requires if failed then Covers(c.failure, s.shared.counters.failures + n, s.shared.counters.attempted)
             else s.shared.counters.failures == 0
    ensures Leads(c, s, events, end)
    ensures PagedOn(c, s, end, i, range, cursor', s.shared.counters.attempted + n,
                    s.shared.counters.failures + if failed then n else 0)
    ensures |c.Ahead(range, cursor')| == |c.Ahead(range, cursor)| - n
    decreases n
  {
    var counters := s.shared.counters;
    if n == 0 {
      events, end, cursor' := [], s, cursor;
      RoomyIsNotOver(c.failure, counters);
      NoPages(c, s, i, range, cursor);
    } else {
      RoomyStaysWithin(c.failure, counters, failed, n);
      hide StaysWithin, Covers, ShouldAbort, Setting.Valid, Setting.Ahead, Leads, Over;
      var first, middle, next := OnePage(c, s, i, range, cursor, failed);
      var rest;
      rest, end, cursor' := Pages(c, middle, i, range, next, failed, n - 1);
      events := first + rest;
      OneAfterAnother(c, s, first, middle, rest, end);
      assert s.workers[i := RangeTop(range, next)][i := RangeTop(range, cursor')]
        == s.workers[i := RangeTop(range, cursor')];
    }
  }

  // ----- Claiming ranges

  /** The run can still claim ranges. */
  predicate Claimable(c: Setting, s: State, i: nat) {
    && s.result.None? && i < |s.workers| && !s.shared.counters.aborted && !s.shared.errorFlag
    && s.shared.queue != [] && !Over(c.failure, s.shared.counters)
  }

  function Popped(sh: Shared): Shared
    requires sh.queue != []
  {
    sh.(queue := sh.queue[1..])
  }

  lemma Claims(c: Setting, s: State, i: nat, sh: Shared, before: seq<Event>) returns (events: seq<Event>)
    requires c.Valid() && i < |s.workers| && Leads(c, s, before, Put(s, i, sh, Idle))
             && Claimable(c, Put(s, i, sh, Idle), i)
    ensures Leads(c, s, events, Put(s, i, Popped(sh), RangeTop(sh.queue[0], None)))
  {
    assert Acts(c, sh, Idle, ReadAbort, sh, Unaborted) && Acts(c, sh, Unaborted, ReadErrorFlag, sh, Claiming);
    assert Acts(c, sh, Claiming, Pop, Popped(sh), RangeTop(sh.queue[0], None));
    hide Acts, Act, Leads, Put, Setting.Valid, Over;
    events := Extend(c, s, i, sh, Idle, before, ReadAbort, sh, Unaborted);
    events := Extend(c, s, i, sh, Unaborted, events, ReadErrorFlag, sh, Claiming);
    events := Extend(c, s, i, sh, Claiming, events, Pop, Popped(sh), RangeTop(sh.queue[0], None));
  }

  /** A range whose first page is empty is left at once; only the history changes. */
  lemma Passes(c: Setting, s: State, i: nat, range: KentekenRange, sh: Shared, before: seq<Event>)
    returns (events: seq<Event>, sh': Shared)
    requires c.Valid() && i < |s.workers| && Leads(c, s, before, Put(s, i, sh, RangeTop(range, None)))
    requires c.Page(range, None) == [] && !sh.counters.aborted && !Over(c.failure, sh.counters)
    ensures Leads(c, s, events, Put(s, i, sh', Idle)) && sh' == sh.(abandoned := sh'.abandoned)
  {
    sh' := Abandon(c, sh, Paging(range, None));
    assert Acts(c, sh, RangeTop(range, None), ReadAbort, sh, Paging(range, None));
    assert Acts(c, sh, Paging(range, None), PageArrives, sh', Idle);
    hide Acts, Act, Leads, Put, Setting.Valid, Over;
    events := Extend(c, s, i, sh, RangeTop(range, None), before, ReadAbort, sh, Paging(range, None));
    events := Extend(c, s, i, sh, Paging(range, None), events, PageArrives, sh', Idle);
  }

  lemma EmptyAhead(c: Setting, range: KentekenRange)
    requires c.Ahead(range, None) == []
    ensures c.Page(range, None) == []
  {
  }

  /** A worker passes the empty bands up to the last one. */
  lemma {:induction false} ClaimsLast(c: Setting, s: State, i: nat, sh: Shared, before: seq<Event>, bands: nat, k: nat,
        n: nat)
    returns (events: seq<Event>, sh': Shared)
    requires c.Valid() && i < |s.workers| && Leads(c, s, before, Put(s, i, sh, Idle))
             && Claimable(c, Put(s, i, sh, Idle), i)
    requires bands >= 2 && 0 < k < bands && sh.queue == Bands(bands)[k..] && c.data == Data(n) && c.merken == ["M"]
    ensures Leads(c, s, events, Put(s, i, sh', RangeTop(Band(bands - 1, bands), None)))
    ensures sh' == sh.(queue := [], abandoned := sh'.abandoned)
    decreases bands - k
  {
    assert sh.queue[0] == Band(k, bands) && sh.queue[1..] == Bands(bands)[k + 1..];
    hide Acts, Act, Leads, Setting.Valid, Over, Bands, Band, Setting.Ahead;
    events := Claims(c, s, i, sh, before);
    sh' := Popped(sh);
    if k < bands - 1 {
      WhatBandsHold(c, n, bands, k);
      EmptyAhead(c, Band(k, bands));
      events, sh' := Passes(c, s, i, Band(k, bands), sh', events);
      assert |Bands(bands)| == bands by { BandsTile(bands); }
      events, sh' := ClaimsLast(c, s, i, sh', events, bands, k + 1, n);
    }
  }

  // ----- The run

  /** Worker 0 has counted its attempt, which is about to fail; nothing else has happened. */
  predicate WaitsWithAttempt(c: Setting, s: State, b: Batch) {
    && s.result.None? && |s.workers| >= 2 && s.workers[0] == Recording(b, Counted(true, 1)) && b.failed
      && s.workers[1] == Idle
    && s.shared.counters == Counters(1, 0, false) && !s.shared.errorFlag && s.shared.queue == Bands(c.rangeCount)[1..]
  }

  /** The first failing call to the counter begins. */
  lemma BeginsCall(c: Setting, sh: Shared, b: Batch)
    requires c.Valid() && sh.counters == Counters(0, 0, false) && b.failed
    requires !Over(c.failure, Counters(0, 0, false)) && !Over(c.failure, Counters(1, 0, false))
    ensures Acts(c, sh, Recording(b, Outside), Record, WithCounters(sh, 1, 0), Recording(b, Counted(true, 1)))
  {
    hide Setting.Valid, Over;
  }

  lemma AtTheOpening(c: Setting, n: nat)
    requires Plain(c) && c.data == Data(n) && c.rangeCount >= 2 && WorkerTotal(c) >= 2
    ensures var s, band := Init(c), Band(0, c.rangeCount);
            && s.result.None? && !s.shared.errorFlag && !s.shared.counters.aborted
            && s.shared.queue == Bands(c.rangeCount) && |s.shared.queue| > 0 && s.shared.queue[0] == band
            && |s.workers| >= 2 && s.workers[0] == Idle == s.workers[1] && Put(s, 0, s.shared, Idle) == s
            && s.shared.counters == Counters(0, 0, false) && c.Ahead(band, None) != []
    ensures !Over(c.failure, Counters(0, 0, false)) && !Over(c.failure, Counters(1, 0, false))
  {
    BandsTile(c.rangeCount);
    WhatBandsHold(c, n, c.rangeCount, 0);
    assert Init(c).workers[0 := Idle] == Init(c).workers;
  }

  lemma Opens(c: Setting, n: nat) returns (events: seq<Event>, end: State, b: Batch)
    requires Plain(c) && c.data == Data(n) && c.rangeCount >= 2 && WorkerTotal(c) >= 2
    ensures Leads(c, Init(c), events, end) && WaitsWithAttempt(c, end, b)
  {
    var s, band := Init(c), Band(0, c.rangeCount);
    var sh := s.shared;
    hide Init, Over, Setting.Valid, Leads, Bands, Band, Setting.Ahead, Setting.Page, ShouldAbort;
    AtTheOpening(c, n);
    NoStepYet(c, s, 0);
    var first := Claims(c, s, 0, sh, []);
    var middle := Put(s, 0, Popped(sh), RangeTop(band, None));
    var second := Fetches(c, middle, 0, band, None, true);
    b := NextBatch(c, band, None, true);
    var fetched := Attempted(AfterFetch(middle.shared, b.page, true));
    var counted := WithCounters(fetched, 1, 0);
    BeginsCall(c, fetched, b);
    second := Extend(c, middle, 0, fetched, Recording(b, Outside), second, Record, counted,
      Recording(b, Counted(true, 1)));
    end := Put(middle, 0, counted, Recording(b, Counted(true, 1)));
    events := first + second;
    OneAfterAnother(c, s, first, middle, second, end);
  }

  /** Worker 1 faces the last band, with all the other vehicles in it. */
  predicate FacesTheRest(c: Setting, s: State, waiting: Stage, n: nat) {
    && s.result.None? && |s.workers| >= 2 && s.workers[0] == waiting && c.rangeCount >= 2
    && s.workers[1] == RangeTop(Band(c.rangeCount - 1, c.rangeCount), None)
    && s.shared.counters == Counters(1, 0, false) && |c.Ahead(Band(c.rangeCount - 1, c.rangeCount), None)| == n
  }

  lemma GoesToTheRest(c: Setting, s: State, b: Batch, n: nat) returns (events: seq<Event>, end: State)
    requires Plain(c) && c.data == Data(n) && c.rangeCount >= 2 && WaitsWithAttempt(c, s, b)
    ensures Leads(c, s, events, end) && FacesTheRest(c, end, s.workers[0], n)
  {
    WhatBandsHold(c, n, c.rangeCount, c.rangeCount - 1);
    BandsTile(c.rangeCount);
    assert !Over(c.failure, Counters(1, 0, false));
    assert Put(s, 1, s.shared, Idle) == s by { assert s.workers[1 := Idle] == s.workers; }
    hide Over, Setting.Valid, Leads, Bands, Band, Setting.Ahead, ShouldAbort, Data;
    NoStepYet(c, s, 1);
    var sh;
    events, sh := ClaimsLast(c, s, 1, s.shared, [], c.rangeCount, 1, n);
    end := Put(s, 1, sh, RangeTop(Band(c.rangeCount - 1, c.rangeCount), None));
  }

  /** Worker 1 succeeds until the ratio allows many failures, and then fails that often. */
  lemma Fills(c: Setting, s: State, waiting: Stage) returns (events: seq<Event>, end: State)
    requires Plain(c) && c.failure.ratio > 0.0
    requires FacesTheRest(c, s, waiting, Cover(c.failure) + Enough(c.failure) - 1)
    ensures Leads(c, s, events, end)
    ensures end.result.None? && |end.workers| >= 2 && end.workers[0] == waiting
    ensures end.shared.counters == Counters(Cover(c.failure) + Enough(c.failure), Enough(c.failure) - 1, false)
  {
    var k, cover, last := Enough(c.failure), Cover(c.failure), Band(c.rangeCount - 1, c.rangeCount);
    CoverIsRoomy(c.failure, 1 + cover);
    hide Over, Setting.Valid, Leads, Band, Setting.Ahead, ShouldAbort, Enough, Cover, Covers;
    CoversLess(c.failure, k, 1 + cover, 0 + (k - 1), 1 + cover);
    var successes, middle, cursor := Pages(c, s, 1, last, None, false, cover);
    var failures, cursor';
    failures, end, cursor' := Pages(c, middle, 1, last, cursor, true, k - 1);
    events := successes + failures;
    OneAfterAnother(c, s, successes, middle, failures, end);
  }

  /** Worker 0 fails at last and weighs all failures against its one attempt. */
  lemma Trips(c: Setting, s: State, b: Batch) returns (events: seq<Event>, end: State)
    requires c.Valid() && c.failure.ratio > 0.0 && s.result.None? && |s.workers| > 0
    requires s.workers[0] == Recording(b, Counted(true, 1)) && b.failed
    requires s.shared.counters == Counters(Cover(c.failure) + Enough(c.failure), Enough(c.failure) - 1, false)
    ensures Leads(c, s, events, end) && end.shared.counters.aborted
  {
    var k, n, sh := Enough(c.failure), Cover(c.failure) + Enough(c.failure), s.shared;
    CoverIsRoomy(c.failure, n);
    assert c.failure.floor < k;
    hide Setting.Valid, Leads, Enough, Cover, Covers, ShouldAbort, Over;
    CoversLess(c.failure, k, n, k - 1, n);
    RoomyIsNotOver(c.failure, Counters(n, k - 1, false));
    RoomyIsNotOver(c.failure, Counters(n, k, false));
    RoomyIsNotOver(c.failure, Counters(n, k, true));
    var weighed := WithCounters(sh, n, k);
    var tripped := sh.(counters := Counters(n, k, true));
    assert Acts(c, sh, Recording(b, Counted(true, 1)), Record, weighed, Recording(b, Weighed(1, k)));
    assert Acts(c, weighed, Recording(b, Weighed(1, k)), Record, tripped, Recording(b, Settled));
    NoStepYet(c, s, 0);
    events := Extend(c, s, 0, sh, Recording(b, Counted(true, 1)), [], Record, weighed, Recording(b, Weighed(1, k)));
    events := Extend(c, s, 0, weighed, Recording(b, Weighed(1, k)), events, Record, tripped, Recording(b, Settled));
    end := Put(s, 0, tripped, Recording(b, Settled));
  }

  lemma EarlyExportExists(config: FailureConfig, rangeCount: nat, workerCount: nat)
    returns (c: Setting, events: seq<Event>)
    requires config.ratio > 0.0
    requires rangeCount >= 2 && workerCount >= 2
    ensures AbortsEarly(c, events) && c.failure == config && c.rangeCount == rangeCount && c.workerCount == workerCount
  {
    var n := Cover(config) + Enough(config) - 1;
    c := Setting(Data(n), [], ["M"], rangeCount, workerCount, 1, 1, 4, config);
    DataIsRegister(n);
    assert Plain(c) && WorkerTotal(c) >= 2;
    hide Leads, Cover, Enough, Setting.Valid, Data;
    var first, s1, b := Opens(c, n);
    var second, s2 := GoesToTheRest(c, s1, b, n);
    var third, s3 := Fills(c, s2, s1.workers[0]);
    var fourth, end := Trips(c, s3, b);
    OneAfterAnother(c, s2, third, s3, fourth, end);
    OneAfterAnother(c, s1, second, s2, third + fourth, end);
    events := first + (second + (third + fourth));
    OneAfterAnother(c, Init(c), first, s1, second + (third + fourth), end);
    LeadsToEarly(c, events, end);
  }

  lemma LeadsToEarly(c: Setting, events: seq<Event>, end: State)
    requires c.Valid() && Leads(c, Init(c), events, end) && end.shared.counters.aborted
    ensures AbortsEarly(c, events)
  {
  }

  /** Some data and some schedule make an export with this configuration abort
      early exactly when the ratio is positive and at least two workers run. */
  lemma EarlyExportExactly(config: FailureConfig, rangeCount: nat, workerCount: nat)
    ensures (exists c, events :: AbortsEarly(c, events) && c.failure == config
                                 && c.rangeCount == rangeCount && c.workerCount == workerCount)
       <==> config.ratio > 0.0 && rangeCount >= 2 && workerCount >= 2
  {
    if config.ratio > 0.0 && rangeCount >= 2 && workerCount >= 2 {
      var c, events := EarlyExportExists(config, rangeCount, workerCount);
    }
    forall c, events | AbortsEarly(c, events) && c.failure == config && c.rangeCount == rangeCount
      && c.workerCount == workerCount
      ensures config.ratio > 0.0 && rangeCount >= 2 && workerCount >= 2
    {
      AbortsEarlyOnlyIf(c, events);
    }
  }
}
