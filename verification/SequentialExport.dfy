/** The export with a row limit: one cursor, one page after the other. */
module SequentialExport {
  import opened Wrappers
  import opened Arithmetic
  import opened Upstream
  import opened AbortCounter
  import opened MergeJoin
  import opened FuelFetch
  import opened ConcurrentExport
  import opened ConcurrentConservation
  import opened ConcurrentSafety
  import opened ConcurrentSuccess

  /** What the environment does to the `n`-th page: each of its requests may
      fail, and a failing write may get some of the rows out first. */
  datatype Faults = Faults(pageOk: nat -> bool, fuelOk: nat -> bool, writeOk: nat -> bool, written: nat -> nat)

  predicate Faultless(f: Faults, pages: nat) {
    forall n: nat :: n < pages ==> f.pageOk(n) && f.fuelOk(n) && f.writeOk(n)
  }

  /** How many of the first pages lose their fuel rows. */
  function FailedBefore(f: Faults, n: nat): nat {
    if n == 0 then 0 else FailedBefore(f, n - 1) + if f.fuelOk(n - 1) then 0 else 1
  }

  /** More failures than the floor, and more than their share of the fetches. */
  predicate TooMany(config: FailureConfig, failures: nat, attempted: nat) {
    failures > config.floor && failures as real > config.ratio * attempted as real
  }

  /** The n-th turn fails: its page fails, or there is a page and its rows cannot
      be written or too many fetches have failed. */
  predicate StopsAt(c: Setting, f: Faults, n: nat) {
    || !f.pageOk(n)
    || (n * c.pageSize < |c.Vehicles()| && (TooMany(c.failure, FailedBefore(f, n + 1), n + 1) || !f.writeOk(n)))
  }

  /** How many turns the loop takes if none fails: full pages up to the limit, or a last page that is not full. */
  function Turns(c: Setting, limit: Option<nat>): nat
    requires c.pageSize > 0
  {
    var n := |c.Vehicles()|;
    if limit.Some? && limit.value <= n then (limit.value + c.pageSize - 1) / c.pageSize else n / c.pageSize + 1
  }

  /** The vehicles asked for: the first `limit` in plate order, or all. */
  function Wanted(c: Setting, limit: Option<nat>): seq<VehicleRow> {
    if limit.Some? && limit.value < |c.Vehicles()| then c.Vehicles()[..limit.value] else c.Vehicles()
  }

  function Remaining(c: Setting, cursor: Option<string>): seq<VehicleRow> {
    Selected(c.data, c.merken, cursor, None)
  }

  /** The pages so far and the rows after the cursor make up the population. */
  predicate OnTrack(c: Setting, limit: Option<nat>, cursor: Option<string>, emitted: seq<WidenedRow>, summary: Summary)
  {
    && VehiclesOf(emitted) + Remaining(c, cursor) == c.Vehicles()
    && (limit.Some? ==> |emitted| < limit.value)
    && RowsOk(c, emitted)
    && Accounted(emitted, summary)
  }

  predicate Accounted(emitted: seq<WidenedRow>, summary: Summary) {
    && Unavailable(emitted) == summary.vehiclesAffected == Affected(summary.failedRanges)
    && summary.failures == |summary.failedRanges|
    && summary.failures <= summary.attempted
  }

  lemma SplitPage(c: Setting, cursor: Option<string>, size: nat)
    requires c.Valid() && size > 0
    ensures var page := Answer(c.data, PageQuery(c.merken, cursor, size));
            && |page| <= size && Register(page) && FromPopulation(c, page)
            && (page == [] ==> Remaining(c, cursor) == [])
            && (page != [] ==> Remaining(c, cursor) == page + Remaining(c, LastPlate(page)))
            && (page != [] && |page| < size ==> Remaining(c, LastPlate(page)) == [])
  {
    var rows := Remaining(c, cursor);
    var page := Answer(c.data, PageQuery(c.merken, cursor, size));
    SelectedIsRegister(c.data, c.merken, cursor, None);
    SelectedMatch(c.data, c.merken, cursor, None);
    SelectedMatch(c.data, c.merken, None, None);
    assert rows == page + rows[|page|..];
    PrefixIsRegister(rows, page);
    forall i | 0 <= i < |page|
      ensures page[i] in c.Vehicles()
    {
      assert page[i] == rows[i] && rows[i] in rows;
      assert Matches(page[i], c.merken, None, None);
    }
    if page != [] {
      ResumeAfterPage(c.data, c.merken, cursor, None, page, rows[|page|..]);
    }
  }

  lemma OrderlyPage(c: Setting, page: seq<VehicleRow>, fuel: seq<FuelRow>, failed: bool)
    requires c.Valid() && Register(page) && FromPopulation(c, page) && GoodFuel(c, page, fuel, failed)
    ensures Orderly(c) || failed ==> Joinable(page, fuel)
    ensures Orderly(c) ==> FetchFuel(c.fuelData, PlatesOf(page), c.fuelBatch, c.fuelLimit).Ok?
  {
    if Orderly(c) {
      PageIsFetchable(c, page);
      if !failed {
        PageIsJoinable(c, page, fuel);
      }
    }
    if failed {
      assert fuel == [] && FuelInOrder(fuel);
    }
  }

  /** Taking the rows of one page, up to the limit. */
  method TakeRows(rows: seq<WidenedRow>, produced: nat, limit: Option<nat>)
    returns (batch: seq<WidenedRow>, hitLimit: bool)
    requires limit.Some? ==> produced + |rows| <= limit.value
    ensures batch == rows
    ensures hitLimit <==> limit.Some? && rows != [] && produced + |rows| == limit.value
  {
    batch, hitLimit := [], false;
    var count := produced;
    for i := 0 to |rows|
      invariant batch == rows[..i] && count == produced + i && !hitLimit
      invariant limit.Some? && i > 0 ==> count < limit.value
    {
      batch := batch + [rows[i]];
      count := count + 1;
      if limit.Some? && count >= limit.value {
        hitLimit := true;
        return;
      }
    }
  }

  method FetchFuelOrMark(c: Setting, page: seq<VehicleRow>, fuelOk: bool, summary: Summary)
    returns (fuel: seq<FuelRow>, failed: bool, summary': Summary)
    requires c.Valid() && page != [] && Register(page) && summary.failures <= summary.attempted
    ensures GoodFuel(c, page, fuel, failed)
    ensures summary'.attempted == summary.attempted + 1
    ensures if failed then summary' == NoteFailure(summary.(attempted := summary.attempted + 1), page)
            else summary' == summary.(attempted := summary.attempted + 1)
    ensures failed <==> !fuelOk || FetchFuel(c.fuelData, PlatesOf(page), c.fuelBatch, c.fuelLimit).Err?
  {
    summary' := summary.(attempted := summary.attempted + 1);
    var fetched := FetchFuel(c.fuelData, PlatesOf(page), c.fuelBatch, c.fuelLimit);
    if fuelOk && fetched.Ok? {
      fuel, failed := fetched.value, false;
    } else {
      fuel, failed := [], true;
      summary' := NoteFailure(summary', page);
    }
  }

  lemma PageAccounted(c: Setting, emitted: seq<WidenedRow>, rows: seq<WidenedRow>, page: seq<VehicleRow>, failed: bool,
      summary: Summary, summary': Summary)
    requires Accounted(emitted, summary) && |rows| == |page|
    requires Unavailable(rows) == if failed then |page| else 0
    requires var s := summary.(attempted := summary.attempted + 1);
             summary' == if failed then NoteFailure(s, page) else s
    ensures Accounted(emitted + rows, summary')
  {
    UnavailableConcat(emitted, rows);
    if failed {
      FailureNoted(summary.(attempted := summary.attempted + 1), page);
    }
  }

  lemma PageOnTrack(c: Setting, cursor: Option<string>, emitted: seq<WidenedRow>, page: seq<VehicleRow>,
        rows: seq<WidenedRow>)
    requires VehiclesOf(emitted) + Remaining(c, cursor) == c.Vehicles() && page != []
    requires Remaining(c, cursor) == page + Remaining(c, LastPlate(page)) && VehiclesOf(rows) == page
    requires RowsOk(c, emitted) && RowsOk(c, rows)
    ensures VehiclesOf(emitted + rows) + Remaining(c, LastPlate(page)) == c.Vehicles()
    ensures RowsOk(c, emitted + rows)
    ensures |rows| == |page|
  {
    assert |VehiclesOf(rows)| == |rows|;
    RowsOkJoin(c, emitted, rows, |rows|);
    hide Selected, RowsOk;
    assert VehiclesOf(emitted + rows) == VehiclesOf(emitted) + page;
  }

  lemma WantedSoFar(c: Setting, limit: Option<nat>, emitted: seq<WidenedRow>, rest: seq<VehicleRow>)
    requires VehiclesOf(emitted) + rest == c.Vehicles() && (limit.Some? ==> |emitted| <= limit.value)
    ensures VehiclesOf(emitted) <= Wanted(c, limit)
    ensures rest == [] || limit == Some(|emitted|) ==> VehiclesOf(emitted) == Wanted(c, limit)
  {
    hide Setting.Vehicles;
    assert |VehiclesOf(emitted)| == |emitted|;
    assert c.Vehicles()[..|emitted|] == VehiclesOf(emitted);
  }

  lemma PartOfPage(c: Setting, limit: Option<nat>, emitted: seq<WidenedRow>, batch: seq<WidenedRow>, written: nat,
        rest: seq<VehicleRow>)
    requires VehiclesOf(emitted + batch) + rest == c.Vehicles() && (limit.Some? ==> |emitted + batch| <= limit.value)
    requires RowsOk(c, emitted + batch)
    ensures var part := emitted + if written < |batch| then batch[..written] else batch;
            VehiclesOf(part) <= Wanted(c, limit) && RowsOk(c, part)
  {
    WantedSoFar(c, limit, emitted + batch, rest);
    hide Setting.Vehicles, RowOk, Wanted;
    var part := emitted + if written < |batch| then batch[..written] else batch;
    assert part == (emitted + batch)[..|part|];
    assert VehiclesOf(part) == VehiclesOf(emitted + batch)[..|part|];
    assert |VehiclesOf(emitted + batch)| == |emitted + batch|;
  }

  /** How a turn of the loop ends. */
  datatype PageEnd = Exhausted | LimitReached | Resume(cursor: Option<string>) | Stopped(error: PipelineError)

  lemma TooManyAborts(config: FailureConfig, failures: nat, attempted: nat)
    ensures ShouldAbort(config, failures, attempted) <==> TooMany(config, failures, attempted)
  {
    AbortsBeyondBoth(config, failures, attempted);
  }

  method OnePage(c: Setting, limit: Option<nat>, faults: Faults, pages: nat, cursor: Option<string>, size: nat,
      emitted: seq<WidenedRow>, summary: Summary)
    returns (end: PageEnd, emitted': seq<WidenedRow>, summary': Summary)
    requires c.Valid() && size > 0 && OnTrack(c, limit, cursor, emitted, summary)
    requires limit.Some? ==> |emitted| + size <= limit.value
    requires !TooMany(c.failure, summary.failures, summary.attempted)
    ensures VehiclesOf(emitted') <= Wanted(c, limit) && RowsOk(c, emitted')
    ensures !end.Stopped? ==>
            Accounted(emitted', summary') && !TooMany(c.failure, summary'.failures, summary'.attempted)
    ensures end.Exhausted? || end.LimitReached? ==> VehiclesOf(emitted') == Wanted(c, limit)
    ensures end.Resume? ==> OnTrack(c, limit, end.cursor, emitted', summary')
                            && |Remaining(c, end.cursor)| < |Remaining(c, cursor)|
    ensures end.Resume? ==> |emitted'| == |emitted| + size
    ensures end.Exhausted? ==> |Remaining(c, cursor)| < size
    ensures end.LimitReached? ==> limit == Some(|emitted'|) && |emitted'| <= |emitted| + size
    ensures Orderly(c) ==>
              var failures := summary.failures + if faults.fuelOk(pages) then 0 else 1;
              && (end.Stopped? <==>
                    || !faults.pageOk(pages)
                    || (Remaining(c, cursor) != []
                        && (TooMany(c.failure, failures, summary.attempted + 1) || !faults.writeOk(pages))))
              && (end.Resume? ==> summary'.failures == failures && summary'.attempted == summary.attempted + 1)
              && (!end.Stopped? ==> summary'.failures == summary.failures || summary'.failures == failures)
  {
    hide Register, FuelDataset, Selected, Answer, Wanted, VehiclesOf, RowsOk, Unavailable, Affected, Joinable,
      FetchFuel, NestedLoopJoin, ShouldAbort, TooMany, FuelInOrder, GoodFuel, FirstFault, Remaining, Setting.Vehicles;
    emitted', summary' := emitted, summary;
    WantedSoFar(c, limit, emitted, Remaining(c, cursor));
    if !faults.pageOk(pages) {
      end := Stopped(Upstream);
      return;
    }
    var page := Answer(c.data, PageQuery(c.merken, cursor, size));
    SplitPage(c, cursor, size);
    if page == [] {
      end := Exhausted;
      return;
    }
    var fuel, failed, noted := FetchFuelOrMark(c, page, faults.fuelOk(pages), summary);
    var joined := MergeJoin.MergeJoin(page, fuel, failed);
    OrderlyPage(c, page, fuel, failed);
    if joined.Err? {
      end := Stopped(DataIntegrity);
      return;
    }
    RowsOfPage(c, page, fuel, failed);
    TooManyAborts(c.failure, noted.failures, noted.attempted);
    if ShouldAbort(c.failure, noted.failures, noted.attempted) {
      end := Stopped(FuelFailureThresholdExceeded);
      return;
    }
    PageOnTrack(c, cursor, emitted, page, joined.value);
    PageAccounted(c, emitted, joined.value, page, failed, summary, noted);
    var batch, hitLimit := TakeRows(joined.value, |emitted|, limit);
    ghost var rest := Remaining(c, LastPlate(page));
    if !faults.writeOk(pages) {
      var written := faults.written(pages);
      PartOfPage(c, limit, emitted, batch, written, rest);
      emitted' := emitted + if written < |batch| then batch[..written] else batch;
      end := Stopped(Assembly);
      return;
    }
    emitted', summary' := emitted + batch, noted;
    WantedSoFar(c, limit, emitted', rest);
    end := if hitLimit then LimitReached else if |page| < size then Exhausted else Resume(LastPlate(page));
  }

  lemma {:induction false} NoneFailedBefore(f: Faults, pages: nat, n: nat)
    requires Faultless(f, pages) && n <= pages
    ensures FailedBefore(f, n) == 0
  {
    if n > 0 {
      NoneFailedBefore(f, pages, n - 1);
    }
  }

  lemma FaultlessNeverStops(c: Setting, f: Faults, pages: nat)
    requires Faultless(f, pages)
    ensures forall n: nat :: n < pages ==> !StopsAt(c, f, n)
  {
    forall n: nat | n < pages
      ensures !StopsAt(c, f, n)
    {
      NoneFailedBefore(f, pages, n + 1);
      
    }
  }

  lemma AtLeast(n: nat, d: nat, q: nat, product: nat)
    requires 0 < d && product == q * d
    ensures product <= n ==> q <= n / d
    ensures product <= n < product + d ==> n / d == q
  {
    if product <= n && n / d < q {
      MulKeepsOrder(n / d + 1, q, d);
    }
    if product <= n < product + d {
      QuotientIs(n, d, q);
    }
  }

  predicate AfterTurns(c: Setting, n: nat, produced: nat) {
    produced == n * c.pageSize
  }

  lemma NextTurn(c: Setting, n: nat, produced: nat)
    ensures AfterTurns(c, 0, 0)
    ensures AfterTurns(c, n, produced) ==> AfterTurns(c, n + 1, produced + c.pageSize)
  {
  }

  /** A turn taken is one of those there are, and is the last one when it ends the loop. */
  lemma TurnCount(c: Setting, limit: Option<nat>, n: nat, done: nat, size: nat)
    requires c.pageSize > 0 && AfterTurns(c, n, done) && done <= |c.Vehicles()| && (limit.Some? ==> done < limit.value)
    requires size == if limit.Some? && limit.value - done < c.pageSize then limit.value - done else c.pageSize
    ensures n < Turns(c, limit) && n <= |c.Vehicles()|
    ensures |c.Vehicles()| - done < size ==> Turns(c, limit) == n + 1
    ensures limit.Some? && limit.value <= |c.Vehicles()| && limit.value <= done + size ==> Turns(c, limit) == n + 1
  {
    var all, d := |c.Vehicles()|, c.pageSize;
    hide Setting.Vehicles;
    MulKeepsOrder(1, d, n);
    NextTurn(c, n, done);
    if limit.Some? && limit.value <= all {
      AtLeast(limit.value + d - 1, d, n + 1, done + d);
    } else {
      AtLeast(all, d, n, done);
    }
  }

  lemma NoTurns(c: Setting)
    requires c.pageSize > 0
    ensures Turns(c, Some(0)) == 0
  {
    QuotientIs(c.pageSize - 1, c.pageSize, 0);
  }

  lemma SoMuchRemains(c: Setting, emitted: seq<WidenedRow>, cursor: Option<string>)
    requires VehiclesOf(emitted) + Remaining(c, cursor) == c.Vehicles()
    ensures |Remaining(c, cursor)| == |c.Vehicles()| - |emitted|
  {
    assert |VehiclesOf(emitted)| == |emitted|;
  }

  lemma StopsWhen(c: Setting, f: Faults, n: nat, produced: nat, remaining: nat, failures: nat)
    requires AfterTurns(c, n, produced) && produced + remaining == |c.Vehicles()| && failures == FailedBefore(f, n)
    ensures StopsAt(c, f, n) <==>
            || !f.pageOk(n)
            || (remaining > 0
                && (TooMany(c.failure, failures + if f.fuelOk(n) then 0 else 1, n + 1) || !f.writeOk(n)))
  {
    hide Setting.Vehicles, TooMany;
  }

  /** The loop ends at the first turn that fails, or at the last one. */
  lemma LoopEnds(c: Setting, limit: Option<nat>, f: Faults, n: nat, r: Result<Summary, PipelineError>,
        emitted: seq<WidenedRow>)
    requires c.pageSize > 0 && n < Turns(c, limit) && n <= |c.Vehicles()|
    requires r.Ok? ==> Turns(c, limit) == n + 1
    requires Orderly(c) ==> (r.Err? <==> StopsAt(c, f, n)) && forall k: nat :: k < n ==> !StopsAt(c, f, k)
    requires Orderly(c) && r.Ok? ==>
               r.value.failures == FailedBefore(f, n) || r.value.failures == FailedBefore(f, n + 1)
    ensures Orderly(c) ==> (r.Err? <==> exists k :: 0 <= k < Turns(c, limit) && StopsAt(c, f, k))
    ensures Orderly(c) && Faultless(f, |c.Vehicles()| + 1) ==> r.Ok? && r.value.failures == 0
  {
    hide Orderly, Turns, StopsAt, Setting.Vehicles;
    if Orderly(c) && Faultless(f, |c.Vehicles()| + 1) {
      FaultlessNeverStops(c, f, |c.Vehicles()| + 1);
      NoneFailedBefore(f, |c.Vehicles()| + 1, n);
      NoneFailedBefore(f, |c.Vehicles()| + 1, n + 1);
    }
  }

  /** The keyset loop emits exactly the first `limit` vehicles of the
      plate-sorted population, whatever the page cap (50,000 in the program). On success every row is
      right and every degraded row accounted for; a failure leaves a prefix.
      On orderly data it fails exactly when one of the turns it takes fails. */
  method FetchAndWiden(c: Setting, limit: Option<nat>, faults: Faults)
    returns (r: Result<Summary, PipelineError>, emitted: seq<WidenedRow>)
    requires c.Valid() && c.pageSize > 0
    ensures VehiclesOf(emitted) <= Wanted(c, limit) && RowsOk(c, emitted)
    ensures r.Ok? ==> VehiclesOf(emitted) == Wanted(c, limit)
    ensures r.Ok? ==> Accounted(emitted, r.value) && !TooMany(c.failure, r.value.failures, r.value.attempted)
    ensures Orderly(c) ==> (r.Err? <==> exists n :: 0 <= n < Turns(c, limit) && StopsAt(c, faults, n))
    ensures Orderly(c) && Faultless(faults, |c.Vehicles()| + 1) ==> r.Ok? && r.value.failures == 0
  {
    var summary := Summary(0, 0, 0, []);
    emitted := [];
    NothingYet(c, limit, summary);
    hide Register, FuelDataset, Selected, Wanted, VehiclesOf, RowsOk, TooMany, Accounted, Orderly, Remaining,
      Setting.Vehicles, StopsAt, Turns, Faultless, AfterTurns;
    NextTurn(c, 0, 0);
    if limit == Some(0) {
      NoTurns(c);
      r := Ok(summary);
      return;
    }
    var cursor: Option<string> := None;
    var n: nat := 0;
    while true
      invariant OnTrack(c, limit, cursor, emitted, summary)
      invariant !TooMany(c.failure, summary.failures, summary.attempted)
      invariant AfterTurns(c, n, |emitted|)
      invariant Orderly(c) ==> summary.failures == FailedBefore(faults, n) && summary.attempted == n
      invariant Orderly(c) ==> forall k: nat :: k < n ==> !StopsAt(c, faults, k)
      decreases |Remaining(c, cursor)|
    {
      var size := c.pageSize;
      if limit.Some? && limit.value - |emitted| < size {
        size := limit.value - |emitted|;
      }
      SoMuchRemains(c, emitted, cursor);
      TurnCount(c, limit, n, |emitted|, size);
      ghost var produced, before, failures := |emitted|, |Remaining(c, cursor)|, summary.failures;
      NextTurn(c, n, produced);
      var end;
      end, emitted, summary := OnePage(c, limit, faults, n, cursor, size, emitted, summary);
      assert Orderly(c) ==> (end.Stopped? <==> StopsAt(c, faults, n)) by {
        if Orderly(c) {
          StopsWhen(c, faults, n, produced, before, failures);
        }
      }
      if end.Resume? {
        cursor := end.cursor;
        n := n + 1;
      } else {
        r := if end.Stopped? then Err(end.error) else Ok(summary);
        LoopEnds(c, limit, faults, n, r, emitted);
        return;
      }
    }
  }

  lemma NothingYet(c: Setting, limit: Option<nat>, summary: Summary)
    requires summary == Summary(0, 0, 0, [])
    ensures VehiclesOf([]) + Remaining(c, None) == c.Vehicles() && Remaining(c, None) == c.Vehicles()
    ensures RowsOk(c, []) && Accounted([], summary) && !TooMany(c.failure, 0, 0)
    ensures VehiclesOf([]) <= Wanted(c, limit)
    ensures limit == Some(0) ==> VehiclesOf([]) == Wanted(c, limit)
  {
    WantedSoFar(c, limit, [], c.Vehicles());
  }
}
