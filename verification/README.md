# Verified model of the fuel export service

The service exports a vehicle register joined with a fuel register as one CSV, or as an
archive of CSV parts. This project models the parts whose correctness is hard to see from
one function body, and proves what a caller relies on.

* **Concurrent range export** (`Ranges`, `Upstream`, `Soql`, `AbortCounter`, `EarlyAbort`,
  `ConcurrentExport`, the five other `Concurrent...` modules that prove things about it, `EarlyExport`
  and `EarlyWitness` on early aborts, and `Configuration` on the program's settings).
  A fixed tiling of plate space feeds a queue; workers pop a range, page through it with a
  keyset cursor, fetch fuel rows, record the outcome in one failure counter, join, and
  append to one assembler, while a coordinator cancels and joins them. The machine has one
  event for each step that others can observe (every read of a flag, every counter
  operation, every locked section), and any order of enabled events is a schedule. A page
  may fail, a fuel fetch may fail, a write may fail after some rows, a worker may panic
  at any step outside the counter, and a cancelled worker may be dropped wherever it waits.
  The fuel rows and vehicles come from a fixed dataset that answers the query the client builds, whose
  filter text a reader of field names and operators shows to admit exactly the rows it is meant to.
* **Join and fuel fetch** (`MergeJoin`, `FuelFetch`) and the **sequential export with a
  row limit** (`SequentialExport`).
* **Rate limiter and reservations** (`RateLimit`, `LimiterTolerance`, `RetryAfter`, `Reservation`,
  `Requests`, `RequestTolerance`, `Interference`, `DoomedReservation`).
  The counters refine a plain log of grants; requests draw on several keys, compete for one
  export permit and give back what they drew, interleaved one limiter call at a time.
* **Assembler** (`Chunking`, `FilePlan`, `Assembly`), over a temporary directory in which a plan
  of faults, given beforehand, decides for each file operation, removals included, whether it fails;
  and the export together with the assembler it writes to (`EndToEnd`).
* **Calendar** (`Calendar`, `Timestamp`): the closed-form date conversion for every day and
  the timestamps made from it.

`Wrappers`, `Arithmetic` and `Order` hold what the others share. Objects the program updates
in place are classes (`AbortCounter.GlobalAbort`, `RateLimit.RateLimiter`,
`Assembly.TempDir`, `Assembly.Assembler`), and its loops are loops, each proved against a
specification function; the interleaved machines are values with a step function, because
their steps belong to different threads.

## Where the code differs from what is said about it

* `ranges.rs` and its test speak of 1296 distinct boundaries; 1297 bands still have distinct
  boundaries, because the first and the last band are open (`Ranges.StrictUpTo1297`).
* `abort.rs` re-evaluates "against the up-to-date totals". A call compares the failures it
  read with the attempts it counted earlier, so it can abort while no state of the run has
  totals beyond the allowance. Such early aborts exist if and only if the ratio is positive and
  there are two callers (`EarlyAbort.EarlyAbortExactly`); in the export, for some data and schedule,
  if and only if the ratio is positive and both the ranges and the workers configured are at least two
  (`EarlyWitness.EarlyExportExactly`). What holds under every interleaving is
  `AbortCounter.NoMissedAndNoPrematureAbort`; calls that do not overlap abort exactly
  (`AbortCounter.SerialAbortIsExact`).
* The concurrent export says "every vehicle" and accepts a page size of zero, with which every range looks
  finished. The program never passes it: `main.rs` clamps the setting, and its Ok exports are exactly-once
  (`Configuration.ProgramExportsExactlyOnce`). For the function alone, an Ok result with page size zero is possible
  if and only if at most 50 vehicles match (`Configuration.PageSizeZeroExactly`), and then nothing is emitted.
* `csv_writer.rs` says no orphaned file ever exists. How many files an export leaves follows from the number of
  rows, the limit and the plan of faults (`FilePlan.FilesLeft`, `Assembly.StageBatches`). If no operation fails it
  is the delivered file alone. A failed export leaves nothing only if the first operation that fails is the creation
  of a part, the write of a row or a step of the archive, and exactly then when all removals succeed
  (`FilePlan.ExportLeavesRightly`); a failing header, closing or measuring leaves a file that nothing leads to.
* Evicting idle entries is unobservable in every run if and only if no eviction's clock leads a later check by
  more than a day and a second, the idle time less a week, and a second (`LimiterTolerance.EvictionLeadIsExact`).
* The limiter promises 3 grants a day. A request stamps its time before it checks, so a check can be overtaken.
  Within a day that is harmless; a check that falls back behind midnight can give a fourth grant of a day. The
  verdicts are those of the log in every run if and only if no check falls back a day
  (`LimiterTolerance.DayOrderIsExact`). So it is with requests: five of them, each served before the next arrives,
  can be served four times on one day (`RequestTolerance.FourServedOnTuesday`). Deliveries stay within the budgets in
  every run if and only if no check is more than a day and a second behind an eviction, and checks either never
  fall back behind midnight or never behind an eviction (`RequestTolerance.DeliveriesFitExactly`).
* A refused request of several brands leaves no trace when nothing happens between its limiter calls
  (`Reservation.RefusedLeavesNoTrace`). When other requests come in between, it leaves one if and only if one of
  their checks asks for a key it holds at that moment, and the grant held is the last one of the day or of the week
  (`Interference.RefusedLeavesTraceExactly`); `DoomedReservation` has a run of requests in which that happens.
* A request that finds the export permit taken keeps its charge; only failures behind the permit refund.

## Model

| member | source | states |
|---|---|---|
| Ranges.FixedTwoCharBands | crates/rdw-core/src/ranges.rs:34-54 | the loop builds the bands whose tiling, widths and boundaries the next rows establish |
| Ranges.BandsTile | crates/rdw-core/src/ranges.rs:30-54 | exactly max(n, 1) ranges; neighbours share their boundary, boundaries never descend, the outermost sides are open |
| Ranges.EveryPlateInExactlyOneBand | crates/rdw-core/src/ranges.rs:30-54 | for every n, also 0 and beyond 1296, every string whatsoever lies in exactly one range |
| Ranges.StrictUpTo1297 | crates/rdw-core/src/ranges.rs:40-52 | all boundaries differ if and only if n is at most 1297 |
| Ranges.BandWidths | crates/rdw-core/src/ranges.rs:43-46 | the bands cover codes 0 to 1296 and differ in width by at most one code |
| Ranges.CodeOrder | crates/rdw-core/src/ranges.rs:56-61 | numerically smaller codes give lexicographically smaller two-character boundaries |
| Upstream.ResumeAfterPage | crates/rdw-client/src/lib.rs:304-308 | resuming a range or the whole population after the last plate of a page selects exactly what the page left out |
| Upstream.CutAt | crates/rdw-core/src/ranges.rs:16-23 | cutting a selection at a boundary loses and repeats nothing |
| Upstream.TilingSelectsPopulation | crates/rdw-core/src/ranges.rs:30-33 | the ranges together select the matching population, each vehicle once and in order |
| Soql.VehiclePageWhere | crates/rdw-client/src/lib.rs:260-280 | of the rows with a plate, the text built admits exactly those of the brands strictly after the last plate seen; it is the filter of the page query |
| Soql.VehicleRangePageWhere | crates/rdw-client/src/lib.rs:290-317 | of the rows with a plate, the text built admits exactly those of the brands strictly after the cursor, or without one strictly after the start of the range, and not after its end; it is the filter of the range query |
| Soql.WhereAdmitsMatches | crates/rdw-client/src/lib.rs:266-311 | a reader that knows the fields and the operators of SoQL by their own names, applied to the filter text, admits a row if and only if the query selects it: strictly above the lower bound, at most the upper one; a row without a plate passes no bound |
| Soql.FuelWhereAdmitsNamed | crates/rdw-client/src/lib.rs:399-405 | the fuel filter admits exactly the rows of the named plates |
| Soql.WhereReads | crates/rdw-client/src/lib.rs:266-311 | the filter text reads as its conditions, in order: brands in the list, then greater, then less or equal |
| Soql.WhereReadsBack | crates/rdw-client/src/lib.rs:266-311 | the same reader recovers brands and both bounds from the text, whatever quotes, commas or keywords they contain |
| Soql.FuelWhereReadsBack | crates/rdw-client/src/lib.rs:399-405 | the fuel filter reads as one condition: the plate is in exactly the list it was built from |
| Soql.InListInjective | crates/rdw-client/src/lib.rs:266-270 | different lists render differently |
| AbortCounter.AbortsBeyondBoth | crates/rdw-core/src/failure.rs:58-66 | the decision is to abort exactly when the failures exceed the floor and exceed the ratio times the attempts |
| AbortCounter.ShouldAbortWeakens | crates/rdw-core/src/failure.rs:58-66 | more attempts only make an abort less likely |
| AbortCounter.StepKeepsCounter | crates/rdw-core/src/abort.rs:39-50 | each atomic step keeps: snapshots are never ahead, an abort means more failures than the floor, and totals beyond the allowance are aborted or about to be |
| AbortCounter.NoMissedAndNoPrematureAbort | crates/rdw-core/src/abort.rs:34-58 | any interleaving of any number of callers: never aborted with at most the floor of failures; aborted once no decision is pending and the failures exceed both the floor and the ratio times the attempts; and an abort is final |
| AbortCounter.AbortCanBeEarly | crates/rdw-core/src/abort.rs:39-50 | the shortest instance of an early abort: two callers, four steps, no state beyond the allowance |
| EarlyAbort.EarlyAbortExactly | crates/rdw-core/src/abort.rs:39-50 | some interleaving aborts although no state of it has totals beyond the allowance, if and only if the ratio is positive and there are at least two callers |
| EarlyAbort.EarlyScheduleIsEarly | crates/rdw-core/src/abort.rs:39-50 | for every floor, positive ratio and two or more callers, a schedule that aborts early |
| EarlyExport.AbortsEarlyOnlyIf | crates/rdw-api/src/pipeline.rs:291-291 | an export that aborts early has a positive ratio and at least two workers running |
| EarlyWitness.EarlyExportExactly | crates/rdw-api/src/pipeline.rs:483-488 | for some data and schedule the export aborts early, if and only if the ratio is positive and at least two ranges and two workers are configured |
| AbortCounter.SerialAbortIsExact | crates/rdw-core/src/abort.rs:39-50 | calls that do not overlap, whichever callers make them, are counted one by one and abort exactly when some prefix of them has more failures than the floor and more than the ratio times its length |
| AbortCounter.GlobalAbort.RecordAndCheck | crates/rdw-core/src/abort.rs:39-50 | one uninterrupted call counts one attempt and its failure, aborts if the failures then exceed the floor and the ratio times the attempts, and returns the flag; that is the effect of its four steps |
| MergeJoin.ValidateVehicleOrder | crates/rdw-core/src/merge.rs:152-164 | Ok exactly for present, strictly ascending plates; otherwise the first fault |
| MergeJoin.ValidateFuelOrder | crates/rdw-core/src/merge.rs:166-183 | Ok exactly for present keys strictly ascending by plate and volgnummer; otherwise the first fault |
| MergeJoin.SkipOrphans | crates/rdw-core/src/merge.rs:96-106 | stops at the first fuel row not before the vehicle |
| MergeJoin.CollectGroup | crates/rdw-core/src/merge.rs:108-132 | returns all fuel rows of the vehicle exactly when they are numbered 1 to k with k at most 3; otherwise the first misnumbered or fourth entry |
| MergeJoin.MergeJoin | crates/rdw-core/src/merge.rs:82-150 | Ok exactly when both inputs are in order and every vehicle has well-numbered rows; then row i is for vehicle i and tells the truth about it, and the result is the nested-loop join; otherwise the first fault |
| MergeJoin.JoinRowTellsTheTruth | crates/rdw-core/src/merge.rs:134-147 | a row has all fuel rows of its plate and no others; it is FuelUnavailable if and only if the fetch failed, and otherwise NoFuelData if and only if no fuel row has the plate and Complete if and only if one has |
| FuelFetch.FetchIsComplete | crates/rdw-client/src/lib.rs:450-492 | for every batch size, an accepted fetch returns all dataset rows of the named plates and no others, in dataset order |
| FuelFetch.FetchRefusedExactly | crates/rdw-client/src/lib.rs:474-483 | refused exactly when some batch has at least the limit of rows, so a truncated batch is never accepted |
| FuelFetch.NoFalseTruncation | crates/rdw-client/src/lib.rs:145-154 | a full batch of plates with at most 3 rows each below the limit is never refused; the configured constants satisfy it |
| FuelFetch.FetchThenJoin | crates/rdw-api/src/pipeline.rs:151-181 | joining a page with its batched fetch gives the rows, and the success, of joining with the whole fuel dataset |
| ConcurrentConservation.ActConserves | crates/rdw-api/src/pipeline.rs:308-362 | every step of a worker, faults included, only moves vehicles, affected counts, row counts and counter differences from one holder to another |
| ConcurrentConservation.PageSplitsAhead | crates/rdw-api/src/pipeline.rs:428-443 | a page and what lies after its last plate are what lay ahead; a short page ends the range |
| ConcurrentConservation.RowsOfPage | crates/rdw-api/src/pipeline.rs:490-491 | the rows joined for a page are one for each vehicle and right, or all marked as lacking fuel data |
| ConcurrentSafety.InitKeepsInvariant | crates/rdw-api/src/pipeline.rs:284-306 | at the start the whole population is queued, for every number of ranges and workers |
| ConcurrentSafety.NextKeepsInvariant | crates/rdw-api/src/pipeline.rs:308-512 | every event keeps: each vehicle emitted, held ahead of one cursor, queued, or dropped by a run bound to fail; counts agree; workers stop only at an empty queue or in a doomed run |
| ConcurrentSafety.RunKeepsInvariant | crates/rdw-api/src/pipeline.rs:308-512 | so does every schedule |
| ConcurrentSafety.OkMeansExactlyOnce | crates/rdw-api/src/pipeline.rs:281-406 | an Ok export has emitted exactly the matching population as a multiset, as many rows as counted; each row is marked, or has all fuel rows of its plate, NoFuelData exactly if there are none and Complete exactly if there are some |
| ConcurrentSafety.OkMeansNoEarlyStop | crates/rdw-api/src/pipeline.rs:308-373 | Ok implies no abort, no error, no cancellation, an empty queue, nothing dropped and every worker joined; when a result is Ok is `ConcurrentOutcome.ResultIsExact` |
| ConcurrentSafety.OkAccountsForDegradation | crates/rdw-api/src/pipeline.rs:454-502 | on Ok the rows without fuel data number vehicles_affected, the sum over the failed ranges; failures is their number; the summary agrees with the failure counter |
| ConcurrentSafety.ExactlyOnceIffPagesHoldRows | crates/rdw-api/src/pipeline.rs:504-508 | of the function alone, which accepts a page size of zero: an Ok export is exactly-once if and only if the page size is positive or there is nothing to export |
| Configuration.ProgramExportsExactlyOnce | crates/rdw-api/src/main.rs:58-72 | with the program's clamped settings, whatever the environment, an Ok export is exactly-once with right rows |
| Configuration.PageSizeIsNearest | crates/rdw-api/src/main.rs:67-71 | the page size used is the size from 1 to 50,000 nearest to the one asked for |
| Configuration.PageSizeZeroExactly | crates/rdw-api/src/pipeline.rs:379-401 | with page size zero an Ok run exists if and only if at most 50 vehicles match |
| Configuration.ZeroSizeEmitsNothing | crates/rdw-api/src/pipeline.rs:434-445 | such a run has emitted nothing |
| ConcurrentSafety.ReconciliationNeverFails | crates/rdw-api/src/pipeline.rs:374-401 | on a fixed dataset the row-count check never turns a run into a failure |
| ConcurrentProgress.NextDecreases | crates/rdw-api/src/pipeline.rs:308-512 | every event lowers a measure of queued ranges, rows ahead of cursors and live workers |
| ConcurrentProgress.EveryScheduleEnds | crates/rdw-api/src/pipeline.rs:308-362 | the length of any schedule is bounded by workers, ranges and vehicles, whatever the page size |
| ConcurrentProgress.NeverStuck | crates/rdw-api/src/pipeline.rs:308-362 | an export without a result always has a next event |
| ConcurrentProgress.RunRefinesCounter | crates/rdw-api/src/pipeline.rs:483-488 | seen from the failure counter, an export is a run of interleaved callers |
| ConcurrentProgress.AbortInTheExport | crates/rdw-api/src/pipeline.rs:483-488 | no export is aborted with at most the floor of failures counted; one with more failures than the floor and than the ratio times the attempts is aborted once no worker is deciding |
| ConcurrentProgress.OkIsWithinAllowance | crates/rdw-api/src/pipeline.rs:366-373 | the summary returned with Ok has at most the floor of failures, or at most the ratio times its attempts |
| ConcurrentOutcome.ResultIsExact | crates/rdw-api/src/pipeline.rs:364-405 | in every schedule that reaches a result, it is Ok with the summary if and only if the abort flag is not set and no error is stored; otherwise it is the stored error, or too many failed fetches if there is none |
| ConcurrentOutcome.ResultFollowsFaults | crates/rdw-api/src/pipeline.rs:308-405 | from the events alone: Ok if and only if no page or write failed, no worker panicked, no page could not be joined, and the flag is not set; an error reported is one that was raised, and any raised comes before too many failed fetches |
| ConcurrentOutcome.LastStoredIsReported | crates/rdw-api/src/pipeline.rs:330-366 | the error reported is the last that a worker stored; a panic is reported only if none was stored before it was found or after |
| ConcurrentOutcome.ToleranceIs | crates/rdw-api/src/pipeline.rs:47-49 | a row-count difference is tolerated if and only if it is at most 50 or at most one in 2000 |
| ConcurrentOutcome.FailedRangesAreThePages | crates/rdw-api/src/pipeline.rs:454-480 | at any moment of any run the failed ranges are, in order, the pages whose fetch failed, with lowest and highest plate and size; failures is their number |
| ConcurrentOutcome.OkMarksFailedPages | crates/rdw-api/src/pipeline.rs:454-491 | an Ok export has marked each vehicle as often as it was on a page whose fetch failed |
| ConcurrentOutcome.FloorNeverAborts | crates/rdw-core/src/failure.rs:54-57 | whatever else happens, an export with at most the floor of failed fetches is never aborted |
| ConcurrentOutcome.NothingBeginsAfterStop | crates/rdw-api/src/pipeline.rs:308-312 | once the flag is set it stays set, and no worker looks for a range, requests a page or takes on the page it recorded; once the error flag is raised none goes on to claim a range |
| ConcurrentOutcome.ErrorsRaiseTheFlag | crates/rdw-api/src/pipeline.rs:330-360 | whenever an error is stored the error flag is raised, or some worker is about to raise it or panicked and is not joined yet; an export that finished with an error had raised it |
| ConcurrentSuccess.CanGoOnWithoutFaults | crates/rdw-api/src/pipeline.rs:308-362 | on orderly data an export without a result can always go on without a fault, whatever fetches have failed |
| ConcurrentSuccess.OnlyAnAbortFails | crates/rdw-api/src/pipeline.rs:281-405 | on orderly data every schedule whose only faults are failed fuel fetches, however many, and that can go on only with a fault, has ended: if the flag is set, with too many failed fetches; if not, with Ok, every vehicle exactly once, as many failures reported as fetches failed, and exactly the vehicles on the failed pages marked |
| ConcurrentSuccess.TolerableRunsSucceed | crates/rdw-core/src/failure.rs:54-57 | so every such schedule with at most the floor of failed fetches ends with Ok and all of that |
| SequentialExport.TakeRows | crates/rdw-api/src/pipeline.rs:190-201 | takes the whole page, and reports the limit exactly when its last row reaches it |
| SequentialExport.FetchFuelOrMark | crates/rdw-api/src/pipeline.rs:159-179 | a fetch that fails is counted with its boundaries and vehicles and leaves no fuel rows |
| SequentialExport.OnePage | crates/rdw-api/src/pipeline.rs:125-218 | one turn stays on a prefix of the wanted rows and, if the loop goes on, strictly shrinks what lies after the cursor; on orderly data it stops exactly when its page fails, or there is a page and its rows cannot be written or the failures exceed the floor and the ratio times the attempts |
| SequentialExport.FetchAndWiden | crates/rdw-api/src/pipeline.rs:108-221 | Ok emits exactly the first min(limit, N) vehicles in plate order for any page cap, with right rows and full accounts; an error leaves a prefix; on orderly data it fails if and only if the plan of faults stops one of the turns that limit, N and page cap call for |
| RateLimit.RateLimiter.CheckAndRecord | crates/rdw-core/src/rate_limit.rs:61-86 | the in-place update is the specified transition: windows not current are emptied, a refusal counts nothing |
| RateLimit.WeeksBeginOnMonday | crates/rdw-core/src/rate_limit.rs:37-46 | the day number grows by one a day, and the week number by one with each Monday, counted from Thursday 1 January 1970, and with no other day |
| RateLimit.RateLimiter.ReleaseOne | crates/rdw-core/src/rate_limit.rs:91-102 | the in-place update takes one off the windows the release belongs to |
| RateLimit.RateLimiter.EvictStale | crates/rdw-core/src/rate_limit.rs:106-109 | keeps exactly the entries last granted within 8 days |
| RateLimit.CallRefines | crates/rdw-core/src/rate_limit.rs:61-109 | each check, late release or eviction keeps the entries in agreement with the log of grants, and a check gets the log's verdict |
| RateLimit.RunRefinesLog | crates/rdw-core/src/rate_limit.rs:61-109 | in every run whose checks of a key keep the order of their days a check is allowed exactly when the unreleased grants of its UTC day are under 3 and of its Monday-aligned week under 5 |
| RateLimit.FreshLimiterRefinesLog | crates/rdw-core/src/rate_limit.rs:53-109 | the same from an empty limiter |
| RateLimit.ReleaseNeverSaturates | crates/rdw-core/src/rate_limit.rs:95-100 | giving back a grant in the log never meets a count of zero |
| RateLimit.BudgetsNeverExceeded | crates/rdw-core/src/rate_limit.rs:14-18 | no run leaves more unreleased grants in any day or week than its limit |
| RateLimit.SameLogSameVerdicts | crates/rdw-core/src/rate_limit.rs:61-109 | later verdicts depend on the log alone |
| RateLimit.EvictionIsUnobservable | crates/rdw-core/src/rate_limit.rs:104-109 | from any state, leaving out all evictions changes no verdict |
| LimiterTolerance.EvictionLeadIsExact | crates/rdw-core/src/rate_limit.rs:21-21 | evictions that lead later checks by at most t seconds are unobservable in every run if and only if t is at most the idle time less a week, and a second |
| LimiterTolerance.DayOrderIsExact | crates/rdw-core/src/rate_limit.rs:66-75 | checks of a key may fall back by n days and every verdict still be the log's, if and only if n is zero |
| LimiterTolerance.FourGrantsOnTuesday | crates/rdw-core/src/rate_limit.rs:66-75 | the boundary case: five checks across midnight, all allowed, four of them on one day |
| RetryAfter.DayWaitIsLeast | crates/rdw-api/src/handlers.rs:354-358 | positive, and the least wait after which the day key changes |
| RetryAfter.WeekWaitIsLeast | crates/rdw-api/src/handlers.rs:360-368 | positive, and the least wait after which the limiter's own week key changes |
| RetryAfter.AfterDayExceeded | crates/rdw-api/src/handlers.rs:354-358 | refused at every earlier moment; at the wait allowed unless the week is spent as well and still the same |
| RetryAfter.AfterWeekExceeded | crates/rdw-api/src/handlers.rs:360-368 | refused at every earlier moment and allowed at exactly the wait |
| RetryAfter.RefusalHasRightWait | crates/rdw-api/src/handlers.rs:107-111 | what a refusing check leaves has the right wait: the verdict is the same at every earlier moment; then the week is the next one and the key allowed, or for a day refusal the day is the next one and the key allowed unless the week is spent and still the same |
| RetryAfter.OneRightWait | crates/rdw-api/src/handlers.rs:107-111 | a refusal has only one right wait |
| RetryAfter.DayRefusalLasts | crates/rdw-api/src/handlers.rs:354-358 | whatever calls come meanwhile, no earlier moment is allowed unless a grant of the key is given back |
| RetryAfter.WeekRefusalLasts | crates/rdw-api/src/handlers.rs:360-368 | the same for the week |
| Reservation.ReserveAll | crates/rdw-api/src/handlers.rs:96-115 | without a wait every key was allowed; a wait reported is the right wait of the first key refused, against the entries left behind; the entries are those of the specified loop |
| Reservation.RefusalHasItsWait | crates/rdw-api/src/handlers.rs:96-115 | of different keys a reservation succeeds only if each is allowed at its start, and otherwise carries the right wait of the first that is not |
| Reservation.ReleaseAll | crates/rdw-api/src/handlers.rs:235-239 | releases every key once |
| Reservation.ReleaseEachRestores | crates/rdw-api/src/handlers.rs:235-239 | giving back everything just taken restores the log exactly |
| Reservation.ReserveRefines | crates/rdw-api/src/handlers.rs:96-115 | all keys are charged once if the log allows every key; otherwise the first refusal is reported and the log is as before |
| Reservation.RefusedLeavesNoTrace | crates/rdw-api/src/handlers.rs:89-115 | after a refusal every sequence of later limiter calls has the outcomes it would have had without the request |
| Requests.NextKeepsBooks | crates/rdw-api/src/handlers.rs:89-239 | every step of any interleaving whose checks keep the order of their days keeps the log equal to what the requests have drawn and not returned, every release gives back a grant in it, and at most one request holds the permit |
| Requests.RunKeepsBooks | crates/rdw-api/src/handlers.rs:89-239 | so does every run, within the budgets |
| Requests.NetChargeIsExact | crates/rdw-api/src/handlers.rs:163-239 | if checks kept the order of their days: when all requests are answered, exactly those answered 200 or Busy are charged, once for each key; refusals and 502, 504 and 406 have a net charge of zero |
| Requests.DeliveriesStayWithinBudget | crates/rdw-api/src/handlers.rs:85-121 | if checks kept the order of their days: at any moment no key has had more exports in a day or week than its budget, and one export runs at a time |
| RequestTolerance.DeliveriesFitExactly | crates/rdw-api/src/handlers.rs:85-121 | if checks may fall back by d days and t seconds behind an eviction, deliveries stay within every budget in every run from the start, if and only if t is at most a day and a second and either d or t is not positive |
| RequestTolerance.FourServedOnTuesday | crates/rdw-api/src/handlers.rs:88-121 | a run of five requests, one after the other, the second stamped a second before midnight: all are served, four on one day |
| RequestTolerance.SixServedInAWeek | crates/rdw-api/src/handlers.rs:88-89 | a run in which an arrival evicts a second too far ahead and six requests are served in one week |
| Requests.ReservesAlone | crates/rdw-api/src/handlers.rs:96-115 | uninterrupted, the steps of a reservation are the loop of the handler, and a refusal is answered with the right wait of the first key the desk refuses |
| Requests.WaitsAreRight | crates/rdw-api/src/handlers.rs:96-115 | in every interleaving from the start, a request answered RateLimited with a wait was refused a key at some step, and the wait was right for that key after it |
| Requests.ServedAlone | crates/rdw-api/src/handlers.rs:96-233 | uninterrupted, a request whose keys are all allowed is charged for each and served, or answered Busy if an export is under way |
| Requests.EndsAlone | crates/rdw-api/src/handlers.rs:163-257 | uninterrupted, an export that was sent is answered 200 and stays charged; every other ending gives back each key once and is answered 504 for a timeout, 406 for a file too large to expand, and 502 for all the rest |
| Interference.NoticedExactly | crates/rdw-core/src/rate_limit.rs:75-82 | held grants change a check's verdict if and only if its key is held, the day is not yet spent, and the grant held is the last of that day or of that week |
| Interference.CheckNoticesExactly | crates/rdw-api/src/handlers.rs:96-115 | so it is for another request's check while a request reserves or gives back |
| Interference.TraceIsExact | crates/rdw-api/src/handlers.rs:96-121 | two runs that differ in the steps of one request that never holds the permit give the others the same verdicts if and only if none of their checks notices a grant it holds |
| Interference.RefusedLeavesTraceExactly | crates/rdw-api/src/handlers.rs:96-121 | from an empty limiter, for any request of distinct keys answered RateLimited or Busy |
| DoomedReservation.RefusedReservationCanRefuseAnother | crates/rdw-api/src/handlers.rs:96-115 | a run of five requests at one moment in which the fourth is refused and the fifth only because of it |
| Chunking.NeatMeansChunks | crates/rdw-core/src/csv_writer.rs:155-176 | full pieces with a shorter last one are the only such split, so it depends on the rows alone |
| FilePlan.ExportLeavesRightly | crates/rdw-core/src/csv_writer.rs:278-281 | whatever fails: an export leaves nothing only if its first fault is one that loses track of no file; when nothing fails after it, exactly then; a delivered export then leaves one file |
| FilePlan.RemovedCount | crates/rdw-core/src/csv_writer.rs:230-232 | of distinct paths tried one after the other, as many are left as removals fail |
| Assembly.Assembler.constructor | crates/rdw-core/src/csv_writer.rs:109-115 | starts with no file and no row |
| Assembly.Assembler.OpenNewPart | crates/rdw-core/src/csv_writer.rs:117-134 | creates the file and writes the header, failing as the plan says; a failure leaves one more file astray exactly when the header write failed |
| Assembly.Assembler.CloseCurrentPart | crates/rdw-core/src/csv_writer.rs:136-150 | moves the current part to the closed ones; a failure leaves its file astray and counts it among the parts no more |
| Assembly.Assembler.WriteRow | crates/rdw-core/src/csv_writer.rs:171-173 | appends one row to the current part and its count; a failure loses track of nothing |
| Assembly.Assembler.WriteRows | crates/rdw-core/src/csv_writer.rs:155-176 | appends the batch, every closed part full and the open one not empty, or fails at the first fault among the operations its rows need; one file goes astray exactly when that is a header write or a closing |
| Assembly.TempDir.RemoveAll | crates/rdw-core/src/csv_writer.rs:286-288 | every path is tried in turn; exactly those whose removal the plan lets succeed are gone, and nothing else changes |
| Assembly.Assembler.Abort | crates/rdw-core/src/csv_writer.rs:282-289 | tries to remove the current part and then every closed one; what is left are the astray files and one for each removal that the plan lets fail |
| Assembly.Assembler.CloseFinalPart | crates/rdw-core/src/csv_writer.rs:199-205 | the closed parts are the neat split of all rows, or one header-only part |
| Assembly.Assembler.TryZipParts | crates/rdw-core/src/csv_writer.rs:246-276 | the archive holds every part in order and the report; no other file changes |
| Assembly.Assembler.ZipParts | crates/rdw-core/src/csv_writer.rs:226-244 | leaves the archive, or on failure none, besides one part for each removal that fails; a failed archive is one more removal if it was created |
| Assembly.Assembler.FinishParts | crates/rdw-core/src/csv_writer.rs:207-224 | one part is delivered as it is and stays even if it cannot be measured, more are delivered as an archive; the number of files left is the one the plan gives |
| Assembly.Assembler.WriteBatches | crates/rdw-core/src/csv_writer.rs:152-176 | batch after batch needs the operations of all the rows together, however they are batched |
| Assembly.Assembler.Finish | crates/rdw-core/src/csv_writer.rs:181-205 | delivers a function of header, rows and limit, a CSV exactly when the rows fit one part; fails at the first fault among its operations; leaves as many files as the plan gives, a failed closing removing none |
| Assembly.DeliveryHoldsTheRows | crates/rdw-core/src/csv_writer.rs:152-176 | each part has the header and at most the limit of rows, all but the last are full, together they are the rows in order, there are ceil(n/limit), and an archive holds the report |
| Assembly.StageBatches | crates/rdw-core/src/csv_writer.rs:155-289 | delivers the rows and touches no other file, or fails at the plan's first fault; the number of files left is a function of row count, limit and plan; without faults the delivered file is the only new one, and if nothing fails after the first fault there is no new file exactly when that fault was a creation, a row or the archive |
| Assembly.Assemble | crates/rdw-core/src/csv_writer.rs:77-84 | the same for rows in memory, split at the limit of a spreadsheet |
| EndToEnd.ExportToFile | crates/rdw-api/src/handlers.rs:134-205 | an export that ends Ok, with its assembler, succeeds, fails and leaves files as staging its rows does; a delivered file has the widened emitted rows as its data rows |
| EndToEnd.FileHoldsThePopulation | crates/rdw-api/src/pipeline.rs:490-502 | those rows are, as a multiset, one right or marked row for each matching vehicle; without failed fetches the rows of the nested-loop join over the population |
| Calendar.CivilFromDaysFollowsCalendar | crates/rdw-core/src/csv_writer.rs:315-327 | for every integer day: day 0 is 1970-01-01, the result is a valid Gregorian date, and the next day is its successor |
| Calendar.DaysFromCivilUndoes | crates/rdw-core/src/csv_writer.rs:315-327 | counting the days to the date gives the day back |
| Calendar.CivilFromDaysUndoes | crates/rdw-core/src/csv_writer.rs:315-327 | every valid date is the date of the days counted to it |
| Calendar.LaterDayLaterDate | crates/rdw-core/src/csv_writer.rs:315-327 | later days have later dates |
| Calendar.YearOfEraAt | crates/rdw-core/src/csv_writer.rs:319 | the leap-day corrections of the year formula cancel on every day of every year of an era |
| Timestamp.FourDigitYearIs | crates/rdw-core/src/csv_writer.rs:302-311 | the seconds whose year has four digits are exactly those from -62167219200 to 253402300799 |
| Timestamp.RenderThenRead | crates/rdw-core/src/csv_writer.rs:302-311 | reading the text back, as the date-time of section 5.6 of RFC 3339, gives the seconds exactly for years 0000 to 9999, and nothing for others |
| Timestamp.ReadThenRender | crates/rdw-core/src/csv_writer.rs:302-311 | every readable text is the text of the seconds read |
| Timestamp.TextOrderIsTimeOrder | crates/rdw-core/src/csv_writer.rs:302-311 | for years 0000 to 9999 the order of texts is the order of time |
| Timestamp.FiveDigitYearSortsFirst | crates/rdw-core/src/csv_writer.rs:310 | the year 10000 sorts before 1970 |

## Left out

- The rest of a query's URL: the dataset, `$order`, `$limit` and percent-encoding. The reader of filters knows the conditions the client writes, not all of SoQL.
- HTTP, timeouts, retries and the asynchronous runtime: a request succeeds or fails, and an answer is that of the fixed dataset. A caller that disconnects during its export is not modelled.
- Changes of the upstream dataset during an export: with a fixed dataset the pre-export count is the size of the population. A count that fails before any worker starts is not an event.
- The fuel dataset answers in plate order, and plates are present and unique in the vehicle dataset; `volgnummer` order is a premise only where success is proved.
- Reading CSV pages, widening rows to columns, neutralising formulas and column metadata: rows are kept whole.
- The csv, gzip and zip encodings: a part is a header and a sequence of rows. A row whose write failed leaves arbitrary contents in its part.
- Times and texts in the failed-range list, the text of the export report, error messages, file names, response headers and the size test behind 406, which is one possible ending of an export.
- Machine integers: counts are unbounded, and the 32- and 64-bit widths are not modelled. The failure ratio is a real number, so rounding is not modelled.
- Parsing of brands, limits, keys and environment variables. Brands named twice are dropped before the reservation, which `Reservation` takes as a premise and `Requests` does not need.
- The row-count mismatch is a data-integrity error in the program; the model gives it a constructor of its own, to say that it does not occur.
- Eviction is one step; the program locks the map piece by piece.
- `abandoned` in the export's state is a history of what workers dropped; no step reads it.
- Assembly.StageBatches: stops at the first failed batch. In the concurrent export another worker may still write before it sees the error; `WriteRows` covers such calls, with no promise about contents. Copying one part into the archive is one operation.
- EndToEnd.ExportToFile: takes a schedule that ends Ok and stops if the assembler fails; the schedules of `ConcurrentExport` cover failing writes. A row is widened by a function that is not modelled.
- Requests.DeliveriesStayWithinBudget: asks that checks keep the order of their days and are not more than a day and a second behind an eviction; the exact condition on the disorder of clocks is `RequestTolerance.DeliveriesFitExactly`.
