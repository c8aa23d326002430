/** The concurrent export as a machine whose steps any schedule may interleave:
    range workers over one queue, one failure counter, one assembler, and the
    task that joins them. */
module ConcurrentExport {
  import opened Wrappers
  import opened Ranges
  import opened Upstream
  import opened AbortCounter
  import opened MergeJoin
  import opened FuelFetch

  // ----- The fixed setting of one export

  datatype Setting = Setting(
    data: seq<VehicleRow>, fuelData: seq<FuelRow>, merken: seq<string>,
    rangeCount: nat, workerCount: nat, pageSize: nat,
    fuelBatch: nat, fuelLimit: nat, failure: FailureConfig)
  {
    predicate Valid() {
      Register(data) && FuelDataset(fuelData) && fuelBatch > 0
    }

    function Vehicles(): seq<VehicleRow> {
      Population(data, merken)
    }

    /** The rows of a range not yet paged through. */
    function Ahead(range: KentekenRange, cursor: Option<string>): seq<VehicleRow> {
      var q := RangePageQuery(merken, range, cursor, pageSize);
      Selected(data, q.merken, q.after, q.upTo)
    }

    function Page(range: KentekenRange, cursor: Option<string>): seq<VehicleRow> {
      Answer(data, RangePageQuery(merken, range, cursor, pageSize))
    }
  }

  // ----- State

  datatype PipelineError =
    Timeout | Upstream | DataIntegrity | RowCountMismatch | Assembly | FuelFailureThresholdExceeded | WorkerPanic

  datatype FailedRange = FailedRange(lo: Option<string>, hi: Option<string>, vehicleCount: nat)

  datatype Summary = Summary(attempted: nat, failures: nat, vehiclesAffected: nat, failedRanges: seq<FailedRange>)

  /** One page with the outcome of its fuel fetch. */
  datatype Batch = Batch(range: KentekenRange, page: seq<VehicleRow>, fuel: seq<FuelRow>, failed: bool)

  /** Where a worker stands, with what it holds. */
  datatype Stage =
    | Idle                                                            // about to read the abort flag
    | Unaborted                                                       // about to read the error flag
    | Claiming                                                        // about to pop a range
    | RangeTop(range: KentekenRange, cursor: Option<string>)          // about to read the abort flag for this page
    | Paging(range: KentekenRange, cursor: Option<string>)            // vehicle page requested
    | Fueling(range: KentekenRange, page: seq<VehicleRow>)            // fuel rows requested
    | Fueled(batch: Batch)                                            // failure, if any, noted in the summary
    | Recording(batch: Batch, phase: Phase)                           // attempt noted; inside record_and_check
    | Recorded(batch: Batch)                                          // not aborted; about to join
    | Joined(range: KentekenRange, page: seq<VehicleRow>, rows: seq<WidenedRow>)   // about to write
    | Written(range: KentekenRange, page: seq<VehicleRow>, rows: seq<WidenedRow>)  // about to count and move on
    | Failing(error: PipelineError)                                   // about to store the error
    | ErrorStored                                                     // about to raise the error flag
    | Done
    | Panicked
    | Cancelled
    | Reaped                                                          // joined by the coordinator

  /** What is outstanding: vehicles not yet emitted, rows to be counted as
      affected, rows written but not counted, and fetches noted in the summary
      but not yet in the failure counter. */
  datatype Load = Load(rows: multiset<VehicleRow>, affected: int, uncounted: int, unattempted: int, unfailed: int)

  const NOTHING := Load(multiset{}, 0, 0, 0, 0)

  function Plus(a: Load, b: Load): Load {
    Load(a.rows + b.rows, a.affected + b.affected, a.uncounted + b.uncounted,
         a.unattempted + b.unattempted, a.unfailed + b.unfailed)
  }

  /** `abandoned` is a history of what workers dropped; no step reads it. */
  datatype Shared = Shared(
    queue: seq<KentekenRange>, counters: Counters, summary: Summary,
    hardError: Option<PipelineError>, errorFlag: bool,
    emitted: seq<WidenedRow>, emittedCount: nat, cancelled: bool, abandoned: Load)

  datatype State = State(shared: Shared, workers: seq<Stage>, result: Option<Result<Summary, PipelineError>>)

  function WorkerTotal(c: Setting): nat {
    var wanted := if c.workerCount < 1 then 1 else c.workerCount;
    if wanted < Clamped(c.rangeCount) then wanted else Clamped(c.rangeCount)
  }

  function Init(c: Setting): State {
    State(
      Shared(Bands(c.rangeCount), Counters(0, 0, false), Summary(0, 0, 0, []), None, false, [], 0, false, NOTHING),
      seq(WorkerTotal(c), _ => Idle),
      None)
  }

  // ----- What a worker holds

  function LeftBehind(c: Setting, range: KentekenRange, page: seq<VehicleRow>): seq<VehicleRow>
  {
    if page == [] then [] else c.Ahead(range, LastPlate(page))
  }

  function VehiclesOf(rows: seq<WidenedRow>): seq<VehicleRow> {
    seq(|rows|, i requires 0 <= i < |rows| => rows[i].vehicle)
  }

  function Unavailable(rows: seq<WidenedRow>): nat {
    if rows == [] then 0 else (if rows[0].status == FuelUnavailable then 1 else 0) + Unavailable(rows[1..])
  }

  function BatchLoad(c: Setting, b: Batch, unattempted: int, unfailed: int): Load {
    Load(multiset(b.page) + multiset(LeftBehind(c, b.range, b.page)),
         if b.failed then |b.page| else 0, 0, unattempted, unfailed)
  }

  function LoadOf(c: Setting, w: Stage): Load {
    match w
    case RangeTop(range, cursor) => Load(multiset(c.Ahead(range, cursor)), 0, 0, 0, 0)
    case Paging(range, cursor) => Load(multiset(c.Ahead(range, cursor)), 0, 0, 0, 0)
    case Fueling(range, page) => Load(multiset(page) + multiset(LeftBehind(c, range, page)), 0, 0, 0, 0)
    case Fueled(b) => BatchLoad(c, b, 0, if b.failed then 1 else 0)
    case Recording(b, phase) =>
      BatchLoad(c, b, if phase.Outside? then 1 else 0, if b.failed && (phase.Outside? || phase.Counted?) then 1 else 0)
    case Recorded(b) => BatchLoad(c, b, 0, 0)
    case Joined(range, page, rows) =>
      Load(multiset(VehiclesOf(rows)) + multiset(LeftBehind(c, range, page)), Unavailable(rows), 0, 0, 0)
    case Written(range, page, rows) => Load(multiset(LeftBehind(c, range, page)), 0, |rows|, 0, 0)
    case _ => NOTHING
  }

  function Abandon(c: Setting, sh: Shared, w: Stage): Shared {
    sh.(abandoned := Plus(sh.abandoned, LoadOf(c, w)))
  }

  // ----- Steps of one worker

  datatype Action =
    | ReadAbort | ReadErrorFlag | Pop
    | PageArrives | PageFails(error: PipelineError)
    | FuelArrives | FuelFails
    | NoteAttempt | Record
    | Join | Write | WriteFails(written: nat) | Count
    | StoreError | RaiseFlag
    | Panic | Cancel | Reap

  /** A worker can be dropped only where it waits. */
  predicate Waiting(w: Stage) {
    w.Idle? || w.Claiming? || w.Paging? || w.Fueling? || w.Joined?
  }

  /** The four steps of record_and_check neither wait nor panic. */
  predicate CanPanic(w: Stage) {
    !w.Done? && !w.Panicked? && !w.Cancelled? && !w.Reaped? && (w.Recording? ==> w.phase.Outside?)
  }

  predicate CanAct(c: Setting, sh: Shared, w: Stage, a: Action)
    requires c.Valid()
  {
    match a
    case ReadAbort => w.Idle? || w.RangeTop?
    case ReadErrorFlag => w.Unaborted?
    case Pop => w.Claiming?
    case PageArrives => w.Paging?
    case PageFails(e) => w.Paging? && (e == Timeout || e == Upstream)
    case FuelArrives => w.Fueling? && Register(w.page)
      && FetchFuel(c.fuelData, PlatesOf(w.page), c.fuelBatch, c.fuelLimit).Ok?
    case FuelFails => w.Fueling?
    case NoteAttempt => w.Fueled?
    case Record => w.Recording?
    case Join => w.Recorded?
    case Write => w.Joined?
    case WriteFails(written) => w.Joined? && written <= |w.rows|
    case Count => w.Written?
    case StoreError => w.Failing?
    case RaiseFlag => w.ErrorStored?
    case Panic => CanPanic(w)
    case Cancel => sh.cancelled && Waiting(w)
    case Reap => w.Done? || w.Panicked? || w.Cancelled?
  }

  function NoteFailure(s: Summary, page: seq<VehicleRow>): Summary {
    var lo := if page == [] then None else page[0].kenteken;
    var hi := if page == [] then None else LastPlate(page);
    Summary(s.attempted, s.failures + 1, s.vehiclesAffected + |page|,
            s.failedRanges + [FailedRange(lo, hi, |page|)])
  }

  function Act(c: Setting, sh: Shared, w: Stage, a: Action): (Shared, Stage)
    requires c.Valid() && CanAct(c, sh, w, a)
  {
    match a
    case ReadAbort =>
      if w.Idle? then (sh, if sh.counters.aborted then Done else Unaborted)
      else if sh.counters.aborted then (Abandon(c, sh, w), Idle)
      else (sh, Paging(w.range, w.cursor))
    case ReadErrorFlag => (sh, if sh.errorFlag then Done else Claiming)
    case Pop =>
      if sh.queue == [] then (sh, Done)
      else (sh.(queue := sh.queue[1..]), RangeTop(sh.queue[0], None))
    case PageArrives =>
      var page := c.Page(w.range, w.cursor);
      if page == [] then (Abandon(c, sh, w), Idle) else (sh, Fueling(w.range, page))
    case PageFails(e) => (Abandon(c, sh, w), Failing(e))
    case FuelArrives =>
      var fuel := FetchFuel(c.fuelData, PlatesOf(w.page), c.fuelBatch, c.fuelLimit).value;
      (sh, Fueled(Batch(w.range, w.page, fuel, false)))
    case FuelFails => (sh.(summary := NoteFailure(sh.summary, w.page)), Fueled(Batch(w.range, w.page, [], true)))
    case NoteAttempt =>
      (sh.(summary := sh.summary.(attempted := sh.summary.attempted + 1)), Recording(w.batch, Outside))
    case Record =>
      if w.phase.Settled? then
        if sh.counters.aborted then (Abandon(c, sh, w), Idle) else (sh, Recorded(w.batch))
      else
        var (counters, phase) :=
          if w.phase.Outside? then Begin(sh.counters, w.batch.failed) else Advance(c.failure, sh.counters, w.phase);
        (sh.(counters := counters), Recording(w.batch, phase))
    case Join =>
      var b := w.batch;
      if Joinable(b.page, b.fuel) then (sh, Joined(b.range, b.page, NestedLoopJoin(b.page, b.fuel, b.failed)))
      else (Abandon(c, sh, w), Failing(DataIntegrity))
    case Write => (sh.(emitted := sh.emitted + w.rows), Written(w.range, w.page, w.rows))
    case WriteFails(written) =>
      var unwritten := LoadOf(c, Joined(w.range, w.page, w.rows[written..]));
      (sh.(emitted := sh.emitted + w.rows[..written],
           abandoned := Plus(sh.abandoned, unwritten.(uncounted := written))), Failing(Assembly))
    case Count =>
      (sh.(emittedCount := sh.emittedCount + |w.rows|),
       if |w.page| < c.pageSize || w.page == [] then Idle else RangeTop(w.range, LastPlate(w.page)))
    case StoreError => (sh.(hardError := Some(w.error)), ErrorStored)
    case RaiseFlag => (sh.(errorFlag := true), Done)
    case Panic => (Abandon(c, sh, w), Panicked)
    case Cancel => (Abandon(c, sh, w), Cancelled)
    case Reap =>
      if w.Panicked?
      then (sh.(hardError := if sh.hardError.None? then Some(WorkerPanic) else sh.hardError, errorFlag := true), Reaped)
      else (sh, Reaped)
  }

  // ----- Steps of the whole export

  datatype Event = Work(worker: nat, action: Action) | CancelAll | Finish

  function RowCountTolerance(expected: nat): nat {
    if expected / 2000 > 50 then expected / 2000 else 50
  }

  function Difference(a: nat, b: nat): nat {
    if a < b then b - a else a - b
  }

  function Verdict(c: Setting, sh: Shared): Result<Summary, PipelineError> {
    if sh.hardError.Some? then Err(sh.hardError.value)
    else if sh.counters.aborted then Err(FuelFailureThresholdExceeded)
    else if Difference(|c.Vehicles()|, sh.emittedCount) > RowCountTolerance(|c.Vehicles()|) then Err(RowCountMismatch)
    else Ok(sh.summary)
  }

  predicate Enabled(c: Setting, s: State, e: Event)
    requires c.Valid()
  {
    && s.result.None?
    && match e
       case Work(i, a) => i < |s.workers| && CanAct(c, s.shared, s.workers[i], a)
       case CancelAll => !s.shared.cancelled && (s.shared.counters.aborted || s.shared.errorFlag)
       case Finish => forall i :: 0 <= i < |s.workers| ==> s.workers[i].Reaped?
  }

  function Next(c: Setting, s: State, e: Event): State
    requires c.Valid() && Enabled(c, s, e)
  {
    match e
    case Work(i, a) =>
      var (sh, w) := Act(c, s.shared, s.workers[i], a);
      State(sh, s.workers[i := w], None)
    case CancelAll => s.(shared := s.shared.(cancelled := true))
    case Finish => s.(result := Some(Verdict(c, s.shared)))
  }

  /** Every event is possible when its turn comes. */
  predicate Schedule(c: Setting, s: State, events: seq<Event>)
    requires c.Valid()
    decreases |events|
  {
    events == [] || (Enabled(c, s, events[0]) && Schedule(c, Next(c, s, events[0]), events[1..]))
  }

  function Run(c: Setting, s: State, events: seq<Event>): State
    requires c.Valid() && Schedule(c, s, events)
    decreases |events|
  {
    if events == [] then s else Run(c, Next(c, s, events[0]), events[1..])
  }
}
