/** Fetching the fuel rows of a page of plates in batches. */
module FuelFetch {
  import opened Wrappers
  import opened Chunking
  import opened Order
  import opened Upstream
  import opened MergeJoin

  const FUEL_KENTEKEN_BATCH := 800
  const DEFAULT_FUEL_PAGE_LIMIT := 50_000

  /** The fuel dataset lists its rows in plate order. */
  predicate FuelDataset(data: seq<FuelRow>) {
    && (forall i :: 0 <= i < |data| ==> data[i].kenteken.Some?)
    && (forall i, j :: 0 <= i < j < |data| ==> AtMost(data[i].kenteken.value, data[j].kenteken.value))
  }

  /** The rows of the named plates. */
  function Named(data: seq<FuelRow>, kentekens: seq<string>): seq<FuelRow> {
    if data == [] then []
    else (if data[0].kenteken.Some? && data[0].kenteken.value in kentekens then [data[0]] else [])
         + Named(data[1..], kentekens)
  }

  /** The upstream answer to one batch: at most `limit` rows. */
  function FuelAnswer(data: seq<FuelRow>, kentekens: seq<string>, limit: nat): seq<FuelRow> {
    var rows := Named(data, kentekens);
    if |rows| <= limit then rows else rows[..limit]
  }

  /** Pages in batch order; a page that fills the limit is taken for a truncated one. */
  function FetchPages(data: seq<FuelRow>, batches: seq<seq<string>>, limit: nat): Result<seq<seq<FuelRow>>, ()> {
    if batches == [] then Ok([])
    else
      var page := FuelAnswer(data, batches[0], limit);
      if |page| == limit then Err(())
      else
        match FetchPages(data, batches[1..], limit)
        case Ok(pages) => Ok([page] + pages)
        case Err(e) => Err(e)
  }

  function FetchFuel(data: seq<FuelRow>, kentekens: seq<string>, batch: nat, limit: nat): Result<seq<FuelRow>, ()>
    requires batch > 0
  {
    match FetchPages(data, Chunks(kentekens, batch), limit)
    case Ok(pages) => Ok(Flatten(pages))
    case Err(e) => Err(e)
  }

  // ----- Named rows

  predicate StrictlySorted(kentekens: seq<string>) {
    forall i, j :: 0 <= i < j < |kentekens| ==> Before(kentekens[i], kentekens[j])
  }

  predicate AllBelow(low: seq<string>, high: seq<string>) {
    forall a, b :: a in low && b in high ==> Before(a, b)
  }

  lemma {:induction false} NoneNamed(data: seq<FuelRow>, kentekens: seq<string>)
    requires forall row :: row in data && row.kenteken.Some? ==> row.kenteken.value !in kentekens
    ensures Named(data, kentekens) == []
  {
    if data != [] {
      assert data[0] in data;
      NoneNamed(data[1..], kentekens);
    }
  }

  lemma DatasetTail(data: seq<FuelRow>)
    requires FuelDataset(data) && data != []
    ensures FuelDataset(data[1..]) && data[0].kenteken.Some?
    ensures forall row :: row in data ==> row.kenteken.Some? && AtMost(data[0].kenteken.value, row.kenteken.value)
  {
  }

  /** Asking for two groups of plates one after the other, the smaller plates
      first, gives the rows in the order of a single question. */
  lemma {:induction false} NamedConcat(data: seq<FuelRow>, low: seq<string>, high: seq<string>)
    requires FuelDataset(data) && AllBelow(low, high)
    ensures Named(data, low + high) == Named(data, low) + Named(data, high)
  {
    if data != [] {
      DatasetTail(data);
      if data[0].kenteken.value in high {
        LowPlatesArePassed(data, low, high);
      }
      hide *;
      NamedConcat(data[1..], low, high);
      NamedStep(data, low);
      NamedStep(data, high);
      NamedStep(data, low + high);
    } else {
      assert Named(data, low) == [];
    }
  }

  lemma NamedStep(data: seq<FuelRow>, kentekens: seq<string>)
    requires data != []
    ensures Named(data, kentekens)
         == (if data[0].kenteken.Some? && data[0].kenteken.value in kentekens then [data[0]] else [])
            + Named(data[1..], kentekens)
  {
  }

  lemma LowPlatesArePassed(data: seq<FuelRow>, low: seq<string>, high: seq<string>)
    requires FuelDataset(data) && AllBelow(low, high) && data != []
    requires data[0].kenteken.Some? && data[0].kenteken.value in high
    ensures Named(data, low) == []
  {
    DatasetTail(data);
    forall row | row in data
      ensures row.kenteken.value !in low
    {
      if row.kenteken.value in low {
        Trichotomy(row.kenteken.value, data[0].kenteken.value);
        assert false;
      }
    }
    NoneNamed(data, low);
  }

  lemma ChunkSplit(kentekens: seq<string>, batch: nat)
    requires StrictlySorted(kentekens) && batch <= |kentekens|
    ensures AllBelow(kentekens[..batch], kentekens[batch..])
    ensures StrictlySorted(kentekens[batch..])
    ensures kentekens == kentekens[..batch] + kentekens[batch..]
  {
    var low, high := kentekens[..batch], kentekens[batch..];
    forall a, b | a in low && b in high
      ensures Before(a, b)
    {
      var i :| 0 <= i < |low| && low[i] == a;
      var j :| 0 <= j < |high| && high[j] == b;
      assert kentekens[i] == a && kentekens[batch + j] == b;
    }
  }

  // ----- What an accepted fetch returns

  /** An accepted fetch returns every dataset row of the named plates and
      nothing else, in dataset order, however the plates were batched. */
  lemma {:induction false} FetchIsComplete(data: seq<FuelRow>, kentekens: seq<string>, batch: nat, limit: nat)
    requires FuelDataset(data) && StrictlySorted(kentekens) && batch > 0
    requires FetchFuel(data, kentekens, batch, limit).Ok?
    ensures FetchFuel(data, kentekens, batch, limit).value == Named(data, kentekens)
    decreases |kentekens|
  {
    if |kentekens| == 0 {
      NoneNamed(data, kentekens);
    } else if |kentekens| <= batch {
      assert Chunks(kentekens, batch)[1..] == [];
      var page := FuelAnswer(data, kentekens, limit);
      assert FetchPages(data, [], limit) == Ok([]);
      assert Flatten([page]) == page + Flatten([page][1..]);
    } else {
      var low, high := kentekens[..batch], kentekens[batch..];
      ChunkSplit(kentekens, batch);
      assert Chunks(kentekens, batch)[1..] == Chunks(high, batch);
      var pages := FetchPages(data, Chunks(high, batch), limit);
      assert FetchFuel(data, high, batch, limit).Ok?;
      FetchIsComplete(data, high, batch, limit);
      NamedConcat(data, low, high);
      var page := FuelAnswer(data, low, limit);
      assert ([page] + pages.value)[1..] == pages.value;
    }
  }

  /** The fetch is refused exactly when some batch has at least `limit` rows,
      so a truncated batch is never accepted. */
  lemma {:induction false} FetchRefusedExactly(data: seq<FuelRow>, batches: seq<seq<string>>, limit: nat)
    ensures FetchPages(data, batches, limit).Err?
       <==> exists i :: 0 <= i < |batches| && |Named(data, batches[i])| >= limit
  {
    if batches != [] {
      FetchRefusedExactly(data, batches[1..], limit);
      assert |FuelAnswer(data, batches[0], limit)| == limit <==> |Named(data, batches[0])| >= limit;
      if i :| 0 <= i < |batches| && |Named(data, batches[i])| >= limit {
        assert i > 0 ==> batches[1..][i - 1] == batches[i];
      }
      if j :| 0 <= j < |batches[1..]| && |Named(data, batches[1..][j])| >= limit {
        assert batches[j + 1] == batches[1..][j];
      }
    }
  }

  lemma {:induction false} NamedCount(data: seq<FuelRow>, k: string, others: seq<string>)
    ensures |Named(data, [k] + others)| <= |FuelOf(data, k)| + |Named(data, others)|
  {
    if data != [] {
      NamedCount(data[1..], k, others);
    }
  }

  lemma {:induction false} NamedAtMostThreeEach(data: seq<FuelRow>, kentekens: seq<string>)
    requires forall k :: k in kentekens ==> |FuelOf(data, k)| <= MAX_FUEL_ENTRIES
    ensures |Named(data, kentekens)| <= MAX_FUEL_ENTRIES * |kentekens|
  {
    if kentekens == [] {
      NoneNamed(data, []);
    } else {
      assert kentekens == [kentekens[0]] + kentekens[1..];
      NamedCount(data, kentekens[0], kentekens[1..]);
      NamedAtMostThreeEach(data, kentekens[1..]);
    }
  }

  lemma {:induction false} ChunksAreSmall(kentekens: seq<string>, batch: nat)
    requires batch > 0
    ensures forall i :: 0 <= i < |Chunks(kentekens, batch)| ==> |Chunks(kentekens, batch)[i]| <= batch
    ensures forall i, k :: 0 <= i < |Chunks(kentekens, batch)| && k in Chunks(kentekens, batch)[i] ==> k in kentekens
    decreases |kentekens|
  {
    if |kentekens| > batch {
      var high := kentekens[batch..];
      ChunksAreSmall(high, batch);
      assert forall k :: k in high ==> k in kentekens;
      assert forall i :: 0 < i < |Chunks(kentekens, batch)| ==>
        Chunks(kentekens, batch)[i] == Chunks(high, batch)[i - 1];
    }
  }

  /** Where no plate has more rows than a vehicle can carry and a full batch
      stays below the limit, the limit check cannot misfire. */
  lemma NoFalseTruncation(data: seq<FuelRow>, kentekens: seq<string>, batch: nat, limit: nat)
    requires batch > 0 && batch * MAX_FUEL_ENTRIES < limit
    requires forall k :: k in kentekens ==> |FuelOf(data, k)| <= MAX_FUEL_ENTRIES
    ensures FetchFuel(data, kentekens, batch, limit).Ok?
    ensures FUEL_KENTEKEN_BATCH * MAX_FUEL_ENTRIES < DEFAULT_FUEL_PAGE_LIMIT
  {
    var batches := Chunks(kentekens, batch);
    ChunksAreSmall(kentekens, batch);
    FetchRefusedExactly(data, batches, limit);
    forall i | 0 <= i < |batches|
      ensures |Named(data, batches[i])| < limit
    {
      NamedAtMostThreeEach(data, batches[i]);
    }
  }

  // ----- Composed with the join

  lemma {:induction false} NamedKeepsGroup(data: seq<FuelRow>, kentekens: seq<string>, k: string)
    requires k in kentekens
    ensures FuelOf(Named(data, kentekens), k) == FuelOf(data, k)
  {
    if data != [] {
      NamedKeepsGroup(data[1..], kentekens, k);
      var rest := Named(data[1..], kentekens);
      assert ([data[0]] + rest)[1..] == rest;
      assert [] + rest == rest;
    }
  }

  lemma NamedInOrder(data: seq<FuelRow>, kentekens: seq<string>)
    requires FuelInOrder(data)
    ensures FuelInOrder(Named(data, kentekens))
    ensures Named(data, kentekens) != [] && data != [] ==>
              Named(data, kentekens)[0] == data[0] || FuelPrecedes(data[0], Named(data, kentekens)[0])
  {
    if data != [] {
      var rest := Named(data[1..], kentekens);
      NamedInOrder(data[1..], kentekens);
      if rest != [] && rest[0] != data[1] {
        FuelPrecedesTransitive(data[0], data[1], rest[0]);
      }
    }
  }

  lemma FuelPrecedesTransitive(a: FuelRow, b: FuelRow, c: FuelRow)
    requires FuelPrecedes(a, b) && FuelPrecedes(b, c)
    ensures FuelPrecedes(a, c)
  {
    if Before(a.kenteken.value, b.kenteken.value) && Before(b.kenteken.value, c.kenteken.value) {
      Transitive(a.kenteken.value, b.kenteken.value, c.kenteken.value);
    }
  }

  function PlatesOf(page: seq<VehicleRow>): seq<string>
    requires Register(page)
  {
    seq(|page|, i requires 0 <= i < |page| => page[i].kenteken.value)
  }

  lemma PlatesSorted(page: seq<VehicleRow>)
    requires Register(page)
    ensures StrictlySorted(PlatesOf(page))
    ensures forall i :: 0 <= i < |page| ==> page[i].kenteken.value in PlatesOf(page)
  {
    forall i | 0 <= i < |page|
      ensures page[i].kenteken.value in PlatesOf(page)
    {
      assert PlatesOf(page)[i] == page[i].kenteken.value;
    }
  }

  /** Fetching a page's fuel in batches and joining the result gives each
      vehicle the same row as joining the whole dataset. */
  lemma FetchThenJoin(page: seq<VehicleRow>, data: seq<FuelRow>, batch: nat, limit: nat)
    requires Register(page) && FuelDataset(data) && batch > 0
    requires FetchFuel(data, PlatesOf(page), batch, limit).Ok?
    ensures var fuel := FetchFuel(data, PlatesOf(page), batch, limit).value;
            && NestedLoopJoin(page, fuel, false) == NestedLoopJoin(page, data, false)
            && (FuelInOrder(data) ==> (Joinable(page, fuel) <==> Joinable(page, data)))
  {
    var plates := PlatesOf(page);
    PlatesSorted(page);
    FetchIsComplete(data, plates, batch, limit);
    var fuel := Named(data, plates);
    forall i | 0 <= i < |page|
      ensures FuelOf(fuel, page[i].kenteken.value) == FuelOf(data, page[i].kenteken.value)
    {
      NamedKeepsGroup(data, plates, page[i].kenteken.value);
    }
    if FuelInOrder(data) {
      NamedInOrder(data, plates);
    }
  }
}
