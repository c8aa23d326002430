/** The open-data service as the exporter sees it: a fixed register of vehicles
    that answers the structured query the client builds. */
module Upstream {
  import opened Wrappers
  import opened Order
  import opened Ranges

  /** A row as parsed from the wire: any cell may be missing, the plate included. */
  datatype VehicleRow = VehicleRow(kenteken: Option<string>, merk: string, cells: map<string, string>)

  datatype FuelRow = FuelRow(kenteken: Option<string>, volgnummer: Option<nat>, cells: map<string, string>)

  datatype VehicleQuery = VehicleQuery(merken: seq<string>, after: Option<string>, upTo: Option<string>, limit: nat)

  /** A page of the whole population, resumed after the last plate seen. */
  function PageQuery(merken: seq<string>, after: Option<string>, limit: nat): VehicleQuery {
    VehicleQuery(merken, after, None, limit)
  }

  /** A page of one range; a cursor replaces the range's own lower bound. */
  function RangePageQuery(merken: seq<string>, range: KentekenRange, cursor: Option<string>, limit: nat): VehicleQuery {
    VehicleQuery(merken, if cursor.Some? then cursor else range.lo, range.hi, limit)
  }

  // ----- Answers

  /** Plates are present and unique, and rows come in plate order. */
  predicate Register(data: seq<VehicleRow>) {
    && (forall i :: 0 <= i < |data| ==> data[i].kenteken.Some?)
    && (forall i, j :: 0 <= i < j < |data| ==> Before(data[i].kenteken.value, data[j].kenteken.value))
  }

  predicate Matches(row: VehicleRow, merken: seq<string>, after: Option<string>, upTo: Option<string>) {
    row.merk in merken && row.kenteken.Some? && Above(after, row.kenteken.value) && UpTo(row.kenteken.value, upTo)
  }

  function Selected(data: seq<VehicleRow>, merken: seq<string>, after: Option<string>, upTo: Option<string>)
    : seq<VehicleRow>
  {
    if data == [] then []
    else (if Matches(data[0], merken, after, upTo) then [data[0]] else []) + Selected(data[1..], merken, after, upTo)
  }

  function Answer(data: seq<VehicleRow>, q: VehicleQuery): seq<VehicleRow> {
    var rows := Selected(data, q.merken, q.after, q.upTo);
    if |rows| <= q.limit then rows else rows[..q.limit]
  }

  /** Every vehicle of the named brands. */
  function Population(data: seq<VehicleRow>, merken: seq<string>): seq<VehicleRow> {
    Selected(data, merken, None, None)
  }

  // ----- What selection keeps

  lemma RegisterTail(data: seq<VehicleRow>)
    requires Register(data) && data != []
    ensures Register(data[1..]) && data[0].kenteken.Some?
    ensures forall row :: row in data[1..] ==> row.kenteken.Some? && Before(data[0].kenteken.value, row.kenteken.value)
  {
  }

  lemma {:induction false} SelectedMatch(data: seq<VehicleRow>, merken: seq<string>, after: Option<string>,
        upTo: Option<string>)
    ensures forall row :: row in Selected(data, merken, after, upTo)
              <==> row in data && Matches(row, merken, after, upTo)
  {
    if data != [] {
      SelectedMatch(data[1..], merken, after, upTo);
      assert data == [data[0]] + data[1..];
    }
  }

  lemma {:induction false} SelectedIsRegister(data: seq<VehicleRow>, merken: seq<string>, after: Option<string>,
        upTo: Option<string>)
    requires Register(data)
    ensures Register(Selected(data, merken, after, upTo))
  {
    if data != [] {
      RegisterTail(data);
      SelectedIsRegister(data[1..], merken, after, upTo);
      SelectedMatch(data[1..], merken, after, upTo);
      var rest := Selected(data[1..], merken, after, upTo);
      forall j | 0 <= j < |rest|
        ensures Before(data[0].kenteken.value, rest[j].kenteken.value)
      {
        assert rest[j] in data[1..];
      }
    }
  }

  /** Two bounds that agree on every row of the data select the same rows. */
  lemma {:induction false} SameSelection(data: seq<VehicleRow>, merken: seq<string>,
      after: Option<string>, upTo: Option<string>, after': Option<string>, upTo': Option<string>)
    requires forall row :: row in data ==> (Matches(row, merken, after, upTo) <==> Matches(row, merken, after', upTo'))
    ensures Selected(data, merken, after, upTo) == Selected(data, merken, after', upTo')
  {
    if data != [] {
      assert forall row :: row in data[1..] ==> row in data;
      SameSelection(data[1..], merken, after, upTo, after', upTo');
    }
  }

  /** A tighter lower bound admits no new row, and none up to itself. */
  lemma TighterBound(row: VehicleRow, merken: seq<string>, after: Option<string>, tighter: string, upTo: Option<string>)
    requires Above(after, tighter)
    ensures Matches(row, merken, Some(tighter), upTo) ==> Matches(row, merken, after, upTo)
    ensures row.kenteken.Some? && AtMost(row.kenteken.value, tighter) ==> !Matches(row, merken, Some(tighter), upTo)
    ensures row.kenteken.Some? && Before(tighter, row.kenteken.value)
        ==> (Matches(row, merken, Some(tighter), upTo) <==> Matches(row, merken, after, upTo))
  {
    if row.kenteken.Some? {
      Trichotomy(tighter, row.kenteken.value);
      if after.Some? && Before(tighter, row.kenteken.value) {
        Transitive(after.value, tighter, row.kenteken.value);
      }
    }
  }

  lemma SelectedStep(data: seq<VehicleRow>, merken: seq<string>, after: Option<string>, upTo: Option<string>)
    requires data != []
    ensures Selected(data, merken, after, upTo)
         == (if Matches(data[0], merken, after, upTo) then [data[0]] else []) + Selected(data[1..], merken, after, upTo)
  {
  }

  lemma MatchedPlate(row: VehicleRow, merken: seq<string>, after: Option<string>, upTo: Option<string>)
    requires Matches(row, merken, after, upTo)
    ensures row.kenteken.Some? && Above(after, row.kenteken.value)
  {
  }

  lemma AtMostOr(a: string, b: string)
    ensures AtMost(a, b) <==> a == b || Before(a, b)
  {
  }

  lemma BoundBelowAll(data: seq<VehicleRow>, merken: seq<string>, after: Option<string>, tighter: string,
        upTo: Option<string>)
    requires Above(after, tighter)
    requires forall row :: row in data ==> row.kenteken.Some? && Before(tighter, row.kenteken.value)
    ensures Selected(data, merken, Some(tighter), upTo) == Selected(data, merken, after, upTo)
  {
    hide *;
    forall row | row in data
      ensures Matches(row, merken, after, upTo) <==> Matches(row, merken, Some(tighter), upTo)
    {
      TighterBound(row, merken, after, tighter, upTo);
    }
    SameSelection(data, merken, after, upTo, Some(tighter), upTo);
  }

  function LastPlate(page: seq<VehicleRow>): Option<string>
    requires page != []
  {
    page[|page| - 1].kenteken
  }

  /** Resuming after the last plate of a page selects exactly what the page left out. */
  lemma {:induction false} ResumeAfterPage(data: seq<VehicleRow>, merken: seq<string>,
      after: Option<string>, upTo: Option<string>, page: seq<VehicleRow>, left: seq<VehicleRow>)
    requires Register(data) && page != [] && Selected(data, merken, after, upTo) == page + left
    ensures LastPlate(page).Some? && Above(after, LastPlate(page).value)
    ensures Selected(data, merken, LastPlate(page), upTo) == left
  {
    assert data != [];
    hide *;
    LastIsSelected(data, merken, after, upTo, page, left);
    var last := LastPlate(page);
    RegisterTail(data);
    var first, rest := data[0], data[1..];
    SelectedStep(data, merken, after, upTo);
    SelectedStep(data, merken, last, upTo);
    TighterBound(first, merken, after, last.value, upTo);
    AtMostOr(first.kenteken.value, last.value);
    if !Matches(first, merken, after, upTo) {
      ResumeAfterPage(rest, merken, after, upTo, page, left);
    } else {
      assert page[0] == (page + left)[0] == first;
      assert (page + left)[1..] == page[1..] + left;
      if |page| == 1 {
        LastOfOne(page);
        BoundBelowAll(rest, merken, after, last.value, upTo);
      } else {
        LastOfMore(page);
        LastIsSelected(rest, merken, after, upTo, page[1..], left);
        ResumeAfterPage(rest, merken, after, upTo, page[1..], left);
      }
    }
  }

  lemma LastOfOne(page: seq<VehicleRow>)
    requires |page| == 1
    ensures LastPlate(page) == page[0].kenteken && page[1..] == []
  {
  }

  lemma LastOfMore(page: seq<VehicleRow>)
    requires |page| > 1
    ensures LastPlate(page) == LastPlate(page[1..]) && page[1..] != []
  {
  }

  lemma LastIsSelected(data: seq<VehicleRow>, merken: seq<string>,
      after: Option<string>, upTo: Option<string>, page: seq<VehicleRow>, left: seq<VehicleRow>)
    requires page != [] && Selected(data, merken, after, upTo) == page + left
    ensures LastPlate(page).Some? && Above(after, LastPlate(page).value)
    ensures exists row :: row in data && row.kenteken == LastPlate(page)
  {
    SelectedMatch(data, merken, after, upTo);
    var row := page[|page| - 1];
    assert row in page + left;
  }

  predicate BoundsAscend(a: Option<string>, b: Option<string>) {
    a.Some? && b.Some? ==> AtMost(a.value, b.value)
  }

  /** A row within the outer bounds lies on exactly one side of a boundary between them. */
  lemma RowAtCut(row: VehicleRow, merken: seq<string>, after: Option<string>, middle: string, upTo: Option<string>)
    requires BoundsAscend(after, Some(middle)) && BoundsAscend(Some(middle), upTo)
    ensures Matches(row, merken, after, upTo)
       <==> Matches(row, merken, after, Some(middle)) || Matches(row, merken, Some(middle), upTo)
    ensures !(Matches(row, merken, after, Some(middle)) && Matches(row, merken, Some(middle), upTo))
  {
    if row.kenteken.Some? {
      var k := row.kenteken.value;
      Trichotomy(middle, k);
      if AtMost(k, middle) {
        if upTo.Some? && k != middle && middle != upTo.value { Transitive(k, middle, upTo.value); }
      } else if after.Some? && after.value != middle {
        Transitive(after.value, middle, k);
      }
    }
  }

  /** Cutting a selection at a boundary loses nothing and repeats nothing. */
  lemma {:induction false} CutAt(data: seq<VehicleRow>, merken: seq<string>,
      after: Option<string>, middle: string, upTo: Option<string>)
    requires Register(data) && BoundsAscend(after, Some(middle)) && BoundsAscend(Some(middle), upTo)
    ensures Selected(data, merken, after, Some(middle)) + Selected(data, merken, Some(middle), upTo)
         == Selected(data, merken, after, upTo)
  {
    if data != [] {
      var first, rest := data[0], data[1..];
      RegisterTail(data);
      RowAtCut(first, merken, after, middle, upTo);
      hide *;
      CutAt(rest, merken, after, middle, upTo);
      SelectedStep(data, merken, after, upTo);
      SelectedStep(data, merken, after, Some(middle));
      SelectedStep(data, merken, Some(middle), upTo);
      if Matches(first, merken, Some(middle), upTo) {
        MatchedPlate(first, merken, Some(middle), upTo);
        PastBound(first.kenteken.value, middle);
        forall row | row in rest
          ensures Before(middle, row.kenteken.value)
        {
          Transitive(middle, first.kenteken.value, row.kenteken.value);
        }
        NothingUpTo(rest, merken, after, middle);
      }
    } else {
      assert Selected([], merken, after, Some(middle)) == [];
    }
  }

  lemma PastBound(k: string, bound: string)
    requires Above(Some(bound), k)
    ensures Before(bound, k)
  {
  }

  lemma {:induction false} NothingUpTo(data: seq<VehicleRow>, merken: seq<string>, after: Option<string>, bound: string)
    requires forall row :: row in data ==> row.kenteken.Some? && Before(bound, row.kenteken.value)
    ensures Selected(data, merken, after, Some(bound)) == []
  {
    if data != [] {
      Trichotomy(bound, data[0].kenteken.value);
      NothingUpTo(data[1..], merken, after, bound);
    }
  }

  /** What all the ranges select, one after the other. */
  function SelectedByAll(data: seq<VehicleRow>, merken: seq<string>, ranges: seq<KentekenRange>): seq<VehicleRow> {
    if ranges == [] then []
    else Selected(data, merken, ranges[0].lo, ranges[0].hi) + SelectedByAll(data, merken, ranges[1..])
  }

  lemma {:induction false} TilingFrom(data: seq<VehicleRow>, merken: seq<string>, ranges: seq<KentekenRange>, from: nat)
    requires Register(data) && Tiling(ranges) && from < |ranges|
    ensures SelectedByAll(data, merken, ranges[from..]) == Selected(data, merken, ranges[from].lo, None)
    decreases |ranges| - from
  {
    assert ranges[from..][1..] == ranges[from + 1..];
    if from + 1 < |ranges| {
      TilingFrom(data, merken, ranges, from + 1);
      CutAt(data, merken, ranges[from].lo, ranges[from + 1].lo.value, None);
    } else {
      assert SelectedByAll(data, merken, ranges[from + 1..]) == [];
    }
  }

  /** The ranges of a tiling select the whole population, each vehicle once. */
  lemma TilingSelectsPopulation(data: seq<VehicleRow>, merken: seq<string>, ranges: seq<KentekenRange>)
    requires Register(data) && Tiling(ranges)
    ensures SelectedByAll(data, merken, ranges) == Population(data, merken)
  {
    TilingFrom(data, merken, ranges, 0);
    assert ranges[0..] == ranges;
  }
}
