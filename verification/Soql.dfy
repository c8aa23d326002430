/** The filter text sent upstream, and a reader of such text that knows its
    fields and operators by their own names and decides which rows it admits. */
module Soql {
  import opened Wrappers
  import opened Order
  import opened Ranges
  import opened Upstream

  // ----- Rendering

  /** A quote inside a literal is doubled. */
  function Escape(s: string): string {
    if s == [] then [] else (if s[0] == '\'' then "''" else [s[0]]) + Escape(s[1..])
  }

  function Quote(s: string): string {
    "'" + Escape(s) + "'"
  }

  function InList(xs: seq<string>): string {
    if xs == [] then ""
    else if |xs| == 1 then Quote(xs[0])
    else Quote(xs[0]) + "," + InList(xs[1..])
  }

  const MERK_IN := "merk in("
  const PLATE_IN := "kenteken in ("
  const PLATE_ABOVE := " AND kenteken > "
  const PLATE_UP_TO := " AND kenteken <= "

  function Bound(comparison: string, bound: Option<string>): string {
    if bound.Some? then comparison + Quote(bound.value) else ""
  }

  function Where(q: VehicleQuery): string {
    MERK_IN + (InList(q.merken) + (")" + (Bound(PLATE_ABOVE, q.after) + Bound(PLATE_UP_TO, q.upTo))))
  }

  function FuelWhere(kentekens: seq<string>): string {
    PLATE_IN + (InList(kentekens) + ")")
  }

  // ----- Reading

  /** The rest of a literal whose opening quote has been read. */
  function ReadBody(s: string): Option<(string, string)> {
    if s == [] then None
    else if s[0] == '\'' && (|s| == 1 || s[1] != '\'') then Some(("", s[1..]))
    else
      match ReadBody(if s[0] == '\'' then s[2..] else s[1..])
      case Some((body, rest)) => Some(([s[0]] + body, rest))
      case None => None
  }

  function ReadLiteral(s: string): Option<(string, string)> {
    if s != [] && s[0] == '\'' then ReadBody(s[1..]) else None
  }

  lemma {:induction false} ReadBodyShortens(s: string)
    requires ReadBody(s).Some?
    ensures |ReadBody(s).value.1| < |s|
  {
    if s[0] == '\'' && (|s| == 1 || s[1] != '\'') {
    } else {
      ReadBodyShortens(if s[0] == '\'' then s[2..] else s[1..]);
    }
  }

  function ReadItems(s: string): Option<(seq<string>, string)>
    decreases |s|
  {
    match ReadLiteral(s)
    case None => None
    case Some((first, rest)) =>
      ReadBodyShortens(s[1..]);
      if rest == [] || rest[0] != ',' then Some(([first], rest))
      else
        match ReadItems(rest[1..])
        case Some((others, rest')) => Some(([first] + others, rest'))
        case None => None
  }

  lemma {:induction false} ReadItemsShortens(s: string)
    requires ReadItems(s).Some?
    ensures |ReadItems(s).value.1| < |s|
    decreases |s|
  {
    ReadBodyShortens(s[1..]);
    var rest := ReadLiteral(s).value.1;
    if rest != [] && rest[0] == ',' {
      ReadItemsShortens(rest[1..]);
    }
  }

  function ReadList(s: string): Option<(seq<string>, string)> {
    if s != [] && s[0] == '\'' then ReadItems(s) else Some(([], s))
  }

  datatype Field = Merk | Kenteken

  datatype Comparison = Less | LessOrEqual | Equal | GreaterOrEqual | Greater

  datatype Condition =
    | OneOf(field: Field, values: seq<string>)
    | Compared(field: Field, comparison: Comparison, value: string)

  function DropSpaces(s: string): (rest: string)
    ensures |rest| <= |s|
  {
    if s != [] && s[0] == ' ' then DropSpaces(s[1..]) else s
  }

  function ReadField(s: string): Option<(Field, string)> {
    if "merk" <= s then Some((Merk, s[4..]))
    else if "kenteken" <= s then Some((Kenteken, s[8..]))
    else None
  }

  function ReadComparison(s: string): Option<(Comparison, string)> {
    if "<=" <= s then Some((LessOrEqual, s[2..]))
    else if ">=" <= s then Some((GreaterOrEqual, s[2..]))
    else if "<" <= s then Some((Less, s[1..]))
    else if ">" <= s then Some((Greater, s[1..]))
    else if "=" <= s then Some((Equal, s[1..]))
    else None
  }

  /** The rest of a condition on this field: "in" with a list, or a comparison with a literal. */
  function ReadTest(field: Field, s: string): Option<(Condition, string)> {
    if "in" <= s then
      var s1 := DropSpaces(s[2..]);
      if s1 == [] || s1[0] != '(' then None
      else
        match ReadList(s1[1..])
        case None => None
        case Some((values, s2)) => if s2 != [] && s2[0] == ')' then Some((OneOf(field, values), s2[1..])) else None
    else
      match ReadComparison(s)
      case None => None
      case Some((comparison, s1)) =>
        match ReadLiteral(DropSpaces(s1))
        case None => None
        case Some((value, s2)) => Some((Compared(field, comparison, value), s2))
  }

  function ReadCondition(s: string): Option<(Condition, string)> {
    match ReadField(s) case Some((field, rest)) => ReadTest(field, DropSpaces(rest)) case None => None
  }

  lemma ReadConditionShortens(s: string)
    requires ReadCondition(s).Some?
    ensures |ReadCondition(s).value.1| < |s|
  {
    var (field, rest) := ReadField(s).value;
    var t := DropSpaces(rest);
    if "in" <= t {
      var s1 := DropSpaces(t[2..])[1..];
      if s1 != [] && s1[0] == '\'' {
        ReadItemsShortens(s1);
      }
    } else {
      ReadBodyShortens(DropSpaces(ReadComparison(t).value.1)[1..]);
    }
  }

  /** Conditions joined by AND, up to the end of the text. */
  function ReadClause(s: string): Option<seq<Condition>>
    decreases |s|
  {
    match ReadCondition(s)
    case None => None
    case Some((first, rest)) =>
      ReadConditionShortens(s);
      if rest == [] then Some([first])
      else if " AND " <= rest then
        match ReadClause(rest[5..]) case Some(others) => Some([first] + others) case None => None
      else None
  }

  // ----- What a clause means

  /** The cells of a row that a clause can name; the fuel dataset has no brand. */
  datatype Cells = Cells(merk: Option<string>, kenteken: Option<string>)

  predicate Compares(x: string, comparison: Comparison, y: string) {
    match comparison
    case Less => Before(x, y)
    case LessOrEqual => AtMost(x, y)
    case Equal => x == y
    case GreaterOrEqual => AtMost(y, x)
    case Greater => Before(y, x)
  }

  /** A missing cell satisfies no condition. */
  predicate Holds(condition: Condition, cells: Cells) {
    var cell := if condition.field.Merk? then cells.merk else cells.kenteken;
    && cell.Some?
    && match condition
       case OneOf(_, values) => cell.value in values
       case Compared(_, comparison, value) => Compares(cell.value, comparison, value)
  }

  predicate AllHold(conditions: seq<Condition>, cells: Cells) {
    forall i :: 0 <= i < |conditions| ==> Holds(conditions[i], cells)
  }

  function CellsOf(row: VehicleRow): Cells {
    Cells(Some(row.merk), row.kenteken)
  }

  /** Whether the text admits the row; nothing if it is no clause. */
  function Evaluate(clause: string, cells: Cells): Option<bool> {
    match ReadClause(clause) case Some(conditions) => Some(AllHold(conditions, cells)) case None => None
  }

  // ----- The reader reads what the builders write

  predicate NoQuoteAhead(rest: string) {
    rest == [] || rest[0] != '\''
  }

  lemma {:induction false} BodyReads(x: string, rest: string)
    requires NoQuoteAhead(rest)
    ensures ReadBody(Escape(x) + ("'" + rest)) == Some((x, rest))
  {
    var s := Escape(x) + ("'" + rest);
    if x == [] {
      assert s == "'" + rest;
    } else {
      BodyReads(x[1..], rest);
      var tail := Escape(x[1..]) + ("'" + rest);
      if x[0] == '\'' {
        assert s == "''" + tail;
        assert s[2..] == tail;
      } else {
        assert s == [x[0]] + tail;
        assert s[1..] == tail;
      }
      assert [x[0]] + x[1..] == x;
    }
  }

  lemma LiteralReads(x: string, rest: string)
    requires NoQuoteAhead(rest)
    ensures ReadLiteral(Quote(x) + rest) == Some((x, rest))
  {
    BodyReads(x, rest);
    assert (Quote(x) + rest)[1..] == Escape(x) + ("'" + rest);
  }

  lemma {:induction false} ItemsRead(xs: seq<string>, rest: string)
    requires xs != [] && NoQuoteAhead(rest) && (rest == [] || rest[0] != ',')
    ensures ReadItems(InList(xs) + rest) == Some((xs, rest))
  {
    hide Escape, ReadBody, Quote;
    if |xs| == 1 {
      LiteralReads(xs[0], rest);
      assert [xs[0]] == xs;
    } else {
      var tail := InList(xs[1..]) + rest;
      hide ReadItems, ReadLiteral;
      ItemsRead(xs[1..], rest);
      assert InList(xs) == Quote(xs[0]) + "," + InList(xs[1..]);
      hide *;
      assert Quote(xs[0]) + "," + InList(xs[1..]) + rest == Quote(xs[0]) + ("," + tail);
      assert ("," + tail)[1..] == tail && ("," + tail)[0] == ',';
      OneMore(xs[0], xs[1..], tail, rest);
      assert [xs[0]] + xs[1..] == xs;
    }
  }

  lemma OneMore(x: string, xs: seq<string>, tail: string, rest: string)
    requires ReadItems(tail) == Some((xs, rest))
    ensures ReadItems(Quote(x) + ("," + tail)) == Some(([x] + xs, rest))
  {
    LiteralReads(x, "," + tail);
    hide ReadLiteral, Quote;
    assert ("," + tail)[1..] == tail;
  }

  lemma ListReads(xs: seq<string>, rest: string)
    requires NoQuoteAhead(rest) && (rest == [] || rest[0] != ',')
    ensures ReadList(InList(xs) + rest) == Some((xs, rest))
  {
    if xs == [] {
      assert InList(xs) + rest == rest;
    } else {
      ItemsRead(xs, rest);
    }
  }

  lemma OneSpace(s: string)
    requires s != [] && s[0] != ' '
    ensures DropSpaces(s) == s && DropSpaces(" " + s) == s
  {
    assert (" " + s)[1..] == s;
  }

  lemma ListTestReads(field: Field, space: string, xs: seq<string>, rest: string)
    requires space == "" || space == " "
    ensures ReadTest(field, "in" + (space + ("(" + (InList(xs) + (")" + rest))))) == Some((OneOf(field, xs), rest))
  {
    var tail := InList(xs) + (")" + rest);
    var s := "in" + (space + ("(" + tail));
    assert "in" <= s && s[2..] == space + ("(" + tail);
    OneSpace("(" + tail);
    assert "" + ("(" + tail) == "(" + tail;
    assert ("(" + tail)[1..] == tail;
    ListReads(xs, ")" + rest);
    assert (")" + rest)[1..] == rest;
  }

  lemma MerkListReads(xs: seq<string>, rest: string)
    ensures ReadCondition(MERK_IN + (InList(xs) + (")" + rest))) == Some((OneOf(Merk, xs), rest))
  {
    var test := "in" + ("" + ("(" + (InList(xs) + (")" + rest))));
    var s := MERK_IN + (InList(xs) + (")" + rest));
    assert s == "merk" + (" " + test);
    ListTestReads(Merk, "", xs, rest);
    hide ReadTest, InList;
    OneSpace(test);
    assert s[4..] == " " + test;
  }

  lemma PlateListReads(xs: seq<string>, rest: string)
    ensures ReadCondition(PLATE_IN + (InList(xs) + (")" + rest))) == Some((OneOf(Kenteken, xs), rest))
  {
    var test := "in" + (" " + ("(" + (InList(xs) + (")" + rest))));
    var s := PLATE_IN + (InList(xs) + (")" + rest));
    assert s == "kenteken" + (" " + test);
    ListTestReads(Kenteken, " ", xs, rest);
    hide ReadTest, InList;
    PlateReads(s, test);
  }

  lemma PlateReads(s: string, test: string)
    requires s == "kenteken" + (" " + test) && test != [] && test[0] != ' '
    ensures ReadCondition(s) == ReadTest(Kenteken, test)
  {
    hide ReadTest;
    OneSpace(test);
    assert s[0] == 'k' && s[8..] == " " + test;
  }

  lemma AboveTestReads(bound: string, rest: string)
    requires NoQuoteAhead(rest)
    ensures ReadTest(Kenteken, ">" + (" " + (Quote(bound) + rest))) == Some((Compared(Kenteken, Greater, bound), rest))
  {
    var literal := Quote(bound) + rest;
    LiteralReads(bound, rest);
    OneSpace(literal);
    hide ReadLiteral, Quote;
    var test := ">" + (" " + literal);
    assert test[0] == '>' && test[1] == ' ' && test[1..] == " " + literal;
  }

  /** A lower bound reads as a strict comparison, after the AND. */
  lemma AboveReads(bound: string, rest: string)
    requires NoQuoteAhead(rest)
    ensures var s := Bound(PLATE_ABOVE, Some(bound)) + rest;
            " AND " <= s && ReadCondition(s[5..]) == Some((Compared(Kenteken, Greater, bound), rest))
  {
    var literal := Quote(bound) + rest;
    var test := ">" + (" " + literal);
    var s := Bound(PLATE_ABOVE, Some(bound)) + rest;
    assert s == " AND " + ("kenteken" + (" " + test));
    assert s[5..] == "kenteken" + (" " + test);
    hide ReadTest, Quote;
    AboveTestReads(bound, rest);
    PlateReads(s[5..], test);
  }

  lemma UpToTestReads(bound: string, rest: string)
    requires NoQuoteAhead(rest)
    ensures ReadTest(Kenteken, "<=" + (" " + (Quote(bound) + rest)))
            == Some((Compared(Kenteken, LessOrEqual, bound), rest))
  {
    var literal := Quote(bound) + rest;
    LiteralReads(bound, rest);
    OneSpace(literal);
    hide ReadLiteral, Quote;
    var test := "<=" + (" " + literal);
    assert test[0] == '<' && test[1] == '=' && test[2..] == " " + literal;
  }

  /** An upper bound reads as one that includes the bound itself. */
  lemma UpToReads(bound: string, rest: string)
    requires NoQuoteAhead(rest)
    ensures var s := Bound(PLATE_UP_TO, Some(bound)) + rest;
            " AND " <= s && ReadCondition(s[5..]) == Some((Compared(Kenteken, LessOrEqual, bound), rest))
  {
    var literal := Quote(bound) + rest;
    var test := "<=" + (" " + literal);
    var s := Bound(PLATE_UP_TO, Some(bound)) + rest;
    assert s == " AND " + ("kenteken" + (" " + test));
    assert s[5..] == "kenteken" + (" " + test);
    hide ReadTest, Quote;
    UpToTestReads(bound, rest);
    PlateReads(s[5..], test);
  }

  // ----- The round trip

  function AboveConditions(bound: Option<string>): seq<Condition> {
    if bound.Some? then [Compared(Kenteken, Greater, bound.value)] else []
  }

  function UpToConditions(bound: Option<string>): seq<Condition> {
    if bound.Some? then [Compared(Kenteken, LessOrEqual, bound.value)] else []
  }

  /** What follows a condition: nothing, or AND and more conditions. */
  predicate ReadsOn(rest: string, others: seq<Condition>) {
    if rest == [] then others == [] else " AND " <= rest && ReadClause(rest[5..]) == Some(others)
  }

  lemma OneMoreCondition(s: string, condition: Condition, rest: string, others: seq<Condition>)
    requires ReadCondition(s) == Some((condition, rest)) && ReadsOn(rest, others)
    ensures ReadClause(s) == Some([condition] + others)
  {
    hide ReadCondition;
    assert [condition] + [] == [condition];
  }

  lemma UpToReadsOn(bound: Option<string>)
    ensures ReadsOn(Bound(PLATE_UP_TO, bound), UpToConditions(bound))
  {
    hide ReadCondition, ReadClause, Quote;
    if bound.Some? {
      var s := Bound(PLATE_UP_TO, bound);
      UpToReads(bound.value, "");
      assert s + "" == s && s != [];
      OneMoreCondition(s[5..], Compared(Kenteken, LessOrEqual, bound.value), "", []);
      assert [Compared(Kenteken, LessOrEqual, bound.value)] + [] == UpToConditions(bound);
    }
  }

  lemma BoundsReadOn(after: Option<string>, upTo: Option<string>)
    ensures ReadsOn(Bound(PLATE_ABOVE, after) + Bound(PLATE_UP_TO, upTo), AboveConditions(after) + UpToConditions(upTo))
  {
    hide ReadCondition, ReadClause, Quote;
    var rest, others := Bound(PLATE_UP_TO, upTo), UpToConditions(upTo);
    UpToReadsOn(upTo);
    if after.Some? {
      var s := Bound(PLATE_ABOVE, after) + rest;
      assert NoQuoteAhead(rest);
      AboveReads(after.value, rest);
      OneMoreCondition(s[5..], Compared(Kenteken, Greater, after.value), rest, others);
    } else {
      assert Bound(PLATE_ABOVE, after) + rest == rest && AboveConditions(after) + others == others;
    }
  }

  /** The text of a vehicle query reads as its conditions, in order. */
  lemma WhereReads(q: VehicleQuery)
    ensures ReadClause(Where(q))
            == Some([OneOf(Merk, q.merken)] + (AboveConditions(q.after) + UpToConditions(q.upTo)))
  {
    hide ReadCondition, ReadClause, InList, Bound;
    var bounds := Bound(PLATE_ABOVE, q.after) + Bound(PLATE_UP_TO, q.upTo);
    MerkListReads(q.merken, bounds);
    BoundsReadOn(q.after, q.upTo);
    OneMoreCondition(Where(q), OneOf(Merk, q.merken), bounds, AboveConditions(q.after) + UpToConditions(q.upTo));
  }

  /** The fuel filter reads back as the list it was built from. */
  lemma FuelWhereReadsBack(kentekens: seq<string>)
    ensures ReadClause(FuelWhere(kentekens)) == Some([OneOf(Kenteken, kentekens)])
  {
    assert ")" + "" == ")";
    PlateListReads(kentekens, "");
    OneMoreCondition(FuelWhere(kentekens), OneOf(Kenteken, kentekens), "", []);
  }

  /** The filter text admits exactly the rows that match the query: of a row
      with a plate, those of the brands that lie strictly above the lower bound
      and not above the upper one. A row without a plate passes no bound. */
  lemma WhereAdmitsMatches(q: VehicleQuery, row: VehicleRow)
    ensures Evaluate(Where(q), CellsOf(row))
            == Some(if row.kenteken.Some? then Matches(row, q.merken, q.after, q.upTo)
                    else row.merk in q.merken && q.after.None? && q.upTo.None?)
  {
    WhereReads(q);
    hide ReadClause, Where, Before;
    var cells := CellsOf(row);
    var above, upTo := AboveConditions(q.after), UpToConditions(q.upTo);
    var all := [OneOf(Merk, q.merken)] + (above + upTo);
    assert all[0] == OneOf(Merk, q.merken);
    assert forall i :: 0 <= i < |above| ==> all[1 + i] == above[i];
    assert forall i :: 0 <= i < |upTo| ==> all[1 + |above| + i] == upTo[i];
    if q.after.Some? {
      assert all[1] == above[0];
    }
    if q.upTo.Some? {
      assert all[1 + |above|] == upTo[0];
    }
  }

  /** The fuel filter admits exactly the rows of the named plates. */
  lemma FuelWhereAdmitsNamed(kentekens: seq<string>, kenteken: Option<string>)
    ensures Evaluate(FuelWhere(kentekens), Cells(None, kenteken))
            == Some(kenteken.Some? && kenteken.value in kentekens)
  {
    FuelWhereReadsBack(kentekens);
    hide ReadClause, FuelWhere;
    assert [OneOf(Kenteken, kentekens)][0] == OneOf(Kenteken, kentekens);
  }

  predicate IsBound(conditions: seq<Condition>, n: nat, comparison: Comparison) {
    n < |conditions| && conditions[n].Compared? && conditions[n].field == Kenteken
    && conditions[n].comparison == comparison
  }

  /** The query whose filter this is, if there is one. */
  function QueryOf(conditions: seq<Condition>, limit: nat): Option<VehicleQuery> {
    if conditions == [] || !conditions[0].OneOf? || conditions[0].field != Merk then None
    else
      var after := if IsBound(conditions, 1, Greater) then Some(conditions[1].value) else None;
      var n := if after.Some? then 2 else 1;
      var upTo := if IsBound(conditions, n, LessOrEqual) then Some(conditions[n].value) else None;
      if |conditions| == (if upTo.Some? then n + 1 else n)
      then Some(VehicleQuery(conditions[0].values, after, upTo, limit)) else None
  }

  /** The text of a vehicle query determines the query: whatever quotes,
      commas or keywords the brands and plates contain. */
  lemma WhereReadsBack(q: VehicleQuery)
    ensures ReadClause(Where(q)).Some? && QueryOf(ReadClause(Where(q)).value, q.limit) == Some(q)
  {
    WhereReads(q);
    hide ReadClause, Where;
  }

  /** Two lists with the same text are the same list. */
  lemma InListInjective(xs: seq<string>, ys: seq<string>)
    requires InList(xs) == InList(ys)
    ensures xs == ys
  {
    ListReads(xs, "");
    ListReads(ys, "");
  }

  // ----- The builders

  /** The filter of one page of the whole population: of the rows with a plate,
      those of the brands that lie strictly after the last plate seen. */
  method VehiclePageWhere(merken: seq<string>, after: Option<string>, limit: nat) returns (clause: string)
    ensures clause == Where(PageQuery(merken, after, limit))
    ensures forall row: VehicleRow :: row.kenteken.Some? ==>
              Evaluate(clause, CellsOf(row))
              == Some(row.merk in merken && (after.Some? ==> Before(after.value, row.kenteken.value)))
  {
    var list := InList(merken);
    clause := MERK_IN + list + ")";
    if after.Some? {
      clause := clause + PLATE_ABOVE + Quote(after.value);
    }
    Flatten(list, Bound(PLATE_ABOVE, after), "");
    AdmitsMatches(PageQuery(merken, after, limit));
  }

  /** The filter of one page of a range: of the rows with a plate, those of the
      brands that lie strictly after the cursor, or after the start of the
      range if there is none yet, and not after its end. */
  method VehicleRangePageWhere(merken: seq<string>, range: KentekenRange, cursor: Option<string>, limit: nat)
    returns (clause: string)
    ensures clause == Where(RangePageQuery(merken, range, cursor, limit))
    ensures forall row: VehicleRow :: row.kenteken.Some? ==>
              Evaluate(clause, CellsOf(row))
              == Some(&& row.merk in merken
                      && (cursor.Some? ==> Before(cursor.value, row.kenteken.value))
                      && (cursor.None? && range.lo.Some? ==> Before(range.lo.value, row.kenteken.value))
                      && (range.hi.Some? ==> AtMost(row.kenteken.value, range.hi.value)))
  {
    var list := InList(merken);
    clause := MERK_IN + list + ")";
    var lower := if cursor.Some? then cursor else range.lo;
    if lower.Some? {
      clause := clause + PLATE_ABOVE + Quote(lower.value);
    }
    assert clause == MERK_IN + list + ")" + Bound(PLATE_ABOVE, lower);
    if range.hi.Some? {
      clause := clause + PLATE_UP_TO + Quote(range.hi.value);
    }
    Flatten(list, Bound(PLATE_ABOVE, lower), Bound(PLATE_UP_TO, range.hi));
    AdmitsMatches(RangePageQuery(merken, range, cursor, limit));
  }

  lemma Flatten(list: string, above: string, upTo: string)
    ensures MERK_IN + list + ")" + above + upTo == MERK_IN + (list + (")" + (above + upTo)))
  {
  }

  lemma AdmitsMatches(q: VehicleQuery)
    ensures forall row: VehicleRow :: row.kenteken.Some? ==>
              Evaluate(Where(q), CellsOf(row)) == Some(Matches(row, q.merken, q.after, q.upTo))
  {
    forall row: VehicleRow | row.kenteken.Some?
      ensures Evaluate(Where(q), CellsOf(row)) == Some(Matches(row, q.merken, q.after, q.upTo))
    {
      WhereAdmitsMatches(q, row);
    }
  }
}
