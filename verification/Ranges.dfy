/** The fixed tiling of plate space that the concurrent export works through. */
module Ranges {
  import opened Wrappers
  import opened Arithmetic
  import opened Order

  /** Plates `k` with `lo < k <= hi`; an absent bound does not bound. */
  datatype KentekenRange = KentekenRange(lo: Option<string>, hi: Option<string>)

  predicate Above(lo: Option<string>, k: string) {
    lo.Some? ==> Before(lo.value, k)
  }

  predicate UpTo(k: string, hi: Option<string>) {
    hi.Some? ==> AtMost(k, hi.value)
  }

  predicate Contains(r: KentekenRange, k: string) {
    Above(r.lo, k) && UpTo(k, r.hi)
  }

  // ----- Construction

  const ALPHABET := "0123456789ABCDEFGHIJKLMNOPQRSTUVWXYZ"

  const CODES: nat := 1296

  function TwoCharAt(idx: nat): string
    requires idx < CODES
  {
    [ALPHABET[idx / 36], ALPHABET[idx % 36]]
  }

  /** The two-character code at which band `i` of `n` begins. */
  function BandStart(i: nat, n: nat): nat
    requires n > 0
  {
    i * CODES / n
  }

  function Clamped(n: nat): nat {
    if n == 0 then 1 else n
  }

  lemma BandStartBounds(i: nat, n: nat)
    requires i < n
    ensures BandStart(i, n) < CODES
  {
    MulKeepsOrder(i + 1, n, CODES);
    QuotientBelow(i * CODES, n, CODES);
  }

  function Boundary(i: nat, n: nat): string
    requires i < n
  {
    BandStartBounds(i, n);
    TwoCharAt(BandStart(i, n))
  }

  /** The `i`-th of `n` bands. */
  function Band(i: nat, n: nat): KentekenRange
    requires i < n
  {
    KentekenRange(if i == 0 then None else Some(Boundary(i, n)),
                  if i + 1 == n then None else Some(Boundary(i + 1, n)))
  }

  function Bands(n: nat): seq<KentekenRange> {
    seq(Clamped(n), i requires 0 <= i < Clamped(n) => Band(i, Clamped(n)))
  }

  method FixedTwoCharBands(n: nat) returns (ranges: seq<KentekenRange>)
    ensures ranges == Bands(n)
  {
    var count := if n < 1 then 1 else n;
    var total := |ALPHABET| * |ALPHABET|;
    ranges := [];
    var prev: Option<string> := None;
    for i := 1 to count
      invariant |ranges| == i - 1
      invariant forall j :: 0 <= j < i - 1 ==> ranges[j] == Band(j, count)
      invariant prev == if i == 1 then None else Some(Boundary(i - 1, count))
    {
      BandStartBounds(i, count);
      var idx := i * total / count;
      var boundary := TwoCharAt(idx);
      ranges := ranges + [KentekenRange(prev, Some(boundary))];
      prev := Some(boundary);
    }
    ranges := ranges + [KentekenRange(prev, None)];
  }

  // ----- Codes and boundaries are ordered alike

  lemma SymbolOrder(a: nat, b: nat)
    requires a < b < 36
    ensures ALPHABET[a] < ALPHABET[b]
  {
    SymbolCode(a);
    SymbolCode(b);
  }

  lemma SymbolCode(d: nat)
    requires d < 36
    ensures ALPHABET[d] == if d < 10 then (48 + d) as char else (55 + d) as char
  {
    assert forall i :: 0 <= i < 36 ==> ALPHABET[i] == if i < 10 then (48 + i) as char else (55 + i) as char;
  }

  lemma SymbolsCompare(a: nat, b: nat)
    requires a < 36 && b < 36
    ensures Before([ALPHABET[a]], [ALPHABET[b]]) <==> a < b
    ensures [ALPHABET[a]] == [ALPHABET[b]] <==> a == b
  {
    if a < b { SymbolOrder(a, b); }
    if b < a { SymbolOrder(b, a); }
    hide ALPHABET;
    assert [ALPHABET[a]][0] == ALPHABET[a] && [ALPHABET[b]][0] == ALPHABET[b];
  }

  lemma CodeOrder(a: nat, b: nat)
    requires a < b < CODES
    ensures Before(TwoCharAt(a), TwoCharAt(b))
  {
    assert |ALPHABET| == 36;
    hide ALPHABET, Before;
    SymbolsCompare(a / 36, b / 36);
    SymbolsCompare(a % 36, b % 36);
    Concatenation([ALPHABET[a / 36]], [ALPHABET[b / 36]], [ALPHABET[a % 36]], [ALPHABET[b % 36]]);
    assert TwoCharAt(a) == [ALPHABET[a / 36]] + [ALPHABET[a % 36]];
    assert TwoCharAt(b) == [ALPHABET[b / 36]] + [ALPHABET[b % 36]];
  }

  /** No band is wider than another by more than one code. */
  lemma BandWidths(i: nat, n: nat)
    requires i < n
    ensures 0 <= BandStart(i + 1, n) - BandStart(i, n) - CODES / n <= 1
    ensures BandStart(0, n) == 0 && BandStart(n, n) == CODES
  {
    var q, r, w, s := i * CODES / n, i * CODES % n, CODES / n, CODES % n;
    assert i * CODES + CODES == (q + w) * n + (r + s);
    QuotientIs((i + 1) * CODES, n, if r + s < n then q + w else q + w + 1);
    QuotientIs(n * CODES, n, CODES);
  }

  lemma BandStartStep(i: nat, n: nat)
    requires i < n
    ensures BandStart(i, n) <= BandStart(i + 1, n)
    ensures n <= CODES + 1 && 0 < i && i + 1 < n ==> BandStart(i, n) < BandStart(i + 1, n)
  {
    BandWidths(i, n);
    if n <= CODES {
      if CODES / n == 0 {
        QuotientIs(CODES, n, 0);
      }
    } else if n == CODES + 1 && 0 < i && i + 1 < n {
      QuotientIs(i * CODES, n, i - 1);
      QuotientIs((i + 1) * CODES, n, i);
    }
  }

  lemma {:induction false} BandStartsAscend(i: nat, j: nat, n: nat, strictly: bool)
    requires 0 < i <= j < n
    requires strictly ==> forall k :: 0 < k && k + 1 < n ==> BandStart(k, n) < BandStart(k + 1, n)
    ensures BandStart(i, n) <= BandStart(j, n)
    ensures strictly ==> BandStart(i, n) + (j - i) <= BandStart(j, n)
    decreases j - i
  {
    hide BandStart;
    if i < j {
      BandStartStep(j - 1, n);
      BandStartsAscend(i, j - 1, n, strictly);
    }
  }

  // ----- The tiling

  /** Neighbours share a boundary, boundaries never descend, and the outermost sides are open. */
  predicate Tiling(ranges: seq<KentekenRange>) {
    && |ranges| > 0
    && ranges[0].lo == None
    && ranges[|ranges| - 1].hi == None
    && forall i :: 0 < i < |ranges| ==>
         ranges[i].lo == ranges[i - 1].hi && ranges[i].lo.Some?
         && (i + 1 < |ranges| && ranges[i].hi.Some? ==> AtMost(ranges[i].lo.value, ranges[i].hi.value))
  }

  lemma BandsTile(n: nat)
    ensures |Bands(n)| == Clamped(n) && Tiling(Bands(n))
  {
    var count := Clamped(n);
    forall i | 0 < i && i + 1 < count
      ensures AtMost(Boundary(i, count), Boundary(i + 1, count))
    {
      BandStartStep(i, count);
      BandStartBounds(i, count);
      BandStartBounds(i + 1, count);
      if BandStart(i, count) < BandStart(i + 1, count) {
        CodeOrder(BandStart(i, count), BandStart(i + 1, count));
      }
    }
  }

  lemma {:induction false} LaterBoundary(ranges: seq<KentekenRange>, i: nat, j: nat)
    requires Tiling(ranges) && 0 < i <= j < |ranges|
    ensures AtMost(ranges[i].lo.value, ranges[j].lo.value)
    decreases j - i
  {
    if i < j {
      LaterBoundary(ranges, i, j - 1);
      if ranges[i].lo.value != ranges[j - 1].lo.value && ranges[j - 1].lo.value != ranges[j].lo.value {
        Transitive(ranges[i].lo.value, ranges[j - 1].lo.value, ranges[j].lo.value);
      }
    }
  }

  lemma DistinctRangesDisjoint(ranges: seq<KentekenRange>, i: nat, j: nat, k: string)
    requires Tiling(ranges) && i < j < |ranges| && Contains(ranges[i], k)
    ensures !Contains(ranges[j], k)
  {
    var top := ranges[i + 1].lo.value;
    LaterBoundary(ranges, i + 1, j);
    assert AtMost(k, top);
    if Before(ranges[j].lo.value, k) {
      if k != top { Transitive(ranges[j].lo.value, k, top); }
      Trichotomy(ranges[j].lo.value, top);
      assert false;
    }
  }

  lemma {:induction false} SomeRangeContains(ranges: seq<KentekenRange>, k: string, from: nat) returns (i: nat)
    requires Tiling(ranges) && from < |ranges| && Above(ranges[from].lo, k)
    ensures i < |ranges| && Contains(ranges[i], k)
    decreases |ranges| - from
  {
    if Contains(ranges[from], k) {
      i := from;
    } else {
      Trichotomy(ranges[from].hi.value, k);
      i := SomeRangeContains(ranges, k, from + 1);
    }
  }

  /** However many bands are asked for, every plate whatsoever falls into exactly one of them. */
  lemma EveryPlateInExactlyOneBand(n: nat, k: string)
    ensures exists i: nat :: i < |Bands(n)| && Contains(Bands(n)[i], k)
              && forall j: nat :: j < |Bands(n)| && Contains(Bands(n)[j], k) ==> j == i
  {
    var ranges := Bands(n);
    BandsTile(n);
    var i := SomeRangeContains(ranges, k, 0);
    forall j: nat | j < |ranges| && Contains(ranges[j], k)
      ensures j == i
    {
      if i < j {
        DistinctRangesDisjoint(ranges, i, j, k);
      } else if j < i {
        DistinctRangesDisjoint(ranges, j, i, k);
      }
    }
  }

  // ----- When boundaries are all different

  predicate StrictBoundaries(ranges: seq<KentekenRange>) {
    forall i :: 0 < i && i + 1 < |ranges| ==>
      ranges[i].lo.Some? && ranges[i].hi.Some? && Before(ranges[i].lo.value, ranges[i].hi.value)
  }

  /** The 1296 two-character codes give 1297 bands with distinct boundaries and no more. */
  lemma StrictUpTo1297(n: nat)
    ensures StrictBoundaries(Bands(n)) <==> n <= CODES + 1
  {
    var count := Clamped(n);
    if n <= CODES + 1 {
      forall i | 0 < i && i + 1 < count
        ensures Before(Boundary(i, count), Boundary(i + 1, count))
      {
        BandStartStep(i, count);
        BandStartBounds(i, count);
        BandStartBounds(i + 1, count);
        CodeOrder(BandStart(i, count), BandStart(i + 1, count));
      }
    } else if StrictBoundaries(Bands(n)) {
      forall i | 0 < i && i + 1 < n
        ensures BandStart(i, n) < BandStart(i + 1, n)
      {
        BandStartStep(i, n);
        assert Before(Bands(n)[i].lo.value, Bands(n)[i].hi.value);
        Irreflexive(Boundary(i, n));
      }
      BandStartsAscend(1, n - 1, n, true);
      BandStartBounds(n - 1, n);
      assert false;
    }
  }
}
