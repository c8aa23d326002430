/** Splitting a sequence into pieces of one size, the last piece taking what is left. */
module Chunking {

  function Chunks<T>(s: seq<T>, size: nat): seq<seq<T>>
    requires size > 0
    decreases |s|
  {
    if |s| == 0 then []
    else if |s| <= size then [s]
    else [s[..size]] + Chunks(s[size..], size)
  }

  function Flatten<T>(pieces: seq<seq<T>>): seq<T> {
    if pieces == [] then [] else pieces[0] + Flatten(pieces[1..])
  }

  /** No piece is empty or too long, and all but the last are full. */
  predicate Neat<T>(pieces: seq<seq<T>>, size: nat) {
    && (forall i :: 0 <= i < |pieces| ==> 0 < |pieces[i]| <= size)
    && (forall i :: 0 <= i < |pieces| - 1 ==> |pieces[i]| == size)
  }

  lemma {:induction false} ChunksAreNeat<T>(s: seq<T>, size: nat)
    requires size > 0
    ensures Neat(Chunks(s, size), size) && Flatten(Chunks(s, size)) == s
    decreases |s|
  {
    if 0 < |s| <= size {
      assert Flatten([s]) == s + Flatten([s][1..]);
    } else if |s| > size {
      var rest := Chunks(s[size..], size);
      ChunksAreNeat(s[size..], size);
      assert Chunks(s, size)[1..] == rest && s == s[..size] + s[size..];
    }
  }

  /** There is only one neat way to split a sequence. */
  lemma {:induction false} NeatMeansChunks<T>(pieces: seq<seq<T>>, size: nat)
    requires size > 0 && Neat(pieces, size)
    ensures pieces == Chunks(Flatten(pieces), size)
  {
    if pieces != [] {
      var rest := pieces[1..];
      NeatMeansChunks(rest, size);
      var whole := Flatten(pieces);
      if rest == [] {
        assert whole == pieces[0];
      } else {
        assert whole[..size] == pieces[0] && whole[size..] == Flatten(rest);
        assert Flatten(rest) == rest[0] + Flatten(rest[1..]);
      }
    }
  }

  /** A neat split has as many pieces as the size requires, rounding up. */
  lemma {:induction false} NeatCount<T>(pieces: seq<seq<T>>, size: nat)
    requires size > 0 && Neat(pieces, size)
    ensures |pieces| * size < |Flatten(pieces)| + size && |Flatten(pieces)| <= |pieces| * size
  {
    if pieces != [] {
      NeatCount(pieces[1..], size);
      assert |pieces| * size == |pieces[1..]| * size + size;
    }
  }

  lemma {:induction false} FlattenSnoc<T>(pieces: seq<seq<T>>, last: seq<T>)
    ensures Flatten(pieces + [last]) == Flatten(pieces) + last
  {
    if pieces == [] {
      assert [last][1..] == [];
    } else {
      assert (pieces + [last])[1..] == pieces[1..] + [last];
      FlattenSnoc(pieces[1..], last);
    }
  }

  lemma {:induction false} FlattenConcat<T>(first: seq<seq<T>>, second: seq<seq<T>>)
    ensures Flatten(first + second) == Flatten(first) + Flatten(second)
  {
    if first == [] {
      assert first + second == second;
    } else {
      assert (first + second)[1..] == first[1..] + second;
      FlattenConcat(first[1..], second);
    }
  }
}
