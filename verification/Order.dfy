/** The order of plates and of any other text: first differing character
    decides, and a proper prefix comes first. On UTF-8 text the byte order of
    the implementation and this order of code points coincide. */
module Order {

  predicate Before(a: string, b: string) {
    b != [] && (a == [] || a[0] < b[0] || (a[0] == b[0] && Before(a[1..], b[1..])))
  }

  predicate AtMost(a: string, b: string) {
    a == b || Before(a, b)
  }

  lemma {:induction false} Irreflexive(a: string)
    ensures !Before(a, a)
  {
    if a != [] {
      Irreflexive(a[1..]);
    }
  }

  lemma {:induction false} Transitive(a: string, b: string, c: string)
    requires Before(a, b) && Before(b, c)
    ensures Before(a, c)
  {
    if a != [] && a[0] == b[0] == c[0] {
      Transitive(a[1..], b[1..], c[1..]);
    }
  }

  lemma {:induction false} Total(a: string, b: string)
    ensures a == b || Before(a, b) || Before(b, a)
  {
    if a != [] && b != [] && a[0] == b[0] {
      Total(a[1..], b[1..]);
      assert a == [a[0]] + a[1..] && b == [b[0]] + b[1..];
    }
  }

  /** Every pair of texts is related in exactly one way. */
  lemma Trichotomy(a: string, b: string)
    ensures Before(a, b) <==> !AtMost(b, a)
    ensures Before(a, b) ==> a != b
  {
    Total(a, b);
    Irreflexive(a);
    if Before(a, b) && Before(b, a) {
      Transitive(a, b, a);
    }
  }

  lemma Exclusive(a: string, b: string)
    ensures !(Before(a, b) && Before(b, a))
    ensures a == b ==> !Before(a, b)
  {
    Trichotomy(a, b);
    Irreflexive(a);
  }

  /** Texts of equal length compare by their first parts, and by the rest only when those agree. */
  lemma {:induction false} Concatenation(a: string, b: string, a': string, b': string)
    requires |a| == |b|
    ensures Before(a + a', b + b') <==> Before(a, b) || (a == b && Before(a', b'))
  {
    if a == [] {
      assert a + a' == a' && b + b' == b';
    } else {
      assert (a + a')[1..] == a[1..] + a' && (b + b')[1..] == b[1..] + b';
      Concatenation(a[1..], b[1..], a', b');
      Irreflexive(a);
    }
  }
}
