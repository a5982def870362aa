/** The lexicographic order of byte strings, as the string comparison of the standard library has it. */
module ByteOrder {
  import opened Types

  predicate Below(a: Text, b: Text) {
    b != [] && (a == [] || a[0] < b[0] || (a[0] == b[0] && Below(a[1..], b[1..])))
  }

  predicate AtMost(a: Text, b: Text) {
    !Below(b, a)
  }

  lemma {:induction false} Irreflexive(a: Text)
    ensures !Below(a, a)
  {
    if a != [] {
      Irreflexive(a[1..]);
    }
  }

  lemma {:induction false} Transitive(a: Text, b: Text, c: Text)
    requires Below(a, b) && Below(b, c)
    ensures Below(a, c)
  {
    if a != [] && a[0] == b[0] && b[0] == c[0] {
      Transitive(a[1..], b[1..], c[1..]);
    }
  }

  lemma {:induction false} Trichotomy(a: Text, b: Text)
    ensures Below(a, b) || a == b || Below(b, a)
  {
    if a != [] && b != [] && a[0] == b[0] {
      Trichotomy(a[1..], b[1..]);
      assert a == [a[0]] + a[1..] && b == [b[0]] + b[1..];
    }
  }

  lemma Asymmetric(a: Text, b: Text)
    requires Below(a, b)
    ensures !Below(b, a)
  {
    if Below(b, a) {
      Transitive(a, b, a);
      Irreflexive(a);
    }
  }

  lemma AtMostTransitive(a: Text, b: Text, c: Text)
    requires AtMost(a, b) && AtMost(b, c)
    ensures AtMost(a, c)
  {
    if Below(c, a) {
      Trichotomy(b, c);
      if b != c {
        Transitive(b, c, a);
      }
    }
  }

  /** Two strings agree up to some place and differ there, or one of them ends: the first is below the second exactly
      if it is the one that ends, or has the smaller byte there. */
  lemma {:induction false} BelowExactly(a: Text, b: Text) returns (k: nat)
    ensures k <= |a| && k <= |b| && a[..k] == b[..k]
    ensures k < |a| && k < |b| ==> a[k] != b[k]
    ensures Below(a, b) <==> k < |b| && (k == |a| || a[k] < b[k])
  {
    k := 0;
    if a != [] && b != [] && a[0] == b[0] {
      k := BelowExactly(a[1..], b[1..]);
      k := k + 1;
      assert a[..k] == [a[0]] + a[1..][..k - 1] && b[..k] == [b[0]] + b[1..][..k - 1];
    }
  }
}
