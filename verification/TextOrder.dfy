/** The strict lexicographic order of texts. */
module TextOrder {
  import opened Sequences

  /** Character by character, a proper prefix first. On ASCII text this is the order of the encodings. */
  predicate Before(a: string, b: string)
  {
    b != [] && (a == [] || a[0] < b[0] || (a[0] == b[0] && Before(a[1..], b[1..])))
  }

  /** The texts agree up to a place where the first ends or has the smaller character. */
  ghost predicate SmallerAt(a: string, b: string, k: nat)
  {
    k <= |a| && k < |b| && a[..k] == b[..k] && (k == |a| || a[k] < b[k])
  }

  lemma {:induction false} BeforeMeans(a: string, b: string)
    ensures Before(a, b) <==> exists k: nat :: SmallerAt(a, b, k)
  {
    if Before(a, b) {
      if a != [] && a[0] == b[0] {
        BeforeMeans(a[1..], b[1..]);
        var k: nat :| SmallerAt(a[1..], b[1..], k);
        assert a[..k + 1] == [a[0]] + a[1..][..k] && b[..k + 1] == [b[0]] + b[1..][..k];
        assert SmallerAt(a, b, k + 1);
      } else {
        assert SmallerAt(a, b, 0);
      }
    }
    if k: nat :| SmallerAt(a, b, k) {
      if k > 0 {
        assert a[0] == a[..k][0] && b[0] == b[..k][0];
        assert a[1..][..k - 1] == a[..k][1..] && b[1..][..k - 1] == b[..k][1..];
        assert SmallerAt(a[1..], b[1..], k - 1);
        BeforeMeans(a[1..], b[1..]);
      }
    }
  }

  lemma {:induction false} BeforeIrreflexive(a: string)
    ensures !Before(a, a)
  {
    if a != [] { BeforeIrreflexive(a[1..]); }
  }

  lemma {:induction false} BeforeTransitive(a: string, b: string, c: string)
    requires Before(a, b) && Before(b, c)
    ensures Before(a, c)
  {
    if a != [] && a[0] == b[0] == c[0] { BeforeTransitive(a[1..], b[1..], c[1..]); }
  }

  lemma {:induction false} BeforeTotal(a: string, b: string)
    ensures a == b || Before(a, b) || Before(b, a)
  {
    if a != [] && b != [] && a[0] == b[0] {
      BeforeTotal(a[1..], b[1..]);
      assert a == [a[0]] + a[1..] && b == [b[0]] + b[1..];
    }
  }

  lemma BeforeAsymmetric(a: string, b: string)
    requires Before(a, b)
    ensures !Before(b, a)
  {
    if Before(b, a) {
      BeforeTransitive(a, b, a);
      BeforeIrreflexive(a);
    }
  }

  /** Text that is not before one text is not before anything later either. */
  lemma NotBeforeTransitive(a: string, b: string, c: string)
    requires !Before(b, a) && !Before(c, b)
    ensures !Before(c, a)
  {
    BeforeTotal(a, b);
    BeforeTotal(b, c);
    if Before(c, a) && Before(a, b) {
      BeforeTransitive(c, a, b);
    }
  }

  lemma TextsAreOrdered()
    ensures Ordering(Before) && Total(Before)
  {
    forall a, b, c ensures Chains(Before, a, b, c) {
      if Before(a, b) {
        BeforeAsymmetric(a, b);
      }
      if !Before(b, a) && !Before(c, b) {
        NotBeforeTransitive(a, b, c);
      }
    }
    forall a, b ensures a == b || Before(a, b) || Before(b, a) {
      BeforeTotal(a, b);
    }
  }
}
