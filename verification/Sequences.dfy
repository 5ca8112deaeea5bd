/** Sequences that differ only in order, sequences in a strict order, and sorting. */
module Sequences {

  /** Every two entries at different places are related. */
  ghost predicate Pairwise<T(!new)>(s: seq<T>, related: (T, T) -> bool)
  {
    forall i, j :: 0 <= i < j < |s| ==> related(s[i], s[j])
  }

  lemma {:induction false} OccursTwice<T>(s: seq<T>, x: T)
    requires multiset(s)[x] >= 2
    ensures exists i, j :: 0 <= i < j < |s| && s[i] == x && s[j] == x
  {
    var last := |s| - 1;
    assert s == s[..last] + [s[last]];
    if s[last] == x {
      assert multiset(s[..last])[x] >= 1;
      assert x in s[..last];
      var i :| 0 <= i < last && s[i] == x;
      assert s[i] == x && s[last] == x;
    } else {
      OccursTwice(s[..last], x);
      var i, j :| 0 <= i < j < last && s[..last][i] == x && s[..last][j] == x;
      assert s[i] == x && s[j] == x;
    }
  }

  lemma TwiceOccurs<T>(s: seq<T>, i: int, j: int)
    requires 0 <= i < j < |s| && s[i] == s[j]
    ensures multiset(s)[s[i]] >= 2
  {
    assert s == s[..j] + [s[j]] + s[j + 1..];
    assert s[i] in s[..j];
  }

  lemma SameMembers<T>(a: seq<T>, b: seq<T>)
    requires multiset(a) == multiset(b)
    ensures forall x :: x in a <==> x in b
  {
    assert forall x :: x in a <==> x in multiset(a);
    assert forall x :: x in b <==> x in multiset(b);
  }

  /** A symmetric relation between all pairs survives reordering. */
  lemma PairwisePermutes<T(!new)>(a: seq<T>, b: seq<T>, related: (T, T) -> bool)
    requires multiset(a) == multiset(b) && Pairwise(a, related)
    requires forall x, y :: related(x, y) ==> related(y, x)
    ensures Pairwise(b, related)
  {
    SameMembers(a, b);
    forall i, j | 0 <= i < j < |b| ensures related(b[i], b[j]) {
      if b[i] == b[j] {
        TwiceOccurs(b, i, j);
        OccursTwice(a, b[i]);
      } else {
        var p :| 0 <= p < |a| && a[p] == b[i];
        var q :| 0 <= q < |a| && a[q] == b[j];
        assert p < q || q < p;
      }
    }
  }

  ghost predicate Asymmetric<T(!new)>(before: (T, T) -> bool)
  {
    forall x, y :: before(x, y) ==> !before(y, x)
  }

  lemma TailMembers<T(!new)>(a: seq<T>, x: T, before: (T, T) -> bool)
    requires Asymmetric(before) && Pairwise(a, before) && a != []
    ensures x in a[1..] <==> x in a && x != a[0]
  {
    if x in a[1..] {
      var i :| 0 <= i < |a| - 1 && a[1..][i] == x;
      assert before(a[0], a[i + 1]);
    }
    if x in a && x != a[0] {
      var i :| 0 <= i < |a| && a[i] == x;
      assert a[1..][i - 1] == x;
    }
  }

  /** A strictly ordered sequence is determined by its elements. */
  lemma {:induction false} OrderedIsCanonical<T(!new)>(a: seq<T>, b: seq<T>, before: (T, T) -> bool)
    requires Asymmetric(before) && Pairwise(a, before) && Pairwise(b, before)
    requires forall x :: x in a <==> x in b
    ensures a == b
  {
    if a != [] { assert a[0] in a; }
    if b != [] { assert b[0] in b; }
    if a != [] {
      forall x ensures x in a[1..] <==> x in b[1..] {
        TailMembers(a, x, before);
        TailMembers(b, x, before);
      }
      assert Pairwise(a[1..], before) && Pairwise(b[1..], before);
      OrderedIsCanonical(a[1..], b[1..], before);
      assert a == [a[0]] + a[1..] && b == [b[0]] + b[1..];
    }
  }

  // ---- sorting ----

  /** The relation is the strict part of a total preorder. */
  ghost predicate Ordering<T(!new)>(before: (T, T) -> bool)
  {
    forall x, y, z {:trigger Chains(before, x, y, z)} :: Chains(before, x, y, z)
  }

  ghost predicate Chains<T>(before: (T, T) -> bool, x: T, y: T, z: T)
  {
    (before(x, y) ==> !before(y, x)) && (!before(y, x) && !before(z, y) ==> !before(z, x))
  }

  /** No entry comes before an earlier one. */
  ghost predicate Ascending<T>(s: seq<T>, before: (T, T) -> bool)
  {
    forall i, j :: 0 <= i < j < |s| ==> !before(s[j], s[i])
  }

  function Insert<T>(x: T, s: seq<T>, before: (T, T) -> bool): seq<T>
  {
    if s == [] || !before(s[0], x) then [x] + s else [s[0]] + Insert(x, s[1..], before)
  }

  function Sorted<T>(s: seq<T>, before: (T, T) -> bool): seq<T>
  {
    if s == [] then [] else Insert(s[|s| - 1], Sorted(s[..|s| - 1], before), before)
  }

  lemma {:induction false} InsertAscends<T(!new)>(x: T, s: seq<T>, before: (T, T) -> bool)
    requires Ordering(before) && Ascending(s, before)
    ensures Ascending(Insert(x, s, before), before) && multiset(Insert(x, s, before)) == multiset(s) + multiset{x}
  {
    if s == [] {
    } else if !before(s[0], x) {
      forall j | 0 <= j < |s| ensures !before(s[j], x) {
        assert Chains(before, x, s[0], s[j]);
      }
    } else {
      assert s == [s[0]] + s[1..];
      InsertAscends(x, s[1..], before);
      HeadAscends(s[0], x, s[1..], Insert(x, s[1..], before), before);
    }
  }

  lemma HeadAscends<T(!new)>(head: T, x: T, s: seq<T>, rest: seq<T>, before: (T, T) -> bool)
    requires Ordering(before) && Ascending([head] + s, before) && before(head, x)
    requires Ascending(rest, before) && multiset(rest) == multiset(s) + multiset{x}
    ensures Ascending([head] + rest, before)
  {
    forall j | 0 <= j < |rest| ensures !before(rest[j], head) {
      assert rest[j] in multiset(rest);
      if rest[j] == x {
        assert Chains(before, head, x, x);
      } else {
        assert rest[j] in s;
        var k :| 0 <= k < |s| && s[k] == rest[j];
        assert ([head] + s)[k + 1] == rest[j] && ([head] + s)[0] == head;
      }
    }
  }

  /** Sorting keeps every entry and puts none before an earlier one. */
  lemma {:induction false} SortedAscends<T(!new)>(s: seq<T>, before: (T, T) -> bool)
    requires Ordering(before)
    ensures Ascending(Sorted(s, before), before) && multiset(Sorted(s, before)) == multiset(s)
  {
    if s != [] {
      var rest, last := s[..|s| - 1], s[|s| - 1];
      assert multiset(s) == multiset(rest) + multiset{last} by {
        assert s == rest + [last];
      }
      SortedAscends(rest, before);
      InsertAscends(last, Sorted(rest, before), before);
    }
  }

  /** Only equal entries are unordered. */
  ghost predicate Total<T(!new)>(before: (T, T) -> bool)
  {
    forall x, y :: x == y || before(x, y) || before(y, x)
  }

  lemma AscendingHeads<T(!new)>(a: seq<T>, b: seq<T>, before: (T, T) -> bool)
    requires Total(before) && Ascending(a, before) && Ascending(b, before)
    requires a != [] && b != [] && a[0] in b && b[0] in a
    ensures a[0] == b[0]
  {
    var i :| 0 <= i < |b| && b[i] == a[0];
    var j :| 0 <= j < |a| && a[j] == b[0];
    assert i > 0 ==> !before(b[i], b[0]);
    assert j > 0 ==> !before(a[j], a[0]);
  }

  lemma AscendingTail<T>(a: seq<T>, before: (T, T) -> bool)
    requires Ascending(a, before) && a != []
    ensures Ascending(a[1..], before) && multiset(a[1..]) == multiset(a) - multiset{a[0]}
  {
    assert a == [a[0]] + a[1..];
  }

  lemma {:induction false} AscendingIsCanonical<T(!new)>(a: seq<T>, b: seq<T>, before: (T, T) -> bool)
    requires Total(before) && Ascending(a, before) && Ascending(b, before) && multiset(a) == multiset(b)
    ensures a == b
  {
    assert |multiset(a)| == |a| && |multiset(b)| == |b|;
    if a != [] {
      assert a[0] in multiset(b) && b[0] in multiset(a);
      AscendingHeads(a, b, before);
      AscendingTail(a, before);
      AscendingTail(b, before);
      AscendingIsCanonical(a[1..], b[1..], before);
      assert a == [a[0]] + a[1..] && b == [b[0]] + b[1..];
    }
  }

  /** Sorting forgets exactly the order. */
  lemma SortedIsMultiset<T(!new)>(a: seq<T>, b: seq<T>, before: (T, T) -> bool)
    requires Ordering(before) && Total(before)
    ensures Sorted(a, before) == Sorted(b, before) <==> multiset(a) == multiset(b)
  {
    SortedAscends(a, before);
    SortedAscends(b, before);
    if multiset(a) == multiset(b) {
      AscendingIsCanonical(Sorted(a, before), Sorted(b, before), before);
    }
  }

  // ---- sets of one element ----

  lemma ElementOf<T>(s: set<T>) returns (x: T)
    requires |s| > 0
    ensures x in s
  {
    x :| x in s;
  }

  lemma OneElement(s: set<int>)
    ensures |s| == 1 <==> exists i :: i in s && forall j :: j in s ==> j == i
  {
    if |s| == 1 {
      var i := ElementOf(s);
      forall j | j in s ensures j == i {
        assert |s - {i}| == 0;
        assert j != i ==> j in s - {i};
      }
    }
    if i :| i in s && forall j :: j in s ==> j == i {
      assert s == {i};
    }
  }
}
