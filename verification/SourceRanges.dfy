/**
 Source ranges under containment, and the innermost of several ranges around a reference.
 */
module SourceRanges {
  import opened Common

  datatype Position = Position(line: int, character: int)
  {
    predicate AtMost(other: Position)
    {
      line < other.line || (line == other.line && character <= other.character)
    }
  }

  datatype Range = Range(start: Position, end: Position)
  {
    predicate Contains(other: Range)
    {
      start.AtMost(other.start) && other.end.AtMost(end)
    }
  }

  /** `_range_from_values`: three values on one line, or four. */
  function RangeFromValues(values: seq<int>): (r: Option<Range>)
  {
    if |values| != 3 && |values| != 4 then None
    else if exists i :: 0 <= i < |values| && values[i] < 0 then None
    else
      var range :=
        if |values| == 3 then Range(Position(values[0], values[1]), Position(values[0], values[2]))
        else Range(Position(values[0], values[1]), Position(values[2], values[3]));
      if range.start.AtMost(range.end) then Some(range) else None
  }

  /** `inner` neither starts before `outer` nor ends after it. */
  predicate Inside(inner: Range, outer: Range)
  {
    && (outer.start.line < inner.start.line
        || (outer.start.line == inner.start.line && outer.start.character <= inner.start.character))
    && (inner.end.line < outer.end.line
        || (inner.end.line == outer.end.line && inner.end.character <= outer.end.character))
  }

  lemma ContainsExactly(inner: Range, outer: Range)
    ensures outer.Contains(inner) <==> Inside(inner, outer)
  {
  }

  lemma ContainsIsPartialOrder(a: Range, b: Range, c: Range)
    ensures a.Contains(a)
    ensures a.Contains(b) && b.Contains(a) ==> a == b
    ensures a.Contains(b) && b.Contains(c) ==> a.Contains(c)
  {
  }

  /** Ranges that may own a reference, by subject. */
  type Candidates = map<string, Range>

  /** No other candidate lies strictly inside this one. */
  predicate IsMinimal(c: Candidates, id: string)
    requires id in c
  {
    !exists other :: other in c && other != id && c[other] != c[id] && c[id].Contains(c[other])
  }

  function Minimal(c: Candidates): set<string>
  {
    set id | id in c && IsMinimal(c, id)
  }

  /** The owner lies strictly inside every other candidate. */
  predicate Innermost(c: Candidates, id: string)
  {
    && id in c
    && forall other :: other in c ==> c[other].Contains(c[id]) && (other != id ==> c[other] != c[id])
  }

  /** Some minimal candidate lies inside any given one. */
  lemma {:induction false} MinimalBelow(c: Candidates, id: string, seen: set<string>) returns (below: string)
    requires id in c && seen <= c.Keys
    requires forall s :: s in seen ==> c[s].Contains(c[id]) && c[s] != c[id]
    ensures below in Minimal(c) && c[id].Contains(c[below])
    decreases c.Keys - seen
  {
    if IsMinimal(c, id) {
      below := id;
    } else {
      var other :| other in c && other != id && c[other] != c[id] && c[id].Contains(c[other]);
      below := MinimalBelow(c, other, seen + {id});
      ContainsIsPartialOrder(c[id], c[other], c[below]);
    }
  }

  /** A single minimal candidate lies strictly inside every other one, and nothing else is the only minimal one. */
  lemma OnlyMinimalIsInnermost(c: Candidates, id: string)
    ensures Minimal(c) == {id} <==> Innermost(c, id)
  {
    if Minimal(c) == {id} {
      assert id in Minimal(c);
      forall other | other in c ensures c[other].Contains(c[id]) && (other != id ==> c[other] != c[id]) {
        var below := MinimalBelow(c, other, {});
        assert below == id;
        if other != id && c[other] == c[id] {
          SameRangeIsMinimal(c, id, other);
        }
      }
    }
    if Innermost(c, id) {
    }
  }

  lemma SameRangeIsMinimal(c: Candidates, id: string, other: string)
    requires id in c && other in c && c[id] == c[other] && IsMinimal(c, id)
    ensures other in Minimal(c)
  {
  }

  /**
   A reference inside at least one candidate is never dropped: either several candidates are minimal, and no
   candidate lies inside all others, or exactly one is, and it does.
   */
  lemma ReferenceIsNeverDropped(c: Candidates)
    requires c != map[]
    ensures |Minimal(c)| >= 1
    ensures |Minimal(c)| == 1 <==> exists id :: Innermost(c, id)
  {
    var some :| some in c;
    var below := MinimalBelow(c, some, {});
    assert Minimal(c) != {};
    if |Minimal(c)| == 1 {
      var id :| id in Minimal(c);
      SingletonSet(Minimal(c), id);
      OnlyMinimalIsInnermost(c, id);
    }
    if id :| Innermost(c, id) {
      OnlyMinimalIsInnermost(c, id);
    }
  }

  lemma SingletonSet(s: set<string>, x: string)
    requires x in s && |s| == 1
    ensures s == {x}
  {
    assert |s - {x}| == 0;
    assert s == (s - {x}) + {x};
  }

}
