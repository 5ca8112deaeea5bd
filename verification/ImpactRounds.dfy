/**
 What the order of the four scans in a round decides: dependents are scanned after the obligations that the seeds and
 their reverse edges touch, and before any parent is added, so a dependent is expanded unless it was touched by then.
 */
module ImpactRounds {
  import opened Common
  import opened Impact
  import opened ImpactGuard

  function AfterRounds(g: Graph, seeds: set<string>, n: nat): Affected
  {
    if n == 0 then Start(seeds) else Round(g, AfterRounds(g, seeds, n - 1))
  }

  /** What a round has affected when it comes to the dependents. */
  function BeforeDependents(g: Graph, a: Affected): Affected
  {
    ObligationPass(g, g.obligations, EdgePass(g.subjectEdges, a))
  }

  // ---- every round is on the way to the impact ----

  lemma {:induction false} RoundsLead(g: Graph, seeds: set<string>, n: nat)
    requires Resolved(g) && seeds <= g.subjectIds
    ensures var a := AfterRounds(g, seeds, n);
      InGraph(g, a) && OwnersIn(g, a) && Close(g, a) == ImpactOf(g, seeds)
  {
    if n > 0 {
      var a := AfterRounds(g, seeds, n - 1);
      RoundsLead(g, seeds, n - 1);
      RoundGrows(g, a);
      RoundOwners(g, a);
      MissingShrinks(g, a, Round(g, a));
    }
  }

  lemma RoundIsWithin(g: Graph, seeds: set<string>, n: nat)
    requires Resolved(g) && seeds <= g.subjectIds
    ensures InGraph(g, AfterRounds(g, seeds, n)) && Within(AfterRounds(g, seeds, n), ImpactOf(g, seeds))
  {
    RoundsLead(g, seeds, n);
    CloseProperties(g, AfterRounds(g, seeds, n));
  }

  lemma ExpandedGrows(g: Graph, a: Affected, b: Affected, w: string)
    requires Within(a, b) && Expanded(g, a, w)
    ensures Expanded(g, b, w)
  {
  }

  // ---- a dependent that is due when dependents are scanned ----

  lemma ExpandExpands(g: Graph, a: Affected, w: string)
    requires Triggered(g, a, w) && w !in a.works
    ensures Expanded(g, Expand(g, a, w), w) && w in Expand(g, a, w).works
  {
    forall o | Owns(g, w, o) && !Composes(g, o) && o in g.obligationSubjects
      ensures g.obligationSubjects[o] <= ExpandedSubjects(g, w)
    {
    }
  }

  lemma {:induction false} DependentPassExpands(g: Graph, order: seq<string>, a: Affected, w: string)
    requires Resolved(g) && InGraph(g, a) && w in order && Triggered(g, a, w) && w !in a.works
    ensures var r := DependentPass(g, order, a); Expanded(g, r, w) && w in r.works
    decreases |order|
  {
    var next := Expand(g, a, order[0]);
    DependentPassGrows(g, [order[0]], a);
    assert DependentPass(g, [order[0]], a) == DependentPass(g, [], next) == next;
    if order[0] == w {
      ExpandExpands(g, a, w);
      DependentPassGrows(g, order[1..], next);
      ExpandedGrows(g, next, DependentPass(g, order, a), w);
    } else {
      DependentPassExpands(g, order[1..], next, w);
    }
  }

  lemma BeforeDependentsGrows(g: Graph, a: Affected)
    requires Resolved(g) && InGraph(g, a)
    ensures Within(a, BeforeDependents(g, a)) && InGraph(g, BeforeDependents(g, a))
  {
    EdgePassGrows(g, g.subjectEdges, a);
    ObligationPassGrows(g, g.obligations, EdgePass(g.subjectEdges, a));
  }

  /** An item that is due in some round, and not yet affected when its dependents are scanned, is expanded. */
  lemma DueIsExpanded(g: Graph, seeds: set<string>, n: nat, w: string)
    requires Resolved(g) && seeds <= g.subjectIds
    requires var c := BeforeDependents(g, AfterRounds(g, seeds, n)); Triggered(g, c, w) && w !in c.works
    ensures Expanded(g, ImpactOf(g, seeds), w) && w in ImpactOf(g, seeds).works
  {
    var c := BeforeDependents(g, AfterRounds(g, seeds, n));
    RoundIsWithin(g, seeds, n);
    BeforeDependentsGrows(g, AfterRounds(g, seeds, n));
    DependentPassExpands(g, g.works, c, w);
    RoundIsWithin(g, seeds, n + 1);
    assert Within(DependentPass(g, g.works, c), AfterRounds(g, seeds, n + 1));
    ExpandedGrows(g, DependentPass(g, g.works, c), ImpactOf(g, seeds), w);
  }

  // ---- what a caller can see beforehand ----

  /** The seeds and whatever depends on them, directly or not. */
  ghost predicate ReachedBy(g: Graph, seeds: set<string>, reach: set<string>)
  {
    seeds <= reach && forall e :: e in g.subjectEdges && e.1 in reach ==> e.0 in reach
  }

  lemma {:induction false} EdgePassReaches(edges: seq<(string, string)>, a: Affected, reach: set<string>)
    requires a.subjects <= reach && forall e :: e in edges && e.1 in reach ==> e.0 in reach
    ensures EdgePass(edges, a).subjects <= reach && EdgePass(edges, a).works == a.works
    decreases |edges|
  {
    if edges != [] {
      EdgePassReaches(edges[1..], if edges[0].1 in a.subjects then a.(subjects := a.subjects + {edges[0].0}) else a, reach);
    }
  }

  lemma {:induction false} ObligationPassSpares(g: Graph, order: seq<string>, a: Affected, w: string, reach: set<string>)
    requires a.subjects <= reach && Apart(g, w, reach) && w !in a.works
    ensures w !in ObligationPass(g, order, a).works
    decreases |order|
  {
    if order != [] {
      if Touched(g, a, order[0]) && Owns(g, w, order[0]) {
        var s :| s in g.obligationSubjects[order[0]] * a.subjects;
        assert IsSubjectOf(g, s, order[0]);
        assert false;
      }
      ObligationPassSpares(g, order[1..], Touch(g, a, order[0]), w, reach);
    }
  }

  lemma {:induction false} ObligationPassFinds(g: Graph, order: seq<string>, a: Affected, d: string, od: string)
    requires od in order && Owns(g, d, od) && Touched(g, a, od) && od !in a.obligations
    ensures d in ObligationPass(g, order, a).works
    decreases |order|
  {
    if order[0] == od {
      ObligationPassKeeps(g, order[1..], Touch(g, a, od));
    } else {
      ObligationPassFinds(g, order[1..], Touch(g, a, order[0]), d, od);
    }
  }

  lemma {:induction false} ObligationPassKeeps(g: Graph, order: seq<string>, a: Affected)
    ensures a.works <= ObligationPass(g, order, a).works
    decreases |order|
  {
    if order != [] {
      ObligationPassKeeps(g, order[1..], Touch(g, a, order[0]));
    }
  }

  /** Before the first dependents are scanned, the owners of seeded obligations are affected, and untouched items are not. */
  lemma FirstScan(g: Graph, seeds: set<string>, reach: set<string>, w: string, d: string, od: string)
    requires Resolved(g) && seeds <= g.subjectIds && ReachedBy(g, seeds, reach)
    requires Apart(g, w, reach) && Owns(g, d, od) && g.obligationSubjects[od] * seeds != {}
    ensures var c := BeforeDependents(g, Start(seeds)); d in c.works && w !in c.works
  {
    var b := EdgePass(g.subjectEdges, Start(seeds));
    EdgePassGrows(g, g.subjectEdges, Start(seeds));
    EdgePassAdds(g.subjectEdges, Start(seeds));
    EdgePassReaches(g.subjectEdges, Start(seeds), reach);
    var s :| s in g.obligationSubjects[od] * seeds;
    assert s in g.obligationSubjects[od] * b.subjects;
    ObligationPassFinds(g, g.obligations, b, d, od);
    ObligationPassSpares(g, g.obligations, b, w, reach);
  }

  /**
   If the seeds touch an item that `w` depends on, and neither they nor their reverse edges touch `w`, then `w` is
   expanded: also if a child of it is touched, which adds `w` as a parent in the same round.
   */
  lemma UntouchedDependentIsExpanded(
      g: Graph, seeds: set<string>, reach: set<string>, w: string, d: string, od: string)
    requires Resolved(g) && seeds <= g.subjectIds && ReachedBy(g, seeds, reach)
    requires w in g.workDependencies && d in g.workDependencies[w] && Apart(g, w, reach)
    requires Owns(g, d, od) && g.obligationSubjects[od] * seeds != {}
    ensures var r := ImpactOf(g, seeds);
      && Expanded(g, r, w) && w in r.works
      && forall o :: o in g.obligationWork && g.obligationWork[o] == w ==>
           o in r.obligations && (g.obligationRole[o] != "composition" ==> g.obligationSubjects[o] <= r.subjects)
  {
    FirstScan(g, seeds, reach, w, d, od);
    assert d in g.workDependencies[w] * BeforeDependents(g, Start(seeds)).works;
    DueIsExpanded(g, seeds, 0, w);
  }

  lemma {:induction false} EdgePassFinds(edges: seq<(string, string)>, a: Affected, source: string, target: string)
    requires (source, target) in edges && target in a.subjects
    ensures source in EdgePass(edges, a).subjects
    decreases |edges|
  {
    var next := if edges[0].1 in a.subjects then a.(subjects := a.subjects + {edges[0].0}) else a;
    if edges[0] == (source, target) {
      EdgePassAdds(edges[1..], next);
    } else {
      EdgePassFinds(edges[1..], next, source, target);
    }
  }

  /**
   Reverse edges come first: if a subject of the item's own obligation depends on a seed, the item is touched before
   dependents are scanned, so what only its expansion reaches stays out.
   */
  lemma TouchedByEdgeIsNotExpanded(
      g: Graph, seeds: set<string>, w: string, o: string, source: string, target: string, s: string)
    requires Resolved(g) && seeds <= g.subjectIds && s !in seeds && OnlyThrough(g, w, s)
    requires (source, target) in g.subjectEdges && target in seeds && Owns(g, w, o) && source in g.obligationSubjects[o]
    ensures s !in ImpactOf(g, seeds).subjects
  {
    var a, b := Start(seeds), EdgePass(g.subjectEdges, Start(seeds));
    var c := ObligationPass(g, g.obligations, b);
    EdgePassFinds(g.subjectEdges, a, source, target);
    EdgePassSkips(g.subjectEdges, a, s);
    assert source in g.obligationSubjects[o] * b.subjects;
    ObligationPassReaches(g, g.obligations, b, o);
    DependentPassSkips(g, g.works, c, w, s);
    RoundsLead(g, seeds, 1);
    assert AfterRounds(g, seeds, 1) == Round(g, AfterRounds(g, seeds, 0));
    var r := Round(g, a);
    assert source in g.obligationSubjects[o] * r.subjects;
    CloseSkips(g, r, w, o, s);
  }

  // ---- within one scan ----

  /** Items at increasing places of the scan, each depending on the one before. */
  ghost predicate Chained(g: Graph, order: seq<string>, chain: seq<string>, places: seq<nat>)
  {
    && |places| == |chain|
    && (forall i :: 0 <= i < |chain| ==> places[i] < |order| && order[places[i]] == chain[i])
    && (forall i, j :: 0 <= i < j < |chain| ==> places[i] < places[j])
    && forall i :: 0 < i < |chain| ==> chain[i] in g.workDependencies && chain[i - 1] in g.workDependencies[chain[i]]
  }

  predicate Distinct(order: seq<string>)
  {
    forall i, j :: 0 <= i < j < |order| ==> order[i] != order[j]
  }

  function Shifted(places: seq<nat>): (r: seq<nat>)
    requires forall i :: 0 <= i < |places| ==> places[i] > 0
    ensures |r| == |places| && forall i :: 0 <= i < |r| ==> r[i] == places[i] - 1
  {
    seq(|places|, i requires 0 <= i < |places| => places[i] - 1)
  }

  /** The chain without the head of the scan. */
  lemma ChainMoves(g: Graph, order: seq<string>, chain: seq<string>, places: seq<nat>)
    requires Distinct(order) && Chained(g, order, chain, places) && chain != []
    ensures Distinct(order[1..])
    ensures if places[0] == 0 then
        && chain[0] == order[0] && (forall i :: 0 < i < |chain| ==> chain[i] != order[0])
        && (forall i :: 0 < i < |places| ==> places[i] > 0) && Chained(g, order[1..], chain[1..], Shifted(places[1..]))
      else
        && (forall i :: 0 <= i < |chain| ==> chain[i] != order[0])
        && (forall i :: 0 <= i < |places| ==> places[i] > 0) && Chained(g, order[1..], chain, Shifted(places))
  {
    forall i, j | 0 <= i < j < |order| - 1 ensures order[1..][i] != order[1..][j] {
      assert order[i + 1] != order[j + 1];
    }
    forall i | 0 <= i < |places| ensures places[0] <= places[i] {
    }
  }

  lemma ExpandAdds(g: Graph, a: Affected, v: string)
    requires Resolved(g) && InGraph(g, a)
    ensures var next := Expand(g, a, v); InGraph(g, next) && a.works <= next.works <= a.works + {v}
    ensures Triggered(g, a, v) ==> v in Expand(g, a, v).works
    ensures forall w :: Triggered(g, a, w) ==> Triggered(g, Expand(g, a, v), w)
  {
    DependentPassGrows(g, [v], a);
    assert DependentPass(g, [v], a) == DependentPass(g, [], Expand(g, a, v)) == Expand(g, a, v);
  }

  lemma {:induction false} ChainPassExpands(
      g: Graph, order: seq<string>, a: Affected, chain: seq<string>, places: seq<nat>, k: nat)
    requires Resolved(g) && InGraph(g, a) && Distinct(order) && Chained(g, order, chain, places) && k < |chain|
    requires Triggered(g, a, chain[0]) && forall i :: 0 <= i < |chain| ==> chain[i] !in a.works
    ensures Expanded(g, DependentPass(g, order, a), chain[k])
    decreases |order|
  {
    var next := Expand(g, a, order[0]);
    ExpandAdds(g, a, order[0]);
    ChainMoves(g, order, chain, places);
    if places[0] == 0 {
      if k == 0 {
        DependentPassExpands(g, order, a, chain[0]);
      } else {
        assert chain[0] in g.workDependencies[chain[1]] * next.works;
        ChainPassExpands(g, order[1..], next, chain[1..], Shifted(places[1..]), k - 1);
      }
    } else {
      ChainPassExpands(g, order[1..], next, chain, Shifted(places), k);
    }
  }

  /**
   One scan reaches dependents of dependents that stand later: along a chain of untouched items in the order of the
   scan, all are expanded.
   */
  lemma ChainIsExpanded(
      g: Graph, seeds: set<string>, reach: set<string>, d: string, od: string, chain: seq<string>, places: seq<nat>, k: nat)
    requires Resolved(g) && seeds <= g.subjectIds && ReachedBy(g, seeds, reach) && Distinct(g.works)
    requires Owns(g, d, od) && g.obligationSubjects[od] * seeds != {} && Chained(g, g.works, chain, places) && k < |chain|
    requires chain[0] in g.workDependencies && d in g.workDependencies[chain[0]]
    requires forall i :: 0 <= i < |chain| ==> Apart(g, chain[i], reach)
    ensures Expanded(g, ImpactOf(g, seeds), chain[k])
  {
    var c := BeforeDependents(g, Start(seeds));
    RoundIsWithin(g, seeds, 0);
    BeforeDependentsGrows(g, Start(seeds));
    forall i | 0 <= i < |chain| ensures chain[i] !in c.works && d in c.works {
      FirstScan(g, seeds, reach, chain[i], d, od);
    }
    assert d in g.workDependencies[chain[0]] * c.works;
    ChainPassExpands(g, g.works, c, chain, places, k);
    RoundIsWithin(g, seeds, 1);
    assert AfterRounds(g, seeds, 1) == Round(g, AfterRounds(g, seeds, 0));
    ExpandedGrows(g, DependentPass(g, g.works, c), ImpactOf(g, seeds), chain[k]);
  }

  // ---- parents are added one level a round ----

  lemma {:induction false} DependentPassAdds(g: Graph, order: seq<string>, a: Affected, w: string)
    requires Resolved(g) && InGraph(g, a) && w !in a.works
    ensures w in DependentPass(g, order, a).works ==>
      Expanded(g, DependentPass(g, order, a), w) && w in g.workDependencies && g.workDependencies[w] != {}
    decreases |order|
  {
    if order != [] {
      var next := Expand(g, a, order[0]);
      DependentPassGrows(g, [order[0]], a);
      assert DependentPass(g, [order[0]], a) == DependentPass(g, [], next) == next;
      if w in next.works {
        ExpandExpands(g, a, w);
        DependentPassGrows(g, order[1..], next);
        ExpandedGrows(g, next, DependentPass(g, order, a), w);
      } else {
        DependentPassAdds(g, order[1..], next, w);
      }
    }
  }

  /** A touched item's parent that is itself neither touched nor a dependent is added in the first round, and no later. */
  lemma ParentIsAdded(g: Graph, seeds: set<string>, reach: set<string>, c: string, oc: string, p: string)
    requires Resolved(g) && seeds <= g.subjectIds && ReachedBy(g, seeds, reach) && ParentOf(g, c, p)
    requires Owns(g, c, oc) && g.obligationSubjects[oc] * seeds != {} && Apart(g, p, reach)
    requires p in g.workDependencies ==> g.workDependencies[p] == {}
    ensures var before := BeforeDependents(g, Start(seeds));
      p !in DependentPass(g, g.works, before).works && p in AfterRounds(g, seeds, 1).works
  {
    var before := BeforeDependents(g, Start(seeds));
    RoundIsWithin(g, seeds, 0);
    BeforeDependentsGrows(g, Start(seeds));
    FirstScan(g, seeds, reach, p, c, oc);
    DependentPassAdds(g, g.works, before, p);
    DependentPassGrows(g, g.works, before);
    assert AfterRounds(g, seeds, 1) == Round(g, AfterRounds(g, seeds, 0));
    assert p in Parents(g, DependentPass(g, g.works, before).works);
  }

  /**
   The parent scan takes the items affected when it begins: the parent of an added parent is not affected yet, so if it
   depends on that parent, the next round expands it.
   */
  lemma GrandparentIsExpanded(
      g: Graph, seeds: set<string>, reach: set<string>, c: string, oc: string, p: string, top: string)
    requires Resolved(g) && seeds <= g.subjectIds && ReachedBy(g, seeds, reach) && ParentOf(g, c, p)
    requires Owns(g, c, oc) && g.obligationSubjects[oc] * seeds != {} && Apart(g, p, reach)
    requires p in g.workDependencies ==> g.workDependencies[p] == {}
    requires (forall v :: ParentOf(g, v, top) ==> v == p) && top in g.workDependencies && p in g.workDependencies[top]
    requires Private(g, top) && Apart(g, top, reach)
    ensures Expanded(g, ImpactOf(g, seeds), top)
  {
    ParentIsAdded(g, seeds, reach, c, oc, p);
    FirstScan(g, seeds, reach, top, c, oc);
    TopIsExpandedOrDue(g, seeds, p, top);
    if top !in AfterRounds(g, seeds, 1).works {
      assert Apart(g, top, seeds);
      TopIsDue(g, seeds, p, top);
      DueIsExpanded(g, seeds, 1, top);
    }
  }

  lemma TopIsExpandedOrDue(g: Graph, seeds: set<string>, p: string, top: string)
    requires Resolved(g) && seeds <= g.subjectIds && forall v :: ParentOf(g, v, top) ==> v == p
    requires var before := BeforeDependents(g, Start(seeds));
      top !in before.works && p !in DependentPass(g, g.works, before).works
    ensures top in AfterRounds(g, seeds, 1).works ==> Expanded(g, ImpactOf(g, seeds), top)
  {
    var before := BeforeDependents(g, Start(seeds));
    var e := DependentPass(g, g.works, before);
    RoundIsWithin(g, seeds, 0);
    BeforeDependentsGrows(g, Start(seeds));
    DependentPassAdds(g, g.works, before, top);
    RoundIsWithin(g, seeds, 1);
    assert AfterRounds(g, seeds, 1) == Round(g, AfterRounds(g, seeds, 0)) == ParentPass(g, e);
    if top in e.works {
      ExpandedGrows(g, e, ImpactOf(g, seeds), top);
    } else if top in Parents(g, e.works) {
      var v :| v in e.works && v in g.workParents && g.workParents[v].Some? && g.workParents[v].value == top;
      assert ParentOf(g, v, top);
      assert false;
    }
  }

  lemma TopIsDue(g: Graph, seeds: set<string>, p: string, top: string)
    requires Resolved(g) && seeds <= g.subjectIds && p in AfterRounds(g, seeds, 1).works
    requires top !in AfterRounds(g, seeds, 1).works && top in g.workDependencies && p in g.workDependencies[top]
    requires Private(g, top) && Apart(g, top, seeds)
    ensures var c := BeforeDependents(g, AfterRounds(g, seeds, 1)); Triggered(g, c, top) && top !in c.works
  {
    var r := AfterRounds(g, seeds, 1);
    var b := EdgePass(g.subjectEdges, r);
    RoundIsWithin(g, seeds, 1);
    RoundJustified(g, seeds, Start(seeds));
    assert r == Round(g, AfterRounds(g, seeds, 0));
    forall o, s | Owns(g, top, o) && IsSubjectOf(g, s, o) ensures s !in b.subjects {
      assert OnlyThrough(g, top, s);
      if s in r.subjects {
        SubjectComesFromExpansion(g, seeds, r, top, s);
        assert false;
      }
      EdgePassSkips(g.subjectEdges, r, s);
    }
    EdgePassAdds(g.subjectEdges, r);
    ObligationPassSpares(g, g.obligations, b, top, b.subjects);
    BeforeDependentsGrows(g, r);
    assert p in g.workDependencies[top] * BeforeDependents(g, r).works;
  }
}
