/**
 What a change of subjects affects in a frozen contract: what the closure loop computes, between which bounds
 its result lies, and why each element is in it. Repeated rounds may skip a dependent.
 */
module Impact {
  /*
   A dependent that is already affected is not expanded again, so the result is not the least closed triple
   in general; one section says when it is, and another what stays out otherwise.
   */

  import opened Common
  import opened Acyclicity

  const COMPOSITION := "composition"

  /** The contract graph; the sequences give the order in which the loops scan it. */
  datatype Graph = Graph(
    subjectIds: set<string>,
    subjectEdges: seq<(string, string)>,
    obligations: seq<string>,
    obligationSubjects: map<string, set<string>>,
    obligationWork: map<string, string>,
    obligationRole: map<string, string>,
    works: seq<string>,
    workDependencies: map<string, set<string>>,
    workParents: map<string, Option<string>>)

  /** What resolving the contract's references guarantees. */
  ghost predicate Resolved(g: Graph)
  {
    && (forall e :: e in g.subjectEdges ==> e.0 in g.subjectIds)
    && (forall o :: o in g.obligations <==> o in g.obligationSubjects)
    && g.obligationSubjects.Keys == g.obligationWork.Keys == g.obligationRole.Keys
    && (forall o :: o in g.obligationSubjects ==> g.obligationSubjects[o] <= g.subjectIds)
    && (forall o :: o in g.obligationWork ==> g.obligationWork[o] in g.workParents)
    && (forall w :: w in g.works <==> w in g.workParents)
    && g.workDependencies.Keys == g.workParents.Keys
    && (forall w :: w in g.workDependencies ==> g.workDependencies[w] <= g.workParents.Keys)
    && forall w :: w in g.workParents && g.workParents[w].Some? ==> g.workParents[w].value in g.workParents
  }

  datatype Affected = Affected(subjects: set<string>, obligations: set<string>, works: set<string>)

  predicate Within(a: Affected, b: Affected)
  {
    a.subjects <= b.subjects && a.obligations <= b.obligations && a.works <= b.works
  }

  ghost predicate InGraph(g: Graph, a: Affected)
  {
    Within(a, Affected(g.subjectIds, g.obligationSubjects.Keys, g.workParents.Keys))
  }

  // ---- the rules ----

  predicate Owns(g: Graph, w: string, o: string)
  {
    o in g.obligationWork && g.obligationWork[o] == w
  }

  predicate Composes(g: Graph, o: string)
  {
    o in g.obligationRole && g.obligationRole[o] == COMPOSITION
  }

  predicate Touched(g: Graph, a: Affected, o: string)
  {
    o in g.obligationSubjects && g.obligationSubjects[o] * a.subjects != {}
  }

  predicate Triggered(g: Graph, a: Affected, w: string)
  {
    w in g.workDependencies && g.workDependencies[w] * a.works != {}
  }

  predicate ParentOf(g: Graph, w: string, p: string)
  {
    w in g.workParents && g.workParents[w] == Some(p)
  }

  /** Reverse subject dependencies. */
  ghost predicate EdgeClosed(g: Graph, a: Affected)
  {
    forall e :: e in g.subjectEdges && e.1 in a.subjects ==> e.0 in a.subjects
  }

  /** An obligation sharing a subject, with the work item that owns it. */
  ghost predicate ObligationClosed(g: Graph, a: Affected)
  {
    forall o :: Touched(g, a, o) ==> o in a.obligations && (o in g.obligationWork ==> g.obligationWork[o] in a.works)
  }

  /** Work items that depend on an affected one. */
  ghost predicate DependentClosed(g: Graph, a: Affected)
  {
    forall w :: Triggered(g, a, w) ==> w in a.works
  }

  /** The parent of an affected work item, with its composition obligations. */
  ghost predicate ParentClosed(g: Graph, a: Affected)
  {
    && (forall w, p :: w in a.works && ParentOf(g, w, p) ==> p in a.works)
    && forall w, p, o :: w in a.works && ParentOf(g, w, p) && Owns(g, p, o) && Composes(g, o) ==> o in a.obligations
  }

  /** Everything a work item owns is affected: all obligations, and the subjects of those that do not compose. */
  ghost predicate Expanded(g: Graph, a: Affected, w: string)
  {
    forall o :: Owns(g, w, o) ==>
      o in a.obligations && (!Composes(g, o) && o in g.obligationSubjects ==> g.obligationSubjects[o] <= a.subjects)
  }

  ghost predicate RuleClosed(g: Graph, a: Affected)
  {
    EdgeClosed(g, a) && ObligationClosed(g, a) && DependentClosed(g, a) && ParentClosed(g, a)
  }

  /** The stronger rule set: every dependent of an affected item is expanded, however it became affected. */
  ghost predicate FullyClosed(g: Graph, a: Affected)
  {
    RuleClosed(g, a) && forall w :: Triggered(g, a, w) ==> Expanded(g, a, w)
  }

  // ---- the passes ----

  function EdgePass(edges: seq<(string, string)>, a: Affected): Affected
  {
    if edges == [] then a
    else EdgePass(edges[1..], if edges[0].1 in a.subjects then a.(subjects := a.subjects + {edges[0].0}) else a)
  }

  function Touch(g: Graph, a: Affected, o: string): Affected
  {
    if Touched(g, a, o) && o !in a.obligations && o in g.obligationWork then
      Affected(a.subjects, a.obligations + {o}, a.works + {g.obligationWork[o]})
    else a
  }

  function ObligationPass(g: Graph, order: seq<string>, a: Affected): Affected
  {
    if order == [] then a else ObligationPass(g, order[1..], Touch(g, a, order[0]))
  }

  function OwnedBy(g: Graph, w: string): set<string>
  {
    set o | o in g.obligationWork && g.obligationWork[o] == w
  }

  function ExpandedSubjects(g: Graph, w: string): set<string>
  {
    set o, s | o in g.obligationSubjects && Owns(g, w, o) && !Composes(g, o) && s in g.obligationSubjects[o] :: s
  }

  function Expand(g: Graph, a: Affected, w: string): Affected
  {
    if Triggered(g, a, w) && w !in a.works then
      Affected(a.subjects + ExpandedSubjects(g, w), a.obligations + OwnedBy(g, w), a.works + {w})
    else a
  }

  function DependentPass(g: Graph, order: seq<string>, a: Affected): Affected
  {
    if order == [] then a else DependentPass(g, order[1..], Expand(g, a, order[0]))
  }

  function Parents(g: Graph, works: set<string>): set<string>
  {
    set w | w in works && w in g.workParents && g.workParents[w].Some? :: g.workParents[w].value
  }

  function CompositionsOf(g: Graph, works: set<string>): set<string>
  {
    set o | o in g.obligationWork && g.obligationWork[o] in works && Composes(g, o)
  }

  /** The parents of some work items, with their composition obligations, added. */
  function Raised(g: Graph, a: Affected, done: set<string>): Affected
  {
    Affected(a.subjects, a.obligations + CompositionsOf(g, Parents(g, done)), a.works + Parents(g, done))
  }

  function ParentPass(g: Graph, a: Affected): Affected
  {
    Raised(g, a, a.works)
  }

  function Round(g: Graph, a: Affected): Affected
  {
    ParentPass(g, DependentPass(g, g.works, ObligationPass(g, g.obligations, EdgePass(g.subjectEdges, a))))
  }

  // ---- every pass only adds, and stays in the graph ----

  lemma {:induction false} EdgePassGrows(g: Graph, edges: seq<(string, string)>, a: Affected)
    requires InGraph(g, a) && forall e :: e in edges ==> e.0 in g.subjectIds
    ensures Within(a, EdgePass(edges, a)) && InGraph(g, EdgePass(edges, a))
    decreases |edges|
  {
    if edges != [] {
      EdgePassGrows(g, edges[1..], if edges[0].1 in a.subjects then a.(subjects := a.subjects + {edges[0].0}) else a);
    }
  }

  lemma {:induction false} ObligationPassGrows(g: Graph, order: seq<string>, a: Affected)
    requires InGraph(g, a) && Resolved(g)
    ensures Within(a, ObligationPass(g, order, a)) && InGraph(g, ObligationPass(g, order, a))
    decreases |order|
  {
    if order != [] {
      ObligationPassGrows(g, order[1..], Touch(g, a, order[0]));
    }
  }

  lemma {:induction false} DependentPassGrows(g: Graph, order: seq<string>, a: Affected)
    requires InGraph(g, a) && Resolved(g)
    ensures Within(a, DependentPass(g, order, a)) && InGraph(g, DependentPass(g, order, a))
    decreases |order|
  {
    if order != [] {
      DependentPassGrows(g, order[1..], Expand(g, a, order[0]));
    }
  }

  lemma RoundGrows(g: Graph, a: Affected)
    requires InGraph(g, a) && Resolved(g)
    ensures Within(a, Round(g, a)) && InGraph(g, Round(g, a))
  {
    var b := EdgePass(g.subjectEdges, a);
    var c := ObligationPass(g, g.obligations, b);
    EdgePassGrows(g, g.subjectEdges, a);
    ObligationPassGrows(g, g.obligations, b);
    DependentPassGrows(g, g.works, c);
  }

  function Missing(g: Graph, a: Affected): nat
  {
    |g.subjectIds - a.subjects| + |g.obligationSubjects.Keys - a.obligations| + |g.workParents.Keys - a.works|
  }

  lemma OutsideShrinks(universe: set<string>, a: set<string>, b: set<string>)
    requires a <= b <= universe
    ensures |universe - b| <= |universe - a| && (a != b ==> |universe - b| < |universe - a|)
  {
    assert universe - a == (universe - b) + (b - a);
    assert a != b ==> b - a != {};
  }

  /** Elements outside the three sets: the measure that makes the outer loop end. */
  lemma MissingShrinks(g: Graph, a: Affected, b: Affected)
    requires Within(a, b) && InGraph(g, b)
    ensures Missing(g, b) <= Missing(g, a) && (a != b ==> Missing(g, b) < Missing(g, a))
  {
    OutsideShrinks(g.subjectIds, a.subjects, b.subjects);
    OutsideShrinks(g.obligationSubjects.Keys, a.obligations, b.obligations);
    OutsideShrinks(g.workParents.Keys, a.works, b.works);
  }

  /** Rounds until one adds nothing. */
  function Close(g: Graph, a: Affected): Affected
    requires Resolved(g) && InGraph(g, a)
    decreases Missing(g, a)
  {
    RoundGrows(g, a);
    MissingShrinks(g, a, Round(g, a));
    if Round(g, a) == a then a else Close(g, Round(g, a))
  }

  function Start(seeds: set<string>): Affected
  {
    Affected(seeds, {}, {})
  }

  /** The impact of changed subjects. */
  function ImpactOf(g: Graph, seeds: set<string>): Affected
    requires Resolved(g) && seeds <= g.subjectIds
  {
    Close(g, Start(seeds))
  }

  // ---- a round that adds nothing is closed ----

  lemma {:induction false} EdgePassFixed(g: Graph, edges: seq<(string, string)>, a: Affected)
    requires InGraph(g, a) && (forall e :: e in edges ==> e.0 in g.subjectIds) && EdgePass(edges, a) == a
    ensures forall e :: e in edges && e.1 in a.subjects ==> e.0 in a.subjects
    decreases |edges|
  {
    if edges != [] {
      var b := if edges[0].1 in a.subjects then a.(subjects := a.subjects + {edges[0].0}) else a;
      EdgePassGrows(g, edges[1..], b);
      assert b == a;
      EdgePassFixed(g, edges[1..], a);
    }
  }

  lemma {:induction false} ObligationPassFixed(g: Graph, order: seq<string>, a: Affected)
    requires InGraph(g, a) && Resolved(g) && ObligationPass(g, order, a) == a
    ensures forall o :: o in order ==> Touch(g, a, o) == a
    decreases |order|
  {
    if order != [] {
      ObligationPassGrows(g, order[1..], Touch(g, a, order[0]));
      assert Touch(g, a, order[0]) == a;
      ObligationPassFixed(g, order[1..], a);
    }
  }

  lemma {:induction false} DependentPassFixed(g: Graph, order: seq<string>, a: Affected)
    requires InGraph(g, a) && Resolved(g) && DependentPass(g, order, a) == a
    ensures forall w :: w in order ==> Expand(g, a, w) == a
    decreases |order|
  {
    if order != [] {
      DependentPassGrows(g, order[1..], Expand(g, a, order[0]));
      assert Expand(g, a, order[0]) == a;
      DependentPassFixed(g, order[1..], a);
    }
  }

  lemma RoundFixed(g: Graph, a: Affected)
    requires InGraph(g, a) && Resolved(g) && Round(g, a) == a
    ensures EdgePass(g.subjectEdges, a) == a && ObligationPass(g, g.obligations, a) == a
    ensures DependentPass(g, g.works, a) == a && ParentPass(g, a) == a
  {
    var b := EdgePass(g.subjectEdges, a);
    var c := ObligationPass(g, g.obligations, b);
    EdgePassGrows(g, g.subjectEdges, a);
    ObligationPassGrows(g, g.obligations, b);
    DependentPassGrows(g, g.works, c);
    WithinBoth(a, b);
    WithinBoth(a, c);
    WithinBoth(a, DependentPass(g, g.works, c));
  }

  lemma WithinBoth(a: Affected, b: Affected)
    requires Within(a, b) && Within(b, a)
    ensures a == b
  {
  }

  /** Every affected obligation has its work item among the affected ones or was added for a parent. */
  ghost predicate OwnersIn(g: Graph, a: Affected)
  {
    forall o :: o in a.obligations && o in g.obligationWork ==> g.obligationWork[o] in a.works
  }

  lemma {:induction false} ObligationPassOwners(g: Graph, order: seq<string>, a: Affected)
    requires OwnersIn(g, a)
    ensures OwnersIn(g, ObligationPass(g, order, a))
    decreases |order|
  {
    if order != [] {
      ObligationPassOwners(g, order[1..], Touch(g, a, order[0]));
    }
  }

  lemma {:induction false} EdgePassOwners(g: Graph, edges: seq<(string, string)>, a: Affected)
    requires OwnersIn(g, a)
    ensures OwnersIn(g, EdgePass(edges, a))
    decreases |edges|
  {
    if edges != [] {
      EdgePassOwners(g, edges[1..], if edges[0].1 in a.subjects then a.(subjects := a.subjects + {edges[0].0}) else a);
    }
  }

  lemma {:induction false} DependentPassOwners(g: Graph, order: seq<string>, a: Affected)
    requires OwnersIn(g, a)
    ensures OwnersIn(g, DependentPass(g, order, a))
    decreases |order|
  {
    if order != [] {
      DependentPassOwners(g, order[1..], Expand(g, a, order[0]));
    }
  }

  lemma RoundOwners(g: Graph, a: Affected)
    requires OwnersIn(g, a)
    ensures OwnersIn(g, Round(g, a))
  {
    var b := EdgePass(g.subjectEdges, a);
    var c := ObligationPass(g, g.obligations, b);
    EdgePassOwners(g, g.subjectEdges, a);
    ObligationPassOwners(g, g.obligations, b);
    DependentPassOwners(g, g.works, c);
  }

  lemma FixedIsClosed(g: Graph, a: Affected)
    requires InGraph(g, a) && Resolved(g) && OwnersIn(g, a) && Round(g, a) == a
    ensures RuleClosed(g, a)
  {
    RoundFixed(g, a);
    EdgePassFixed(g, g.subjectEdges, a);
    ObligationPassFixed(g, g.obligations, a);
    DependentPassFixed(g, g.works, a);
    forall o | Touched(g, a, o) ensures o in a.obligations {
      assert Touch(g, a, o) == a;
    }
    forall w | Triggered(g, a, w) ensures w in a.works {
      assert Expand(g, a, w) == a;
    }
  }

  // ---- nothing beyond the fully closed triples ----

  lemma {:induction false} EdgePassWithin(g: Graph, edges: seq<(string, string)>, a: Affected, x: Affected)
    requires Within(a, x) && EdgeClosed(g, x) && forall e :: e in edges ==> e in g.subjectEdges
    ensures Within(EdgePass(edges, a), x)
    decreases |edges|
  {
    if edges != [] {
      assert edges[0] in g.subjectEdges;
      EdgePassWithin(g, edges[1..], if edges[0].1 in a.subjects then a.(subjects := a.subjects + {edges[0].0}) else a, x);
    }
  }

  lemma {:induction false} ObligationPassWithin(g: Graph, order: seq<string>, a: Affected, x: Affected)
    requires Within(a, x) && ObligationClosed(g, x)
    ensures Within(ObligationPass(g, order, a), x)
    decreases |order|
  {
    if order != [] {
      assert Touched(g, a, order[0]) ==> Touched(g, x, order[0]);
      ObligationPassWithin(g, order[1..], Touch(g, a, order[0]), x);
    }
  }

  lemma ExpandWithin(g: Graph, a: Affected, w: string, x: Affected)
    requires Within(a, x) && FullyClosed(g, x)
    ensures Within(Expand(g, a, w), x)
  {
    assert Triggered(g, a, w) ==> Triggered(g, x, w) && Expanded(g, x, w);
  }

  lemma {:induction false} DependentPassWithin(g: Graph, order: seq<string>, a: Affected, x: Affected)
    requires Within(a, x) && FullyClosed(g, x)
    ensures Within(DependentPass(g, order, a), x)
    decreases |order|
  {
    if order != [] {
      ExpandWithin(g, a, order[0], x);
      DependentPassWithin(g, order[1..], Expand(g, a, order[0]), x);
    }
  }

  lemma ParentPassWithin(g: Graph, a: Affected, x: Affected)
    requires Within(a, x) && ParentClosed(g, x)
    ensures Within(ParentPass(g, a), x)
  {
    forall p | p in Parents(g, a.works)
      ensures p in x.works && CompositionsOf(g, {p}) <= x.obligations
    {
      var w :| w in a.works && ParentOf(g, w, p);
      assert forall o :: o in CompositionsOf(g, {p}) ==> Owns(g, p, o) && Composes(g, o);
    }
    forall o | o in CompositionsOf(g, Parents(g, a.works)) ensures o in x.obligations {
      assert o in CompositionsOf(g, {g.obligationWork[o]});
    }
  }

  lemma RoundWithin(g: Graph, a: Affected, x: Affected)
    requires Within(a, x) && FullyClosed(g, x)
    ensures Within(Round(g, a), x)
  {
    var b := EdgePass(g.subjectEdges, a);
    var c := ObligationPass(g, g.obligations, b);
    EdgePassWithin(g, g.subjectEdges, a, x);
    ObligationPassWithin(g, g.obligations, b, x);
    DependentPassWithin(g, g.works, c, x);
    ParentPassWithin(g, DependentPass(g, g.works, c), x);
  }

  lemma {:induction false} CloseProperties(g: Graph, a: Affected)
    requires Resolved(g) && InGraph(g, a) && OwnersIn(g, a)
    ensures var r := Close(g, a); Within(a, r) && InGraph(g, r) && OwnersIn(g, r) && RuleClosed(g, r)
    decreases Missing(g, a)
  {
    RoundGrows(g, a);
    MissingShrinks(g, a, Round(g, a));
    if Round(g, a) == a {
      FixedIsClosed(g, a);
    } else {
      RoundOwners(g, a);
      CloseProperties(g, Round(g, a));
    }
  }

  lemma {:induction false} CloseWithin(g: Graph, a: Affected, x: Affected)
    requires Resolved(g) && InGraph(g, a) && Within(a, x) && FullyClosed(g, x)
    ensures Within(Close(g, a), x)
    decreases Missing(g, a)
  {
    RoundGrows(g, a);
    MissingShrinks(g, a, Round(g, a));
    RoundWithin(g, a, x);
    if Round(g, a) != a {
      CloseWithin(g, Round(g, a), x);
    }
  }

  /** The impact contains the seeds and is closed under every rule that has no guard. */
  lemma ImpactIsClosed(g: Graph, seeds: set<string>)
    requires Resolved(g) && seeds <= g.subjectIds
    ensures var r := ImpactOf(g, seeds); seeds <= r.subjects && InGraph(g, r) && RuleClosed(g, r)
  {
    CloseProperties(g, Start(seeds));
  }

  /** The impact lies inside every fully closed triple that contains the seeds. */
  lemma ImpactIsContained(g: Graph, seeds: set<string>, x: Affected)
    requires Resolved(g) && seeds <= g.subjectIds && seeds <= x.subjects && FullyClosed(g, x)
    ensures Within(ImpactOf(g, seeds), x)
  {
    CloseWithin(g, Start(seeds), x);
  }

  // ---- why each element is affected ----

  ghost predicate OwnsTouched(g: Graph, a: Affected, w: string)
  {
    exists o :: o in a.obligations && Owns(g, w, o) && Touched(g, a, o)
  }

  ghost predicate HasAffectedChild(g: Graph, a: Affected, p: string)
  {
    exists w :: w in a.works && ParentOf(g, w, p)
  }

  ghost predicate IsExpanded(g: Graph, a: Affected, w: string)
  {
    w in a.works && Triggered(g, a, w) && Expanded(g, a, w)
  }

  ghost predicate WorkReason(g: Graph, a: Affected, w: string)
  {
    OwnsTouched(g, a, w) || IsExpanded(g, a, w) || HasAffectedChild(g, a, w)
  }

  ghost predicate ObligationReason(g: Graph, a: Affected, o: string)
  {
    || Touched(g, a, o)
    || (o in g.obligationWork && IsExpanded(g, a, g.obligationWork[o]))
    || (o in g.obligationWork && Composes(g, o) && HasAffectedChild(g, a, g.obligationWork[o]))
  }

  ghost predicate SubjectReason(g: Graph, seeds: set<string>, a: Affected, s: string)
  {
    || s in seeds
    || (exists t :: t in a.subjects && (s, t) in g.subjectEdges)
    || exists w :: IsExpanded(g, a, w) && s in ExpandedSubjects(g, w)
  }

  /** Every affected element is there by one of the rules. */
  ghost predicate Justified(g: Graph, seeds: set<string>, a: Affected)
  {
    && (forall s {:trigger SubjectReason(g, seeds, a, s)} :: s in a.subjects ==> SubjectReason(g, seeds, a, s))
    && (forall o {:trigger ObligationReason(g, a, o)} :: o in a.obligations ==> ObligationReason(g, a, o))
    && forall w {:trigger WorkReason(g, a, w)} :: w in a.works ==> WorkReason(g, a, w)
  }

  /** A step keeps every reason if what it adds has one. */
  lemma StepJustified(g: Graph, seeds: set<string>, a: Affected, b: Affected)
    requires Justified(g, seeds, a) && Within(a, b)
    requires forall s :: s in b.subjects - a.subjects ==> SubjectReason(g, seeds, b, s)
    requires forall o :: o in b.obligations - a.obligations ==> ObligationReason(g, b, o)
    requires forall w :: w in b.works - a.works ==> WorkReason(g, b, w)
    ensures Justified(g, seeds, b)
  {
    forall s | s in b.subjects ensures SubjectReason(g, seeds, b, s) {
      assert s in a.subjects ==> SubjectReason(g, seeds, a, s);
    }
    forall o | o in b.obligations ensures ObligationReason(g, b, o) {
      assert o in a.obligations ==> ObligationReason(g, a, o);
    }
    forall w | w in b.works ensures WorkReason(g, b, w) {
      assert w in a.works ==> WorkReason(g, a, w);
    }
  }

  lemma {:induction false} EdgePassJustified(g: Graph, seeds: set<string>, edges: seq<(string, string)>, a: Affected)
    requires Justified(g, seeds, a) && forall e :: e in edges ==> e in g.subjectEdges
    ensures Justified(g, seeds, EdgePass(edges, a))
    decreases |edges|
  {
    if edges != [] {
      var b := if edges[0].1 in a.subjects then a.(subjects := a.subjects + {edges[0].0}) else a;
      assert edges[0] in g.subjectEdges && edges[0] == (edges[0].0, edges[0].1);
      StepJustified(g, seeds, a, b);
      EdgePassJustified(g, seeds, edges[1..], b);
    }
  }

  lemma {:induction false} ObligationPassJustified(g: Graph, seeds: set<string>, order: seq<string>, a: Affected)
    requires Justified(g, seeds, a)
    ensures Justified(g, seeds, ObligationPass(g, order, a))
    decreases |order|
  {
    if order != [] {
      var b := Touch(g, a, order[0]);
      assert b != a ==> order[0] in b.obligations && Touched(g, b, order[0]) && Owns(g, g.obligationWork[order[0]], order[0]);
      StepJustified(g, seeds, a, b);
      ObligationPassJustified(g, seeds, order[1..], b);
    }
  }

  lemma {:induction false} DependentPassJustified(g: Graph, seeds: set<string>, order: seq<string>, a: Affected)
    requires Justified(g, seeds, a)
    ensures Justified(g, seeds, DependentPass(g, order, a))
    decreases |order|
  {
    if order != [] {
      var b := Expand(g, a, order[0]);
      StepJustified(g, seeds, a, b);
      DependentPassJustified(g, seeds, order[1..], b);
    }
  }

  lemma ParentPassJustified(g: Graph, seeds: set<string>, a: Affected)
    requires Justified(g, seeds, a)
    ensures Justified(g, seeds, ParentPass(g, a))
  {
    var b := ParentPass(g, a);
    forall p | p in Parents(g, a.works) ensures HasAffectedChild(g, b, p) {
      var w :| w in a.works && ParentOf(g, w, p);
      assert w in b.works;
    }
    StepJustified(g, seeds, a, b);
  }

  lemma RoundJustified(g: Graph, seeds: set<string>, a: Affected)
    requires Justified(g, seeds, a)
    ensures Justified(g, seeds, Round(g, a))
  {
    var b := EdgePass(g.subjectEdges, a);
    var c := ObligationPass(g, g.obligations, b);
    EdgePassJustified(g, seeds, g.subjectEdges, a);
    ObligationPassJustified(g, seeds, g.obligations, b);
    DependentPassJustified(g, seeds, g.works, c);
    ParentPassJustified(g, seeds, DependentPass(g, g.works, c));
  }

  lemma {:induction false} CloseJustified(g: Graph, seeds: set<string>, a: Affected)
    requires Resolved(g) && InGraph(g, a) && Justified(g, seeds, a)
    ensures Justified(g, seeds, Close(g, a))
    decreases Missing(g, a)
  {
    RoundGrows(g, a);
    MissingShrinks(g, a, Round(g, a));
    if Round(g, a) != a {
      RoundJustified(g, seeds, a);
      CloseJustified(g, seeds, Round(g, a));
    }
  }

  /** No element is affected without a rule that puts it there. */
  lemma ImpactIsJustified(g: Graph, seeds: set<string>)
    requires Resolved(g) && seeds <= g.subjectIds
    ensures Justified(g, seeds, ImpactOf(g, seeds))
  {
    CloseJustified(g, seeds, Start(seeds));
  }

  // ---- when the guard makes no difference ----

  /** Touching the subject touches the obligation, and is all there is to touch unless the obligation composes. */
  predicate Covers(g: Graph, s: string, o: string)
  {
    o in g.obligationSubjects && s in g.obligationSubjects[o] && (!Composes(g, o) ==> g.obligationSubjects[o] == {s})
  }

  /**
   A work item that cannot become affected in part: touching any subject of any obligation it owns touches all of
   them and covers those that do not compose; and if it is a parent, all of them compose.
   */
  ghost predicate Plain(g: Graph, w: string)
  {
    && (forall o1, o2, s :: Owns(g, w, o1) && Owns(g, w, o2) && o1 in g.obligationSubjects && s in g.obligationSubjects[o1] ==>
          Covers(g, s, o2))
    && forall v, o :: ParentOf(g, v, w) && Owns(g, w, o) ==> Composes(g, o)
  }

  /** Every work item with dependencies is plain. */
  ghost predicate PlainDependents(g: Graph)
  {
    forall w :: w in g.workDependencies && g.workDependencies[w] != {} ==> Plain(g, w)
  }

  lemma PlainIsExpanded(g: Graph, a: Affected, w: string)
    requires Resolved(g) && Plain(g, w) && RuleClosed(g, a) && w in a.works && WorkReason(g, a, w)
    ensures Expanded(g, a, w)
  {
    if OwnsTouched(g, a, w) {
      var o' :| o' in a.obligations && Owns(g, w, o') && Touched(g, a, o');
      var s :| s in g.obligationSubjects[o'] * a.subjects;
      forall o | Owns(g, w, o)
        ensures o in a.obligations && (!Composes(g, o) && o in g.obligationSubjects ==> g.obligationSubjects[o] <= a.subjects)
      {
        assert Covers(g, s, o);
        assert s in g.obligationSubjects[o] * a.subjects;
        assert Touched(g, a, o);
      }
    }
  }

  /** If dependents are plain, the impact is the least triple closed under the full rules. */
  lemma PlainImpactIsLeast(g: Graph, seeds: set<string>)
    requires Resolved(g) && seeds <= g.subjectIds && PlainDependents(g)
    ensures FullyClosed(g, ImpactOf(g, seeds))
    ensures forall x: Affected :: seeds <= x.subjects && FullyClosed(g, x) ==> Within(ImpactOf(g, seeds), x)
  {
    var r := ImpactOf(g, seeds);
    ImpactIsClosed(g, seeds);
    ImpactIsJustified(g, seeds);
    forall w | Triggered(g, r, w) ensures Expanded(g, r, w) {
      assert WorkReason(g, r, w);
      PlainIsExpanded(g, r, w);
    }
    forall x: Affected | seeds <= x.subjects && FullyClosed(g, x) ensures Within(r, x) {
      ImpactIsContained(g, seeds, x);
    }
  }

  /** If dependents are plain, more seeds never affect less. */
  lemma PlainImpactIsMonotone(g: Graph, fewer: set<string>, more: set<string>)
    requires Resolved(g) && fewer <= more <= g.subjectIds && PlainDependents(g)
    ensures Within(ImpactOf(g, fewer), ImpactOf(g, more))
  {
    PlainImpactIsLeast(g, more);
    ImpactIsClosed(g, more);
    ImpactIsContained(g, fewer, ImpactOf(g, more));
  }

  /** The two graphs differ only in the order of their loops. */
  ghost predicate SameUpToOrder(g: Graph, h: Graph)
  {
    && g == h.(subjectEdges := g.subjectEdges, obligations := g.obligations, works := g.works)
    && (forall e :: e in g.subjectEdges <==> e in h.subjectEdges)
    && (forall o :: o in g.obligations <==> o in h.obligations)
    && forall w :: w in g.works <==> w in h.works
  }

  lemma FullyClosedUpToOrder(g: Graph, h: Graph, x: Affected)
    requires SameUpToOrder(g, h) && FullyClosed(g, x)
    ensures FullyClosed(h, x)
  {
    assert forall o :: Touched(h, x, o) <==> Touched(g, x, o);
    assert forall w :: Triggered(h, x, w) <==> Triggered(g, x, w);
    assert forall w :: Expanded(g, x, w) ==> Expanded(h, x, w);
    forall w, p, o | w in x.works && ParentOf(h, w, p) && Owns(h, p, o) && Composes(h, o) ensures o in x.obligations {
      assert ParentOf(g, w, p) && Owns(g, p, o) && Composes(g, o);
    }
    forall w, p | w in x.works && ParentOf(h, w, p) ensures p in x.works {
      assert ParentOf(g, w, p);
    }
  }

  /** If dependents are plain, the order of the loops does not matter. */
  lemma PlainImpactIsUnordered(g: Graph, h: Graph, seeds: set<string>)
    requires Resolved(g) && Resolved(h) && seeds <= g.subjectIds && PlainDependents(g) && PlainDependents(h)
    requires SameUpToOrder(g, h)
    ensures ImpactOf(g, seeds) == ImpactOf(h, seeds)
  {
    PlainImpactIsLeast(g, seeds);
    PlainImpactIsLeast(h, seeds);
    ImpactIsClosed(g, seeds);
    ImpactIsClosed(h, seeds);
    FullyClosedUpToOrder(g, h, ImpactOf(g, seeds));
    FullyClosedUpToOrder(h, g, ImpactOf(h, seeds));
    WithinBoth(ImpactOf(g, seeds), ImpactOf(h, seeds));
  }

  // ---- what the guard keeps out ----

  /** The subject can be affected only by expanding the work item. */
  ghost predicate OnlyThrough(g: Graph, w: string, s: string)
  {
    && (forall e :: e in g.subjectEdges ==> e.0 != s)
    && forall v :: s in ExpandedSubjects(g, v) ==> v == w
  }

  lemma {:induction false} EdgePassSkips(edges: seq<(string, string)>, a: Affected, s: string)
    requires s !in a.subjects && forall e :: e in edges ==> e.0 != s
    ensures s !in EdgePass(edges, a).subjects && a.subjects <= EdgePass(edges, a).subjects
    ensures EdgePass(edges, a).works == a.works && EdgePass(edges, a).obligations == a.obligations
    decreases |edges|
  {
    if edges != [] {
      EdgePassSkips(edges[1..], if edges[0].1 in a.subjects then a.(subjects := a.subjects + {edges[0].0}) else a, s);
    }
  }

  lemma {:induction false} ObligationPassReaches(g: Graph, order: seq<string>, a: Affected, o: string)
    requires OwnersIn(g, a) && Touched(g, a, o) && o in g.obligationWork
    ensures ObligationPass(g, order, a).subjects == a.subjects && a.works <= ObligationPass(g, order, a).works
    ensures o in order ==> g.obligationWork[o] in ObligationPass(g, order, a).works
    decreases |order|
  {
    if order != [] {
      ObligationPassReaches(g, order[1..], Touch(g, a, order[0]), o);
    }
  }

  lemma {:induction false} DependentPassSkips(g: Graph, order: seq<string>, a: Affected, w: string, s: string)
    requires OnlyThrough(g, w, s) && w in a.works && s !in a.subjects
    ensures var r := DependentPass(g, order, a); w in r.works && s !in r.subjects && a.subjects <= r.subjects
    decreases |order|
  {
    if order != [] {
      DependentPassSkips(g, order[1..], Expand(g, a, order[0]), w, s);
    }
  }

  lemma RoundSkips(g: Graph, a: Affected, w: string, o: string, s: string)
    requires Resolved(g) && OwnersIn(g, a) && OnlyThrough(g, w, s) && Owns(g, w, o) && Touched(g, a, o) && s !in a.subjects
    ensures Touched(g, Round(g, a), o) && s !in Round(g, a).subjects
  {
    var b := EdgePass(g.subjectEdges, a);
    var c := ObligationPass(g, g.obligations, b);
    EdgePassSkips(g.subjectEdges, a, s);
    ObligationPassReaches(g, g.obligations, b, o);
    DependentPassSkips(g, g.works, c, w, s);
  }

  lemma {:induction false} CloseSkips(g: Graph, a: Affected, w: string, o: string, s: string)
    requires Resolved(g) && InGraph(g, a) && OwnersIn(g, a)
    requires OnlyThrough(g, w, s) && Owns(g, w, o) && Touched(g, a, o) && s !in a.subjects
    ensures s !in Close(g, a).subjects
    decreases Missing(g, a)
  {
    RoundGrows(g, a);
    MissingShrinks(g, a, Round(g, a));
    RoundSkips(g, a, w, o, s);
    RoundOwners(g, a);
    if Round(g, a) != a {
      CloseSkips(g, Round(g, a), w, o, s);
    }
  }

  /** A work item whose obligation shares a subject with the seeds is never expanded: what only that reaches stays out. */
  lemma TouchedIsNotExpanded(g: Graph, seeds: set<string>, w: string, o: string, s: string)
    requires Resolved(g) && seeds <= g.subjectIds && s !in seeds
    requires OnlyThrough(g, w, s) && Owns(g, w, o) && g.obligationSubjects[o] * seeds != {}
    ensures s !in ImpactOf(g, seeds).subjects
  {
    CloseSkips(g, Start(seeds), w, o, s);
  }

  lemma SeedsReachOwner(g: Graph, seeds: set<string>, d: string, od: string)
    requires Resolved(g) && seeds <= g.subjectIds && Owns(g, d, od) && g.obligationSubjects[od] * seeds != {}
    ensures var r := ImpactOf(g, seeds);
      d in r.works && forall w :: w in g.workDependencies && d in g.workDependencies[w] ==> Triggered(g, r, w) && w in r.works
  {
    var r := ImpactOf(g, seeds);
    ImpactIsClosed(g, seeds);
    var x :| x in g.obligationSubjects[od] * seeds;
    assert x in g.obligationSubjects[od] * r.subjects;
    assert Touched(g, r, od);
    forall w | w in g.workDependencies && d in g.workDependencies[w] ensures Triggered(g, r, w) && w in r.works {
      assert d in g.workDependencies[w] * r.works;
    }
  }

  /**
   If the seeds touch an item and also an item it depends on, and some subject it would pull in is reached in no
   other way, the impact is not fully closed.
   */
  lemma TouchedDependentIsLeftOpen(g: Graph, seeds: set<string>, w: string, o: string, d: string, od: string, s: string)
    requires Resolved(g) && seeds <= g.subjectIds && s !in seeds
    requires OnlyThrough(g, w, s) && s in ExpandedSubjects(g, w) && Owns(g, w, o) && g.obligationSubjects[o] * seeds != {}
    requires w in g.workDependencies && d in g.workDependencies[w]
    requires Owns(g, d, od) && g.obligationSubjects[od] * seeds != {}
    ensures !FullyClosed(g, ImpactOf(g, seeds))
  {
    TouchedIsNotExpanded(g, seeds, w, o, s);
    SeedsReachOwner(g, seeds, d, od);
    NotExpanded(g, ImpactOf(g, seeds), w, s);
  }

  lemma NotExpanded(g: Graph, a: Affected, w: string, s: string)
    requires s in ExpandedSubjects(g, w) && s !in a.subjects
    ensures !Expanded(g, a, w)
  {
    var o :| o in g.obligationSubjects && Owns(g, w, o) && !Composes(g, o) && s in g.obligationSubjects[o];
  }

  // ---- the loops ----

  method ScanEdges(g: Graph, a: Affected) returns (b: Affected, changed: bool)
    ensures b == EdgePass(g.subjectEdges, a) && (changed <==> b != a)
  {
    b, changed := a, false;
    for i := 0 to |g.subjectEdges|
      invariant EdgePass(g.subjectEdges[i..], b) == EdgePass(g.subjectEdges, a)
      invariant Within(a, b) && (changed <==> b != a)
    {
      var (source, target) := g.subjectEdges[i];
      assert source in b.subjects ==> b.subjects + {source} == b.subjects;
      if target in b.subjects && source !in b.subjects {
        b := b.(subjects := b.subjects + {source});
        changed := true;
      }
    }
  }

  method ScanObligations(g: Graph, a: Affected) returns (b: Affected, changed: bool)
    requires Resolved(g)
    ensures b == ObligationPass(g, g.obligations, a) && (changed <==> b != a)
  {
    b, changed := a, false;
    for i := 0 to |g.obligations|
      invariant ObligationPass(g, g.obligations[i..], b) == ObligationPass(g, g.obligations, a)
      invariant Within(a, b) && (changed <==> b != a)
    {
      var o := g.obligations[i];
      if g.obligationSubjects[o] * b.subjects != {} && o !in b.obligations {
        b := Affected(b.subjects, b.obligations + {o}, b.works + {g.obligationWork[o]});
        changed := true;
      }
    }
  }

  /** What the scan of one obligation leaves behind. */
  ghost predicate Gathered(g: Graph, w: string, o: string, subjects: set<string>, obligations: set<string>)
  {
    Owns(g, w, o) ==>
      o in obligations && (!Composes(g, o) && o in g.obligationSubjects ==> g.obligationSubjects[o] <= subjects)
  }

  ghost predicate GatheredUpTo(g: Graph, w: string, n: nat, subjects: set<string>, obligations: set<string>)
    requires n <= |g.obligations|
  {
    forall k :: 0 <= k < n ==> Gathered(g, w, g.obligations[k], subjects, obligations)
  }

  lemma GatheredNext(
      g: Graph, w: string, n: nat, subjects: set<string>, obligations: set<string>,
      subjects': set<string>, obligations': set<string>)
    requires n < |g.obligations| && GatheredUpTo(g, w, n, subjects, obligations)
    requires subjects <= subjects' && obligations <= obligations'
    requires Gathered(g, w, g.obligations[n], subjects', obligations')
    ensures GatheredUpTo(g, w, n + 1, subjects', obligations')
  {
    forall k | 0 <= k < n ensures Gathered(g, w, g.obligations[k], subjects', obligations') {
      assert Gathered(g, w, g.obligations[k], subjects, obligations);
    }
  }

  lemma GatheredAll(g: Graph, w: string, subjects: set<string>, obligations: set<string>)
    requires Resolved(g) && GatheredUpTo(g, w, |g.obligations|, subjects, obligations)
    ensures OwnedBy(g, w) <= obligations && ExpandedSubjects(g, w) <= subjects
  {
    forall o | Owns(g, w, o) ensures Gathered(g, w, o, subjects, obligations) {
      assert o in g.obligations;
    }
  }

  /** What the scan adds for one obligation. */
  method GatherOne(g: Graph, w: string, o: string, subjects: set<string>, obligations: set<string>)
    returns (subjects': set<string>, obligations': set<string>)
    requires Resolved(g) && o in g.obligationWork
    ensures subjects <= subjects' <= subjects + ExpandedSubjects(g, w)
    ensures obligations <= obligations' <= obligations + OwnedBy(g, w)
    ensures Gathered(g, w, o, subjects', obligations')
  {
    subjects', obligations' := subjects, obligations;
    if g.obligationWork[o] != w {
      return;
    }
    obligations' := obligations + {o};
    if g.obligationRole[o] != COMPOSITION {
      subjects' := subjects + g.obligationSubjects[o];
    }
  }

  /** Add everything a newly affected dependent owns. */
  method ExpandWork(g: Graph, a: Affected, w: string) returns (b: Affected)
    requires Resolved(g) && Triggered(g, a, w) && w !in a.works
    ensures b == Expand(g, a, w)
  {
    var subjects, obligations := a.subjects, a.obligations;
    for i := 0 to |g.obligations|
      invariant a.subjects <= subjects <= a.subjects + ExpandedSubjects(g, w)
      invariant a.obligations <= obligations <= a.obligations + OwnedBy(g, w)
      invariant GatheredUpTo(g, w, i, subjects, obligations)
    {
      assert g.obligations[i] in g.obligations;
      var subjects', obligations' := GatherOne(g, w, g.obligations[i], subjects, obligations);
      GatheredNext(g, w, i, subjects, obligations, subjects', obligations');
      subjects, obligations := subjects', obligations';
    }
    GatheredAll(g, w, subjects, obligations);
    b := Affected(subjects, obligations, a.works + {w});
  }

  method ScanDependents(g: Graph, a: Affected) returns (b: Affected, changed: bool)
    requires Resolved(g)
    ensures b == DependentPass(g, g.works, a) && (changed <==> b != a)
  {
    b, changed := a, false;
    for i := 0 to |g.works|
      invariant DependentPass(g, g.works[i..], b) == DependentPass(g, g.works, a)
      invariant Within(a, b) && (changed <==> b != a)
    {
      var w := g.works[i];
      if g.workDependencies[w] * b.works != {} && w !in b.works {
        b := ExpandWork(g, b, w);
        changed := true;
      }
    }
  }

  /** Add the composition obligations of one affected item's parent. */
  method AddCompositions(g: Graph, a: Affected, p: string) returns (b: Affected, changed: bool)
    requires Resolved(g)
    ensures b == a.(obligations := a.obligations + CompositionsOf(g, {p})) && (changed <==> b != a)
  {
    b, changed := a, false;
    for i := 0 to |g.obligations|
      invariant b.subjects == a.subjects && b.works == a.works
      invariant a.obligations <= b.obligations <= a.obligations + CompositionsOf(g, {p}) && (changed <==> b != a)
      invariant forall k :: 0 <= k < i && g.obligations[k] in CompositionsOf(g, {p}) ==> g.obligations[k] in b.obligations
    {
      var o := g.obligations[i];
      if g.obligationWork[o] == p && g.obligationRole[o] == COMPOSITION && o !in b.obligations {
        b := b.(obligations := b.obligations + {o});
        changed := true;
      }
    }
  }

  lemma RaisedMore(g: Graph, a: Affected, done: set<string>, w: string)
    ensures Raised(g, a, done + {w}) == Raised(g, Raised(g, a, done), {w})
  {
    assert Parents(g, done + {w}) == Parents(g, done) + Parents(g, {w});
  }

  /** Add the parent of one affected item. */
  method RaiseParent(g: Graph, a: Affected, w: string) returns (b: Affected, changed: bool)
    requires Resolved(g) && w in g.workParents
    ensures b == Raised(g, a, {w}) && (changed <==> b != a)
  {
    match g.workParents[w]
    case None =>
      assert Parents(g, {w}) == {} && Raised(g, a, {w}) == a;
      b, changed := a, false;
    case Some(p) =>
      assert Parents(g, {w}) == {p};
      b, changed := AddCompositions(g, a.(works := a.works + {p}), p);
      changed := changed || p !in a.works;
  }

  /** Add the parents of the items affected so far, in any order. */
  method ScanParents(g: Graph, a: Affected) returns (b: Affected, changed: bool)
    requires Resolved(g) && InGraph(g, a)
    ensures b == ParentPass(g, a) && (changed <==> b != a)
  {
    b, changed := a, false;
    var pending := a.works;
    assert Raised(g, a, {}) == a;
    while pending != {}
      invariant pending <= a.works && b == Raised(g, a, a.works - pending)
      invariant changed <==> b != a
      decreases pending
    {
      var w :| w in pending;
      ghost var done := a.works - pending;
      pending := pending - {w};
      assert a.works - pending == done + {w};
      RaisedMore(g, a, done, w);
      var raised, more := RaiseParent(g, b, w);
      RaisedGrows(g, a, done, w);
      b, changed := raised, changed || more;
    }
    assert a.works - pending == a.works;
  }

  lemma RaisedGrows(g: Graph, a: Affected, done: set<string>, w: string)
    ensures Within(a, Raised(g, a, done)) && Within(Raised(g, a, done), Raised(g, Raised(g, a, done), {w}))
  {
  }

  /** `_close_impact`. */
  method CloseImpact(g: Graph, seeds: set<string>) returns (r: Affected)
    requires Resolved(g) && seeds <= g.subjectIds
    ensures r == ImpactOf(g, seeds)
    ensures seeds <= r.subjects && InGraph(g, r) && RuleClosed(g, r) && Justified(g, seeds, r)
    ensures forall x: Affected :: seeds <= x.subjects && FullyClosed(g, x) ==> Within(r, x)
  {
    r := CloseLoop(g, Start(seeds));
    ImpactIsClosed(g, seeds);
    ImpactIsJustified(g, seeds);
    forall x: Affected | seeds <= x.subjects && FullyClosed(g, x) ensures Within(r, x) {
      ImpactIsContained(g, seeds, x);
    }
  }

  /** Rounds of the four scans until none changes anything. */
  method CloseLoop(g: Graph, start: Affected) returns (r: Affected)
    requires Resolved(g) && InGraph(g, start)
    ensures r == Close(g, start)
  {
    r := start;
    var changed := true;
    while changed
      invariant InGraph(g, r) && Close(g, r) == Close(g, start)
      invariant !changed ==> Round(g, r) == r
      decreases Missing(g, r), changed
    {
      RoundGrows(g, r);
      MissingShrinks(g, r, Round(g, r));
      r, changed := CloseRound(g, r);
    }
  }

  method CloseRound(g: Graph, a: Affected) returns (r: Affected, changed: bool)
    requires Resolved(g) && InGraph(g, a)
    ensures r == Round(g, a) && (changed <==> r != a)
  {
    EdgePassGrows(g, g.subjectEdges, a);
    var b, edges := ScanEdges(g, a);
    ObligationPassGrows(g, g.obligations, b);
    var c, touched := ScanObligations(g, b);
    DependentPassGrows(g, g.works, c);
    var d, spread := ScanDependents(g, c);
    var e, raised := ScanParents(g, d);
    r, changed := e, edges || touched || spread || raised;
    ChainChanged(a, b, c, d, e);
  }

  /** A growing chain ends where it started exactly when no link grew. */
  lemma ChainChanged(a: Affected, b: Affected, c: Affected, d: Affected, e: Affected)
    requires Within(a, b) && Within(b, c) && Within(c, d) && Within(d, e)
    ensures a == e <==> a == b && b == c && c == d && d == e
  {
    if a == e {
      WithinBoth(a, b);
      WithinBoth(a, c);
      WithinBoth(a, d);
    }
  }

  /** Above every affected work item the chain of parents is finite, ends at a root, and is affected throughout. */
  lemma AffectedToTheRoot(g: Graph, seeds: set<string>, w: string) returns (chain: seq<string>)
    requires Resolved(g) && seeds <= g.subjectIds && Acyclic(HierarchyEdges(g.workParents))
    requires w in ImpactOf(g, seeds).works
    ensures RootChain(g.workParents, chain) && chain[0] == w && forall v :: v in chain ==> v in ImpactOf(g, seeds).works
  {
    var r := ImpactOf(g, seeds);
    ImpactIsClosed(g, seeds);
    forall n | n in r.works && g.workParents[n].Some? ensures g.workParents[n].value in r.works {
      assert ParentOf(g, n, g.workParents[n].value);
    }
    chain := AncestorChain(g.workParents, r.works, [w]);
  }
}
