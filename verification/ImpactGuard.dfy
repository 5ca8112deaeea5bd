/**
 When the guard of the closure loop matters. If the dependent items of a contract keep to themselves, the impact is
 fully closed for all changed subjects, and never shrinks when more subjects change, exactly if they are plain.
 */
module ImpactGuard {
  import opened Common
  import opened Impact

  ghost predicate Childless(g: Graph, w: string)
  {
    forall v :: !ParentOf(g, v, w)
  }

  predicate IsSubjectOf(g: Graph, s: string, o: string)
  {
    o in g.obligationSubjects && s in g.obligationSubjects[o]
  }

  /** The subjects of the item's obligations depend on no other subject, and no other item pulls them in. */
  ghost predicate Private(g: Graph, w: string)
  {
    forall o, s :: Owns(g, w, o) && IsSubjectOf(g, s, o) ==> OnlyThrough(g, w, s)
  }

  /** No obligation of the item has a subject in the set. */
  ghost predicate Apart(g: Graph, w: string, subjects: set<string>)
  {
    forall o, s :: Owns(g, w, o) && IsSubjectOf(g, s, o) ==> s !in subjects
  }

  /** A change of the subject reaches an item that `w` depends on, and none of `w`'s own obligations. */
  ghost predicate Reaches(g: Graph, w: string, d: string, od: string, s: string)
  {
    && w in g.workDependencies && d in g.workDependencies[w]
    && Owns(g, d, od) && IsSubjectOf(g, s, od) && Apart(g, w, {s})
  }

  /** Every item with dependencies has no children, has its subjects to itself, and can be reached from a dependency. */
  ghost predicate Separate(g: Graph)
  {
    && Resolved(g)
    && forall w :: w in g.workDependencies && g.workDependencies[w] != {} ==>
         Childless(g, w) && Private(g, w) && exists d, od, s :: Reaches(g, w, d, od, s)
  }

  // ---- an item that the seeds do not touch is expanded ----

  lemma SubjectComesFromExpansion(g: Graph, seeds: set<string>, r: Affected, w: string, s: string)
    requires Justified(g, seeds, r) && s in r.subjects && s !in seeds && OnlyThrough(g, w, s)
    ensures IsExpanded(g, r, w)
  {
    assert SubjectReason(g, seeds, r, s);
  }

  lemma UntouchedIsExpanded(g: Graph, seeds: set<string>, w: string)
    requires Resolved(g) && seeds <= g.subjectIds && Childless(g, w) && Private(g, w) && Apart(g, w, seeds)
    requires w in ImpactOf(g, seeds).works
    ensures Expanded(g, ImpactOf(g, seeds), w)
  {
    var r := ImpactOf(g, seeds);
    ImpactIsJustified(g, seeds);
    assert WorkReason(g, r, w);
    if OwnsTouched(g, r, w) {
      var o :| o in r.obligations && Owns(g, w, o) && Touched(g, r, o);
      var s :| s in g.obligationSubjects[o] * r.subjects;
      assert IsSubjectOf(g, s, o);
      SubjectComesFromExpansion(g, seeds, r, w, s);
    }
  }

  lemma DependentIsExpanded(g: Graph, w: string, d: string, od: string, sd: string)
    requires Resolved(g) && Childless(g, w) && Private(g, w) && Reaches(g, w, d, od, sd)
    ensures sd in g.subjectIds && Expanded(g, ImpactOf(g, {sd}), w)
  {
    assert sd in g.obligationSubjects[od] * {sd};
    SeedsReachOwner(g, {sd}, d, od);
    UntouchedIsExpanded(g, {sd}, w);
  }

  // ---- an item that the seeds touch keeps its other obligations out ----

  /** The obligation is not affected, nor is any subject of it. */
  ghost predicate Outside(g: Graph, a: Affected, o: string)
  {
    !Touched(g, a, o) && o !in a.obligations
  }

  lemma OutsideHasNone(g: Graph, a: Affected, o: string, s: string)
    requires !Touched(g, a, o) && IsSubjectOf(g, s, o)
    ensures s !in a.subjects
  {
    var shared := g.obligationSubjects[o] * a.subjects;
    assert s in a.subjects ==> s in shared;
  }

  lemma {:induction false} ObligationPassSkips(g: Graph, order: seq<string>, a: Affected, o: string)
    requires Outside(g, a, o)
    ensures Outside(g, ObligationPass(g, order, a), o)
    decreases |order|
  {
    if order != [] {
      ObligationPassSkips(g, order[1..], Touch(g, a, order[0]), o);
    }
  }

  lemma ExpandSkips(g: Graph, a: Affected, v: string, w: string, o: string)
    requires Private(g, w) && w in a.works && Owns(g, w, o) && Outside(g, a, o)
    ensures var r := Expand(g, a, v); w in r.works && Outside(g, r, o) && a.subjects <= r.subjects
  {
    if v != w {
      forall s | IsSubjectOf(g, s, o) ensures s !in Expand(g, a, v).subjects {
        assert OnlyThrough(g, w, s);
        OutsideHasNone(g, a, o, s);
      }
    }
  }

  lemma {:induction false} DependentPassSkipsObligation(g: Graph, order: seq<string>, a: Affected, w: string, o: string)
    requires Private(g, w) && w in a.works && Owns(g, w, o) && Outside(g, a, o)
    ensures var r := DependentPass(g, order, a); w in r.works && Outside(g, r, o) && a.subjects <= r.subjects
    decreases |order|
  {
    if order != [] {
      ExpandSkips(g, a, order[0], w, o);
      DependentPassSkipsObligation(g, order[1..], Expand(g, a, order[0]), w, o);
    }
  }

  lemma EdgePassSkipsObligation(g: Graph, a: Affected, w: string, o: string)
    requires Private(g, w) && Owns(g, w, o) && Outside(g, a, o)
    ensures Outside(g, EdgePass(g.subjectEdges, a), o)
  {
    forall s | IsSubjectOf(g, s, o) ensures s !in EdgePass(g.subjectEdges, a).subjects {
      OutsideHasNone(g, a, o, s);
      assert OnlyThrough(g, w, s);
      EdgePassSkips(g.subjectEdges, a, s);
    }
    EdgePassAdds(g.subjectEdges, a);
  }

  lemma {:induction false} EdgePassAdds(edges: seq<(string, string)>, a: Affected)
    ensures var r := EdgePass(edges, a); a.subjects <= r.subjects && r.obligations == a.obligations && r.works == a.works
    decreases |edges|
  {
    if edges != [] {
      EdgePassAdds(edges[1..], if edges[0].1 in a.subjects then a.(subjects := a.subjects + {edges[0].0}) else a);
    }
  }

  lemma ParentPassSkips(g: Graph, a: Affected, w: string, o: string)
    requires Childless(g, w) && Owns(g, w, o) && Outside(g, a, o)
    ensures Outside(g, ParentPass(g, a), o)
  {
    forall v | v in a.works && v in g.workParents && g.workParents[v].Some? ensures g.workParents[v].value != w {
      assert !ParentOf(g, v, w);
    }
  }

  lemma RoundSkipsObligation(g: Graph, a: Affected, w: string, o: string, p: string)
    requires OwnersIn(g, a) && Childless(g, w) && Private(g, w) && o in g.obligations
    requires Owns(g, w, o) && Touched(g, a, o) && Owns(g, w, p) && Outside(g, a, p)
    ensures Touched(g, Round(g, a), o) && Outside(g, Round(g, a), p)
  {
    var b := EdgePass(g.subjectEdges, a);
    var c := ObligationPass(g, g.obligations, b);
    EdgePassAdds(g.subjectEdges, a);
    EdgePassSkipsObligation(g, a, w, p);
    ObligationPassReaches(g, g.obligations, b, o);
    ObligationPassSkips(g, g.obligations, b, p);
    DependentPassSkipsObligation(g, g.works, c, w, p);
    ParentPassSkips(g, DependentPass(g, g.works, c), w, p);
  }

  lemma {:induction false} CloseSkipsObligation(g: Graph, a: Affected, w: string, o: string, p: string)
    requires Resolved(g) && InGraph(g, a) && OwnersIn(g, a) && Childless(g, w) && Private(g, w)
    requires Owns(g, w, o) && Touched(g, a, o) && Owns(g, w, p) && Outside(g, a, p)
    ensures p !in Close(g, a).obligations
    decreases Missing(g, a)
  {
    RoundGrows(g, a);
    MissingShrinks(g, a, Round(g, a));
    RoundSkipsObligation(g, a, w, o, p);
    RoundOwners(g, a);
    if Round(g, a) != a {
      CloseSkipsObligation(g, Round(g, a), w, o, p);
    }
  }

  /** A childless item touched by the seeds keeps each of its untouched obligations out. */
  lemma UntouchedObligationStaysOut(g: Graph, seeds: set<string>, w: string, o: string, p: string)
    requires Resolved(g) && seeds <= g.subjectIds && Childless(g, w) && Private(g, w)
    requires Owns(g, w, o) && g.obligationSubjects[o] * seeds != {}
    requires Owns(g, w, p) && g.obligationSubjects[p] * seeds == {}
    ensures p !in ImpactOf(g, seeds).obligations
  {
    CloseSkipsObligation(g, Start(seeds), w, o, p);
  }

  // ---- so more changed subjects can affect less ----

  /** The impact of more seeds is not fully closed, and misses something that fewer seeds affect. */
  ghost predicate Shrinks(g: Graph, fewer: set<string>, more: set<string>)
    requires Resolved(g)
  {
    && fewer <= more <= g.subjectIds
    && !FullyClosed(g, ImpactOf(g, more)) && !Within(ImpactOf(g, fewer), ImpactOf(g, more))
  }

  /** The item's subject does not touch another of its obligations, which then stays out. */
  lemma ObligationIsLost(g: Graph, w: string, o: string, p: string, s: string, d: string, od: string, sd: string)
    requires Resolved(g) && Childless(g, w) && Private(g, w) && Reaches(g, w, d, od, sd)
    requires Owns(g, w, o) && IsSubjectOf(g, s, o) && Owns(g, w, p) && !IsSubjectOf(g, s, p)
    ensures Shrinks(g, {sd}, {s, sd})
  {
    BothTouch(g, o, s, od, sd);
    DependentIsExpanded(g, w, d, od, sd);
    SeedsReachOwner(g, {s, sd}, d, od);
    MissesBoth(g, w, p, s, sd);
    UntouchedObligationStaysOut(g, {s, sd}, w, o, p);
  }

  lemma BothTouch(g: Graph, o: string, s: string, od: string, sd: string)
    requires Resolved(g) && IsSubjectOf(g, s, o) && IsSubjectOf(g, sd, od)
    ensures {s, sd} <= g.subjectIds && g.obligationSubjects[o] * {s, sd} != {} && g.obligationSubjects[od] * {s, sd} != {}
  {
    assert s in g.obligationSubjects[o] * {s, sd} && sd in g.obligationSubjects[od] * {s, sd};
  }

  lemma MissesBoth(g: Graph, w: string, p: string, s: string, sd: string)
    requires Resolved(g) && Owns(g, w, p) && !IsSubjectOf(g, s, p) && Apart(g, w, {sd})
    ensures g.obligationSubjects[p] * {s, sd} == {}
  {
    assert !IsSubjectOf(g, sd, p);
  }

  /** The item's subject touches an obligation with a further subject, which then stays out. */
  lemma SubjectIsLost(g: Graph, w: string, o: string, s: string, t: string, d: string, od: string, sd: string)
    requires Resolved(g) && Childless(g, w) && Private(g, w) && Reaches(g, w, d, od, sd)
    requires Owns(g, w, o) && IsSubjectOf(g, s, o) && IsSubjectOf(g, t, o) && s != t && !Composes(g, o)
    ensures Shrinks(g, {sd}, {s, sd})
  {
    BothTouch(g, o, s, od, sd);
    DependentIsExpanded(g, w, d, od, sd);
    assert OnlyThrough(g, w, t);
    TouchedDependentIsLeftOpen(g, {s, sd}, w, o, d, od, t);
    TouchedIsNotExpanded(g, {s, sd}, w, o, t);
  }

  /** The subject touches one of the item's obligations and does not cover another. */
  ghost predicate CoversInPart(g: Graph, w: string, o: string, p: string, s: string)
  {
    Owns(g, w, o) && IsSubjectOf(g, s, o) && Owns(g, w, p) && !Covers(g, s, p)
  }

  lemma NotPlainCoversInPart(g: Graph, w: string) returns (o: string, p: string, s: string)
    requires Childless(g, w) && !Plain(g, w)
    ensures CoversInPart(g, w, o, p, s)
  {
    o, p, s :| Owns(g, w, o) && Owns(g, w, p) && o in g.obligationSubjects && s in g.obligationSubjects[o] && !Covers(g, s, p);
  }

  lemma CoversInPartShrinks(g: Graph, w: string, o: string, p: string, s: string, d: string, od: string, sd: string)
    requires Resolved(g) && Childless(g, w) && Private(g, w) && Reaches(g, w, d, od, sd) && CoversInPart(g, w, o, p, s)
    ensures Shrinks(g, {sd}, {s, sd})
  {
    if IsSubjectOf(g, s, p) {
      var t := FurtherSubject(g.obligationSubjects[p], s);
      SubjectIsLost(g, w, p, s, t, d, od, sd);
    } else {
      ObligationIsLost(g, w, o, p, s, d, od, sd);
    }
  }

  lemma FurtherSubject(subjects: set<string>, s: string) returns (t: string)
    requires s in subjects && subjects != {s}
    ensures t in subjects && t != s
  {
    t :| t in subjects && t != s;
  }

  lemma SeparateReaches(g: Graph, w: string) returns (d: string, od: string, sd: string)
    requires Separate(g) && w in g.workDependencies && g.workDependencies[w] != {}
    ensures Childless(g, w) && Private(g, w) && Reaches(g, w, d, od, sd)
  {
    d, od, sd :| Reaches(g, w, d, od, sd);
  }

  lemma SomeNotPlain(g: Graph) returns (w: string)
    requires !PlainDependents(g)
    ensures w in g.workDependencies && g.workDependencies[w] != {} && !Plain(g, w)
  {
    w :| w in g.workDependencies && g.workDependencies[w] != {} && !Plain(g, w);
  }

  /** On a separate graph an item that is not plain shows, for some seeds, both failures at once. */
  lemma NotPlainShrinks(g: Graph) returns (fewer: set<string>, more: set<string>)
    requires Separate(g) && !PlainDependents(g)
    ensures Shrinks(g, fewer, more)
  {
    var w := SomeNotPlain(g);
    var d, od, sd := SeparateReaches(g, w);
    var o, p, s := NotPlainCoversInPart(g, w);
    CoversInPartShrinks(g, w, o, p, s, d, od, sd);
    fewer, more := {sd}, {s, sd};
  }

  ghost predicate ClosedFor(g: Graph, seeds: set<string>)
    requires Resolved(g)
  {
    seeds <= g.subjectIds ==> FullyClosed(g, ImpactOf(g, seeds))
  }

  ghost predicate GrowsBetween(g: Graph, fewer: set<string>, more: set<string>)
    requires Resolved(g)
  {
    fewer <= more <= g.subjectIds ==> Within(ImpactOf(g, fewer), ImpactOf(g, more))
  }

  /** On a separate graph every impact is fully closed exactly if every item with dependencies is plain. */
  lemma FullClosureExactly(g: Graph)
    requires Separate(g)
    ensures (forall seeds :: ClosedFor(g, seeds)) <==> PlainDependents(g)
  {
    if PlainDependents(g) {
      forall seeds ensures ClosedFor(g, seeds) {
        if seeds <= g.subjectIds {
          PlainImpactIsLeast(g, seeds);
        }
      }
    } else {
      var fewer, more := NotPlainShrinks(g);
      assert !ClosedFor(g, more);
    }
  }

  /** On a separate graph more changed subjects never affect less exactly if every item with dependencies is plain. */
  lemma MonotoneExactly(g: Graph)
    requires Separate(g)
    ensures (forall fewer, more :: GrowsBetween(g, fewer, more)) <==> PlainDependents(g)
  {
    if PlainDependents(g) {
      forall fewer, more ensures GrowsBetween(g, fewer, more) {
        if fewer <= more <= g.subjectIds {
          PlainImpactIsMonotone(g, fewer, more);
        }
      }
    } else {
      var fewer, more := NotPlainShrinks(g);
      assert !GrowsBetween(g, fewer, more);
    }
  }

  // ---- both kinds of separate graph exist ----

  /** Two obligations of one item, with the subjects `s1` and `second`; it depends on an item with the subject `sD`. */
  function Dependent(second: string): Graph
  {
    Graph(
      {"s1", second, "sD"}, [], ["O1", "O2", "OD"],
      map["O1" := {"s1"}, "O2" := {second}, "OD" := {"sD"}],
      map["O1" := "W", "O2" := "W", "OD" := "D"],
      map["O1" := "unit", "O2" := "unit", "OD" := "unit"],
      ["W", "D"], map["W" := {"D"}, "D" := {}], map["W" := None, "D" := None])
  }

  lemma SharedSubjectIsPlain()
    ensures PlainDependents(Dependent("s1"))
  {
    var g := Dependent("s1");
    forall o1, o2, s | Owns(g, "W", o1) && Owns(g, "W", o2) && o1 in g.obligationSubjects && s in g.obligationSubjects[o1]
      ensures Covers(g, s, o2)
    {
      assert o1 in {"O1", "O2"} && o2 in {"O1", "O2"};
    }
  }

  lemma OwnSubjectsAreNotPlain()
    ensures !PlainDependents(Dependent("s2"))
  {
    var g := Dependent("s2");
    assert Owns(g, "W", "O1") && "s1" in g.obligationSubjects["O1"] && Owns(g, "W", "O2") && !Covers(g, "s1", "O2");
    assert !Plain(g, "W");
  }

  lemma DependentIsResolved(second: string)
    ensures Resolved(Dependent(second))
  {
  }

  lemma DependentIsPrivate(second: string)
    requires second != "sD"
    ensures Private(Dependent(second), "W")
  {
    var g := Dependent(second);
    forall o, s | Owns(g, "W", o) && IsSubjectOf(g, s, o) ensures OnlyThrough(g, "W", s) {
      assert s != "sD";
    }
  }

  lemma DependentIsSeparate(second: string)
    requires second != "sD"
    ensures Separate(Dependent(second))
  {
    DependentIsResolved(second);
    DependentIsPrivate(second);
    DependentIsReached(second);
    OneDependentIsSeparate(Dependent(second), "W", "D", "OD", "sD");
  }

  lemma DependentIsReached(second: string)
    requires second != "sD"
    ensures Childless(Dependent(second), "W") && Reaches(Dependent(second), "W", "D", "OD", "sD")
  {
  }

  lemma OneDependentIsSeparate(g: Graph, w: string, d: string, od: string, sd: string)
    requires Resolved(g) && Childless(g, w) && Private(g, w) && Reaches(g, w, d, od, sd)
    requires forall v :: v in g.workDependencies && v != w ==> g.workDependencies[v] == {}
    ensures Separate(g)
  {
  }

  /** With one shared subject the separate graph's dependent is plain, with two subjects it is not. */
  lemma SeparateGraphsDiffer()
    ensures Separate(Dependent("s1")) && PlainDependents(Dependent("s1"))
    ensures Separate(Dependent("s2")) && !PlainDependents(Dependent("s2"))
  {
    DependentIsSeparate("s1");
    SharedSubjectIsPlain();
    DependentIsSeparate("s2");
    OwnSubjectsAreNotPlain();
  }
}
