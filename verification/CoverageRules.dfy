/**
 When coverage records are joined, said of the records themselves: which requirements a channel makes active, that suite,
 run and index answer exactly those, and what each entry of the join says.
 */
module CoverageRules {
  import opened Common
  import opened TextOrder
  import opened Sequences
  import opened CoverageJoin

  // ---- channels and profiles ----

  /** Each channel calls for its own sort of suite: the blind lanes A and B for their own lane, a regression for either. */
  ghost predicate ChannelFollows(c: Records)
  {
    var s, a := c.suite, c.assignment;
    && a.channel == c.run.channel
    && (c.run.channel == Primary ==> s.origin == PrimaryOrigin && s.lane == PrimaryLane && a.kind == PrimaryKind)
    && (c.run.channel == Composition ==> s.origin == PrimaryOrigin && s.lane == PrimaryLane && a.kind == CompositionKind)
    && (c.run.channel == LaneA ==> s.origin == BlindOrigin && s.lane == A && a.kind == BlindFresh)
    && (c.run.channel == LaneB ==> s.origin == BlindOrigin && s.lane == B && a.kind == BlindFresh)
    && (c.run.channel == Regression ==> s.origin == BlindOrigin && (s.lane == A || s.lane == B) && a.kind == BlindRegression)
    && c.run.channel != Unsupported && a.lane == s.lane
    && (s.lane == PrimaryLane ==> s.strategies == [])
    && forall i, j :: 0 <= i < |s.strategies| && 0 <= j < |s.strategies| && s.strategies[i].obligation == s.strategies[j].obligation ==>
         i == j
  }

  /** The objective plans the kind of validation on the channel. */
  ghost predicate Plans(o: Objective, kind: string, channel: Channel)
  {
    exists p :: p in o.profiles && p.kind == kind && channel in p.channels
  }

  ghost predicate Knows(o: Objective, kind: string)
  {
    exists p :: p in o.profiles && p.kind == kind
  }

  /**
   The run exercises this kind of validation for the objective: what is planned on the primary channels, and what the
   suite assigns to the obligation on the others, if it is planned there, or known at all to a regression.
   */
  ghost predicate Exercises(c: Records, o: Objective, kind: string)
  {
    match c.run.channel
    case Primary => Plans(o, kind, Primary)
    case Composition => Plans(o, kind, Composition)
    case LaneA => Strategy(o.obligation, kind) in c.suite.strategies && Plans(o, kind, LaneA)
    case LaneB => Strategy(o.obligation, kind) in c.suite.strategies && Plans(o, kind, LaneB)
    case Regression => Strategy(o.obligation, kind) in c.suite.strategies && Knows(o, kind)
    case Unsupported => false
  }

  /** The requirement applies to something the run exercises. */
  ghost predicate IsActive(c: Records, o: Objective, r: Requirement)
  {
    r in o.requirements && exists kind :: kind in r.profiles && Exercises(c, o, kind)
  }

  // ---- objectives ----

  /** The subjects of an active requirement are listed in order, and each is a target of the objective. */
  ghost predicate RequirementFollows(o: Objective, r: Requirement)
  {
    && r.subjects != []
    && (forall i, j :: 0 <= i < j < |r.subjects| ==> Before(r.subjects[i], r.subjects[j]))
    && forall s :: s in r.subjects ==> exists t :: t in o.targets && t.subject == s
  }

  ghost predicate ObjectiveFollows(c: Records, o: Objective)
  {
    && o.profiles != [] && o.targets != [] && o.requirements != []
    && (forall i, j :: 0 <= i < |o.profiles| && 0 <= j < |o.profiles| && o.profiles[i].kind == o.profiles[j].kind ==> i == j)
    && (forall i, j :: 0 <= i < |o.targets| && 0 <= j < |o.targets| && o.targets[i].subject == o.targets[j].subject ==> i == j)
    && (forall i, j :: 0 <= i < |o.requirements| && 0 <= j < |o.requirements| && o.requirements[i].id == o.requirements[j].id ==>
          i == j)
    && ExercisesSome(c, o)
    && forall r :: IsActive(c, o, r) ==> RequirementFollows(o, r)
  }

  /** No two objectives share an identifier, an obligation or a requirement. */
  ghost predicate ObjectivesFollow(c: Records, os: seq<Objective>)
  {
    && (forall o :: o in os ==> ObjectiveFollows(c, o))
    && forall i, j :: 0 <= i < |os| && 0 <= j < |os| && i != j ==>
         && os[i].id != os[j].id && os[i].obligation != os[j].obligation
         && forall q, r :: q in os[i].requirements && r in os[j].requirements ==> q.id != r.id
  }

  /** The requirement is one of the run's: of some objective, and active. */
  ghost predicate Frozen(c: Records, os: seq<Objective>, o: Objective, r: Requirement)
  {
    o in os && IsActive(c, o, r)
  }

  // ---- identity ----

  ghost predicate HasObligation(os: seq<Objective>, id: string)
  {
    exists o :: o in os && o.obligation == id
  }

  ghost predicate HasStrategy(strategies: seq<Strategy>, id: string)
  {
    exists x :: x in strategies && x.obligation == id
  }

  ghost predicate IdentityFollows(c: Records, os: seq<Objective>)
  {
    var s, a, n := c.suite, c.assignment, c.run;
    && (forall o :: o in os ==> o.contract == s.contract && o.node == s.node)
    && a.contract == s.contract && a.node == s.node && n.contract == s.contract && n.node == s.node
    && (forall id :: id in s.objectiveIds <==> exists o :: o in os && o.id == id)
    && (forall hash :: hash in s.objectiveHashes <==> exists o :: o in os && o.hash == hash)
    && (forall id :: id in n.obligationIds <==> HasObligation(os, id))
    && a.objectiveIds == s.objectiveIds && a.objectiveHashes == s.objectiveHashes && n.objectiveHashes == s.objectiveHashes
    && a.suiteHash == s.hash && n.suiteHash == s.hash && n.assignmentHash == a.hash && n.indexHash == c.current.indexHash
    && (n.channel == LaneA || n.channel == LaneB || n.channel == Regression ==>
          forall id :: HasStrategy(s.strategies, id) <==> HasObligation(os, id))
  }

  // ---- suite, results and entries ----

  /** One binding for each frozen requirement and no other, with its subjects and one of its objective's tools. */
  ghost predicate SuiteFollows(c: Records, os: seq<Objective>)
  {
    var bs := c.suite.bindings;
    && (forall i, j :: 0 <= i < |bs| && 0 <= j < |bs| && bs[i].requirement == bs[j].requirement ==> i == j)
    && (forall o, r :: Frozen(c, os, o, r) ==> HasBinding(c, r))
    && forall b :: b in bs ==> BindsFrozen(c, os, b)
  }

  ghost predicate HasBinding(c: Records, r: Requirement)
  {
    exists b :: b in c.suite.bindings && b.requirement == r.id
  }

  ghost predicate BindsFrozen(c: Records, os: seq<Objective>, b: SuiteBinding)
  {
    exists o, r :: Frozen(c, os, o, r) && r.id == b.requirement && b.subjects == r.subjects && b.tool in o.tools
  }

  /** One result for each frozen requirement and subject of it, and no other. */
  ghost predicate ResultsFollow(c: Records, os: seq<Objective>)
  {
    var rs := c.run.results;
    && (forall i, j :: 0 <= i < |rs| && 0 <= j < |rs| && rs[i].requirement == rs[j].requirement && rs[i].subject == rs[j].subject ==>
          i == j)
    && (forall o, r, s :: Frozen(c, os, o, r) && s in r.subjects ==> HasResult(c, r, s))
    && forall e :: e in rs ==> MeasuresFrozen(c, os, e)
  }

  ghost predicate HasResult(c: Records, r: Requirement, s: string)
  {
    exists e :: e in c.run.results && e.requirement == r.id && e.subject == s
  }

  ghost predicate MeasuresFrozen(c: Records, os: seq<Objective>, e: Measured)
  {
    exists o, r :: Frozen(c, os, o, r) && r.id == e.requirement && e.subject in r.subjects
  }

  /** The records that meet in one entry. */
  ghost predicate Meets(
      c: Records, os: seq<Objective>, o: Objective, r: Requirement, t: Target, b: SuiteBinding, e: Measured)
  {
    && Frozen(c, os, o, r) && t.subject in r.subjects && t in o.targets
    && b in c.suite.bindings && b.requirement == r.id
    && e in c.run.results && e.requirement == r.id && e.subject == t.subject
  }

  /** Where they meet, the subject is bound where the objective says, and result, index and parser are the current ones. */
  ghost predicate MeasuredFollows(c: Records, t: Target, b: SuiteBinding, e: Measured)
  {
    && t.subject in c.current.bindings
    && c.current.bindings[t.subject].path == t.path && c.current.bindings[t.subject].symbol == t.symbol
    && c.current.bindings[t.subject].sourceHash == e.sourceHash
    && e.indexHash == c.current.indexHash && e.parserHash == b.parserHash
    && e.reported in {Satisfied, Violated, Inconclusive, Error}
    && (e.fraction.Some? ==> InUnit(e.fraction.value))
  }

  ghost predicate MeasuredFollow(c: Records, os: seq<Objective>)
  {
    forall o, r, t, b, e :: Meets(c, os, o, r, t, b, e) ==> MeasuredFollows(c, t, b, e)
  }

  /** What the entry says: every field comes from the record that states it. */
  predicate Says(c: Records, o: Objective, r: Requirement, t: Target, b: SuiteBinding, e: Measured, entry: Entry)
  {
    && entry.objective == o.id && entry.objectiveHash == o.hash && entry.obligation == o.obligation
    && entry.requirement == r.id && entry.kind == r.kind && entry.target == r.target
    && entry.subject == t.subject && entry.path == t.path && entry.symbol == t.symbol
    && entry.sourceHash == e.sourceHash && entry.indexHash == c.current.indexHash
    && entry.tool == b.tool && entry.format == b.format && entry.parserId == b.parserId && entry.parserHash == b.parserHash
    && entry.artifactHash == e.artifactHash && entry.reported == e.reported && entry.fraction == e.fraction
    && entry.reached == e.reached
  }

  // ---- profiles ----

  lemma {:induction false} AssignedIs(strategies: seq<Strategy>, obligation: string, profile: string)
    requires DistinctStrategies(strategies)
    ensures Assigned(strategies, obligation) == Some(profile) <==> Strategy(obligation, profile) in strategies
  {
    if strategies != [] {
      var before, last := strategies[..|strategies| - 1], strategies[|strategies| - 1];
      AssignedIs(before, obligation, profile);
      assert forall s :: s in strategies <==> s in before || s == last;
    }
  }

  lemma ChannelIs(c: Records)
    ensures SuiteFits(c) <==> ChannelFollows(c)
  {
  }

  lemma KindsAre(o: Objective, channel: Channel, kind: string)
    ensures kind in KindsOn(o.profiles, channel) <==> Plans(o, kind, channel)
    ensures kind in Kinds(o.profiles) <==> Knows(o, kind)
  {
  }

  ghost predicate ExercisesSome(c: Records, o: Objective)
  {
    exists kind :: Exercises(c, o, kind)
  }

  /** The active kinds are those the run exercises. */
  lemma ActiveKinds(c: Records, o: Objective, kind: string)
    requires o.profiles != [] && DistinctKinds(o.profiles) && SuiteFits(c)
    ensures Active(c, o).Some? && kind in Active(c, o).value <==> Exercises(c, o, kind)
  {
    KindsAre(o, c.run.channel, kind);
    AssignedIs(c.suite.strategies, o.obligation, kind);
  }

  lemma ActiveIs(c: Records, o: Objective)
    ensures Active(c, o).Some? <==> o.profiles != [] && DistinctKinds(o.profiles) && SuiteFits(c) && ExercisesSome(c, o)
    ensures Active(c, o).Some? ==> forall kind :: kind in Active(c, o).value <==> Exercises(c, o, kind)
  {
    if o.profiles != [] && DistinctKinds(o.profiles) && SuiteFits(c) {
      forall kind ensures Active(c, o).Some? && kind in Active(c, o).value <==> Exercises(c, o, kind) {
        ActiveKinds(c, o, kind);
      }
      if Active(c, o).Some? {
        var kind :| kind in Active(c, o).value;
        assert Exercises(c, o, kind);
      }
    }
  }

  // ---- requirements ----

  lemma RequirementIs(c: Records, o: Objective, r: Requirement)
    requires Active(c, o).Some? && r in o.requirements
    ensures r.profiles * Active(c, o).value != {} <==> IsActive(c, o, r)
    ensures RequirementOk(o, Active(c, o).value, r) <==> (IsActive(c, o, r) ==> RequirementFollows(o, r))
  {
    ActiveIs(c, o);
    var shared := r.profiles * Active(c, o).value;
    if shared != {} {
      var kind :| kind in shared;
      assert kind in r.profiles && Exercises(c, o, kind);
    }
    if kind :| kind in r.profiles && Exercises(c, o, kind) {
      assert kind in shared;
    }
    forall s ensures s in Subjects(o.targets) <==> exists t :: t in o.targets && t.subject == s {
    }
  }

  lemma ObjectiveIs(c: Records, o: Objective)
    requires SuiteFits(c)
    ensures ObjectiveOk(c, o) <==> ObjectiveFollows(c, o)
  {
    ActiveIs(c, o);
    if Active(c, o).Some? {
      forall r | r in o.requirements
        ensures RequirementOk(o, Active(c, o).value, r) <==> (IsActive(c, o, r) ==> RequirementFollows(o, r))
      {
        RequirementIs(c, o, r);
      }
      if ObjectiveFollows(c, o) {
        forall i | 0 <= i < |o.requirements| ensures RequirementOk(o, Active(c, o).value, o.requirements[i]) {
          assert o.requirements[i] in o.requirements;
        }
      }
    }
  }

  lemma ApartIs(os: seq<Objective>, i: int, j: int)
    requires 0 <= i < |os| && 0 <= j < |os|
    ensures Apart(os[i], os[j]) <==>
      && os[i].id != os[j].id && os[i].obligation != os[j].obligation
      && forall q, r :: q in os[i].requirements && r in os[j].requirements ==> q.id != r.id
  {
    var a, b := RequirementIds(os[i].requirements), RequirementIds(os[j].requirements);
    if a !! b {
      forall q, r | q in os[i].requirements && r in os[j].requirements ensures q.id != r.id {
        assert q.id in a && r.id in b;
      }
    }
  }

  lemma ObjectivesAre(c: Records, os: seq<Objective>)
    requires SuiteFits(c)
    ensures ObjectivesOk(c, os) <==> ObjectivesFollow(c, os)
  {
    forall o ensures ObjectiveOk(c, o) <==> ObjectiveFollows(c, o) {
      ObjectiveIs(c, o);
    }
    forall i, j | 0 <= i < |os| && 0 <= j < |os|
      ensures Apart(os[i], os[j]) <==>
        && os[i].id != os[j].id && os[i].obligation != os[j].obligation
        && forall q, r :: q in os[i].requirements && r in os[j].requirements ==> q.id != r.id
    {
      ApartIs(os, i, j);
    }
    if ObjectivesOk(c, os) {
      forall i, j | 0 <= i < |os| && 0 <= j < |os| && i != j ensures Apart(os[i], os[j]) {
        assert i < j ==> Apart(os[i], os[j]);
        assert j < i ==> Apart(os[j], os[i]);
      }
    }
  }

  // ---- frozen requirements ----

  lemma {:induction false} ActiveRequirementsAre(o: Objective, active: set<string>, rs: seq<Requirement>)
    requires DistinctRequirements(rs)
    ensures forall r :: r in rs && r.profiles * active != {} ==>
      r.id in ActiveRequirements(o, active, rs) && ActiveRequirements(o, active, rs)[r.id] == ExpectedFrom(o, r)
    ensures forall id :: id in ActiveRequirements(o, active, rs) ==>
      exists r :: r in rs && r.profiles * active != {} && r.id == id
  {
    if rs != [] {
      var before, last := rs[..|rs| - 1], rs[|rs| - 1];
      ActiveRequirementsAre(o, active, before);
      assert forall r :: r in rs <==> r in before || r == last;
      forall r | r in before ensures r.id != last.id {
        var i :| 0 <= i < |before| && before[i] == r;
        assert rs[i].id != rs[|rs| - 1].id;
      }
    }
  }

  lemma OwnAre(c: Records, o: Objective)
    requires ObjectiveOk(c, o)
    ensures forall r :: IsActive(c, o, r) ==> r.id in OwnExpected(c, o) && OwnExpected(c, o)[r.id] == ExpectedFrom(o, r)
    ensures forall id :: id in OwnExpected(c, o) ==> exists r :: IsActive(c, o, r) && r.id == id
  {
    var active := Active(c, o).value;
    ActiveRequirementsAre(o, active, o.requirements);
    forall r | r in o.requirements ensures r.profiles * active != {} <==> IsActive(c, o, r) {
      RequirementIs(c, o, r);
    }
  }

  /** The expected requirements are the frozen ones, each under its identifier. */
  lemma FrozenIsExpected(c: Records, os: seq<Objective>, o: Objective, r: Requirement)
    requires ObjectivesOk(c, os) && Frozen(c, os, o, r)
    ensures r.id in AllExpected(c, os) && AllExpected(c, os)[r.id] == ExpectedFrom(o, r)
  {
    AllExpectedHas(c, os);
    OwnAre(c, o);
    assert HoldsOwn(c, o, AllExpected(c, os));
  }

  lemma ExpectedIsFrozen(c: Records, os: seq<Objective>, id: string) returns (o: Objective, r: Requirement)
    requires ObjectivesOk(c, os) && id in AllExpected(c, os)
    ensures Frozen(c, os, o, r) && r.id == id && AllExpected(c, os)[id] == ExpectedFrom(o, r)
  {
    AllExpectedHas(c, os);
    assert ExpectedBySome(c, os, id);
    o :| o in os && id in OwnExpected(c, o);
    OwnAre(c, o);
    r :| IsActive(c, o, r) && r.id == id;
    FrozenIsExpected(c, os, o, r);
  }

  ghost predicate SomeFrozen(c: Records, os: seq<Objective>)
  {
    exists o, r :: Frozen(c, os, o, r)
  }

  lemma SomeExpected(c: Records, os: seq<Objective>)
    requires ObjectivesOk(c, os)
    ensures AllExpected(c, os) != map[] <==> SomeFrozen(c, os)
  {
    if AllExpected(c, os) != map[] {
      var id :| id in AllExpected(c, os);
      var o, r := ExpectedIsFrozen(c, os, id);
    }
    if o, r :| Frozen(c, os, o, r) {
      FrozenIsExpected(c, os, o, r);
    }
  }

  // ---- identity, suite and results ----

  lemma IdentityIs(c: Records, os: seq<Objective>)
    requires DistinctStrategies(c.suite.strategies)
    ensures Identified(c, os) <==> IdentityFollows(c, os)
  {
    var ids := set s | s in c.suite.strategies :: s.obligation;
    forall id ensures id in ids <==> HasStrategy(c.suite.strategies, id) {
    }
    forall id ensures id in ObligationsOf(os) <==> HasObligation(os, id) {
    }
    forall id ensures id in Elements(c.run.obligationIds) <==> id in c.run.obligationIds {
    }
    SameElements(c.suite.objectiveIds, Ids(os));
    SameElements(c.suite.objectiveHashes, HashesOf(os));
    SameElements(c.run.obligationIds, ObligationsOf(os));
    SameSets(ids, ObligationsOf(os));
  }

  lemma SameElements(s: seq<string>, t: set<string>)
    ensures Elements(s) == t <==> forall x :: x in s <==> x in t
  {
    SameSets(Elements(s), t);
  }

  lemma SameSets(s: set<string>, t: set<string>)
    ensures s == t <==> forall x :: x in s <==> x in t
  {
  }

  lemma SuiteIs(c: Records, os: seq<Objective>)
    requires ObjectivesOk(c, os)
    ensures SuiteOk(AllExpected(c, os), c.suite.bindings) <==> SuiteFollows(c, os)
  {
    var m, bs := AllExpected(c, os), c.suite.bindings;
    if SuiteOk(m, bs) {
      SuiteOkFollows(c, os);
    }
    if SuiteFollows(c, os) {
      SuiteFollowsOk(c, os);
    }
  }

  lemma SuiteOkFollows(c: Records, os: seq<Objective>)
    requires ObjectivesOk(c, os) && SuiteOk(AllExpected(c, os), c.suite.bindings)
    ensures SuiteFollows(c, os)
  {
    var m, bs := AllExpected(c, os), c.suite.bindings;
    forall o, r | Frozen(c, os, o, r) ensures HasBinding(c, r) {
      FrozenIsExpected(c, os, o, r);
      assert r.id in set b | b in bs :: b.requirement;
    }
    forall b | b in bs ensures BindsFrozen(c, os, b) {
      var i :| 0 <= i < |bs| && bs[i] == b;
      assert SuiteBindingOk(m, bs[i]);
      var o, r := ExpectedIsFrozen(c, os, b.requirement);
    }
  }

  lemma BindingFollows(c: Records, os: seq<Objective>, b: SuiteBinding)
    requires ObjectivesOk(c, os) && BindsFrozen(c, os, b)
    ensures SuiteBindingOk(AllExpected(c, os), b)
  {
    var o, r :| Frozen(c, os, o, r) && r.id == b.requirement && b.subjects == r.subjects && b.tool in o.tools;
    FrozenIsExpected(c, os, o, r);
  }

  lemma ExpectedIsBound(c: Records, os: seq<Objective>, id: string)
    requires ObjectivesOk(c, os) && SuiteFollows(c, os) && id in AllExpected(c, os)
    ensures id in set b | b in c.suite.bindings :: b.requirement
  {
    var o, r := ExpectedIsFrozen(c, os, id);
    assert HasBinding(c, r);
  }

  lemma SuiteIsOk(m: map<string, Expected>, bs: seq<SuiteBinding>)
    requires DistinctSuiteBindings(bs) && forall b :: b in bs ==> SuiteBindingOk(m, b)
    requires forall id :: id in m ==> id in set b | b in bs :: b.requirement
    ensures SuiteOk(m, bs)
  {
    var bound := set b | b in bs :: b.requirement;
    assert forall id :: id in bound <==> id in m.Keys;
  }

  lemma SuiteFollowsOk(c: Records, os: seq<Objective>)
    requires ObjectivesOk(c, os) && SuiteFollows(c, os)
    ensures SuiteOk(AllExpected(c, os), c.suite.bindings)
  {
    forall b | b in c.suite.bindings ensures SuiteBindingOk(AllExpected(c, os), b) {
      BindingFollows(c, os, b);
    }
    forall id | id in AllExpected(c, os) ensures id in set b | b in c.suite.bindings :: b.requirement {
      ExpectedIsBound(c, os, id);
    }
    SuiteIsOk(AllExpected(c, os), c.suite.bindings);
  }

  lemma PairIsFrozen(c: Records, os: seq<Objective>, id: string, s: string) returns (o: Objective, r: Requirement)
    requires ObjectivesOk(c, os) && (id, s) in Pairs(AllExpected(c, os))
    ensures Frozen(c, os, o, r) && r.id == id && s in r.subjects && AllExpected(c, os)[id] == ExpectedFrom(o, r)
  {
    o, r := ExpectedIsFrozen(c, os, id);
  }

  lemma FrozenIsPair(c: Records, os: seq<Objective>, o: Objective, r: Requirement, s: string)
    requires ObjectivesOk(c, os) && Frozen(c, os, o, r) && s in r.subjects
    ensures (r.id, s) in Pairs(AllExpected(c, os)) && AllExpected(c, os)[r.id] == ExpectedFrom(o, r)
  {
    FrozenIsExpected(c, os, o, r);
  }

  lemma ResultsAre(c: Records, os: seq<Objective>)
    requires ObjectivesOk(c, os)
    ensures ResultsOk(AllExpected(c, os), c.run.results) <==> ResultsFollow(c, os)
  {
    if ResultsOk(AllExpected(c, os), c.run.results) {
      ResultsOkFollow(c, os);
    }
    if ResultsFollow(c, os) {
      ResultsFollowOk(c, os);
    }
  }

  lemma ResultsOkFollow(c: Records, os: seq<Objective>)
    requires ObjectivesOk(c, os) && ResultsOk(AllExpected(c, os), c.run.results)
    ensures ResultsFollow(c, os)
  {
    var m, rs := AllExpected(c, os), c.run.results;
    forall i, j | 0 <= i < |rs| && 0 <= j < |rs| && rs[i].requirement == rs[j].requirement && rs[i].subject == rs[j].subject
      ensures i == j
    {
      assert i < j ==> Separate(rs[i], rs[j]);
      assert j < i ==> Separate(rs[j], rs[i]);
    }
    forall o, r, s | Frozen(c, os, o, r) && s in r.subjects
      ensures HasResult(c, r, s)
    {
      FrozenIsPair(c, os, o, r, s);
      var e :| e in rs && Key(e) == (r.id, s);
    }
    forall e | e in rs ensures MeasuresFrozen(c, os, e) {
      assert Key(e) in Pairs(m);
      var o, r := PairIsFrozen(c, os, e.requirement, e.subject);
    }
  }

  lemma PairIsMeasured(c: Records, os: seq<Objective>, p: Pair)
    requires ObjectivesOk(c, os) && ResultsFollow(c, os) && p in Pairs(AllExpected(c, os))
    ensures exists e :: e in c.run.results && Key(e) == p
  {
    assert p == (p.0, p.1);
    var o, r := PairIsFrozen(c, os, p.0, p.1);
    assert HasResult(c, r, p.1);
    var e :| e in c.run.results && e.requirement == r.id && e.subject == p.1;
    assert Key(e) == p;
  }

  lemma MeasuredIsPair(c: Records, os: seq<Objective>, e: Measured)
    requires ObjectivesOk(c, os) && MeasuresFrozen(c, os, e)
    ensures Key(e) in Pairs(AllExpected(c, os))
  {
    var o, r :| Frozen(c, os, o, r) && r.id == e.requirement && e.subject in r.subjects;
    FrozenIsPair(c, os, o, r, e.subject);
  }

  lemma ResultsFollowOk(c: Records, os: seq<Objective>)
    requires ObjectivesOk(c, os) && ResultsFollow(c, os)
    ensures ResultsOk(AllExpected(c, os), c.run.results)
  {
    forall p | p in Pairs(AllExpected(c, os)) ensures exists e :: e in c.run.results && Key(e) == p {
      PairIsMeasured(c, os, p);
    }
    forall e | e in c.run.results ensures Key(e) in Pairs(AllExpected(c, os)) {
      MeasuredIsPair(c, os, e);
    }
    assert Pairwise(c.run.results, Separate);
  }

  // ---- entries ----

  lemma {:induction false} TargetIs(targets: seq<Target>, t: Target)
    requires DistinctTargets(targets) && t in targets
    ensures TargetFor(targets, t.subject) == Some(t)
  {
    var before, last := targets[..|targets| - 1], targets[|targets| - 1];
    if t != last {
      var i :| 0 <= i < |targets| && targets[i] == t;
      assert before[i] == t;
      assert targets[i].subject != targets[|targets| - 1].subject;
      TargetIs(before, t);
    }
  }

  lemma {:induction false} BindingIs(bindings: seq<SuiteBinding>, b: SuiteBinding)
    requires DistinctSuiteBindings(bindings) && b in bindings
    ensures BindingFor(bindings, b.requirement) == Some(b)
  {
    var before, last := bindings[..|bindings| - 1], bindings[|bindings| - 1];
    if b != last {
      var i :| 0 <= i < |bindings| && bindings[i] == b;
      assert before[i] == b;
      assert bindings[i].requirement != bindings[|bindings| - 1].requirement;
      BindingIs(before, b);
    }
  }

  lemma ResultIs(results: seq<Measured>, e: Measured)
    requires Pairwise(results, Separate) && e in results
    ensures ResultFor(results, Key(e)) == Some(e)
  {
    ResultForFinds(results, Key(e));
    var f := ResultFor(results, Key(e)).value;
    var i :| 0 <= i < |results| && results[i] == e;
    var j :| 0 <= j < |results| && results[j] == f;
    assert i < j ==> Separate(results[i], results[j]);
    assert j < i ==> Separate(results[j], results[i]);
  }

  ghost predicate Prepared(c: Records, os: seq<Objective>)
  {
    && ObjectivesOk(c, os) && SuiteOk(AllExpected(c, os), c.suite.bindings)
    && ResultsOk(AllExpected(c, os), c.run.results)
  }

  /** What is looked up for a pair is what meets there. */
  lemma MeetingIsFound(
      c: Records, os: seq<Objective>, o: Objective, r: Requirement, t: Target, b: SuiteBinding, e: Measured)
    requires Prepared(c, os) && Meets(c, os, o, r, t, b, e)
    ensures var m, p := AllExpected(c, os), (r.id, t.subject);
      && p in Pairs(m) && m[p.0] == ExpectedFrom(o, r) && TargetFor(m[p.0].targets, p.1) == Some(t)
      && BindingFor(c.suite.bindings, p.0) == Some(b) && ResultFor(c.run.results, p) == Some(e)
  {
    FrozenIsPair(c, os, o, r, t.subject);
    assert ObjectiveOk(c, o);
    TargetIs(o.targets, t);
    BindingIs(c.suite.bindings, b);
    ResultIs(c.run.results, e);
  }

  lemma PairMeets(c: Records, os: seq<Objective>, p: Pair)
    returns (o: Objective, r: Requirement, t: Target, b: SuiteBinding, e: Measured)
    requires Prepared(c, os) && SuiteFits(c) && p in Pairs(AllExpected(c, os))
    ensures Meets(c, os, o, r, t, b, e) && p == (r.id, t.subject)
  {
    assert p == (p.0, p.1);
    o, r := PairIsFrozen(c, os, p.0, p.1);
    ObjectiveIs(c, o);
    assert RequirementFollows(o, r);
    t :| t in o.targets && t.subject == p.1;
    b, e := FrozenMeets(c, os, o, r, p.1);
  }

  lemma FrozenMeets(c: Records, os: seq<Objective>, o: Objective, r: Requirement, s: string)
    returns (b: SuiteBinding, e: Measured)
    requires Prepared(c, os) && Frozen(c, os, o, r) && s in r.subjects
    ensures b in c.suite.bindings && b.requirement == r.id
    ensures e in c.run.results && e.requirement == r.id && e.subject == s
  {
    SuiteOkFollows(c, os);
    assert HasBinding(c, r);
    b :| b in c.suite.bindings && b.requirement == r.id;
    ResultsOkFollow(c, os);
    assert HasResult(c, r, s);
    e :| e in c.run.results && e.requirement == r.id && e.subject == s;
  }

  lemma EntryIs(c: Records, os: seq<Objective>, o: Objective, r: Requirement, t: Target, b: SuiteBinding, e: Measured)
    requires Prepared(c, os) && Meets(c, os, o, r, t, b, e)
    ensures EntryOk(c, AllExpected(c, os), (r.id, t.subject)) <==> MeasuredFollows(c, t, b, e)
    ensures MeasuredFollows(c, t, b, e) ==> Says(c, o, r, t, b, e, EntryOf(c, AllExpected(c, os), (r.id, t.subject)))
  {
    MeetingIsFound(c, os, o, r, t, b, e);
  }

  lemma EntriesAreMeasured(c: Records, os: seq<Objective>)
    requires Prepared(c, os) && SuiteFits(c)
    ensures (forall p :: p in Pairs(AllExpected(c, os)) ==> EntryOk(c, AllExpected(c, os), p)) <==> MeasuredFollow(c, os)
  {
    if forall p :: p in Pairs(AllExpected(c, os)) ==> EntryOk(c, AllExpected(c, os), p) {
      forall o, r, t, b, e | Meets(c, os, o, r, t, b, e) ensures MeasuredFollows(c, t, b, e) {
        MeetingIsFound(c, os, o, r, t, b, e);
        EntryIs(c, os, o, r, t, b, e);
      }
    }
    if MeasuredFollow(c, os) {
      forall p | p in Pairs(AllExpected(c, os)) ensures EntryOk(c, AllExpected(c, os), p) {
        var o, r, t, b, e := PairMeets(c, os, p);
        EntryIs(c, os, o, r, t, b, e);
      }
    }
  }

  /**
   Records are joined exactly if the suite is of the channel's sort, the objectives are in order and freeze some
   requirement, all records are of one contract, node, suite and index, suite and run answer exactly the frozen
   requirements and subjects, and what is measured is current.
   */
  lemma AcceptableExactly(c: Records, os: seq<Objective>)
    ensures Acceptable(c, os) <==>
      && os != [] && ChannelFollows(c) && ObjectivesFollow(c, os) && SomeFrozen(c, os) && IdentityFollows(c, os)
      && SuiteFollows(c, os) && ResultsFollow(c, os) && MeasuredFollow(c, os)
  {
    ChannelIs(c);
    if os != [] && ObjectivesOk(c, os) {
      assert ObjectiveOk(c, os[0]);
      ActiveIs(c, os[0]);
    }
    if SuiteFits(c) {
      ObjectivesAre(c, os);
      if ObjectivesOk(c, os) {
        SomeExpected(c, os);
        IdentityIs(c, os);
        SuiteIs(c, os);
        ResultsAre(c, os);
        if SuiteFollows(c, os) && ResultsFollow(c, os) {
          EntriesAreMeasured(c, os);
        }
      }
    }
  }

  /** Wherever a frozen requirement, a target, a binding and a result meet, one entry of the join says exactly that. */
  lemma EntriesSayWhatMeets(
      c: Records, os: seq<Objective>, entries: seq<Entry>, o: Objective, r: Requirement, t: Target, b: SuiteBinding, e: Measured)
    returns (at: nat)
    requires Acceptable(c, os) && EntriesAre(c, AllExpected(c, os), entries) && Meets(c, os, o, r, t, b, e)
    ensures at < |entries| && Says(c, o, r, t, b, e, entries[at])
    ensures forall i :: 0 <= i < |entries| && i != at ==> entries[i].requirement != r.id || entries[i].subject != t.subject
  {
    var m := AllExpected(c, os);
    MeetingIsFound(c, os, o, r, t, b, e);
    at := OneEntryPerPair(c, m, entries, (r.id, t.subject));
    var order :| EntriesIn(c, m, entries, order);
    assert PairOf(entries[at]) == order[at];
    EntryIs(c, os, o, r, t, b, e);
    forall i | 0 <= i < |entries| && i != at ensures entries[i].requirement != r.id || entries[i].subject != t.subject {
      assert PairOf(entries[i]) != (r.id, t.subject);
    }
  }

  /** And every entry is about such a meeting. */
  lemma EntriesMeet(c: Records, os: seq<Objective>, entries: seq<Entry>, at: nat)
    returns (o: Objective, r: Requirement, t: Target, b: SuiteBinding, e: Measured)
    requires Acceptable(c, os) && EntriesAre(c, AllExpected(c, os), entries) && at < |entries|
    ensures Meets(c, os, o, r, t, b, e) && Says(c, o, r, t, b, e, entries[at])
  {
    var m := AllExpected(c, os);
    var order :| EntriesIn(c, m, entries, order);
    assert order[at] in order;
    assert ObjectiveOk(c, os[0]);
    ActiveIs(c, os[0]);
    o, r, t, b, e := PairMeets(c, os, order[at]);
    EntryIs(c, os, o, r, t, b, e);
  }

  /** The entries are in order of requirements, and those of one requirement in order of subjects. */
  lemma EntriesAreSorted(c: Records, m: map<string, CoverageJoin.Expected>, entries: seq<Entry>, i: nat, j: nat)
    requires EntriesAre(c, m, entries) && i < j < |entries|
    ensures || (exists k: nat :: SmallerAt(entries[i].requirement, entries[j].requirement, k))
            || (entries[i].requirement == entries[j].requirement
                && exists k: nat :: SmallerAt(entries[i].subject, entries[j].subject, k))
  {
    var order :| EntriesIn(c, m, entries, order);
    assert PairOf(entries[i]) == order[i] && PairOf(entries[j]) == order[j];
    assert PairBefore(order[i], order[j]);
    BeforeMeans(entries[i].requirement, entries[j].requirement);
    BeforeMeans(entries[i].subject, entries[j].subject);
  }
}
