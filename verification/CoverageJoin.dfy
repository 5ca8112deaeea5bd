/**
 The join of raw coverage results to the frozen requirements of objectives and the current index.
 Records have passed their shape checks: texts are non-empty, digests well formed, listed names distinct.
 */
module CoverageJoin {
  import opened Common
  import opened TextOrder
  import opened Sequences
  import opened JsonText

  datatype Channel = Primary | Composition | LaneA | LaneB | Regression | Unsupported

  datatype Profile = Profile(kind: string, channels: set<Channel>)

  datatype Requirement = Requirement(
    id: string, kind: string, target: string, profiles: set<string>, subjects: seq<string>)

  datatype Target = Target(subject: string, path: string, symbol: string)

  datatype Objective = Objective(
    id: string, hash: string, obligation: string, contract: string, node: string,
    profiles: seq<Profile>, targets: seq<Target>, tools: set<string>, requirements: seq<Requirement>)

  datatype Strategy = Strategy(obligation: string, profile: string)

  datatype SuiteBinding = SuiteBinding(
    requirement: string, subjects: seq<string>, tool: string, format: string, parserId: string, parserHash: string)

  datatype Origin = PrimaryOrigin | BlindOrigin | OtherOrigin

  datatype Lane = PrimaryLane | A | B | OtherLane

  datatype AssignmentKind = PrimaryKind | CompositionKind | BlindFresh | BlindRegression | OtherKind

  datatype Suite = Suite(
    hash: string, contract: string, node: string, origin: Origin, lane: Lane,
    objectiveIds: seq<string>, objectiveHashes: seq<string>, strategies: seq<Strategy>, bindings: seq<SuiteBinding>)

  datatype Assignment = Assignment(
    hash: string, suiteHash: string, contract: string, node: string, kind: AssignmentKind, channel: Channel,
    lane: Lane, objectiveIds: seq<string>, objectiveHashes: seq<string>)

  datatype Reported = Satisfied | Violated | Inconclusive | Error | OtherResult

  datatype Measured = Measured(
    requirement: string, subject: string, sourceHash: string, indexHash: string, parserHash: string,
    artifactHash: string, reported: Reported, fraction: Option<Float>, reached: Option<string>)

  datatype Run = Run(
    hash: string, suiteHash: string, assignmentHash: string, contract: string, node: string, channel: Channel,
    indexHash: string, objectiveHashes: seq<string>, obligationIds: seq<string>, results: seq<Measured>)

  datatype Bound = Bound(path: string, symbol: string, sourceHash: string)

  /** The active admission, its index, and where each subject is bound in it. */
  datatype Current = Current(admission: string, indexHash: string, bindings: map<string, Bound>)

  /** Everything but the objectives. */
  datatype Records = Records(suite: Suite, assignment: Assignment, run: Run, current: Current)

  type Pair = (string, string)

  datatype Entry = Entry(
    objective: string, objectiveHash: string, obligation: string, requirement: string, kind: string, target: string,
    subject: string, path: string, symbol: string, sourceHash: string, indexHash: string, tool: string,
    format: string, artifactHash: string, parserId: string, parserHash: string, reported: Reported,
    fraction: Option<Float>, reached: Option<string>)

  datatype Joined = Joined(
    admission: string, indexHash: string, contract: string, node: string, channel: Channel, suiteHash: string,
    assignmentHash: string, runHash: string, entries: seq<Entry>)

  // ---- active profiles ----

  predicate DistinctKinds(profiles: seq<Profile>)
  {
    forall i, j :: 0 <= i < j < |profiles| ==> profiles[i].kind != profiles[j].kind
  }

  function Kinds(profiles: seq<Profile>): set<string>
  {
    set p | p in profiles :: p.kind
  }

  function KindsOn(profiles: seq<Profile>, channel: Channel): set<string>
  {
    set p | p in profiles && channel in p.channels :: p.kind
  }

  predicate DistinctStrategies(strategies: seq<Strategy>)
  {
    forall i, j :: 0 <= i < j < |strategies| ==> strategies[i].obligation != strategies[j].obligation
  }

  /** The profile the suite assigns to an obligation. */
  function Assigned(strategies: seq<Strategy>, obligation: string): Option<string>
  {
    if strategies == [] then None
    else if strategies[|strategies| - 1].obligation == obligation then Some(strategies[|strategies| - 1].profile)
    else Assigned(strategies[..|strategies| - 1], obligation)
  }

  function LaneOf(channel: Channel): Lane
  {
    match channel case LaneA => A case LaneB => B case _ => OtherLane
  }

  /** The suite and its assignment are of the sort the channel calls for. */
  predicate SuiteFits(c: Records)
  {
    var s, a, channel := c.suite, c.assignment, c.run.channel;
    && a.channel == channel && DistinctStrategies(s.strategies)
    && match channel
       case Primary =>
         s.origin == PrimaryOrigin && s.lane == PrimaryLane && a.kind == PrimaryKind && a.lane == PrimaryLane
         && s.strategies == []
       case Composition =>
         s.origin == PrimaryOrigin && s.lane == PrimaryLane && a.kind == CompositionKind && a.lane == PrimaryLane
         && s.strategies == []
       case Regression =>
         s.origin == BlindOrigin && s.lane in {A, B} && a.kind == BlindRegression && a.lane == s.lane
       case Unsupported => false
       case _ =>
         s.origin == BlindOrigin && s.lane == LaneOf(channel) && a.kind == BlindFresh && a.lane == LaneOf(channel)
  }

  /** `_active_profiles`: the kinds of validation the run's channel exercises for an objective. */
  function Active(c: Records, o: Objective): (r: Option<set<string>>)
    ensures r.Some? ==> r.value != {} && r.value <= Kinds(o.profiles)
  {
    var channel, chosen := c.run.channel, Assigned(c.suite.strategies, o.obligation);
    if o.profiles == [] || !DistinctKinds(o.profiles) || !SuiteFits(c) then None
    else if channel == Primary || channel == Composition then
      if KindsOn(o.profiles, channel) == {} then None else Some(KindsOn(o.profiles, channel))
    else
      var allowed := if channel == Regression then Kinds(o.profiles) else KindsOn(o.profiles, channel);
      if chosen.None? || chosen.value !in allowed then None else Some({chosen.value})
  }

  // ---- the frozen requirements ----

  datatype Expected = Expected(
    objective: string, objectiveHash: string, obligation: string, requirement: Requirement,
    targets: seq<Target>, tools: set<string>)

  predicate DistinctTargets(targets: seq<Target>)
  {
    forall i, j :: 0 <= i < j < |targets| ==> targets[i].subject != targets[j].subject
  }

  function Subjects(targets: seq<Target>): set<string>
  {
    set t | t in targets :: t.subject
  }

  function TargetFor(targets: seq<Target>, subject: string): Option<Target>
  {
    if targets == [] then None
    else if targets[|targets| - 1].subject == subject then Some(targets[|targets| - 1])
    else TargetFor(targets[..|targets| - 1], subject)
  }

  predicate SortedNames(names: seq<string>)
  {
    forall i, j :: 0 <= i < j < |names| ==> Before(names[i], names[j])
  }

  predicate DistinctRequirements(rs: seq<Requirement>)
  {
    forall i, j :: 0 <= i < j < |rs| ==> rs[i].id != rs[j].id
  }

  predicate RequirementOk(o: Objective, active: set<string>, r: Requirement)
  {
    r.profiles * active != {} ==>
      r.subjects != [] && SortedNames(r.subjects) && forall s :: s in r.subjects ==> s in Subjects(o.targets)
  }

  predicate ObjectiveOk(c: Records, o: Objective)
  {
    && Active(c, o).Some?
    && o.targets != [] && DistinctTargets(o.targets)
    && o.requirements != [] && DistinctRequirements(o.requirements)
    && forall i :: 0 <= i < |o.requirements| ==> RequirementOk(o, Active(c, o).value, o.requirements[i])
  }

  function RequirementIds(rs: seq<Requirement>): set<string>
  {
    set r | r in rs :: r.id
  }

  /** Two objectives share neither identifier nor obligation nor requirement. */
  predicate Apart(o: Objective, p: Objective)
  {
    o.id != p.id && o.obligation != p.obligation && RequirementIds(o.requirements) !! RequirementIds(p.requirements)
  }

  function ExpectedFrom(o: Objective, r: Requirement): Expected
  {
    Expected(o.id, o.hash, o.obligation, r, o.targets, o.tools)
  }

  /** The active requirements of a list, by identifier. */
  function ActiveRequirements(o: Objective, active: set<string>, rs: seq<Requirement>): map<string, Expected>
  {
    if rs == [] then map[]
    else
      var last := rs[|rs| - 1];
      var before := ActiveRequirements(o, active, rs[..|rs| - 1]);
      if last.profiles * active != {} then before[last.id := ExpectedFrom(o, last)] else before
  }

  function OwnExpected(c: Records, o: Objective): map<string, Expected>
  {
    ActiveRequirements(o, if Active(c, o).Some? then Active(c, o).value else {}, o.requirements)
  }

  function AllExpected(c: Records, os: seq<Objective>): map<string, Expected>
  {
    if os == [] then map[] else AllExpected(c, os[..|os| - 1]) + OwnExpected(c, os[|os| - 1])
  }

  ghost predicate ObjectivesOk(c: Records, os: seq<Objective>)
  {
    Pairwise(os, Apart) && forall o :: o in os ==> ObjectiveOk(c, o)
  }

  // ---- the identity of the records ----

  function Ids(os: seq<Objective>): set<string> { set o | o in os :: o.id }

  function HashesOf(os: seq<Objective>): set<string> { set o | o in os :: o.hash }

  function ObligationsOf(os: seq<Objective>): set<string> { set o | o in os :: o.obligation }

  function Elements(s: seq<string>): set<string> { set x | x in s }

  /** `_record_identity`: objectives, suite, assignment and run describe one contract, node, suite and index. */
  predicate Identified(c: Records, os: seq<Objective>)
  {
    && (forall o :: o in os ==> o.contract == c.suite.contract && o.node == c.suite.node)
    && Elements(c.suite.objectiveIds) == Ids(os) && Elements(c.suite.objectiveHashes) == HashesOf(os)
    && c.run.contract == c.suite.contract && c.run.node == c.suite.node
    && c.assignment.contract == c.suite.contract && c.assignment.node == c.suite.node
    && c.assignment.suiteHash == c.suite.hash
    && c.assignment.objectiveIds == c.suite.objectiveIds && c.assignment.objectiveHashes == c.suite.objectiveHashes
    && c.run.assignmentHash == c.assignment.hash && c.run.suiteHash == c.suite.hash
    && c.run.objectiveHashes == c.suite.objectiveHashes
    && Elements(c.run.obligationIds) == ObligationsOf(os)
    && DistinctStrategies(c.suite.strategies)
    && (c.run.channel in {LaneA, LaneB, Regression} ==>
          (set s | s in c.suite.strategies :: s.obligation) == ObligationsOf(os))
    && c.run.indexHash == c.current.indexHash
  }

  // ---- suite bindings and results ----

  function BindingFor(bindings: seq<SuiteBinding>, requirement: string): Option<SuiteBinding>
  {
    if bindings == [] then None
    else if bindings[|bindings| - 1].requirement == requirement then Some(bindings[|bindings| - 1])
    else BindingFor(bindings[..|bindings| - 1], requirement)
  }

  predicate DistinctSuiteBindings(bindings: seq<SuiteBinding>)
  {
    forall i, j :: 0 <= i < j < |bindings| ==> bindings[i].requirement != bindings[j].requirement
  }

  predicate SuiteBindingOk(m: map<string, Expected>, b: SuiteBinding)
  {
    b.requirement in m && b.subjects == m[b.requirement].requirement.subjects && b.tool in m[b.requirement].tools
  }

  /** `_validated_suite_bindings`. */
  predicate SuiteOk(m: map<string, Expected>, bindings: seq<SuiteBinding>)
  {
    && DistinctSuiteBindings(bindings)
    && (set b | b in bindings :: b.requirement) == m.Keys
    && forall i :: 0 <= i < |bindings| ==> SuiteBindingOk(m, bindings[i])
  }

  function Key(r: Measured): Pair
  {
    (r.requirement, r.subject)
  }

  predicate Separate(r: Measured, s: Measured)
  {
    Key(r) != Key(s)
  }

  /** The frozen pairs of requirement and subject. */
  function Pairs(m: map<string, Expected>): set<Pair>
  {
    set id, s | id in m && s in m[id].requirement.subjects :: (id, s)
  }

  /** `_validated_run_results`: one result for each frozen pair, and no other. */
  ghost predicate ResultsOk(m: map<string, Expected>, results: seq<Measured>)
  {
    Pairwise(results, Separate) && forall p :: p in Pairs(m) <==> exists r :: r in results && Key(r) == p
  }

  // ---- entries ----

  function ResultFor(results: seq<Measured>, p: Pair): Option<Measured>
  {
    if results == [] then None
    else if Key(results[|results| - 1]) == p then Some(results[|results| - 1])
    else ResultFor(results[..|results| - 1], p)
  }

  predicate FractionOk(r: Measured)
  {
    r.fraction.Some? ==> InUnit(r.fraction.value)
  }

  /** The conditions of `_coverage_entry`, with what it looks up. */
  predicate EntryOk(c: Records, m: map<string, Expected>, p: Pair)
  {
    var binding, result := BindingFor(c.suite.bindings, p.0), ResultFor(c.run.results, p);
    && p.0 in m && binding.Some? && result.Some?
    && TargetFor(m[p.0].targets, p.1).Some?
    && p.1 in c.current.bindings
    && TargetFor(m[p.0].targets, p.1).value.path == c.current.bindings[p.1].path
    && TargetFor(m[p.0].targets, p.1).value.symbol == c.current.bindings[p.1].symbol
    && result.value.sourceHash == c.current.bindings[p.1].sourceHash
    && result.value.indexHash == c.current.indexHash
    && result.value.parserHash == binding.value.parserHash
    && !result.value.reported.OtherResult?
    && FractionOk(result.value)
  }

  function EntryOf(c: Records, m: map<string, Expected>, p: Pair): Entry
    requires EntryOk(c, m, p)
  {
    var e, binding, result := m[p.0], BindingFor(c.suite.bindings, p.0).value, ResultFor(c.run.results, p).value;
    Entry(e.objective, e.objectiveHash, e.obligation, p.0, e.requirement.kind, e.requirement.target,
      p.1, c.current.bindings[p.1].path, c.current.bindings[p.1].symbol, c.current.bindings[p.1].sourceHash,
      c.current.indexHash, binding.tool, binding.format, result.artifactHash, binding.parserId, binding.parserHash,
      result.reported, result.fraction, result.reached)
  }

  predicate PairBefore(p: Pair, q: Pair)
  {
    Before(p.0, q.0) || (p.0 == q.0 && Before(p.1, q.1))
  }

  function PairOf(e: Entry): Pair
  {
    (e.requirement, e.subject)
  }

  /** The pairs, each once, in strictly ascending order. */
  ghost predicate Enumerates(order: seq<Pair>, pairs: set<Pair>)
  {
    Pairwise(order, PairBefore) && forall p :: p in order <==> p in pairs
  }

  /** The join of accepted records: one entry for each frozen pair, in order. */
  ghost predicate EntriesAre(c: Records, m: map<string, Expected>, entries: seq<Entry>)
  {
    exists order :: EntriesIn(c, m, entries, order)
  }

  ghost predicate EntriesIn(c: Records, m: map<string, Expected>, entries: seq<Entry>, order: seq<Pair>)
  {
    && Enumerates(order, Pairs(m)) && |entries| == |order|
    && forall i :: 0 <= i < |order| ==> EntryOk(c, m, order[i]) && entries[i] == EntryOf(c, m, order[i])
  }

  ghost predicate Acceptable(c: Records, os: seq<Objective>)
  {
    && os != [] && ObjectivesOk(c, os)
    && AllExpected(c, os) != map[]
    && Identified(c, os)
    && SuiteOk(AllExpected(c, os), c.suite.bindings)
    && ResultsOk(AllExpected(c, os), c.run.results)
    && forall p :: p in Pairs(AllExpected(c, os)) ==> EntryOk(c, AllExpected(c, os), p)
  }

  // ---- what an accepted join says ----

  lemma {:induction false} ResultForFinds(results: seq<Measured>, p: Pair)
    ensures var r := ResultFor(results, p); r.Some? ==> r.value in results && Key(r.value) == p
    ensures (exists r :: r in results && Key(r) == p) ==> ResultFor(results, p).Some?
  {
    if results != [] && Key(results[|results| - 1]) != p {
      var before := results[..|results| - 1];
      ResultForFinds(before, p);
      if r :| r in results && Key(r) == p {
        var i :| 0 <= i < |results| && results[i] == r;
        assert before[i] == r;
      }
    }
  }

  lemma PairOrderIsStrict(p: Pair, q: Pair)
    ensures PairBefore(p, q) ==> !PairBefore(q, p)
    ensures p != q ==> PairBefore(p, q) || PairBefore(q, p)
  {
    AsymmetricText(p.0, q.0);
    AsymmetricText(p.1, q.1);
    BeforeTotal(p.0, q.0);
    BeforeTotal(p.1, q.1);
    BeforeIrreflexive(p.0);
  }

  lemma AsymmetricText(a: string, b: string)
    ensures !(Before(a, b) && Before(b, a))
  {
    if Before(a, b) && Before(b, a) {
      BeforeTransitive(a, b, a);
      BeforeIrreflexive(a);
    }
  }

  lemma PairOrderIsAsymmetric()
    ensures Asymmetric(PairBefore)
  {
    forall p, q | PairBefore(p, q) ensures !PairBefore(q, p) {
      PairOrderIsStrict(p, q);
    }
  }

  /** The entries of a join are determined by its records. */
  lemma EntriesAreUnique(c: Records, m: map<string, Expected>, a: seq<Entry>, b: seq<Entry>)
    requires EntriesAre(c, m, a) && EntriesAre(c, m, b)
    ensures a == b
  {
    var p :| EntriesIn(c, m, a, p);
    var q :| EntriesIn(c, m, b, q);
    PairOrderIsAsymmetric();
    OrderedIsCanonical(p, q, PairBefore);
  }

  /**
   Each frozen pair has exactly one entry, and that entry carries the current index and the current hash of
   the document that holds the subject.
   */
  lemma OneEntryPerPair(c: Records, m: map<string, Expected>, entries: seq<Entry>, p: Pair) returns (at: nat)
    requires EntriesAre(c, m, entries) && p in Pairs(m)
    ensures at < |entries| && PairOf(entries[at]) == p
    ensures forall i :: 0 <= i < |entries| && i != at ==> PairOf(entries[i]) != p
    ensures entries[at].indexHash == c.current.indexHash
    ensures p.1 in c.current.bindings && entries[at].sourceHash == c.current.bindings[p.1].sourceHash
  {
    var order :| EntriesIn(c, m, entries, order);
    assert p in order;
    at :| 0 <= at < |order| && order[at] == p;
    PairOrderIsAsymmetric();
    forall i | 0 <= i < |entries| && i != at ensures PairOf(entries[i]) != p {
      assert PairOf(entries[i]) == order[i];
      assert i < at ==> PairBefore(order[i], order[at]);
      assert at < i ==> PairBefore(order[at], order[i]);
    }
  }

  // ---- order does not matter ----

  lemma {:induction false} ActiveRequirementIds(o: Objective, active: set<string>, rs: seq<Requirement>)
    ensures ActiveRequirements(o, active, rs).Keys <= RequirementIds(rs)
  {
    if rs != [] {
      ActiveRequirementIds(o, active, rs[..|rs| - 1]);
      assert rs[|rs| - 1] in rs && forall r :: r in rs[..|rs| - 1] ==> r in rs;
    }
  }

  /** The map holds exactly what the objectives expect, each under its identifier. */
  ghost predicate Gathers(c: Records, os: seq<Objective>, m: map<string, Expected>)
  {
    && (forall id :: id in m ==> ExpectedBySome(c, os, id))
    && forall o {:trigger HoldsOwn(c, o, m)} :: o in os ==> HoldsOwn(c, o, m)
  }

  ghost predicate ExpectedBySome(c: Records, os: seq<Objective>, id: string)
  {
    exists o :: o in os && id in OwnExpected(c, o)
  }

  ghost predicate HoldsOwn(c: Records, o: Objective, m: map<string, Expected>)
  {
    forall id :: id in OwnExpected(c, o) ==> id in m && m[id] == OwnExpected(c, o)[id]
  }

  lemma {:induction false} AllExpectedHas(c: Records, os: seq<Objective>)
    requires Pairwise(os, Apart)
    ensures Gathers(c, os, AllExpected(c, os))
  {
    if os != [] {
      var before, last := os[..|os| - 1], os[|os| - 1];
      assert Pairwise(before, Apart);
      AllExpectedHas(c, before);
      forall id | id in AllExpected(c, os) ensures ExpectedBySome(c, os, id) {
        if id in OwnExpected(c, last) {
          assert last in os;
        } else {
          assert ExpectedBySome(c, before, id);
        }
      }
      forall o | o in os ensures HoldsOwn(c, o, AllExpected(c, os)) {
        assert o in before ==> HoldsOwn(c, o, AllExpected(c, before));
        forall id | id in OwnExpected(c, o) ensures id in AllExpected(c, os) && AllExpected(c, os)[id] == OwnExpected(c, o)[id] {
          LastOverrides(c, os, o, id);
        }
      }
    }
  }

  lemma LastOverrides(c: Records, os: seq<Objective>, o: Objective, id: string)
    requires Pairwise(os, Apart) && o in os && id in OwnExpected(c, o)
    requires var before := AllExpected(c, os[..|os| - 1]);
      o in os[..|os| - 1] ==> id in before && before[id] == OwnExpected(c, o)[id]
    ensures id in AllExpected(c, os) && AllExpected(c, os)[id] == OwnExpected(c, o)[id]
  {
    var n, last := |os| - 1, os[|os| - 1];
    ActiveRequirementIds(o, if Active(c, o).Some? then Active(c, o).value else {}, o.requirements);
    ActiveRequirementIds(last, if Active(c, last).Some? then Active(c, last).value else {}, last.requirements);
    var i :| 0 <= i < |os| && os[i] == o;
    if i < n {
      assert Apart(os[i], os[n]);
      assert os[..n][i] == o;
    }
  }

  /** Objectives among others expect nothing the others do not. */
  lemma ExpectedAmong(c: Records, os: seq<Objective>, os': seq<Objective>)
    requires Pairwise(os, Apart) && Pairwise(os', Apart) && forall o :: o in os ==> o in os'
    ensures forall id :: id in AllExpected(c, os) ==>
      id in AllExpected(c, os') && AllExpected(c, os')[id] == AllExpected(c, os)[id]
  {
    AllExpectedHas(c, os);
    AllExpectedHas(c, os');
    ExpectedWithin(c, os, os', AllExpected(c, os), AllExpected(c, os'));
  }

  lemma MutualIsEqual(m: map<string, Expected>, n: map<string, Expected>)
    requires forall id :: id in m ==> id in n && n[id] == m[id]
    requires forall id :: id in n ==> id in m
    ensures m == n
  {
  }

  lemma ExpectedIsUnordered(c: Records, os: seq<Objective>, os': seq<Objective>)
    requires multiset(os) == multiset(os') && Pairwise(os, Apart) && Pairwise(os', Apart)
    ensures AllExpected(c, os) == AllExpected(c, os')
  {
    SameMembers(os, os');
    ExpectedAmong(c, os, os');
    ExpectedAmong(c, os', os);
    MutualIsEqual(AllExpected(c, os), AllExpected(c, os'));
  }

  lemma ExpectedWithin(
      c: Records, os: seq<Objective>, os': seq<Objective>, m: map<string, Expected>, m': map<string, Expected>)
    requires Gathers(c, os, m) && Gathers(c, os', m') && forall o :: o in os ==> o in os'
    ensures forall id :: id in m ==> id in m' && m'[id] == m[id]
  {
    forall id | id in m ensures id in m' && m'[id] == m[id] {
      assert ExpectedBySome(c, os, id);
      var o :| o in os && id in OwnExpected(c, o);
      assert HoldsOwn(c, o, m) && HoldsOwn(c, o, m');
    }
  }

  /** The records with the results of the run in another order. */
  function WithResults(c: Records, results: seq<Measured>): Records
  {
    c.(run := c.run.(results := results))
  }

  lemma {:induction false} ActiveRequirementsSame(c: Records, results: seq<Measured>, os: seq<Objective>)
    ensures AllExpected(WithResults(c, results), os) == AllExpected(c, os)
  {
    if os != [] {
      ActiveRequirementsSame(c, results, os[..|os| - 1]);
      assert Active(WithResults(c, results), os[|os| - 1]) == Active(c, os[|os| - 1]);
    }
  }

  lemma ResultIsUnordered(a: seq<Measured>, b: seq<Measured>, p: Pair)
    requires multiset(a) == multiset(b) && Pairwise(a, Separate)
    ensures ResultFor(a, p) == ResultFor(b, p)
  {
    SameMembers(a, b);
    ResultForFinds(a, p);
    ResultForFinds(b, p);
    if r :| ResultFor(a, p) == Some(r) {
      var s := ResultFor(b, p).value;
      var i :| 0 <= i < |a| && a[i] == r;
      var j :| 0 <= j < |a| && a[j] == s;
      assert i < j ==> Separate(a[i], a[j]);
      assert j < i ==> Separate(a[j], a[i]);
    }
  }

  lemma EntriesAreUnordered(c: Records, m: map<string, Expected>, results: seq<Measured>, entries: seq<Entry>)
    requires multiset(c.run.results) == multiset(results) && Pairwise(c.run.results, Separate)
    ensures forall p :: EntryOk(c, m, p) <==> EntryOk(WithResults(c, results), m, p)
    ensures EntriesAre(c, m, entries) ==> EntriesAre(WithResults(c, results), m, entries)
  {
    forall p ensures ResultFor(c.run.results, p) == ResultFor(results, p) {
      ResultIsUnordered(c.run.results, results, p);
    }
    if order :| EntriesIn(c, m, entries, order) {
      assert EntriesIn(WithResults(c, results), m, entries, order);
    }
  }

  lemma ObjectivesAreUnordered(c: Records, os: seq<Objective>, os': seq<Objective>)
    requires multiset(os) == multiset(os') && ObjectivesOk(c, os)
    ensures ObjectivesOk(c, os') && AllExpected(c, os') == AllExpected(c, os)
    ensures Identified(c, os) ==> Identified(c, os')
  {
    SameMembers(os, os');
    forall o, p | Apart(o, p) ensures Apart(p, o) {
    }
    PairwisePermutes(os, os', Apart);
    ExpectedIsUnordered(c, os, os');
    assert Ids(os') == Ids(os) && HashesOf(os') == HashesOf(os) && ObligationsOf(os') == ObligationsOf(os);
  }

  lemma ResultsAreUnordered(m: map<string, Expected>, a: seq<Measured>, b: seq<Measured>)
    requires multiset(a) == multiset(b) && ResultsOk(m, a)
    ensures ResultsOk(m, b)
  {
    SameMembers(a, b);
    forall r, s | Separate(r, s) ensures Separate(s, r) {
    }
    PairwisePermutes(a, b, Separate);
  }

  lemma ObjectiveOkSame(c: Records, results: seq<Measured>, os: seq<Objective>)
    ensures ObjectivesOk(WithResults(c, results), os) <==> ObjectivesOk(c, os)
    ensures Identified(WithResults(c, results), os) <==> Identified(c, os)
  {
    forall o ensures ObjectiveOk(WithResults(c, results), o) <==> ObjectiveOk(c, o) {
      assert Active(WithResults(c, results), o) == Active(c, o);
    }
  }

  /** Reordering the objectives or the run's results changes neither acceptance nor the entries of the join. */
  lemma JoinIsUnordered(
      c: Records, os: seq<Objective>, os': seq<Objective>, results: seq<Measured>, entries: seq<Entry>)
    requires multiset(os) == multiset(os') && multiset(c.run.results) == multiset(results)
    requires Acceptable(c, os) && EntriesAre(c, AllExpected(c, os), entries)
    ensures var c' := WithResults(c, results);
      Acceptable(c', os') && EntriesAre(c', AllExpected(c', os'), entries)
  {
    var c', m := WithResults(c, results), AllExpected(c, os);
    ObjectivesAreUnordered(c, os, os');
    ObjectiveOkSame(c, results, os');
    ActiveRequirementsSame(c, results, os');
    ResultsAreUnordered(m, c.run.results, results);
    EntriesAreUnordered(c, m, results, entries);
    assert |multiset(os)| == |os| && |multiset(os')| == |os'|;
  }

  // ---- the loops ----

  method ActiveProfiles(c: Records, o: Objective) returns (r: Option<set<string>>)
    ensures r == Active(c, o)
  {
    if o.profiles == [] {
      return None;
    }
    var known, onChannel: set<string> := {}, {};
    for i := 0 to |o.profiles|
      invariant forall j, k :: 0 <= j < k < i ==> o.profiles[j].kind != o.profiles[k].kind
      invariant known == Kinds(o.profiles[..i]) && onChannel == KindsOn(o.profiles[..i], c.run.channel)
    {
      KindsNext(o.profiles, c.run.channel, i);
      if o.profiles[i].kind in known {
        assert !DistinctKinds(o.profiles);
        return None;
      }
      known := known + {o.profiles[i].kind};
      if c.run.channel in o.profiles[i].channels {
        onChannel := onChannel + {o.profiles[i].kind};
      }
    }
    assert o.profiles[..|o.profiles|] == o.profiles;
    r := SelectProfiles(c, o, known, onChannel);
  }

  lemma KindsNext(profiles: seq<Profile>, channel: Channel, i: nat)
    requires i < |profiles|
    ensures Kinds(profiles[..i + 1]) == Kinds(profiles[..i]) + {profiles[i].kind}
    ensures KindsOn(profiles[..i + 1], channel) ==
      KindsOn(profiles[..i], channel) + if channel in profiles[i].channels then {profiles[i].kind} else {}
    ensures profiles[i].kind in Kinds(profiles[..i]) ==> exists k :: 0 <= k < i && profiles[k].kind == profiles[i].kind
  {
    assert profiles[..i + 1] == profiles[..i] + [profiles[i]];
    assert forall p :: p in profiles[..i + 1] <==> p in profiles[..i] || p == profiles[i];
  }

  /** The choice by channel, once the objective's profiles are read. */
  method SelectProfiles(c: Records, o: Objective, known: set<string>, onChannel: set<string>)
    returns (r: Option<set<string>>)
    requires o.profiles != [] && DistinctKinds(o.profiles)
    requires known == Kinds(o.profiles) && onChannel == KindsOn(o.profiles, c.run.channel)
    ensures r == Active(c, o)
  {
    if !SuiteFits(c) {
      return None;
    }
    var channel, chosen := c.run.channel, Assigned(c.suite.strategies, o.obligation);
    if channel == Primary || channel == Composition {
      return if onChannel == {} then None else Some(onChannel);
    }
    if chosen.None? || (channel != Regression && chosen.value !in onChannel) || (channel == Regression && chosen.value !in known) {
      return None;
    }
    r := Some({chosen.value});
  }

  /** The requirements are in order and none was seen before. */
  ghost predicate RequirementsOk(o: Objective, active: set<string>, seen: set<string>, rs: seq<Requirement>)
  {
    && DistinctRequirements(rs) && RequirementIds(rs) !! seen
    && forall i :: 0 <= i < |rs| ==> RequirementOk(o, active, rs[i])
  }

  lemma RequirementsNext(o: Objective, active: set<string>, seen: set<string>, rs: seq<Requirement>, i: nat)
    requires i < |rs|
    ensures RequirementsOk(o, active, seen, rs[..i + 1]) <==>
      && RequirementsOk(o, active, seen, rs[..i])
      && rs[i].id !in seen + RequirementIds(rs[..i]) && RequirementOk(o, active, rs[i])
  {
    var more, before := rs[..i + 1], rs[..i];
    RequirementIdsNext(rs, i);
    if RequirementsOk(o, active, seen, more) {
      assert more[i] == rs[i];
      forall k | 0 <= k < i ensures before[k].id != rs[i].id && RequirementOk(o, active, before[k]) {
        assert before[k] == more[k] && more[k].id != more[i].id;
      }
    }
  }

  lemma RequirementsPrefix(o: Objective, active: set<string>, seen: set<string>, rs: seq<Requirement>, i: nat)
    requires i <= |rs|
    ensures RequirementsOk(o, active, seen, rs) ==> RequirementsOk(o, active, seen, rs[..i])
  {
    assert forall r :: r in rs[..i] ==> r in rs;
  }

  method ReadRequirements(o: Objective, active: set<string>, seen: set<string>)
    returns (ok: bool, expected: map<string, Expected>, seen': set<string>)
    ensures ok <==> RequirementsOk(o, active, seen, o.requirements)
    ensures ok ==>
      expected == ActiveRequirements(o, active, o.requirements) && seen' == seen + RequirementIds(o.requirements)
  {
    var rs := o.requirements;
    expected, seen' := map[], seen;
    for i := 0 to |rs|
      invariant RequirementsOk(o, active, seen, rs[..i]) && seen' == seen + RequirementIds(rs[..i])
      invariant expected == ActiveRequirements(o, active, rs[..i])
    {
      RequirementsNext(o, active, seen, rs, i);
      RequirementsPrefix(o, active, seen, rs, i + 1);
      RequirementIdsNext(rs, i);
      assert rs[..i + 1][..|rs[..i + 1]| - 1] == rs[..i];
      if rs[i].id in seen' {
        ok := false;
        return;
      }
      seen' := seen' + {rs[i].id};
      if !RequirementOk(o, active, rs[i]) {
        ok := false;
        return;
      }
      if rs[i].profiles * active != {} {
        expected := expected[rs[i].id := ExpectedFrom(o, rs[i])];
      }
    }
    assert rs[..|rs|] == rs;
    ok := true;
  }

  lemma RequirementIdsNext(rs: seq<Requirement>, i: nat)
    requires i < |rs|
    ensures RequirementIds(rs[..i + 1]) == RequirementIds(rs[..i]) + {rs[i].id}
    ensures rs[i].id in RequirementIds(rs[..i]) ==> exists k :: 0 <= k < i && rs[k].id == rs[i].id
  {
    assert rs[..i + 1] == rs[..i] + [rs[i]];
    assert forall r :: r in rs[..i + 1] <==> r in rs[..i] || r == rs[i];
  }

  /** One objective: its targets, profiles and requirements, given the requirements of the earlier ones. */
  method ReadObjective(c: Records, o: Objective, seen: set<string>)
    returns (ok: bool, expected: map<string, Expected>, seen': set<string>)
    ensures ok <==> ObjectiveOk(c, o) && RequirementIds(o.requirements) !! seen
    ensures ok ==> expected == OwnExpected(c, o) && seen' == seen + RequirementIds(o.requirements)
  {
    ok, expected, seen' := false, map[], seen;
    if o.targets == [] || !DistinctTargets(o.targets) {
      return;
    }
    var active := ActiveProfiles(c, o);
    if active.None? || o.requirements == [] {
      return;
    }
    ok, expected, seen' := ReadRequirements(o, active.value, seen);
  }

  /** Nothing of the objective was used by the earlier ones. */
  ghost predicate NewTo(os: seq<Objective>, o: Objective)
  {
    forall i :: 0 <= i < |os| ==> Apart(os[i], o)
  }

  function SeenIds(os: seq<Objective>): set<string>
  {
    set o, r | o in os && r in o.requirements :: r.id
  }

  lemma NewMeans(os: seq<Objective>, o: Objective)
    ensures NewTo(os, o) <==>
      o.id !in Ids(os) && o.obligation !in ObligationsOf(os) && RequirementIds(o.requirements) !! SeenIds(os)
  {
    if NewTo(os, o) {
      forall p | p in os ensures Apart(p, o) {
        var i :| 0 <= i < |os| && os[i] == p;
      }
    }
    forall i | 0 <= i < |os| && RequirementIds(o.requirements) !! SeenIds(os)
      ensures RequirementIds(os[i].requirements) !! RequirementIds(o.requirements)
    {
      assert os[i] in os && forall id :: id in RequirementIds(os[i].requirements) ==> id in SeenIds(os);
    }
  }

  lemma ObjectivesNext(c: Records, os: seq<Objective>, i: nat)
    requires i < |os|
    ensures ObjectivesOk(c, os[..i + 1]) <==> ObjectivesOk(c, os[..i]) && ObjectiveOk(c, os[i]) && NewTo(os[..i], os[i])
    ensures ObjectivesOk(c, os) ==> ObjectivesOk(c, os[..i + 1])
  {
    var more, before := os[..i + 1], os[..i];
    assert more == before + [os[i]];
    if ObjectivesOk(c, more) {
      assert more[i] == os[i];
      forall k | 0 <= k < i ensures Apart(before[k], os[i]) && before[k] == more[k] {
        assert Apart(more[k], more[i]);
      }
      assert Pairwise(before, Apart);
    }
    if ObjectivesOk(c, os) {
      assert Pairwise(more, Apart);
      assert forall o :: o in more ==> o in os;
    }
  }

  lemma ObjectiveSetsNext(c: Records, os: seq<Objective>, i: nat)
    requires i < |os|
    ensures AllExpected(c, os[..i + 1]) == AllExpected(c, os[..i]) + OwnExpected(c, os[i])
    ensures SeenIds(os[..i + 1]) == SeenIds(os[..i]) + RequirementIds(os[i].requirements)
    ensures Ids(os[..i + 1]) == Ids(os[..i]) + {os[i].id}
    ensures ObligationsOf(os[..i + 1]) == ObligationsOf(os[..i]) + {os[i].obligation}
  {
    var more, before := os[..i + 1], os[..i];
    assert more == before + [os[i]] && more[..|more| - 1] == before;
    assert forall o :: o in more <==> o in before || o == os[i];
  }

  /** `_expected_requirements`. */
  method ExpectedRequirements(c: Records, os: seq<Objective>) returns (r: Option<map<string, Expected>>)
    ensures r.Some? <==> ObjectivesOk(c, os) && AllExpected(c, os) != map[]
    ensures r.Some? ==> r.value == AllExpected(c, os)
  {
    var expected: map<string, Expected> := map[];
    var ids, obligations, seen: set<string> := {}, {}, {};
    for i := 0 to |os|
      invariant ObjectivesOk(c, os[..i]) && expected == AllExpected(c, os[..i])
      invariant ids == Ids(os[..i]) && obligations == ObligationsOf(os[..i]) && seen == SeenIds(os[..i])
    {
      ObjectivesNext(c, os, i);
      ObjectiveSetsNext(c, os, i);
      NewMeans(os[..i], os[i]);
      if os[i].id in ids || os[i].obligation in obligations {
        return None;
      }
      ids, obligations := ids + {os[i].id}, obligations + {os[i].obligation};
      var ok, own, seen' := ReadObjective(c, os[i], seen);
      if !ok {
        return None;
      }
      expected, seen := expected + own, seen';
    }
    assert os[..|os|] == os;
    r := if expected == map[] then None else Some(expected);
  }

  /** `_validated_run_results`. */
  method RunResults(m: map<string, Expected>, results: seq<Measured>) returns (ok: bool)
    ensures ok <==> ResultsOk(m, results)
  {
    var keys: set<Pair> := {};
    for i := 0 to |results|
      invariant forall j, k :: 0 <= j < k < i ==> Separate(results[j], results[k])
      invariant forall p :: p in keys <==> exists k :: 0 <= k < i && Key(results[k]) == p
    {
      if Key(results[i]) in keys {
        var k :| 0 <= k < i && Key(results[k]) == Key(results[i]);
        assert !Separate(results[k], results[i]);
        return false;
      }
      keys := keys + {Key(results[i])};
    }
    assert forall p :: p in keys <==> exists r :: r in results && Key(r) == p by {
      forall r | r in results ensures Key(r) in keys {
        var k :| 0 <= k < |results| && results[k] == r;
      }
    }
    ok := keys == Pairs(m);
  }

  // ---- sorting and joining ----

  lemma PairBeforeTransitive(p: Pair, q: Pair, r: Pair)
    requires PairBefore(p, q) && PairBefore(q, r)
    ensures PairBefore(p, r)
  {
    if Before(p.0, q.0) && Before(q.0, r.0) {
      BeforeTransitive(p.0, q.0, r.0);
    } else if p.0 == q.0 == r.0 {
      BeforeTransitive(p.1, q.1, r.1);
    }
  }

  lemma PairsAreOrdered()
    ensures Ordering(PairBefore) && Total(PairBefore)
  {
    forall p, q, r ensures Chains(PairBefore, p, q, r) {
      PairsChain(p, q, r);
    }
    forall p, q ensures p == q || PairBefore(p, q) || PairBefore(q, p) {
      PairOrderIsStrict(p, q);
    }
  }

  lemma PairsChain(p: Pair, q: Pair, r: Pair)
    ensures Chains(PairBefore, p, q, r)
  {
    PairOrderIsStrict(p, q);
    PairOrderIsStrict(q, r);
    if PairBefore(r, p) && PairBefore(p, q) {
      PairBeforeTransitive(r, p, q);
    }
  }

  /** Sorting a list of distinct pairs enumerates them. */
  lemma SortedEnumerates(list: seq<Pair>, pairs: set<Pair>)
    requires multiset(list) == multiset(pairs)
    ensures Enumerates(Sorted(list, PairBefore), pairs)
  {
    var order := Sorted(list, PairBefore);
    PairsAreOrdered();
    SortedAscends(list, PairBefore);
    forall p ensures p in order <==> p in pairs {
      assert p in order <==> p in multiset(order);
    }
    forall i, j | 0 <= i < j < |order| ensures PairBefore(order[i], order[j]) {
      if order[i] == order[j] {
        TwiceOccurs(order, i, j);
      }
    }
  }

  /** `sorted(expected_pairs)`, whatever order the set is listed in. */
  method SortPairs(pairs: set<Pair>) returns (order: seq<Pair>)
    ensures Enumerates(order, pairs)
  {
    var list: seq<Pair> := [];
    var pending := pairs;
    while pending != {}
      invariant pending <= pairs && multiset(list) == multiset(pairs - pending)
      decreases pending
    {
      var p :| p in pending;
      ghost var done := pairs - pending;
      pending := pending - {p};
      assert pairs - pending == done + {p};
      list := list + [p];
    }
    assert pairs - pending == pairs;
    SortedEnumerates(list, pairs);
    order := Sorted(list, PairBefore);
  }

  /** `_joined_entries`. */
  method JoinedEntries(c: Records, m: map<string, Expected>) returns (r: Option<seq<Entry>>)
    ensures r.Some? <==> forall p :: p in Pairs(m) ==> EntryOk(c, m, p)
    ensures r.Some? ==> EntriesAre(c, m, r.value)
  {
    var order := SortPairs(Pairs(m));
    var entries: seq<Entry> := [];
    for i := 0 to |order|
      invariant |entries| == i
      invariant forall k :: 0 <= k < i ==> EntryOk(c, m, order[k]) && entries[k] == EntryOf(c, m, order[k])
    {
      if !EntryOk(c, m, order[i]) {
        assert order[i] in order;
        return None;
      }
      entries := entries + [EntryOf(c, m, order[i])];
    }
    assert EntriesIn(c, m, entries, order);
    r := Some(entries);
  }

  /** The join of the records with these entries. */
  function JoinedOf(c: Records, entries: seq<Entry>): Joined
  {
    Joined(c.current.admission, c.current.indexHash, c.suite.contract, c.suite.node, c.run.channel, c.suite.hash,
      c.assignment.hash, c.run.hash, entries)
  }

  /** `join_coverage_results` while the admission stays current. */
  method JoinCoverage(c: Records, os: seq<Objective>) returns (r: Option<Joined>)
    ensures r.Some? <==> Acceptable(c, os)
    ensures r.Some? ==>
      && EntriesAre(c, AllExpected(c, os), r.value.entries)
      && r.value == JoinedOf(c, r.value.entries)
  {
    if os == [] {
      return None;
    }
    var expected := ExpectedRequirements(c, os);
    if expected.None? || !Identified(c, os) || !SuiteOk(expected.value, c.suite.bindings) {
      return None;
    }
    var resultsOk := RunResults(expected.value, c.run.results);
    if !resultsOk {
      return None;
    }
    var entries := JoinedEntries(c, expected.value);
    if entries.None? {
      return None;
    }
    r := Some(Joined(c.current.admission, c.current.indexHash, c.suite.contract, c.suite.node, c.run.channel,
      c.suite.hash, c.assignment.hash, c.run.hash, entries.value));
  }

  // ---- what the join's digest commits to ----

  datatype Payload = Payload(
    admission: string, indexHash: string, contract: string, node: string, channel: Channel, suiteHash: string,
    runHash: string, entries: seq<Entry>)

  /** The hashed payload, which leaves out the suite assignment. */
  function PayloadOf(j: Joined): Payload
  {
    Payload(j.admission, j.indexHash, j.contract, j.node, j.channel, j.suiteHash, j.runHash, j.entries)
  }

  /** The digest tells payloads apart. */
  ghost predicate InjectiveDigest(hash: Payload -> string)
  {
    forall p, q {:trigger TellsApart(hash, p, q)} :: TellsApart(hash, p, q)
  }

  ghost predicate TellsApart(hash: Payload -> string, p: Payload, q: Payload)
  {
    hash(p) == hash(q) ==> p == q
  }

  /** Joins with equal digests are equal in every field but the suite assignment's hash. */
  lemma DigestCommits(hash: Payload -> string, j: Joined, k: Joined)
    requires InjectiveDigest(hash)
    ensures hash(PayloadOf(j)) == hash(PayloadOf(k)) <==> j == k.(assignmentHash := j.assignmentHash)
  {
    assert TellsApart(hash, PayloadOf(j), PayloadOf(k));
    assert PayloadOf(j) == PayloadOf(k) <==> j == k.(assignmentHash := j.assignmentHash);
  }

  /** The same records with another text as the suite assignment's hash, in the assignment and in the run. */
  function WithAssignmentHash(c: Records, text: string): Records
  {
    c.(assignment := c.assignment.(hash := text), run := c.run.(assignmentHash := text))
  }

  lemma {:induction false} ExpectedIgnoresAssignmentHash(c: Records, text: string, os: seq<Objective>)
    ensures AllExpected(WithAssignmentHash(c, text), os) == AllExpected(c, os)
  {
    if os != [] {
      ExpectedIgnoresAssignmentHash(c, text, os[..|os| - 1]);
      assert Active(WithAssignmentHash(c, text), os[|os| - 1]) == Active(c, os[|os| - 1]);
    }
  }

  lemma ObjectivesIgnoreAssignmentHash(c: Records, text: string, os: seq<Objective>)
    ensures ObjectivesOk(WithAssignmentHash(c, text), os) <==> ObjectivesOk(c, os)
  {
    forall o ensures ObjectiveOk(WithAssignmentHash(c, text), o) <==> ObjectiveOk(c, o) {
      assert Active(WithAssignmentHash(c, text), o) == Active(c, o);
    }
  }

  lemma EntriesIgnoreAssignmentHash(c: Records, text: string, m: map<string, Expected>, entries: seq<Entry>)
    ensures forall p :: EntryOk(WithAssignmentHash(c, text), m, p) <==> EntryOk(c, m, p)
    ensures EntriesAre(c, m, entries) ==> EntriesAre(WithAssignmentHash(c, text), m, entries)
  {
    if order :| EntriesIn(c, m, entries, order) {
      assert EntriesIn(WithAssignmentHash(c, text), m, entries, order);
    }
  }

  /**
   The digest does not bind the suite assignment: any accepted records stay accepted with another assignment
   hash, and the two joins differ in exactly that field and have one payload, so one digest.
   */
  lemma DigestOmitsAssignment(c: Records, os: seq<Objective>, entries: seq<Entry>, text: string)
    requires Acceptable(c, os) && EntriesAre(c, AllExpected(c, os), entries)
    ensures var c' := WithAssignmentHash(c, text);
      && Acceptable(c', os) && EntriesAre(c', AllExpected(c', os), entries)
      && JoinedOf(c', entries) == JoinedOf(c, entries).(assignmentHash := text)
      && PayloadOf(JoinedOf(c', entries)) == PayloadOf(JoinedOf(c, entries))
  {
    ExpectedIgnoresAssignmentHash(c, text, os);
    ObjectivesIgnoreAssignmentHash(c, text, os);
    EntriesIgnoreAssignmentHash(c, text, AllExpected(c, os), entries);
  }

  // ---- a digest that tells payloads apart ----

  function FractionOrNull(f: Option<Float>): Json
  {
    match f case None => JNull case Some(fraction) => JReal(fraction)
  }

  function ReportedNumber(r: Reported): int
  {
    match r case Satisfied => 0 case Violated => 1 case Inconclusive => 2 case Error => 3 case OtherResult => 4
  }

  function ChannelNumber(c: Channel): int
  {
    match c
    case Primary => 0 case Composition => 1 case LaneA => 2 case LaneB => 3 case Regression => 4 case Unsupported => 5
  }

  function TextsOf(e: Entry): seq<string>
  {
    [e.objective, e.objectiveHash, e.obligation, e.requirement, e.kind, e.target, e.subject, e.path, e.symbol,
     e.sourceHash, e.indexHash, e.tool, e.format, e.artifactHash, e.parserId, e.parserHash]
  }

  function EntryValue(e: Entry): Json
  {
    JArray(Strings(TextsOf(e)) + [JInt(ReportedNumber(e.reported)), FractionOrNull(e.fraction), TextOrNull(e.reached)])
  }

  function PayloadValue(p: Payload): Json
  {
    JArray([
      JString(p.admission), JString(p.indexHash), JString(p.contract), JString(p.node), JInt(ChannelNumber(p.channel)),
      JString(p.suiteHash), JString(p.runHash),
      JArray(seq(|p.entries|, i requires 0 <= i < |p.entries| => EntryValue(p.entries[i])))])
  }

  lemma TextsTell(e: Entry, f: Entry)
    requires TextsOf(e) == TextsOf(f) && e.reported == f.reported && e.fraction == f.fraction && e.reached == f.reached
    ensures e == f
  {
    var s, t := TextsOf(e), TextsOf(f);
    assert forall i :: 0 <= i < 16 ==> s[i] == t[i];
    assert s[0] == t[0] && s[1] == t[1] && s[2] == t[2] && s[3] == t[3] && s[4] == t[4] && s[5] == t[5];
    assert s[6] == t[6] && s[7] == t[7] && s[8] == t[8] && s[9] == t[9] && s[10] == t[10] && s[11] == t[11];
    assert s[12] == t[12] && s[13] == t[13] && s[14] == t[14] && s[15] == t[15];
  }

  lemma EntryValueTells(e: Entry, f: Entry)
    requires EntryValue(e) == EntryValue(f)
    ensures e == f
  {
    var s, t := EntryValue(e).items, EntryValue(f).items;
    assert s[..16] == Strings(TextsOf(e)) && t[..16] == Strings(TextsOf(f));
    StringsTell(TextsOf(e), TextsOf(f));
    assert s[16] == t[16] && s[17] == t[17] && s[18] == t[18];
    TextsTell(e, f);
  }

  lemma PayloadValueTells(p: Payload, q: Payload)
    requires PayloadValue(p) == PayloadValue(q)
    ensures p == q
  {
    var s, t := PayloadValue(p).items, PayloadValue(q).items;
    assert s[0] == t[0] && s[1] == t[1] && s[2] == t[2] && s[3] == t[3];
    assert s[4] == t[4] && s[5] == t[5] && s[6] == t[6] && s[7] == t[7];
    forall i | 0 <= i < |p.entries| ensures p.entries[i] == q.entries[i] {
      assert s[7].items[i] == t[7].items[i];
      EntryValueTells(p.entries[i], q.entries[i]);
    }
    assert |p.entries| == |s[7].items| && |q.entries| == |t[7].items|;
  }

  /** There are digests that tell payloads apart. */
  lemma SomeDigestIsInjective()
    ensures exists hash: Payload -> string :: InjectiveDigest(hash)
  {
    var hash := (p: Payload) => Code(PayloadValue(p));
    forall p, q ensures TellsApart(hash, p, q) {
      if hash(p) == hash(q) {
        CodeIsInjective(PayloadValue(p), PayloadValue(q));
        PayloadValueTells(p, q);
      }
    }
    assert InjectiveDigest(hash);
  }
}
