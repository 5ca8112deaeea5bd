/** The rank prover and the certificate checker. */
module ModelCheck {
  import opened Common
  import opened AllPathsEventually

  datatype ProveError = UnknownProperty

  datatype Verdict = Accepted | Rejected | Raised

  type Certificate = map<string, Json>

  // ---- certificates ----

  function PropertyRecord(p: Property): Json
  {
    JObject(map[
      "id" := JString(p.id),
      "kind" := JString("all_paths_eventually"),
      "source_states" := JArray(Strings(p.sources)),
      "target_states" := JArray(Strings(p.targets))])
  }

  function Header(digest: string, p: Property): Certificate
  {
    map[
      "schema_version" := JInt(1),
      "checker" := JString("mkso.af-rank.v1"),
      "model_sha256" := JString(digest),
      "property" := PropertyRecord(p)]
  }

  function RankRecord(ranks: map<State, nat>): Json
  {
    JObject(map s | s in ranks :: JInt(ranks[s]))
  }

  function Proved(digest: string, p: Property, ranks: map<State, nat>): Certificate
  {
    Header(digest, p)["result" := JString("proved")]["ranks" := RankRecord(ranks)]
  }

  function Disproved(digest: string, p: Property, path: seq<State>): Certificate
  {
    Header(digest, p)["result" := JString("disproved")]["counterexample" := JArray(Strings(path))]
  }

  // ---- the prover ----

  /** The greatest rank among ranked successors. */
  function MaxRank(ranks: map<State, nat>, successors: seq<State>): (r: nat)
    requires successors != [] && forall t :: t in successors ==> t in ranks
    ensures forall t :: t in successors ==> ranks[t] <= r
    ensures exists t :: t in successors && ranks[t] == r
  {
    var first := ranks[successors[0]];
    if |successors| == 1 then first
    else
      assert forall t :: t in successors[1..] ==> t in successors;
      var rest := MaxRank(ranks, successors[1..]);
      if first < rest then rest else first
  }

  /** The rank map the prover has built so far; every entry is final. */
  ghost predicate Building(m: Model, targets: set<State>, ranks: map<State, nat>)
  {
    Descending(m, targets, ranks) && Tight(m, targets, ranks)
  }

  lemma TightFurther(m: Model, targets: set<State>, ranks: map<State, nat>, s: State, t: State)
    requires Tight(m, targets, ranks) && s in m.transitions && s !in ranks && t in m.transitions[s] && t in ranks
    ensures Tight(m, targets, ranks[s := ranks[t] + 1])
  {
    var more := ranks[s := ranks[t] + 1];
    forall u | u in more && u !in targets ensures StepsDown(m, more, u) {
      if u == s {
        assert more[u] == more[t] + 1;
      } else {
        assert StepsDown(m, ranks, u);
        var w :| w in m.transitions[u] && w in ranks && ranks[u] == ranks[w] + 1;
        assert more[u] == more[w] + 1;
      }
    }
  }

  lemma RankOneMore(m: Model, targets: set<State>, ranks: map<State, nat>, s: State)
    requires Building(m, targets, ranks) && s in m.transitions && s !in ranks
    requires Rankable(m, ranks, s)
    ensures Building(m, targets, ranks[s := 1 + MaxRank(ranks, m.transitions[s])])
  {
    var r := MaxRank(ranks, m.transitions[s]);
    var t :| t in m.transitions[s] && ranks[t] == r;
    TightFurther(m, targets, ranks, s, t);
  }

  /** The loop's test: the state has successors and all of them are ranked. */
  predicate Rankable(m: Model, ranks: map<State, nat>, s: State)
    requires s in m.transitions
  {
    m.transitions[s] != [] && forall t :: t in m.transitions[s] ==> t in ranks
  }

  ghost predicate Stuck(m: Model, ranks: map<State, nat>, s: State)
    requires s in m.transitions
  {
    s in ranks || !Rankable(m, ranks, s)
  }

  /** One `for` pass over the states in scan order. */
  method Pass(m: Model, targets: set<State>, before: map<State, nat>, scan: seq<State>)
    returns (ranks: map<State, nat>, changed: bool)
    requires Loaded(m) && Building(m, targets, before)
    requires forall s :: s in scan <==> s in m.transitions
    ensures Building(m, targets, ranks)
    ensures changed ==> before.Keys < ranks.Keys
    ensures !changed ==> ranks == before && forall s :: s in m.transitions ==> Stuck(m, ranks, s)
  {
    ranks, changed := before, false;
    ghost var added := "";
    for i := 0 to |scan|
      invariant Building(m, targets, ranks)
      invariant before.Keys <= ranks.Keys
      invariant changed ==> added in ranks.Keys && added !in before.Keys
      invariant !changed ==> ranks == before && forall k :: 0 <= k < i ==> scan[k] in m.transitions && Stuck(m, ranks, scan[k])
    {
      var state := scan[i];
      assert state in scan;
      if state in ranks {
        continue;
      }
      if Rankable(m, ranks, state) {
        RankOneMore(m, targets, ranks, state);
        ranks := ranks[state := 1 + MaxRank(ranks, m.transitions[state])];
        added, changed := state, true;
      }
    }
    if !changed {
      forall s | s in m.transitions ensures Stuck(m, ranks, s) {
        assert s in scan;
        var k :| 0 <= k < |scan| && scan[k] == s;
        assert Stuck(m, ranks, scan[k]);
      }
    }
  }

  /** The least-fixed-point loop; `scan` is any order in which every state is visited. */
  method ComputeRanks(m: Model, p: Property, scan: seq<State>) returns (ranks: map<State, nat>)
    requires Loaded(m) && LoadedProperty(m, p.id, p)
    requires forall s :: s in scan <==> s in m.states
    ensures Descending(m, Targets(p), ranks) && Tight(m, Targets(p), ranks) && Saturated(m, ranks)
  {
    var targets := Targets(p);
    ranks := map s | s in targets :: 0;
    var changed := true;
    while changed
      invariant Building(m, targets, ranks)
      invariant !changed ==> forall s :: s in m.transitions ==> Stuck(m, ranks, s)
      decreases m.transitions.Keys - ranks.Keys, changed
    {
      ranks, changed := Pass(m, targets, ranks, scan);
    }
    assert forall s :: s in m.transitions ==> Stuck(m, ranks, s);
  }

  /** A path away from the targets which stops at a dead end or at its first repeated state. */
  ghost predicate Refutes(m: Model, p: Property, path: seq<State>)
  {
    && IsPath(m, path)
    && path[0] in p.sources
    && Avoids(path, Targets(p))
    && (DeadEnd(m, path[|path| - 1]) || path[|path| - 1] in path[..|path| - 1])
  }

  lemma PathSnoc(m: Model, p: seq<State>, s: State)
    requires IsPath(m, p) && Edge(m, p[|p| - 1], s)
    ensures IsPath(m, p + [s])
  {
    var q := p + [s];
    forall i | 0 <= i < |q| - 1 ensures Edge(m, q[i], q[i + 1]) {
      if i < |p| - 1 { assert Edge(m, p[i], p[i + 1]); }
    }
  }

  ghost predicate Distinct(p: seq<State>)
  {
    forall i, j :: 0 <= i < j < |p| ==> p[i] != p[j]
  }

  /** The first state of the list that has no rank. */
  ghost predicate FirstUnranked(states: seq<State>, ranks: map<State, nat>, t: State)
  {
    t !in ranks && exists k :: 0 <= k < |states| && states[k] == t && forall j :: 0 <= j < k ==> states[j] in ranks
  }

  /** Each state is the first unranked one that could come there. */
  ghost predicate FollowsFirst(m: Model, p: Property, ranks: map<State, nat>, path: seq<State>)
  {
    && (path != [] ==> FirstUnranked(p.sources, ranks, path[0]))
    && forall i {:trigger StepsFirst(m, ranks, path, i)} :: 0 < i < |path| ==> StepsFirst(m, ranks, path, i)
  }

  ghost predicate StepsFirst(m: Model, ranks: map<State, nat>, path: seq<State>, i: int)
    requires 0 < i < |path|
  {
    path[i - 1] in m.transitions && FirstUnranked(m.transitions[path[i - 1]], ranks, path[i])
  }

  lemma {:induction false} NonWinningIsFirst(states: seq<State>, ranks: map<State, nat>)
    requires NonWinning(states, ranks) != []
    ensures FirstUnranked(states, ranks, NonWinning(states, ranks)[0])
  {
    if states[0] in ranks {
      NonWinningIsFirst(states[1..], ranks);
      var k :| 0 <= k < |states| - 1 && states[1..][k] == NonWinning(states, ranks)[0]
        && forall j :: 0 <= j < k ==> states[1..][j] in ranks;
      forall j | 0 <= j < k + 1 ensures states[j] in ranks {
        assert j > 0 ==> states[1..][j - 1] == states[j];
      }
      assert states[k + 1] == NonWinning(states, ranks)[0];
    }
  }

  ghost predicate Next(m: Model, p: Property, ranks: map<State, nat>, path: seq<State>, current: State)
  {
    if path == [] then FirstUnranked(p.sources, ranks, current)
    else path[|path| - 1] in m.transitions && FirstUnranked(m.transitions[path[|path| - 1]], ranks, current)
  }

  lemma FollowsOn(m: Model, p: Property, ranks: map<State, nat>, path: seq<State>, current: State)
    requires FollowsFirst(m, p, ranks, path) && Next(m, p, ranks, path, current)
    ensures FollowsFirst(m, p, ranks, path + [current])
  {
    var more := path + [current];
    forall i | 0 < i < |more| ensures StepsFirst(m, ranks, more, i) {
      if i < |path| {
        assert StepsFirst(m, ranks, path, i);
      }
    }
  }

  /** What the walk knows at the head of its loop. */
  ghost predicate Walking(m: Model, p: Property, ranks: map<State, nat>, path: seq<State>, current: State)
  {
    && current in m.transitions && current !in ranks
    && Distinct(path)
    && (forall i :: 0 <= i < |path| ==> path[i] in m.transitions && path[i] !in ranks)
    && if path == [] then current in p.sources
       else IsPath(m, path) && path[0] in p.sources && Edge(m, path[|path| - 1], current)
  }

  lemma WalkOn(m: Model, p: Property, ranks: map<State, nat>, path: seq<State>, current: State)
    requires Loaded(m) && Walking(m, p, ranks, path, current) && Targets(p) <= ranks.Keys
    ensures IsPath(m, path + [current]) && (path + [current])[0] in p.sources
    ensures Avoids(path + [current], Targets(p))
    ensures current !in path ==> Distinct(path + [current])
  {
    if path != [] { PathSnoc(m, path, current); }
  }

  lemma WalkNext(m: Model, p: Property, ranks: map<State, nat>, path: seq<State>, current: State, next: State)
    requires Loaded(m) && Walking(m, p, ranks, path, current) && Targets(p) <= ranks.Keys && current !in path
    requires next in m.transitions[current] && FirstUnranked(m.transitions[current], ranks, next)
    ensures Walking(m, p, ranks, path + [current], next) && Next(m, p, ranks, path + [current], next)
  {
    WalkOn(m, p, ranks, path, current);
    assert Edge(m, current, next);
  }

  /** The first unranked of some states; the internal error of finding none cannot happen. */
  method FirstOpen(states: seq<State>, ranks: map<State, nat>) returns (t: State)
    requires exists s :: s in states && s !in ranks
    ensures t in states && FirstUnranked(states, ranks, t)
  {
    var open := NonWinning(states, ranks);
    assert exists s :: s in open;
    NonWinningIsFirst(states, ranks);
    t := open[0];
    assert t in open;
  }

  /** Walk through unranked states; the two internal errors of the loop cannot happen. */
  method Counterexample(m: Model, p: Property, ranks: map<State, nat>) returns (path: seq<State>)
    requires Loaded(m) && LoadedProperty(m, p.id, p)
    requires Saturated(m, ranks) && Targets(p) <= ranks.Keys
    requires exists s :: s in p.sources && s !in ranks
    ensures Refutes(m, p, path) && Distinct(path[..|path| - 1]) && FollowsFirst(m, p, ranks, path)
  {
    var current := FirstOpen(p.sources, ranks);
    path := [];
    var seen: set<State> := {};
    while true
      invariant Walking(m, p, ranks, path, current)
      invariant forall s :: s in seen <==> s in path
      invariant FollowsFirst(m, p, ranks, path) && Next(m, p, ranks, path, current)
      decreases m.transitions.Keys - seen
    {
      WalkOn(m, p, ranks, path, current);
      FollowsOn(m, p, ranks, path, current);
      ghost var walked := path;
      path := path + [current];
      assert path[..|path| - 1] == walked && path[|path| - 1] == current;
      if current in seen {
        return;
      }
      assert current !in Targets(p);
      seen := seen + {current};
      var successors := m.transitions[current];
      if successors == [] {
        return;
      }
      assert Blocked(m, ranks, current);
      var next := FirstOpen(successors, ranks);
      WalkNext(m, p, ranks, walked, current, next);
      current := next;
    }
  }

  /**
   The prover answers "proved" exactly when the property holds, the ranks it reports are the unique
   saturated rank map, and the checker accepts whatever it emits.
   */
  method Prove(m: Model, digest: string, id: string, scan: seq<State>) returns (r: Result<Certificate, ProveError>)
    requires Loaded(m)
    requires forall s :: s in scan <==> s in m.states
    ensures id !in m.properties <==> r == Err(UnknownProperty)
    ensures r.Ok? ==> CheckCertificate(m, digest, r.value) == Accepted
    ensures r.Ok? && Holds(m, m.properties[id]) ==>
              exists ranks :: r.value == Proved(digest, m.properties[id], ranks) && IsFixedPoint(m, m.properties[id], ranks)
    ensures r.Ok? && !Holds(m, m.properties[id]) ==>
              exists path :: r.value == Disproved(digest, m.properties[id], path) && Refutes(m, m.properties[id], path)
  {
    if id !in m.properties {
      return Err(UnknownProperty);
    }
    var p := m.properties[id];
    var ranks := ComputeRanks(m, p, scan);
    HoldsExactly(m, p, ranks);
    if forall s :: s in p.sources ==> s in ranks {
      r := Ok(Proved(digest, p, ranks));
      ProvedIsAccepted(m, digest, p, ranks);
      assert IsFixedPoint(m, p, ranks);
    } else {
      var path := Counterexample(m, p, ranks);
      r := Ok(Disproved(digest, p, path));
      DisprovedIsAccepted(m, digest, p, path);
    }
  }

  ghost predicate IsFixedPoint(m: Model, p: Property, ranks: map<State, nat>)
  {
    && Descending(m, Targets(p), ranks) && Tight(m, Targets(p), ranks) && Saturated(m, ranks)
    && forall s :: s in p.sources ==> s in ranks
  }

  lemma HoldsExactly(m: Model, p: Property, ranks: map<State, nat>)
    requires Loaded(m) && LoadedProperty(m, p.id, p)
    requires Descending(m, Targets(p), ranks) && Tight(m, Targets(p), ranks) && Saturated(m, ranks)
    ensures Holds(m, p) <==> forall s :: s in p.sources ==> s in ranks
  {
    RankedExactly(m, Targets(p), ranks);
  }

  // ---- the checker ----

  predicate RankEntry(m: Model, state: string, rank: Json)
  {
    state in m.transitions && rank.JInt? && rank.number >= 0
  }

  /** The scan over one rank entry of a "proved" certificate. */
  predicate RankStep(m: Model, targets: set<State>, ranks: map<State, int>, s: State)
    requires s in ranks && s in m.transitions
  {
    if ranks[s] == 0 then s in targets
    else
      && s !in targets
      && m.transitions[s] != []
      && forall t :: t in m.transitions[s] ==> t in ranks && ranks[t] < ranks[s]
  }

  predicate RanksAccepted(m: Model, p: Property, claim: Json)
  {
    && claim.JObject? && claim.fields != map[]
    && (forall s :: s in claim.fields ==> RankEntry(m, s, claim.fields[s]))
    && var ranks := map s | s in claim.fields :: claim.fields[s].number;
       && (forall s :: s in p.sources ==> s in ranks)
       && (forall s :: s in ranks ==> RankStep(m, Targets(p), ranks, s))
  }

  predicate PathAccepted(m: Model, p: Property, path: Json)
  {
    && path.JArray? && path.items != []
    && (forall i :: 0 <= i < |path.items| ==> path.items[i].JString?)
    && path.items[0].text in p.sources
    && (forall i :: 0 <= i < |path.items| ==> path.items[i].text !in Targets(p))
    && (forall i :: 0 <= i < |path.items| - 1 ==>
          path.items[i].text in m.transitions && path.items[i + 1].text in m.transitions[path.items[i].text])
    && var end := path.items[|path.items| - 1];
       (end.text in m.transitions && m.transitions[end.text] == []) || end in path.items[..|path.items| - 1]
  }

  /** Any decoded JSON object may be presented; a property id that Python cannot hash raises. */
  function CheckCertificate(m: Model, digest: string, c: Certificate): Verdict
  {
    if !EqualsOne(Member(c, "schema_version")) then Rejected
    else if Member(c, "checker") != JString("mkso.af-rank.v1") then Rejected
    else if Member(c, "model_sha256") != JString(digest) then Rejected
    else
      var raw := Member(c, "property");
      if !raw.JObject? then Rejected
      else
        var id := Member(raw.fields, "id");
        if id.JArray? || id.JObject? then Raised
        else if !id.JString? || id.text !in m.properties then Rejected
        else
          var p := m.properties[id.text];
          if raw != PropertyRecord(p) then Rejected
          else if Member(c, "result") == JString("proved") then
            if RanksAccepted(m, p, Member(c, "ranks")) then Accepted else Rejected
          else if Member(c, "result") == JString("disproved") then
            if PathAccepted(m, p, Member(c, "counterexample")) then Accepted else Rejected
          else Rejected
  }

  /** The property an accepted certificate is about. */
  function Subject(c: Certificate): string
  {
    var raw := Member(c, "property");
    if raw.JObject? && Member(raw.fields, "id").JString? then Member(raw.fields, "id").text else ""
  }

  // ---- completeness: everything the prover emits is accepted ----

  lemma RankRecordAccepted(m: Model, p: Property, ranks: map<State, nat>)
    requires Loaded(m) && LoadedProperty(m, p.id, p) && IsFixedPoint(m, p, ranks)
    ensures RanksAccepted(m, p, RankRecord(ranks))
  {
    var fields := RankRecord(ranks).fields;
    assert p.sources[0] in p.sources;
    assert p.sources[0] in fields;
    var claimed := map s | s in fields :: fields[s].number;
    assert claimed == ranks;
    forall s | s in claimed ensures s in m.transitions && RankStep(m, Targets(p), claimed, s) {}
  }

  lemma ProvedMembers(digest: string, p: Property, ranks: map<State, nat>)
    ensures var c := Proved(digest, p, ranks);
            && Member(c, "schema_version") == JInt(1)
            && Member(c, "checker") == JString("mkso.af-rank.v1")
            && Member(c, "model_sha256") == JString(digest)
            && Member(c, "property") == PropertyRecord(p)
            && Member(c, "result") == JString("proved")
            && Member(c, "ranks") == RankRecord(ranks)
  {
  }

  lemma ProvedIsAccepted(m: Model, digest: string, p: Property, ranks: map<State, nat>)
    requires Loaded(m) && p.id in m.properties && m.properties[p.id] == p
    requires IsFixedPoint(m, p, ranks)
    ensures CheckCertificate(m, digest, Proved(digest, p, ranks)) == Accepted
  {
    assert LoadedProperty(m, p.id, p);
    RankRecordAccepted(m, p, ranks);
    ProvedMembers(digest, p, ranks);
  }

  lemma DisprovedIsAccepted(m: Model, digest: string, p: Property, path: seq<State>)
    requires Loaded(m) && p.id in m.properties && m.properties[p.id] == p
    requires Refutes(m, p, path)
    ensures CheckCertificate(m, digest, Disproved(digest, p, path)) == Accepted
  {
    var c := Disproved(digest, p, path);
    var js := Strings(path);
    forall i | 0 <= i < |js| - 1
      ensures js[i].text in m.transitions && js[i + 1].text in m.transitions[js[i].text]
    {
      assert Edge(m, path[i], path[i + 1]);
    }
    assert PathAccepted(m, p, JArray(js));
    assert LoadedProperty(m, p.id, p);
  }

  // ---- soundness: an accepted certificate is true of the model, whoever wrote it ----

  lemma AcceptedRanksProve(m: Model, p: Property, claim: Json)
    requires Loaded(m) && LoadedProperty(m, p.id, p) && RanksAccepted(m, p, claim)
    ensures Holds(m, p)
  {
    var claimed: map<State, nat> := map s | s in claim.fields :: claim.fields[s].number;
    assert Descending(m, Targets(p), claimed) by {
      assert forall s :: s in claimed ==> RankStep(m, Targets(p), claimed, s);
    }
    forall s | s in p.sources ensures Eventually(m, s, Targets(p)) {
      RankedEventually(m, Targets(p), claimed, s);
    }
  }

  /** The index reached after `i` steps of a walk that closes its loop at position `back`. */
  function Unroll(length: nat, back: nat, i: nat): (k: nat)
    requires back < length - 1
    ensures k < length - 1
  {
    if i == 0 then 0
    else
      var before := Unroll(length, back, i - 1);
      if before + 1 == length - 1 then back else before + 1
  }

  lemma LassoNeverMeets(m: Model, targets: set<State>, path: seq<State>)
    requires IsPath(m, path) && Avoids(path, targets) && path[|path| - 1] in path[..|path| - 1]
    ensures !Eventually(m, path[0], targets)
  {
    var back :| 0 <= back < |path| - 1 && path[back] == path[|path| - 1];
    var r := (i: nat) => path[Unroll(|path|, back, i)];
    forall i: nat ensures Moves(m, r, i) {
      var k := Unroll(|path|, back, i);
      assert Edge(m, path[k], path[k + 1]);
    }
    assert IsRun(m, r) && r(0) == path[0];
  }

  lemma AcceptedPathDisproves(m: Model, p: Property, path: Json)
    requires Loaded(m) && LoadedProperty(m, p.id, p) && PathAccepted(m, p, path)
    ensures !Holds(m, p)
  {
    var n := |path.items|;
    var walk := seq(n, i requires 0 <= i < n => path.items[i].text);
    forall i | 0 <= i < n - 1 ensures Edge(m, walk[i], walk[i + 1]) {
      assert path.items[i + 1].text in m.transitions[path.items[i].text];
    }
    assert IsPath(m, walk) && Avoids(walk, Targets(p));
    if path.items[n - 1] in path.items[..n - 1] {
      var k :| 0 <= k < n - 1 && path.items[k] == path.items[n - 1];
      assert walk[..n - 1][k] == walk[n - 1];
      LassoNeverMeets(m, Targets(p), walk);
    } else {
      assert DeadEnd(m, walk[|walk| - 1]);
    }
  }

  /** An accepted certificate decides its property, and it decides it correctly. */
  lemma AcceptedIsTrue(m: Model, digest: string, c: Certificate)
    requires Loaded(m) && CheckCertificate(m, digest, c) == Accepted
    ensures Subject(c) in m.properties
    ensures Holds(m, m.properties[Subject(c)]) ==> Member(c, "result") == JString("proved")
    ensures !Holds(m, m.properties[Subject(c)]) ==> Member(c, "result") == JString("disproved")
  {
    var p := m.properties[Subject(c)];
    if Member(c, "result") == JString("proved") {
      AcceptedRanksProve(m, p, Member(c, "ranks"));
    } else {
      AcceptedPathDisproves(m, p, Member(c, "counterexample"));
    }
  }

  /** No property ever has both a proof and a refutation accepted. */
  lemma NeverBothAccepted(m: Model, digest: string, c: Certificate, d: Certificate)
    requires Loaded(m)
    requires CheckCertificate(m, digest, c) == Accepted && CheckCertificate(m, digest, d) == Accepted
    requires Subject(c) == Subject(d)
    ensures Member(c, "result") == Member(d, "result")
  {
    AcceptedIsTrue(m, digest, c);
    AcceptedIsTrue(m, digest, d);
  }

  /** Two proofs the prover emits for one property carry the same ranks, whatever the scan orders were. */
  lemma ScanOrderIrrelevant(m: Model, digest: string, p: Property, a: map<State, nat>, b: map<State, nat>)
    requires Loaded(m) && LoadedProperty(m, p.id, p) && IsFixedPoint(m, p, a) && IsFixedPoint(m, p, b)
    ensures Proved(digest, p, a) == Proved(digest, p, b)
    ensures forall s :: s in a ==> LongestToTarget(m, Targets(p), s, a[s])
  {
    RanksAreDetermined(m, Targets(p), a, b);
    forall s | s in a ensures LongestToTarget(m, Targets(p), s, a[s]) {
      RankIsLongest(m, Targets(p), a, s);
    }
  }
}
