/** On every maximal path a target is met. */
module AllPathsEventually {
  /*
   A maximal path is a run that never stops or a finite path into a dead end. The rank lemmas relate that
   meaning to the rank maps which the prover builds and which certificates carry.
   */

  type State = string

  datatype Property = Property(id: string, sources: seq<State>, targets: seq<State>)

  datatype Model = Model(
    states: seq<State>,
    transitions: map<State, seq<State>>,
    properties: map<string, Property>)

  /** What the loader has established before a model reaches the prover or the checker. */
  ghost predicate Loaded(m: Model)
  {
    && m.states != []
    && m.transitions.Keys == (set s | s in m.states)
    && (forall s, t :: s in m.transitions && t in m.transitions[s] ==> t in m.transitions)
    && (forall id :: id in m.properties ==> LoadedProperty(m, id, m.properties[id]))
  }

  ghost predicate LoadedProperty(m: Model, id: string, p: Property)
  {
    && p.id == id
    && p.sources != [] && (forall s :: s in p.sources ==> s in m.transitions)
    && p.targets != [] && (forall s :: s in p.targets ==> s in m.transitions)
  }

  function Targets(p: Property): set<State>
  {
    set s | s in p.targets
  }

  ghost predicate Edge(m: Model, s: State, t: State)
  {
    s in m.transitions && t in m.transitions[s]
  }

  ghost predicate DeadEnd(m: Model, s: State)
  {
    s in m.transitions && m.transitions[s] == []
  }

  ghost predicate IsPath(m: Model, p: seq<State>)
  {
    |p| > 0 && p[0] in m.transitions && forall i :: 0 <= i < |p| - 1 ==> Edge(m, p[i], p[i + 1])
  }

  ghost predicate IsRun(m: Model, r: nat -> State)
  {
    forall i: nat {:trigger Moves(m, r, i)} :: Moves(m, r, i)
  }

  ghost predicate Moves(m: Model, r: nat -> State, i: nat)
  {
    Edge(m, r(i), r(i + 1))
  }

  ghost predicate Avoids(p: seq<State>, targets: set<State>)
  {
    forall i :: 0 <= i < |p| ==> p[i] !in targets
  }

  ghost predicate Eventually(m: Model, s: State, targets: set<State>)
  {
    && (forall r: nat -> State :: IsRun(m, r) && r(0) == s ==> exists i: nat :: r(i) in targets)
    && (forall p :: IsPath(m, p) && p[0] == s && DeadEnd(m, p[|p| - 1]) ==> !Avoids(p, targets))
  }

  ghost predicate Holds(m: Model, p: Property)
  {
    forall s :: s in p.sources ==> Eventually(m, s, Targets(p))
  }

  // ---- rank maps ----

  /** Zero means target; every other ranked state has successors, all of them ranked lower. */
  ghost predicate Descending(m: Model, targets: set<State>, ranks: map<State, nat>)
  {
    forall s :: s in ranks ==>
      if ranks[s] == 0 then s in targets
      else s !in targets && s in m.transitions && m.transitions[s] != [] &&
           forall t :: t in m.transitions[s] ==> t in ranks && ranks[t] < ranks[s]
  }

  /** Ranks are one more than the greatest successor rank, and no state is ranked that the model lacks. */
  ghost predicate Tight(m: Model, targets: set<State>, ranks: map<State, nat>)
  {
    && targets <= ranks.Keys <= m.transitions.Keys
    && forall s {:trigger StepsDown(m, ranks, s)} :: s in ranks && s !in targets ==> StepsDown(m, ranks, s)
  }

  ghost predicate StepsDown(m: Model, ranks: map<State, nat>, s: State)
  {
    s in m.transitions && s in ranks && exists t :: t in m.transitions[s] && t in ranks && ranks[s] == ranks[t] + 1
  }

  /** Nothing more can be ranked. */
  ghost predicate Saturated(m: Model, ranks: map<State, nat>)
  {
    forall s {:trigger Blocked(m, ranks, s)} :: Blocked(m, ranks, s)
  }

  /** The state is ranked, or it is a dead end, or it has an unranked successor. */
  ghost predicate Blocked(m: Model, ranks: map<State, nat>, s: State)
  {
    s in m.transitions && s !in ranks ==>
      m.transitions[s] == [] || exists t :: t in m.transitions[s] && t !in ranks
  }

  lemma {:induction false} RankedRunMeets(
      m: Model, targets: set<State>, ranks: map<State, nat>, r: nat -> State, i: nat)
    requires Descending(m, targets, ranks) && IsRun(m, r) && r(i) in ranks
    ensures exists j: nat :: r(j) in targets
    decreases ranks[r(i)]
  {
    if ranks[r(i)] != 0 {
      assert Moves(m, r, i);
      RankedRunMeets(m, targets, ranks, r, i + 1);
    }
  }

  lemma {:induction false} RankedPathMeets(
      m: Model, targets: set<State>, ranks: map<State, nat>, p: seq<State>, i: nat)
    requires Descending(m, targets, ranks) && IsPath(m, p) && DeadEnd(m, p[|p| - 1])
    requires i < |p| && p[i] in ranks
    ensures !Avoids(p, targets)
    decreases ranks[p[i]]
  {
    if ranks[p[i]] != 0 {
      assert i < |p| - 1;
      assert Edge(m, p[i], p[i + 1]);
      RankedPathMeets(m, targets, ranks, p, i + 1);
    }
  }

  /** A descending rank map proves the property at every state it ranks. */
  lemma RankedEventually(m: Model, targets: set<State>, ranks: map<State, nat>, s: State)
    requires Descending(m, targets, ranks) && s in ranks
    ensures Eventually(m, s, targets)
  {
    forall r: nat -> State | IsRun(m, r) && r(0) == s ensures exists i: nat :: r(i) in targets {
      RankedRunMeets(m, targets, ranks, r, 0);
    }
    forall p | IsPath(m, p) && p[0] == s && DeadEnd(m, p[|p| - 1]) ensures !Avoids(p, targets) {
      RankedPathMeets(m, targets, ranks, p, 0);
    }
  }

  /** The successors the prover could not rank, in successor order. */
  function NonWinning(successors: seq<State>, ranks: map<State, nat>): (r: seq<State>)
    ensures forall t :: t in r <==> t in successors && t !in ranks
  {
    if successors == [] then []
    else if successors[0] in ranks then NonWinning(successors[1..], ranks)
    else [successors[0]] + NonWinning(successors[1..], ranks)
  }

  /** The n-th state of the walk that always leaves through the first unranked successor. */
  ghost function Losing(m: Model, ranks: map<State, nat>, s: State, n: nat): (t: State)
    requires Loaded(m) && Saturated(m, ranks) && s in m.transitions && s !in ranks
    ensures t in m.transitions && t !in ranks
  {
    if n == 0 then s else Leave(m, ranks, Losing(m, ranks, s, n - 1))
  }

  /** One step of the walk; at a dead end it stays where it is. */
  ghost function Leave(m: Model, ranks: map<State, nat>, s: State): (t: State)
    requires Loaded(m) && Saturated(m, ranks) && s in m.transitions && s !in ranks
    ensures t in m.transitions && t !in ranks
    ensures DeadEnd(m, s) || Edge(m, s, t)
  {
    if m.transitions[s] == [] then s
    else
      var open := NonWinning(m.transitions[s], ranks);
      assert Blocked(m, ranks, s);
      assert open[0] in open;
      open[0]
  }

  lemma {:induction false} LosingPath(m: Model, ranks: map<State, nat>, s: State, n: nat) returns (p: seq<State>)
    requires Loaded(m) && Saturated(m, ranks) && s in m.transitions && s !in ranks
    requires forall k: nat :: k < n ==> !DeadEnd(m, Losing(m, ranks, s, k))
    ensures IsPath(m, p) && |p| == n + 1 && p[0] == s && p[n] == Losing(m, ranks, s, n)
    ensures forall i :: 0 <= i < |p| ==> p[i] !in ranks
  {
    if n == 0 {
      p := [s];
    } else {
      var q := LosingPath(m, ranks, s, n - 1);
      var last := q[n - 1];
      p := q + [Leave(m, ranks, last)];
      assert !DeadEnd(m, Losing(m, ranks, s, n - 1));
      forall i | 0 <= i < |p| - 1 ensures Edge(m, p[i], p[i + 1]) {
        if i < |q| - 1 { assert Edge(m, q[i], q[i + 1]); }
      }
    }
  }

  lemma AvoidingDeadEnd(m: Model, targets: set<State>, p: seq<State>)
    requires IsPath(m, p) && Avoids(p, targets) && DeadEnd(m, p[|p| - 1])
    ensures !Eventually(m, p[0], targets)
  {
  }

  lemma {:induction false} LosingDeadEnd(
      m: Model, targets: set<State>, ranks: map<State, nat>, s: State, n: nat)
    requires Loaded(m) && Saturated(m, ranks) && s in m.transitions && s !in ranks && targets <= ranks.Keys
    requires DeadEnd(m, Losing(m, ranks, s, n))
    requires forall k: nat :: k < n ==> !DeadEnd(m, Losing(m, ranks, s, k))
    ensures !Eventually(m, s, targets)
  {
    var p := LosingPath(m, ranks, s, n);
    AvoidingDeadEnd(m, targets, p);
  }

  ghost function LosingRun(m: Model, ranks: map<State, nat>, s: State): nat -> State
    requires Loaded(m) && Saturated(m, ranks) && s in m.transitions && s !in ranks
  {
    (n: nat) => Losing(m, ranks, s, n)
  }

  lemma LosingRunMoves(m: Model, ranks: map<State, nat>, s: State)
    requires Loaded(m) && Saturated(m, ranks) && s in m.transitions && s !in ranks
    requires forall k: nat :: !DeadEnd(m, Losing(m, ranks, s, k))
    ensures IsRun(m, LosingRun(m, ranks, s))
  {
    forall i: nat ensures Moves(m, LosingRun(m, ranks, s), i) {
    }
  }

  lemma LosingForever(m: Model, targets: set<State>, ranks: map<State, nat>, s: State)
    requires Loaded(m) && Saturated(m, ranks) && s in m.transitions && s !in ranks && targets <= ranks.Keys
    requires forall k: nat :: !DeadEnd(m, Losing(m, ranks, s, k))
    ensures !Eventually(m, s, targets)
  {
    LosingRunMoves(m, ranks, s);
  }

  /** A property of numbers that holds somewhere has a first place. */
  lemma {:induction false} FirstDeadEnd(m: Model, ranks: map<State, nat>, s: State, n: nat) returns (first: nat)
    requires Loaded(m) && Saturated(m, ranks) && s in m.transitions && s !in ranks
    requires DeadEnd(m, Losing(m, ranks, s, n))
    ensures DeadEnd(m, Losing(m, ranks, s, first))
    ensures forall k: nat :: k < first ==> !DeadEnd(m, Losing(m, ranks, s, k))
  {
    first := n;
    if k: nat :| k < n && DeadEnd(m, Losing(m, ranks, s, k)) {
      first := FirstDeadEnd(m, ranks, s, k);
    }
  }

  /** In a saturated map an unranked state has a maximal path that never meets a target. */
  lemma {:induction false} UnrankedNotEventually(m: Model, targets: set<State>, ranks: map<State, nat>, s: State)
    requires Loaded(m) && Saturated(m, ranks) && targets <= ranks.Keys
    requires s in m.transitions && s !in ranks
    ensures !Eventually(m, s, targets)
  {
    if n: nat :| DeadEnd(m, Losing(m, ranks, s, n)) {
      var first := FirstDeadEnd(m, ranks, s, n);
      LosingDeadEnd(m, targets, ranks, s, first);
    } else {
      LosingForever(m, targets, ranks, s);
    }
  }

  /** The least fixed point is exactly the set of states where the property holds. */
  lemma RankedExactly(m: Model, targets: set<State>, ranks: map<State, nat>)
    requires Loaded(m) && Descending(m, targets, ranks) && Tight(m, targets, ranks) && Saturated(m, ranks)
    ensures forall s :: s in m.transitions ==> (s in ranks <==> Eventually(m, s, targets))
  {
    forall s | s in m.transitions ensures s in ranks <==> Eventually(m, s, targets) {
      if s in ranks {
        RankedEventually(m, targets, ranks, s);
      } else {
        UnrankedNotEventually(m, targets, ranks, s);
      }
    }
  }

  // ---- what one rank says ----

  /** `n` edges is the longest way from `s` to a first target, and no path avoids the targets for longer. */
  ghost predicate LongestToTarget(m: Model, targets: set<State>, s: State, n: nat)
  {
    && (exists p :: FirstHit(m, targets, s, p) && |p| == n + 1)
    && (forall p :: IsPath(m, p) && p[0] == s && Avoids(p, targets) ==> |p| <= n)
  }

  /** A path from `s` that meets the targets in its last state only. */
  ghost predicate FirstHit(m: Model, targets: set<State>, s: State, p: seq<State>)
  {
    IsPath(m, p) && p[0] == s && p[|p| - 1] in targets && Avoids(p[..|p| - 1], targets)
  }

  lemma PathCons(m: Model, s: State, q: seq<State>)
    requires IsPath(m, q) && Edge(m, s, q[0])
    ensures IsPath(m, [s] + q)
  {
    var p := [s] + q;
    forall i | 0 <= i < |p| - 1 ensures Edge(m, p[i], p[i + 1]) {
      if i > 0 { assert Edge(m, q[i - 1], q[i]); }
    }
  }

  lemma PathTail(m: Model, p: seq<State>)
    requires Loaded(m) && IsPath(m, p) && |p| > 1
    ensures IsPath(m, p[1..]) && Edge(m, p[0], p[1])
  {
    var q := p[1..];
    assert Edge(m, p[0], p[1]);
    forall i | 0 <= i < |q| - 1 ensures Edge(m, q[i], q[i + 1]) {
      assert Edge(m, p[i + 1], p[i + 1 + 1]);
    }
  }

  lemma {:induction false} RankIsReached(m: Model, targets: set<State>, ranks: map<State, nat>, s: State)
    returns (p: seq<State>)
    requires Loaded(m) && Descending(m, targets, ranks) && Tight(m, targets, ranks) && s in ranks
    ensures FirstHit(m, targets, s, p) && |p| == ranks[s] + 1
    decreases ranks[s]
  {
    if ranks[s] == 0 {
      p := [s];
    } else {
      assert StepsDown(m, ranks, s);
      var t :| t in m.transitions[s] && t in ranks && ranks[s] == ranks[t] + 1;
      var q := RankIsReached(m, targets, ranks, t);
      p := [s] + q;
      PathCons(m, s, q);
      assert p[..|p| - 1] == [s] + q[..|q| - 1];
    }
  }

  lemma {:induction false} RankBounds(m: Model, targets: set<State>, ranks: map<State, nat>, p: seq<State>)
    requires Loaded(m) && Descending(m, targets, ranks) && IsPath(m, p) && Avoids(p, targets) && p[0] in ranks
    ensures |p| <= ranks[p[0]]
  {
    assert p[0] !in targets;
    if |p| > 1 {
      PathTail(m, p);
      assert Avoids(p[1..], targets);
      RankBounds(m, targets, ranks, p[1..]);
    }
  }

  lemma RankIsLongest(m: Model, targets: set<State>, ranks: map<State, nat>, s: State)
    requires Loaded(m) && Descending(m, targets, ranks) && Tight(m, targets, ranks) && s in ranks
    ensures LongestToTarget(m, targets, s, ranks[s])
  {
    var p := RankIsReached(m, targets, ranks, s);
    forall p | IsPath(m, p) && p[0] == s && Avoids(p, targets) ensures |p| <= ranks[s] {
      RankBounds(m, targets, ranks, p);
    }
  }

  lemma LongestIsUnique(m: Model, targets: set<State>, s: State, n: nat, n': nat)
    requires LongestToTarget(m, targets, s, n) && LongestToTarget(m, targets, s, n')
    ensures n <= n'
  {
    var p :| FirstHit(m, targets, s, p) && |p| == n + 1;
    if n > 0 {
      assert IsPath(m, p[..n]) && p[..n][0] == s;
    }
  }

  lemma RanksAgree(m: Model, targets: set<State>, a: map<State, nat>, b: map<State, nat>, s: State)
    requires Loaded(m) && s in a && s in b
    requires Descending(m, targets, a) && Tight(m, targets, a)
    requires Descending(m, targets, b) && Tight(m, targets, b)
    ensures a[s] == b[s]
  {
    RankIsLongest(m, targets, a, s);
    RankIsLongest(m, targets, b, s);
    LongestIsUnique(m, targets, s, a[s], b[s]);
    LongestIsUnique(m, targets, s, b[s], a[s]);
  }

  lemma SameStatesRanked(m: Model, targets: set<State>, a: map<State, nat>, b: map<State, nat>, s: State)
    requires Loaded(m) && s in a && a.Keys <= m.transitions.Keys && targets <= b.Keys
    requires Descending(m, targets, a) && Saturated(m, b)
    ensures s in b
  {
    RankedEventually(m, targets, a, s);
    if s !in b {
      UnrankedNotEventually(m, targets, b, s);
    }
  }

  /** Two saturated rank maps of one model agree, so the order in which states are scanned is irrelevant. */
  lemma RanksAreDetermined(m: Model, targets: set<State>, a: map<State, nat>, b: map<State, nat>)
    requires Loaded(m)
    requires Descending(m, targets, a) && Tight(m, targets, a) && Saturated(m, a)
    requires Descending(m, targets, b) && Tight(m, targets, b) && Saturated(m, b)
    ensures a == b
  {
    forall s ensures s in a <==> s in b {
      if s in a { SameStatesRanked(m, targets, a, b, s); }
      if s in b { SameStatesRanked(m, targets, b, a, s); }
    }
    forall s | s in a ensures a[s] == b[s] {
      RanksAgree(m, targets, a, b, s);
    }
  }
}
