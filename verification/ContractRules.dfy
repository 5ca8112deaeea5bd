/**
 When a contract is admitted, said of its subjects and the index's occurrences and entries: which subjects may be bound,
 which edges are shown, and that shown and declared edges answer each other.
 */
module ContractRules {
  import opened Common
  import opened Sequences
  import opened SourceRanges
  import opened ScipIndex
  import opened ScipContract

  // ---- subjects ----

  predicate IsBound(subjects: seq<Subject>, s: Subject)
  {
    s in subjects && s.selector.Some?
  }

  predicate Defines(index: Index, i: int, path: string, symbol: string)
  {
    && 0 <= i < |index.occurrences|
    && index.occurrences[i].isDefinition && index.occurrences[i].path == path && index.occurrences[i].symbol == symbol
  }

  predicate Describes(index: Index, i: int, path: string, symbol: string)
  {
    0 <= i < |index.symbols| && index.symbols[i].path == Some(path) && index.symbols[i].symbol == symbol
  }

  /** One definition and one entry, in the document that the contract names. */
  ghost predicate FoundOnce(index: Index, path: string, symbol: string)
  {
    && (exists i :: Defines(index, i, path, symbol) && forall j :: Defines(index, j, path, symbol) ==> j == i)
    && exists i :: Describes(index, i, path, symbol) && forall j :: Describes(index, j, path, symbol) ==> j == i
  }

  /** A subject with a selector names an indexed path, a frozen language and a global symbol found once; others do not. */
  ghost predicate SubjectFollows(index: Index, policy: Policy, s: Subject)
  {
    match s.selector
    case None => s.path != "" && s.path !in policy.indexedPaths
    case Some(selector) =>
      && s.path != "" && s.path in policy.indexedPaths && s.path in index.languages
      && selector.symbol != "" && (forall rest :: selector.symbol != "local " + rest)
      && selector.language != "" && selector.language in policy.languages
      && policy.languages[selector.language] == index.languages[s.path]
      && FoundOnce(index, s.path, selector.symbol)
  }

  /** The range around the subject's definition. */
  ghost predicate Encloses(index: Index, s: Subject, range: Range)
    requires s.selector.Some?
  {
    exists i :: Defines(index, i, s.path, s.selector.value.symbol) && index.occurrences[i].enclosing == Some(range)
  }

  ghost predicate SubjectsFollow(index: Index, policy: Policy, subjects: seq<Subject>)
  {
    && (forall i, j :: 0 <= i < |subjects| && 0 <= j < |subjects| && subjects[i].id == subjects[j].id ==> i == j)
    && (forall s :: s in subjects ==> SubjectFollows(index, policy, s))
    && (forall s, t :: IsBound(subjects, s) && IsBound(subjects, t) && s != t ==>
          s.path != t.path || s.selector.value.symbol != t.selector.value.symbol)
    && SeveralHaveRanges(index, subjects)
  }

  // ---- declared edges ----

  ghost predicate Declares(subjects: seq<Subject>, s: Subject, i: int)
  {
    IsBound(subjects, s) && 0 <= i < |s.selector.value.expected|
  }

  /** Of a known kind, to a bound subject, and at most one of a kind to a target. */
  ghost predicate DeclarationsFollow(subjects: seq<Subject>)
  {
    && (forall s, i {:trigger Declares(subjects, s, i)} :: Declares(subjects, s, i) ==>
          var d := s.selector.value.expected[i];
          d.kind.Some? && exists t :: IsBound(subjects, t) && t.id == d.target)
    && forall s :: IsBound(subjects, s) ==> OneEach(subjects, s)
  }

  /** The contract declares this edge, as required or not. */
  ghost predicate DeclaresEdge(subjects: seq<Subject>, s: Subject, kind: Kind, t: Subject)
  {
    exists i {:trigger Declares(subjects, s, i)} ::
      Declares(subjects, s, i) && s.selector.value.expected[i].kind == Some(kind) && s.selector.value.expected[i].target == t.id
  }

  ghost predicate RequiresEdge(subjects: seq<Subject>, s: Subject, kind: Kind, t: Subject)
  {
    exists i {:trigger Declares(subjects, s, i)} ::
      Declares(subjects, s, i) && s.selector.value.expected[i].kind == Some(kind) && s.selector.value.expected[i].target == t.id
      && s.selector.value.expected[i].required
  }

  // ---- shown edges ----

  /** The subject's range is around the occurrence. */
  ghost predicate Around(index: Index, subjects: seq<Subject>, s: Subject, range: Range, o: Occurrence)
  {
    IsBound(subjects, s) && s.path == o.path && Encloses(index, s, range) && Inside(o.range, range)
  }

  /** The subject's range is around the occurrence and strictly inside that of every other subject around it. */
  ghost predicate Owns(index: Index, subjects: seq<Subject>, s: Subject, o: Occurrence)
  {
    exists range :: Around(index, subjects, s, range, o)
      && forall u, wider :: Around(index, subjects, u, wider, o) && u != s ==> Inside(range, wider) && range != wider
  }

  predicate RefersToSubject(subjects: seq<Subject>, o: Occurrence, t: Subject)
  {
    IsBound(subjects, t) && !o.isDefinition && o.symbol == t.selector.value.symbol
  }

  /** The relationship's flag for the kind; a plain reference is no relationship. */
  predicate HasFlag(r: Relation, kind: Kind)
  {
    || (kind == RelationshipReference && r.isReference) || (kind == Implementation && r.isImplementation)
    || (kind == TypeDefinition && r.isTypeDefinition) || (kind == Definition && r.isDefinition)
  }

  ghost predicate ShowsReference(index: Index, subjects: seq<Subject>, s: Subject, t: Subject, i: int)
  {
    && 0 <= i < |index.occurrences|
    && RefersToSubject(subjects, index.occurrences[i], t) && Owns(index, subjects, s, index.occurrences[i])
  }

  predicate ShowsRelationship(index: Index, s: Subject, kind: Kind, t: Subject, j: int, k: int)
    requires s.selector.Some? && t.selector.Some?
  {
    && Describes(index, j, s.path, s.selector.value.symbol) && 0 <= k < |index.symbols[j].relations|
    && index.symbols[j].relations[k].target == t.selector.value.symbol && HasFlag(index.symbols[j].relations[k], kind)
  }

  /** The index shows the edge: a reference owned by the source, or a relationship of the source's entry. */
  ghost predicate ShowsEdge(index: Index, subjects: seq<Subject>, s: Subject, kind: Kind, t: Subject)
  {
    && IsBound(subjects, s) && IsBound(subjects, t)
    && (|| (kind == Reference && exists i :: ShowsReference(index, subjects, s, t, i))
        || exists j, k :: ShowsRelationship(index, s, kind, t, j, k))
  }

  /** Someone's range is around a reference to a subject. */
  ghost predicate Within(index: Index, subjects: seq<Subject>, o: Occurrence)
  {
    && (exists t :: RefersToSubject(subjects, o, t))
    && exists s, range :: Around(index, subjects, s, range, o)
  }

  /** Every reference to a subject from inside some subject has an owner. */
  ghost predicate OwnersFollow(index: Index, subjects: seq<Subject>)
  {
    forall i :: 0 <= i < |index.occurrences| && Within(index, subjects, index.occurrences[i]) ==>
      exists owner :: Owns(index, subjects, owner, index.occurrences[i])
  }

  /** A required edge is shown, and a shown edge is declared. */
  ghost predicate EdgeFollows(index: Index, subjects: seq<Subject>, s: Subject, kind: Kind, t: Subject)
  {
    && (RequiresEdge(subjects, s, kind, t) ==> ShowsEdge(index, subjects, s, kind, t))
    && (ShowsEdge(index, subjects, s, kind, t) ==> DeclaresEdge(subjects, s, kind, t))
  }

  ghost predicate EdgesFollow(index: Index, subjects: seq<Subject>)
  {
    forall s, kind, t :: IsBound(subjects, s) && IsBound(subjects, t) ==> EdgeFollows(index, subjects, s, kind, t)
  }

  // ---- bound subjects and their bindings ----

  ghost predicate Distinct(subjects: seq<Subject>)
  {
    forall i, j :: 0 <= i < |subjects| && 0 <= j < |subjects| && subjects[i].id == subjects[j].id ==> i == j
  }

  lemma {:induction false} BindingsAre(index: Index, subjects: seq<Subject>)
    requires Distinct(subjects)
    ensures forall id :: id in BindingsOf(index, subjects) <==> exists s :: IsBound(subjects, s) && s.id == id
    ensures forall s :: IsBound(subjects, s) ==>
      s.id in BindingsOf(index, subjects) && BindingsOf(index, subjects)[s.id] == BindingOf(index, s)
  {
    if subjects != [] {
      var before, last := subjects[..|subjects| - 1], subjects[|subjects| - 1];
      BindingsAre(index, before);
      assert forall s :: s in subjects <==> s in before || s == last;
      forall s | s in before ensures s.id != last.id {
        var i :| 0 <= i < |before| && before[i] == s;
        assert subjects[i] == s;
      }
    }
  }

  function DefinitionsAt(index: Index, path: string, symbol: string, n: nat): set<int>
  {
    set i | 0 <= i < n && Defines(index, i, path, symbol)
  }

  lemma {:induction false} DefinitionsCount(index: Index, path: string, symbol: string, n: nat)
    requires n <= |index.occurrences|
    ensures |Definitions(index.occurrences[..n], path, symbol)| == |DefinitionsAt(index, path, symbol, n)|
    ensures forall o :: o in Definitions(index.occurrences[..n], path, symbol) <==>
      exists i :: i in DefinitionsAt(index, path, symbol, n) && index.occurrences[i] == o
  {
    if n > 0 {
      DefinitionsCount(index, path, symbol, n - 1);
      assert index.occurrences[..n][..n - 1] == index.occurrences[..n - 1];
      assert DefinitionsAt(index, path, symbol, n) ==
        DefinitionsAt(index, path, symbol, n - 1) + if Defines(index, n - 1, path, symbol) then {n - 1} else {};
    }
  }

  function EntriesAt(index: Index, path: string, symbol: string, n: nat): set<int>
  {
    set i | 0 <= i < n && Describes(index, i, path, symbol)
  }

  lemma {:induction false} EntriesCount(index: Index, path: string, symbol: string, n: nat)
    requires n <= |index.symbols|
    ensures |Infos(index.symbols[..n], path, symbol)| == |EntriesAt(index, path, symbol, n)|
  {
    if n > 0 {
      EntriesCount(index, path, symbol, n - 1);
      assert index.symbols[..n][..n - 1] == index.symbols[..n - 1];
      assert EntriesAt(index, path, symbol, n) ==
        EntriesAt(index, path, symbol, n - 1) + if Describes(index, n - 1, path, symbol) then {n - 1} else {};
    }
  }

  lemma FoundOnceIs(index: Index, path: string, symbol: string)
    ensures FoundOnce(index, path, symbol) <==>
      |Definitions(index.occurrences, path, symbol)| == 1 && |Infos(index.symbols, path, symbol)| == 1
  {
    DefinitionsCount(index, path, symbol, |index.occurrences|);
    EntriesCount(index, path, symbol, |index.symbols|);
    assert index.occurrences[..|index.occurrences|] == index.occurrences && index.symbols[..|index.symbols|] == index.symbols;
    var d, e := DefinitionsAt(index, path, symbol, |index.occurrences|), EntriesAt(index, path, symbol, |index.symbols|);
    forall i ensures i in d <==> Defines(index, i, path, symbol) {
    }
    forall i ensures i in e <==> Describes(index, i, path, symbol) {
    }
    OneElement(d);
    OneElement(e);
  }

  lemma SubjectIs(index: Index, policy: Policy, s: Subject)
    ensures SubjectOk(index, policy, s) <==> SubjectFollows(index, policy, s)
  {
    if s.selector.Some? {
      var symbol := s.selector.value.symbol;
      FoundOnceIs(index, s.path, symbol);
      if IsLocal(symbol) {
        assert symbol == "local " + symbol[6..];
      }
      if rest :| symbol == "local " + rest {
        assert symbol[..6] == "local ";
      }
    }
  }

  /** The binding's enclosing range is the one around the subject's definition. */
  lemma EnclosingIs(index: Index, s: Subject, range: Range)
    requires s.selector.Some? && FoundOnce(index, s.path, s.selector.value.symbol)
    ensures BindingOf(index, s).enclosing == Some(range) <==> Encloses(index, s, range)
  {
    var path, symbol := s.path, s.selector.value.symbol;
    FoundOnceIs(index, path, symbol);
    DefinitionsCount(index, path, symbol, |index.occurrences|);
    assert index.occurrences[..|index.occurrences|] == index.occurrences;
    var found := Definitions(index.occurrences, path, symbol);
    assert found[0] in found;
    var i :| i in DefinitionsAt(index, path, symbol, |index.occurrences|) && index.occurrences[i] == found[0];
    assert Defines(index, i, path, symbol);
  }

  lemma SubjectsAre(index: Index, policy: Policy, subjects: seq<Subject>)
    ensures DistinctIds(subjects) <==> Distinct(subjects)
    ensures SubjectsOk(index, policy, subjects) <==> forall s :: s in subjects ==> SubjectFollows(index, policy, s)
  {
    forall s ensures SubjectOk(index, policy, s) <==> SubjectFollows(index, policy, s) {
      SubjectIs(index, policy, s);
    }
    if forall s :: s in subjects ==> SubjectFollows(index, policy, s) {
      forall i | 0 <= i < |subjects| ensures SubjectOk(index, policy, subjects[i]) {
        assert subjects[i] in subjects;
      }
    }
  }

  lemma SameIdSame(subjects: seq<Subject>, s: Subject, t: Subject)
    requires Distinct(subjects) && s in subjects && t in subjects && s.id == t.id
    ensures s == t
  {
    var i :| 0 <= i < |subjects| && subjects[i] == s;
    var j :| 0 <= j < |subjects| && subjects[j] == t;
  }

  lemma SelectorsAre(index: Index, subjects: seq<Subject>)
    requires Distinct(subjects)
    ensures DistinctSelectors(BindingsOf(index, subjects)) <==>
      forall s, t :: IsBound(subjects, s) && IsBound(subjects, t) && s != t ==>
        s.path != t.path || s.selector.value.symbol != t.selector.value.symbol
  {
    var bindings := BindingsOf(index, subjects);
    BindingsAre(index, subjects);
    if DistinctSelectors(bindings) {
      forall s, t | IsBound(subjects, s) && IsBound(subjects, t) && s != t
        ensures s.path != t.path || s.selector.value.symbol != t.selector.value.symbol
      {
        if s.id == t.id {
          SameIdSame(subjects, s, t);
        }
        assert bindings[s.id] == BindingOf(index, s) && bindings[t.id] == BindingOf(index, t);
      }
    }
  }

  lemma SubjectEnclosed(index: Index, subjects: seq<Subject>, s: Subject)
    requires Distinct(subjects) && IsBound(subjects, s) && FoundOnce(index, s.path, s.selector.value.symbol)
    ensures s.id in BindingsOf(index, subjects)
    ensures BindingsOf(index, subjects)[s.id].enclosing.Some? <==> exists range :: Encloses(index, s, range)
  {
    BindingsAre(index, subjects);
    var enclosing := BindingOf(index, s).enclosing;
    if enclosing.Some? {
      EnclosingIs(index, s, enclosing.value);
    }
    if range :| Encloses(index, s, range) {
      EnclosingIs(index, s, range);
    }
  }

  ghost predicate HasRange(index: Index, s: Subject)
    requires s.selector.Some?
  {
    exists range :: Encloses(index, s, range)
  }

  /** If several are bound, each has a range. */
  ghost predicate SeveralHaveRanges(index: Index, subjects: seq<Subject>)
  {
    forall s, t :: IsBound(subjects, s) && IsBound(subjects, t) && s != t ==> HasRange(index, s)
  }

  ghost predicate AllFound(index: Index, subjects: seq<Subject>)
  {
    forall s :: IsBound(subjects, s) ==> FoundOnce(index, s.path, s.selector.value.symbol)
  }

  lemma EnclosedHaveRanges(index: Index, subjects: seq<Subject>)
    requires Distinct(subjects) && AllFound(index, subjects) && Enclosed(BindingsOf(index, subjects))
    ensures SeveralHaveRanges(index, subjects)
  {
    forall s, t | IsBound(subjects, s) && IsBound(subjects, t) && s != t ensures HasRange(index, s) {
      SubjectEnclosed(index, subjects, s);
      SubjectEnclosed(index, subjects, t);
      SeveralBound(subjects, BindingsOf(index, subjects).Keys, s, t);
    }
  }

  lemma RangedAreEnclosed(index: Index, subjects: seq<Subject>)
    requires Distinct(subjects) && AllFound(index, subjects) && SeveralHaveRanges(index, subjects)
    ensures Enclosed(BindingsOf(index, subjects))
  {
    var bindings := BindingsOf(index, subjects);
    if |bindings| > 1 {
      forall id | id in bindings ensures bindings[id].enclosing.Some? {
        var s := BoundUnder(index, subjects, id);
        var t := AnotherBound(index, subjects, s);
        assert HasRange(index, s);
        SubjectEnclosed(index, subjects, s);
      }
    }
  }

  lemma BoundUnder(index: Index, subjects: seq<Subject>, id: string) returns (s: Subject)
    requires Distinct(subjects) && id in BindingsOf(index, subjects)
    ensures IsBound(subjects, s) && s.id == id
  {
    BindingsAre(index, subjects);
    s :| IsBound(subjects, s) && s.id == id;
  }

  lemma AnotherBound(index: Index, subjects: seq<Subject>, s: Subject) returns (t: Subject)
    requires Distinct(subjects) && |BindingsOf(index, subjects)| > 1 && IsBound(subjects, s)
    ensures IsBound(subjects, t) && t != s
  {
    var others := BindingsOf(index, subjects).Keys - {s.id};
    assert |BindingsOf(index, subjects).Keys| == |BindingsOf(index, subjects)|;
    assert |others| > 0;
    var id := ElementOf(others);
    t := BoundUnder(index, subjects, id);
  }

  lemma SeveralBound(subjects: seq<Subject>, ids: set<string>, s: Subject, t: Subject)
    requires Distinct(subjects) && IsBound(subjects, s) && IsBound(subjects, t) && s != t && s.id in ids && t.id in ids
    ensures |ids| > 1
  {
    if s.id == t.id {
      SameIdSame(subjects, s, t);
    }
    assert |ids - {s.id}| == |ids| - 1 && t.id in ids - {s.id};
  }

  // ---- declarations ----

  lemma {:induction false} OwnAre(source: string, expected: seq<Expected>)
    ensures |OwnDeclarations(source, expected)| == |expected|
    ensures forall i :: 0 <= i < |expected| ==> OwnDeclarations(source, expected)[i] == Declaration(source, expected[i])
  {
    if expected != [] {
      OwnAre(source, expected[..|expected| - 1]);
    }
  }

  ghost predicate DeclaredBy(subjects: seq<Subject>, s: Subject, i: int, d: Declaration)
  {
    Declares(subjects, s, i) && d == Declaration(s.id, s.selector.value.expected[i])
  }

  lemma {:induction false} DeclarationsAre(subjects: seq<Subject>)
    ensures forall d :: d in Declarations(subjects) <==> exists s, i :: DeclaredBy(subjects, s, i, d)
  {
    if subjects != [] {
      var before, last := subjects[..|subjects| - 1], subjects[|subjects| - 1];
      var own := OwnDeclarations(last.id, ExpectedOf(last));
      DeclarationsAre(before);
      OwnAre(last.id, ExpectedOf(last));
      assert forall s :: s in subjects <==> s in before || s == last;
      forall d | d in Declarations(subjects) ensures exists s, i :: DeclaredBy(subjects, s, i, d) {
        if d in Declarations(before) {
          var s, i :| DeclaredBy(before, s, i, d);
          assert DeclaredBy(subjects, s, i, d);
        } else {
          var i :| 0 <= i < |own| && own[i] == d;
          assert DeclaredBy(subjects, last, i, d);
        }
      }
      forall s, i, d | DeclaredBy(subjects, s, i, d) ensures d in Declarations(subjects) {
        if s in before {
          assert DeclaredBy(before, s, i, d);
        } else {
          assert own[i] == d;
        }
      }
    }
  }

  lemma DistinctSplits(a: seq<Declaration>, b: seq<Declaration>)
    ensures DistinctEdges(a + b) <==>
      DistinctEdges(a) && DistinctEdges(b) && forall d, e :: d in a && e in b ==> EdgeOf(d) != EdgeOf(e)
  {
    var whole := a + b;
    if DistinctEdges(whole) {
      forall i, j | 0 <= i < j < |a| ensures EdgeOf(a[i]) != EdgeOf(a[j]) {
        assert EdgeOf(whole[i]) != EdgeOf(whole[j]);
      }
      forall i, j | 0 <= i < j < |b| ensures EdgeOf(b[i]) != EdgeOf(b[j]) {
        assert EdgeOf(whole[|a| + i]) != EdgeOf(whole[|a| + j]);
      }
      forall d, e | d in a && e in b ensures EdgeOf(d) != EdgeOf(e) {
        var i :| 0 <= i < |a| && a[i] == d;
        var j :| 0 <= j < |b| && b[j] == e;
        assert EdgeOf(whole[i]) != EdgeOf(whole[|a| + j]);
      }
    }
    if DistinctEdges(a) && DistinctEdges(b) && forall d, e :: d in a && e in b ==> EdgeOf(d) != EdgeOf(e) {
      forall i, j | 0 <= i < j < |whole| ensures EdgeOf(whole[i]) != EdgeOf(whole[j]) {
        if i < |a| && j >= |a| {
          assert whole[i] in a && whole[j] in b;
        } else if i >= |a| {
          assert EdgeOf(b[i - |a|]) != EdgeOf(b[j - |a|]);
        }
      }
    }
  }

  ghost predicate OwnDistinct(s: Subject)
  {
    s.selector.Some? ==> DistinctEdges(OwnDeclarations(s.id, s.selector.value.expected))
  }

  lemma {:induction false} DistinctEdgesAre(subjects: seq<Subject>)
    requires Distinct(subjects)
    ensures DistinctEdges(Declarations(subjects)) <==> forall s :: s in subjects ==> OwnDistinct(s)
  {
    if subjects != [] {
      var before, last := subjects[..|subjects| - 1], subjects[|subjects| - 1];
      var own := OwnDeclarations(last.id, ExpectedOf(last));
      assert OwnDistinct(last) <==> DistinctEdges(own);
      DistinctEdgesAre(before);
      DistinctSplits(Declarations(before), own);
      DeclarationsAre(before);
      OwnAre(last.id, ExpectedOf(last));
      assert forall s :: s in subjects <==> s in before || s == last;
      forall d, e | d in Declarations(before) && e in own ensures EdgeOf(d) != EdgeOf(e) {
        var s, i :| DeclaredBy(before, s, i, d);
        var k :| 0 <= k < |before| && before[k] == s;
        assert subjects[k] == s && subjects[|subjects| - 1] == last;
      }
    }
  }

  /** No two declarations of the subject are of one kind and to one target. */
  ghost predicate OneEach(subjects: seq<Subject>, s: Subject)
  {
    forall i, j {:trigger Declares(subjects, s, i), Declares(subjects, s, j)} ::
      Declares(subjects, s, i) && Declares(subjects, s, j) && i != j ==>
        var d, e := s.selector.value.expected[i], s.selector.value.expected[j]; d.kind != e.kind || d.target != e.target
  }

  lemma OwnDistinctIs(subjects: seq<Subject>, s: Subject)
    requires IsBound(subjects, s) && forall i :: 0 <= i < |s.selector.value.expected| ==> s.selector.value.expected[i].kind.Some?
    ensures OwnDistinct(s) <==> OneEach(subjects, s)
  {
    var expected := s.selector.value.expected;
    var own := OwnDeclarations(s.id, expected);
    OwnAre(s.id, expected);
    if OwnDistinct(s) {
      forall i, j | 0 <= i < j < |expected|
        ensures expected[i].kind != expected[j].kind || expected[i].target != expected[j].target
      {
        assert EdgeOf(own[i]) != EdgeOf(own[j]);
      }
    }
    if OneEach(subjects, s) {
      forall i, j | 0 <= i < j < |own| ensures EdgeOf(own[i]) != EdgeOf(own[j]) {
        assert Declares(subjects, s, i) && Declares(subjects, s, j);
      }
    }
  }

  // ---- observed edges are shown edges ----

  /** Distinct subjects, each found once in the index. */
  ghost predicate Settled(index: Index, subjects: seq<Subject>)
  {
    Distinct(subjects) && AllFound(index, subjects)
  }

  lemma BoundIs(index: Index, subjects: seq<Subject>, s: Subject)
    requires Settled(index, subjects) && IsBound(subjects, s)
    ensures s.id in BindingsOf(index, subjects)
    ensures var b := BindingsOf(index, subjects)[s.id];
      b.path == s.path && b.symbol == s.selector.value.symbol
      && forall range :: b.enclosing == Some(range) <==> Encloses(index, s, range)
  {
    BindingsAre(index, subjects);
    assert FoundOnce(index, s.path, s.selector.value.symbol);
    forall range ensures BindingOf(index, s).enclosing == Some(range) <==> Encloses(index, s, range) {
      EnclosingIs(index, s, range);
    }
  }

  /** The range is a candidate for the occurrence under the subject's identifier. */
  predicate Offers(c: Candidates, id: string, range: Range)
  {
    id in c && c[id] == range
  }

  lemma CandidateIs(index: Index, subjects: seq<Subject>, s: Subject, o: Occurrence, range: Range)
    requires Settled(index, subjects) && IsBound(subjects, s)
    ensures Offers(CandidatesFor(BindingsOf(index, subjects), o), s.id, range) <==> Around(index, subjects, s, range, o)
  {
    BoundIs(index, subjects, s);
  }

  lemma OwnerIs(index: Index, subjects: seq<Subject>, s: Subject, o: Occurrence)
    requires Settled(index, subjects) && IsBound(subjects, s)
    ensures Innermost(CandidatesFor(BindingsOf(index, subjects), o), s.id) <==> Owns(index, subjects, s, o)
  {
    var c := CandidatesFor(BindingsOf(index, subjects), o);
    if Innermost(c, s.id) {
      var range := c[s.id];
      CandidateIs(index, subjects, s, o, range);
      forall u, wider | Around(index, subjects, u, wider, o) && u != s ensures Inside(range, wider) && range != wider {
        CandidateIs(index, subjects, u, o, wider);
        if u.id == s.id {
          SameIdSame(subjects, u, s);
        }
        assert c[u.id].Contains(c[s.id]);
      }
    }
    if Owns(index, subjects, s, o) {
      var range :| Around(index, subjects, s, range, o)
        && forall u, wider :: Around(index, subjects, u, wider, o) && u != s ==> Inside(range, wider) && range != wider;
      CandidateIs(index, subjects, s, o, range);
      forall id | id in c ensures c[id].Contains(c[s.id]) && (id != s.id ==> c[id] != c[s.id]) {
        var u := BoundUnder(index, subjects, id);
        CandidateIs(index, subjects, u, o, c[id]);
        assert u != s ==> Inside(range, c[id]);
      }
    }
  }

  lemma RefersIs(index: Index, subjects: seq<Subject>, o: Occurrence, t: Subject)
    requires Settled(index, subjects) && IsBound(subjects, t)
    ensures RefersTo(BindingsOf(index, subjects), o, t.id) <==> RefersToSubject(subjects, o, t)
  {
    BoundIs(index, subjects, t);
  }

  lemma AmbiguousIs(index: Index, subjects: seq<Subject>, o: Occurrence)
    requires Settled(index, subjects)
    ensures AmbiguousAt(BindingsOf(index, subjects), o) <==>
      Within(index, subjects, o) && !exists owner :: Owns(index, subjects, owner, o)
  {
    var bindings := BindingsOf(index, subjects);
    var c := CandidatesFor(bindings, o);
    ReferenceIs(index, subjects, o);
    if c != map[] {
      var id := ElementOf(c.Keys);
      var s := BoundUnder(index, subjects, id);
      CandidateIs(index, subjects, s, o, c[id]);
    }
    if s, range :| Around(index, subjects, s, range, o) {
      CandidateIs(index, subjects, s, o, range);
      assert s.id in c;
    }
    if id :| Innermost(c, id) {
      var s := BoundUnder(index, subjects, id);
      OwnerIs(index, subjects, s, o);
    }
    if owner :| Owns(index, subjects, owner, o) {
      OwnerIs(index, subjects, owner, o);
    }
  }

  lemma ReferenceIs(index: Index, subjects: seq<Subject>, o: Occurrence)
    requires Settled(index, subjects)
    ensures (exists target :: RefersTo(BindingsOf(index, subjects), o, target)) <==> exists t :: RefersToSubject(subjects, o, t)
  {
    if target :| RefersTo(BindingsOf(index, subjects), o, target) {
      var t := BoundUnder(index, subjects, target);
      RefersIs(index, subjects, o, t);
    }
    if t :| RefersToSubject(subjects, o, t) {
      RefersIs(index, subjects, o, t);
    }
  }

  lemma ReferencedIs(index: Index, subjects: seq<Subject>, s: Subject, kind: Kind, t: Subject)
    requires Settled(index, subjects) && IsBound(subjects, s) && IsBound(subjects, t)
    ensures Referenced(BindingsOf(index, subjects), index.occurrences, Edge(s.id, kind, t.id)) <==>
      kind == Reference && exists i :: ShowsReference(index, subjects, s, t, i)
  {
    var bindings, e := BindingsOf(index, subjects), Edge(s.id, kind, t.id);
    forall i | 0 <= i < |index.occurrences|
      ensures ObservedBy(bindings, index.occurrences[i], e) <==> kind == Reference && ShowsReference(index, subjects, s, t, i)
    {
      OwnerIs(index, subjects, s, index.occurrences[i]);
      RefersIs(index, subjects, index.occurrences[i], t);
    }
    if kind == Reference && exists i :: ShowsReference(index, subjects, s, t, i) {
      var i :| ShowsReference(index, subjects, s, t, i);
      assert ObservedBy(bindings, index.occurrences[i], e);
    }
  }

  lemma FlagIs(r: Relation, kind: Kind)
    ensures Flagged(r, kind) <==> HasFlag(r, kind)
  {
  }

  lemma RelatedIs(index: Index, subjects: seq<Subject>, s: Subject, kind: Kind, t: Subject)
    requires Settled(index, subjects) && IsBound(subjects, s) && IsBound(subjects, t)
    ensures Related(BindingsOf(index, subjects), index.symbols, Edge(s.id, kind, t.id)) <==>
      exists j, k :: ShowsRelationship(index, s, kind, t, j, k)
  {
    var bindings, e := BindingsOf(index, subjects), Edge(s.id, kind, t.id);
    BoundIs(index, subjects, s);
    BoundIs(index, subjects, t);
    forall r ensures Flagged(r, kind) <==> HasFlag(r, kind) {
      FlagIs(r, kind);
    }
    if Related(bindings, index.symbols, e) {
      var j :| 0 <= j < |index.symbols| && RelatedBy(bindings, index.symbols[j], e);
      var k :| 0 <= k < |index.symbols[j].relations| && index.symbols[j].relations[k].target == bindings[t.id].symbol
        && Flagged(index.symbols[j].relations[k], kind);
      assert ShowsRelationship(index, s, kind, t, j, k);
    }
    if j, k :| ShowsRelationship(index, s, kind, t, j, k) {
      assert RelatedBy(bindings, index.symbols[j], e);
    }
  }

  lemma ObservedIs(index: Index, subjects: seq<Subject>, s: Subject, kind: Kind, t: Subject)
    requires Settled(index, subjects) && IsBound(subjects, s) && IsBound(subjects, t)
    ensures Observed(index, BindingsOf(index, subjects), Edge(s.id, kind, t.id)) <==> ShowsEdge(index, subjects, s, kind, t)
  {
    ReferencedIs(index, subjects, s, kind, t);
    RelatedIs(index, subjects, s, kind, t);
  }

  /** Both ends of an observed edge are bound. */
  lemma ObservedEnds(index: Index, subjects: seq<Subject>, e: Edge)
    requires Observed(index, BindingsOf(index, subjects), e)
    ensures e.source in BindingsOf(index, subjects) && e.target in BindingsOf(index, subjects)
  {
    var bindings := BindingsOf(index, subjects);
    if Referenced(bindings, index.occurrences, e) {
      var i :| 0 <= i < |index.occurrences| && ObservedBy(bindings, index.occurrences[i], e);
      assert e.source in CandidatesFor(bindings, index.occurrences[i]);
    }
  }

  // ---- declared edges ----

  lemma {:induction false} DeclaredValues(ds: seq<Declaration>, i: nat)
    requires DistinctEdges(ds) && i < |ds|
    ensures EdgeOf(ds[i]) in Declared(ds) && Declared(ds)[EdgeOf(ds[i])] == ds[i].expected.required
  {
    if i < |ds| - 1 {
      DeclaredValues(ds[..|ds| - 1], i);
    }
  }

  lemma DeclaredIs(index: Index, subjects: seq<Subject>, s: Subject, kind: Kind, t: Subject)
    requires Distinct(subjects) && IsBound(subjects, s) && DeclarationsOk(Declarations(subjects), BindingsOf(index, subjects))
    ensures var declared := Declared(Declarations(subjects)); var e := Edge(s.id, kind, t.id);
      (e in declared <==> DeclaresEdge(subjects, s, kind, t)) && (e in declared && declared[e] <==> RequiresEdge(subjects, s, kind, t))
  {
    var ds, e := Declarations(subjects), Edge(s.id, kind, t.id);
    DeclaredKeys(ds);
    DeclarationsAre(subjects);
    if e in Declared(ds) {
      var n :| 0 <= n < |ds| && EdgeOf(ds[n]) == e;
      assert DeclarationOk(ds[n], BindingsOf(index, subjects)) && ds[n] in ds;
      DeclaredValues(ds, n);
      var u, i :| DeclaredBy(subjects, u, i, ds[n]);
      SameIdSame(subjects, u, s);
      assert Declares(subjects, s, i);
    }
    forall i | Declares(subjects, s, i) && s.selector.value.expected[i].kind == Some(kind)
        && s.selector.value.expected[i].target == t.id
      ensures e in Declared(ds) && Declared(ds)[e] == s.selector.value.expected[i].required
    {
      var d := Declaration(s.id, s.selector.value.expected[i]);
      assert DeclaredBy(subjects, s, i, d) && d in ds;
      var n :| 0 <= n < |ds| && ds[n] == d;
      DeclaredValues(ds, n);
    }
  }

  lemma DeclaredEnds(index: Index, subjects: seq<Subject>, e: Edge)
    requires Distinct(subjects) && DeclarationsOk(Declarations(subjects), BindingsOf(index, subjects))
    requires e in Declared(Declarations(subjects))
    ensures e.source in BindingsOf(index, subjects) && e.target in BindingsOf(index, subjects)
  {
    var ds := Declarations(subjects);
    DeclaredKeys(ds);
    var n :| 0 <= n < |ds| && EdgeOf(ds[n]) == e;
    assert DeclarationOk(ds[n], BindingsOf(index, subjects)) && ds[n] in ds;
    DeclarationsAre(subjects);
    var s, i :| DeclaredBy(subjects, s, i, ds[n]);
    BindingsAre(index, subjects);
  }

  lemma DeclarationsOkIs(index: Index, subjects: seq<Subject>)
    requires Distinct(subjects)
    ensures DeclarationsOk(Declarations(subjects), BindingsOf(index, subjects)) <==> DeclarationsFollow(subjects)
  {
    var ds, bindings := Declarations(subjects), BindingsOf(index, subjects);
    DeclarationsAre(subjects);
    BindingsAre(index, subjects);
    DistinctEdgesAre(subjects);
    if DeclarationsOk(ds, bindings) {
      DeclarationsOkFollow(index, subjects);
    }
    if DeclarationsFollow(subjects) {
      forall n | 0 <= n < |ds| ensures DeclarationOk(ds[n], bindings) {
        assert ds[n] in ds;
        var s, i :| DeclaredBy(subjects, s, i, ds[n]);
        assert Declares(subjects, s, i);
      }
      forall s | s in subjects ensures OwnDistinct(s) {
        if s.selector.Some? {
          forall i | 0 <= i < |s.selector.value.expected| ensures s.selector.value.expected[i].kind.Some? {
            assert Declares(subjects, s, i);
          }
          OwnDistinctIs(subjects, s);
        }
      }
    }
  }

  lemma DeclarationsOkFollow(index: Index, subjects: seq<Subject>)
    requires Distinct(subjects) && DeclarationsOk(Declarations(subjects), BindingsOf(index, subjects))
    ensures DeclarationsFollow(subjects)
  {
    var ds, bindings := Declarations(subjects), BindingsOf(index, subjects);
    DeclarationsAre(subjects);
    BindingsAre(index, subjects);
    DistinctEdgesAre(subjects);
    forall s, i | Declares(subjects, s, i)
      ensures var d := s.selector.value.expected[i]; d.kind.Some? && exists t :: IsBound(subjects, t) && t.id == d.target
    {
      var d := Declaration(s.id, s.selector.value.expected[i]);
      assert DeclaredBy(subjects, s, i, d) && d in ds;
      var n :| 0 <= n < |ds| && ds[n] == d;
      assert DeclarationOk(ds[n], bindings);
    }
    forall s | IsBound(subjects, s) ensures OneEach(subjects, s) {
      forall i | 0 <= i < |s.selector.value.expected| ensures s.selector.value.expected[i].kind.Some? {
        assert Declares(subjects, s, i);
      }
      assert OwnDistinct(s);
      OwnDistinctIs(subjects, s);
    }
  }

  // ---- the verdict ----

  lemma ShapeIs(index: Index, policy: Policy, subjects: seq<Subject>)
    ensures ShapeOk(index, policy, subjects) <==> SubjectsFollow(index, policy, subjects) && DeclarationsFollow(subjects)
  {
    SubjectsAre(index, policy, subjects);
    if Distinct(subjects) && SubjectsOk(index, policy, subjects) {
      FollowersAreFound(index, policy, subjects);
      SelectorsAre(index, subjects);
      DeclarationsOkIs(index, subjects);
      if Enclosed(BindingsOf(index, subjects)) {
        EnclosedHaveRanges(index, subjects);
      }
      if SeveralHaveRanges(index, subjects) {
        RangedAreEnclosed(index, subjects);
      }
    }
  }

  lemma FollowersAreFound(index: Index, policy: Policy, subjects: seq<Subject>)
    requires forall s :: s in subjects ==> SubjectFollows(index, policy, s)
    ensures AllFound(index, subjects)
  {
    forall s | IsBound(subjects, s) ensures FoundOnce(index, s.path, s.selector.value.symbol) {
      assert SubjectFollows(index, policy, s);
    }
  }

  lemma UnambiguousIs(index: Index, subjects: seq<Subject>)
    requires Settled(index, subjects)
    ensures Unambiguous(BindingsOf(index, subjects), index.occurrences) <==> OwnersFollow(index, subjects)
  {
    forall i | 0 <= i < |index.occurrences|
      ensures AmbiguousAt(BindingsOf(index, subjects), index.occurrences[i]) <==>
        Within(index, subjects, index.occurrences[i]) && !exists owner :: Owns(index, subjects, owner, index.occurrences[i])
    {
      AmbiguousIs(index, subjects, index.occurrences[i]);
    }
  }

  /** Required edges are observed, and observed ones declared. */
  ghost predicate Answered(index: Index, bindings: Bindings, declared: map<Edge, bool>, e: Edge)
  {
    (e in declared && declared[e] ==> Observed(index, bindings, e)) && (Observed(index, bindings, e) ==> e in declared)
  }

  ghost predicate AllAnswered(index: Index, bindings: Bindings, declared: map<Edge, bool>)
  {
    forall e :: Answered(index, bindings, declared, e)
  }

  lemma AnsweredIs(index: Index, subjects: seq<Subject>, s: Subject, kind: Kind, t: Subject)
    requires Settled(index, subjects) && IsBound(subjects, s) && IsBound(subjects, t)
    requires DeclarationsOk(Declarations(subjects), BindingsOf(index, subjects))
    ensures Answered(index, BindingsOf(index, subjects), Declared(Declarations(subjects)), Edge(s.id, kind, t.id)) <==>
      EdgeFollows(index, subjects, s, kind, t)
  {
    ObservedIs(index, subjects, s, kind, t);
    DeclaredIs(index, subjects, s, kind, t);
  }

  lemma EdgesAre(index: Index, subjects: seq<Subject>)
    requires Settled(index, subjects) && DeclarationsOk(Declarations(subjects), BindingsOf(index, subjects))
    ensures AllAnswered(index, BindingsOf(index, subjects), Declared(Declarations(subjects))) <==> EdgesFollow(index, subjects)
  {
    var bindings, declared := BindingsOf(index, subjects), Declared(Declarations(subjects));
    if AllAnswered(index, bindings, declared) {
      forall s, kind, t | IsBound(subjects, s) && IsBound(subjects, t) ensures EdgeFollows(index, subjects, s, kind, t) {
        assert Answered(index, bindings, declared, Edge(s.id, kind, t.id));
        AnsweredIs(index, subjects, s, kind, t);
      }
    }
    if EdgesFollow(index, subjects) {
      forall e ensures Answered(index, bindings, declared, e) {
        EdgeIsAnswered(index, subjects, e);
      }
    }
  }

  lemma EdgeIsAnswered(index: Index, subjects: seq<Subject>, e: Edge)
    requires Settled(index, subjects) && DeclarationsOk(Declarations(subjects), BindingsOf(index, subjects))
    requires EdgesFollow(index, subjects)
    ensures Answered(index, BindingsOf(index, subjects), Declared(Declarations(subjects)), e)
  {
    var bindings, declared := BindingsOf(index, subjects), Declared(Declarations(subjects));
    if Observed(index, bindings, e) || e in declared {
      if Observed(index, bindings, e) {
        ObservedEnds(index, subjects, e);
      } else {
        DeclaredEnds(index, subjects, e);
      }
      var s := BoundUnder(index, subjects, e.source);
      var t := BoundUnder(index, subjects, e.target);
      assert EdgeFollows(index, subjects, s, e.kind, t);
      AnsweredIs(index, subjects, s, e.kind, t);
    }
  }

  /**
   A contract is admitted exactly if its subjects and declarations follow the rules, every reference from inside a
   subject has an owner, every required edge is shown and every shown edge is declared.
   */
  lemma ConformsExactly(index: Index, policy: Policy, subjects: seq<Subject>)
    ensures Conforms(index, policy, subjects) <==>
      && SubjectsFollow(index, policy, subjects) && DeclarationsFollow(subjects)
      && OwnersFollow(index, subjects) && EdgesFollow(index, subjects)
  {
    ShapeIs(index, policy, subjects);
    if ShapeOk(index, policy, subjects) {
      FollowersAreFound(index, policy, subjects);
      UnambiguousIs(index, subjects);
      EdgesAre(index, subjects);
      ClosedIs(index, BindingsOf(index, subjects), Declared(Declarations(subjects)));
    }
  }

  lemma ClosedIs(index: Index, bindings: Bindings, declared: map<Edge, bool>)
    ensures ClosedWorld(index, bindings, declared) <==>
      Unambiguous(bindings, index.occurrences) && AllAnswered(index, bindings, declared)
  {
    if ClosedWorld(index, bindings, declared) {
      forall e ensures Answered(index, bindings, declared, e) {
      }
    }
    if AllAnswered(index, bindings, declared) {
      forall e | e in declared && declared[e] ensures Observed(index, bindings, e) {
        assert Answered(index, bindings, declared, e);
      }
      forall e | Observed(index, bindings, e) ensures e in declared {
        assert Answered(index, bindings, declared, e);
      }
    }
  }
}
