/**
 Binding of a contract's subjects to a validated index, and the closed world of edges between them.
 */
module ScipContract {
  import opened Common
  import opened SourceRanges
  import opened ScipIndex

  datatype Kind = Reference | RelationshipReference | Implementation | TypeDefinition | Definition

  /** A declared relationship; an unsupported kind reads as `None`. */
  datatype Expected = Expected(kind: Option<Kind>, target: string, required: bool)

  /** How a subject selects its symbol; a managed artifact has no selector. */
  datatype Selector = Selector(symbol: string, language: string, expected: seq<Expected>)

  datatype Subject = Subject(id: string, path: string, selector: Option<Selector>)

  datatype Policy = Policy(indexedPaths: set<string>, languages: map<string, string>)

  datatype Binding = Binding(path: string, symbol: string, enclosing: Option<Range>)

  type Bindings = map<string, Binding>

  datatype Edge = Edge(source: string, kind: Kind, target: string)

  datatype Admission = Admission(bindings: Bindings, declared: map<Edge, bool>)

  // ---- binding of subjects ----

  /** The definitions of a symbol in one document. */
  function Definitions(occurrences: seq<Occurrence>, path: string, symbol: string): seq<Occurrence>
  {
    if occurrences == [] then []
    else
      var last := occurrences[|occurrences| - 1];
      Definitions(occurrences[..|occurrences| - 1], path, symbol) +
        if last.path == path && last.symbol == symbol && last.isDefinition then [last] else []
  }

  /** The entries for a symbol in one document. */
  function Infos(symbols: seq<Symbol>, path: string, symbol: string): seq<Symbol>
  {
    if symbols == [] then []
    else
      var last := symbols[|symbols| - 1];
      Infos(symbols[..|symbols| - 1], path, symbol) +
        if last.path == Some(path) && last.symbol == symbol then [last] else []
  }

  predicate SelectorOk(index: Index, policy: Policy, path: string, selector: Selector)
  {
    && path != "" && selector.symbol != "" && selector.language != ""
    && !IsLocal(selector.symbol)
    && path in index.languages
    && selector.language in policy.languages && policy.languages[selector.language] == index.languages[path]
    && |Definitions(index.occurrences, path, selector.symbol)| == 1
    && |Infos(index.symbols, path, selector.symbol)| == 1
  }

  predicate SubjectOk(index: Index, policy: Policy, subject: Subject)
  {
    && subject.path != ""
    && (subject.selector.Some? ==> SelectorOk(index, policy, subject.path, subject.selector.value))
    && (subject.path in policy.indexedPaths <==> subject.selector.Some?)
  }

  function BindingOf(index: Index, subject: Subject): Binding
    requires subject.selector.Some?
  {
    var definitions := Definitions(index.occurrences, subject.path, subject.selector.value.symbol);
    Binding(subject.path, subject.selector.value.symbol, if definitions == [] then None else definitions[0].enclosing)
  }

  predicate DistinctIds(subjects: seq<Subject>)
  {
    forall i, j :: 0 <= i < j < |subjects| ==> subjects[i].id != subjects[j].id
  }

  predicate SubjectsOk(index: Index, policy: Policy, subjects: seq<Subject>)
  {
    forall i :: 0 <= i < |subjects| ==> SubjectOk(index, policy, subjects[i])
  }

  /** Bind the subjects that have selectors. */
  function BindingsOf(index: Index, subjects: seq<Subject>): Bindings
  {
    if subjects == [] then map[]
    else
      var last := subjects[|subjects| - 1];
      var before := BindingsOf(index, subjects[..|subjects| - 1]);
      if last.selector.Some? then before[last.id := BindingOf(index, last)] else before
  }

  /** No two subjects bind one symbol of one document. */
  predicate DistinctSelectors(bindings: Bindings)
  {
    forall a, b :: a in bindings && b in bindings && a != b ==>
      bindings[a].path != bindings[b].path || bindings[a].symbol != bindings[b].symbol
  }

  predicate DistinctSymbols(bindings: Bindings)
  {
    forall a, b :: a in bindings && b in bindings && a != b ==> bindings[a].symbol != bindings[b].symbol
  }

  /** With several subjects, each needs an enclosing range. */
  predicate Enclosed(bindings: Bindings)
  {
    |bindings| > 1 ==> forall id :: id in bindings ==> bindings[id].enclosing.Some?
  }

  // ---- declared edges ----

  datatype Declaration = Declaration(source: string, expected: Expected)

  function OwnDeclarations(source: string, expected: seq<Expected>): seq<Declaration>
  {
    if expected == [] then []
    else OwnDeclarations(source, expected[..|expected| - 1]) + [Declaration(source, expected[|expected| - 1])]
  }

  function ExpectedOf(subject: Subject): seq<Expected>
  {
    if subject.selector.Some? then subject.selector.value.expected else []
  }

  function Declarations(subjects: seq<Subject>): seq<Declaration>
  {
    if subjects == [] then []
    else
      var last := subjects[|subjects| - 1];
      Declarations(subjects[..|subjects| - 1]) + OwnDeclarations(last.id, ExpectedOf(last))
  }

  function EdgeOf(d: Declaration): Edge
  {
    Edge(d.source, if d.expected.kind.Some? then d.expected.kind.value else Reference, d.expected.target)
  }

  predicate DeclarationOk(d: Declaration, bindings: Bindings)
  {
    d.expected.kind.Some? && d.expected.target in bindings
  }

  predicate DistinctEdges(ds: seq<Declaration>)
  {
    forall i, j :: 0 <= i < j < |ds| ==> EdgeOf(ds[i]) != EdgeOf(ds[j])
  }

  predicate DeclarationsOk(ds: seq<Declaration>, bindings: Bindings)
  {
    DistinctEdges(ds) && forall i :: 0 <= i < |ds| ==> DeclarationOk(ds[i], bindings)
  }

  /** The declared edges, each with its `required` flag. */
  function Declared(ds: seq<Declaration>): map<Edge, bool>
  {
    if ds == [] then map[]
    else Declared(ds[..|ds| - 1])[EdgeOf(ds[|ds| - 1]) := ds[|ds| - 1].expected.required]
  }

  // ---- observed edges ----

  /** The subjects whose enclosing range holds the occurrence. */
  function CandidatesFor(bindings: Bindings, o: Occurrence): Candidates
  {
    map id | id in bindings && bindings[id].path == o.path && bindings[id].enclosing.Some?
      && bindings[id].enclosing.value.Contains(o.range) :: bindings[id].enclosing.value
  }

  predicate RefersTo(bindings: Bindings, o: Occurrence, target: string)
  {
    target in bindings && bindings[target].symbol == o.symbol && !o.isDefinition
  }

  /** The occurrence is a reference from the innermost subject around it. */
  ghost predicate ObservedBy(bindings: Bindings, o: Occurrence, e: Edge)
  {
    e.kind == Reference && RefersTo(bindings, o, e.target) && Innermost(CandidatesFor(bindings, o), e.source)
  }

  /** A reference inside some subject, but inside none that lies in all the others. */
  ghost predicate AmbiguousAt(bindings: Bindings, o: Occurrence)
  {
    && (exists target :: RefersTo(bindings, o, target))
    && CandidatesFor(bindings, o) != map[]
    && !exists id :: Innermost(CandidatesFor(bindings, o), id)
  }

  predicate Flagged(r: Relation, kind: Kind)
  {
    match kind
    case Reference => false
    case RelationshipReference => r.isReference
    case Implementation => r.isImplementation
    case TypeDefinition => r.isTypeDefinition
    case Definition => r.isDefinition
  }

  /** A relationship of a subject's own symbol to another subject's symbol. */
  ghost predicate RelatedBy(bindings: Bindings, s: Symbol, e: Edge)
  {
    && e.source in bindings && bindings[e.source].symbol == s.symbol && s.path == Some(bindings[e.source].path)
    && e.target in bindings
    && exists k :: 0 <= k < |s.relations| && s.relations[k].target == bindings[e.target].symbol && Flagged(s.relations[k], e.kind)
  }

  ghost predicate Referenced(bindings: Bindings, occurrences: seq<Occurrence>, e: Edge)
  {
    ReferencedBefore(bindings, occurrences, |occurrences|, e)
  }

  ghost predicate ReferencedBefore(bindings: Bindings, occurrences: seq<Occurrence>, n: nat, e: Edge)
    requires n <= |occurrences|
  {
    exists i :: 0 <= i < n && ObservedBy(bindings, occurrences[i], e)
  }

  ghost predicate Related(bindings: Bindings, symbols: seq<Symbol>, e: Edge)
  {
    exists i :: 0 <= i < |symbols| && RelatedBy(bindings, symbols[i], e)
  }

  ghost predicate Observed(index: Index, bindings: Bindings, e: Edge)
  {
    Referenced(bindings, index.occurrences, e) || Related(bindings, index.symbols, e)
  }

  ghost predicate Unambiguous(bindings: Bindings, occurrences: seq<Occurrence>)
  {
    forall i :: 0 <= i < |occurrences| ==> !AmbiguousAt(bindings, occurrences[i])
  }

  // ---- the verdict ----

  /** Everything that is checked before edges are compared. */
  ghost predicate ShapeOk(index: Index, policy: Policy, subjects: seq<Subject>)
  {
    var bindings := BindingsOf(index, subjects);
    && DistinctIds(subjects) && SubjectsOk(index, policy, subjects)
    && DistinctSelectors(bindings) && Enclosed(bindings)
    && DeclarationsOk(Declarations(subjects), bindings)
  }

  /** Required edges are observed, observed edges are declared. */
  ghost predicate ClosedWorld(index: Index, bindings: Bindings, declared: map<Edge, bool>)
  {
    && Unambiguous(bindings, index.occurrences)
    && (forall e :: e in declared && declared[e] ==> Observed(index, bindings, e))
    && forall e :: Observed(index, bindings, e) ==> e in declared
  }

  ghost predicate Conforms(index: Index, policy: Policy, subjects: seq<Subject>)
  {
    && ShapeOk(index, policy, subjects)
    && ClosedWorld(index, BindingsOf(index, subjects), Declared(Declarations(subjects)))
  }

  // ---- no two subjects share a symbol ----

  lemma {:induction false} InfosComeFrom(symbols: seq<Symbol>, path: string, symbol: string) returns (i: nat)
    requires Infos(symbols, path, symbol) != []
    ensures i < |symbols| && symbols[i].symbol == symbol && symbols[i].path == Some(path)
  {
    var last := symbols[|symbols| - 1];
    if last.path == Some(path) && last.symbol == symbol {
      i := |symbols| - 1;
    } else {
      i := InfosComeFrom(symbols[..|symbols| - 1], path, symbol);
    }
  }

  /** Every binding comes from a subject that passed its checks. */
  lemma {:induction false} BindingComesFrom(index: Index, policy: Policy, subjects: seq<Subject>, id: string)
    requires SubjectsOk(index, policy, subjects) && id in BindingsOf(index, subjects)
    ensures var b := BindingsOf(index, subjects)[id];
      !IsLocal(b.symbol) && |Infos(index.symbols, b.path, b.symbol)| == 1
  {
    var last := subjects[|subjects| - 1];
    if last.selector.None? || last.id != id {
      BindingComesFrom(index, policy, subjects[..|subjects| - 1], id);
    } else {
      assert SubjectOk(index, policy, last);
    }
  }

  /** In a validated index, distinct selectors have distinct symbols: looking a subject up by symbol loses nothing. */
  lemma SubjectsOwnSymbols(index: Index, policy: Policy, subjects: seq<Subject>)
    requires WellFormed(index) && SubjectsOk(index, policy, subjects)
    requires DistinctSelectors(BindingsOf(index, subjects))
    ensures DistinctSymbols(BindingsOf(index, subjects))
  {
    var bindings := BindingsOf(index, subjects);
    forall a, b | a in bindings && b in bindings && a != b ensures bindings[a].symbol != bindings[b].symbol {
      BindingComesFrom(index, policy, subjects, a);
      BindingComesFrom(index, policy, subjects, b);
      var i := InfosComeFrom(index.symbols, bindings[a].path, bindings[a].symbol);
      var j := InfosComeFrom(index.symbols, bindings[b].path, bindings[b].symbol);
      if bindings[a].symbol == bindings[b].symbol {
        GlobalSymbolIsUnique(index, i, j);
      }
    }
  }

  // ---- consequences of acceptance ----

  /**
   In an accepted contract a reference that lies inside any subject is attributed to the innermost subject
   around it, and that edge was declared.
   */
  lemma ReferenceIsDeclared(
      index: Index, policy: Policy, subjects: seq<Subject>, i: nat, target: string, around: string)
    returns (owner: string)
    requires Conforms(index, policy, subjects) && i < |index.occurrences|
    requires RefersTo(BindingsOf(index, subjects), index.occurrences[i], target)
    requires around in CandidatesFor(BindingsOf(index, subjects), index.occurrences[i])
    ensures var candidates := CandidatesFor(BindingsOf(index, subjects), index.occurrences[i]);
      && Innermost(candidates, owner) && candidates[around].Contains(candidates[owner])
      && Edge(owner, Reference, target) in Declared(Declarations(subjects))
  {
    var bindings, o := BindingsOf(index, subjects), index.occurrences[i];
    assert !AmbiguousAt(bindings, o);
    owner :| Innermost(CandidatesFor(bindings, o), owner);
    assert ObservedBy(bindings, o, Edge(owner, Reference, target));
    assert Referenced(bindings, index.occurrences, Edge(owner, Reference, target));
  }

  // ---- the checks, step by step ----

  method CheckIds(subjects: seq<Subject>) returns (errors: nat)
    ensures errors == 0 <==> DistinctIds(subjects)
  {
    errors := 0;
    var ids: set<string> := {};
    for i := 0 to |subjects|
      invariant forall id :: id in ids <==> exists k :: 0 <= k < i && subjects[k].id == id
      invariant errors == 0 <==> forall j, k :: 0 <= j < k < i ==> subjects[j].id != subjects[k].id
    {
      if subjects[i].id in ids {
        errors := errors + 1;
      }
      ids := ids + {subjects[i].id};
    }
  }

  method CheckSubject(index: Index, policy: Policy, subject: Subject, before: Bindings)
    returns (errors: nat, after: Bindings)
    ensures errors == 0 <==> SubjectOk(index, policy, subject)
    ensures errors == 0 ==> after == if subject.selector.Some? then before[subject.id := BindingOf(index, subject)] else before
  {
    errors, after := 0, before;
    if subject.path == "" {
      return 1, before;
    }
    match subject.selector
    case None =>
      if subject.path in policy.indexedPaths {
        errors := 1;
      }
    case Some(selector) =>
      if subject.path !in policy.indexedPaths {
        errors := 1;
      }
      if SelectorOk(index, policy, subject.path, selector) {
        after := before[subject.id := BindingOf(index, subject)];
      } else {
        errors := errors + 1;
      }
  }

  method BindSubjects(index: Index, policy: Policy, subjects: seq<Subject>) returns (errors: nat, bindings: Bindings)
    ensures errors == 0 <==> SubjectsOk(index, policy, subjects)
    ensures errors == 0 ==> bindings == BindingsOf(index, subjects)
  {
    errors, bindings := 0, map[];
    for i := 0 to |subjects|
      invariant errors == 0 <==> forall k :: 0 <= k < i ==> SubjectOk(index, policy, subjects[k])
      invariant errors == 0 ==> bindings == BindingsOf(index, subjects[..i])
    {
      assert subjects[..i + 1][..|subjects[..i + 1]| - 1] == subjects[..i];
      var more, after := CheckSubject(index, policy, subjects[i], bindings);
      errors, bindings := errors + more, after;
    }
    assert subjects[..|subjects|] == subjects;
  }

  /** One owner per selector, taking the bindings in any order. */
  method CheckSelectors(bindings: Bindings) returns (errors: nat)
    ensures errors == 0 <==> DistinctSelectors(bindings)
  {
    errors := 0;
    var owners: set<(string, string)> := {};
    var pending := bindings.Keys;
    while pending != {}
      invariant pending <= bindings.Keys
      invariant forall s :: s in owners <==>
        exists id :: id in bindings.Keys - pending && (bindings[id].path, bindings[id].symbol) == s
      invariant errors == 0 <==> Separate(bindings, bindings.Keys - pending)
      decreases pending
    {
      var id :| id in pending;
      ghost var done := bindings.Keys - pending;
      pending := pending - {id};
      assert bindings.Keys - pending == done + {id};
      var selector := (bindings[id].path, bindings[id].symbol);
      if selector in owners {
        errors := errors + 1;
      } else {
        owners := owners + {selector};
      }
    }
    assert bindings.Keys - pending == bindings.Keys;
  }

  ghost predicate Separate(bindings: Bindings, ids: set<string>)
    requires ids <= bindings.Keys
  {
    forall a, b :: a in ids && b in ids && a != b ==>
      bindings[a].path != bindings[b].path || bindings[a].symbol != bindings[b].symbol
  }

  method CheckEnclosing(bindings: Bindings) returns (errors: nat)
    ensures errors == 0 <==> Enclosed(bindings)
  {
    errors := 0;
    if |bindings| > 1 {
      var pending := bindings.Keys;
      while pending != {}
        invariant pending <= bindings.Keys
        invariant errors == 0 <==> forall id :: id in bindings.Keys - pending ==> bindings[id].enclosing.Some?
        decreases pending
      {
        var id :| id in pending;
        ghost var done := bindings.Keys - pending;
        pending := pending - {id};
        assert bindings.Keys - pending == done + {id};
        if bindings[id].enclosing.None? {
          errors := errors + 1;
        }
      }
      assert bindings.Keys - pending == bindings.Keys;
    }
  }

  /** What the declarations read so far amount to. */
  ghost predicate DeclaredSoFar(ds: seq<Declaration>, bindings: Bindings, errors: nat, declared: map<Edge, bool>)
  {
    && (errors == 0 <==> DeclarationsOk(ds, bindings))
    && (errors == 0 ==> declared == Declared(ds))
  }

  lemma {:induction false} DeclaredKeys(ds: seq<Declaration>)
    ensures forall e :: e in Declared(ds) <==> exists i :: 0 <= i < |ds| && EdgeOf(ds[i]) == e
  {
    if ds != [] {
      var before := ds[..|ds| - 1];
      DeclaredKeys(before);
      forall e | e in Declared(ds) ensures exists i :: 0 <= i < |ds| && EdgeOf(ds[i]) == e {
        if e == EdgeOf(ds[|ds| - 1]) {
          assert EdgeOf(ds[|ds| - 1]) == e;
        } else {
          assert e in Declared(before);
          var i :| 0 <= i < |before| && EdgeOf(before[i]) == e;
          assert EdgeOf(ds[i]) == e;
        }
      }
      forall i | 0 <= i < |ds| ensures EdgeOf(ds[i]) in Declared(ds) {
        assert i < |before| ==> EdgeOf(ds[i]) == EdgeOf(before[i]);
      }
    }
  }

  lemma DeclarationsSnoc(ds: seq<Declaration>, d: Declaration, bindings: Bindings)
    ensures DeclarationsOk(ds + [d], bindings) <==>
      DeclarationsOk(ds, bindings) && DeclarationOk(d, bindings) && EdgeOf(d) !in Declared(ds)
    ensures Declared(ds + [d]) == Declared(ds)[EdgeOf(d) := d.expected.required]
  {
    var more := ds + [d];
    assert more[..|more| - 1] == ds;
    DeclaredKeys(ds);
    if DeclarationsOk(more, bindings) {
      forall i | 0 <= i < |ds| ensures DeclarationOk(ds[i], bindings) && EdgeOf(ds[i]) != EdgeOf(d) {
        assert DeclarationOk(more[i], bindings) && EdgeOf(more[i]) != EdgeOf(more[|ds|]);
      }
      forall i, j | 0 <= i < j < |ds| ensures EdgeOf(ds[i]) != EdgeOf(ds[j]) {
        assert EdgeOf(more[i]) != EdgeOf(more[j]);
      }
      assert more[|ds|] == d;
    }
  }

  method Declare(
      d: Declaration, bindings: Bindings, errors: nat, declared: map<Edge, bool>, ghost before: seq<Declaration>)
    returns (errors': nat, declared': map<Edge, bool>)
    requires DeclaredSoFar(before, bindings, errors, declared)
    ensures DeclaredSoFar(before + [d], bindings, errors', declared')
  {
    DeclarationsSnoc(before, d, bindings);
    errors', declared' := errors, declared;
    if d.expected.kind.None? || d.expected.target !in bindings || EdgeOf(d) in declared {
      errors' := errors + 1;
      return;
    }
    declared' := declared[EdgeOf(d) := d.expected.required];
  }

  method DeclareSubject(
      source: string, expected: seq<Expected>, bindings: Bindings, errors: nat, declared: map<Edge, bool>,
      ghost before: seq<Declaration>)
    returns (errors': nat, declared': map<Edge, bool>)
    requires DeclaredSoFar(before, bindings, errors, declared)
    ensures DeclaredSoFar(before + OwnDeclarations(source, expected), bindings, errors', declared')
  {
    errors', declared' := errors, declared;
    assert before + OwnDeclarations(source, expected[..0]) == before;
    for i := 0 to |expected|
      invariant DeclaredSoFar(before + OwnDeclarations(source, expected[..i]), bindings, errors', declared')
    {
      ghost var more := expected[..i + 1];
      assert more[..|more| - 1] == expected[..i];
      var d := Declaration(source, expected[i]);
      assert before + OwnDeclarations(source, more) == before + OwnDeclarations(source, expected[..i]) + [d];
      errors', declared' := Declare(d, bindings, errors', declared', before + OwnDeclarations(source, expected[..i]));
    }
    assert expected[..|expected|] == expected;
  }

  method DeclareAll(subjects: seq<Subject>, bindings: Bindings) returns (errors: nat, declared: map<Edge, bool>)
    ensures DeclaredSoFar(Declarations(subjects), bindings, errors, declared)
  {
    errors, declared := 0, map[];
    for i := 0 to |subjects|
      invariant DeclaredSoFar(Declarations(subjects[..i]), bindings, errors, declared)
    {
      ghost var more := subjects[..i + 1];
      assert more[..|more| - 1] == subjects[..i];
      errors, declared := DeclareSubject(subjects[i].id, ExpectedOf(subjects[i]), bindings, errors, declared,
        Declarations(subjects[..i]));
    }
    assert subjects[..|subjects|] == subjects;
  }

  /** The lookup finds exactly the subject that binds a symbol. */
  ghost predicate Lookup(bindings: Bindings, bySymbol: map<string, string>)
  {
    forall symbol, id :: (symbol in bySymbol && bySymbol[symbol] == id) <==> (id in bindings && bindings[id].symbol == symbol)
  }

  /** `subject_by_symbol`: a later subject replaces an earlier one with the same symbol. */
  method SubjectBySymbol(bindings: Bindings) returns (bySymbol: map<string, string>)
    ensures DistinctSymbols(bindings) ==> Lookup(bindings, bySymbol)
  {
    bySymbol := map[];
    var pending := bindings.Keys;
    while pending != {}
      invariant pending <= bindings.Keys
      invariant DistinctSymbols(bindings) ==>
        forall symbol, id :: (symbol in bySymbol && bySymbol[symbol] == id) <==>
          (id in bindings.Keys - pending && bindings[id].symbol == symbol)
      decreases pending
    {
      var id :| id in pending;
      ghost var done := bindings.Keys - pending;
      pending := pending - {id};
      assert bindings.Keys - pending == done + {id};
      bySymbol := bySymbol[bindings[id].symbol := id];
    }
    assert bindings.Keys - pending == bindings.Keys;
  }

  /** One occurrence: the edge it shows, or that its owner is ambiguous. */
  method ScanOccurrence(bindings: Bindings, bySymbol: map<string, string>, o: Occurrence)
    returns (edge: Option<Edge>, ambiguous: bool)
    requires Lookup(bindings, bySymbol)
    ensures forall e :: edge == Some(e) <==> ObservedBy(bindings, o, e)
    ensures ambiguous <==> AmbiguousAt(bindings, o)
  {
    edge, ambiguous := None, false;
    if o.symbol !in bySymbol || o.isDefinition {
      return;
    }
    var target, candidates := bySymbol[o.symbol], CandidatesFor(bindings, o);
    assert RefersTo(bindings, o, target);
    assert forall t :: RefersTo(bindings, o, t) ==> t == target;
    var minimal := Minimal(candidates);
    OwnerOf(candidates);
    if |minimal| > 1 {
      ambiguous := true;
    } else if minimal != {} {
      var owner :| owner in minimal;
      SingletonSet(minimal, owner);
      edge := Some(Edge(owner, Reference, target));
      OnlyMinimalIsInnermost(candidates, owner);
      forall e | ObservedBy(bindings, o, e) ensures edge == Some(e) {
      }
    }
  }

  /** How many minimal candidates there are decides between no owner, one, and ambiguity. */
  lemma OwnerOf(c: Candidates)
    ensures Minimal(c) == {} <==> c == map[]
    ensures |Minimal(c)| > 1 <==> c != map[] && !exists id :: Innermost(c, id)
    ensures c == map[] ==> forall id :: !Innermost(c, id)
  {
    if c != map[] {
      ReferenceIsNeverDropped(c);
    } else {
      assert Minimal(c) == {};
    }
  }

  /** The set holds exactly the edges shown by the first occurrences. */
  ghost predicate Collected(bindings: Bindings, occurrences: seq<Occurrence>, n: nat, observed: set<Edge>)
    requires n <= |occurrences|
  {
    forall e :: e in observed <==> ReferencedBefore(bindings, occurrences, n, e)
  }

  lemma CollectedNext(
      bindings: Bindings, occurrences: seq<Occurrence>, n: nat, observed: set<Edge>, edge: Option<Edge>)
    requires n < |occurrences| && Collected(bindings, occurrences, n, observed)
    requires forall e :: edge == Some(e) <==> ObservedBy(bindings, occurrences[n], e)
    ensures Collected(bindings, occurrences, n + 1, if edge.Some? then observed + {edge.value} else observed)
  {
    forall e ensures ReferencedBefore(bindings, occurrences, n + 1, e) <==>
        ReferencedBefore(bindings, occurrences, n, e) || edge == Some(e) {
      assert edge == Some(e) <==> ObservedBy(bindings, occurrences[n], e);
    }
  }

  method ScanReferences(bindings: Bindings, bySymbol: map<string, string>, occurrences: seq<Occurrence>)
    returns (errors: nat, observed: set<Edge>)
    requires Lookup(bindings, bySymbol)
    ensures errors == 0 <==> Unambiguous(bindings, occurrences)
    ensures forall e :: e in observed <==> Referenced(bindings, occurrences, e)
  {
    errors, observed := 0, {};
    for i := 0 to |occurrences|
      invariant errors == 0 <==> forall k :: 0 <= k < i ==> !AmbiguousAt(bindings, occurrences[k])
      invariant Collected(bindings, occurrences, i, observed)
    {
      var edge, ambiguous := ScanOccurrence(bindings, bySymbol, occurrences[i]);
      CollectedNext(bindings, occurrences, i, observed, edge);
      if ambiguous {
        errors := errors + 1;
      }
      if edge.Some? {
        observed := observed + {edge.value};
      }
    }
  }

  /** A relationship of the source's symbol shows the edge. */
  ghost predicate Shows(bindings: Bindings, source: string, r: Relation, e: Edge)
  {
    && e.source == source && Flagged(r, e.kind)
    && e.target in bindings && bindings[e.target].symbol == r.target
  }

  const FLAGGED := [RelationshipReference, Implementation, TypeDefinition, Definition]

  method ScanRelation(bindings: Bindings, bySymbol: map<string, string>, source: string, r: Relation)
    returns (edges: set<Edge>)
    requires Lookup(bindings, bySymbol)
    ensures forall e :: e in edges <==> Shows(bindings, source, r, e)
  {
    edges := {};
    if r.target !in bySymbol {
      return;
    }
    var target := bySymbol[r.target];
    for i := 0 to |FLAGGED|
      invariant forall e :: e in edges <==>
        e.source == source && e.target == target && Flagged(r, e.kind) && e.kind in FLAGGED[..i]
    {
      if Flagged(r, FLAGGED[i]) {
        edges := edges + {Edge(source, FLAGGED[i], target)};
      }
    }
    assert forall kind :: Flagged(r, kind) ==> kind in FLAGGED;
  }

  ghost predicate ShownBy(bindings: Bindings, source: string, relations: seq<Relation>, e: Edge)
  {
    exists k :: 0 <= k < |relations| && Shows(bindings, source, relations[k], e)
  }

  method ScanSymbolOf(bindings: Bindings, bySymbol: map<string, string>, source: string, relations: seq<Relation>)
    returns (edges: set<Edge>)
    requires Lookup(bindings, bySymbol)
    ensures forall e :: e in edges <==> ShownBy(bindings, source, relations, e)
  {
    edges := {};
    for i := 0 to |relations|
      invariant forall e :: e in edges <==> exists k :: 0 <= k < i && Shows(bindings, source, relations[k], e)
    {
      var more := ScanRelation(bindings, bySymbol, source, relations[i]);
      edges := edges + more;
    }
  }

  /** The edges shown by the entries for one subject's symbol in its own document. */
  method ScanSource(bindings: Bindings, bySymbol: map<string, string>, source: string, symbols: seq<Symbol>)
    returns (edges: set<Edge>)
    requires Lookup(bindings, bySymbol) && source in bindings
    ensures forall e :: e in edges <==> e.source == source && Related(bindings, symbols, e)
  {
    edges := {};
    for i := 0 to |symbols|
      invariant forall e :: e in edges <==> e.source == source && exists k :: 0 <= k < i && RelatedBy(bindings, symbols[k], e)
    {
      if symbols[i].symbol == bindings[source].symbol && symbols[i].path == Some(bindings[source].path) {
        var more := ScanSymbolOf(bindings, bySymbol, source, symbols[i].relations);
        edges := edges + more;
        forall e ensures e in more <==> e.source == source && RelatedBy(bindings, symbols[i], e) {
        }
      }
    }
  }

  method ScanRelationships(bindings: Bindings, bySymbol: map<string, string>, symbols: seq<Symbol>)
    returns (edges: set<Edge>)
    requires Lookup(bindings, bySymbol)
    ensures forall e :: e in edges <==> Related(bindings, symbols, e)
  {
    edges := {};
    var pending := bindings.Keys;
    while pending != {}
      invariant pending <= bindings.Keys
      invariant forall e :: e in edges <==> e.source in bindings.Keys - pending && Related(bindings, symbols, e)
      decreases pending
    {
      var source :| source in pending;
      ghost var done := bindings.Keys - pending;
      pending := pending - {source};
      assert bindings.Keys - pending == done + {source};
      var more := ScanSource(bindings, bySymbol, source, symbols);
      edges := edges + more;
    }
    assert bindings.Keys - pending == bindings.Keys;
  }

  /** Missing required edges and undeclared edges. */
  method CompareDeclared(observed: set<Edge>, declared: map<Edge, bool>) returns (errors: nat)
    ensures errors == 0 <==> observed <= declared.Keys && forall e :: e in declared && declared[e] ==> e in observed
  {
    var missing := set e | e in declared && declared[e] && e !in observed;
    var undeclared := observed - declared.Keys;
    errors := |missing| + |undeclared|;
    assert forall e :: e in declared && declared[e] && e !in observed ==> e in missing;
    assert forall e :: e in observed && e !in declared ==> e in undeclared;
    assert observed <= declared.Keys ==> undeclared == {};
    if missing == {} && undeclared == {} {
      forall e | e in observed ensures e in declared {
        assert e !in undeclared;
      }
      forall e | e in declared && declared[e] ensures e in observed {
        assert e !in missing;
      }
    }
  }

  /** Ambiguous owners, missing required edges and undeclared edges. */
  method CompareEdges(index: Index, bindings: Bindings, declared: map<Edge, bool>) returns (errors: nat)
    requires DistinctSymbols(bindings)
    ensures errors == 0 <==> ClosedWorld(index, bindings, declared)
  {
    var bySymbol := SubjectBySymbol(bindings);
    var ambiguous, referenced := ScanReferences(bindings, bySymbol, index.occurrences);
    var related := ScanRelationships(bindings, bySymbol, index.symbols);
    var differing := CompareDeclared(referenced + related, declared);
    errors := ambiguous + differing;
  }

  /**
   `verify_contract_subjects` on a validated index: once the shape checks pass, a contract is admitted exactly
   when no owner is ambiguous, every required edge is observed and every observed edge is declared.
   */
  method VerifySubjects(index: Index, policy: Policy, subjects: seq<Subject>) returns (r: Result<Admission, Rejected>)
    requires WellFormed(index)
    ensures r.Ok? <==> Conforms(index, policy, subjects)
    ensures r.Ok? ==> r.value == Admission(BindingsOf(index, subjects), Declared(Declarations(subjects)))
  {
    var idErrors := CheckIds(subjects);
    var subjectErrors, bindings := BindSubjects(index, policy, subjects);
    var selectorErrors := CheckSelectors(bindings);
    var enclosingErrors := CheckEnclosing(bindings);
    var declarationErrors, declared := DeclareAll(subjects, bindings);
    var errors := idErrors + subjectErrors + selectorErrors + enclosingErrors + declarationErrors;
    if errors != 0 {
      return Err(Rejected(errors));
    }
    SubjectsOwnSymbols(index, policy, subjects);
    var edgeErrors := CompareEdges(index, bindings, declared);
    r := if edgeErrors != 0 then Err(Rejected(edgeErrors)) else Ok(Admission(bindings, declared));
  }
}
