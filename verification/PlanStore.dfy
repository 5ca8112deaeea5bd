/**
 The project store: the active plan, the admitted indexes, and the evidence log, changed by transactions
 that either commit or leave everything as it was.
 */
module PlanStore {
  import opened Common
  import opened Plan
  import opened ScipIndex
  import opened ScipContract
  import Evidence

  type Key = (string, string, string)

  /** A validated index with the source hash of each document. */
  datatype Indexed = Indexed(index: Index, hashes: map<string, string>)

  /** A verified contract: its identity and the exact places its subjects are bound to. */
  datatype Contract = Contract(path: string, sha256: string, subjects: set<(string, string)>)

  datatype AdmissionRow = AdmissionRow(ingestion: string, contract: Contract)

  /** The digests that name stored indexes and admissions. */
  datatype Hashes = Hashes(ingestion: Indexed -> string, admission: (string, Contract) -> string)

  ghost predicate Injective(h: Hashes)
  {
    && (forall x, y {:trigger NamesIndex(h, x, y)} :: NamesIndex(h, x, y))
    && forall a, b {:trigger NamesAdmission(h, a, b)} :: NamesAdmission(h, a, b)
  }

  ghost predicate NamesIndex(h: Hashes, x: Indexed, y: Indexed)
  {
    h.ingestion(x) == h.ingestion(y) ==> x == y
  }

  ghost predicate NamesAdmission(h: Hashes, a: AdmissionRow, b: AdmissionRow)
  {
    h.admission(a.ingestion, a.contract) == h.admission(b.ingestion, b.contract) ==> a == b
  }

  datatype Tables = Tables(
    items: Items,
    obligations: map<string, Obligation>,
    bindings: map<Key, BindingRow>,
    plan: Option<string>,
    revisions: map<string, Manifest>,
    admission: Option<string>,
    admissions: map<string, AdmissionRow>,
    indexes: map<string, Indexed>,
    evidence: seq<Evidence.Record>)

  function Empty(): Tables
  {
    Tables(map[], map[], map[], None, map[], None, map[], map[], [])
  }

  // ---- applying a plan ----

  function ObligationsById(obligations: seq<Obligation>): map<string, Obligation>
  {
    if obligations == [] then map[]
    else
      var last := obligations[|obligations| - 1];
      ObligationsById(obligations[..|obligations| - 1])[last.id := last]
  }

  function Unresolved(b: PlannedBinding): BindingRow
  {
    BindingRow(b, None, None, None)
  }

  function RowsOf(bindings: seq<PlannedBinding>): map<Key, BindingRow>
  {
    if bindings == [] then map[]
    else
      var last := bindings[|bindings| - 1];
      RowsOf(bindings[..|bindings| - 1])[BindingKey(last) := Unresolved(last)]
  }

  /** The tables with the plan in place of the previous one. */
  function Replaced(t: Tables, m: Manifest, hash: string): Tables
  {
    t.(items := ItemsById(m.items), obligations := ObligationsById(m.obligations), bindings := RowsOf(m.bindings),
       plan := Some(hash), revisions := t.revisions[hash := m])
  }

  /** `apply_manifest`: an invalid plan changes nothing. */
  function Apply(t: Tables, m: Manifest, hash: string): (Tables, bool)
  {
    if ValidPlan(m) then (Replaced(t, m, hash), true) else (t, false)
  }

  // ---- admitting an index ----

  /** What validation of the index guarantees. */
  ghost predicate Validated(x: Indexed)
  {
    && WellFormed(x.index)
    && DefinitionsOk(x.index.symbols, x.index.occurrences)
    && x.hashes.Keys == x.index.languages.Keys
  }

  /** Every subject of the contract has one definition in the index. */
  predicate SubjectsAdmitted(x: Indexed, c: Contract)
  {
    && c.subjects != {}
    && forall s :: s in c.subjects ==> s.0 in x.hashes && |Definitions(x.index.occurrences, s.0, s.1)| == 1
  }

  /** One row per definition and symbol entry that join, as the admission query returns them. */
  function Join(symbols: seq<Symbol>, definitions: seq<Occurrence>, hash: string): seq<(string, string)>
  {
    if definitions == [] then []
    else
      var last := definitions[|definitions| - 1];
      Join(symbols, definitions[..|definitions| - 1], hash) +
        seq(|Matching(symbols, last)|, i => (last.symbol, hash))
  }

  function CandidateRows(x: Indexed, file: string, symbol: string): seq<(string, string)>
  {
    if file !in x.hashes then []
    else Join(x.index.symbols, Definitions(x.index.occurrences, file, symbol), x.hashes[file])
  }

  predicate Authorized(c: Contract, row: BindingRow)
  {
    (row.planned.file, row.planned.symbol) in c.subjects
  }

  predicate Resolvable(x: Indexed, c: Contract, row: BindingRow)
  {
    Authorized(c, row) && |CandidateRows(x, row.planned.file, row.planned.symbol)| == 1
  }

  function Resolve(x: Indexed, admission: string, row: BindingRow): BindingRow
  {
    var rows := CandidateRows(x, row.planned.file, row.planned.symbol);
    if |rows| == 1 then BindingRow(row.planned, Some(rows[0].0), Some(rows[0].1), Some(admission))
    else Unresolved(row.planned)
  }

  function IndexUnder(t: Tables, ingestion: string, x: Indexed): Indexed
  {
    if ingestion in t.indexes then t.indexes[ingestion] else x
  }

  /** The tables once every binding is resolved and the admission is active. */
  function Admitted(t: Tables, ingestion: string, admission: string, x: Indexed, c: Contract): Tables
  {
    var stored := IndexUnder(t, ingestion, x);
    t.(indexes := t.indexes[ingestion := stored],
       admissions := if admission in t.admissions then t.admissions else t.admissions[admission := AdmissionRow(ingestion, c)],
       bindings := map k | k in t.bindings :: Resolve(stored, admission, t.bindings[k]),
       admission := Some(admission))
  }

  predicate AllResolvable(x: Indexed, c: Contract, rows: map<Key, BindingRow>)
  {
    forall k :: k in rows ==> Resolvable(x, c, rows[k])
  }

  /** `admit_scip_index` from the point where index and contract have been read: all bindings resolve, or nothing changes. */
  function Admit(h: Hashes, t: Tables, x: Indexed, c: Contract): (Tables, bool)
  {
    var ingestion := h.ingestion(x);
    if SubjectsAdmitted(x, c) && IndexUnder(t, ingestion, x) == x && AllResolvable(x, c, t.bindings)
    then (Admitted(t, ingestion, h.admission(ingestion, c), x, c), true)
    else (t, false)
  }

  // ---- recording evidence ----

  predicate HasEvidence(log: seq<Evidence.Record>, id: string)
  {
    exists i :: 0 <= i < |log| && log[i].id == id
  }

  /** `add_evidence`: identifiers are unique, and nothing is ever removed. */
  function AddEvidence(t: Tables, e: Evidence.Record): (Tables, bool)
  {
    if HasEvidence(t.evidence, e.id) then (t, false) else (t.(evidence := t.evidence + [e]), true)
  }

  // ---- the invariant ----

  /** References between the tables of the active plan hold, and rows are filed under their keys. */
  ghost predicate References(t: Tables)
  {
    && Ranked(t.items)
    && (forall o :: o in t.obligations ==> t.obligations[o].id == o && t.obligations[o].workItem in t.items)
    && forall k :: k in t.bindings ==> BindingKey(t.bindings[k].planned) == k && k.0 in t.obligations
  }

  /** The stored plan is the last one applied, and that one was valid. */
  ghost predicate Holds(t: Tables)
  {
    match t.plan
    case None => t.items == map[] && t.obligations == map[] && t.bindings == map[]
    case Some(hash) =>
      && hash in t.revisions && ValidPlan(t.revisions[hash])
      && t.items == ItemsById(t.revisions[hash].items)
      && t.obligations == ObligationsById(t.revisions[hash].obligations)
      && t.bindings.Keys == RowsOf(t.revisions[hash].bindings).Keys
  }

  /** Stored indexes and admissions are filed under their digests, and the active admission is complete. */
  ghost predicate Filed(h: Hashes, t: Tables)
  {
    && (forall i :: i in t.indexes ==> i == h.ingestion(t.indexes[i]))
    && (forall a :: a in t.admissions ==>
          && a == h.admission(t.admissions[a].ingestion, t.admissions[a].contract)
          && t.admissions[a].ingestion in t.indexes)
    && (t.admission.Some? ==> t.admission.value in t.admissions)
  }

  /** The index behind the active admission. */
  function ActiveIndex(t: Tables): Option<Indexed>
  {
    if t.admission.Some? && t.admission.value in t.admissions
      && t.admissions[t.admission.value].ingestion in t.indexes
    then Some(t.indexes[t.admissions[t.admission.value].ingestion])
    else None
  }

  /**
   The row is resolved by the active admission: to the symbol it expects, with the hash of the document that
   holds the symbol's one definition.
   */
  ghost predicate ResolvedRow(t: Tables, row: BindingRow)
  {
    && ActiveIndex(t).Some?
    && row.symbol == Some(row.planned.symbol)
    && row.admission == t.admission
    && row.planned.file in ActiveIndex(t).value.hashes
    && row.sourceHash == Some(ActiveIndex(t).value.hashes[row.planned.file])
    && |Definitions(ActiveIndex(t).value.index.occurrences, row.planned.file, row.planned.symbol)| == 1
  }

  /** Either no binding is resolved, or all are, and by the active admission. */
  ghost predicate AllOrNothing(t: Tables)
  {
    || (forall k :: k in t.bindings ==> t.bindings[k] == Unresolved(t.bindings[k].planned))
    || forall k :: k in t.bindings ==> ResolvedRow(t, t.bindings[k])
  }

  ghost predicate UniqueEvidence(log: seq<Evidence.Record>)
  {
    forall i, j :: 0 <= i < j < |log| ==> log[i].id != log[j].id
  }

  ghost predicate Valid(h: Hashes, t: Tables)
  {
    && Injective(h)
    && References(t) && Holds(t) && Filed(h, t) && AllOrNothing(t) && UniqueEvidence(t.evidence)
  }

  lemma EmptyIsValid(h: Hashes)
    requires Injective(h)
    ensures Valid(h, Empty())
  {
  }

  // ---- plans keep it ----

  lemma {:induction false} ObligationsByIdHas(obligations: seq<Obligation>)
    ensures forall id :: id in ObligationsById(obligations) ==>
      ObligationsById(obligations)[id].id == id && ObligationsById(obligations)[id] in obligations
    ensures forall i :: 0 <= i < |obligations| ==> obligations[i].id in ObligationsById(obligations)
  {
    if obligations != [] {
      var before := obligations[..|obligations| - 1];
      ObligationsByIdHas(before);
      forall i | 0 <= i < |obligations| ensures obligations[i].id in ObligationsById(obligations) {
        if i < |before| {
          assert before[i] == obligations[i];
        }
      }
    }
  }

  lemma {:induction false} RowsOfHas(bindings: seq<PlannedBinding>)
    ensures forall k :: k in RowsOf(bindings) ==>
      && RowsOf(bindings)[k] == Unresolved(RowsOf(bindings)[k].planned)
      && BindingKey(RowsOf(bindings)[k].planned) == k
      && RowsOf(bindings)[k].planned in bindings
  {
    if bindings != [] {
      RowsOfHas(bindings[..|bindings| - 1]);
    }
  }

  lemma PlanReferences(m: Manifest)
    requires ValidPlan(m)
    ensures Ranked(ItemsById(m.items))
    ensures forall o :: o in ObligationsById(m.obligations) ==>
      ObligationsById(m.obligations)[o].id == o && ObligationsById(m.obligations)[o].workItem in ItemsById(m.items)
    ensures forall k :: k in RowsOf(m.bindings) ==> k.0 in ObligationsById(m.obligations)
  {
    HierarchyIsRanked(m.items);
    ObligationsByIdHas(m.obligations);
    RowsOfHas(m.bindings);
    forall k | k in RowsOf(m.bindings) ensures k.0 in ObligationsById(m.obligations) {
      var b := RowsOf(m.bindings)[k].planned;
      var i :| 0 <= i < |m.bindings| && m.bindings[i] == b;
      assert HasObligation(m.obligations, m.bindings[i].obligation);
    }
    forall o | o in ObligationsById(m.obligations) ensures ObligationsById(m.obligations)[o].workItem in ItemsById(m.items) {
      var i :| 0 <= i < |m.obligations| && m.obligations[i] == ObligationsById(m.obligations)[o];
    }
  }

  lemma ApplyKeepsValid(h: Hashes, t: Tables, m: Manifest, hash: string)
    requires Valid(h, t)
    ensures Valid(h, Apply(t, m, hash).0)
  {
    if ValidPlan(m) {
      PlanReferences(m);
      RowsOfHas(m.bindings);
      SameAdmissionsKeep(h, t, Replaced(t, m, hash));
      ReplacedIsSound(t, m, hash);
    }
  }

  lemma ReplacedIsSound(t: Tables, m: Manifest, hash: string)
    requires ValidPlan(m)
    ensures var u := Replaced(t, m, hash); References(u) && Holds(u) && AllOrNothing(u)
  {
    PlanReferences(m);
    RowsOfHas(m.bindings);
  }

  // ---- admissions keep it ----

  lemma {:induction false} DefinitionsAre(occurrences: seq<Occurrence>, path: string, symbol: string, i: nat)
    requires i < |Definitions(occurrences, path, symbol)|
    ensures var o := Definitions(occurrences, path, symbol)[i];
      o in occurrences && o.path == path && o.symbol == symbol && o.isDefinition
  {
    var before := Definitions(occurrences[..|occurrences| - 1], path, symbol);
    if i < |before| {
      DefinitionsAre(occurrences[..|occurrences| - 1], path, symbol, i);
    }
  }

  /** In a validated index the query returns one row for each definition. */
  lemma OneRowPerDefinition(x: Indexed, file: string, symbol: string)
    requires Validated(x) && file in x.hashes && |Definitions(x.index.occurrences, file, symbol)| == 1
    ensures CandidateRows(x, file, symbol) == [(symbol, x.hashes[file])]
  {
    var definitions := Definitions(x.index.occurrences, file, symbol);
    DefinitionsAre(x.index.occurrences, file, symbol, 0);
    var i :| 0 <= i < |x.index.occurrences| && x.index.occurrences[i] == definitions[0];
    assert DefinitionOk(x.index.symbols, x.index.occurrences[i]);
    assert Join(x.index.symbols, definitions[..0], x.hashes[file]) == [];
  }

  /** An authorized binding of a validated index and an admitted contract always resolves. */
  lemma AuthorizedIsResolvable(x: Indexed, c: Contract, row: BindingRow)
    requires Validated(x) && SubjectsAdmitted(x, c) && Authorized(c, row)
    ensures Resolvable(x, c, row)
  {
    OneRowPerDefinition(x, row.planned.file, row.planned.symbol);
  }

  lemma AuthorizedAreResolvable(x: Indexed, c: Contract, rows: map<Key, BindingRow>)
    requires Validated(x) && SubjectsAdmitted(x, c)
    ensures AllResolvable(x, c, rows) <==> forall k :: k in rows ==> Authorized(c, rows[k])
  {
    forall k | k in rows && Authorized(c, rows[k]) ensures Resolvable(x, c, rows[k]) {
      AuthorizedIsResolvable(x, c, rows[k]);
    }
  }

  /** An index stored under the digest of another is that other one. */
  lemma StoredIsOffered(h: Hashes, t: Tables, x: Indexed)
    requires Injective(h) && Filed(h, t)
    ensures IndexUnder(t, h.ingestion(x), x) == x
  {
    assert NamesIndex(h, IndexUnder(t, h.ingestion(x), x), x);
  }

  lemma StoredIsRecorded(h: Hashes, t: Tables, ingestion: string, c: Contract)
    requires Injective(h) && Filed(h, t) && h.admission(ingestion, c) in t.admissions
    ensures t.admissions[h.admission(ingestion, c)] == AdmissionRow(ingestion, c)
  {
    assert NamesAdmission(h, t.admissions[h.admission(ingestion, c)], AdmissionRow(ingestion, c));
  }

  /**
   An admission is refused only for a planned binding that is not exactly a subject of the contract: the
   digest never collides and the definition query never finds none or several.
   */
  lemma AdmittedExactlyWhenAuthorized(h: Hashes, t: Tables, x: Indexed, c: Contract)
    requires Valid(h, t) && Validated(x) && SubjectsAdmitted(x, c)
    ensures Admit(h, t, x, c).1 <==> forall k :: k in t.bindings ==> Authorized(c, t.bindings[k])
  {
    StoredIsOffered(h, t, x);
    AuthorizedAreResolvable(x, c, t.bindings);
  }

  lemma AdmittedIsActive(h: Hashes, t: Tables, x: Indexed, c: Contract)
    requires Valid(h, t) && Admit(h, t, x, c).1
    ensures var t' := Admit(h, t, x, c).0; Filed(h, t') && ActiveIndex(t') == Some(x)
  {
    var ingestion := h.ingestion(x);
    var admission := h.admission(ingestion, c);
    var t' := Admit(h, t, x, c).0;
    assert t' == Admitted(t, ingestion, admission, x, c);
    if admission in t.admissions {
      StoredIsRecorded(h, t, ingestion, c);
    }
    assert t'.admissions[admission] == AdmissionRow(ingestion, c);
  }

  lemma ResolvedByAdmission(x: Indexed, c: Contract, admission: string, row: BindingRow, t: Tables)
    requires Validated(x) && SubjectsAdmitted(x, c) && Authorized(c, row)
    requires ActiveIndex(t) == Some(x) && t.admission == Some(admission)
    ensures ResolvedRow(t, Resolve(x, admission, row))
  {
    OneRowPerDefinition(x, row.planned.file, row.planned.symbol);
  }

  lemma AllResolvedByAdmission(x: Indexed, c: Contract, admission: string, rows: map<Key, BindingRow>, t: Tables)
    requires Validated(x) && SubjectsAdmitted(x, c) && AllResolvable(x, c, rows)
    requires ActiveIndex(t) == Some(x) && t.admission == Some(admission)
    ensures forall k :: k in rows ==> ResolvedRow(t, Resolve(x, admission, rows[k]))
  {
    forall k | k in rows ensures ResolvedRow(t, Resolve(x, admission, rows[k])) {
      assert Resolvable(x, c, rows[k]);
      ResolvedByAdmission(x, c, admission, rows[k], t);
    }
  }

  lemma AdmitBindings(h: Hashes, t: Tables, x: Indexed, c: Contract)
    requires Admit(h, t, x, c).1
    ensures var t' := Admit(h, t, x, c).0; var admission := h.admission(h.ingestion(x), c);
      && t'.admission == Some(admission) && t'.bindings.Keys == t.bindings.Keys
      && SubjectsAdmitted(x, c) && AllResolvable(x, c, t.bindings)
      && (forall k :: k in t.bindings ==> t'.bindings[k] == Resolve(x, admission, t.bindings[k]))
      && t'.items == t.items && t'.obligations == t.obligations && t'.plan == t.plan && t'.revisions == t.revisions
  {
  }

  lemma AdmitResolvesAll(h: Hashes, t: Tables, x: Indexed, c: Contract)
    requires Valid(h, t) && Validated(x) && Admit(h, t, x, c).1
    ensures SamePlan(t, Admit(h, t, x, c).0) && AllOrNothing(Admit(h, t, x, c).0)
  {
    AdmittedIsActive(h, t, x, c);
    AdmitBindings(h, t, x, c);
    AllResolvedByAdmission(x, c, h.admission(h.ingestion(x), c), t.bindings, Admit(h, t, x, c).0);
  }

  /** The plan's tables agree, except for what bindings resolve to. */
  ghost predicate SamePlan(t: Tables, u: Tables)
  {
    && u.items == t.items && u.obligations == t.obligations && u.plan == t.plan && u.revisions == t.revisions
    && u.bindings.Keys == t.bindings.Keys
    && forall k :: k in t.bindings ==> u.bindings[k].planned == t.bindings[k].planned
  }

  lemma SamePlanKeeps(t: Tables, u: Tables)
    requires SamePlan(t, u) && References(t) && Holds(t)
    ensures References(u) && Holds(u)
  {
  }

  lemma AdmitKeepsValid(h: Hashes, t: Tables, x: Indexed, c: Contract)
    requires Valid(h, t) && Validated(x)
    ensures Valid(h, Admit(h, t, x, c).0)
  {
    if Admit(h, t, x, c).1 {
      AdmittedIsActive(h, t, x, c);
      AdmitResolvesAll(h, t, x, c);
      SamePlanKeeps(t, Admit(h, t, x, c).0);
    }
  }

  /** The admissions and the active one agree. */
  ghost predicate SameAdmissions(t: Tables, u: Tables)
  {
    u.admission == t.admission && u.admissions == t.admissions && u.indexes == t.indexes
  }

  lemma SameAdmissionsKeep(h: Hashes, t: Tables, u: Tables)
    requires SameAdmissions(t, u) && Filed(h, t)
    ensures Filed(h, u)
    ensures u.bindings == t.bindings && AllOrNothing(t) ==> AllOrNothing(u)
  {
    assert ActiveIndex(u) == ActiveIndex(t);
  }

  /** Only the evidence differs. */
  lemma OnlyEvidence(h: Hashes, t: Tables, u: Tables)
    requires Valid(h, t) && u == t.(evidence := u.evidence) && UniqueEvidence(u.evidence)
    ensures Valid(h, u)
  {
    SameAdmissionsKeep(h, t, u);
    SamePlanKeeps(t, u);
  }

  lemma AddKeepsValid(h: Hashes, t: Tables, e: Evidence.Record)
    requires Valid(h, t)
    ensures Valid(h, AddEvidence(t, e).0)
  {
    AddKeepsUnique(t.evidence, e);
    OnlyEvidence(h, t, AddEvidence(t, e).0);
  }

  lemma AddKeepsUnique(log: seq<Evidence.Record>, e: Evidence.Record)
    requires UniqueEvidence(log)
    ensures !HasEvidence(log, e.id) ==> UniqueEvidence(log + [e])
  {
  }

  // ---- runs ----

  datatype Op =
    | ApplyManifest(manifest: Manifest, hash: string)
    | AdmitIndex(indexed: Indexed, contract: Contract)
    | RecordEvidence(record: Evidence.Record)

  function Step(h: Hashes, t: Tables, op: Op): (Tables, bool)
  {
    match op
    case ApplyManifest(m, hash) => Apply(t, m, hash)
    case AdmitIndex(x, c) => Admit(h, t, x, c)
    case RecordEvidence(e) => AddEvidence(t, e)
  }

  /** Only validated indexes are offered for admission. */
  ghost predicate Legal(op: Op)
  {
    op.AdmitIndex? ==> Validated(op.indexed)
  }

  function After(h: Hashes, t: Tables, ops: seq<Op>): Tables
  {
    if ops == [] then t else Step(h, After(h, t, ops[..|ops| - 1]), ops[|ops| - 1]).0
  }

  lemma StepKeepsValid(h: Hashes, t: Tables, op: Op)
    requires Valid(h, t) && Legal(op)
    ensures Valid(h, Step(h, t, op).0)
  {
    match op
    case ApplyManifest(m, hash) => ApplyKeepsValid(h, t, m, hash);
    case AdmitIndex(x, c) => AdmitKeepsValid(h, t, x, c);
    case RecordEvidence(e) => AddKeepsValid(h, t, e);
  }

  /** The invariant holds in every reachable state. */
  lemma {:induction false} RunKeepsValid(h: Hashes, ops: seq<Op>)
    requires Injective(h) && forall op :: op in ops ==> Legal(op)
    ensures Valid(h, After(h, Empty(), ops))
  {
    if ops == [] {
      EmptyIsValid(h);
    } else {
      RunKeepsValid(h, ops[..|ops| - 1]);
      StepKeepsValid(h, After(h, Empty(), ops[..|ops| - 1]), ops[|ops| - 1]);
    }
  }

  /** The transactions of a run that committed. */
  function Committed(h: Hashes, t: Tables, ops: seq<Op>): seq<Op>
  {
    if ops == [] then []
    else
      var before := ops[..|ops| - 1];
      Committed(h, t, before) + if Step(h, After(h, t, before), ops[|ops| - 1]).1 then [ops[|ops| - 1]] else []
  }

  lemma AfterSnoc(h: Hashes, t: Tables, ops: seq<Op>, op: Op)
    ensures After(h, t, ops + [op]) == Step(h, After(h, t, ops), op).0
  {
    assert (ops + [op])[..|ops|] == ops;
  }

  lemma CommittedSnoc(h: Hashes, t: Tables, ops: seq<Op>, op: Op)
    ensures Committed(h, t, ops + [op]) ==
      Committed(h, t, ops) + if Step(h, After(h, t, ops), op).1 then [op] else []
  {
    assert (ops + [op])[..|ops|] == ops;
  }

  lemma RefusalIsQuiet(h: Hashes, t: Tables, op: Op)
    ensures !Step(h, t, op).1 ==> Step(h, t, op).0 == t
  {
  }

  /** The run ends where its committed part alone does, and that part commits whole. */
  ghost predicate LeavesNoTrace(h: Hashes, t: Tables, ops: seq<Op>)
  {
    var committed := Committed(h, t, ops);
    After(h, t, committed) == After(h, t, ops) && Committed(h, t, committed) == committed
  }

  lemma LeavesNoTraceSnoc(h: Hashes, t: Tables, ops: seq<Op>, op: Op)
    requires LeavesNoTrace(h, t, ops)
    ensures LeavesNoTrace(h, t, ops + [op])
  {
    var committed, now := Committed(h, t, ops), After(h, t, ops);
    AfterSnoc(h, t, ops, op);
    CommittedSnoc(h, t, ops, op);
    if Step(h, now, op).1 {
      assert Committed(h, t, ops + [op]) == committed + [op];
      AfterSnoc(h, t, committed, op);
      CommittedSnoc(h, t, committed, op);
    } else {
      assert Committed(h, t, ops + [op]) == committed;
      RefusalIsQuiet(h, now, op);
    }
  }

  /**
   Refused transactions leave no trace: a run ends in the state that its committed transactions alone
   produce, and each of these commits when they run alone.
   */
  lemma {:induction false} RefusedLeaveNoTrace(h: Hashes, t: Tables, ops: seq<Op>)
    ensures LeavesNoTrace(h, t, ops)
  {
    if ops != [] {
      RefusedLeaveNoTrace(h, t, ops[..|ops| - 1]);
      LeavesNoTraceSnoc(h, t, ops[..|ops| - 1], ops[|ops| - 1]);
      assert ops == ops[..|ops| - 1] + [ops[|ops| - 1]];
    }
  }

  /** Nothing recorded is lost: evidence, admissions and indexes only grow. */
  ghost predicate Grows(t: Tables, u: Tables)
  {
    && t.evidence <= u.evidence
    && (forall a :: a in t.admissions ==> a in u.admissions && u.admissions[a] == t.admissions[a])
    && forall i :: i in t.indexes ==> i in u.indexes && u.indexes[i] == t.indexes[i]
  }

  lemma AdmitGrows(h: Hashes, t: Tables, x: Indexed, c: Contract)
    ensures Grows(t, Admit(h, t, x, c).0)
  {
    var ingestion := h.ingestion(x);
    GrowsByAdmission(t, ingestion, h.admission(ingestion, c), x, c);
  }

  lemma GrowsByAdmission(t: Tables, ingestion: string, admission: string, x: Indexed, c: Contract)
    ensures Grows(t, Admitted(t, ingestion, admission, x, c))
  {
  }

  lemma StepGrows(h: Hashes, t: Tables, op: Op)
    ensures Grows(t, Step(h, t, op).0)
  {
    match op
    case ApplyManifest(_, _) =>
    case AdmitIndex(x, c) => AdmitGrows(h, t, x, c);
    case RecordEvidence(_) =>
  }

  lemma {:induction false} HistoryGrows(h: Hashes, t: Tables, ops: seq<Op>)
    ensures Grows(t, After(h, t, ops))
  {
    if ops != [] {
      var before := After(h, t, ops[..|ops| - 1]);
      HistoryGrows(h, t, ops[..|ops| - 1]);
      StepGrows(h, before, ops[|ops| - 1]);
      GrowsIsTransitive(t, before, After(h, t, ops));
    }
  }

  lemma GrowsIsTransitive(t: Tables, u: Tables, v: Tables)
    requires Grows(t, u) && Grows(u, v)
    ensures Grows(t, v)
  {
  }
}
