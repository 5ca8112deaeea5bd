/**
 The store told by its history: which transactions commit, and what the tables hold after any run, in terms of the
 transactions that committed before.
 */
module StoreHistory {
  import opened Common
  import opened Sequences
  import opened Plan
  import opened ScipIndex
  import opened ScipContract
  import Evidence
  import opened PlanStore

  // ---- what the committed transactions left ----

  /** The last plan applied. */
  function PlanIn(done: seq<Op>): Option<(Manifest, string)>
  {
    if done == [] then None
    else
      match done[|done| - 1]
      case ApplyManifest(m, hash) => Some((m, hash))
      case _ => PlanIn(done[..|done| - 1])
  }

  /** The last plan applied under a hash. */
  function RevisionIn(done: seq<Op>, hash: string): Option<Manifest>
  {
    if done == [] then None
    else
      var op := done[|done| - 1];
      if op.ApplyManifest? && op.hash == hash then Some(op.manifest) else RevisionIn(done[..|done| - 1], hash)
  }

  /** The last admission. */
  function AdmissionIn(done: seq<Op>): Option<(Indexed, Contract)>
  {
    if done == [] then None
    else
      match done[|done| - 1]
      case AdmitIndex(x, c) => Some((x, c))
      case _ => AdmissionIn(done[..|done| - 1])
  }

  /** The last admission, if no plan was applied after it. */
  function ResolvingIn(done: seq<Op>): Option<Indexed>
  {
    if done == [] then None
    else
      match done[|done| - 1]
      case AdmitIndex(x, c) => Some(x)
      case ApplyManifest(_, _) => None
      case RecordEvidence(_) => ResolvingIn(done[..|done| - 1])
  }

  /** The evidence recorded, in order. */
  function RecordsIn(done: seq<Op>): seq<Evidence.Record>
  {
    if done == [] then []
    else
      var op := done[|done| - 1];
      RecordsIn(done[..|done| - 1]) + if op.RecordEvidence? then [op.record] else []
  }

  // ---- the tables ----

  /** The plan's tables hold exactly the rows of the last plan. */
  ghost predicate PlanTold(t: Tables, done: seq<Op>)
  {
    match PlanIn(done)
    case None => t.plan == None && t.items == map[] && t.obligations == map[] && t.bindings == map[]
    case Some((m, hash)) =>
      && t.plan == Some(hash) && ValidPlan(m)
      && ItemsTold(t.items, m.items) && ObligationsTold(t.obligations, m.obligations) && PlannedTold(t.bindings, m.bindings)
  }

  ghost predicate ItemsTold(rows: Items, items: seq<WorkItem>)
  {
    && (forall id :: id in rows ==> rows[id] in items && rows[id].id == id)
    && forall i :: 0 <= i < |items| ==> items[i].id in rows && rows[items[i].id] == items[i]
  }

  ghost predicate ObligationsTold(rows: map<string, Obligation>, obligations: seq<Obligation>)
  {
    && (forall id :: id in rows ==> rows[id] in obligations && rows[id].id == id)
    && forall i :: 0 <= i < |obligations| ==> obligations[i].id in rows && rows[obligations[i].id] == obligations[i]
  }

  ghost predicate PlannedTold(rows: map<Key, BindingRow>, bindings: seq<PlannedBinding>)
  {
    && (forall k :: k in rows ==> rows[k].planned in bindings)
    && forall i :: 0 <= i < |bindings| ==>
         var b := bindings[i];
         (b.obligation, b.file, b.name) in rows && rows[(b.obligation, b.file, b.name)].planned == b
  }

  /** Every binding is resolved by the last admission to the symbol it names, unless a plan was applied since. */
  ghost predicate BindingsTold(t: Tables, done: seq<Op>)
  {
    forall k :: k in t.bindings ==>
      match ResolvingIn(done)
      case None => t.bindings[k].symbol == None && t.bindings[k].sourceHash == None && t.bindings[k].admission == None
      case Some(x) =>
        && t.bindings[k].symbol == Some(t.bindings[k].planned.symbol)
        && t.bindings[k].planned.file in x.hashes
        && t.bindings[k].sourceHash == Some(x.hashes[t.bindings[k].planned.file])
        && t.bindings[k].admission == t.admission
  }

  ghost predicate ActiveTold(h: Hashes, active: Option<string>, done: seq<Op>)
  {
    match AdmissionIn(done)
    case None => active == None
    case Some((x, c)) => active == Some(h.admission(h.ingestion(x), c))
  }

  /** Exactly the admitted contracts and indexes are filed, each under its digest. */
  ghost predicate FiledTold(
      h: Hashes, admissions: map<string, AdmissionRow>, indexes: map<string, Indexed>, done: seq<Op>)
  {
    && (forall a :: a in admissions ==> exists x, c :: AdmitIndex(x, c) in done && AdmissionOf(h, admissions, x, c, a))
    && (forall i :: i in indexes ==> exists x, c :: AdmitIndex(x, c) in done && IndexOf(h, indexes, x, i))
    && forall x, c :: AdmitIndex(x, c) in done ==>
         AdmissionOf(h, admissions, x, c, h.admission(h.ingestion(x), c)) && IndexOf(h, indexes, x, h.ingestion(x))
  }

  ghost predicate AdmissionOf(h: Hashes, admissions: map<string, AdmissionRow>, x: Indexed, c: Contract, a: string)
  {
    a == h.admission(h.ingestion(x), c) && a in admissions && admissions[a] == AdmissionRow(h.ingestion(x), c)
  }

  ghost predicate IndexOf(h: Hashes, indexes: map<string, Indexed>, x: Indexed, i: string)
  {
    i == h.ingestion(x) && i in indexes && indexes[i] == x
  }

  ghost predicate RevisionsTold(revisions: map<string, Manifest>, done: seq<Op>)
  {
    forall hash {:trigger RevisionIn(done, hash)} :: Revision(revisions, hash) == RevisionIn(done, hash)
  }

  /** The tables are what the committed transactions say. */
  ghost predicate Told(h: Hashes, t: Tables, done: seq<Op>)
  {
    && PlanTold(t, done) && BindingsTold(t, done)
    && ActiveTold(h, t.admission, done) && FiledTold(h, t.admissions, t.indexes, done)
    && RevisionsTold(t.revisions, done) && t.evidence == RecordsIn(done)
  }

  function Revision(revisions: map<string, Manifest>, hash: string): Option<Manifest>
  {
    if hash in revisions then Some(revisions[hash]) else None
  }

  // ---- each committed transaction keeps them so ----

  /** Nothing but admissions is asked of the filed rows. */
  lemma FiledLikewise(
      h: Hashes, admissions: map<string, AdmissionRow>, indexes: map<string, Indexed>, done: seq<Op>, op: Op)
    requires FiledTold(h, admissions, indexes, done) && !op.AdmitIndex?
    ensures FiledTold(h, admissions, indexes, done + [op])
  {
    var more := done + [op];
    forall a | a in admissions ensures exists x, c :: AdmitIndex(x, c) in more && AdmissionOf(h, admissions, x, c, a) {
      var x, c :| AdmitIndex(x, c) in done && AdmissionOf(h, admissions, x, c, a);
      assert AdmitIndex(x, c) in more;
    }
    forall i | i in indexes ensures exists x, c :: AdmitIndex(x, c) in more && IndexOf(h, indexes, x, i) {
      var x, c :| AdmitIndex(x, c) in done && IndexOf(h, indexes, x, i);
      assert AdmitIndex(x, c) in more;
    }
  }

  /** What the last transaction adds to what the earlier ones say. */
  lemma OneMore(done: seq<Op>, op: Op)
    ensures PlanIn(done + [op]) == if op.ApplyManifest? then Some((op.manifest, op.hash)) else PlanIn(done)
    ensures AdmissionIn(done + [op]) == if op.AdmitIndex? then Some((op.indexed, op.contract)) else AdmissionIn(done)
    ensures ResolvingIn(done + [op]) ==
      if op.AdmitIndex? then Some(op.indexed) else if op.ApplyManifest? then None else ResolvingIn(done)
    ensures RecordsIn(done + [op]) == RecordsIn(done) + if op.RecordEvidence? then [op.record] else []
    ensures forall hash ::
      RevisionIn(done + [op], hash) == if op.ApplyManifest? && op.hash == hash then Some(op.manifest) else RevisionIn(done, hash)
  {
    assert (done + [op])[..|done + [op]| - 1] == done;
  }

  lemma RecordIsTold(h: Hashes, t: Tables, done: seq<Op>, e: Evidence.Record)
    requires Told(h, t, done) && AddEvidence(t, e).1
    ensures Told(h, AddEvidence(t, e).0, done + [RecordEvidence(e)])
  {
    OneMore(done, RecordEvidence(e));
    FiledLikewise(h, t.admissions, t.indexes, done, RecordEvidence(e));
  }

  lemma {:induction false} RowsOfAll(bindings: seq<PlannedBinding>, i: nat)
    requires DistinctBindings(bindings) && i < |bindings|
    ensures var k := (bindings[i].obligation, bindings[i].file, bindings[i].name);
      k in RowsOf(bindings) && RowsOf(bindings)[k] == Unresolved(bindings[i])
  {
    var last := bindings[|bindings| - 1];
    if i < |bindings| - 1 {
      RowsOfAll(bindings[..|bindings| - 1], i);
      assert BindingKey(bindings[i]) != BindingKey(last);
    }
  }

  lemma {:induction false} ObligationsAll(obligations: seq<Obligation>, i: nat)
    requires DistinctObligations(obligations) && i < |obligations|
    ensures obligations[i].id in ObligationsById(obligations) && ObligationsById(obligations)[obligations[i].id] == obligations[i]
  {
    if i < |obligations| - 1 {
      ObligationsAll(obligations[..|obligations| - 1], i);
    }
  }

  lemma PlanRowsTold(m: Manifest)
    requires ValidPlan(m)
    ensures ItemsTold(ItemsById(m.items), m.items) && ObligationsTold(ObligationsById(m.obligations), m.obligations)
  {
    ItemsByIdHas(m.items);
    ObligationsByIdHas(m.obligations);
    forall i | 0 <= i < |m.obligations| ensures m.obligations[i].id in ObligationsById(m.obligations)
        && ObligationsById(m.obligations)[m.obligations[i].id] == m.obligations[i] {
      ObligationsAll(m.obligations, i);
    }
  }

  lemma BindingRowsTold(bindings: seq<PlannedBinding>)
    requires DistinctBindings(bindings)
    ensures PlannedTold(RowsOf(bindings), bindings)
    ensures forall k :: k in RowsOf(bindings) ==>
      var row := RowsOf(bindings)[k]; row.symbol == None && row.sourceHash == None && row.admission == None
  {
    RowsOfHas(bindings);
    forall i | 0 <= i < |bindings|
      ensures var b := bindings[i];
        (b.obligation, b.file, b.name) in RowsOf(bindings) && RowsOf(bindings)[(b.obligation, b.file, b.name)].planned == b
    {
      RowsOfAll(bindings, i);
    }
  }

  lemma ApplyIsTold(h: Hashes, t: Tables, done: seq<Op>, m: Manifest, hash: string)
    requires Told(h, t, done) && Apply(t, m, hash).1
    ensures Told(h, Apply(t, m, hash).0, done + [ApplyManifest(m, hash)])
  {
    OneMore(done, ApplyManifest(m, hash));
    FiledLikewise(h, t.admissions, t.indexes, done, ApplyManifest(m, hash));
    PlanRowsTold(m);
    BindingRowsTold(m.bindings);
    RevisionApplied(t.revisions, done, m, hash);
  }

  lemma RevisionApplied(revisions: map<string, Manifest>, done: seq<Op>, m: Manifest, hash: string)
    requires RevisionsTold(revisions, done)
    ensures RevisionsTold(revisions[hash := m], done + [ApplyManifest(m, hash)])
  {
    var more := done + [ApplyManifest(m, hash)];
    OneMore(done, ApplyManifest(m, hash));
    forall other ensures Revision(revisions[hash := m], other) == RevisionIn(more, other) {
      assert Revision(revisions, other) == RevisionIn(done, other);
    }
  }

  lemma RevisionKept(revisions: map<string, Manifest>, done: seq<Op>, op: Op)
    requires RevisionsTold(revisions, done) && !op.ApplyManifest?
    ensures RevisionsTold(revisions, done + [op])
  {
    OneMore(done, op);
    forall hash ensures Revision(revisions, hash) == RevisionIn(done + [op], hash) {
      assert Revision(revisions, hash) == RevisionIn(done, hash);
    }
  }

  lemma SamePlanTold(t: Tables, u: Tables, done: seq<Op>, more: seq<Op>)
    requires PlanTold(t, done) && SamePlan(t, u) && PlanIn(more) == PlanIn(done)
    ensures PlanTold(u, more)
  {
  }

  lemma AdmittedRow(h: Hashes, t: Tables, x: Indexed, c: Contract, k: Key)
    requires Validated(x) && Admit(h, t, x, c).1 && k in t.bindings
    ensures var row := Admit(h, t, x, c).0.bindings[k];
      && row.planned == t.bindings[k].planned && row.symbol == Some(row.planned.symbol)
      && row.planned.file in x.hashes && row.sourceHash == Some(x.hashes[row.planned.file])
      && row.admission == Some(h.admission(h.ingestion(x), c))
  {
    AdmitBindings(h, t, x, c);
    assert Resolvable(x, c, t.bindings[k]);
    OneRowPerDefinition(x, t.bindings[k].planned.file, t.bindings[k].planned.symbol);
  }

  lemma AdmitBindingsTold(h: Hashes, t: Tables, done: seq<Op>, x: Indexed, c: Contract)
    requires Validated(x) && Admit(h, t, x, c).1
    ensures SamePlan(t, Admit(h, t, x, c).0) && BindingsTold(Admit(h, t, x, c).0, done + [AdmitIndex(x, c)])
  {
    OneMore(done, AdmitIndex(x, c));
    AdmitBindings(h, t, x, c);
    forall k | k in t.bindings
      ensures var row := Admit(h, t, x, c).0.bindings[k];
        && row.planned == t.bindings[k].planned && row.symbol == Some(row.planned.symbol)
        && row.planned.file in x.hashes && row.sourceHash == Some(x.hashes[row.planned.file])
        && row.admission == Some(h.admission(h.ingestion(x), c))
    {
      AdmittedRow(h, t, x, c, k);
    }
  }

  lemma AdmitFiles(h: Hashes, t: Tables, x: Indexed, c: Contract)
    requires Injective(h) && Filed(h, t) && Admit(h, t, x, c).1
    ensures var u := Admit(h, t, x, c).0; var i := h.ingestion(x); var a := h.admission(i, c);
      u.indexes == t.indexes[i := x] && u.admissions == t.admissions[a := AdmissionRow(i, c)] && u.admission == Some(a)
  {
    StoredIsOffered(h, t, x);
    if h.admission(h.ingestion(x), c) in t.admissions {
      StoredIsRecorded(h, t, h.ingestion(x), c);
    }
  }

  /** Filing under a digest what stands for it leaves the earlier rows in place. */
  lemma FiledMore(
      h: Hashes, admissions: map<string, AdmissionRow>, indexes: map<string, Indexed>, done: seq<Op>, x: Indexed, c: Contract)
    requires Injective(h) && FiledTold(h, admissions, indexes, done)
    ensures var i := h.ingestion(x); var a := h.admission(i, c);
      FiledTold(h, admissions[a := AdmissionRow(i, c)], indexes[i := x], done + [AdmitIndex(x, c)])
  {
    var i := h.ingestion(x);
    var a := h.admission(i, c);
    var as', is', more := admissions[a := AdmissionRow(i, c)], indexes[i := x], done + [AdmitIndex(x, c)];
    assert AdmitIndex(x, c) in more && AdmissionOf(h, as', x, c, a) && IndexOf(h, is', x, i);
    forall y, d | AdmitIndex(y, d) in done
      ensures AdmitIndex(y, d) in more && AdmissionOf(h, as', y, d, h.admission(h.ingestion(y), d))
      ensures IndexOf(h, is', y, h.ingestion(y))
    {
      assert AdmissionOf(h, admissions, y, d, h.admission(h.ingestion(y), d)) && IndexOf(h, indexes, y, h.ingestion(y));
      assert NamesIndex(h, x, y) && NamesAdmission(h, AdmissionRow(i, c), AdmissionRow(h.ingestion(y), d));
    }
    forall b | b in as' ensures exists y, d :: AdmitIndex(y, d) in more && AdmissionOf(h, as', y, d, b) {
      if b != a {
        var y, d :| AdmitIndex(y, d) in done && AdmissionOf(h, admissions, y, d, b);
        assert AdmitIndex(y, d) in more && AdmissionOf(h, as', y, d, b);
      }
    }
    forall b | b in is' ensures exists y, d :: AdmitIndex(y, d) in more && IndexOf(h, is', y, b) {
      if b != i {
        var y, d :| AdmitIndex(y, d) in done && IndexOf(h, indexes, y, b);
        assert AdmitIndex(y, d) in more && IndexOf(h, is', y, b);
      }
    }
  }

  lemma AdmitIsTold(h: Hashes, t: Tables, done: seq<Op>, x: Indexed, c: Contract)
    requires Injective(h) && Filed(h, t) && Validated(x) && Told(h, t, done) && Admit(h, t, x, c).1
    ensures Told(h, Admit(h, t, x, c).0, done + [AdmitIndex(x, c)])
  {
    var u, more := Admit(h, t, x, c).0, done + [AdmitIndex(x, c)];
    OneMore(done, AdmitIndex(x, c));
    AdmitBindingsTold(h, t, done, x, c);
    SamePlanTold(t, u, done, more);
    AdmitFiles(h, t, x, c);
    FiledMore(h, t.admissions, t.indexes, done, x, c);
    RevisionKept(t.revisions, done, AdmitIndex(x, c));
    assert u.evidence == t.evidence;
  }

  lemma StepIsTold(h: Hashes, t: Tables, done: seq<Op>, op: Op)
    requires Injective(h) && Filed(h, t) && Legal(op) && Told(h, t, done) && Step(h, t, op).1
    ensures Told(h, Step(h, t, op).0, done + [op])
  {
    match op
    case ApplyManifest(m, hash) => ApplyIsTold(h, t, done, m, hash);
    case AdmitIndex(x, c) => AdmitIsTold(h, t, done, x, c);
    case RecordEvidence(e) => RecordIsTold(h, t, done, e);
  }

  lemma EmptyIsTold(h: Hashes)
    ensures Told(h, Empty(), [])
  {
  }

  lemma NextIsTold(h: Hashes, ops: seq<Op>, op: Op)
    requires var t := After(h, Empty(), ops); Injective(h) && Filed(h, t) && Legal(op) && Told(h, t, Committed(h, Empty(), ops))
    ensures Told(h, After(h, Empty(), ops + [op]), Committed(h, Empty(), ops + [op]))
  {
    var t, done := After(h, Empty(), ops), Committed(h, Empty(), ops);
    AfterSnoc(h, Empty(), ops, op);
    CommittedSnoc(h, Empty(), ops, op);
    if Step(h, t, op).1 {
      StepIsTold(h, t, done, op);
    } else {
      RefusalIsQuiet(h, t, op);
      assert done + [] == done;
    }
  }

  lemma RunIsFiled(h: Hashes, ops: seq<Op>)
    requires Injective(h) && forall op :: op in ops ==> Legal(op)
    ensures Filed(h, After(h, Empty(), ops))
  {
    RunKeepsValid(h, ops);
  }

  /** After any run the tables are what its committed transactions say. */
  lemma {:induction false} RunIsTold(h: Hashes, ops: seq<Op>)
    requires Injective(h) && forall op :: op in ops ==> Legal(op)
    ensures Told(h, After(h, Empty(), ops), Committed(h, Empty(), ops))
  {
    if ops == [] {
      EmptyIsTold(h);
    } else {
      var before, op := ops[..|ops| - 1], ops[|ops| - 1];
      RunIsTold(h, before);
      RunIsFiled(h, before);
      assert op in ops && before + [op] == ops;
      NextIsTold(h, before, op);
    }
  }

  // ---- which transactions commit ----

  /** The index has exactly one definition of the symbol in the document. */
  ghost predicate DefinedOnce(x: Indexed, path: string, symbol: string)
  {
    exists i :: IsDefinition(x, i, path, symbol) && forall j :: IsDefinition(x, j, path, symbol) ==> j == i
  }

  predicate IsDefinition(x: Indexed, i: int, path: string, symbol: string)
  {
    && 0 <= i < |x.index.occurrences|
    && var o := x.index.occurrences[i]; o.isDefinition && o.path == path && o.symbol == symbol
  }

  /**
   A plan commits exactly if it is valid; an index, exactly if each of the contract's subjects has one definition and
   every planned binding is a subject; a record, exactly if no committed record has its identifier.
   */
  ghost predicate Commits(done: seq<Op>, op: Op)
  {
    match op
    case ApplyManifest(m, _) => ValidPlan(m)
    case AdmitIndex(x, c) =>
      && c.subjects != {}
      && (forall s :: s in c.subjects ==> s.0 in x.hashes && DefinedOnce(x, s.0, s.1))
      && (PlanIn(done).Some? ==>
            forall i :: 0 <= i < |PlanIn(done).value.0.bindings| ==>
              var b := PlanIn(done).value.0.bindings[i]; (b.file, b.symbol) in c.subjects)
    case RecordEvidence(e) => forall other :: RecordEvidence(other) in done ==> other.id != e.id
  }

  function DefinitionsAt(occurrences: seq<Occurrence>, path: string, symbol: string): set<int>
  {
    set i | 0 <= i < |occurrences| && occurrences[i].isDefinition && occurrences[i].path == path && occurrences[i].symbol == symbol
  }

  lemma {:induction false} DefinitionsCount(occurrences: seq<Occurrence>, path: string, symbol: string)
    ensures |Definitions(occurrences, path, symbol)| == |DefinitionsAt(occurrences, path, symbol)|
  {
    if occurrences != [] {
      var before, last := occurrences[..|occurrences| - 1], |occurrences| - 1;
      var o := occurrences[last];
      DefinitionsCount(before, path, symbol);
      assert DefinitionsAt(occurrences, path, symbol) ==
        DefinitionsAt(before, path, symbol) +
          if o.isDefinition && o.path == path && o.symbol == symbol then {last} else {};
    }
  }

  lemma OneDefinition(x: Indexed, path: string, symbol: string)
    ensures |Definitions(x.index.occurrences, path, symbol)| == 1 <==> DefinedOnce(x, path, symbol)
  {
    var at := DefinitionsAt(x.index.occurrences, path, symbol);
    DefinitionsCount(x.index.occurrences, path, symbol);
    OneElement(at);
    forall i ensures i in at <==> IsDefinition(x, i, path, symbol) {
    }
  }

  lemma SubjectsAre(x: Indexed, c: Contract)
    ensures SubjectsAdmitted(x, c) <==>
      c.subjects != {} && forall s :: s in c.subjects ==> s.0 in x.hashes && DefinedOnce(x, s.0, s.1)
  {
    forall s | s in c.subjects
      ensures |Definitions(x.index.occurrences, s.0, s.1)| == 1 <==> DefinedOnce(x, s.0, s.1)
    {
      OneDefinition(x, s.0, s.1);
    }
  }

  lemma BindingsAreSubjects(t: Tables, done: seq<Op>, c: Contract)
    requires PlanTold(t, done)
    ensures (forall k :: k in t.bindings ==> Authorized(c, t.bindings[k])) <==>
      (PlanIn(done).Some? ==>
         forall i :: 0 <= i < |PlanIn(done).value.0.bindings| ==>
           var b := PlanIn(done).value.0.bindings[i]; (b.file, b.symbol) in c.subjects)
  {
    if PlanIn(done).Some? {
      var bindings := PlanIn(done).value.0.bindings;
      assert PlannedTold(t.bindings, bindings);
      if forall k :: k in t.bindings ==> Authorized(c, t.bindings[k]) {
        forall i | 0 <= i < |bindings| ensures var b := bindings[i]; (b.file, b.symbol) in c.subjects {
          var b := bindings[i];
          assert Authorized(c, t.bindings[(b.obligation, b.file, b.name)]);
        }
      }
    }
  }

  lemma {:induction false} RecordsAre(done: seq<Op>, e: Evidence.Record)
    ensures e in RecordsIn(done) <==> RecordEvidence(e) in done
  {
    if done != [] {
      RecordsAre(done[..|done| - 1], e);
      assert done == done[..|done| - 1] + [done[|done| - 1]];
    }
  }

  lemma RecordCommits(t: Tables, done: seq<Op>, e: Evidence.Record)
    requires t.evidence == RecordsIn(done)
    ensures AddEvidence(t, e).1 <==> Commits(done, RecordEvidence(e))
  {
    if HasEvidence(t.evidence, e.id) {
      var i :| 0 <= i < |t.evidence| && t.evidence[i].id == e.id;
      RecordsAre(done, t.evidence[i]);
    }
    forall other | RecordEvidence(other) in done && other.id == e.id ensures HasEvidence(t.evidence, e.id) {
      RecordsAre(done, other);
      var i :| 0 <= i < |t.evidence| && t.evidence[i] == other;
    }
  }

  lemma AdmitCommits(h: Hashes, t: Tables, done: seq<Op>, x: Indexed, c: Contract)
    requires Valid(h, t) && Validated(x) && PlanTold(t, done)
    ensures Admit(h, t, x, c).1 <==> Commits(done, AdmitIndex(x, c))
  {
    SubjectsAre(x, c);
    BindingsAreSubjects(t, done, c);
    if SubjectsAdmitted(x, c) {
      AdmittedExactlyWhenAuthorized(h, t, x, c);
    }
  }

  /** After any run, the next transaction commits exactly if the committed ones before it allow it. */
  lemma CommitsExactly(h: Hashes, ops: seq<Op>, op: Op)
    requires Injective(h) && Legal(op) && forall before :: before in ops ==> Legal(before)
    ensures Step(h, After(h, Empty(), ops), op).1 <==> Commits(Committed(h, Empty(), ops), op)
  {
    var t, done := After(h, Empty(), ops), Committed(h, Empty(), ops);
    RunIsTold(h, ops);
    match op
    case ApplyManifest(_, _) =>
    case AdmitIndex(x, c) =>
      RunKeepsValid(h, ops);
      AdmitCommits(h, t, done, x, c);
    case RecordEvidence(e) => RecordCommits(t, done, e);
  }
}
