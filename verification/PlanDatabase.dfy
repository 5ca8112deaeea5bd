/**
 The store's transactions, statement by statement. Each works on a copy and commits it or leaves it.
 */
module PlanDatabase {
  import opened Common
  import opened TextOrder
  import opened Plan
  import opened Sequences
  import opened PlanStore

  // ---- the order in which work items are inserted ----

  ghost predicate FiledIn(items: Items, s: seq<WorkItem>)
  {
    forall i :: 0 <= i < |s| ==> s[i].id in items && items[s[i].id] == s[i]
  }

  function DepthOf(items: Items, id: string): nat
    requires Ranked(items)
  {
    if id in items then Depth(items, id) else 0
  }

  /** The sort key: depth, then position, then identifier. */
  predicate Precedes(items: Items, a: WorkItem, b: WorkItem)
    requires Ranked(items)
  {
    var d, e := DepthOf(items, a.id), DepthOf(items, b.id);
    d < e || (d == e && (a.position < b.position || (a.position == b.position && Before(a.id, b.id))))
  }

  function ItemOrder(items: Items): (WorkItem, WorkItem) -> bool
    requires Ranked(items)
  {
    (a: WorkItem, b: WorkItem) => Precedes(items, a, b)
  }

  lemma ItemsAreOrdered(items: Items)
    requires Ranked(items)
    ensures Ordering(ItemOrder(items))
  {
    forall a, b, c ensures Chains(ItemOrder(items), a, b, c) {
      ItemsChain(items, a, b, c);
    }
  }

  lemma ItemsChain(items: Items, a: WorkItem, b: WorkItem, c: WorkItem)
    requires Ranked(items)
    ensures Chains(ItemOrder(items), a, b, c)
  {
    if Before(a.id, b.id) {
      BeforeAsymmetric(a.id, b.id);
    }
    if !Before(b.id, a.id) && !Before(c.id, b.id) {
      NotBeforeTransitive(a.id, b.id, c.id);
    }
  }

  /** Depths never decrease along the sequence. */
  ghost predicate ByDepth(items: Items, s: seq<WorkItem>)
    requires Ranked(items) && FiledIn(items, s)
  {
    forall i, j :: 0 <= i < j < |s| ==> Depth(items, s[i].id) <= Depth(items, s[j].id)
  }

  /** The sort keeps the same items, without repetition, and orders them by depth. */
  lemma SortedByDepth(items: Items, s: seq<WorkItem>)
    requires Ranked(items) && FiledIn(items, s) && DistinctItems(s)
    ensures var r := Sorted(s, ItemOrder(items));
      FiledIn(items, r) && ByDepth(items, r) && DistinctItems(r) && forall y :: y in r <==> y in s
  {
    ItemsAreOrdered(items);
    SortedAscends(s, ItemOrder(items));
    SameMembers(Sorted(s, ItemOrder(items)), s);
    FiledLikewise(items, s, Sorted(s, ItemOrder(items)));
    AscendingIsByDepth(items, Sorted(s, ItemOrder(items)));
    DistinctPermutes(s, Sorted(s, ItemOrder(items)));
  }

  lemma FiledLikewise(items: Items, s: seq<WorkItem>, r: seq<WorkItem>)
    requires FiledIn(items, s) && forall y :: y in r ==> y in s
    ensures FiledIn(items, r)
  {
    forall i | 0 <= i < |r| ensures r[i].id in items && items[r[i].id] == r[i] {
      assert r[i] in r;
      var k :| 0 <= k < |s| && s[k] == r[i];
    }
  }

  lemma AscendingIsByDepth(items: Items, r: seq<WorkItem>)
    requires Ranked(items) && FiledIn(items, r) && Ascending(r, ItemOrder(items))
    ensures ByDepth(items, r)
  {
    forall i, j | 0 <= i < j < |r| ensures Depth(items, r[i].id) <= Depth(items, r[j].id) {
      assert !ItemOrder(items)(r[j], r[i]);
    }
  }

  lemma DistinctPermutes(s: seq<WorkItem>, r: seq<WorkItem>)
    requires DistinctItems(s) && multiset(s) == multiset(r)
    ensures DistinctItems(r)
  {
    var differ := (a: WorkItem, b: WorkItem) => a.id != b.id;
    assert Pairwise(s, differ);
    PairwisePermutes(s, r, differ);
    forall i, j | 0 <= i < j < |r| ensures r[i].id != r[j].id {
      assert differ(r[i], r[j]);
    }
  }

  /** Every item's parent comes earlier. */
  ghost predicate ParentsFirst(s: seq<WorkItem>)
  {
    forall i :: 0 <= i < |s| && s[i].parent.Some? ==> exists j :: 0 <= j < i && s[j].id == s[i].parent.value
  }

  lemma EarlierIsNoDeeper(items: Items, r: seq<WorkItem>, i: nat, j: nat)
    requires Ranked(items) && FiledIn(items, r) && ByDepth(items, r) && i < |r| && j < |r|
    ensures Depth(items, r[i].id) > Depth(items, r[j].id) ==> j < i
  {
    if i < j {
      assert Depth(items, r[i].id) <= Depth(items, r[j].id);
    }
  }

  /** Inserted by depth, every parent precedes its children. */
  lemma DepthPutsParentsFirst(items: Items, r: seq<WorkItem>)
    requires Ranked(items) && FiledIn(items, r) && ByDepth(items, r) && forall id :: id in items ==> items[id] in r
    ensures ParentsFirst(r)
  {
    forall i | 0 <= i < |r| && r[i].parent.Some? ensures exists j :: 0 <= j < i && r[j].id == r[i].parent.value {
      var p := r[i].parent.value;
      assert items[r[i].id] == r[i] && ParentOk(items, items[r[i].id]);
      assert items[p] in r;
      var j :| 0 <= j < |r| && r[j] == items[p];
      assert Depth(items, r[i].id) == 1 + Depth(items, p);
      EarlierIsNoDeeper(items, r, i, j);
    }
  }

  /** The rows depend only on which items there are. */
  lemma SameRows(a: seq<WorkItem>, b: seq<WorkItem>)
    requires DistinctItems(a) && DistinctItems(b) && forall y :: y in a <==> y in b
    ensures ItemsById(a) == ItemsById(b)
  {
    ItemsByIdHas(a);
    ItemsByIdHas(b);
    RowsWithin(a, b);
    RowsWithin(b, a);
  }

  lemma RowsWithin(a: seq<WorkItem>, b: seq<WorkItem>)
    requires DistinctItems(a) && DistinctItems(b) && forall y :: y in a ==> y in b
    ensures forall id :: id in ItemsById(a) ==> id in ItemsById(b) && ItemsById(b)[id] == ItemsById(a)[id]
  {
    ItemsByIdHas(a);
    ItemsByIdHas(b);
    forall id | id in ItemsById(a) ensures id in ItemsById(b) && ItemsById(b)[id] == ItemsById(a)[id] {
      var y := ItemsById(a)[id];
      var i :| 0 <= i < |b| && b[i] == y;
      assert ItemsById(b)[b[i].id] == b[i];
    }
  }

  // ---- the statements ----

  /** `DELETE FROM work_items`, which also deletes what refers to the deleted rows. */
  function Cascade(t: Tables): Tables
  {
    t.(items := map[],
       obligations := map o | o in t.obligations && t.obligations[o].workItem !in t.items :: t.obligations[o],
       bindings := map k | k in t.bindings && !(k.0 in t.obligations && t.obligations[k.0].workItem in t.items)
         :: t.bindings[k])
  }

  /** With its references intact, the whole previous plan is deleted. */
  lemma CascadeEmpties(t: Tables)
    requires References(t)
    ensures Cascade(t) == t.(items := map[], obligations := map[], bindings := map[])
  {
  }

  /** Insert the items in order; a repeated key or a parent not yet inserted is refused. */
  method InsertItems(start: Items, order: seq<WorkItem>) returns (ok: bool, rows: Items)
    requires start == map[]
    ensures ok <==> DistinctItems(order) && ParentsFirst(order)
    ensures ok ==> rows == ItemsById(order)
  {
    rows := start;
    for i := 0 to |order|
      invariant rows == ItemsById(order[..i])
      invariant forall j, k :: 0 <= j < k < i ==> order[j].id != order[k].id
      invariant forall k :: 0 <= k < i && order[k].parent.Some? ==> exists j :: 0 <= j < k && order[j].id == order[k].parent.value
    {
      PrefixRows(order, i);
      if order[i].id in rows {
        ok := false;
        return;
      }
      if order[i].parent.Some? && order[i].parent.value !in rows {
        assert !ParentsFirst(order);
        ok := false;
        return;
      }
      rows := rows[order[i].id := order[i]];
    }
    assert order[..|order|] == order;
    ok := true;
  }

  lemma PrefixRows(order: seq<WorkItem>, i: nat)
    requires i < |order|
    ensures forall id :: id in ItemsById(order[..i]) <==> exists j :: 0 <= j < i && order[j].id == id
    ensures ItemsById(order[..i + 1]) == ItemsById(order[..i])[order[i].id := order[i]]
  {
    var before := order[..i];
    assert order[..i + 1][..|order[..i + 1]| - 1] == before;
    ItemsByIdHas(before);
    forall id | id in ItemsById(before) ensures exists j :: 0 <= j < i && order[j].id == id {
      var j :| 0 <= j < |before| && before[j] == ItemsById(before)[id];
      assert order[j].id == id;
    }
    forall j | 0 <= j < i ensures order[j].id in ItemsById(before) {
      assert before[j] == order[j];
    }
  }

  method InsertObligations(start: map<string, Obligation>, obligations: seq<Obligation>, items: Items)
    returns (ok: bool, rows: map<string, Obligation>)
    requires start == map[]
    ensures DistinctObligations(obligations) && (forall o :: o in obligations ==> o.workItem in items) ==> ok
    ensures ok ==> rows == ObligationsById(obligations)
  {
    rows := start;
    for i := 0 to |obligations|
      invariant rows == ObligationsById(obligations[..i])
    {
      ghost var before := obligations[..i];
      assert obligations[..i + 1][..|obligations[..i + 1]| - 1] == before;
      if obligations[i].id in rows {
        ObligationsByIdHas(before);
        assert !DistinctObligations(obligations) by {
          var j :| 0 <= j < |before| && before[j] == ObligationsById(before)[obligations[i].id];
          assert obligations[j].id == obligations[i].id;
        }
        ok := false;
        return;
      }
      if obligations[i].workItem !in items {
        assert obligations[i] in obligations;
        ok := false;
        return;
      }
      rows := rows[obligations[i].id := obligations[i]];
    }
    assert obligations[..|obligations|] == obligations;
    ok := true;
  }

  method InsertBindings(start: map<Key, BindingRow>, bindings: seq<PlannedBinding>, obligations: map<string, Obligation>)
    returns (ok: bool, rows: map<Key, BindingRow>)
    requires start == map[]
    ensures DistinctBindings(bindings) && (forall b :: b in bindings ==> b.obligation in obligations) ==> ok
    ensures ok ==> rows == RowsOf(bindings)
  {
    rows := start;
    for i := 0 to |bindings|
      invariant rows == RowsOf(bindings[..i])
    {
      ghost var before := bindings[..i];
      assert bindings[..i + 1][..|bindings[..i + 1]| - 1] == before;
      if BindingKey(bindings[i]) in rows {
        RowsOfHas(before);
        assert !DistinctBindings(bindings) by {
          var j :| 0 <= j < |before| && before[j] == RowsOf(before)[BindingKey(bindings[i])].planned;
          assert BindingKey(bindings[j]) == BindingKey(bindings[i]);
        }
        ok := false;
        return;
      }
      if bindings[i].obligation !in obligations {
        assert bindings[i] in bindings;
        ok := false;
        return;
      }
      rows := rows[BindingKey(bindings[i]) := Unresolved(bindings[i])];
    }
    assert bindings[..|bindings|] == bindings;
    ok := true;
  }

  /** What a valid plan offers the three inserts. */
  lemma PlanIsInsertable(m: Manifest)
    requires ValidPlan(m)
    ensures Ranked(ItemsById(m.items)) && FiledIn(ItemsById(m.items), m.items)
    ensures forall id :: id in ItemsById(m.items) ==> ItemsById(m.items)[id] in m.items
    ensures forall o :: o in m.obligations ==> o.workItem in ItemsById(m.items)
    ensures forall b :: b in m.bindings ==> b.obligation in ObligationsById(m.obligations)
  {
    HierarchyIsRanked(m.items);
    ItemsByIdHas(m.items);
    ObligationsByIdHas(m.obligations);
    forall b | b in m.bindings ensures b.obligation in ObligationsById(m.obligations) {
      var i :| 0 <= i < |m.bindings| && m.bindings[i] == b;
      assert HasObligation(m.obligations, m.bindings[i].obligation);
    }
  }

  /** `replace_plan` on the rows of the plan: with a valid plan no insert is refused. */
  method ReplaceRows(t: Tables, m: Manifest) returns (ok: bool, u: Tables)
    requires References(t) && ValidPlan(m)
    ensures ok
    ensures u == t.(items := ItemsById(m.items), obligations := ObligationsById(m.obligations), bindings := RowsOf(m.bindings))
  {
    PlanIsInsertable(m);
    CascadeEmpties(t);
    u := Cascade(t);
    var byId := ItemsById(m.items);
    var order := Sorted(m.items, ItemOrder(byId));
    SortedByDepth(byId, m.items);
    DepthPutsParentsFirst(byId, order);
    SameRows(order, m.items);
    var items, obligations, bindings;
    ok, items := InsertItems(u.items, order);
    if !ok {
      return;
    }
    ok, obligations := InsertObligations(u.obligations, m.obligations, items);
    if !ok {
      return;
    }
    ok, bindings := InsertBindings(u.bindings, m.bindings, obligations);
    if !ok {
      return;
    }
    u := u.(items := items, obligations := obligations, bindings := bindings);
  }

  /** Look every binding up in the index, in any order; the rows are the copy with all of them resolved. */
  method ResolveBindings(x: Indexed, c: Contract, admission: string, rows: map<Key, BindingRow>)
    returns (errors: nat, resolved: map<Key, BindingRow>)
    ensures errors == 0 <==> AllResolvable(x, c, rows)
    ensures errors == 0 ==> resolved == map k | k in rows :: Resolve(x, admission, rows[k])
  {
    errors := 0;
    resolved := map k | k in rows :: Unresolved(rows[k].planned);
    var pending := rows.Keys;
    while pending != {}
      invariant pending <= rows.Keys && resolved.Keys == rows.Keys
      invariant errors == 0 <==> forall k :: k in rows.Keys - pending ==> Resolvable(x, c, rows[k])
      invariant errors == 0 ==> forall k :: k in rows.Keys - pending ==> resolved[k] == Resolve(x, admission, rows[k])
      decreases pending
    {
      var key :| key in pending;
      ghost var done := rows.Keys - pending;
      pending := pending - {key};
      assert rows.Keys - pending == done + {key};
      var row := rows[key];
      if Authorized(c, row) && |CandidateRows(x, row.planned.file, row.planned.symbol)| == 1 {
        var candidate := CandidateRows(x, row.planned.file, row.planned.symbol)[0];
        resolved := resolved[key := BindingRow(row.planned, Some(candidate.0), Some(candidate.1), Some(admission))];
      } else {
        errors := errors + 1;
      }
    }
    assert rows.Keys - pending == rows.Keys;
  }

  /** The rows of an index and of an admission, unless they are there already. */
  method InsertAdmission(t: Tables, ingestion: string, admission: string, x: Indexed, c: Contract)
    returns (ok: bool, u: Tables)
    ensures ok <==> IndexUnder(t, ingestion, x) == x
    ensures ok ==> u == t.(
      indexes := t.indexes[ingestion := x],
      admissions := if admission in t.admissions then t.admissions else t.admissions[admission := AdmissionRow(ingestion, c)])
  {
    u := t;
    if ingestion in t.indexes {
      if t.indexes[ingestion] != x {
        ok := false;
        return;
      }
      assert t.indexes[ingestion := x] == t.indexes;
    } else {
      u := u.(indexes := t.indexes[ingestion := x]);
    }
    if admission !in t.admissions {
      u := u.(admissions := t.admissions[admission := AdmissionRow(ingestion, c)]);
    }
    ok := true;
  }

  method AdmitRows(h: Hashes, t: Tables, x: Indexed, c: Contract) returns (ok: bool, u: Tables)
    ensures ok == Admit(h, t, x, c).1 && (ok ==> u == Admit(h, t, x, c).0)
  {
    u := t;
    if !SubjectsAdmitted(x, c) {
      ok := false;
      return;
    }
    var ingestion := h.ingestion(x);
    var admission := h.admission(ingestion, c);
    ok, u := InsertAdmission(t, ingestion, admission, x, c);
    if !ok {
      return;
    }
    var errors, resolved := ResolveBindings(x, c, admission, u.bindings);
    ok := errors == 0;
    u := u.(bindings := resolved, admission := Some(admission));
  }

  /** The project database. */
  class Store {
    const hashes: Hashes
    var tables: Tables

    constructor (hashes: Hashes)
      requires Injective(hashes)
      ensures this.hashes == hashes && tables == Empty() && Valid(hashes, tables)
    {
      this.hashes := hashes;
      tables := Empty();
    }

    /** `apply_manifest`. */
    method ApplyPlan(m: Manifest, hash: string) returns (ok: bool)
      requires Valid(hashes, tables)
      modifies this
      ensures (tables, ok) == Apply(old(tables), m, hash) && Valid(hashes, tables)
    {
      ApplyKeepsValid(hashes, tables, m, hash);
      var fault := ValidateManifest(m);
      if fault.Some? {
        return false;
      }
      var replaced;
      ok, replaced := ReplaceRows(tables, m);
      if ok {
        tables := replaced.(plan := Some(hash), revisions := replaced.revisions[hash := m]);
      }
    }

    /** `admit_scip_index`, from the point where the index and the contract have been read. */
    method AdmitScipIndex(x: Indexed, c: Contract) returns (ok: bool)
      requires Valid(hashes, tables) && Validated(x)
      modifies this
      ensures (tables, ok) == Admit(hashes, old(tables), x, c) && Valid(hashes, tables)
    {
      AdmitKeepsValid(hashes, tables, x, c);
      var admitted;
      ok, admitted := AdmitRows(hashes, tables, x, c);
      if ok {
        tables := admitted;
      }
    }

    /** `add_evidence`. */
    method RecordOutcome(e: Evidence.Record) returns (ok: bool)
      requires Valid(hashes, tables)
      modifies this
      ensures (tables, ok) == AddEvidence(old(tables), e) && Valid(hashes, tables)
    {
      AddKeepsValid(hashes, tables, e);
      if HasEvidence(tables.evidence, e.id) {
        return false;
      }
      tables := tables.(evidence := tables.evidence + [e]);
      ok := true;
    }
  }
}
