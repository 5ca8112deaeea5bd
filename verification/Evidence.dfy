/**
 Evidence for one obligation: what makes it fresh, and what the digest it carries commits to.
 */
module Evidence {
  import opened Common
  import opened Plan
  import opened Evaluation

  datatype Outcome = Passed | Unsuccessful | Error

  datatype Record = Record(
    id: string, obligation: string, kind: EvidenceKind, outcome: Outcome, digest: string,
    artifactPath: string, artifactHash: Option<string>)

  /** The project's files by path, the bindings of each obligation, and the active admission. */
  datatype World = World(
    files: map<string, string>, bindings: string -> seq<BindingRow>, admission: Option<string>)

  function FileHash(w: World, path: string): Option<string>
  {
    if path in w.files then Some(w.files[path]) else None
  }

  // ---- the state of the bindings ----

  predicate Current(w: World, row: BindingRow)
  {
    && row.symbol.Some? && row.symbol.value != ""
    && row.admission == w.admission
    && row.planned.file in w.files
    && Some(w.files[row.planned.file]) == row.sourceHash
  }

  predicate InputsPresent(w: World, o: Obligation)
  {
    forall i :: 0 <= i < |o.inputs| ==> o.inputs[i] in w.files
  }

  predicate AllCurrent(w: World, rows: seq<BindingRow>)
  {
    forall i :: 0 <= i < |rows| ==> Current(w, rows[i])
  }

  /** Nothing about the obligation's inputs and bindings stands in the way of verification. */
  predicate Grounded(w: World, stale: nat, o: Obligation)
  {
    && stale == 0
    && InputsPresent(w, o)
    && (o.role == Behavior ==> w.bindings(o.id) != [])
    && AllCurrent(w, w.bindings(o.id))
  }

  /** `_binding_reasons`, given the number of reasons the store finds the active admission stale. */
  method BindingReasons(w: World, stale: nat, o: Obligation) returns (reasons: nat)
    ensures reasons == 0 <==> Grounded(w, stale, o)
  {
    reasons := stale;
    for i := 0 to |o.inputs|
      invariant reasons == 0 <==> stale == 0 && forall k :: 0 <= k < i ==> o.inputs[k] in w.files
    {
      if o.inputs[i] !in w.files {
        reasons := reasons + 1;
      }
    }
    var rows := w.bindings(o.id);
    if o.role == Behavior && rows == [] {
      reasons := reasons + 1;
    }
    for i := 0 to |rows|
      invariant reasons == 0 <==>
        && stale == 0 && InputsPresent(w, o) && (o.role == Behavior ==> rows != [])
        && forall k :: 0 <= k < i ==> Current(w, rows[k])
    {
      var row := rows[i];
      if row.symbol.None? || row.symbol.value == "" {
        reasons := reasons + 1;
      } else if row.admission != w.admission {
        reasons := reasons + 1;
      } else if row.planned.file !in w.files {
        reasons := reasons + 1;
      } else if Some(w.files[row.planned.file]) != row.sourceHash {
        reasons := reasons + 1;
      }
    }
  }

  // ---- the latest fresh record ----

  predicate Fresh(w: World, digest: string, e: Record)
  {
    && e.digest == digest
    && (e.artifactPath != "" ==> e.artifactPath in w.files && Some(w.files[e.artifactPath]) == e.artifactHash)
  }

  /** The record at `i` is the first, in the order newest first, that is fresh and of the kind. */
  ghost predicate Latest(w: World, digest: string, log: seq<Record>, kind: EvidenceKind, i: nat)
  {
    && i < |log| && log[i].kind == kind && Fresh(w, digest, log[i])
    && forall k :: 0 <= k < i ==> log[k].kind != kind || !Fresh(w, digest, log[k])
  }

  method FindLatest(w: World, digest: string, log: seq<Record>, kind: EvidenceKind)
    returns (latest: Option<Outcome>, ghost at: nat)
    ensures latest.Some? ==> Latest(w, digest, log, kind, at) && log[at].outcome == latest.value
    ensures latest.None? ==> forall i: nat :: !Latest(w, digest, log, kind, i)
  {
    var usable: seq<Record> := [];
    at := 0;
    for i := 0 to |log|
      invariant usable == [] ==> forall k :: 0 <= k < i ==> log[k].kind != kind || !Fresh(w, digest, log[k])
      invariant usable != [] ==> Latest(w, digest, log, kind, at) && usable[0] == log[at]
    {
      var e := log[i];
      if e.kind != kind || e.digest != digest {
        continue;
      }
      if e.artifactPath != "" {
        if e.artifactPath !in w.files || Some(w.files[e.artifactPath]) != e.artifactHash {
          continue;
        }
      }
      if usable == [] {
        at := i;
      }
      usable := usable + [e];
    }
    latest := if usable == [] then None else Some(usable[0].outcome);
  }

  /** The newest fresh record of the kind has this outcome. */
  ghost predicate LatestIs(w: World, digest: string, log: seq<Record>, kind: EvidenceKind, passed: bool)
  {
    exists i: nat :: Latest(w, digest, log, kind, i) && (log[i].outcome == Passed <==> passed)
  }

  /** One required kind: a reason against, and whether it is a failure. */
  method CheckKind(w: World, digest: string, log: seq<Record>, kind: EvidenceKind) returns (failed: bool, reason: bool)
    ensures failed <==> LatestIs(w, digest, log, kind, false)
    ensures !reason <==> LatestIs(w, digest, log, kind, true)
    ensures failed ==> reason
  {
    var latest, at := FindLatest(w, digest, log, kind);
    failed, reason := latest.Some? && latest.value != Passed, latest != Some(Passed);
    if latest.Some? {
      forall i: nat | Latest(w, digest, log, kind, i) ensures i == at {
      }
    }
  }

  ghost predicate SomeKindFailed(w: World, digest: string, log: seq<Record>, kinds: seq<EvidenceKind>)
  {
    exists i :: 0 <= i < |kinds| && LatestIs(w, digest, log, kinds[i], false)
  }

  ghost predicate EveryKindPassed(w: World, digest: string, log: seq<Record>, kinds: seq<EvidenceKind>)
  {
    forall i :: 0 <= i < |kinds| ==> LatestIs(w, digest, log, kinds[i], true)
  }

  /**
   `check_obligation`: failed exactly if the newest fresh record of some required kind did not pass, and
   verified exactly if the bindings are current and for every required kind it did.
   */
  method CheckObligation(w: World, stale: nat, o: Obligation, digest: string, log: seq<Record>) returns (status: Status)
    ensures status == Failed <==> SomeKindFailed(w, digest, log, o.required)
    ensures status == Verified <==> Grounded(w, stale, o) && EveryKindPassed(w, digest, log, o.required)
  {
    var reasons := BindingReasons(w, stale, o);
    var failed, missing := false, 0;
    for i := 0 to |o.required|
      invariant failed <==> exists k :: 0 <= k < i && LatestIs(w, digest, log, o.required[k], false)
      invariant missing == 0 <==> forall k :: 0 <= k < i ==> LatestIs(w, digest, log, o.required[k], true)
      invariant failed ==> missing > 0
    {
      var unsuccessful, reason := CheckKind(w, digest, log, o.required[i]);
      if unsuccessful {
        failed := true;
        missing := missing + 1;
      } else if reason {
        missing := missing + 1;
      }
    }
    status := if failed then Failed else if reasons + missing > 0 then Incomplete else Verified;
  }

  // ---- what a digest commits to ----

  datatype BindingPayload = BindingPayload(
    planned: PlannedBinding, symbol: Option<string>, admission: Option<string>, current: Option<string>)

  datatype ObligationPayload = ObligationPayload(
    obligation: Obligation, inputs: seq<(string, Option<string>)>, bindings: seq<BindingPayload>)

  /** The item's own fields except its position, its obligations, and its children's subtrees. */
  datatype Subtree = Subtree(
    id: string, kind: Kind, title: string, description: string, parent: Option<string>,
    obligations: seq<ObligationPayload>, children: seq<Subtree>)

  datatype Subject = One(payload: ObligationPayload) | Whole(subtree: Subtree)

  function BindingPayloadOf(w: World, row: BindingRow): BindingPayload
  {
    BindingPayload(row.planned, row.symbol, row.admission, FileHash(w, row.planned.file))
  }

  function ObligationPayloadOf(w: World, o: Obligation): ObligationPayload
  {
    var rows := w.bindings(o.id);
    ObligationPayload(o,
      seq(|o.inputs|, i requires 0 <= i < |o.inputs| => (o.inputs[i], FileHash(w, o.inputs[i]))),
      seq(|rows|, i requires 0 <= i < |rows| => BindingPayloadOf(w, rows[i])))
  }

  function ObligationPayloads(w: World, obligations: seq<Obligation>): seq<ObligationPayload>
  {
    seq(|obligations|, i requires 0 <= i < |obligations| => ObligationPayloadOf(w, obligations[i]))
  }

  /** `_subtree_payload`. */
  function SubtreeOf(m: Manifest, w: World, item: WorkItem): Subtree
    requires Sound(m) && item in m.items
    decreases Rank(item.kind), 1, 0
  {
    var below := ChildrenOf(m.items, Some(item.id));
    ChildrenAre(m.items, Some(item.id));
    assert forall c :: c in below ==> c in m.items && Rank(c.kind) < Rank(item.kind) by {
      forall c | c in below ensures Rank(c.kind) < Rank(item.kind) {
        ChildIsLower(m, item, c);
      }
    }
    Subtree(item.id, item.kind, item.title, item.description, item.parent,
      ObligationPayloads(w, OwnedBy(m.obligations, item.id)), SubtreesOf(m, w, below, Rank(item.kind)))
  }

  function SubtreesOf(m: Manifest, w: World, items: seq<WorkItem>, below: nat): (r: seq<Subtree>)
    requires Sound(m) && forall c :: c in items ==> c in m.items && Rank(c.kind) < below
    ensures |r| == |items|
    decreases below, 0, |items|
  {
    if items == [] then []
    else SubtreesOf(m, w, items[..|items| - 1], below) + [SubtreeOf(m, w, items[|items| - 1])]
  }

  lemma {:induction false} SubtreesAt(m: Manifest, w: World, items: seq<WorkItem>, below: nat, i: nat)
    requires Sound(m) && (forall c :: c in items ==> c in m.items && Rank(c.kind) < below) && i < |items|
    ensures items[i] in m.items && SubtreesOf(m, w, items, below)[i] == SubtreeOf(m, w, items[i])
    decreases |items|
  {
    if i < |items| - 1 {
      SubtreesAt(m, w, items[..|items| - 1], below, i);
    }
  }

  /** The payload of some obligation anywhere in a subtree. */
  ghost predicate Covers(t: Subtree, p: ObligationPayload)
  {
    p in t.obligations || exists i :: 0 <= i < |t.children| && Covers(t.children[i], p)
  }

  function HasPayload(w: World, p: ObligationPayload): Obligation -> bool
  {
    (o: Obligation) => ObligationPayloadOf(w, o) == p
  }

  lemma OwnPayloads(m: Manifest, w: World, id: string, p: ObligationPayload)
    ensures p in ObligationPayloads(w, OwnedBy(m.obligations, id)) <==> OwnsWith(m, HasPayload(w, p), id)
  {
    var owned := OwnedBy(m.obligations, id);
    OwnedAre(m.obligations, id);
    if p in ObligationPayloads(w, owned) {
      var i :| 0 <= i < |owned| && ObligationPayloads(w, owned)[i] == p;
      assert owned[i] in owned;
    }
    if o :| o in m.obligations && o.workItem == id && HasPayload(w, p)(o) {
      var i :| 0 <= i < |owned| && owned[i] == o;
      assert ObligationPayloads(w, owned)[i] == p;
    }
  }

  /** A subtree's payload holds exactly the payloads of the obligations at or below its root. */
  lemma {:induction false} SubtreeCovers(m: Manifest, w: World, item: WorkItem, p: ObligationPayload)
    requires Sound(m) && OwnershipOk(m) && item in m.items
    ensures Covers(SubtreeOf(m, w, item), p) <==> SomeBelow(m, HasPayload(w, p), item.id)
    decreases Rank(item.kind)
  {
    var below := ChildrenOf(m.items, Some(item.id));
    forall i | 0 <= i < |below| ensures below[i] in m.items && Rank(below[i].kind) < Rank(item.kind) {
      ChildIsLower(m, item, below[i]);
    }
    var children := SubtreesOf(m, w, below, Rank(item.kind));
    forall i | 0 <= i < |below| ensures Covers(children[i], p) <==> SomeBelow(m, HasPayload(w, p), below[i].id) {
      SubtreesAt(m, w, below, Rank(item.kind), i);
      SubtreeCovers(m, w, below[i], p);
    }
    OwnPayloads(m, w, item.id, p);
    BelowSplits(m, HasPayload(w, p), item);
    assert SubtreeOf(m, w, item).children == children;
  }

  /** An item's own fields as its payload carries them. */
  datatype Fields = Fields(id: string, kind: Kind, title: string, description: string, parent: Option<string>)

  function FieldsOf(item: WorkItem): Fields
  {
    Fields(item.id, item.kind, item.title, item.description, item.parent)
  }

  ghost predicate HasNode(t: Subtree, f: Fields)
  {
    || f == Fields(t.id, t.kind, t.title, t.description, t.parent)
    || exists i :: 0 <= i < |t.children| && HasNode(t.children[i], f)
  }

  ghost predicate SomeItemBelow(m: Manifest, f: Fields, root: string)
    requires Ranked(ItemsById(m.items))
  {
    exists id :: id in ItemsById(m.items) && InSubtree(ItemsById(m.items), root, id) && FieldsOf(ItemsById(m.items)[id]) == f
  }

  /** The items at or below an item are the item and those at or below its children. */
  lemma ItemsBelowSplit(m: Manifest, item: WorkItem, f: Fields)
    requires Sound(m) && item in m.items
    ensures SomeItemBelow(m, f, item.id) <==>
      FieldsOf(item) == f || exists c :: c in ChildrenOf(m.items, Some(item.id)) && SomeItemBelow(m, f, c.id)
  {
    var items := ItemsById(m.items);
    ItemIsFiled(m, item);
    ChildrenAre(m.items, Some(item.id));
    if SomeItemBelow(m, f, item.id) {
      var id :| id in items && InSubtree(items, item.id, id) && FieldsOf(items[id]) == f;
      if id != item.id {
        SubtreeUnfolds(items, item.id, id);
        var c :| c in items && items[c].parent == Some(item.id) && InSubtree(items, c, id);
        FiledIsItem(m, c);
        assert SomeItemBelow(m, f, items[c].id);
      }
    }
    if FieldsOf(item) == f {
      assert InSubtree(items, item.id, item.id);
    }
    if c :| c in ChildrenOf(m.items, Some(item.id)) && SomeItemBelow(m, f, c.id) {
      ItemIsFiled(m, c);
      var id :| id in items && InSubtree(items, c.id, id) && FieldsOf(items[id]) == f;
      if id != item.id {
        SubtreeUnfolds(items, item.id, id);
      }
      assert InSubtree(items, item.id, id);
    }
  }

  /** A subtree's payload has a node for exactly the items at or below its root. */
  lemma {:induction false} SubtreeHasNodes(m: Manifest, w: World, item: WorkItem, f: Fields)
    requires Sound(m) && item in m.items
    ensures HasNode(SubtreeOf(m, w, item), f) <==> SomeItemBelow(m, f, item.id)
    decreases Rank(item.kind)
  {
    var below := ChildrenOf(m.items, Some(item.id));
    forall i | 0 <= i < |below| ensures below[i] in m.items && Rank(below[i].kind) < Rank(item.kind) {
      ChildIsLower(m, item, below[i]);
    }
    var children := SubtreesOf(m, w, below, Rank(item.kind));
    forall i | 0 <= i < |below| ensures HasNode(children[i], f) <==> SomeItemBelow(m, f, below[i].id) {
      SubtreesAt(m, w, below, Rank(item.kind), i);
      SubtreeHasNodes(m, w, below[i], f);
    }
    ItemsBelowSplit(m, item, f);
    assert SubtreeOf(m, w, item).children == children;
    if c :| c in below && SomeItemBelow(m, f, c.id) {
      var i :| 0 <= i < |below| && below[i] == c;
      assert HasNode(children[i], f);
    }
  }

  /** The hash of the active admission and a subject. */
  type Digest = (Option<string>, Subject) -> string

  ghost predicate Injective(hash: Digest)
  {
    forall a, s, b, t :: hash(a, s) == hash(b, t) ==> a == b && s == t
  }

  /** `subject_digest`. */
  function SubjectDigest(hash: Digest, m: Manifest, w: World, o: Obligation): string
    requires Sound(m) && o.workItem in ItemsById(m.items)
  {
    FiledIsItem(m, o.workItem);
    hash(w.admission,
      if o.role == Composition then Whole(SubtreeOf(m, w, ItemsById(m.items)[o.workItem]))
      else One(ObligationPayloadOf(w, o)))
  }

  /**
   A composition obligation's digest is unchanged only if the admission is, and only if every item and every
   obligation at or below its item is: the same records, checker inputs, bindings and file hashes, none added
   and none lost. So evidence recorded before any such change is not fresh after it.
   */
  lemma DigestCommitsToSubtree(
      hash: Digest, m: Manifest, w: World, o: Obligation, m': Manifest, w': World, o': Obligation,
      p: ObligationPayload, f: Fields)
    requires Injective(hash) && Sound(m) && Sound(m') && OwnershipOk(m) && OwnershipOk(m')
    requires o in m.obligations && o' in m'.obligations && o.role == Composition
    requires o.workItem in ItemsById(m.items) && o'.workItem in ItemsById(m'.items)
    requires SubjectDigest(hash, m, w, o) == SubjectDigest(hash, m', w', o')
    ensures w.admission == w'.admission && o.workItem == o'.workItem && o'.role == Composition
    ensures SomeBelow(m, HasPayload(w, p), o.workItem) <==> SomeBelow(m', HasPayload(w', p), o.workItem)
    ensures SomeItemBelow(m, f, o.workItem) <==> SomeItemBelow(m', f, o.workItem)
  {
    FiledIsItem(m, o.workItem);
    FiledIsItem(m', o'.workItem);
    var item, item' := ItemsById(m.items)[o.workItem], ItemsById(m'.items)[o'.workItem];
    SubtreeCovers(m, w, item, p);
    SubtreeCovers(m', w', item', p);
    SubtreeHasNodes(m, w, item, f);
    SubtreeHasNodes(m', w', item', f);
  }
}
