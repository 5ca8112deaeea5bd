/**
 When evidence stays fresh: exactly which changes of plan, files, bindings and admission change a subject's digest, and
 that no record made before such a change counts after it.
 */
module Freshness {
  import opened Common
  import opened Plan
  import opened Evaluation
  import opened Evidence

  /** The path holds the same file, or none in either world. */
  predicate SameFile(w: World, w': World, path: string)
  {
    (path in w.files <==> path in w'.files) && (path in w.files ==> w.files[path] == w'.files[path])
  }

  /** The same planned symbol, resolved alike by the same admission, in a file that has not changed. */
  predicate SameBinding(w: World, w': World, row: BindingRow, row': BindingRow)
  {
    && row.planned == row'.planned && row.symbol == row'.symbol && row.admission == row'.admission
    && SameFile(w, w', row.planned.file)
  }

  /** Two worlds show one obligation with the same checker inputs and the same bindings. */
  predicate SameGround(w: World, w': World, o: Obligation)
  {
    && (forall i :: 0 <= i < |o.inputs| ==> SameFile(w, w', o.inputs[i]))
    && |w.bindings(o.id)| == |w'.bindings(o.id)|
    && forall i :: 0 <= i < |w.bindings(o.id)| ==> SameBinding(w, w', w.bindings(o.id)[i], w'.bindings(o.id)[i])
  }

  // ---- one obligation ----

  lemma SamePayload(w: World, w': World, o: Obligation, o': Obligation)
    ensures ObligationPayloadOf(w, o) == ObligationPayloadOf(w', o') <==> o == o' && SameGround(w, w', o)
  {
    var p, q := ObligationPayloadOf(w, o), ObligationPayloadOf(w', o');
    if p == q {
      assert p.obligation == q.obligation;
      forall i | 0 <= i < |o.inputs| ensures SameFile(w, w', o.inputs[i]) {
        assert p.inputs[i] == q.inputs[i];
      }
      forall i | 0 <= i < |w.bindings(o.id)| ensures SameBinding(w, w', w.bindings(o.id)[i], w'.bindings(o.id)[i]) {
        assert p.bindings[i] == q.bindings[i];
      }
    }
    if o == o' && SameGround(w, w', o) {
      assert p.inputs == q.inputs;
      assert p.bindings == q.bindings;
    }
  }

  lemma HashDecides(hash: Digest, a: Option<string>, s: Subject, b: Option<string>, t: Subject)
    requires Injective(hash)
    ensures hash(a, s) == hash(b, t) <==> a == b && s == t
  {
  }

  /**
   A behavior obligation's digest is unchanged exactly if the admission is, the obligation's own record is, every
   checker input is the same file, and every binding is the same, resolved alike, in an unchanged file.
   */
  lemma BehaviorDigestCommits(
      hash: Digest, m: Manifest, w: World, o: Obligation, m': Manifest, w': World, o': Obligation)
    requires Injective(hash) && Sound(m) && Sound(m') && o.role == Behavior
    requires o.workItem in ItemsById(m.items) && o'.workItem in ItemsById(m'.items)
    ensures SubjectDigest(hash, m, w, o) == SubjectDigest(hash, m', w', o') <==>
      w.admission == w'.admission && o == o' && SameGround(w, w', o)
  {
    FiledIsItem(m', o'.workItem);
    var subject' := if o'.role == Composition then Whole(SubtreeOf(m', w', ItemsById(m'.items)[o'.workItem]))
                    else One(ObligationPayloadOf(w', o'));
    HashDecides(hash, w.admission, One(ObligationPayloadOf(w, o)), w'.admission, subject');
    SamePayload(w, w', o, o');
  }

  // ---- a whole subtree ----

  /** Every obligation at or below the item stands on the same ground in both worlds. */
  ghost predicate SameBelow(m: Manifest, w: World, w': World, root: string)
    requires Ranked(ItemsById(m.items))
  {
    forall o :: o in m.obligations && o.workItem in ItemsById(m.items) && InSubtree(ItemsById(m.items), root, o.workItem) ==>
      SameGround(w, w', o)
  }

  lemma BelowChild(m: Manifest, item: WorkItem, child: WorkItem, id: string)
    requires Sound(m) && item in m.items && child in ChildrenOf(m.items, Some(item.id))
    requires id in ItemsById(m.items) && InSubtree(ItemsById(m.items), child.id, id)
    ensures InSubtree(ItemsById(m.items), item.id, id)
    decreases 4 - Rank(ItemsById(m.items)[id].kind)
  {
    ChildrenAre(m.items, Some(item.id));
    ItemIsFiled(m, child);
    if id == child.id {
      assert InSubtree(ItemsById(m.items), item.id, item.id);
    } else {
      BelowChild(m, item, child, ItemsById(m.items)[id].parent.value);
    }
  }

  lemma SameOwnPayloads(m: Manifest, w: World, w': World, id: string)
    requires Sound(m) && id in ItemsById(m.items) && SameBelow(m, w, w', id)
    ensures ObligationPayloads(w, OwnedBy(m.obligations, id)) == ObligationPayloads(w', OwnedBy(m.obligations, id))
  {
    var owned := OwnedBy(m.obligations, id);
    OwnedAre(m.obligations, id);
    forall i | 0 <= i < |owned| ensures ObligationPayloadOf(w, owned[i]) == ObligationPayloadOf(w', owned[i]) {
      assert owned[i] in owned;
      SamePayload(w, w', owned[i], owned[i]);
    }
  }

  /** A subtree's payload depends on the files and bindings of the obligations at or below its root only. */
  lemma {:induction false} SubtreeIsLocal(m: Manifest, w: World, w': World, item: WorkItem)
    requires Sound(m) && item in m.items && SameBelow(m, w, w', item.id)
    ensures SubtreeOf(m, w, item) == SubtreeOf(m, w', item)
    decreases Rank(item.kind)
  {
    var below := ChildrenOf(m.items, Some(item.id));
    ItemIsFiled(m, item);
    forall i | 0 <= i < |below| ensures below[i] in m.items && Rank(below[i].kind) < Rank(item.kind) {
      ChildIsLower(m, item, below[i]);
    }
    var s, t := SubtreesOf(m, w, below, Rank(item.kind)), SubtreesOf(m, w', below, Rank(item.kind));
    forall i | 0 <= i < |below| ensures s[i] == t[i] {
      SubtreesAt(m, w, below, Rank(item.kind), i);
      SubtreesAt(m, w', below, Rank(item.kind), i);
      ChildSameBelow(m, w, w', item, below[i]);
      SubtreeIsLocal(m, w, w', below[i]);
    }
    assert s == t;
    SameOwnPayloads(m, w, w', item.id);
  }

  lemma ChildSameBelow(m: Manifest, w: World, w': World, item: WorkItem, child: WorkItem)
    requires Sound(m) && item in m.items && child in ChildrenOf(m.items, Some(item.id)) && SameBelow(m, w, w', item.id)
    ensures SameBelow(m, w, w', child.id)
  {
    forall o | o in m.obligations && o.workItem in ItemsById(m.items)
        && InSubtree(ItemsById(m.items), child.id, o.workItem)
      ensures SameGround(w, w', o)
    {
      BelowChild(m, item, child, o.workItem);
    }
  }

  lemma SubtreeShowsBelow(m: Manifest, w: World, w': World, item: WorkItem)
    requires Sound(m) && OwnershipOk(m) && item in m.items && SubtreeOf(m, w, item) == SubtreeOf(m, w', item)
    ensures SameBelow(m, w, w', item.id)
  {
    forall o | o in m.obligations && o.workItem in ItemsById(m.items) && InSubtree(ItemsById(m.items), item.id, o.workItem)
      ensures SameGround(w, w', o)
    {
      var p := ObligationPayloadOf(w, o);
      assert HasPayload(w, p)(o);
      assert SomeBelow(m, HasPayload(w, p), item.id);
      SubtreeCovers(m, w, item, p);
      SubtreeCovers(m, w', item, p);
      assert SomeBelow(m, HasPayload(w', p), item.id);
      var o' :| o' in m.obligations && o'.workItem in ItemsById(m.items)
        && InSubtree(ItemsById(m.items), item.id, o'.workItem) && HasPayload(w', p)(o');
      SamePayload(w, w', o, o');
    }
  }

  /**
   In one plan a composition obligation's digest is unchanged exactly if the admission is and every obligation at or
   below its item stands on the same ground; what happens elsewhere leaves it alone.
   */
  lemma CompositionDigestCommits(hash: Digest, m: Manifest, w: World, w': World, o: Obligation)
    requires Injective(hash) && Sound(m) && OwnershipOk(m) && o.role == Composition && o.workItem in ItemsById(m.items)
    ensures SubjectDigest(hash, m, w, o) == SubjectDigest(hash, m, w', o) <==>
      w.admission == w'.admission && SameBelow(m, w, w', o.workItem)
  {
    FiledIsItem(m, o.workItem);
    var item := ItemsById(m.items)[o.workItem];
    HashDecides(hash, w.admission, Whole(SubtreeOf(m, w, item)), w'.admission, Whole(SubtreeOf(m, w', item)));
    if SubtreeOf(m, w, item) == SubtreeOf(m, w', item) {
      SubtreeShowsBelow(m, w, w', item);
    }
    if SameBelow(m, w, w', o.workItem) {
      SubtreeIsLocal(m, w, w', item);
    }
  }

  // ---- what counts after a change ----

  /** What the obligation's digest stands for is the same in both worlds. */
  ghost predicate Unchanged(m: Manifest, w: World, w': World, o: Obligation)
    requires Sound(m)
  {
    && w.admission == w'.admission
    && if o.role == Composition then SameBelow(m, w, w', o.workItem) else SameGround(w, w', o)
  }

  /** The record was made for this obligation in another world: another admission, other inputs or other bindings. */
  ghost predicate MadeBefore(hash: Digest, m: Manifest, w: World, o: Obligation, e: Record)
    requires Sound(m) && o.workItem in ItemsById(m.items)
  {
    exists earlier: World :: e.digest == SubjectDigest(hash, m, earlier, o) && !Unchanged(m, earlier, w, o)
  }

  lemma MadeBeforeIsStale(hash: Digest, m: Manifest, w: World, o: Obligation, e: Record)
    requires Injective(hash) && Sound(m) && OwnershipOk(m) && o.workItem in ItemsById(m.items)
    requires MadeBefore(hash, m, w, o, e)
    ensures !Fresh(w, SubjectDigest(hash, m, w, o), e)
  {
    var earlier: World :| e.digest == SubjectDigest(hash, m, earlier, o) && !Unchanged(m, earlier, w, o);
    if o.role == Composition {
      CompositionDigestCommits(hash, m, earlier, w, o);
    } else {
      BehaviorDigestCommits(hash, m, earlier, o, m, w, o);
    }
  }

  lemma NoneFreshNoneLatest(w: World, digest: string, log: seq<Record>, kinds: seq<EvidenceKind>)
    requires forall i :: 0 <= i < |log| ==> !Fresh(w, digest, log[i])
    ensures !SomeKindFailed(w, digest, log, kinds) && (kinds != [] ==> !EveryKindPassed(w, digest, log, kinds))
  {
    if kinds != [] {
      assert !LatestIs(w, digest, log, kinds[0], true);
    }
  }

  ghost predicate AllMadeBefore(hash: Digest, m: Manifest, w: World, o: Obligation, log: seq<Record>)
    requires Sound(m) && o.workItem in ItemsById(m.items)
  {
    forall i :: 0 <= i < |log| ==> MadeBefore(hash, m, w, o, log[i])
  }

  lemma AllStale(hash: Digest, m: Manifest, w: World, o: Obligation, log: seq<Record>)
    requires Injective(hash) && Sound(m) && OwnershipOk(m) && o.workItem in ItemsById(m.items)
    requires AllMadeBefore(hash, m, w, o, log)
    ensures var digest := SubjectDigest(hash, m, w, o);
      !SomeKindFailed(w, digest, log, o.required) && (o.required != [] ==> !EveryKindPassed(w, digest, log, o.required))
  {
    forall i | 0 <= i < |log| ensures !Fresh(w, SubjectDigest(hash, m, w, o), log[i]) {
      MadeBeforeIsStale(hash, m, w, o, log[i]);
    }
    NoneFreshNoneLatest(w, SubjectDigest(hash, m, w, o), log, o.required);
  }

  // ---- the answer ----

  /** The record carries the digest, and its artifact, if it names one, is the file it was made with. */
  predicate Holds(w: World, digest: string, e: Record)
  {
    e.digest == digest && (e.artifactPath == "" || (FileAt(w, e.artifactPath).Some? && FileAt(w, e.artifactPath) == e.artifactHash))
  }

  function FileAt(w: World, path: string): Option<string>
  {
    if path !in w.files then None else Some(w.files[path])
  }

  /** The newest record of the kind that holds. */
  ghost predicate Decides(w: World, digest: string, log: seq<Record>, kind: EvidenceKind, i: nat)
  {
    && i < |log| && log[i].kind == kind && Holds(w, digest, log[i])
    && forall k :: 0 <= k < i && log[k].kind == kind ==> !Holds(w, digest, log[k])
  }

  ghost predicate Ends(w: World, digest: string, log: seq<Record>, kind: EvidenceKind, outcomes: set<Outcome>)
  {
    exists i: nat :: Decides(w, digest, log, kind, i) && log[i].outcome in outcomes
  }

  /** The binding has a symbol, resolved by the active admission, in a file that is still as it was indexed. */
  predicate Stands(w: World, row: BindingRow)
  {
    && row.symbol != None && row.symbol != Some("")
    && row.admission == w.admission
    && FileAt(w, row.planned.file) != None && FileAt(w, row.planned.file) == row.sourceHash
  }

  /** The index is fresh, the inputs exist, and every binding stands; a behaviour has at least one. */
  ghost predicate StandsFirm(w: World, stale: nat, o: Obligation)
  {
    && stale == 0
    && (forall path :: path in o.inputs ==> FileAt(w, path) != None)
    && (o.role == Behavior ==> |w.bindings(o.id)| > 0)
    && forall row :: row in w.bindings(o.id) ==> Stands(w, row)
  }

  lemma StandsFirmExactly(w: World, stale: nat, o: Obligation)
    ensures StandsFirm(w, stale, o) <==> Grounded(w, stale, o)
  {
    var rows := w.bindings(o.id);
    if StandsFirm(w, stale, o) {
      forall i | 0 <= i < |o.inputs| ensures o.inputs[i] in w.files { assert FileAt(w, o.inputs[i]) != None; }
      forall i | 0 <= i < |rows| ensures Current(w, rows[i]) { assert Stands(w, rows[i]); }
    }
  }

  lemma EndsExactly(w: World, digest: string, log: seq<Record>, kind: EvidenceKind)
    ensures LatestIs(w, digest, log, kind, true) <==> Ends(w, digest, log, kind, {Passed})
    ensures LatestIs(w, digest, log, kind, false) <==> Ends(w, digest, log, kind, {Unsuccessful, Error})
  {
    forall i: nat ensures Latest(w, digest, log, kind, i) <==> Decides(w, digest, log, kind, i) {
    }
  }

  lemma StatusExactly(w: World, stale: nat, o: Obligation, digest: string, log: seq<Record>)
    ensures SomeKindFailed(w, digest, log, o.required) <==>
      exists kind :: kind in o.required && Ends(w, digest, log, kind, {Unsuccessful, Error})
    ensures Grounded(w, stale, o) && EveryKindPassed(w, digest, log, o.required) <==>
      StandsFirm(w, stale, o) && forall kind :: kind in o.required ==> Ends(w, digest, log, kind, {Passed})
  {
    StandsFirmExactly(w, stale, o);
    forall kind
      ensures LatestIs(w, digest, log, kind, true) <==> Ends(w, digest, log, kind, {Passed})
      ensures LatestIs(w, digest, log, kind, false) <==> Ends(w, digest, log, kind, {Unsuccessful, Error})
    {
      EndsExactly(w, digest, log, kind);
    }
  }

  /**
   `check_obligation` with the digest of its subject: failed exactly if the newest record that holds, of some required
   kind, did not pass; verified exactly if the ground stands firm and for every required kind it passed. Once a checker
   input, a bound file, a binding or the admission has changed, no record from before decides anything: an obligation
   that requires evidence is then incomplete.
   */
  method CheckSubject(hash: Digest, m: Manifest, w: World, stale: nat, o: Obligation, log: seq<Record>)
    returns (status: Status)
    requires Injective(hash) && Sound(m) && OwnershipOk(m) && o.workItem in ItemsById(m.items)
    ensures var digest := SubjectDigest(hash, m, w, o);
      && (status == Failed <==> exists kind :: kind in o.required && Ends(w, digest, log, kind, {Unsuccessful, Error}))
      && (status == Verified <==>
            StandsFirm(w, stale, o) && forall kind :: kind in o.required ==> Ends(w, digest, log, kind, {Passed}))
    ensures o.required != [] && AllMadeBefore(hash, m, w, o, log) ==> status == Incomplete
  {
    status := CheckObligation(w, stale, o, SubjectDigest(hash, m, w, o), log);
    StatusExactly(w, stale, o, SubjectDigest(hash, m, w, o), log);
    if AllMadeBefore(hash, m, w, o, log) {
      AllStale(hash, m, w, o, log);
    }
  }
}
