/**
 Hierarchical evaluation of a plan: obligations, work items, and the project.
 Items are listed by position and identifier and obligations by identifier, as the store returns them.
 */
module Evaluation {
  import opened Common
  import opened Plan

  datatype Status = Verified | Failed | Incomplete

  datatype CheckResult = CheckResult(id: string, status: Status, children: seq<CheckResult>)

  /** The status `check_obligation` gives each obligation. */
  type Verdict = string -> Status

  function ChildrenOf(items: seq<WorkItem>, parent: Option<string>): seq<WorkItem>
  {
    if items == [] then []
    else
      ChildrenOf(items[..|items| - 1], parent) +
        if items[|items| - 1].parent == parent then [items[|items| - 1]] else []
  }

  function OwnedBy(obligations: seq<Obligation>, id: string): seq<Obligation>
  {
    if obligations == [] then []
    else
      OwnedBy(obligations[..|obligations| - 1], id) +
        if obligations[|obligations| - 1].workItem == id then [obligations[|obligations| - 1]] else []
  }

  /** A failure outweighs everything; anything incomplete, or any further reason, outweighs success. */
  function Combine(results: seq<CheckResult>, reasons: bool): Status
  {
    if exists i :: 0 <= i < |results| && results[i].status == Failed then Failed
    else if reasons || exists i :: 0 <= i < |results| && results[i].status == Incomplete then Incomplete
    else Verified
  }

  function CheckObligations(v: Verdict, obligations: seq<Obligation>): seq<CheckResult>
  {
    seq(|obligations|, i requires 0 <= i < |obligations| => CheckResult(obligations[i].id, v(obligations[i].id), []))
  }

  lemma {:induction false} ChildrenAre(items: seq<WorkItem>, parent: Option<string>)
    ensures forall c :: c in ChildrenOf(items, parent) <==> c in items && c.parent == parent
  {
    if items != [] {
      ChildrenAre(items[..|items| - 1], parent);
      assert items == items[..|items| - 1] + [items[|items| - 1]];
    }
  }

  lemma {:induction false} OwnedAre(obligations: seq<Obligation>, id: string)
    ensures forall o :: o in OwnedBy(obligations, id) <==> o in obligations && o.workItem == id
  {
    if obligations != [] {
      OwnedAre(obligations[..|obligations| - 1], id);
      assert obligations == obligations[..|obligations| - 1] + [obligations[|obligations| - 1]];
    }
  }

  /** The items of a plan, with parents of higher kinds. */
  ghost predicate Sound(m: Manifest)
  {
    DistinctItems(m.items) && Ranked(ItemsById(m.items))
  }

  lemma ValidIsSound(m: Manifest)
    requires ValidPlan(m)
    ensures Sound(m)
  {
    HierarchyIsRanked(m.items);
  }

  lemma ChildIsLower(m: Manifest, item: WorkItem, child: WorkItem)
    requires Sound(m) && item in m.items && child in ChildrenOf(m.items, Some(item.id))
    ensures child in m.items && Rank(child.kind) < Rank(item.kind)
  {
    ChildrenAre(m.items, Some(item.id));
    ItemsByIdHas(m.items);
    assert ItemsById(m.items)[child.id] == child && ItemsById(m.items)[item.id] == item;
  }

  /** `check_item`. */
  function CheckItem(m: Manifest, v: Verdict, item: WorkItem): CheckResult
    requires Sound(m) && item in m.items
    decreases Rank(item.kind), 1, 0
  {
    var direct := CheckObligations(v, OwnedBy(m.obligations, item.id));
    var below := ChildrenOf(m.items, Some(item.id));
    ChildrenAre(m.items, Some(item.id));
    assert forall c :: c in below ==> c in m.items && Rank(c.kind) < Rank(item.kind) by {
      forall c | c in below ensures Rank(c.kind) < Rank(item.kind) {
        ChildIsLower(m, item, c);
      }
    }
    var children := CheckItems(m, v, below, Rank(item.kind));
    CheckResult(item.id,
      Combine(direct + children, direct == [] || (children != [] && !OwnsComposition(m.obligations, item.id))),
      direct + children)
  }

  function CheckItems(m: Manifest, v: Verdict, items: seq<WorkItem>, below: nat): (r: seq<CheckResult>)
    requires Sound(m) && forall c :: c in items ==> c in m.items && Rank(c.kind) < below
    ensures |r| == |items|
    decreases below, 0, |items|
  {
    if items == [] then []
    else CheckItems(m, v, items[..|items| - 1], below) + [CheckItem(m, v, items[|items| - 1])]
  }

  /** `check_project`. */
  function CheckProject(m: Manifest, v: Verdict): Status
    requires Sound(m)
  {
    var roots := ChildrenOf(m.items, None);
    ChildrenAre(m.items, None);
    if roots == [] then Incomplete else Combine(CheckItems(m, v, roots, 5), false)
  }

  // ---- what the statuses mean ----

  function Has(v: Verdict, s: Status): Obligation -> bool
  {
    (o: Obligation) => v(o.id) == s
  }

  /** Some obligation at or below the item satisfies the predicate. */
  ghost predicate SomeBelow(m: Manifest, p: Obligation -> bool, root: string)
    requires Ranked(ItemsById(m.items))
  {
    exists o :: o in m.obligations && o.workItem in ItemsById(m.items)
      && InSubtree(ItemsById(m.items), root, o.workItem) && p(o)
  }

  /** The status reported is the worst status of the obligations at or below the item. */
  ghost predicate Sums(m: Manifest, v: Verdict, root: string, status: Status)
    requires Ranked(ItemsById(m.items))
  {
    && (status == Failed <==> SomeBelow(m, Has(v, Failed), root))
    && (status == Verified <==> !SomeBelow(m, Has(v, Failed), root) && !SomeBelow(m, Has(v, Incomplete), root))
  }

  /** A subtree is its root and the subtrees of the root's children. */
  lemma {:induction false} SubtreeUnfolds(items: Items, root: string, id: string)
    requires Ranked(items) && id in items && root in items && id != root
    ensures InSubtree(items, root, id) <==>
      exists c :: c in items && items[c].parent == Some(root) && InSubtree(items, c, id)
    decreases 4 - Rank(items[id].kind)
  {
    match items[id].parent
    case None =>
      assert forall c :: InSubtree(items, c, id) <==> c == id;
    case Some(p) =>
      if p == root {
        assert InSubtree(items, id, id);
      } else {
        SubtreeUnfolds(items, root, p);
        forall c | c in items && items[c].parent == Some(root) ensures InSubtree(items, c, id) <==> c == id || InSubtree(items, c, p) {
        }
      }
  }

  lemma {:induction false} CheckItemsAt(m: Manifest, v: Verdict, items: seq<WorkItem>, below: nat, i: nat)
    requires Sound(m) && (forall c :: c in items ==> c in m.items && Rank(c.kind) < below) && i < |items|
    ensures items[i] in m.items && CheckItems(m, v, items, below)[i] == CheckItem(m, v, items[i])
    decreases |items|
  {
    if i < |items| - 1 {
      CheckItemsAt(m, v, items[..|items| - 1], below, i);
    }
  }

  ghost predicate OwnsWith(m: Manifest, p: Obligation -> bool, id: string)
  {
    exists o :: o in m.obligations && o.workItem == id && p(o)
  }

  ghost predicate SomeChild(m: Manifest, p: Obligation -> bool, parent: Option<string>)
    requires Ranked(ItemsById(m.items))
  {
    exists c :: c in ChildrenOf(m.items, parent) && SomeBelow(m, p, c.id)
  }

  lemma ItemIsFiled(m: Manifest, item: WorkItem)
    requires Sound(m) && item in m.items
    ensures item.id in ItemsById(m.items) && ItemsById(m.items)[item.id] == item
  {
    ItemsByIdHas(m.items);
  }

  lemma FiledIsItem(m: Manifest, id: string)
    requires Sound(m) && id in ItemsById(m.items)
    ensures ItemsById(m.items)[id] in m.items && ItemsById(m.items)[id].id == id
  {
    ItemsByIdHas(m.items);
  }

  /** What is at or below an item is its own or at or below a child. */
  lemma BelowSplits(m: Manifest, p: Obligation -> bool, item: WorkItem)
    requires Sound(m) && OwnershipOk(m) && item in m.items
    ensures SomeBelow(m, p, item.id) <==> OwnsWith(m, p, item.id) || SomeChild(m, p, Some(item.id))
  {
    var items := ItemsById(m.items);
    ItemIsFiled(m, item);
    ChildrenAre(m.items, Some(item.id));
    if SomeBelow(m, p, item.id) {
      var o :| o in m.obligations && o.workItem in items && InSubtree(items, item.id, o.workItem) && p(o);
      if o.workItem != item.id {
        SubtreeUnfolds(items, item.id, o.workItem);
        var c :| c in items && items[c].parent == Some(item.id) && InSubtree(items, c, o.workItem);
        FiledIsItem(m, c);
        assert SomeBelow(m, p, c);
        assert items[c] in ChildrenOf(m.items, Some(item.id));
      }
    }
    if OwnsWith(m, p, item.id) {
      var o :| o in m.obligations && o.workItem == item.id && p(o);
      assert InSubtree(items, item.id, o.workItem);
    }
    if SomeChild(m, p, Some(item.id)) {
      var c :| c in ChildrenOf(m.items, Some(item.id)) && SomeBelow(m, p, c.id);
      BelowChild(m, p, item, c);
    }
  }

  lemma BelowChild(m: Manifest, p: Obligation -> bool, item: WorkItem, c: WorkItem)
    requires Sound(m) && item in m.items && c in m.items && c.parent == Some(item.id) && SomeBelow(m, p, c.id)
    ensures SomeBelow(m, p, item.id)
  {
    var items := ItemsById(m.items);
    ItemIsFiled(m, item);
    ItemIsFiled(m, c);
    var o :| o in m.obligations && o.workItem in items && InSubtree(items, c.id, o.workItem) && p(o);
    if o.workItem != item.id {
      SubtreeUnfolds(items, item.id, o.workItem);
      assert items[c.id].parent == Some(item.id);
    }
    assert InSubtree(items, item.id, o.workItem);
  }

  /** The results of a list of items show a status exactly if one of the items has it. */
  ghost predicate Shows(results: seq<CheckResult>, s: Status)
  {
    exists i :: 0 <= i < |results| && results[i].status == s
  }

  lemma DirectShows(m: Manifest, v: Verdict, id: string, s: Status)
    ensures Shows(CheckObligations(v, OwnedBy(m.obligations, id)), s) <==> OwnsWith(m, Has(v, s), id)
  {
    var owned := OwnedBy(m.obligations, id);
    var results := CheckObligations(v, owned);
    OwnedAre(m.obligations, id);
    if Shows(results, s) {
      var i :| 0 <= i < |results| && results[i].status == s;
      assert owned[i] in owned;
    }
    if o :| o in m.obligations && o.workItem == id && v(o.id) == s {
      var i :| 0 <= i < |owned| && owned[i] == o;
      assert results[i].status == s;
    }
  }

  lemma ShowsEither(a: seq<CheckResult>, b: seq<CheckResult>, s: Status)
    ensures Shows(a + b, s) <==> Shows(a, s) || Shows(b, s)
  {
    if i :| 0 <= i < |a| && a[i].status == s {
      assert (a + b)[i].status == s;
    }
    if i :| 0 <= i < |b| && b[i].status == s {
      assert (a + b)[|a| + i].status == s;
    }
  }

  /** Each listed item reports the sum of what lies below it. */
  ghost predicate AllSum(m: Manifest, v: Verdict, items: seq<WorkItem>, results: seq<CheckResult>)
    requires Ranked(ItemsById(m.items)) && |results| == |items|
  {
    forall i :: 0 <= i < |items| ==> Sums(m, v, items[i].id, results[i].status)
  }

  lemma ChildrenShowFailed(m: Manifest, v: Verdict, parent: Option<string>, results: seq<CheckResult>)
    requires Sound(m) && |results| == |ChildrenOf(m.items, parent)|
    requires AllSum(m, v, ChildrenOf(m.items, parent), results)
    ensures Shows(results, Failed) <==> SomeChild(m, Has(v, Failed), parent)
  {
    var items := ChildrenOf(m.items, parent);
    if i :| 0 <= i < |results| && results[i].status == Failed {
      assert Sums(m, v, items[i].id, results[i].status) && items[i] in items;
    }
    if c :| c in items && SomeBelow(m, Has(v, Failed), c.id) {
      var i :| 0 <= i < |items| && items[i] == c;
      assert Sums(m, v, items[i].id, results[i].status);
    }
  }

  lemma ChildrenShow(m: Manifest, v: Verdict, parent: Option<string>, results: seq<CheckResult>)
    requires Sound(m) && |results| == |ChildrenOf(m.items, parent)|
    requires AllSum(m, v, ChildrenOf(m.items, parent), results)
    ensures Shows(results, Failed) <==> SomeChild(m, Has(v, Failed), parent)
    ensures Shows(results, Incomplete) ==> SomeChild(m, Has(v, Incomplete), parent)
    ensures SomeChild(m, Has(v, Incomplete), parent) ==> Shows(results, Failed) || Shows(results, Incomplete)
  {
    ChildrenShowFailed(m, v, parent, results);
    var items := ChildrenOf(m.items, parent);
    if i :| 0 <= i < |results| && results[i].status == Incomplete {
      assert Sums(m, v, items[i].id, results[i].status) && items[i] in items;
    }
    if c :| c in items && SomeBelow(m, Has(v, Incomplete), c.id) {
      var i :| 0 <= i < |items| && items[i] == c;
      assert Sums(m, v, items[i].id, results[i].status);
    }
  }

  /** In a valid plan an item has an obligation of its own, and a composition obligation if it has children. */
  lemma NoFurtherReasons(m: Manifest, item: WorkItem)
    requires ValidPlan(m) && item in m.items
    ensures OwnedBy(m.obligations, item.id) != []
    ensures ChildrenOf(m.items, Some(item.id)) != [] ==> OwnsComposition(m.obligations, item.id)
  {
    var i :| 0 <= i < |m.items| && m.items[i] == item;
    assert OwnsEnough(m, m.items[i]);
    OwnedAre(m.obligations, item.id);
    ChildrenAre(m.items, Some(item.id));
    var k :| 0 <= k < |m.obligations| && m.obligations[k].workItem == item.id;
    assert m.obligations[k] in OwnedBy(m.obligations, item.id);
    if ChildrenOf(m.items, Some(item.id)) != [] {
      var c := ChildrenOf(m.items, Some(item.id))[0];
      assert c in ChildrenOf(m.items, Some(item.id));
      var j :| 0 <= j < |m.items| && m.items[j] == c;
    }
  }

  lemma CombineShows(direct: seq<CheckResult>, children: seq<CheckResult>)
    ensures var status := Combine(direct + children, false);
      && (status == Failed <==> Shows(direct, Failed) || Shows(children, Failed))
      && (status == Verified <==>
            && !Shows(direct, Failed) && !Shows(children, Failed)
            && !Shows(direct, Incomplete) && !Shows(children, Incomplete))
  {
    ShowsEither(direct, children, Failed);
    ShowsEither(direct, children, Incomplete);
  }

  /** In a valid plan an item is failed or verified exactly as the obligations at or below it are. */
  lemma {:induction false} ItemSums(m: Manifest, v: Verdict, item: WorkItem)
    requires ValidPlan(m) && item in m.items
    ensures Sound(m) && Sums(m, v, item.id, CheckItem(m, v, item).status)
    decreases Rank(item.kind)
  {
    ValidIsSound(m);
    var below := ChildrenOf(m.items, Some(item.id));
    forall i | 0 <= i < |below| ensures below[i] in m.items && Rank(below[i].kind) < Rank(item.kind) {
      ChildIsLower(m, item, below[i]);
    }
    var children := CheckItems(m, v, below, Rank(item.kind));
    forall i | 0 <= i < |below| ensures Sums(m, v, below[i].id, children[i].status) {
      CheckItemsAt(m, v, below, Rank(item.kind), i);
      ItemSums(m, v, below[i]);
    }
    ItemCombines(m, v, item, children);
  }

  lemma ItemCombines(m: Manifest, v: Verdict, item: WorkItem, children: seq<CheckResult>)
    requires ValidPlan(m) && Sound(m) && item in m.items
    requires |children| == |ChildrenOf(m.items, Some(item.id))|
    requires AllSum(m, v, ChildrenOf(m.items, Some(item.id)), children)
    ensures var direct := CheckObligations(v, OwnedBy(m.obligations, item.id));
      Sums(m, v, item.id, Combine(direct + children, false)) &&
      !(direct == [] || (children != [] && !OwnsComposition(m.obligations, item.id)))
  {
    NoFurtherReasons(m, item);
    ChildrenShow(m, v, Some(item.id), children);
    BelowSplits(m, Has(v, Failed), item);
    BelowSplits(m, Has(v, Incomplete), item);
    DirectShows(m, v, item.id, Failed);
    DirectShows(m, v, item.id, Incomplete);
    CombineShows(CheckObligations(v, OwnedBy(m.obligations, item.id)), children);
  }

  ghost predicate SomeObligation(m: Manifest, p: Obligation -> bool)
  {
    exists o :: o in m.obligations && p(o)
  }

  /** Every obligation of a valid plan lies below some root. */
  lemma RootsCover(m: Manifest, p: Obligation -> bool)
    requires ValidPlan(m) && Sound(m)
    ensures SomeObligation(m, p) <==> SomeChild(m, p, None)
    ensures ChildrenOf(m.items, None) != []
  {
    var items := ItemsById(m.items);
    ChildrenAre(m.items, None);
    var k :| 0 <= k < |m.items| && m.items[k].parent == None;
    assert m.items[k] in ChildrenOf(m.items, None);
    if o :| o in m.obligations && p(o) {
      var i :| 0 <= i < |m.obligations| && m.obligations[i] == o;
      RootIsNear(items, o.workItem);
      var root := RootOf(items, o.workItem);
      FiledIsItem(m, root);
      assert SomeBelow(m, p, root) && items[root] in ChildrenOf(m.items, None);
    }
  }

  /**
   The project is verified exactly if every obligation of the plan is, and failed exactly if some
   obligation is.
   */
  lemma ProjectIsItsObligations(m: Manifest, v: Verdict)
    requires ValidPlan(m)
    ensures Sound(m)
    ensures CheckProject(m, v) == Verified <==> forall o :: o in m.obligations ==> v(o.id) == Verified
    ensures CheckProject(m, v) == Failed <==> exists o :: o in m.obligations && v(o.id) == Failed
  {
    ValidIsSound(m);
    var roots := ChildrenOf(m.items, None);
    ChildrenAre(m.items, None);
    var results := CheckItems(m, v, roots, 5);
    forall i | 0 <= i < |roots| ensures Sums(m, v, roots[i].id, results[i].status) {
      CheckItemsAt(m, v, roots, 5, i);
      ItemSums(m, v, roots[i]);
    }
    ChildrenShow(m, v, None, results);
    CombineShows([], results);
    assert [] + results == results;
    RootsCover(m, Has(v, Failed));
    RootsCover(m, Has(v, Incomplete));
    OnlyVerified(m, v);
  }

  lemma OnlyVerified(m: Manifest, v: Verdict)
    ensures (forall o :: o in m.obligations ==> v(o.id) == Verified) <==>
      !SomeObligation(m, Has(v, Failed)) && !SomeObligation(m, Has(v, Incomplete))
  {
    forall o | o in m.obligations ensures v(o.id) == Verified || SomeObligation(m, Has(v, Failed)) || SomeObligation(m, Has(v, Incomplete)) {
    }
  }
}
