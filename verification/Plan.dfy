/**
 Plans: work items in a hierarchy of kinds, the obligations they own, and the symbols planned for them.
 */
module Plan {
  import opened Common

  datatype Kind = Theme | Epic | Story | Task

  datatype Role = Behavior | Composition

  datatype EvidenceKind = Test | Mutation | Contract | StaticAnalysis | FormalProof | CompositionEvidence

  datatype WorkItem = WorkItem(
    id: string, kind: Kind, title: string, description: string, parent: Option<string>, position: int)

  /** `inputs` are the checker inputs of all policies; `record` stands for the remaining text fields. */
  datatype Obligation = Obligation(
    id: string, workItem: string, role: Role, required: seq<EvidenceKind>, inputs: seq<string>, record: string)

  datatype PlannedBinding = PlannedBinding(
    obligation: string, file: string, name: string, symbol: string, record: string)

  /** A binding as the store keeps it, with what the last admission resolved. */
  datatype BindingRow = BindingRow(
    planned: PlannedBinding, symbol: Option<string>, sourceHash: Option<string>, admission: Option<string>)

  datatype Manifest = Manifest(items: seq<WorkItem>, obligations: seq<Obligation>, bindings: seq<PlannedBinding>)

  function Rank(kind: Kind): (r: nat)
    ensures 1 <= r <= 4
  {
    match kind case Theme => 4 case Epic => 3 case Story => 2 case Task => 1
  }

  type Items = map<string, WorkItem>

  /** `{item.id: item for item in items}`. */
  function ItemsById(items: seq<WorkItem>): Items
  {
    if items == [] then map[] else ItemsById(items[..|items| - 1])[items[|items| - 1].id := items[|items| - 1]]
  }

  predicate DistinctItems(items: seq<WorkItem>)
  {
    forall i, j :: 0 <= i < j < |items| ==> items[i].id != items[j].id
  }

  predicate DistinctObligations(obligations: seq<Obligation>)
  {
    forall i, j :: 0 <= i < j < |obligations| ==> obligations[i].id != obligations[j].id
  }

  /** The parent exists and is of a higher kind. */
  predicate ParentOk(items: Items, item: WorkItem)
  {
    item.parent.Some? ==>
      item.parent.value in items && Rank(items[item.parent.value].kind) > Rank(item.kind)
  }

  predicate HasRoot(items: seq<WorkItem>)
  {
    exists i :: 0 <= i < |items| && items[i].parent == None
  }

  predicate HasChild(items: seq<WorkItem>, id: string)
  {
    exists i :: 0 <= i < |items| && items[i].parent == Some(id)
  }

  predicate OwnsAny(obligations: seq<Obligation>, id: string)
  {
    exists i :: 0 <= i < |obligations| && obligations[i].workItem == id
  }

  predicate OwnsComposition(obligations: seq<Obligation>, id: string)
  {
    exists i :: 0 <= i < |obligations| && obligations[i].workItem == id && obligations[i].role == Composition
  }

  predicate OwnsEnough(m: Manifest, item: WorkItem)
  {
    OwnsAny(m.obligations, item.id) && (HasChild(m.items, item.id) ==> OwnsComposition(m.obligations, item.id))
  }

  predicate HasObligation(obligations: seq<Obligation>, id: string)
  {
    exists i :: 0 <= i < |obligations| && obligations[i].id == id
  }

  predicate IsBound(bindings: seq<PlannedBinding>, id: string)
  {
    exists i :: 0 <= i < |bindings| && bindings[i].obligation == id
  }

  function BindingKey(b: PlannedBinding): (string, string, string)
  {
    (b.obligation, b.file, b.name)
  }

  predicate DistinctBindings(bindings: seq<PlannedBinding>)
  {
    forall i, j :: 0 <= i < j < |bindings| ==> BindingKey(bindings[i]) != BindingKey(bindings[j])
  }

  // ---- the conditions, group by group ----

  predicate HierarchyOk(items: seq<WorkItem>)
  {
    && DistinctItems(items) && HasRoot(items)
    && forall i :: 0 <= i < |items| ==> ParentOk(ItemsById(items), items[i])
  }

  predicate OwnershipOk(m: Manifest)
  {
    && (forall i :: 0 <= i < |m.obligations| ==> m.obligations[i].workItem in ItemsById(m.items))
    && forall i :: 0 <= i < |m.items| ==> OwnsEnough(m, m.items[i])
  }

  predicate BindingsOk(m: Manifest)
  {
    && (forall i :: 0 <= i < |m.bindings| ==> HasObligation(m.obligations, m.bindings[i].obligation))
    && DistinctBindings(m.bindings)
    && forall i :: 0 <= i < |m.obligations| && m.obligations[i].role == Behavior ==> IsBound(m.bindings, m.obligations[i].id)
  }

  /** What every accepted plan satisfies, and every plan that satisfies it is accepted. */
  predicate ValidPlan(m: Manifest)
  {
    DistinctObligations(m.obligations) && HierarchyOk(m.items) && OwnershipOk(m) && BindingsOk(m)
  }

  // ---- the hierarchy ----

  /** Items filed under their own identifiers, each with a parent of higher kind or none. */
  ghost predicate Ranked(items: Items)
  {
    forall id :: id in items ==> items[id].id == id && ParentOk(items, items[id])
  }

  lemma {:induction false} ItemsByIdHas(items: seq<WorkItem>)
    ensures forall id :: id in ItemsById(items) ==> ItemsById(items)[id].id == id && ItemsById(items)[id] in items
    ensures forall i :: 0 <= i < |items| ==> items[i].id in ItemsById(items)
    ensures DistinctItems(items) ==> forall i :: 0 <= i < |items| ==> ItemsById(items)[items[i].id] == items[i]
  {
    if items != [] {
      var before := items[..|items| - 1];
      ItemsByIdHas(before);
      forall i | 0 <= i < |items| ensures items[i].id in ItemsById(items) &&
          (DistinctItems(items) ==> ItemsById(items)[items[i].id] == items[i]) {
        if i < |before| {
          assert before[i] == items[i];
        }
      }
    }
  }

  lemma HierarchyIsRanked(items: seq<WorkItem>)
    requires HierarchyOk(items)
    ensures Ranked(ItemsById(items))
  {
    ItemsByIdHas(items);
    forall id | id in ItemsById(items) ensures ParentOk(ItemsById(items), ItemsById(items)[id]) {
      var i :| 0 <= i < |items| && items[i] == ItemsById(items)[id];
    }
  }

  /** Parent steps from an item to its root. */
  function Depth(items: Items, id: string): nat
    requires Ranked(items) && id in items
    decreases 4 - Rank(items[id].kind)
  {
    match items[id].parent case None => 0 case Some(p) => 1 + Depth(items, p)
  }

  /** The item lies at or below the root given. */
  ghost predicate InSubtree(items: Items, root: string, id: string)
    requires Ranked(items) && id in items
    decreases 4 - Rank(items[id].kind)
  {
    id == root || (items[id].parent.Some? && InSubtree(items, root, items[id].parent.value))
  }

  function RootOf(items: Items, id: string): string
    requires Ranked(items) && id in items
    decreases 4 - Rank(items[id].kind)
  {
    match items[id].parent case None => id case Some(p) => RootOf(items, p)
  }

  /** Every item reaches a root in at most three parent steps. */
  lemma {:induction false} RootIsNear(items: Items, id: string)
    requires Ranked(items) && id in items
    ensures Depth(items, id) <= 4 - Rank(items[id].kind) <= 3
    ensures var root := RootOf(items, id); root in items && items[root].parent.None? && InSubtree(items, root, id)
    decreases 4 - Rank(items[id].kind)
  {
    match items[id].parent
    case None =>
    case Some(p) => RootIsNear(items, p);
  }

  // ---- validation ----

  datatype PlanFault =
    | RepeatedItem | RepeatedObligation | NoRoot | BadParent | Cycle | UnknownOwner
    | NoComposition | NoObligation | UnknownObligation | RepeatedBinding | Unbound

  method FindParentFault(items: seq<WorkItem>) returns (fault: bool)
    ensures fault <==> exists i :: 0 <= i < |items| && !ParentOk(ItemsById(items), items[i])
  {
    var byId := ItemsById(items);
    for i := 0 to |items|
      invariant forall k :: 0 <= k < i ==> ParentOk(byId, items[k])
    {
      var item := items[i];
      if item.parent.Some? {
        if item.parent.value !in byId || Rank(byId[item.parent.value].kind) <= Rank(item.kind) {
          assert !ParentOk(byId, items[i]);
          return true;
        }
      }
    }
    fault := false;
  }

  /** The walk to the root meets no item twice and takes at most three steps. */
  method WalkUp(items: Items, start: WorkItem) returns (cycle: bool, steps: nat)
    requires Ranked(items) && start.id in items && items[start.id] == start
    ensures !cycle && steps <= 3 && steps == Depth(items, start.id)
  {
    var seen: set<string> := {};
    var current := start;
    steps := 0;
    while current.parent.Some?
      invariant current.id in items && items[current.id] == current
      invariant forall id :: id in seen ==> id in items && Rank(items[id].kind) < Rank(current.kind)
      invariant steps + Depth(items, current.id) == Depth(items, start.id)
      decreases 4 - Rank(current.kind)
    {
      if current.id in seen {
        return true, steps;
      }
      seen := seen + {current.id};
      steps := steps + 1;
      current := items[current.parent.value];
    }
    RootIsNear(items, start.id);
    cycle := false;
  }

  method FindCycle(items: seq<WorkItem>) returns (cycle: bool)
    requires HierarchyOk(items)
    ensures !cycle
  {
    var byId := ItemsById(items);
    HierarchyIsRanked(items);
    ItemsByIdHas(items);
    for i := 0 to |items| {
      var looped, steps := WalkUp(byId, items[i]);
      if looped {
        return true;
      }
    }
    cycle := false;
  }

  method CheckHierarchy(items: seq<WorkItem>) returns (fault: Option<PlanFault>)
    requires DistinctItems(items)
    ensures fault.None? <==> HierarchyOk(items)
    ensures fault != Some(Cycle)
  {
    if !HasRoot(items) {
      return Some(NoRoot);
    }
    var badParent := FindParentFault(items);
    if badParent {
      return Some(BadParent);
    }
    var cycle := FindCycle(items);
    fault := if cycle then Some(Cycle) else None;
  }

  /** The work items that own obligations, and those that own composition obligations. */
  method GroupOwners(m: Manifest) returns (fault: bool, owners: set<string>, composers: set<string>)
    ensures fault <==> exists i :: 0 <= i < |m.obligations| && m.obligations[i].workItem !in ItemsById(m.items)
    ensures !fault ==> forall id :: id in owners <==> OwnsAny(m.obligations, id)
    ensures !fault ==> forall id :: id in composers <==> OwnsComposition(m.obligations, id)
  {
    var byId := ItemsById(m.items);
    owners, composers := {}, {};
    for i := 0 to |m.obligations|
      invariant forall k :: 0 <= k < i ==> m.obligations[k].workItem in byId
      invariant forall id :: id in owners <==> exists k :: 0 <= k < i && m.obligations[k].workItem == id
      invariant forall id :: id in composers <==>
        exists k :: 0 <= k < i && m.obligations[k].workItem == id && m.obligations[k].role == Composition
    {
      var o := m.obligations[i];
      if o.workItem !in byId {
        fault := true;
        return;
      }
      owners := owners + {o.workItem};
      if o.role == Composition {
        composers := composers + {o.workItem};
      }
    }
    fault := false;
  }

  method GroupChildren(items: seq<WorkItem>) returns (parents: set<string>)
    ensures forall id :: id in parents <==> HasChild(items, id)
  {
    parents := {};
    for i := 0 to |items|
      invariant forall id :: id in parents <==> exists k :: 0 <= k < i && items[k].parent == Some(id)
    {
      if items[i].parent.Some? {
        parents := parents + {items[i].parent.value};
      }
    }
  }

  method CheckOwnership(m: Manifest) returns (fault: Option<PlanFault>)
    ensures fault.None? <==> OwnershipOk(m)
    ensures fault != Some(Cycle)
  {
    var unknown, owners, composers := GroupOwners(m);
    if unknown {
      return Some(UnknownOwner);
    }
    var parents := GroupChildren(m.items);
    for i := 0 to |m.items|
      invariant forall k :: 0 <= k < i ==> OwnsEnough(m, m.items[k])
    {
      var id := m.items[i].id;
      if id in parents && id !in composers {
        assert !OwnsEnough(m, m.items[i]);
        return Some(NoComposition);
      }
      if id !in owners {
        assert !OwnsEnough(m, m.items[i]);
        return Some(NoObligation);
      }
    }
    fault := None;
  }

  method CheckBindings(m: Manifest) returns (fault: Option<PlanFault>)
    ensures fault.None? <==> BindingsOk(m)
    ensures fault != Some(Cycle)
  {
    var keys: set<(string, string, string)> := {};
    for i := 0 to |m.bindings|
      invariant forall k :: 0 <= k < i ==> HasObligation(m.obligations, m.bindings[k].obligation)
      invariant forall key :: key in keys <==> exists k :: 0 <= k < i && BindingKey(m.bindings[k]) == key
      invariant forall j, k :: 0 <= j < k < i ==> BindingKey(m.bindings[j]) != BindingKey(m.bindings[k])
    {
      if !HasObligation(m.obligations, m.bindings[i].obligation) {
        return Some(UnknownObligation);
      }
      if BindingKey(m.bindings[i]) in keys {
        return Some(RepeatedBinding);
      }
      keys := keys + {BindingKey(m.bindings[i])};
    }
    var unbound := FindUnbound(m);
    fault := if unbound then Some(Unbound) else None;
  }

  method FindUnbound(m: Manifest) returns (unbound: bool)
    ensures unbound <==>
      exists i :: 0 <= i < |m.obligations| && m.obligations[i].role == Behavior && !IsBound(m.bindings, m.obligations[i].id)
  {
    for i := 0 to |m.obligations|
      invariant forall k :: 0 <= k < i && m.obligations[k].role == Behavior ==> IsBound(m.bindings, m.obligations[k].id)
    {
      if m.obligations[i].role == Behavior && !IsBound(m.bindings, m.obligations[i].id) {
        return true;
      }
    }
    unbound := false;
  }

  /** `validate_manifest`: accepts exactly the valid plans; the test for cycles never fires. */
  method ValidateManifest(m: Manifest) returns (fault: Option<PlanFault>)
    ensures fault.None? <==> ValidPlan(m)
    ensures fault != Some(Cycle)
  {
    if !DistinctItems(m.items) {
      return Some(RepeatedItem);
    }
    if !DistinctObligations(m.obligations) {
      return Some(RepeatedObligation);
    }
    fault := CheckHierarchy(m.items);
    if fault.Some? {
      return;
    }
    fault := CheckOwnership(m);
    if fault.Some? {
      return;
    }
    fault := CheckBindings(m);
  }
}
