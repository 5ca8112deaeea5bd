/** The rules of a plan, said of its items, obligations and bindings. */
module PlanRules {
  import opened Common
  import opened Plan

  /** A theme may contain anything lower, an epic stories and tasks, a story tasks; a task contains nothing. */
  predicate MayContain(parent: Kind, child: Kind)
  {
    match parent
    case Theme => child in {Epic, Story, Task}
    case Epic => child in {Story, Task}
    case Story => child == Task
    case Task => false
  }

  ghost predicate Placed(m: Manifest, item: WorkItem)
  {
    item.parent.Some? ==> exists above :: above in m.items && above.id == item.parent.value && MayContain(above.kind, item.kind)
  }

  ghost predicate HierarchyFollows(m: Manifest)
  {
    && (forall i, j :: 0 <= i < |m.items| && 0 <= j < |m.items| && m.items[i].id == m.items[j].id ==> i == j)
    && (exists item :: item in m.items && item.parent == None)
    && forall item :: item in m.items ==> Placed(m, item)
  }

  /** Every item owns an obligation, and one that composes if another item lies in it. */
  ghost predicate Owning(m: Manifest, item: WorkItem)
  {
    && (exists o :: o in m.obligations && o.workItem == item.id)
    && ((exists child :: child in m.items && child.parent == Some(item.id)) ==>
          exists o :: o in m.obligations && o.workItem == item.id && o.role == Composition)
  }

  ghost predicate OwnershipFollows(m: Manifest)
  {
    && (forall i, j :: 0 <= i < |m.obligations| && 0 <= j < |m.obligations| && m.obligations[i].id == m.obligations[j].id ==> i == j)
    && (forall o :: o in m.obligations ==> exists item :: item in m.items && item.id == o.workItem)
    && forall item :: item in m.items ==> Owning(m, item)
  }

  predicate SamePlace(a: PlannedBinding, b: PlannedBinding)
  {
    a.obligation == b.obligation && a.file == b.file && a.name == b.name
  }

  /** Bindings are of known obligations, no two name one symbol for one obligation, and every behavior has one. */
  ghost predicate BindingsFollow(m: Manifest)
  {
    && (forall b :: b in m.bindings ==> exists o :: o in m.obligations && o.id == b.obligation)
    && (forall i, j :: 0 <= i < |m.bindings| && 0 <= j < |m.bindings| && SamePlace(m.bindings[i], m.bindings[j]) ==> i == j)
    && forall o :: o in m.obligations && o.role == Behavior ==> exists b :: b in m.bindings && b.obligation == o.id
  }

  // ---- the rules are what validation checks ----

  lemma FiledOnce(items: seq<WorkItem>, id: string)
    ensures id in ItemsById(items) <==> exists item :: item in items && item.id == id
  {
    ItemsByIdHas(items);
    if item :| item in items && item.id == id {
      var i :| 0 <= i < |items| && items[i] == item;
    }
  }

  lemma PlacedIs(m: Manifest, item: WorkItem)
    requires DistinctItems(m.items)
    ensures ParentOk(ItemsById(m.items), item) <==> Placed(m, item)
  {
    ItemsByIdHas(m.items);
    if item.parent.Some? {
      FiledOnce(m.items, item.parent.value);
      if above :| above in m.items && above.id == item.parent.value {
        var i :| 0 <= i < |m.items| && m.items[i] == above;
        assert ItemsById(m.items)[item.parent.value] == above;
      }
    }
  }

  lemma HierarchyIs(m: Manifest)
    ensures HierarchyOk(m.items) <==> HierarchyFollows(m)
  {
    if DistinctItems(m.items) {
      forall item ensures ParentOk(ItemsById(m.items), item) <==> Placed(m, item) {
        PlacedIs(m, item);
      }
    }
  }

  lemma OwningIs(m: Manifest, item: WorkItem)
    ensures OwnsEnough(m, item) <==> Owning(m, item)
  {
  }

  lemma OwnershipIs(m: Manifest)
    ensures DistinctObligations(m.obligations) && OwnershipOk(m) <==> OwnershipFollows(m)
  {
    forall id ensures id in ItemsById(m.items) <==> exists item :: item in m.items && item.id == id {
      FiledOnce(m.items, id);
    }
    forall item ensures OwnsEnough(m, item) <==> Owning(m, item) {
      OwningIs(m, item);
    }
  }

  lemma BindingsAre(m: Manifest)
    ensures BindingsOk(m) <==> BindingsFollow(m)
  {
    forall id ensures HasObligation(m.obligations, id) <==> exists o :: o in m.obligations && o.id == id {
    }
    forall id ensures IsBound(m.bindings, id) <==> exists b :: b in m.bindings && b.obligation == id {
    }
  }

  /** A plan is valid exactly if its hierarchy, its ownership and its bindings follow the rules. */
  lemma ValidPlanExactly(m: Manifest)
    ensures ValidPlan(m) <==> HierarchyFollows(m) && OwnershipFollows(m) && BindingsFollow(m)
  {
    HierarchyIs(m);
    OwnershipIs(m);
    BindingsAre(m);
  }
}
