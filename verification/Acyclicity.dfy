/**
 Depth-first search for directed cycles in a finite edge map whose targets are all nodes.
 */
module Acyclicity {
  import opened Common

  type Edges = map<string, set<string>>

  /** Every target is itself a node. */
  predicate Closed(edges: Edges)
  {
    forall n :: n in edges ==> edges[n] <= edges.Keys
  }

  /** Consecutive nodes are joined by edges. */
  ghost predicate IsPath(edges: Edges, p: seq<string>)
  {
    && |p| > 0
    && (forall i :: 0 <= i < |p| ==> p[i] in edges)
    && forall i, j :: 0 <= i && j == i + 1 && j < |p| ==> p[j] in edges[p[i]]
  }

  ghost predicate IsCycle(edges: Edges, p: seq<string>)
  {
    IsPath(edges, p) && |p| > 1 && p[0] == p[|p| - 1]
  }

  ghost predicate OnCycle(edges: Edges, node: string)
  {
    exists p :: IsCycle(edges, p) && p[0] == node
  }

  ghost predicate Acyclic(edges: Edges)
  {
    forall p :: !IsCycle(edges, p)
  }

  /** Levels on a set of nodes that contains all their targets and drops along every edge. */
  ghost predicate Leveled(edges: Edges, nodes: set<string>, level: map<string, nat>)
  {
    && nodes <= edges.Keys && level.Keys == nodes
    && (forall n :: n in nodes ==> level[n] < |nodes|)
    && forall n, t :: n in nodes && t in edges[n] ==> t in nodes && level[t] < level[n]
  }

  lemma {:induction false} LevelsDrop(edges: Edges, level: map<string, nat>, p: seq<string>)
    requires Leveled(edges, edges.Keys, level) && IsPath(edges, p)
    ensures |p| > 1 ==> level[p[|p| - 1]] < level[p[0]]
  {
    if |p| > 2 {
      LevelsDrop(edges, level, p[..|p| - 1]);
    }
  }

  lemma LeveledIsAcyclic(edges: Edges, level: map<string, nat>)
    requires Leveled(edges, edges.Keys, level)
    ensures Acyclic(edges)
  {
    forall p ensures !IsCycle(edges, p) {
      if IsPath(edges, p) {
        LevelsDrop(edges, level, p);
      }
    }
  }

  lemma LevelAdded(edges: Edges, nodes: set<string>, level: map<string, nat>, node: string)
    requires Leveled(edges, nodes, level) && node in edges && node !in nodes && edges[node] <= nodes
    ensures Leveled(edges, nodes + {node}, level[node := |nodes|])
  {
    assert |nodes + {node}| == |nodes| + 1;
  }

  /** The nodes on the stack, deepest last. */
  ghost predicate OnStack(edges: Edges, stack: seq<string>, visiting: set<string>)
  {
    && (stack == [] || IsPath(edges, stack))
    && (forall n :: n in visiting <==> n in stack)
  }

  ghost predicate Follows(edges: Edges, stack: seq<string>, node: string)
  {
    node in edges && (stack == [] || (IsPath(edges, stack) && node in edges[stack[|stack| - 1]]))
  }

  lemma StackPushed(edges: Edges, stack: seq<string>, visiting: set<string>, node: string)
    requires OnStack(edges, stack, visiting) && Follows(edges, stack, node)
    ensures OnStack(edges, stack + [node], visiting + {node})
  {
  }

  /** Meeting a node of the stack again closes a cycle. */
  lemma StackCloses(edges: Edges, stack: seq<string>, visiting: set<string>, node: string)
    requires OnStack(edges, stack, visiting) && Follows(edges, stack, node) && node in visiting
    ensures OnCycle(edges, node)
  {
    var k :| 0 <= k < |stack| && stack[k] == node;
    assert IsCycle(edges, stack[k..] + [node]);
  }

  /** The search: nodes being visited and nodes done, over one edge map. */
  class Search {
    const edges: Edges
    var visiting: set<string>
    var visited: set<string>
    ghost var level: map<string, nat>

    ghost predicate Valid()
      reads this
    {
      && Closed(edges)
      && visiting !! visited
      && Leveled(edges, visited, level)
    }

    constructor (edges: Edges)
      requires Closed(edges)
      ensures Valid() && this.edges == edges && visiting == {} && visited == {}
    {
      this.edges := edges;
      visiting, visited, level := {}, {}, map[];
    }

    /** Visit a node reached along the stack; the result is a node found on a cycle, if any. */
    method Visit(node: string, ghost stack: seq<string>) returns (cycle: Option<string>)
      requires Valid() && OnStack(edges, stack, visiting) && Follows(edges, stack, node)
      modifies this
      ensures cycle.Some? ==> OnCycle(edges, cycle.value)
      ensures cycle.None? ==>
        Valid() && visiting == old(visiting) && old(visited) <= visited && node in visited
      decreases edges.Keys - visiting, 1
    {
      if node in visiting {
        StackCloses(edges, stack, visiting, node);
        return Some(node);
      }
      if node in visited {
        return None;
      }
      visiting := visiting + {node};
      StackPushed(edges, stack, old(visiting), node);
      cycle := VisitTargets(node, stack + [node]);
      if cycle.Some? {
        return;
      }
      visiting := visiting - {node};
      LevelAdded(edges, visited, level, node);
      level := level[node := |visited|];
      visited := visited + {node};
    }

    /** Visit the given nodes one after the other. */
    method VisitAll(order: seq<string>) returns (cycle: Option<string>)
      requires Valid() && visiting == {} && forall n :: n in order ==> n in edges
      modifies this
      ensures cycle.Some? ==> OnCycle(edges, cycle.value)
      ensures cycle.None? ==> Valid() && forall n :: n in order ==> n in visited
    {
      for i := 0 to |order|
        invariant Valid() && visiting == {}
        invariant forall k :: 0 <= k < i ==> order[k] in visited
      {
        cycle := Visit(order[i], []);
        if cycle.Some? {
          return;
        }
      }
      cycle := None;
    }

    /** Visit every target of the node on top of the stack, in any order. */
    method VisitTargets(node: string, ghost stack: seq<string>) returns (cycle: Option<string>)
      requires Valid() && OnStack(edges, stack, visiting) && node in visiting
      requires stack != [] && stack[|stack| - 1] == node && node in edges
      modifies this
      ensures cycle.Some? ==> OnCycle(edges, cycle.value)
      ensures cycle.None? ==>
        Valid() && visiting == old(visiting) && old(visited) <= visited && edges[node] <= visited
      decreases edges.Keys - visiting, 2
    {
      var pending := edges[node];
      while pending != {}
        invariant Valid() && visiting == old(visiting) && old(visited) <= visited
        invariant pending <= edges[node] && edges[node] - pending <= visited
        decreases pending
      {
        var target :| target in pending;
        cycle := Visit(target, stack);
        if cycle.Some? {
          return;
        }
        pending := pending - {target};
      }
      cycle := None;
    }
  }

  /** `_require_acyclic`, with the nodes in the order of the search. */
  method RequireAcyclic(edges: Edges, order: seq<string>) returns (cycle: Option<string>)
    requires Closed(edges) && forall n :: n in edges <==> n in order
    ensures cycle.None? <==> Acyclic(edges)
    ensures cycle.Some? ==> OnCycle(edges, cycle.value)
  {
    var search := new Search(edges);
    cycle := search.VisitAll(order);
    if cycle.Some? {
      assert !Acyclic(edges);
      return;
    }
    assert search.visited == edges.Keys;
    LeveledIsAcyclic(edges, search.level);
  }

  /** Parent links as edges. */
  function HierarchyEdges(parents: map<string, Option<string>>): Edges
  {
    map n | n in parents :: match parents[n] case None => {} case Some(p) => {p}
  }

  /** From a node through parents up to a root, without repetition. */
  ghost predicate RootChain(parents: map<string, Option<string>>, p: seq<string>)
  {
    && |p| > 0
    && (forall i :: 0 <= i < |p| ==> p[i] in parents)
    && (forall i, j :: 0 <= i && j == i + 1 && j < |p| ==> parents[p[i]] == Some(p[j]))
    && (forall i, j :: 0 <= i < j < |p| ==> p[i] != p[j])
    && parents[p[|p| - 1]] == None
  }

  lemma PathsAreSimple(edges: Edges, p: seq<string>)
    requires Acyclic(edges) && IsPath(edges, p)
    ensures forall i, j :: 0 <= i < j < |p| ==> p[i] != p[j]
  {
    forall i, j | 0 <= i < j < |p| ensures p[i] != p[j] {
      assert IsPath(edges, p[i..j + 1]);
      assert !IsCycle(edges, p[i..j + 1]);
    }
  }

  lemma {:induction false} SimpleIsShort(p: seq<string>, nodes: set<string>)
    requires (forall i :: 0 <= i < |p| ==> p[i] in nodes) && forall i, j :: 0 <= i < j < |p| ==> p[i] != p[j]
    ensures |p| <= |nodes|
  {
    if p != [] {
      SimpleIsShort(p[1..], nodes - {p[0]});
    }
  }

  /** In an acyclic hierarchy a set closed under parents holds, for each member, its chain up to a root. */
  lemma {:induction false} AncestorChain(
      parents: map<string, Option<string>>, members: set<string>, start: seq<string>)
    returns (chain: seq<string>)
    requires Acyclic(HierarchyEdges(parents)) && Closed(HierarchyEdges(parents))
    requires IsPath(HierarchyEdges(parents), start) && forall n :: n in start ==> n in members
    requires forall n :: n in members ==> n in parents && (parents[n].Some? ==> parents[n].value in members)
    ensures RootChain(parents, chain) && chain[0] == start[0] && forall n :: n in chain ==> n in members
    decreases |parents| - |start|
  {
    var edges, last := HierarchyEdges(parents), start[|start| - 1];
    PathsAreSimple(edges, start);
    match parents[last]
    case None =>
      chain := start;
    case Some(p) =>
      assert IsPath(edges, start + [p]);
      PathsAreSimple(edges, start + [p]);
      SimpleIsShort(start + [p], parents.Keys);
      chain := AncestorChain(parents, members, start + [p]);
  }
}
