/** The workflow validator of services/fleet/src/evoagent_fleet/models.py.

    `WorkflowSpec.validate_dag` is a recursive depth-first search that mutates two sets.
    It is modelled in that form, and shown to accept exactly the specifications whose
    dependency graph can be ranked. */
module FleetDag {

  type Id = string

  datatype NodeSpec = NodeSpec(
    id: Id,
    dependsOn: seq<Id>,
    capabilities: set<string>,
    tokenBudget: int,
    costBudget: real,
    approvalRequired: bool,
    maxAttempts: int)

  datatype Verdict =
    | Accepted
    | DuplicateIds
    | UnknownDependencies(id: Id, missing: set<Id>)
    | SelfDependency(id: Id)
    | DependencyCycle

  type Graph = map<Id, seq<Id>>

  function Ids(nodes: seq<NodeSpec>): (ids: seq<Id>)
  {
    seq(|nodes|, i requires 0 <= i < |nodes| => nodes[i].id)
  }

  function IdSet(ids: seq<Id>): (r: set<Id>)
  {
    set x | x in ids
  }

  ghost predicate Distinct(ids: seq<Id>)
  {
    forall i, j :: 0 <= i < j < |ids| ==> ids[i] != ids[j]
  }

  ghost predicate UniqueIds(nodes: seq<NodeSpec>)
  {
    Distinct(Ids(nodes))
  }

  ghost predicate KnownDependencies(nodes: seq<NodeSpec>)
  {
    forall i, d :: 0 <= i < |nodes| && d in nodes[i].dependsOn ==> d in Ids(nodes)
  }

  /** Row `i` is the first defective one and `v` names its defect; unknown ids are reported first. */
  ghost predicate FirstDefect(nodes: seq<NodeSpec>, i: int, v: Verdict)
  {
    && 0 <= i < |nodes|
    && (forall j :: 0 <= j < i ==> !DependsOnItself(nodes, j))
    && (forall j, d :: 0 <= j < i && d in nodes[j].dependsOn ==> d in Ids(nodes))
    && var missing := IdSet(nodes[i].dependsOn) - IdSet(Ids(nodes));
       if missing != {} then v == UnknownDependencies(nodes[i].id, missing)
       else DependsOnItself(nodes, i) && v == SelfDependency(nodes[i].id)
  }

  ghost predicate DependsOnItself(nodes: seq<NodeSpec>, i: int)
  {
    0 <= i < |nodes| && nodes[i].id in nodes[i].dependsOn
  }

  /** The edges of a specification; a repeated id keeps its last entry, as a dict does. */
  function Edges(nodes: seq<NodeSpec>): (g: Graph)
    ensures forall x :: x in g <==> x in Ids(nodes)
  {
    if nodes == [] then map[]
    else
      var rest, last := nodes[..|nodes| - 1], nodes[|nodes| - 1];
      assert Ids(nodes) == Ids(rest) + [last.id];
      Edges(rest)[last.id := last.dependsOn]
  }

  lemma {:induction false} EdgesAt(nodes: seq<NodeSpec>, i: nat)
    requires UniqueIds(nodes) && i < |nodes|
    ensures nodes[i].id in Edges(nodes) && Edges(nodes)[nodes[i].id] == nodes[i].dependsOn
  {
    var n := |nodes| - 1;
    var rest := nodes[..n];
    assert Ids(nodes)[i] in Ids(nodes);
    if i < n {
      assert Ids(nodes)[i] != Ids(nodes)[n];
      assert UniqueIds(rest) by {
        forall a, b | 0 <= a < b < n ensures Ids(rest)[a] != Ids(rest)[b] {
          assert Ids(nodes)[a] != Ids(nodes)[b];
        }
      }
      EdgesAt(rest, i);
    }
  }

  ghost predicate Closed(g: Graph)
  {
    forall n, p :: n in g && p in g[n] ==> p in g
  }

  /** A rank function: every dependency lies strictly below its dependant. */
  ghost predicate IsRank(g: Graph, rank: map<Id, nat>)
  {
    && rank.Keys == g.Keys
    && forall n, p :: n in g && p in g[n] && p in g ==> rank[p] < rank[n]
  }

  ghost predicate Acyclic(g: Graph)
  {
    exists rank :: IsRank(g, rank)
  }

  /** A walk along dependency edges. */
  ghost predicate IsWalk(g: Graph, p: seq<Id>)
  {
    && (forall i :: 0 <= i < |p| ==> p[i] in g)
    && forall i :: 0 <= i < |p| - 1 ==> p[i + 1] in g[p[i]]
  }

  ghost predicate IsCycle(g: Graph, p: seq<Id>)
  {
    |p| >= 2 && IsWalk(g, p) && p[0] == p[|p| - 1]
  }

  lemma {:induction false} RankDropsAlongWalk(g: Graph, rank: map<Id, nat>, p: seq<Id>)
    requires IsRank(g, rank) && IsWalk(g, p) && |p| >= 2
    ensures rank[p[|p| - 1]] < rank[p[0]]
  {
    var q := p[..|p| - 1];
    assert p[|q|] in g[p[|q| - 1]];
    if |q| >= 2 {
      assert IsWalk(g, q) by {
        forall i | 0 <= i < |q| - 1 ensures q[i + 1] in g[q[i]] {
          assert p[i + 1] in g[p[i]];
        }
      }
      RankDropsAlongWalk(g, rank, q);
    }
  }

  /** A graph with a cycle has no rank, so the two notions exclude each other. */
  lemma CycleRefutesRank(g: Graph, p: seq<Id>)
    requires IsCycle(g, p)
    ensures !Acyclic(g)
  {
    if Acyclic(g) {
      var rank :| IsRank(g, rank);
      RankDropsAlongWalk(g, rank, p);
    }
  }

  /** `order` lists finished nodes, each after all of its dependencies. */
  ghost predicate IsFinishOrder(g: Graph, order: seq<Id>)
  {
    && (forall i, j :: 0 <= i < j < |order| ==> order[i] != order[j])
    && (forall i :: 0 <= i < |order| ==> order[i] in g)
    && forall i, p :: 0 <= i < |order| && p in g[order[i]] ==> p in order[..i]
  }

  lemma FinishOrderExtends(g: Graph, order: seq<Id>, n: Id)
    requires IsFinishOrder(g, order) && n in g && n !in order
    requires forall p :: p in g[n] ==> p in order
    ensures IsFinishOrder(g, order + [n])
  {
    var longer := order + [n];
    forall i, p | 0 <= i < |longer| && p in g[longer[i]] ensures p in longer[..i] {
      if i < |order| {
        assert longer[..i] == order[..i];
      } else {
        assert longer[..i] == order;
      }
    }
  }

  /** A finishing order of the whole graph ranks it: a node's position is its rank. */
  lemma FinishOrderRanks(g: Graph, order: seq<Id>)
    requires IsFinishOrder(g, order)
    requires forall n :: n in g ==> n in order
    ensures Acyclic(g)
  {
    var rank := map n | n in g :: Position(order, n);
    forall n, p | n in g && p in g[n] && p in g ensures rank[p] < rank[n] {
      assert p in order[..rank[n]];
      var j :| 0 <= j < rank[n] && order[j] == p;
    }
    assert IsRank(g, rank);
  }

  ghost function Position(s: seq<Id>, x: Id): (i: nat)
    requires x in s
    ensures i < |s| && s[i] == x
  {
    var i :| 0 <= i < |s| && s[i] == x; i
  }

  /** The recursive search, with the two sets it mutates as fields. */
  class DagSearch {
    const edges: Graph
    var visiting: set<Id>
    var visited: set<Id>
    ghost var order: seq<Id>

    constructor (edges: Graph)
      ensures this.edges == edges && visiting == {} && visited == {} && order == []
    {
      this.edges := edges;
      visiting, visited, order := {}, {}, [];
    }

    ghost predicate Valid()
      reads this
    {
      && Closed(edges)
      && visiting <= edges.Keys
      && IsFinishOrder(edges, order)
      && (forall n :: n in visited <==> n in order)
      && visiting !! visited
    }

    /** `stack` is the chain of calls in progress on entry. A rejected visit returns the chain in
        progress when the rejection was raised: it extends `stack`, all of it but the last call is
        being visited, and from position `at` on it is a cycle. */
    method Visit(nodeId: Id, ghost stack: seq<Id>) returns (ok: bool, ghost calls: seq<Id>, ghost at: nat)
      requires Valid() && nodeId in edges
      requires forall n :: n in visiting <==> n in stack
      requires IsWalk(edges, stack + [nodeId])
      modifies this
      ensures ok ==> Valid() && visiting == old(visiting) && old(visited) <= visited && nodeId in visited
      ensures !ok ==> stack + [nodeId] <= calls && at < |calls| && IsCycle(edges, calls[at..])
      ensures !ok ==> forall n :: n in visiting <==> n in calls[..|calls| - 1]
      decreases edges.Keys - visiting
    {
      calls, at := stack + [nodeId], 0;
      if nodeId in visiting {
        at := Position(stack, nodeId);
        assert calls[..|calls| - 1] == stack;
        return false, calls, at;
      }
      if nodeId in visited {
        return true, calls, at;
      }
      visiting := visiting + {nodeId};
      var parents := edges[nodeId];
      var i := 0;
      while i < |parents|
        invariant 0 <= i <= |parents|
        invariant Valid() && visiting == old(visiting) + {nodeId} && old(visited) <= visited
        invariant forall j :: 0 <= j < i ==> parents[j] in visited
      {
        assert parents[i] in edges[nodeId];
        ghost var deeper := stack + [nodeId];
        assert IsWalk(edges, deeper + [parents[i]]) by {
          forall j | 0 <= j < |deeper| ensures (deeper + [parents[i]])[j + 1] in edges[(deeper + [parents[i]])[j]] {
            if j < |stack| { assert deeper[j + 1] in edges[deeper[j]]; }
          }
        }
        ok, calls, at := Visit(parents[i], deeper);
        if !ok {
          assert stack + [nodeId] <= stack + [nodeId] + [parents[i]] <= calls;
          return false, calls, at;
        }
        i := i + 1;
      }
      FinishOrderExtends(edges, order, nodeId);
      visiting := visiting - {nodeId};
      visited := visited + {nodeId};
      order := order + [nodeId];
      assert visiting == old(visiting);
      return true, calls, at;
    }
  }

  lemma EdgesClosed(nodes: seq<NodeSpec>)
    requires UniqueIds(nodes) && KnownDependencies(nodes)
    ensures Closed(Edges(nodes))
  {
    var g := Edges(nodes);
    forall n, p | n in g && p in g[n] ensures p in g {
      var i :| 0 <= i < |nodes| && Ids(nodes)[i] == n;
      EdgesAt(nodes, i);
    }
  }

  /** The first loop: unknown and self dependencies, reported in row order. */
  method CheckDependencies(nodes: seq<NodeSpec>, known: set<Id>) returns (v: Verdict)
    requires known == IdSet(Ids(nodes))
    ensures v.Accepted? || v.UnknownDependencies? || v.SelfDependency?
    ensures v.Accepted? <==> KnownDependencies(nodes) && forall i :: !DependsOnItself(nodes, i)
    ensures v.UnknownDependencies? ==> !KnownDependencies(nodes)
    ensures !v.Accepted? ==> exists i :: FirstDefect(nodes, i, v)
  {
    for i := 0 to |nodes|
      invariant forall j, d :: 0 <= j < i && d in nodes[j].dependsOn ==> d in Ids(nodes)
      invariant forall j :: 0 <= j < i ==> !DependsOnItself(nodes, j)
    {
      var missing := IdSet(nodes[i].dependsOn) - known;
      if missing != {} {
        ghost var d :| d in missing;
        assert d in nodes[i].dependsOn && d !in Ids(nodes);
        assert FirstDefect(nodes, i, UnknownDependencies(nodes[i].id, missing));
        return UnknownDependencies(nodes[i].id, missing);
      }
      forall d | d in nodes[i].dependsOn ensures d in Ids(nodes) {
        assert d !in missing;
      }
      if nodes[i].id in nodes[i].dependsOn {
        assert FirstDefect(nodes, i, SelfDependency(nodes[i].id));
        return SelfDependency(nodes[i].id);
      }
    }
    return Accepted;
  }

  lemma SelfLoopRefutesRank(nodes: seq<NodeSpec>, i: int)
    requires UniqueIds(nodes) && DependsOnItself(nodes, i)
    ensures !Acyclic(Edges(nodes))
  {
    EdgesAt(nodes, i);
    assert IsCycle(Edges(nodes), [nodes[i].id, nodes[i].id]);
    CycleRefutesRank(Edges(nodes), [nodes[i].id, nodes[i].id]);
  }

  /** The second loop: the search is started from every node in turn. */
  method SearchAll(edges: Graph, ids: seq<Id>) returns (ok: bool, ghost cycle: seq<Id>)
    requires Closed(edges) && forall n :: n in edges <==> n in ids
    ensures ok <==> Acyclic(edges)
    ensures !ok ==> IsCycle(edges, cycle)
  {
    cycle := [];
    var search := new DagSearch(edges);
    for i := 0 to |ids|
      invariant search.Valid() && search.visiting == {} && search.edges == edges
      invariant forall j :: 0 <= j < i ==> ids[j] in search.visited
    {
      assert ids[i] in edges;
      ghost var calls, at;
      ok, calls, at := search.Visit(ids[i], []);
      if !ok {
        cycle := calls[at..];
        CycleRefutesRank(edges, cycle);
        return false, cycle;
      }
    }
    FinishOrderRanks(edges, search.order);
    return true, [];
  }

  /** `validate_dag`: accepts exactly the well-formed acyclic specifications, and says why not. */
  method ValidateDag(nodes: seq<NodeSpec>) returns (v: Verdict, ghost cycle: seq<Id>)
    ensures v.Accepted? <==> UniqueIds(nodes) && KnownDependencies(nodes) && Acyclic(Edges(nodes))
    ensures v.DuplicateIds? <==> !UniqueIds(nodes)
    ensures v.UnknownDependencies? || v.SelfDependency? ==> exists i :: FirstDefect(nodes, i, v)
    ensures v.DependencyCycle? ==> IsCycle(Edges(nodes), cycle)
  {
    cycle := [];
    var ids := Ids(nodes);
    var known := IdSet(ids);
    DistinctCount(ids);
    if |ids| != |known| {
      return DuplicateIds, cycle;
    }
    v := CheckDependencies(nodes, known);
    if !v.Accepted? {
      if v.SelfDependency? {
        ghost var i :| FirstDefect(nodes, i, v);
        SelfLoopRefutesRank(nodes, i);
      }
      return v, cycle;
    }
    EdgesClosed(nodes);
    var ok;
    ok, cycle := SearchAll(Edges(nodes), ids);
    v := if ok then Accepted else DependencyCycle;
  }

  /** Comparing the list length with the set size detects exactly the repeated ids. */
  lemma {:induction false} DistinctCount(ids: seq<Id>)
    ensures |IdSet(ids)| <= |ids|
    ensures |IdSet(ids)| == |ids| <==> Distinct(ids)
  {
    if ids != [] {
      var rest, last := ids[..|ids| - 1], ids[|ids| - 1];
      DistinctCount(rest);
      assert ids == rest + [last];
      assert IdSet(ids) == IdSet(rest) + {last};
      if last in rest {
        assert IdSet(ids) == IdSet(rest);
        var i :| 0 <= i < |rest| && rest[i] == last;
        assert ids[i] == ids[|rest|];
      } else {
        assert |IdSet(ids)| == |IdSet(rest)| + 1;
        assert Distinct(ids) ==> Distinct(rest);
        if Distinct(rest) {
          forall i, j | 0 <= i < j < |ids| ensures ids[i] != ids[j] {
            if j < |rest| { assert rest[i] != rest[j]; } else { assert rest[i] in rest; }
          }
        }
      }
    }
  }
}
