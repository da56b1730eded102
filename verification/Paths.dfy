/**
 Directed networks whose edges carry a live cost, the paths through them, and
 the predecessor trees that a search leaves behind.

 The cost of an edge is a function value, so nothing proved here or in Search
 depends on how backend/app/routing/graph.py prices a road.
 */
module Paths {
  import opened Wrappers

  datatype Edge = Edge(roadId: int, toNode: int, lengthM: real, freeFlowKph: real,
                       capacityPph: int, cellIds: seq<string>)

  /** One step of a route: the node it leaves and the edge it takes. */
  datatype Hop = Hop(src: int, edge: Edge)

  /** `cost(e) == None` means that `e` is impassable at the moment. */
  datatype Network = Network(adj: map<int, seq<Edge>>, cost: Edge -> Option<real>)

  function Out(g: Network, u: int): seq<Edge> {
    if u in g.adj then g.adj[u] else []
  }

  function CostOf(g: Network, e: Edge): real {
    match g.cost(e)
    case Some(c) => c
    case None => 0.0
  }

  ghost predicate Usable(g: Network, h: Hop) {
    h.edge in Out(g, h.src) && g.cost(h.edge).Some?
  }

  /** `p` leads from `s` to `t` over roads that are all passable. */
  ghost predicate IsPath(g: Network, s: int, t: int, p: seq<Hop>)
    decreases |p|
  {
    if p == [] then s == t
    else
      var last := p[|p| - 1];
      last.edge.toNode == t && Usable(g, last) && IsPath(g, s, last.src, p[..|p| - 1])
  }

  ghost function Cost(g: Network, p: seq<Hop>): real {
    if p == [] then 0.0 else Cost(g, p[..|p| - 1]) + CostOf(g, p[|p| - 1].edge)
  }

  ghost predicate Reachable(g: Network, s: int, t: int) {
    exists p :: IsPath(g, s, t, p)
  }

  /** `d` is the least cost of any path from `s` to `t`, and some path attains it. */
  ghost predicate IsDistance(g: Network, s: int, t: int, d: real) {
    && (exists p :: IsPath(g, s, t, p) && Cost(g, p) == d)
    && (forall p :: IsPath(g, s, t, p) ==> d <= Cost(g, p))
  }

  ghost predicate NonNegative(g: Network) {
    forall u, e :: e in Out(g, u) && g.cost(e).Some? ==> 0.0 <= g.cost(e).value
  }

  /** Every edge ends at a node of the network. */
  ghost predicate Closed(g: Network) {
    forall u, e :: e in Out(g, u) ==> e.toNode in g.adj
  }

  /** The roads of a route, in travel order. */
  function Roads(p: seq<Hop>): seq<int> {
    seq(|p|, i requires 0 <= i < |p| => p[i].edge.roadId)
  }

  lemma IsPathSnoc(g: Network, s: int, p: seq<Hop>, h: Hop)
    requires IsPath(g, s, h.src, p) && Usable(g, h)
    ensures IsPath(g, s, h.edge.toNode, p + [h])
    ensures Cost(g, p + [h]) == Cost(g, p) + CostOf(g, h.edge)
  {
  }

  /** Every hop of a path is usable, and consecutive hops meet. */
  lemma {:induction false} PathIsContiguous(g: Network, s: int, t: int, p: seq<Hop>)
    requires IsPath(g, s, t, p)
    ensures forall i :: 0 <= i < |p| ==> Usable(g, p[i])
    ensures forall i :: 0 < i < |p| ==> p[i - 1].edge.toNode == p[i].src
    ensures if p == [] then s == t else p[0].src == s && p[|p| - 1].edge.toNode == t
    decreases |p|
  {
    if p != [] {
      var q := p[..|p| - 1];
      PathIsContiguous(g, s, p[|p| - 1].src, q);
      assert forall i :: 0 <= i < |q| ==> q[i] == p[i];
    }
  }

  /** A path of one network is a path of any other that allows the same hops. */
  lemma {:induction false} PathTransfers(g: Network, g': Network, s: int, t: int, p: seq<Hop>)
    requires IsPath(g, s, t, p)
    requires forall i :: 0 <= i < |p| ==> Usable(g', p[i])
    ensures IsPath(g', s, t, p)
    decreases |p|
  {
    if p != [] {
      PathTransfers(g, g', s, p[|p| - 1].src, p[..|p| - 1]);
    }
  }

  lemma {:induction false} CostNonNegative(g: Network, s: int, t: int, p: seq<Hop>)
    requires IsPath(g, s, t, p) && NonNegative(g)
    ensures 0.0 <= Cost(g, p)
    decreases |p|
  {
    if p != [] {
      CostNonNegative(g, s, p[|p| - 1].src, p[..|p| - 1]);
    }
  }

  // ----- predecessor trees ---------------------------------------------------

  /**
   `prev` links every node it knows back to `s` over usable edges. `rank`
   strictly decreases along the links, so following them always ends.
   */
  ghost predicate Tree(g: Network, s: int, prev: map<int, Hop>, rank: map<int, nat>) {
    && rank.Keys == prev.Keys + {s}
    && s !in prev
    && forall v | v in prev ::
         && Usable(g, prev[v]) && prev[v].edge.toNode == v
         && prev[v].src in rank && rank[prev[v].src] < rank[v]
  }

  /** The route that the links of a tree spell out, from `s` to `v`. */
  ghost function TreePath(g: Network, s: int, prev: map<int, Hop>, rank: map<int, nat>, v: int): seq<Hop>
    requires Tree(g, s, prev, rank) && v in rank
    decreases rank[v]
  {
    if v == s then [] else TreePath(g, s, prev, rank, prev[v].src) + [prev[v]]
  }

  lemma {:induction false} TreePathIsPath(g: Network, s: int, prev: map<int, Hop>, rank: map<int, nat>, v: int)
    requires Tree(g, s, prev, rank) && v in rank
    ensures IsPath(g, s, v, TreePath(g, s, prev, rank, v))
    decreases rank[v]
  {
    if v != s {
      TreePathIsPath(g, s, prev, rank, prev[v].src);
      IsPathSnoc(g, s, TreePath(g, s, prev, rank, prev[v].src), prev[v]);
    }
  }

  /** Every hop leaves a node of rank below `bound`, and no two leave the same node. */
  ghost predicate Simple(p: seq<Hop>, rank: map<int, nat>, bound: nat) {
    && (forall i :: 0 <= i < |p| ==> p[i].src in rank && rank[p[i].src] < bound)
    && (forall i, j :: 0 <= i < j < |p| ==> p[i].src != p[j].src)
  }

  /** Ranks grow along a tree path, so it visits no node twice, not even its end. */
  lemma {:induction false} TreePathIsSimple(g: Network, s: int, prev: map<int, Hop>, rank: map<int, nat>, v: int)
    requires Tree(g, s, prev, rank) && v in rank
    ensures Simple(TreePath(g, s, prev, rank, v), rank, rank[v])
    decreases rank[v]
  {
    if v != s {
      TreePathIsSimple(g, s, prev, rank, prev[v].src);
    }
  }
}
