/**
 The invariants of best-first search with lazy deletion, shared by Dijkstra and A*.

 A search is driven by a potential `h`: zero for Dijkstra, the heuristic for A*.
 One group of facts holds for every `h` (`Sound`); the other (`Exact`) holds when
 `h` is consistent, and is what makes the first settling of a node final.
 */
module Search {
  import opened Wrappers
  import opened Paths

  /** A heap entry. Dijkstra's pair (d, u) is the entry whose key is its cost. */
  datatype Entry = Entry(key: real, cost: real, node: int)

  predicate Leq(a: Entry, b: Entry) {
    || a.key < b.key
    || (a.key == b.key && (a.cost < b.cost || (a.cost == b.cost && a.node <= b.node)))
  }

  datatype State = State(dist: map<int, real>, prev: map<int, Hop>, settled: set<int>, heap: multiset<Entry>)

  ghost predicate Consistent(g: Network, h: int -> real) {
    forall u, e :: e in Out(g, u) && g.cost(e).Some? ==> h(u) <= g.cost(e).value + h(e.toNode)
  }

  /** Popping one entry, and settling its node. */
  function Settle(st: State, x: Entry): State {
    st.(settled := st.settled + {x.node}, heap := st.heap - multiset{x})
  }

  /** Relaxing one edge `e` of `u`, settled at cost `du`. */
  function Relax(g: Network, h: int -> real, st: State, u: int, du: real, e: Edge): State {
    match g.cost(e)
    case None => st
    case Some(c) =>
      var nd := du + c;
      if e.toNode in st.dist && st.dist[e.toNode] <= nd then st
      else
        st.(dist := st.dist[e.toNode := nd], prev := st.prev[e.toNode := Hop(u, e)],
            heap := st.heap + multiset{Entry(nd + h(e.toNode), nd, e.toNode)})
  }

  // ----- what holds whatever the potential -----------------------------------

  ghost predicate Rooted(s: int, st: State) {
    && s in st.dist && st.dist[s] == 0.0 && s !in st.prev
    && st.dist.Keys == st.prev.Keys + {s}
    && st.settled <= st.dist.Keys
    && forall v | v in st.dist :: 0.0 <= st.dist[v]
  }

  /** The link into `v` is a usable edge that accounts for at most `v`'s cost. */
  ghost predicate Linked(g: Network, st: State, v: int) {
    v in st.prev ==>
      var hop := st.prev[v];
      && Usable(g, hop) && hop.edge.toNode == v && hop.src in st.dist
      && v in st.dist && st.dist[hop.src] + CostOf(g, hop.edge) <= st.dist[v]
  }

  ghost predicate Queued(h: int -> real, st: State, v: int) {
    v in st.dist && v !in st.settled ==> Entry(st.dist[v] + h(v), st.dist[v], v) in st.heap
  }

  ghost predicate Backed(h: int -> real, st: State, x: Entry) {
    x in st.heap ==> x.node in st.dist && st.dist[x.node] <= x.cost && x.key == x.cost + h(x.node)
  }

  ghost predicate Sound(g: Network, h: int -> real, s: int, st: State) {
    && Rooted(s, st)
    && (forall v :: Linked(g, st, v))
    && (forall v :: Queued(h, st, v))
    && (forall x :: Backed(h, st, x))
  }

  ghost predicate Covered(g: Network, st: State, u: int, e: Edge) {
    g.cost(e).Some? ==> e.toNode in st.dist
  }

  /** Every usable edge out of `done` leads to a node the search has reached. */
  ghost predicate Expanded(g: Network, st: State, done: set<int>) {
    forall u, e :: u in done && e in Out(g, u) ==> Covered(g, st, u, e)
  }

  // ----- what a consistent potential adds ------------------------------------

  ghost predicate LowerBound(g: Network, s: int, v: int, d: real) {
    forall p :: IsPath(g, s, v, p) ==> d <= Cost(g, p)
  }

  ghost predicate ExactLink(g: Network, st: State, v: int) {
    v in st.prev ==>
      var hop := st.prev[v];
      && hop.src in st.settled && hop.src in st.dist && v in st.dist
      && st.dist[v] == st.dist[hop.src] + CostOf(g, hop.edge)
  }

  ghost predicate Below(h: int -> real, st: State, u: int, x: Entry) {
    u in st.dist && x in st.heap ==> st.dist[u] + h(u) <= x.key
  }

  ghost predicate Final(g: Network, s: int, st: State, u: int) {
    u in st.dist && LowerBound(g, s, u, st.dist[u])
  }

  ghost predicate Exact(g: Network, h: int -> real, s: int, st: State) {
    && (forall v :: ExactLink(g, st, v))
    && (forall u, x :: u in st.settled ==> Below(h, st, u, x))
    && (forall u :: u in st.settled ==> Final(g, s, st, u))
  }

  ghost predicate Fits(g: Network, st: State, u: int, e: Edge) {
    u in st.dist && g.cost(e).Some? ==> e.toNode in st.dist && st.dist[e.toNode] <= st.dist[u] + g.cost(e).value
  }

  /** No usable edge out of `done` offers a cheaper way to the node it leads to. */
  ghost predicate Tight(g: Network, st: State, done: set<int>) {
    forall u, e :: u in done && e in Out(g, u) ==> Fits(g, st, u, e)
  }

  // ----- the frontier ----------------------------------------------------------

  /** Any path out of the settled region crosses a reached, unsettled node. */
  lemma {:induction false} FrontierReached(g: Network, s: int, st: State, v: int, p: seq<Hop>)
    requires IsPath(g, s, v, p) && s in st.dist
    requires Expanded(g, st, st.settled)
    ensures v in st.settled || exists x :: x in st.dist && x !in st.settled
    decreases |p|
  {
    if p != [] {
      var last := p[|p| - 1];
      FrontierReached(g, s, st, last.src, p[..|p| - 1]);
      if last.src in st.settled {
        assert Covered(g, st, last.src, last.edge);
      }
    }
  }

  /** The crossing node's key is a lower bound for what the whole path can cost. */
  lemma {:induction false} FrontierBounds(g: Network, h: int -> real, s: int, st: State, v: int, p: seq<Hop>)
    requires Sound(g, h, s, st) && Consistent(g, h) && Tight(g, st, st.settled)
    requires IsPath(g, s, v, p)
    ensures (v in st.settled && st.dist[v] <= Cost(g, p))
         || exists x :: x in st.dist && x !in st.settled && st.dist[x] + h(x) <= Cost(g, p) + h(v)
    decreases |p|
  {
    if p == [] {
      if v !in st.settled {
        assert v in st.dist && st.dist[v] + h(v) <= Cost(g, p) + h(v);
      }
    } else {
      var last, q := p[|p| - 1], p[..|p| - 1];
      var u := last.src;
      FrontierBounds(g, h, s, st, u, q);
      assert Cost(g, p) == Cost(g, q) + g.cost(last.edge).value;
      assert h(u) <= g.cost(last.edge).value + h(v);
      if u in st.settled && st.dist[u] <= Cost(g, q) {
        assert Fits(g, st, u, last.edge);
        if v !in st.settled {
          assert v in st.dist && st.dist[v] + h(v) <= Cost(g, p) + h(v);
        }
      } else {
        var x :| x in st.dist && x !in st.settled && st.dist[x] + h(x) <= Cost(g, q) + h(u);
        assert st.dist[x] + h(x) <= Cost(g, p) + h(v);
      }
    }
  }

  // ----- popping -----------------------------------------------------------------

  ghost predicate IsMin(heap: multiset<Entry>, m: Entry) {
    m in heap && forall x :: x in heap ==> Leq(m, x)
  }

  lemma {:induction false} MinExists(heap: multiset<Entry>)
    requires heap != multiset{}
    ensures exists m :: IsMin(heap, m)
    decreases |heap|
  {
    var a :| a in heap;
    var rest := heap - multiset{a};
    if rest == multiset{} {
      assert forall x :: x in heap ==> x == a || x in rest;
      assert IsMin(heap, a);
    } else {
      MinExists(rest);
      var m :| IsMin(rest, m);
      assert forall x :: x in heap ==> x == a || x in rest;
      if Leq(m, a) {
        assert IsMin(heap, m);
      } else {
        assert forall x :: x in rest ==> Leq(m, x);
        assert IsMin(heap, a);
      }
    }
  }

  /** A popped entry of an unsettled node carries that node's current cost. */
  lemma PopIsCurrent(g: Network, h: int -> real, s: int, st: State, m: Entry)
    requires Sound(g, h, s, st) && IsMin(st.heap, m) && m.node !in st.settled
    ensures m.node in st.dist && m.cost == st.dist[m.node]
  {
    assert Backed(h, st, m);
    assert Queued(h, st, m.node);
  }

  /** Popping keeps the search sound, whether the entry is fresh or stale. */
  lemma PopSound(g: Network, h: int -> real, s: int, st: State, m: Entry)
    requires Sound(g, h, s, st) && m in st.heap
    ensures Sound(g, h, s, Settle(st, m))
  {
    var st' := Settle(st, m);
    assert Backed(h, st, m);
    forall v ensures Linked(g, st', v) {
      assert Linked(g, st, v);
    }
    forall v ensures Queued(h, st', v) {
      assert Queued(h, st, v);
    }
    forall x ensures Backed(h, st', x) {
      assert Backed(h, st, x);
    }
  }

  /** Under a consistent potential the node of the least entry is settled at its true distance. */
  lemma PopFinal(g: Network, h: int -> real, s: int, st: State, m: Entry)
    requires Sound(g, h, s, st) && IsMin(st.heap, m) && m.node !in st.settled
    requires Consistent(g, h) && Tight(g, st, st.settled)
    ensures Final(g, s, st, m.node)
  {
    PopIsCurrent(g, h, s, st, m);
    assert Backed(h, st, m);
    forall p | IsPath(g, s, m.node, p) ensures st.dist[m.node] <= Cost(g, p) {
      FrontierBounds(g, h, s, st, m.node, p);
      var x :| x in st.dist && x !in st.settled && st.dist[x] + h(x) <= Cost(g, p) + h(m.node);
      assert Queued(h, st, x);
      assert Leq(m, Entry(st.dist[x] + h(x), st.dist[x], x));
    }
  }

  lemma PopExact(g: Network, h: int -> real, s: int, st: State, m: Entry)
    requires Sound(g, h, s, st) && IsMin(st.heap, m)
    requires Consistent(g, h) && Exact(g, h, s, st) && Tight(g, st, st.settled)
    ensures Exact(g, h, s, Settle(st, m))
  {
    var st' := Settle(st, m);
    assert Backed(h, st, m);
    if m.node !in st.settled {
      PopFinal(g, h, s, st, m);
      PopIsCurrent(g, h, s, st, m);
    }
    forall v ensures ExactLink(g, st', v) {
      assert ExactLink(g, st, v);
    }
    forall u, x | u in st'.settled ensures Below(h, st', u, x) {
      if u in st.settled {
        assert Below(h, st, u, x);
      } else if x in st'.heap {
        assert x in st.heap;
        assert Leq(m, x);
      }
    }
    forall u | u in st'.settled ensures Final(g, s, st', u) {
      assert Final(g, s, st, u);
    }
  }

  // ----- relaxing -----------------------------------------------------------------

  /** What one relaxation of `u`'s edge `e` may change. */
  lemma RelaxFrame(g: Network, h: int -> real, s: int, st: State, u: int, e: Edge)
    requires Sound(g, h, s, st) && NonNegative(g) && u in st.dist && e in Out(g, u)
    ensures var st' := Relax(g, h, st, u, st.dist[u], e);
            && Rooted(s, st') && st'.settled == st.settled && st'.dist[u] == st.dist[u]
            && (forall w :: w in st.dist ==> w in st'.dist && st'.dist[w] <= st.dist[w])
            && Fits(g, st', u, e)
  {
  }

  lemma RelaxSound(g: Network, h: int -> real, s: int, st: State, u: int, e: Edge)
    requires Sound(g, h, s, st) && NonNegative(g)
    requires u in st.dist && e in Out(g, u)
    ensures Sound(g, h, s, Relax(g, h, st, u, st.dist[u], e))
  {
    var st' := Relax(g, h, st, u, st.dist[u], e);
    if st' != st {
      RelaxFrame(g, h, s, st, u, e);
      var v, nd := e.toNode, st.dist[u] + g.cost(e).value;
      forall w ensures Linked(g, st', w) {
        assert Linked(g, st, w);
      }
      forall w ensures Queued(h, st', w) {
        assert Queued(h, st, w);
      }
      forall x ensures Backed(h, st', x) {
        assert Backed(h, st, x);
        assert x in st'.heap ==> x in st.heap || x == Entry(nd + h(v), nd, v);
      }
    }
  }

  /** Under a consistent potential relaxing never touches a settled node again. */
  lemma RelaxSpares(g: Network, h: int -> real, s: int, st: State, u: int, e: Edge, w: int)
    requires Sound(g, h, s, st) && Consistent(g, h)
    requires u in st.settled && e in Out(g, u)
    requires w in st.settled && st.dist[w] + h(w) <= st.dist[u] + h(u)
    ensures var st' := Relax(g, h, st, u, st.dist[u], e);
            w in st'.dist && st'.dist[w] == st.dist[w] && (w in st.prev ==> w in st'.prev && st'.prev[w] == st.prev[w])
  {
  }

  lemma RelaxExact(g: Network, h: int -> real, s: int, st: State, u: int, e: Edge)
    requires Sound(g, h, s, st) && Consistent(g, h) && Exact(g, h, s, st)
    requires u in st.settled && e in Out(g, u)
    requires forall w :: w in st.settled ==> st.dist[w] + h(w) <= st.dist[u] + h(u)
    ensures Exact(g, h, s, Relax(g, h, st, u, st.dist[u], e))
  {
    var st' := Relax(g, h, st, u, st.dist[u], e);
    if st' != st {
      var v, nd := e.toNode, st.dist[u] + g.cost(e).value;
      forall w | w in st.settled ensures w in st'.dist && st'.dist[w] == st.dist[w] {
        RelaxSpares(g, h, s, st, u, e, w);
      }
      forall w ensures ExactLink(g, st', w) {
        assert ExactLink(g, st, w);
      }
      forall w, x | w in st'.settled ensures Below(h, st', w, x) {
        assert Below(h, st, w, x);
        assert x in st'.heap ==> x in st.heap || x == Entry(nd + h(v), nd, v);
      }
      forall w | w in st'.settled ensures Final(g, s, st', w) {
        assert Final(g, s, st, w);
      }
    }
  }

  lemma KeepsExpanded(g: Network, st: State, st': State, done: set<int>)
    requires Expanded(g, st, done) && st.dist.Keys <= st'.dist.Keys
    ensures Expanded(g, st', done)
  {
  }

  lemma KeepsTight(g: Network, st: State, st': State, done: set<int>)
    requires Tight(g, st, done) && done <= st.dist.Keys
    requires forall w :: w in done ==> w in st'.dist && st'.dist[w] == st.dist[w]
    requires forall w :: w in st.dist ==> w in st'.dist && st'.dist[w] <= st.dist[w]
    ensures Tight(g, st', done)
  {
  }

  // ----- the predecessor tree ------------------------------------------------------

  /** `v` lies on the chain of links from `x` back to the source. */
  ghost predicate Under(g: Network, s: int, prev: map<int, Hop>, rank: map<int, nat>, x: int, v: int)
    requires Tree(g, s, prev, rank) && x in rank
    decreases rank[x]
  {
    x == v || (x in prev && Under(g, s, prev, rank, prev[x].src, v))
  }

  /** Costs never increase on the way back to the source. */
  lemma {:induction false} AncestorsAreCheaper(g: Network, h: int -> real, s: int, st: State,
                                               rank: map<int, nat>, x: int, v: int)
    requires Sound(g, h, s, st) && NonNegative(g)
    requires Tree(g, s, st.prev, rank) && x in rank && Under(g, s, st.prev, rank, x, v)
    ensures v in st.dist && x in st.dist && st.dist[v] <= st.dist[x]
    decreases rank[x]
  {
    if x != v {
      assert Linked(g, st, x);
      AncestorsAreCheaper(g, h, s, st, rank, st.prev[x].src, v);
    }
  }

  /** Everything at or below `v` is ranked anew, `shift` higher. */
  ghost function NewRank(g: Network, s: int, prev: map<int, Hop>, rank: map<int, nat>, v: int, shift: nat, x: int): nat
    requires Tree(g, s, prev, rank) && x in rank
  {
    if Under(g, s, prev, rank, x, v) then rank[x] + shift else rank[x]
  }

  lemma NewRankGrows(g: Network, s: int, prev: map<int, Hop>, rank: map<int, nat>, v: int, shift: nat, x: int)
    requires Tree(g, s, prev, rank) && x in prev && x != v
    ensures NewRank(g, s, prev, rank, v, shift, prev[x].src) < NewRank(g, s, prev, rank, v, shift, x)
  {
  }

  /** What is not below `v` keeps its rank; `v` itself comes after everything that does. */
  lemma NewRankOf(g: Network, s: int, prev: map<int, Hop>, rank: map<int, nat>, v: int, shift: nat, x: int)
    requires Tree(g, s, prev, rank) && x in rank
    ensures !Under(g, s, prev, rank, x, v) ==> NewRank(g, s, prev, rank, v, shift, x) == rank[x]
    ensures x == v ==> NewRank(g, s, prev, rank, v, shift, x) == rank[v] + shift
  {
  }

  lemma TreeOf(g: Network, s: int, prev: map<int, Hop>, rank: map<int, nat>)
    requires rank.Keys == prev.Keys + {s} && s !in prev
    requires forall x :: x in prev ==> Usable(g, prev[x]) && prev[x].edge.toNode == x && prev[x].src in rank
    requires forall x :: x in prev ==> prev[x].src in rank && rank[prev[x].src] < rank[x]
    ensures Tree(g, s, prev, rank)
  {
  }

  /** A node that the links do not know yet. */
  lemma HangNew(g: Network, s: int, prev: map<int, Hop>, rank: map<int, nat>, v: int, hop: Hop)
    requires Tree(g, s, prev, rank) && v != s && v !in rank
    requires Usable(g, hop) && hop.edge.toNode == v && hop.src in rank
    ensures Tree(g, s, prev[v := hop], rank[v := rank[hop.src] + 1])
  {
    hide Usable;
    TreeOf(g, s, prev[v := hop], rank[v := rank[hop.src] + 1]);
  }

  /** A node that they know, with everything below it. */
  lemma HangOld(g: Network, s: int, prev: map<int, Hop>, rank: map<int, nat>, v: int, hop: Hop)
    returns (rank': map<int, nat>)
    requires Tree(g, s, prev, rank) && v != s && v in rank
    requires Usable(g, hop) && hop.edge.toNode == v && hop.src in rank
    requires !Under(g, s, prev, rank, hop.src, v)
    ensures Tree(g, s, prev[v := hop], rank')
  {
    hide Usable, Under, NewRank;
    var shift := rank[hop.src] + 1;
    rank' := map x | x in rank :: NewRank(g, s, prev, rank, v, shift, x);
    var prev' := prev[v := hop];
    assert v in prev && prev'.Keys == prev.Keys;
    NewRankOf(g, s, prev, rank, v, shift, hop.src);
    NewRankOf(g, s, prev, rank, v, shift, v);
    forall x | x in prev' ensures prev'[x].src in rank' && rank'[prev'[x].src] < rank'[x] {
      if x != v {
        NewRankGrows(g, s, prev, rank, v, shift, x);
      }
    }
    TreeOf(g, s, prev', rank');
  }

  /** Hanging `v` under `u` keeps the links a tree when `v` is not above `u`. */
  lemma Rehang(g: Network, s: int, prev: map<int, Hop>, rank: map<int, nat>, v: int, hop: Hop)
    returns (rank': map<int, nat>)
    requires Tree(g, s, prev, rank) && v != s
    requires Usable(g, hop) && hop.edge.toNode == v && hop.src in rank
    requires !Under(g, s, prev, rank, hop.src, v)
    ensures Tree(g, s, prev[v := hop], rank')
  {
    hide Tree, Under;
    if v in rank {
      rank' := HangOld(g, s, prev, rank, v, hop);
    } else {
      HangNew(g, s, prev, rank, v, hop);
      rank' := rank[v := rank[hop.src] + 1];
    }
  }

  /** One relaxation keeps the links a tree, consistent potential or not. */
  lemma RelaxTree(g: Network, h: int -> real, s: int, st: State, rank: map<int, nat>, u: int, e: Edge)
    returns (rank': map<int, nat>)
    requires Sound(g, h, s, st) && NonNegative(g)
    requires Tree(g, s, st.prev, rank) && u in st.dist && e in Out(g, u)
    ensures Tree(g, s, Relax(g, h, st, u, st.dist[u], e).prev, rank')
  {
    rank' := rank;
    var st' := Relax(g, h, st, u, st.dist[u], e);
    if st' != st {
      if Under(g, s, st.prev, rank, u, e.toNode) {
        AncestorsAreCheaper(g, h, s, st, rank, u, e.toNode);
        assert false;
      }
      rank' := Rehang(g, s, st.prev, rank, e.toNode, Hop(u, e));
    }
  }

  /** What the links spell out costs no more than the search believes. */
  lemma {:induction false} TreePathCost(g: Network, h: int -> real, s: int, st: State, rank: map<int, nat>, v: int)
    requires Sound(g, h, s, st) && Tree(g, s, st.prev, rank) && v in rank
    ensures v in st.dist && Cost(g, TreePath(g, s, st.prev, rank, v)) <= st.dist[v]
    ensures Exact(g, h, s, st) ==> Cost(g, TreePath(g, s, st.prev, rank, v)) == st.dist[v]
    decreases rank[v]
  {
    if v != s {
      var u := st.prev[v].src;
      assert Linked(g, st, v);
      assert Exact(g, h, s, st) ==> ExactLink(g, st, v);
      TreePathCost(g, h, s, st, rank, u);
      TreePathIsPath(g, s, st.prev, rank, u);
      IsPathSnoc(g, s, TreePath(g, s, st.prev, rank, u), st.prev[v]);
    }
  }
}
