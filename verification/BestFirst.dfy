/**
 Dijkstra and A* of backend/app/routing/graph.py over a network with live costs.

 `heapq` is a multiset from which a least entry is taken; which of two equal
 entries goes first cannot be observed.
 */
module BestFirst {
  import opened Wrappers
  import opened Paths
  import opened Search

  /** Between two iterations of either search. */
  ghost predicate Resting(g: Network, h: int -> real, s: int, st: State, rank: map<int, nat>) {
    && Sound(g, h, s, st) && Tree(g, s, st.prev, rank)
    && Expanded(g, st, st.settled)
    && (Consistent(g, h) ==> Exact(g, h, s, st) && Tight(g, st, st.settled))
  }

  /** `u` was settled last, and its first `i` edges have been relaxed. */
  ghost predicate Expanding(g: Network, h: int -> real, s: int, st: State, rank: map<int, nat>, u: int, i: nat) {
    && Sound(g, h, s, st) && Tree(g, s, st.prev, rank)
    && u in st.settled && u in st.dist && i <= |Out(g, u)|
    && Expanded(g, st, st.settled - {u})
    && (forall j :: 0 <= j < i ==> Fits(g, st, u, Out(g, u)[j]))
    && (Consistent(g, h) ==>
          && Exact(g, h, s, st) && Tight(g, st, st.settled - {u})
          && forall w :: w in st.settled ==> w in st.dist && st.dist[w] + h(w) <= st.dist[u] + h(u))
  }

  function Start(h: int -> real, s: int): State {
    State(map[s := 0.0], map[], {}, multiset{Entry(h(s), 0.0, s)})
  }

  lemma StartRests(g: Network, h: int -> real, s: int)
    ensures Resting(g, h, s, Start(h, s), map[s := 0])
  {
  }

  /** A least entry of a node not yet settled starts that node's expansion. */
  lemma SettleExpands(g: Network, h: int -> real, s: int, st: State, rank: map<int, nat>, m: Entry)
    requires Resting(g, h, s, st, rank) && IsMin(st.heap, m) && m.node !in st.settled
    ensures Expanding(g, h, s, Settle(st, m), rank, m.node, 0)
    ensures m.cost == st.dist[m.node]
  {
    var st' := Settle(st, m);
    PopSound(g, h, s, st, m);
    PopIsCurrent(g, h, s, st, m);
    assert st'.settled - {m.node} == st.settled;
    KeepsExpanded(g, st, st', st.settled);
    if Consistent(g, h) {
      PopExact(g, h, s, st, m);
      KeepsTight(g, st, st', st.settled);
      assert Backed(h, st, m);
      forall w | w in st'.settled ensures w in st'.dist && st'.dist[w] + h(w) <= st'.dist[m.node] + h(m.node) {
        if w in st.settled {
          assert Below(h, st, w, m);
        }
      }
    }
  }

  lemma SkipRests(g: Network, h: int -> real, s: int, st: State, rank: map<int, nat>, m: Entry)
    requires Resting(g, h, s, st, rank) && IsMin(st.heap, m) && m.node in st.settled
    ensures Resting(g, h, s, Settle(st, m), rank)
  {
    var st' := Settle(st, m);
    PopSound(g, h, s, st, m);
    assert st'.settled == st.settled;
    KeepsExpanded(g, st, st', st.settled);
    if Consistent(g, h) {
      PopExact(g, h, s, st, m);
      KeepsTight(g, st, st', st.settled);
    }
  }

  ghost predicate NoDearer(before: map<int, real>, after: map<int, real>) {
    forall w :: w in before ==> w in after && after[w] <= before[w]
  }

  lemma RelaxExpands(g: Network, h: int -> real, s: int, st: State, rank: map<int, nat>, u: int, i: nat)
    returns (rank': map<int, nat>)
    requires NonNegative(g) && Expanding(g, h, s, st, rank, u, i) && i < |Out(g, u)|
    ensures Expanding(g, h, s, Relax(g, h, st, u, st.dist[u], Out(g, u)[i]), rank', u, i + 1)
    ensures Relax(g, h, st, u, st.dist[u], Out(g, u)[i]).dist[u] == st.dist[u]
    ensures NoDearer(st.dist, Relax(g, h, st, u, st.dist[u], Out(g, u)[i]).dist)
  {
    var e := Out(g, u)[i];
    var st' := Relax(g, h, st, u, st.dist[u], e);
    RelaxFrame(g, h, s, st, u, e);
    RelaxSound(g, h, s, st, u, e);
    rank' := RelaxTree(g, h, s, st, rank, u, e);
    KeepsExpanded(g, st, st', st.settled - {u});
    forall j | 0 <= j < i + 1 ensures Fits(g, st', u, Out(g, u)[j]) {
      if j < i {
        assert Fits(g, st, u, Out(g, u)[j]);
      }
    }
    if Consistent(g, h) {
      RelaxExact(g, h, s, st, u, e);
      forall w | w in st.settled ensures w in st'.dist && st'.dist[w] == st.dist[w] {
        RelaxSpares(g, h, s, st, u, e, w);
      }
      KeepsTight(g, st, st', st.settled - {u});
    }
  }

  lemma ExpandedRests(g: Network, h: int -> real, s: int, st: State, rank: map<int, nat>, u: int)
    requires Expanding(g, h, s, st, rank, u, |Out(g, u)|)
    ensures Resting(g, h, s, st, rank)
  {
  }

  lemma ReachedIsNode(g: Network, h: int -> real, s: int, st: State, v: int)
    requires Sound(g, h, s, st) && Closed(g) && v in st.dist
    ensures v in g.adj.Keys + {s}
  {
    assert Linked(g, st, v);
  }

  // ----- Dijkstra ------------------------------------------------------------------

  const Zero: int -> real := _ => 0.0

  ghost predicate Wanted(targets: Option<set<int>>, v: int) {
    targets.Some? && targets.value != {} ==> v in targets.value
  }

  ghost predicate Within(maxCost: Option<real>, c: real) {
    maxCost.Some? ==> c <= maxCost.value
  }

  /** `prev` spells out, for every node in `dist`, a real path of exactly that cost. */
  ghost predicate Spans(g: Network, s: int, dist: map<int, real>, prev: map<int, Hop>, rank: map<int, nat>) {
    && Tree(g, s, prev, rank) && dist.Keys == rank.Keys
    && forall v | v in dist :: Cost(g, TreePath(g, s, prev, rank, v)) == dist[v]
  }

  /** Every wanted node within the cutoff has been settled. */
  ghost predicate Complete(g: Network, s: int, targets: Option<set<int>>, maxCost: Option<real>, settled: set<int>) {
    forall v, p :: IsPath(g, s, v, p) && Wanted(targets, v) && Within(maxCost, Cost(g, p)) ==> v in settled
  }

  ghost predicate Farthest(t: int, dist: map<int, real>, settled: set<int>) {
    t in dist && forall u :: u in settled && u in dist ==> dist[u] <= dist[t]
  }

  ghost predicate WithinBut(last: int, maxCost: Option<real>, dist: map<int, real>, settled: set<int>) {
    forall u :: u in settled && u in dist && u != last ==> Within(maxCost, dist[u])
  }

  /**
   The search stops as soon as it may: nothing is settled beyond the farthest target once
   all are settled, and at most one node beyond the cutoff.
   */
  ghost predicate Frugal(targets: Option<set<int>>, maxCost: Option<real>, dist: map<int, real>, settled: set<int>) {
    && (targets.Some? && targets.value != {} && targets.value <= settled ==>
          exists t :: t in targets.value && Farthest(t, dist, settled))
    && exists last :: WithinBut(last, maxCost, dist, settled)
  }

  /** What is beyond the cutoff is so by its last road only. */
  ghost predicate LastRoadOver(g: Network, maxCost: Option<real>, dist: map<int, real>, prev: map<int, Hop>) {
    forall v :: v in prev ==>
      && v in dist && prev[v].src in dist && Within(maxCost, dist[prev[v].src])
      && dist[v] == dist[prev[v].src] + CostOf(g, prev[v].edge)
  }

  lemma ZeroConsistent(g: Network)
    requires NonNegative(g)
    ensures Consistent(g, Zero)
  {
  }

  lemma ExhaustedIsComplete(g: Network, s: int, targets: Option<set<int>>, maxCost: Option<real>,
                            st: State, rank: map<int, nat>)
    requires Resting(g, Zero, s, st, rank) && st.heap == multiset{}
    ensures Complete(g, s, targets, maxCost, st.settled)
  {
    ExhaustedClosesAll(g, Zero, s, st, rank);
  }

  lemma TargetsAreComplete(g: Network, s: int, targets: Option<set<int>>, maxCost: Option<real>, settled: set<int>)
    requires targets.Some? && {} != targets.value <= settled
    ensures Complete(g, s, targets, maxCost, settled)
  {
  }

  /** Once a node beyond the cutoff comes up, every path within it ends in a settled node. */
  lemma CutoffIsComplete(g: Network, s: int, targets: Option<set<int>>, maxCost: real,
                         st: State, rank: map<int, nat>, m: Entry)
    requires NonNegative(g) && Resting(g, Zero, s, st, rank) && IsMin(st.heap, m)
    requires maxCost < m.cost
    ensures Complete(g, s, targets, Some(maxCost), Settle(st, m).settled)
  {
    ZeroConsistent(g);
    assert Backed(Zero, st, m);
    forall x | x in st.dist && x !in st.settled ensures maxCost < st.dist[x] {
      assert Queued(Zero, st, x);
      assert Leq(m, Entry(st.dist[x] + Zero(x), st.dist[x], x));
    }
    forall v, p | IsPath(g, s, v, p) && Cost(g, p) <= maxCost ensures v in st.settled {
      FrontierBounds(g, Zero, s, st, v, p);
    }
  }

  lemma SettledAreDistances(g: Network, s: int, st: State, rank: map<int, nat>)
    requires Sound(g, Zero, s, st) && Tree(g, s, st.prev, rank) && Exact(g, Zero, s, st)
    ensures Spans(g, s, st.dist, st.prev, rank)
    ensures forall u :: u in st.settled ==> u in st.dist && IsDistance(g, s, u, st.dist[u])
  {
    forall v | v in st.dist
      ensures v in rank && Cost(g, TreePath(g, s, st.prev, rank, v)) == st.dist[v]
      ensures IsPath(g, s, v, TreePath(g, s, st.prev, rank, v))
    {
      TreePathCost(g, Zero, s, st, rank, v);
      TreePathIsPath(g, s, st.prev, rank, v);
    }
    forall u | u in st.settled ensures u in st.dist && IsDistance(g, s, u, st.dist[u]) {
      assert Final(g, s, st, u);
      assert IsPath(g, s, u, TreePath(g, s, st.prev, rank, u));
    }
  }

  method PopMin(heap: multiset<Entry>) returns (m: Entry, rest: multiset<Entry>)
    requires heap != multiset{}
    ensures IsMin(heap, m) && rest == heap - multiset{m}
  {
    MinExists(heap);
    m :| m in heap && forall x | x in heap :: Leq(m, x);
    rest := heap - multiset{m};
  }

  /** Relaxing `e`, an edge of `u` settled at cost `d`, in place. */
  method RelaxEdge(g: Network, h: int -> real, ghost st: State, dist0: map<int, real>, prev0: map<int, Hop>,
                   heap0: multiset<Entry>, u: int, d: real, e: Edge)
    returns (dist: map<int, real>, prev: map<int, Hop>, heap: multiset<Entry>)
    requires st.dist == dist0 && st.prev == prev0 && st.heap == heap0
    ensures State(dist, prev, st.settled, heap) == Relax(g, h, st, u, d, e)
  {
    dist, prev, heap := dist0, prev0, heap0;
    var c := g.cost(e);
    if c == None {
      return;
    }
    var nd := d + c.value;
    if e.toNode !in dist || nd < dist[e.toNode] {
      dist := dist[e.toNode := nd];
      prev := prev[e.toNode := Hop(u, e)];
      heap := heap + multiset{Entry(nd + h(e.toNode), nd, e.toNode)};
    }
  }

  /** The first `i` edges of `u` relaxed in turn. */
  function Relaxed(g: Network, h: int -> real, st: State, u: int, d: real, i: nat): State
    requires i <= |Out(g, u)|
  {
    if i == 0 then st else Relax(g, h, Relaxed(g, h, st, u, d, i - 1), u, d, Out(g, u)[i - 1])
  }

  /** The inner loop of both searches: relax every edge of `u`, just settled at cost `d`. */
  method Expand(g: Network, h: int -> real, ghost s: int, dist0: map<int, real>, prev0: map<int, Hop>,
                ghost settled: set<int>, heap0: multiset<Entry>, u: int, d: real, ghost rank0: map<int, nat>)
    returns (dist: map<int, real>, prev: map<int, Hop>, heap: multiset<Entry>, ghost rank: map<int, nat>)
    requires NonNegative(g)
    requires Expanding(g, h, s, State(dist0, prev0, settled, heap0), rank0, u, 0) && dist0[u] == d
    ensures Resting(g, h, s, State(dist, prev, settled, heap), rank) && NoDearer(dist0, dist)
    ensures State(dist, prev, settled, heap)
         == Relaxed(g, h, State(dist0, prev0, settled, heap0), u, d, |Out(g, u)|)
  {
    hide Relax, Tight, Expanded, Consistent, Exact, Tree;
    dist, prev, heap, rank := dist0, prev0, heap0, rank0;
    var es := Out(g, u);
    for i := 0 to |es|
      invariant Expanding(g, h, s, State(dist, prev, settled, heap), rank, u, i)
      invariant State(dist, prev, settled, heap) == Relaxed(g, h, State(dist0, prev0, settled, heap0), u, d, i)
      invariant dist[u] == d && NoDearer(dist0, dist)
    {
      ghost var before := State(dist, prev, settled, heap);
      rank := RelaxExpands(g, h, s, before, rank, u, i);
      dist, prev, heap := RelaxEdge(g, h, before, dist, prev, heap, u, d, es[i]);
    }
    ExpandedRests(g, h, s, State(dist, prev, settled, heap), rank, u);
  }

  /** What a search hands back: true distances, real paths, nothing wanted missing, nothing needless. */
  ghost predicate Answers(g: Network, s: int, targets: Option<set<int>>, maxCost: Option<real>,
                          dist: map<int, real>, prev: map<int, Hop>, settled: set<int>, rank: map<int, nat>) {
    && Spans(g, s, dist, prev, rank) && settled <= dist.Keys
    && (forall u :: u in settled ==> IsDistance(g, s, u, dist[u]))
    && Complete(g, s, targets, maxCost, settled)
    && Frugal(targets, maxCost, dist, settled) && LastRoadOver(g, maxCost, dist, prev)
  }

  /** The targets not yet settled, if there are any to look for. */
  ghost predicate StillWanted(targets: Option<set<int>>, remaining: Option<set<int>>, settled: set<int>) {
    && remaining.Some? == (targets.Some? && targets.value != {})
    && (remaining.Some? ==> remaining.value == targets.value - settled)
  }

  ghost predicate Seeking(g: Network, s: int, targets: Option<set<int>>, maxCost: Option<real>,
                          remaining: Option<set<int>>, st: State, rank: map<int, nat>) {
    && Resting(g, Zero, s, st, rank)
    && StillWanted(targets, remaining, st.settled) && (remaining.Some? ==> remaining.value != {})
    && forall u :: u in st.settled && u in st.dist ==> Within(maxCost, st.dist[u])
  }

  /** Nodes are settled in order of their distance. */
  lemma SettledInOrder(g: Network, s: int, st: State, rank: map<int, nat>, m: Entry)
    requires NonNegative(g) && Resting(g, Zero, s, st, rank) && IsMin(st.heap, m) && m.node !in st.settled
    ensures var now := Settle(st, m);
            && Expanding(g, Zero, s, now, rank, m.node, 0) && m.cost == now.dist[m.node]
            && Spans(g, s, now.dist, now.prev, rank) && now.settled <= now.dist.Keys
            && (forall u :: u in now.settled ==> IsDistance(g, s, u, now.dist[u]))
            && Farthest(m.node, now.dist, now.settled)
  {
    hide Tight, Expanded, IsMin, IsDistance, Tree;
    ZeroConsistent(g);
    SettleExpands(g, Zero, s, st, rank, m);
    SettledAreDistances(g, s, Settle(st, m), rank);
  }

  /** Links come from nodes that have been expanded, and those are within the cutoff. */
  lemma SeekingIsLastRoadOver(g: Network, s: int, targets: Option<set<int>>, maxCost: Option<real>,
                              remaining: Option<set<int>>, st: State, rank: map<int, nat>)
    requires NonNegative(g) && Seeking(g, s, targets, maxCost, remaining, st, rank)
    ensures LastRoadOver(g, maxCost, st.dist, st.prev)
  {
    ZeroConsistent(g);
    hide Sound, Tree, Expanded, Tight, StillWanted;
    forall v | v in st.prev
      ensures v in st.dist && st.prev[v].src in st.dist && Within(maxCost, st.dist[st.prev[v].src])
      ensures st.dist[v] == st.dist[st.prev[v].src] + CostOf(g, st.prev[v].edge)
    {
      assert ExactLink(g, st, v);
    }
  }

  lemma TargetsAnswer(g: Network, s: int, targets: Option<set<int>>, maxCost: Option<real>,
                      remaining: Option<set<int>>, st: State, rank: map<int, nat>, m: Entry)
    requires NonNegative(g) && Seeking(g, s, targets, maxCost, remaining, st, rank)
    requires IsMin(st.heap, m) && m.node !in st.settled
    requires StillWanted(targets, Some({}), st.settled + {m.node})
    ensures Answers(g, s, targets, maxCost, st.dist, st.prev, st.settled + {m.node}, rank)
  {
    SeekingIsLastRoadOver(g, s, targets, maxCost, remaining, st, rank);
    hide Resting, Spans, IsDistance, Expanding, Complete, IsMin, LastRoadOver;
    SettledInOrder(g, s, st, rank, m);
    TargetsAreComplete(g, s, targets, maxCost, st.settled + {m.node});
    assert m.node in targets.value;
    assert WithinBut(m.node, maxCost, st.dist, st.settled + {m.node});
  }

  lemma CutoffAnswers(g: Network, s: int, targets: Option<set<int>>, maxCost: real,
                      remaining: Option<set<int>>, st: State, rank: map<int, nat>, m: Entry)
    requires NonNegative(g) && Seeking(g, s, targets, Some(maxCost), remaining, st, rank)
    requires IsMin(st.heap, m) && m.node !in st.settled && maxCost < m.cost
    requires remaining.Some? ==> remaining.value - {m.node} != {}
    ensures Answers(g, s, targets, Some(maxCost), st.dist, st.prev, st.settled + {m.node}, rank)
  {
    hide Spans, IsDistance, Expanding, Complete, Resting, LastRoadOver, NonNegative, IsMin;
    SeekingIsLastRoadOver(g, s, targets, Some(maxCost), remaining, st, rank);
    SettledInOrder(g, s, st, rank, m);
    CutoffIsComplete(g, s, targets, maxCost, st, rank, m);
    if targets.Some? && targets.value != {} {
      SomeMember(remaining.value - {m.node});
    }
    assert WithinBut(m.node, Some(maxCost), st.dist, st.settled + {m.node});
  }

  lemma ExhaustionAnswers(g: Network, s: int, targets: Option<set<int>>, maxCost: Option<real>,
                          remaining: Option<set<int>>, st: State, rank: map<int, nat>)
    requires NonNegative(g) && Seeking(g, s, targets, maxCost, remaining, st, rank) && st.heap == multiset{}
    ensures Answers(g, s, targets, maxCost, st.dist, st.prev, st.settled, rank)
  {
    SeekingIsLastRoadOver(g, s, targets, maxCost, remaining, st, rank);
    hide Spans, IsDistance, Complete, Tight, Expanded, LastRoadOver;
    ZeroConsistent(g);
    ExhaustedIsComplete(g, s, targets, maxCost, st, rank);
    SettledAreDistances(g, s, st, rank);
    if targets.Some? && targets.value != {} {
      SomeMember(remaining.value);
    }
    assert WithinBut(s, maxCost, st.dist, st.settled);
  }

  lemma SkipSeeks(g: Network, s: int, targets: Option<set<int>>, maxCost: Option<real>,
                  remaining: Option<set<int>>, st: State, rank: map<int, nat>, m: Entry)
    requires Seeking(g, s, targets, maxCost, remaining, st, rank) && IsMin(st.heap, m) && m.node in st.settled
    ensures Settle(st, m) == st.(heap := st.heap - multiset{m})
    ensures Seeking(g, s, targets, maxCost, remaining, Settle(st, m), rank)
  {
    hide Resting;
    SkipRests(g, Zero, s, st, rank, m);
    assert st.settled + {m.node} == st.settled;
  }

  /** An expansion goes on seeking: costs only fall, and what was settled stays so. */
  lemma ExpansionSeeks(g: Network, s: int, targets: Option<set<int>>, maxCost: Option<real>,
                       remaining: Option<set<int>>, before: map<int, real>, st: State, rank: map<int, nat>, u: int)
    requires Resting(g, Zero, s, st, rank) && NoDearer(before, st.dist)
    requires u in st.settled && st.settled <= before.Keys
    requires StillWanted(targets, remaining, st.settled) && (remaining.Some? ==> remaining.value != {})
    requires forall w :: w in st.settled && w != u ==> Within(maxCost, before[w])
    requires Within(maxCost, before[u])
    ensures Seeking(g, s, targets, maxCost, remaining, st, rank)
  {
    hide Resting;
  }

  lemma SettlingReachesNode(g: Network, s: int, st: State, rank: map<int, nat>, m: Entry)
    requires NonNegative(g) && Closed(g) && Resting(g, Zero, s, st, rank) && IsMin(st.heap, m) && m.node !in st.settled
    ensures m.node in g.adj.Keys + {s}
  {
    SettleExpands(g, Zero, s, st, rank, m);
    ReachedIsNode(g, Zero, s, st, m.node);
  }

  lemma StartSeeks(g: Network, s: int, targets: Option<set<int>>, maxCost: Option<real>)
    ensures Seeking(g, s, targets, maxCost, if targets.Some? && targets.value != {} then Some(targets.value) else None,
                    State(map[s := 0.0], map[], {}, multiset{Entry(0.0, 0.0, s)}), map[s := 0])
  {
    hide Resting;
    StartRests(g, Zero, s);
  }

  /** What settling the least entry gives the expansion that follows. */
  lemma SettlingSeeks(g: Network, s: int, targets: Option<set<int>>, maxCost: Option<real>,
                      remaining: Option<set<int>>, st: State, rank: map<int, nat>, m: Entry)
    requires NonNegative(g) && Closed(g) && Seeking(g, s, targets, maxCost, remaining, st, rank)
    requires IsMin(st.heap, m) && m.node !in st.settled
    ensures m.node in g.adj.Keys + {s}
    ensures Expanding(g, Zero, s, State(st.dist, st.prev, st.settled + {m.node}, st.heap - multiset{m}),
                      rank, m.node, 0)
    ensures m.node in st.dist && st.dist[m.node] == m.cost
    ensures StillWanted(targets, remaining, st.settled)
  {
    hide Resting, Expanding, Spans, IsDistance, Farthest, IsMin;
    SettledInOrder(g, s, st, rank, m);
    SettlingReachesNode(g, s, st, rank, m);
    hide NonNegative, Closed;
  }

  /** After the expansion the search goes on. */
  lemma ExpandedSeeks(g: Network, s: int, targets: Option<set<int>>, maxCost: Option<real>, wanted: Option<set<int>>,
                      st: State, rank: map<int, nat>, u: int, remaining: Option<set<int>>,
                      st': State, rank': map<int, nat>)
    requires Seeking(g, s, targets, maxCost, wanted, st, rank) && u in st.dist && u !in st.settled
    requires st'.settled == st.settled + {u} && Resting(g, Zero, s, st', rank') && NoDearer(st.dist, st'.dist)
    requires remaining.Some? == wanted.Some?
    requires (remaining.Some? ==> remaining.value == wanted.value - {u} && remaining.value != {})
    requires Within(maxCost, st.dist[u])
    ensures Seeking(g, s, targets, maxCost, remaining, st', rank')
  {
    SettledIsReached(g, s, st, rank);
    hide Resting, NoDearer;
    ExpansionSeeks(g, s, targets, maxCost, remaining, st.dist, st', rank', u);
  }

  lemma SettledIsReached(g: Network, s: int, st: State, rank: map<int, nat>)
    requires Resting(g, Zero, s, st, rank)
    ensures st.settled <= st.dist.Keys
  {
  }

  /** One-to-many search. Whatever stops it, it gives true distances, real paths and all that was wanted. */
  method Dijkstra(g: Network, source: int, targets: Option<set<int>>, maxCost: Option<real>)
    returns (dist: map<int, real>, prev: map<int, Hop>, settled: set<int>, ghost rank: map<int, nat>)
    requires NonNegative(g) && Closed(g)
    ensures Spans(g, source, dist, prev, rank)
    ensures settled <= dist.Keys && forall u :: u in settled ==> IsDistance(g, source, u, dist[u])
    ensures Complete(g, source, targets, maxCost, settled)
    ensures Frugal(targets, maxCost, dist, settled) && LastRoadOver(g, maxCost, dist, prev)
  {
    hide Resting, Seeking, Spans, IsDistance, Complete, Frugal, LastRoadOver, Relaxed, Expanding, Tree, IsMin;
    dist, prev, settled := map[source := 0.0], map[], {};
    var remaining := if targets.Some? && targets.value != {} then Some(targets.value) else None;
    var heap := multiset{Entry(0.0, 0.0, source)};
    rank := map[source := 0];
    StartSeeks(g, source, targets, maxCost);
    while heap != multiset{}
      invariant Seeking(g, source, targets, maxCost, remaining, State(dist, prev, settled, heap), rank)
      decreases g.adj.Keys + {source} - settled, |heap|
    {
      ghost var st := State(dist, prev, settled, heap);
      var m;
      m, heap := PopMin(heap);
      var d, u := m.cost, m.node;
      if u in settled {
        SkipSeeks(g, source, targets, maxCost, remaining, st, rank, m);
        continue;
      }
      SettlingSeeks(g, source, targets, maxCost, remaining, st, rank, m);
      settled := settled + {u};
      ghost var wanted, rank0 := remaining, rank;
      if remaining.Some? {
        remaining := Some(remaining.value - {u});
        if remaining.value == {} {
          TargetsAnswer(g, source, targets, maxCost, wanted, st, rank, m);
          return;
        }
      }
      if maxCost.Some? && maxCost.value < d {
        CutoffAnswers(g, source, targets, maxCost.value, wanted, st, rank, m);
        return;
      }
      dist, prev, heap, rank := Expand(g, Zero, source, dist, prev, settled, heap, u, d, rank);
      ExpandedSeeks(g, source, targets, maxCost, wanted, st, rank0, u,
                    remaining, State(dist, prev, settled, heap), rank);
    }
    ExhaustionAnswers(g, source, targets, maxCost, remaining, State(dist, prev, settled, heap), rank);
  }

  ghost predicate IsClosest(n: int, among: set<int>, dist: map<int, real>) {
    n in dist && forall m :: m in among && m in dist ==> dist[n] <= dist[m]
  }

  /** The closest of the safe nodes that a search has reached. */
  method Nearest(safe: set<int>, dist: map<int, real>) returns (best: Option<int>)
    ensures best.None? ==> safe !! dist.Keys
    ensures best.Some? ==> best.value in safe && IsClosest(best.value, safe, dist)
  {
    best := None;
    var rest := safe;
    while rest != {}
      invariant rest <= safe
      invariant best.None? ==> (safe - rest) !! dist.Keys
      invariant best.Some? ==> best.value in safe && IsClosest(best.value, safe - rest, dist)
      decreases rest
    {
      SomeMember(rest);
      var n :| n in rest;
      rest := rest - {n};
      if n in dist && (best.None? || dist[n] < dist[best.value]) {
        best := Some(n);
      }
    }
  }

  // ----- A* --------------------------------------------------------------------------

  /** One turn of the A* loop that neither ends it nor reopens a node. */
  ghost predicate Turn(g: Network, h: int -> real, target: int, st: State, m: Entry, st': State) {
    && IsMin(st.heap, m)
    && if m.node in st.settled then st' == Settle(st, m)
       else m.node != target && st' == Relaxed(g, h, Settle(st, m), m.node, m.cost, |Out(g, m.node)|)
  }

  /** `st` is where A* stands after `n` turns. */
  ghost predicate Turns(g: Network, h: int -> real, source: int, target: int, n: nat, st: State) {
    if n == 0 then st == Start(h, source)
    else exists before, m :: Turns(g, h, source, target, n - 1, before) && Turn(g, h, target, before, m, st)
  }

  /** A* comes to `target` after `n` turns, with `st` before it. */
  ghost predicate Arrives(g: Network, h: int -> real, source: int, target: int, n: nat, st: State, m: Entry) {
    Turns(g, h, source, target, n, st) && IsMin(st.heap, m) && m.node == target && target !in st.settled
  }

  /** `p` is the route that the links spell out when A* comes to `target`. */
  ghost predicate Finds(g: Network, h: int -> real, source: int, target: int, p: seq<Hop>) {
    exists n, st, m, rank ::
      && Arrives(g, h, source, target, n, st, m)
      && Tree(g, source, st.prev, rank) && target in rank && p == TreePath(g, source, st.prev, rank, target)
  }

  lemma NoTurns(g: Network, h: int -> real, source: int, target: int)
    ensures Turns(g, h, source, target, 0, Start(h, source))
  {
  }

  lemma SkippedTurn(g: Network, h: int -> real, source: int, target: int, n: nat, st: State, m: Entry)
    requires Turns(g, h, source, target, n, st) && IsMin(st.heap, m) && m.node in st.settled
    ensures Turns(g, h, source, target, n + 1, Settle(st, m))
  {
    hide Settle, IsMin;
    assert Turn(g, h, target, st, m, Settle(st, m));
  }

  lemma ExpandedTurn(g: Network, h: int -> real, source: int, target: int, n: nat, st: State, m: Entry)
    requires Turns(g, h, source, target, n, st) && IsMin(st.heap, m) && m.node !in st.settled && m.node != target
    ensures Turns(g, h, source, target, n + 1, Relaxed(g, h, Settle(st, m), m.node, m.cost, |Out(g, m.node)|))
  {
    hide Settle, IsMin, Relaxed;
    assert Turn(g, h, target, st, m, Relaxed(g, h, Settle(st, m), m.node, m.cost, |Out(g, m.node)|));
  }

  lemma OneMin(heap: multiset<Entry>, m: Entry, m': Entry)
    requires IsMin(heap, m) && IsMin(heap, m')
    ensures m == m'
  {
  }

  lemma {:induction false} TurnsAreDetermined(g: Network, h: int -> real, source: int, target: int, n: nat,
                                              st: State, st': State)
    requires Turns(g, h, source, target, n, st) && Turns(g, h, source, target, n, st')
    ensures st == st'
  {
    hide Settle, IsMin, Relaxed;
    if n > 0 {
      var b, m :| Turns(g, h, source, target, n - 1, b) && Turn(g, h, target, b, m, st);
      var b', m' :| Turns(g, h, source, target, n - 1, b') && Turn(g, h, target, b', m', st');
      hide Turns;
      TurnsAreDetermined(g, h, source, target, n - 1, b, b');
      OneMin(b.heap, m, m');
    }
  }

  /** A* arrives once, at one state. */
  lemma {:induction false} ArrivalIsDetermined(g: Network, h: int -> real, source: int, target: int,
                                               n: nat, st: State, m: Entry, n': nat, st': State, m': Entry)
    requires Arrives(g, h, source, target, n, st, m) && Arrives(g, h, source, target, n', st', m') && n <= n'
    ensures n == n' && st == st'
  {
    if n == n' {
      TurnsAreDetermined(g, h, source, target, n, st, st');
    } else {
      NoTurnAfterArrival(g, h, source, target, n, st, m, n', st');
    }
  }

  lemma {:induction false} NoTurnAfterArrival(g: Network, h: int -> real, source: int, target: int,
                                              n: nat, st: State, m: Entry, n': nat, st': State)
    requires Arrives(g, h, source, target, n, st, m) && n < n' && Turns(g, h, source, target, n', st')
    ensures false
    decreases n'
  {
    hide Settle, IsMin, Relaxed;
    var b, m' :| Turns(g, h, source, target, n' - 1, b) && Turn(g, h, target, b, m', st');
    hide Turns;
    if n < n' - 1 {
      NoTurnAfterArrival(g, h, source, target, n, st, m, n' - 1, b);
    } else {
      TurnsAreDetermined(g, h, source, target, n, st, b);
      OneMin(b.heap, m, m');
    }
  }

  /**
   Point-to-point search with a closed set and no reopening. With any heuristic it
   finds a real route exactly when one exists; with a consistent one the route it
   finds is a cheapest one, and every node was closed at its true distance.
   */
  method AStar(g: Network, h: int -> real, source: int, target: int)
    returns (found: bool, prev: map<int, Hop>, closed: set<int>, ghost rank: map<int, nat>)
    requires NonNegative(g) && Closed(g)
    ensures found <==> Reachable(g, source, target)
    ensures Tree(g, source, prev, rank)
    ensures found ==> target in rank && target in closed
    ensures found ==> Finds(g, h, source, target, TreePath(g, source, prev, rank, target))
    ensures Consistent(g, h) ==> forall v :: v in closed ==>
              v in rank && IsDistance(g, source, v, Cost(g, TreePath(g, source, prev, rank, v)))
  {
    hide Turns, Relaxed, Expanded, Tight, Exact;
    var dist := map[source := 0.0];
    prev, closed := map[], {};
    var heap := multiset{Entry(h(source), 0.0, source)};
    rank := map[source := 0];
    StartRests(g, h, source);
    ghost var n := 0;
    NoTurns(g, h, source, target);
    while heap != multiset{}
      invariant Resting(g, h, source, State(dist, prev, closed, heap), rank)
      invariant Turns(g, h, source, target, n, State(dist, prev, closed, heap))
      invariant target !in closed
      decreases g.adj.Keys + {source} - closed, |heap|
    {
      ghost var st := State(dist, prev, closed, heap);
      var m;
      m, heap := PopMin(heap);
      var gu, u := m.cost, m.node;
      assert State(dist, prev, closed + {u}, heap) == Settle(st, m);
      if u in closed {
        SkipRests(g, h, source, st, rank, m);
        assert closed + {u} == closed;
        SkippedTurn(g, h, source, target, n, st, m);
        n := n + 1;
        continue;
      }
      SettleExpands(g, h, source, st, rank, m);
      ReachedIsNode(g, h, source, st, u);
      closed := closed + {u};
      if u == target {
        ClosedAreDistances(g, h, source, State(dist, prev, closed, heap), rank);
        assert Arrives(g, h, source, target, n, st, m);
        return true, prev, closed, rank;
      }
      dist, prev, heap, rank := Expand(g, h, source, dist, prev, closed, heap, u, gu, rank);
      ExpandedTurn(g, h, source, target, n, st, m);
      n := n + 1;
    }
    found := false;
    ClosedAreDistances(g, h, source, State(dist, prev, closed, heap), rank);
    ExhaustedClosesAll(g, h, source, State(dist, prev, closed, heap), rank);
  }

  lemma ExhaustedClosesAll(g: Network, h: int -> real, s: int, st: State, rank: map<int, nat>)
    requires Resting(g, h, s, st, rank) && st.heap == multiset{}
    ensures forall v :: Reachable(g, s, v) ==> v in st.settled
  {
    forall x | x in st.dist ensures x in st.settled {
      assert Queued(h, st, x);
    }
    forall v, p | IsPath(g, s, v, p) ensures v in st.settled {
      FrontierReached(g, s, st, v, p);
    }
  }

  lemma ClosedAreDistances(g: Network, h: int -> real, s: int, st: State, rank: map<int, nat>)
    requires Sound(g, h, s, st) && Tree(g, s, st.prev, rank)
    ensures forall v :: v in st.settled ==>
              v in rank && IsPath(g, s, v, TreePath(g, s, st.prev, rank, v))
    ensures Exact(g, h, s, st) ==> forall v :: v in st.settled ==>
              v in rank && IsDistance(g, s, v, Cost(g, TreePath(g, s, st.prev, rank, v)))
  {
    forall v | v in st.settled
      ensures v in rank && IsPath(g, s, v, TreePath(g, s, st.prev, rank, v))
      ensures Exact(g, h, s, st) ==> IsDistance(g, s, v, Cost(g, TreePath(g, s, st.prev, rank, v)))
    {
      TreePathCost(g, h, s, st, rank, v);
      TreePathIsPath(g, s, st.prev, rank, v);
      if Exact(g, h, s, st) {
        assert Final(g, s, st, v);
      }
    }
  }
}
