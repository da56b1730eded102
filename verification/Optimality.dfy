/**
 How much dearer than the cheapest the route of A* can be, for any heuristic, and exactly when the
 default heuristic of backend/app/routing/graph.py makes every route a cheapest one.
 */
module Optimality {
  import opened Wrappers
  import opened Paths
  import opened Search
  import opened BestFirst
  import opened Overlay

  // ----- a bound that needs no consistency ----------------------------------------------------

  /** The cost of a route if every hop cost at least what the potential drops along it. */
  ghost function Padded(g: Network, h: int -> real, p: seq<Hop>): real {
    if p == [] then 0.0
    else
      var last := p[|p| - 1];
      Padded(g, h, p[..|p| - 1]) + Max(CostOf(g, last.edge), h(last.src) - h(last.edge.toNode))
  }

  /** No path to `w` is cheaper, padded, than what the search has for `w`. */
  ghost predicate NearAt(g: Network, h: int -> real, s: int, st: State, w: int) {
    w in st.dist && forall p :: IsPath(g, s, w, p) ==> st.dist[w] <= Padded(g, h, p)
  }

  /** Nor is any that goes on over `e`, for the node that `e` leads to. */
  ghost predicate SpreadAt(g: Network, h: int -> real, s: int, st: State, w: int, e: Edge) {
    g.cost(e).Some? ==>
      && e.toNode in st.dist
      && forall p :: IsPath(g, s, w, p) ==> st.dist[e.toNode] <= Padded(g, h, p) + g.cost(e).value
  }

  ghost predicate Near(g: Network, h: int -> real, s: int, st: State) {
    && (forall w :: w in st.settled ==> NearAt(g, h, s, st, w))
    && (forall w, e :: w in st.settled && e in Out(g, w) ==> SpreadAt(g, h, s, st, w, e))
  }

  /** A path to a node not settled crosses an open one whose key is no more than the padded cost allows. */
  lemma {:induction false} Crossing(g: Network, h: int -> real, s: int, st: State, v: int, p: seq<Hop>)
    requires Rooted(s, st) && Near(g, h, s, st) && IsPath(g, s, v, p)
    ensures || v in st.settled
            || exists x :: x in st.dist && x !in st.settled && st.dist[x] + h(x) <= Padded(g, h, p) + h(v)
    decreases |p|
  {
    if v !in st.settled {
      if p == [] {
        assert s in st.dist && st.dist[s] + h(s) <= Padded(g, h, p) + h(v);
      } else {
        var last, q := p[|p| - 1], p[..|p| - 1];
        Crossing(g, h, s, st, last.src, q);
        if last.src in st.settled {
          assert SpreadAt(g, h, s, st, last.src, last.edge);
          assert v in st.dist && st.dist[v] + h(v) <= Padded(g, h, p) + h(v);
        } else {
          var x :| x in st.dist && x !in st.settled && st.dist[x] + h(x) <= Padded(g, h, q) + h(last.src);
          assert st.dist[x] + h(x) <= Padded(g, h, p) + h(v);
        }
      }
    }
  }

  /** Hence the least entry is near as well. */
  lemma PopIsNear(g: Network, h: int -> real, s: int, st: State, m: Entry)
    requires Sound(g, h, s, st) && Near(g, h, s, st) && IsMin(st.heap, m) && m.node !in st.settled
    ensures NearAt(g, h, s, st, m.node) && m.cost == st.dist[m.node]
  {
    PopIsCurrent(g, h, s, st, m);
    assert Backed(h, st, m);
    forall p | IsPath(g, s, m.node, p) ensures st.dist[m.node] <= Padded(g, h, p) {
      Crossing(g, h, s, st, m.node, p);
      var x :| x in st.dist && x !in st.settled && st.dist[x] + h(x) <= Padded(g, h, p) + h(m.node);
      assert Queued(h, st, x);
      assert Leq(m, Entry(st.dist[x] + h(x), st.dist[x], x));
    }
  }

  /** Relaxing lowers costs only, and leaves no edge relaxed with a better offer. */
  lemma {:induction false} RelaxedOffers(g: Network, h: int -> real, st: State, u: int, d: real, i: nat)
    requires i <= |Out(g, u)|
    ensures var st' := Relaxed(g, h, st, u, d, i);
            && st'.settled == st.settled && NoDearer(st.dist, st'.dist)
            && forall j :: 0 <= j < i && g.cost(Out(g, u)[j]).Some? ==>
                 var e := Out(g, u)[j]; e.toNode in st'.dist && st'.dist[e.toNode] <= d + g.cost(e).value
  {
    if i > 0 {
      RelaxedOffers(g, h, st, u, d, i - 1);
    }
  }

  lemma NearLater(g: Network, h: int -> real, s: int, st: State, st': State, w: int)
    requires NearAt(g, h, s, st, w) && NoDearer(st.dist, st'.dist)
    ensures NearAt(g, h, s, st', w)
  {
  }

  lemma SpreadLater(g: Network, h: int -> real, s: int, st: State, st': State, w: int, e: Edge)
    requires SpreadAt(g, h, s, st, w, e) && NoDearer(st.dist, st'.dist)
    ensures SpreadAt(g, h, s, st', w, e)
  {
  }

  lemma SpreadNow(g: Network, h: int -> real, s: int, st: State, st': State, u: int, e: Edge)
    requires NearAt(g, h, s, st, u)
    requires g.cost(e).Some? ==> e.toNode in st'.dist && st'.dist[e.toNode] <= st.dist[u] + g.cost(e).value
    ensures SpreadAt(g, h, s, st', u, e)
  {
  }

  /** One turn of the loop keeps everything near. */
  lemma TurnKeepsNear(g: Network, h: int -> real, s: int, t: int, st: State, m: Entry, st': State)
    requires Sound(g, h, s, st) && Near(g, h, s, st) && Turn(g, h, t, st, m, st')
    ensures Near(g, h, s, st')
  {
    var u := m.node;
    if u !in st.settled {
      PopIsNear(g, h, s, st, m);
      RelaxedOffers(g, h, Settle(st, m), u, m.cost, |Out(g, u)|);
    }
    assert st'.settled == st.settled + {u} && NoDearer(st.dist, st'.dist);
    hide NearAt, SpreadAt, Sound, IsMin, Relaxed, NoDearer;
    forall w | w in st'.settled ensures NearAt(g, h, s, st', w) {
      NearLater(g, h, s, st, st', w);
    }
    forall w, e | w in st'.settled && e in Out(g, w) ensures SpreadAt(g, h, s, st', w, e) {
      if w in st.settled {
        SpreadLater(g, h, s, st, st', w, e);
      } else {
        var j :| 0 <= j < |Out(g, u)| && Out(g, u)[j] == e;
        SpreadNow(g, h, s, st, st', u, e);
      }
    }
  }

  lemma {:induction false} RelaxedExpands(g: Network, h: int -> real, s: int, st: State, rank: map<int, nat>, u: int,
                                          i: nat)
    returns (rank': map<int, nat>)
    requires NonNegative(g) && u in st.dist && Expanding(g, h, s, st, rank, u, 0) && i <= |Out(g, u)|
    ensures Expanding(g, h, s, Relaxed(g, h, st, u, st.dist[u], i), rank', u, i)
    ensures Relaxed(g, h, st, u, st.dist[u], i).dist[u] == st.dist[u]
  {
    hide Expanding, Relax, NonNegative;
    rank' := rank;
    if i > 0 {
      rank' := RelaxedExpands(g, h, s, st, rank, u, i - 1);
      var before := Relaxed(g, h, st, u, st.dist[u], i - 1);
      hide Relaxed;
      rank' := RelaxExpands(g, h, s, before, rank', u, i - 1);
      RelaxedNext(g, h, st, u, st.dist[u], i);
    }
  }

  lemma RelaxedNext(g: Network, h: int -> real, st: State, u: int, d: real, i: nat)
    requires 0 < i <= |Out(g, u)|
    ensures Relaxed(g, h, st, u, d, i) == Relax(g, h, Relaxed(g, h, st, u, d, i - 1), u, d, Out(g, u)[i - 1])
  {
  }

  lemma TurnRests(g: Network, h: int -> real, s: int, t: int, st: State, rank: map<int, nat>, m: Entry, st': State)
    returns (rank': map<int, nat>)
    requires NonNegative(g) && Resting(g, h, s, st, rank) && Turn(g, h, t, st, m, st')
    ensures Resting(g, h, s, st', rank')
  {
    hide Resting, IsMin, Relaxed;
    if m.node in st.settled {
      SkipRests(g, h, s, st, rank, m);
      rank' := rank;
    } else {
      SettleExpands(g, h, s, st, rank, m);
      rank' := RelaxedExpands(g, h, s, Settle(st, m), rank, m.node, |Out(g, m.node)|);
      ExpandedRests(g, h, s, st', rank', m.node);
    }
  }

  /** Wherever A* stands, it is at rest, with everything settled near. */
  lemma {:induction false} TurnsKeepNear(g: Network, h: int -> real, s: int, t: int, n: nat, st: State)
    returns (rank: map<int, nat>)
    requires NonNegative(g) && Turns(g, h, s, t, n, st)
    ensures Resting(g, h, s, st, rank) && Near(g, h, s, st)
  {
    hide Turns, Turn, Near, Resting, Start;
    if n == 0 {
      NoTurn(g, h, s, t, st);
      StartsNear(g, h, s);
      rank := map[s := 0];
    } else {
      var before, m := LastTurn(g, h, s, t, n, st);
      rank := TurnsKeepNear(g, h, s, t, n - 1, before);
      RestingIsSound(g, h, s, before, rank);
      TurnKeepsNear(g, h, s, t, before, m, st);
      rank := TurnRests(g, h, s, t, before, rank, m, st);
    }
  }

  lemma NoTurn(g: Network, h: int -> real, s: int, t: int, st: State)
    requires Turns(g, h, s, t, 0, st)
    ensures st == Start(h, s)
  {
  }

  lemma LastTurn(g: Network, h: int -> real, s: int, t: int, n: nat, st: State) returns (before: State, m: Entry)
    requires n > 0 && Turns(g, h, s, t, n, st)
    ensures Turns(g, h, s, t, n - 1, before) && Turn(g, h, t, before, m, st)
  {
    hide Turn;
    before, m :| Turns(g, h, s, t, n - 1, before) && Turn(g, h, t, before, m, st);
  }

  lemma StartsNear(g: Network, h: int -> real, s: int)
    ensures Resting(g, h, s, Start(h, s), map[s := 0]) && Near(g, h, s, Start(h, s))
  {
    StartRests(g, h, s);
  }

  lemma RestingIsSound(g: Network, h: int -> real, s: int, st: State, rank: map<int, nat>)
    requires Resting(g, h, s, st, rank)
    ensures Sound(g, h, s, st)
  {
    hide Sound;
  }

  /** `c` is no more than any route would cost if drops had to be paid for. */
  ghost predicate WithinPadding(g: Network, h: int -> real, s: int, t: int, c: real) {
    forall q :: IsPath(g, s, t, q) ==> c <= Padded(g, h, q)
  }

  /** Whatever the heuristic, the route of A* is within the padding. */
  lemma FoundWithinPadding(g: Network, h: int -> real, s: int, t: int, p: seq<Hop>)
    requires NonNegative(g) && Finds(g, h, s, t, p)
    ensures IsPath(g, s, t, p) && WithinPadding(g, h, s, t, Cost(g, p))
  {
    var n, st, m, rank :|
      Arrives(g, h, s, t, n, st, m) && Tree(g, s, st.prev, rank) && t in rank && p == TreePath(g, s, st.prev, rank, t);
    var _ := TurnsKeepNear(g, h, s, t, n, st);
    hide Turns, Near, Tree, TreePath;
    PopIsNear(g, h, s, st, m);
    TreePathCost(g, h, s, st, rank, t);
    TreePathIsPath(g, s, st.prev, rank, t);
  }

  lemma {:induction false} PaddingIsCost(g: Network, h: int -> real, s: int, t: int, p: seq<Hop>)
    requires Consistent(g, h) && IsPath(g, s, t, p)
    ensures Padded(g, h, p) == Cost(g, p)
    decreases |p|
  {
    if p != [] {
      var last := p[|p| - 1];
      PaddingIsCost(g, h, s, last.src, p[..|p| - 1]);
      assert h(last.src) <= g.cost(last.edge).value + h(t);
    }
  }

  /** With a consistent heuristic there is nothing to pay for: the route is a cheapest one. */
  lemma FoundIsCheapest(g: Network, h: int -> real, s: int, t: int, p: seq<Hop>)
    requires NonNegative(g) && Consistent(g, h) && Finds(g, h, s, t, p)
    ensures IsDistance(g, s, t, Cost(g, p))
  {
    hide Finds;
    FoundWithinPadding(g, h, s, t, p);
    forall q | IsPath(g, s, t, q) ensures Cost(g, p) <= Cost(g, q) {
      PaddingIsCost(g, h, s, t, q);
    }
  }

  // ----- the default heuristic ------------------------------------------------------------------

  /** The road leaves the map: from a node with coordinates to one without. */
  predicate LeavesMap(o: Live, hop: Hop) {
    hop.src in o.coords && hop.edge.toNode !in o.coords
  }

  /** What the roads of a route that leave the map cost less than the estimate they drop. */
  ghost function Drops(o: Live, hav: (Coord, Coord) -> real, t: int, p: seq<Hop>): real {
    if p == [] then 0.0
    else
      var last := p[|p| - 1];
      Drops(o, hav, t, p[..|p| - 1])
      + if LeavesMap(o, last) then Max(0.0, Heuristic(o, hav, last.src, t) - CostOf(View(o), last.edge)) else 0.0
  }

  /** Elsewhere the default heuristic never drops by more than a road costs. */
  lemma HopDrop(o: Live, hav: (Coord, Coord) -> real, t: int, hop: Hop)
    requires WellFormed(o) && Metric(hav) && Straight(o, hav) && Usable(View(o), hop)
    ensures var c, h := CostOf(View(o), hop.edge), Towards(o, hav, t);
            Max(c, h(hop.src) - h(hop.edge.toNode))
              == c + if LeavesMap(o, hop) then Max(0.0, Heuristic(o, hav, hop.src, t) - c) else 0.0
  {
    var u, v := hop.src, hop.edge.toNode;
    ViewIsSearchable(o);
    HeuristicNonNegative(o, hav, v, t);
    if t in o.coords && u in o.coords && v in o.coords {
      LocatedStepConsistent(o, hav, t, u, hop.edge);
    }
    hide EdgeCost, WellFormed, Metric, Straight;
  }

  lemma {:induction false} PaddingIsDrops(o: Live, hav: (Coord, Coord) -> real, s: int, t: int, v: int, p: seq<Hop>)
    requires WellFormed(o) && Metric(hav) && Straight(o, hav) && IsPath(View(o), s, v, p)
    ensures Padded(View(o), Towards(o, hav, t), p) == Cost(View(o), p) + Drops(o, hav, t, p)
    decreases |p|
  {
    if p != [] {
      hide WellFormed, Metric, Straight, View, Towards, LeavesMap;
      var last := p[|p| - 1];
      PaddingIsDrops(o, hav, s, t, last.src, p[..|p| - 1]);
      HopDrop(o, hav, t, last);
    }
  }

  /** `c` is no more than any route costs and what its roads that leave the map drop too cheaply. */
  ghost predicate WithinDrops(o: Live, hav: (Coord, Coord) -> real, s: int, t: int, c: real) {
    forall q :: IsPath(View(o), s, t, q) ==> c <= Cost(View(o), q) + Drops(o, hav, t, q)
  }

  lemma PaddedIsWithinDrops(o: Live, hav: (Coord, Coord) -> real, s: int, t: int, c: real)
    requires WellFormed(o) && Metric(hav) && Straight(o, hav) && WithinPadding(View(o), Towards(o, hav, t), s, t, c)
    ensures WithinDrops(o, hav, s, t, c)
  {
    hide WellFormed, Metric, Straight, View, Towards;
    forall q | IsPath(View(o), s, t, q) ensures c <= Cost(View(o), q) + Drops(o, hav, t, q) {
      PaddingIsDrops(o, hav, s, t, t, q);
    }
  }

  /** With the default heuristic the route of A* is within the drops, consistent or not. */
  lemma FoundWithinDrops(o: Live, hav: (Coord, Coord) -> real, s: int, t: int, p: seq<Hop>)
    requires WellFormed(o) && Metric(hav) && Straight(o, hav) && Finds(View(o), Towards(o, hav, t), s, t, p)
    ensures WithinDrops(o, hav, s, t, Cost(View(o), p))
  {
    hide WellFormed, Metric, Straight, Finds, View, Towards, WithinPadding, WithinDrops;
    ViewIsSearchable(o);
    FoundWithinPadding(View(o), Towards(o, hav, t), s, t, p);
    PaddedIsWithinDrops(o, hav, s, t, Cost(View(o), p));
  }

  // ----- when it is always right ------------------------------------------------------------------

  /** `o'` is a sound network with the roads of `o`, and perhaps more out of nodes without coordinates. */
  ghost predicate GrownOffMap(o: Live, o': Live) {
    && o' == o.(adj := o'.adj) && WellFormed(o')
    && (forall u :: u in o.coords ==> Out(View(o'), u) == Out(View(o), u))
    && (forall u, e :: e in Out(View(o), u) ==> e in Out(View(o'), u))
  }

  /** From any source, and whatever roads there are off the map, the route found is a cheapest one. */
  ghost predicate AlwaysCheapest(o: Live, hav: (Coord, Coord) -> real, t: int) {
    forall o', s, p :: GrownOffMap(o, o') && Finds(View(o'), Towards(o', hav, t), s, t, p) ==>
      IsDistance(View(o'), s, t, Cost(View(o'), p))
  }

  /** What is true of the roads out of located nodes stays true. */
  lemma GrowthKeepsGuards(o: Live, o': Live, hav: (Coord, Coord) -> real, t: int)
    requires GrownOffMap(o, o') && Straight(o, hav) && NoCheapDrop(o, hav, t)
    ensures Straight(o', hav) && NoCheapDrop(o', hav, t)
  {
    hide EdgeCost, WellFormed;
    forall u, e | u in o'.adj && e in o'.adj[u] && u in o.coords ensures u in o.adj && e in o.adj[u] {
      assert Out(View(o'), u) == Out(View(o), u);
    }
    forall e ensures EdgeCost(o', e) == EdgeCost(o, e) {
      SamePrice(o, o', e);
    }
  }

  lemma GuardedIsCheapest(o: Live, hav: (Coord, Coord) -> real, t: int)
    requires Metric(hav) && Straight(o, hav) && NoCheapDrop(o, hav, t)
    ensures AlwaysCheapest(o, hav, t)
  {
    hide Metric, Straight, NoCheapDrop, Finds, IsDistance, Consistent, WellFormed;
    forall o', s, p | GrownOffMap(o, o') && Finds(View(o'), Towards(o', hav, t), s, t, p)
      ensures IsDistance(View(o'), s, t, Cost(View(o'), p))
    {
      GrowthKeepsGuards(o, o', hav, t);
      hide View, Towards;
      HeuristicConsistency(o', hav, t);
      ViewIsSearchable(o');
      FoundIsCheapest(View(o'), Towards(o', hav, t), s, t, p);
    }
  }

  // ----- a cheap drop misleads ----------------------------------------------------------------------

  lemma {:induction false} Above(s: set<int>) returns (n: int)
    ensures forall x :: x in s ==> x < n
    decreases s
  {
    if s == {} {
      n := 0;
    } else {
      SomeMember(s);
      var x :| x in s;
      var m := Above(s - {x});
      n := if m <= x then x + 1 else m;
      forall y | y in s ensures y < n {
        assert y == x || y in s - {x};
      }
    }
  }

  /** A road on foot, off the map, that takes so many seconds. */
  function Track(id: int, toNode: int, seconds: real): Edge {
    Edge(id, toNode, seconds / 3.6, 1.0, 0, [])
  }

  lemma TrackCost(o: Live, id: int, toNode: int, seconds: real)
    requires id !in o.roadState
    ensures EdgeCost(o, Track(id, toNode, seconds)) == Some(seconds)
  {
    assert BaseTime(Track(id, toNode, seconds)) == seconds;
  }

  /**
   A start `s` off the map with a track to `t` and one, of no length, to `u`; and one, of no length,
   from `x` to `t`.
   */
  function Lure(o: Live, s: int, u: int, x: int, t: int, id: int, seconds: real): Live {
    o.(adj := o.adj[t := Out(View(o), t)]
                   [x := Out(View(o), x) + [Track(id, t, 0.0)]]
                   [s := [Track(id, u, 0.0), Track(id, t, seconds)]])
  }

  /** A road out of `u` that leaves the map for `x` at `c` seconds, dropping an estimate of more. */
  ghost predicate CheapDrop(o: Live, hav: (Coord, Coord) -> real, t: int, u: int, e: Edge) {
    && t in o.coords && u in o.adj && e in o.adj[u] && u in o.coords && e.toNode !in o.coords
    && EdgeCost(o, e).Some? && EdgeCost(o, e).value < Heuristic(o, hav, u, t)
  }

  lemma LureIsGrown(o: Live, s: int, u: int, x: int, t: int, id: int, seconds: real)
    requires WellFormed(o) && u in o.adj && x in o.adj && x !in o.coords && t in o.coords && 0.0 <= seconds
    requires s !in o.adj && s !in o.coords
    ensures GrownOffMap(o, Lure(o, s, u, x, t, id, seconds))
  {
    var o' := Lure(o, s, u, x, t, id, seconds);
    forall v | v in o'.adj ensures GoodEdges(o'.adj.Keys, o'.maxSpeedKph, o'.adj[v]) {
      if v in o.adj {
        assert GoodEdges(o.adj.Keys, o.maxSpeedKph, o.adj[v]);
      }
    }
    hide GoodEdges;
    forall v, e | e in Out(View(o), v) ensures e in Out(View(o'), v) {
    }
  }

  /** What A* sees of the lure. */
  ghost predicate Lures(g: Network, h: int -> real, s: int, u: int, t: int, near: Edge, far: Edge, seconds: real) {
    && Out(g, s) == [near, far] && near.toNode == u && far.toNode == t && s != u && s != t && u != t
    && g.cost(near) == Some(0.0) && g.cost(far) == Some(seconds)
    && h(s) == 0.0 && h(t) == 0.0 && 0.0 < seconds < h(u)
  }

  lemma LureIsTaken(g: Network, h: int -> real, s: int, u: int, t: int, near: Edge, far: Edge, seconds: real)
    requires Lures(g, h, s, u, t, near, far, seconds)
    ensures Finds(g, h, s, t, [Hop(s, far)]) && Cost(g, [Hop(s, far)]) == seconds
  {
    var first := Entry(h(s), 0.0, s);
    var left := State(map[s := 0.0, u := 0.0, t := seconds], map[u := Hop(s, near), t := Hop(s, far)], {s},
                      multiset{Entry(h(u), 0.0, u), Entry(seconds, seconds, t)});
    LeavingForLure(g, h, s, u, t, near, far, seconds);
    NoTurns(g, h, s, t);
    assert IsMin(Start(h, s).heap, first) && Turn(g, h, t, Start(h, s), first, left);
    assert Turns(g, h, s, t, 1, left);
    assert Arrives(g, h, s, t, 1, left, Entry(seconds, seconds, t));
    var rank := map[s := 0, u := 1, t := 1];
    assert Tree(g, s, left.prev, rank);
    assert TreePath(g, s, left.prev, rank, s) == [];
    assert TreePath(g, s, left.prev, rank, t) == [Hop(s, far)];
    assert [Hop(s, far)][..0] == [];
  }

  lemma LeavingForLure(g: Network, h: int -> real, s: int, u: int, t: int, near: Edge, far: Edge, seconds: real)
    requires Lures(g, h, s, u, t, near, far, seconds)
    ensures Relaxed(g, h, Settle(Start(h, s), Entry(h(s), 0.0, s)), s, 0.0, 2)
         == State(map[s := 0.0, u := 0.0, t := seconds], map[u := Hop(s, near), t := Hop(s, far)], {s},
                  multiset{Entry(h(u), 0.0, u), Entry(seconds, seconds, t)})
  {
    var st := Settle(Start(h, s), Entry(h(s), 0.0, s));
    assert st == State(map[s := 0.0], map[], {s}, multiset{});
    var one := State(map[s := 0.0, u := 0.0], map[u := Hop(s, near)], {s}, multiset{Entry(h(u), 0.0, u)});
    assert Relaxed(g, h, st, s, 0.0, 0) == st;
    assert Relaxed(g, h, st, s, 0.0, 1) == one;
  }

  lemma DropMisleads(o: Live, hav: (Coord, Coord) -> real, t: int, u: int, e: Edge)
    requires WellFormed(o) && Metric(hav) && CheapDrop(o, hav, t, u, e)
    ensures !AlwaysCheapest(o, hav, t)
  {
    var c, x := EdgeCost(o, e).value, e.toNode;
    var seconds := (c + Heuristic(o, hav, u, t)) / 2.0;
    EndsAreNodes(o, u, e);
    var s := Above(o.adj.Keys + o.coords.Keys);
    var id := Above(o.roadState.Keys);
    var o' := Lure(o, s, u, x, t, id, seconds);
    var near, far, last := Track(id, u, 0.0), Track(id, t, seconds), Track(id, t, 0.0);
    CostIsNotNegative(o, u, e);
    LureIsGrown(o, s, u, x, t, id, seconds);
    TrackCost(o', id, u, 0.0);
    TrackCost(o', id, t, seconds);
    TrackCost(o', id, t, 0.0);
    SamePrice(o, o', e);
    NoDistance(o, hav, t);
    var g, h := View(o'), Towards(o', hav, t);
    hide EdgeCost, WellFormed, Metric, Track;
    assert Lures(g, h, s, u, t, near, far, seconds);
    LureIsTaken(g, h, s, u, t, near, far, seconds);
    ThroughTheDrop(g, s, u, x, t, near, e, last, c);
    hide Lure, Finds, IsPath;
    assert !IsDistance(g, s, t, seconds);
  }

  lemma CostIsNotNegative(o: Live, u: int, e: Edge)
    requires WellFormed(o) && u in o.adj && e in o.adj[u] && EdgeCost(o, e).Some?
    ensures 0.0 <= EdgeCost(o, e).value
  {
    ViewIsSearchable(o);
    assert e in Out(View(o), u) && View(o).cost(e).Some?;
  }

  /** The route over the drop. */
  lemma ThroughTheDrop(g: Network, s: int, u: int, x: int, t: int, near: Edge, e: Edge, last: Edge, c: real)
    requires near in Out(g, s) && near.toNode == u && g.cost(near) == Some(0.0)
    requires e in Out(g, u) && e.toNode == x && g.cost(e) == Some(c)
    requires last in Out(g, x) && last.toNode == t && g.cost(last) == Some(0.0)
    ensures exists q :: IsPath(g, s, t, q) && Cost(g, q) == c
  {
    var one, two := [Hop(s, near)], [Hop(s, near), Hop(u, e)];
    assert IsPath(g, s, s, []) && Cost(g, []) == 0.0;
    IsPathSnoc(g, s, [], Hop(s, near));
    assert [] + [Hop(s, near)] == one;
    IsPathSnoc(g, s, one, Hop(u, e));
    assert one + [Hop(u, e)] == two;
    IsPathSnoc(g, s, two, Hop(x, last));
  }

  /**
   The documentation guarantees that A* with the default heuristic is optimal. It is so from every
   source, whatever roads there are among the nodes without coordinates, if and only if no usable
   road leaves the map for less than the estimate it drops.
   */
  lemma CheapestExactly(o: Live, hav: (Coord, Coord) -> real, t: int)
    requires WellFormed(o) && Metric(hav) && Straight(o, hav)
    ensures AlwaysCheapest(o, hav, t) <==> NoCheapDrop(o, hav, t)
  {
    hide AlwaysCheapest, WellFormed, Metric, Straight, EdgeCost, Heuristic;
    if NoCheapDrop(o, hav, t) {
      GuardedIsCheapest(o, hav, t);
    } else {
      var u, e :| u in o.adj && e in o.adj[u] && u in o.coords && e.toNode !in o.coords && EdgeCost(o, e).Some?
                  && !(Heuristic(o, hav, u, t) <= EdgeCost(o, e).value);
      DropMisleads(o, hav, t, u, e);
    }
  }
}
