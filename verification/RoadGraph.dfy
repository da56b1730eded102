/** The RoadGraph class of backend/app/routing/graph.py. */
module RoadGraphs {
  import opened Wrappers
  import opened Paths
  import opened Overlay
  import Search
  import BestFirst
  import Optimality

  datatype RouteResult = RouteResult(origin: int, destination: int, nodePath: seq<int>, roadIds: seq<int>,
                                     distanceM: real, travelTimeS: real, hazardExposure: real,
                                     algorithm: string, settledNodes: nat, infeasibleReason: Option<string>)
  {
    predicate Feasible() { infeasibleReason.None? }
  }

  const DIJKSTRA := "dijkstra_hazard_weighted_v1"
  const ASTAR := "astar_hazard_weighted_v1"

  // ----- what a route result says about a path ------------------------------------------

  ghost function Nodes(p: seq<Hop>, target: int): seq<int> {
    seq(|p|, i requires 0 <= i < |p| => p[i].src) + [target]
  }

  ghost function Length(p: seq<Hop>): real {
    if p == [] then 0.0 else Length(p[..|p| - 1]) + p[|p| - 1].edge.lengthM
  }

  /** The part of the time on a road that counts as spent in hazard. */
  function EdgeHazardTime(o: Live, e: Edge): real {
    CostOf(View(o), e) * EdgeHazard(o, e)
  }

  ghost function HazardTime(o: Live, p: seq<Hop>): real {
    if p == [] then 0.0
    else
      var e := p[|p| - 1].edge;
      HazardTime(o, p[..|p| - 1]) + EdgeHazardTime(o, e)
  }

  /** `r` reports the route `p` from `source` to `target`, priced under the overlay `o`. */
  ghost predicate Reports(o: Live, source: int, target: int, p: seq<Hop>, r: RouteResult) {
    && r.Feasible() && r.origin == source && r.destination == target
    && r.nodePath == Nodes(p, target) && r.roadIds == Roads(p)
    && r.distanceM == Length(p) && r.travelTimeS == Cost(View(o), p)
    && r.hazardExposure == Exposure(o, p)
  }

  /** The share of the travel time that is hazard time. */
  ghost function Exposure(o: Live, p: seq<Hop>): real {
    if Cost(View(o), p) != 0.0 then HazardTime(o, p) / Cost(View(o), p) else 0.0
  }

  lemma {:induction false} HazardTimeBounded(o: Live, s: int, t: int, p: seq<Hop>)
    requires WellFormed(o) && IsPath(View(o), s, t, p)
    ensures 0.0 <= HazardTime(o, p) <= Cost(View(o), p)
    decreases |p|
  {
    if p != [] {
      var last := p[|p| - 1];
      HazardTimeBounded(o, s, last.src, p[..|p| - 1]);
      EdgeHazardTimeBounded(o, last);
      hide View, EdgeHazardTime, WellFormed;
    }
  }

  lemma EdgeHazardTimeBounded(o: Live, hop: Hop)
    requires WellFormed(o) && Usable(View(o), hop)
    ensures 0.0 <= EdgeHazardTime(o, hop.edge) <= CostOf(View(o), hop.edge)
  {
    ViewIsSearchable(o);
    var c, hz := CostOf(View(o), hop.edge), EdgeHazard(o, hop.edge);
    assert 0.0 <= c;
    hide View, EdgeHazard, WellFormed;
    MulNonNeg(c, hz);
    MulNonNeg(c, 1.0 - hz);
  }

  /** Exposure is a proportion of the travel time. */
  lemma ExposureIsProportion(o: Live, s: int, t: int, p: seq<Hop>, r: RouteResult)
    requires WellFormed(o) && IsPath(View(o), s, t, p) && Reports(o, s, t, p, r)
    ensures 0.0 <= r.hazardExposure <= 1.0 && 0.0 <= r.travelTimeS
  {
    HazardTimeBounded(o, s, t, p);
    hide HazardTime, Cost, View, WellFormed, IsPath;
    if Cost(View(o), p) != 0.0 {
      ProperShare(HazardTime(o, p), Cost(View(o), p));
    }
  }

  lemma ProperShare(part: real, whole: real)
    requires 0.0 <= part <= whole && whole != 0.0
    ensures 0.0 <= part / whole <= 1.0
  {
  }

  // ----- closing roads ---------------------------------------------------------------------

  /** The overlay with the roads in `closed` reported blocked. */
  ghost function Closing(o: Live, closed: set<int>): Live {
    o.(roadState := o.roadState + (map r | r in closed :: "blocked"))
  }

  /** Closing roads removes exactly their edges and leaves every other price alone. */
  lemma ClosingBlocks(o: Live, closed: set<int>, h: Hop)
    ensures Usable(View(Closing(o, closed)), h) <==> Usable(View(o), h) && h.edge.roadId !in closed
    ensures h.edge.roadId !in closed ==> CostOf(View(Closing(o, closed)), h.edge) == CostOf(View(o), h.edge)
  {
    var o' := Closing(o, closed);
    var e := h.edge;
    assert Out(View(o'), h.src) == Out(View(o), h.src);
    if e.roadId !in closed {
      assert StateOf(o', e.roadId) == StateOf(o, e.roadId);
      SameCost(o, o', e);
    } else {
      assert StateOf(o', e.roadId) == "blocked";
    }
  }

  /** The price of an edge depends on the state of its road only. */
  lemma SameCost(o: Live, o': Live, e: Edge)
    requires o' == o.(roadState := o'.roadState) && StateOf(o', e.roadId) == StateOf(o, e.roadId)
    ensures EdgeCost(o', e) == EdgeCost(o, e)
  {
    SameRisk(o, o', e.cellIds);
    assert EdgeHazard(o', e) == EdgeHazard(o, e);
    assert Congestion(o', e) == Congestion(o, e);
  }

  ghost function RoadSet(p: seq<Hop>): set<int> {
    set i | 0 <= i < |p| :: p[i].edge.roadId
  }

  ghost function AllRoads(routes: seq<seq<Hop>>): set<int> {
    if routes == [] then {} else AllRoads(routes[..|routes| - 1]) + RoadSet(routes[|routes| - 1])
  }

  /** Routes from `source` to safety that are passable in `o` and share no road. */
  ghost predicate DisjointRoutes(o: Live, source: int, safe: set<int>, routes: seq<seq<Hop>>) {
    routes == [] || (
      var rest, last := routes[..|routes| - 1], routes[|routes| - 1];
      && DisjointRoutes(o, source, safe, rest)
      && (exists t :: t in safe && IsPath(View(o), source, t, last))
      && RoadSet(last) !! AllRoads(rest))
  }

  ghost predicate CutOff(o: Live, source: int, safe: set<int>) {
    forall t :: t in safe ==> !Reachable(View(o), source, t)
  }

  /** A path avoiding the closed roads survives their closing, and conversely. */
  lemma PathSurvives(o: Live, closed: set<int>, s: int, t: int, p: seq<Hop>)
    ensures IsPath(View(Closing(o, closed)), s, t, p) <==> IsPath(View(o), s, t, p) && RoadSet(p) !! closed
  {
    var g, g' := View(o), View(Closing(o, closed));
    if IsPath(g', s, t, p) {
      PathIsContiguous(g', s, t, p);
      forall i | 0 <= i < |p| ensures Usable(g, p[i]) && p[i].edge.roadId !in closed {
        ClosingBlocks(o, closed, p[i]);
      }
      PathTransfers(g', g, s, t, p);
    }
    if IsPath(g, s, t, p) && RoadSet(p) !! closed {
      PathIsContiguous(g, s, t, p);
      forall i | 0 <= i < |p| ensures Usable(g', p[i]) {
        ClosingBlocks(o, closed, p[i]);
        assert p[i].edge.roadId in RoadSet(p);
      }
      PathTransfers(g, g', s, t, p);
    }
  }

  /**
   Never more redundancy than exists: any set of roads whose closing cuts the source
   off from safety holds a road of each disjoint route, so it is at least as large.
   */
  lemma {:induction false} RoutesBoundCuts(o: Live, source: int, safe: set<int>, routes: seq<seq<Hop>>, cut: set<int>)
    requires DisjointRoutes(o, source, safe, routes)
    requires CutOff(Closing(o, cut), source, safe)
    ensures |routes| <= |cut * AllRoads(routes)| <= |cut|
    decreases |routes|
  {
    if routes != [] {
      var rest, last := routes[..|routes| - 1], routes[|routes| - 1];
      RoutesBoundCuts(o, source, safe, rest, cut);
      var t :| t in safe && IsPath(View(o), source, t, last);
      hide DisjointRoutes, RoadSet, Closing, View, IsPath;
      var r := CutHitsRoute(o, source, safe, cut, t, last);
      OneMoreHit(cut, AllRoads(rest), RoadSet(last), r);
    }
    CardinalitySubset(cut * AllRoads(routes), cut);
  }

  /** A cut holds a road of every route to safety. */
  lemma CutHitsRoute(o: Live, source: int, safe: set<int>, cut: set<int>, t: int, p: seq<Hop>) returns (r: int)
    requires CutOff(Closing(o, cut), source, safe) && t in safe && IsPath(View(o), source, t, p)
    ensures r in RoadSet(p) && r in cut
  {
    hide RoadSet, Closing, View, IsPath;
    PathSurvives(o, cut, source, t, p);
    assert !Reachable(View(Closing(o, cut)), source, t);
    CommonMember(RoadSet(p), cut);
    r :| r in RoadSet(p) && r in cut;
  }

  lemma OneMoreHit(cut: set<int>, roads: set<int>, more: set<int>, r: int)
    requires roads !! more && r in more && r in cut
    ensures |cut * roads| + 1 <= |cut * (roads + more)|
  {
    assert r !in cut * roads;
    CardinalitySubset(cut * roads + {r}, cut * (roads + more));
  }

  lemma {:induction false} CardinalitySubset(a: set<int>, b: set<int>)
    requires a <= b
    ensures |a| <= |b|
  {
    assert b == a + (b - a);
    assert |b| == |a| + |b - a|;
  }

  // ----- loads --------------------------------------------------------------------------

  function Occurrences(roadIds: seq<int>, r: int): nat {
    if roadIds == [] then 0
    else Occurrences(roadIds[..|roadIds| - 1], r) + (if roadIds[|roadIds| - 1] == r then 1 else 0)
  }

  /** How often a road is on the route, in whatever order. */
  lemma {:induction false} OccurrencesCount(roadIds: seq<int>, r: int)
    ensures Occurrences(roadIds, r) == multiset(roadIds)[r]
  {
    if roadIds != [] {
      OccurrencesCount(roadIds[..|roadIds| - 1], r);
      LastAside(roadIds);
    }
  }

  /** Load changes prices only: every path stays a path. */
  lemma LoadKeepsPaths(o: Live, o': Live, s: int, t: int, p: seq<Hop>)
    requires o' == o.(edgeLoad := o'.edgeLoad)
    requires IsPath(View(o), s, t, p)
    ensures IsPath(View(o'), s, t, p)
  {
    PathIsContiguous(View(o), s, t, p);
    forall i | 0 <= i < |p| ensures Usable(View(o'), p[i]) {
      assert StateOf(o', p[i].edge.roadId) == StateOf(o, p[i].edge.roadId);
    }
    PathTransfers(View(o), View(o'), s, t, p);
  }

  lemma LoadKeepsTree(o: Live, o': Live, s: int, prev: map<int, Hop>, rank: map<int, nat>)
    requires o' == o.(edgeLoad := o'.edgeLoad)
    requires Tree(View(o), s, prev, rank)
    ensures Tree(View(o'), s, prev, rank)
  {
    forall v | v in prev ensures Usable(View(o'), prev[v]) {
      assert StateOf(o', prev[v].edge.roadId) == StateOf(o, prev[v].edge.roadId);
    }
  }

  // ----- adding a road ------------------------------------------------------------------

  ghost function Grown(adj: map<int, seq<Edge>>, a: int, b: int, forth: Edge, back: Edge, oneway: bool,
                       u: int): seq<Edge> {
    (if u in adj then adj[u] else [])
    + (if u == a then [forth] else [])
    + (if u == b && !oneway then [back] else [])
  }

  method Grow(adj0: map<int, seq<Edge>>, a: int, b: int, forth: Edge, back: Edge, oneway: bool)
    returns (adj: map<int, seq<Edge>>)
    ensures adj.Keys == adj0.Keys + {a, b}
    ensures forall u :: u in adj ==> adj[u] == Grown(adj0, a, b, forth, back, oneway, u)
  {
    adj := adj0[a := (if a in adj0 then adj0[a] else []) + [forth]];
    if !oneway {
      adj := adj[b := (if b in adj then adj[b] else []) + [back]];
    }
    if b !in adj {
      adj := adj[b := []];
    }
  }

  lemma GrownIsGood(o: Live, o': Live, a: int, b: int, forth: Edge, back: Edge, oneway: bool)
    requires WellFormed(o)
    requires o' == o.(adj := o'.adj, maxSpeedKph := o'.maxSpeedKph) && o.maxSpeedKph <= o'.maxSpeedKph
    requires o'.adj.Keys == o.adj.Keys + {a, b}
    requires GoodEdge(o'.adj.Keys, o'.maxSpeedKph, forth) && GoodEdge(o'.adj.Keys, o'.maxSpeedKph, back)
    requires forall u :: u in o'.adj ==> o'.adj[u] == Grown(o.adj, a, b, forth, back, oneway, u)
    ensures WellFormed(o')
  {
    forall u | u in o'.adj ensures GoodEdges(o'.adj.Keys, o'.maxSpeedKph, o'.adj[u]) {
      if u in o.adj {
        assert GoodEdges(o.adj.Keys, o.maxSpeedKph, o.adj[u]);
      }
      hide WellFormed;
    }
  }

  // ----- following links back -----------------------------------------------------------

  /** What `_reconstruct` has gathered on the way from `target` back to `cur`. */
  datatype Gathered = Gathered(nodes: seq<int>, roads: seq<int>, distance: real, time: real, hazardTime: real)

  ghost predicate Matches(tail: seq<Hop>, target: int, w: Gathered) {
    && |w.nodes| == |tail| + 1 && |w.roads| == |tail| && w.nodes[0] == target
    && forall i :: 0 <= i < |tail| ==>
         w.roads[|tail| - 1 - i] == tail[i].edge.roadId && w.nodes[|tail| - i] == tail[i].src
  }

  ghost predicate Balanced(o: Live, p: seq<Hop>, q: seq<Hop>, w: Gathered) {
    && Length(q) + w.distance == Length(p)
    && Cost(View(o), q) + w.time == Cost(View(o), p)
    && HazardTime(o, q) + w.hazardTime == HazardTime(o, p)
  }

  function Gather(o: Live, w: Gathered, hop: Hop): Gathered {
    var c := CostOf(View(o), hop.edge);
    Gathered(w.nodes + [hop.src], w.roads + [hop.edge.roadId], w.distance + hop.edge.lengthM,
             w.time + c, w.hazardTime + EdgeHazardTime(o, hop.edge))
  }

  /** Reversing what was gathered, and dividing once. */
  function Finished(source: int, target: int, w: Gathered, algorithm: string, settled: nat): RouteResult
    requires |w.nodes| == |w.roads| + 1
  {
    var n := |w.roads|;
    RouteResult(source, target,
                seq(n + 1, i requires 0 <= i < n + 1 => w.nodes[n - i]),
                seq(n, i requires 0 <= i < n => w.roads[n - 1 - i]),
                w.distance, w.time, if w.time != 0.0 then w.hazardTime / w.time else 0.0,
                algorithm, settled, None)
  }

  lemma GatheredReports(o: Live, source: int, target: int, p: seq<Hop>, w: Gathered, algorithm: string, settled: nat)
    requires Matches(p, target, w) && Balanced(o, p, [], w)
    ensures Reports(o, source, target, p, Finished(source, target, w, algorithm, settled))
  {
  }

  lemma GatherMatches(o: Live, tail: seq<Hop>, target: int, w: Gathered, hop: Hop)
    requires Matches(tail, target, w)
    ensures Matches([hop] + tail, target, Gather(o, w, hop))
  {
  }

  lemma GatherBalances(o: Live, p: seq<Hop>, q: seq<Hop>, w: Gathered)
    requires q != [] && Balanced(o, p, q, w)
    ensures Balanced(o, p, q[..|q| - 1], Gather(o, w, q[|q| - 1]))
  {
  }

  lemma GatherHop(o: Live, p: seq<Hop>, q: seq<Hop>, hop: Hop, target: int, tail: seq<Hop>, w: Gathered)
    requires p == q + [hop] + tail && Matches(tail, target, w) && Balanced(o, p, q + [hop], w)
    ensures p == q + ([hop] + tail)
    ensures Matches([hop] + tail, target, Gather(o, w, hop)) && Balanced(o, p, q, Gather(o, w, hop))
  {
    GatherMatches(o, tail, target, w, hop);
    assert (q + [hop])[..|q|] == q;
    GatherBalances(o, p, q + [hop], w);
  }

  /**
   The links from `target` back to `cur` have been gathered; those below `cur` are still to
   come. The links may be older than the prices: `g` is the network they were found in.
   */
  ghost predicate Gathering(g: Network, o: Live, source: int, prev: map<int, Hop>, rank: map<int, nat>, target: int,
                            cur: int, tail: seq<Hop>, w: Gathered)
    requires Tree(g, source, prev, rank) && target in rank && cur in rank
  {
    var p, q := TreePath(g, source, prev, rank, target), TreePath(g, source, prev, rank, cur);
    p == q + tail && Matches(tail, target, w) && Balanced(o, p, q, w)
  }

  lemma GatherStep(g: Network, o: Live, source: int, prev: map<int, Hop>, rank: map<int, nat>, target: int, cur: int,
                   tail: seq<Hop>, w: Gathered)
    requires Tree(g, source, prev, rank) && target in rank && cur in prev
    requires Gathering(g, o, source, prev, rank, target, cur, tail, w)
    ensures Gathering(g, o, source, prev, rank, target, prev[cur].src, [prev[cur]] + tail, Gather(o, w, prev[cur]))
  {
    var q' := TreePath(g, source, prev, rank, prev[cur].src);
    assert TreePath(g, source, prev, rank, cur) == q' + [prev[cur]];
    GatherHop(o, TreePath(g, source, prev, rank, target), q', prev[cur], target, tail, w);
  }

  lemma GatherDone(g: Network, o: Live, source: int, prev: map<int, Hop>, rank: map<int, nat>, target: int,
                   tail: seq<Hop>, w: Gathered, algorithm: string, settled: nat)
    requires Tree(g, source, prev, rank) && target in rank
    requires Gathering(g, o, source, prev, rank, target, source, tail, w)
    ensures |w.nodes| == |w.roads| + 1
    ensures Reports(o, source, target, TreePath(g, source, prev, rank, target),
                    Finished(source, target, w, algorithm, settled))
  {
    var p := TreePath(g, source, prev, rank, target);
    assert TreePath(g, source, prev, rank, source) == [];
    assert p == tail;
    GatheredReports(o, source, target, p, w, algorithm, settled);
  }

  ghost predicate NoRepeats(nodes: seq<int>) {
    forall i, j :: 0 <= i < j < |nodes| ==> nodes[i] != nodes[j]
  }

  lemma TreeVisitsOnce(g: Network, source: int, prev: map<int, Hop>, rank: map<int, nat>, target: int)
    requires Tree(g, source, prev, rank) && target in rank
    ensures NoRepeats(Nodes(TreePath(g, source, prev, rank, target), target))
  {
    hide TreePath;
    TreePathIsSimple(g, source, prev, rank, target);
  }

  // ----- the class ------------------------------------------------------------------------

  class RoadGraph {
    var adj: map<int, seq<Edge>>
    var coords: map<int, Coord>
    var roadState: map<int, string>
    var cellRisk: map<string, real>
    var edgeLoad: map<int, int>
    const hazardAlpha: real
    const congestionBeta: real
    var maxSpeedKph: real

    function Snapshot(): Live
      reads this
    {
      Live(adj, coords, roadState, cellRisk, edgeLoad, hazardAlpha, congestionBeta, maxSpeedKph)
    }

    ghost predicate Valid()
      reads this
    {
      WellFormed(Snapshot())
    }

    constructor (hazardAlpha: real, congestionBeta: real)
      ensures Snapshot() == Live(map[], map[], map[], map[], map[], hazardAlpha, congestionBeta, 1.0)
      ensures 0.0 <= hazardAlpha && 0.0 <= congestionBeta ==> Valid()
    {
      this.hazardAlpha, this.congestionBeta := hazardAlpha, congestionBeta;
      adj, coords, roadState, cellRisk, edgeLoad, maxSpeedKph := map[], map[], map[], map[], map[], 1.0;
    }

    method AddNode(node: int, lat: real, lon: real)
      modifies `adj, `coords
      ensures old(Valid()) ==> Valid()
      ensures coords == old(coords)[node := (lat, lon)]
      ensures adj == old(adj)[node := Out(View(old(Snapshot())), node)]
    {
      coords := coords[node := (lat, lon)];
      if node !in adj {
        adj := adj[node := []];
      }
    }

    /** Both ends become nodes, and the top speed keeps bounding every road. */
    method AddRoad(roadId: int, a: int, b: int, lengthM: real, freeFlowKph: real,
                   capacityPph: int, cellIds: seq<string>, oneway: bool)
      modifies `adj, `maxSpeedKph
      ensures old(Valid()) && 0.0 <= lengthM && 0 <= capacityPph ==> Valid()
      ensures maxSpeedKph == Max(old(maxSpeedKph), freeFlowKph)
      ensures adj.Keys == old(adj.Keys) + {a, b}
      ensures var forth, back := Edge(roadId, b, lengthM, freeFlowKph, capacityPph, cellIds),
                                 Edge(roadId, a, lengthM, freeFlowKph, capacityPph, cellIds);
              forall u :: u in adj ==> adj[u] == Grown(old(adj), a, b, forth, back, oneway, u)
    {
      ghost var o := Snapshot();
      var forth := Edge(roadId, b, lengthM, freeFlowKph, capacityPph, cellIds);
      var back := Edge(roadId, a, lengthM, freeFlowKph, capacityPph, cellIds);
      var grown := Grow(adj, a, b, forth, back, oneway);
      adj := grown;
      maxSpeedKph := Max(maxSpeedKph, freeFlowKph);
      if WellFormed(o) && 0.0 <= lengthM && 0 <= capacityPph {
        GrownIsGood(o, Snapshot(), a, b, forth, back, oneway);
      }
    }

    method SetRoadState(roadId: int, state: string)
      modifies `roadState
      ensures old(Valid()) ==> Valid()
      ensures roadState == old(roadState)[roadId := state]
    {
      roadState := roadState[roadId := state];
    }

    method SetCellRisk(riskByCell: map<string, real>)
      modifies `cellRisk
      ensures old(Valid()) ==> Valid()
      ensures cellRisk == riskByCell
    {
      cellRisk := riskByCell;
    }

    method ResetLoad()
      modifies `edgeLoad
      ensures old(Valid()) ==> Valid()
      ensures edgeLoad == map[]
    {
      edgeLoad := map[];
    }

    /** A route that takes a road twice loads it twice. */
    method AssignLoad(roadIds: seq<int>, people: int)
      modifies `edgeLoad
      ensures old(Valid()) && 0 <= people ==> Valid()
      ensures forall r :: LoadOf(Snapshot(), r) == LoadOf(old(Snapshot()), r) + people * Occurrences(roadIds, r)
    {
      for i := 0 to |roadIds|
        invariant old(Valid()) && 0 <= people ==> Valid()
        invariant forall r :: LoadOf(Snapshot(), r)
                           == LoadOf(old(Snapshot()), r) + people * Occurrences(roadIds[..i], r)
      {
        ghost var before := Snapshot();
        var rid := roadIds[i];
        edgeLoad := edgeLoad[rid := (if rid in edgeLoad then edgeLoad[rid] else 0) + people];
        assert roadIds[..i + 1][..i] == roadIds[..i];
        forall r
          ensures LoadOf(Snapshot(), r)
               == LoadOf(old(Snapshot()), r) + people * Occurrences(roadIds[..i + 1], r)
        {
          assert LoadOf(Snapshot(), r) == LoadOf(before, r) + (if r == rid then people else 0);
          Distribute(people, Occurrences(roadIds[..i], r), if r == rid then 1 else 0);
        }
      }
      assert roadIds[..|roadIds|] == roadIds;
    }

    static lemma Distribute(a: int, b: int, c: int)
      ensures a * (b + c) == a * b + a * c
    {
    }

    /**
     Follows the links back from `target`; a target without a link is reported infeasible.
     Prices are those of now, even if the search that left the links saw others: a road
     closed since then counts as nought.
     */
    method Reconstruct(source: int, target: int, prev: map<int, Hop>, algorithm: string, settled: nat,
                       ghost g: Network, ghost rank: map<int, nat>)
      returns (r: RouteResult)
      requires Tree(g, source, prev, rank)
      ensures r.algorithm == algorithm && r.settledNodes == settled
      ensures r.Feasible() <==> target in rank
      ensures target in rank ==> Reports(Snapshot(), source, target, TreePath(g, source, prev, rank, target), r)
      ensures NoRepeats(r.nodePath)
    {
      var o := Snapshot();
      if target != source && target !in prev {
        return RouteResult(source, target, [], [], 0.0, 0.0, 0.0, algorithm, settled,
                           Some("path reconstruction failed"));
      }
      var w := Gathered([target], [], 0.0, 0.0, 0.0);
      var cur := target;
      ghost var tail: seq<Hop> := [];
      while cur != source
        invariant cur in rank && Gathering(g, o, source, prev, rank, target, cur, tail, w)
        decreases rank[cur]
      {
        var step := prev[cur];
        GatherStep(g, o, source, prev, rank, target, cur, tail, w);
        w := Gather(o, w, step);
        tail := [step] + tail;
        cur := step.src;
      }
      GatherDone(g, o, source, prev, rank, target, tail, w, algorithm, settled);
      TreeVisitsOnce(g, source, prev, rank, target);
      r := Finished(source, target, w, algorithm, settled);
    }

    method PathFromDijkstra(source: int, target: int, prev: map<int, Hop>, settled: nat,
                            ghost g: Network, ghost rank: map<int, nat>)
      returns (r: RouteResult)
      requires Tree(g, source, prev, rank)
      ensures r.algorithm == DIJKSTRA && r.settledNodes == settled
      ensures r.Feasible() <==> target in rank
      ensures target in rank ==> Reports(Snapshot(), source, target, TreePath(g, source, prev, rank, target), r)
      ensures NoRepeats(r.nodePath)
    {
      if target != source && target !in prev {
        return RouteResult(source, target, [], [], 0.0, 0.0, 0.0, DIJKSTRA, settled,
                           Some("unreachable on the current road network"));
      }
      r := Reconstruct(source, target, prev, DIJKSTRA, settled, g, rank);
    }

    /** One-to-many search on the roads as they are now. */
    method Dijkstra(source: int, targets: Option<set<int>>, maxCost: Option<real>)
      returns (dist: map<int, real>, prev: map<int, Hop>, settled: set<int>, ghost rank: map<int, nat>)
      requires Valid()
      ensures BestFirst.Spans(View(Snapshot()), source, dist, prev, rank)
      ensures settled <= dist.Keys && forall u :: u in settled ==> IsDistance(View(Snapshot()), source, u, dist[u])
      ensures BestFirst.Complete(View(Snapshot()), source, targets, maxCost, settled)
      ensures BestFirst.Frugal(targets, maxCost, dist, settled)
      ensures BestFirst.LastRoadOver(View(Snapshot()), maxCost, dist, prev)
    {
      ViewIsSearchable(Snapshot());
      dist, prev, settled, rank := BestFirst.Dijkstra(View(Snapshot()), source, targets, maxCost);
    }

    /** The potential a call of `AStar` searches with. */
    function Potential(hav: (Coord, Coord) -> real, heuristic: Option<(int, int) -> real>, target: int): int -> real
      reads this
    {
      if heuristic.Some? then (var h := heuristic.value; v => h(v, target))
      else Towards(Snapshot(), hav, target)
    }

    lemma DefaultIsConsistent(hav: (Coord, Coord) -> real, heuristic: Option<(int, int) -> real>, target: int)
      requires Valid()
      ensures heuristic.None? && Metric(hav) && Straight(Snapshot(), hav) && NoCheapDrop(Snapshot(), hav, target) ==>
                Search.Consistent(View(Snapshot()), Potential(hav, heuristic, target))
    {
      if heuristic.None? && Metric(hav) && Straight(Snapshot(), hav) {
        HeuristicConsistency(Snapshot(), hav, target);
      }
    }

    lemma DefaultIsWithinDrops(hav: (Coord, Coord) -> real, heuristic: Option<(int, int) -> real>,
                               source: int, target: int, c: real)
      requires Valid()
      requires Optimality.WithinPadding(View(Snapshot()), Potential(hav, heuristic, target), source, target, c)
      ensures heuristic.None? && Metric(hav) && Straight(Snapshot(), hav) ==>
                Optimality.WithinDrops(Snapshot(), hav, source, target, c)
    {
      hide Optimality.WithinPadding, Optimality.WithinDrops, Metric, Straight, WellFormed;
      if heuristic.None? && Metric(hav) && Straight(Snapshot(), hav) {
        Optimality.PaddedIsWithinDrops(Snapshot(), hav, source, target, c);
      }
    }

    /**
     Point-to-point routing. Any heuristic, even an inconsistent one, yields a real
     simple route exactly when there is one, and the route is dearer than another by no
     more than the heuristic drops too steeply along that one. A consistent one yields a
     cheapest route, and the default heuristic is consistent exactly when NoCheapDrop holds.
     */
    method AStar(hav: (Coord, Coord) -> real, source: int, target: int, heuristic: Option<(int, int) -> real>)
      returns (r: RouteResult)
      requires Valid()
      ensures r.algorithm == ASTAR
      ensures r.Feasible() <==> Reachable(View(Snapshot()), source, target)
      ensures r.Feasible() ==> exists p :: IsPath(View(Snapshot()), source, target, p)
                                        && BestFirst.Finds(View(Snapshot()), Potential(hav, heuristic, target),
                                                           source, target, p)
                                        && Reports(Snapshot(), source, target, p, r)
      ensures NoRepeats(r.nodePath)
      ensures r.Feasible() ==>
                Optimality.WithinPadding(View(Snapshot()), Potential(hav, heuristic, target), source, target,
                                         r.travelTimeS)
      ensures heuristic.None? && Metric(hav) && Straight(Snapshot(), hav) && r.Feasible() ==>
                Optimality.WithinDrops(Snapshot(), hav, source, target, r.travelTimeS)
      ensures r.Feasible() && Search.Consistent(View(Snapshot()), Potential(hav, heuristic, target)) ==>
                IsDistance(View(Snapshot()), source, target, r.travelTimeS)
      ensures heuristic.None? && Metric(hav) && Straight(Snapshot(), hav) && NoCheapDrop(Snapshot(), hav, target)
              && r.Feasible() ==>
                IsDistance(View(Snapshot()), source, target, r.travelTimeS)
    {
      hide Search.Consistent, Metric, Straight, NoCheapDrop, BestFirst.Finds, IsPath, Tree,
           Optimality.WithinPadding, Optimality.WithinDrops, NonNegative, Closed, WellFormed;
      ViewIsSearchable(Snapshot());
      ghost var g := View(Snapshot());
      var h := Potential(hav, heuristic, target);
      var found, prev, closed, rank := BestFirst.AStar(View(Snapshot()), h, source, target);
      DefaultIsConsistent(hav, heuristic, target);
      hide View;
      if !found {
        return RouteResult(source, target, [], [], 0.0, 0.0, 0.0, ASTAR, |closed|,
                           Some("no route on the current road network"));
      }
      r := Reconstruct(source, target, prev, ASTAR, |closed|, g, rank);
      Optimality.FoundWithinPadding(g, h, source, target, TreePath(g, source, prev, rank, target));
      DefaultIsWithinDrops(hav, heuristic, source, target, r.travelTimeS);
    }

    /** One round of the greedy search: the roads of a route to safety, or none. */
    method NextRoute(source: int, safe: set<int>) returns (roadIds: seq<int>, ghost t: int, ghost p: seq<Hop>)
      requires Valid()
      ensures roadIds != [] ==> t in safe && IsPath(View(Snapshot()), source, t, p) && roadIds == Roads(p)
      ensures roadIds == [] && source !in safe ==> CutOff(Snapshot(), source, safe)
      ensures source in safe && Positive(View(Snapshot())) ==> roadIds == []
    {
      roadIds, t, p := [], source, [];
      var dist, prev, settled, rank := Dijkstra(source, Some(safe), None);
      var best := BestFirst.Nearest(safe, dist);
      ReachedSafety(View(Snapshot()), source, safe, dist, prev, settled, rank);
      if best.None? {
        return;
      }
      var route := PathFromDijkstra(source, best.value, prev, |settled|, View(Snapshot()), rank);
      t := best.value;
      p := TreePath(View(Snapshot()), source, prev, rank, t);
      TreePathIsPath(View(Snapshot()), source, prev, rank, t);
      assert |route.roadIds| == |p|;
      if source in safe && Positive(View(Snapshot())) {
        NowhereIsNearer(View(Snapshot()), source, t, dist, prev, rank);
      }
      if route.Feasible() {
        roadIds := route.roadIds;
      }
    }

    method Block(roadIds: seq<int>)
      requires Valid()
      modifies `roadState
      ensures Valid() && Snapshot() == Closing(old(Snapshot()), Elements(roadIds))
    {
      ghost var o := Snapshot();
      ClosingNothing(o);
      assert Elements(roadIds[..0]) == {};
      hide Closing, Elements;
      for i := 0 to |roadIds|
        invariant Valid() && Snapshot() == Closing(o, Elements(roadIds[..i]))
      {
        ElementsSnoc(roadIds, i);
        CloseOneMore(o, Elements(roadIds[..i]), roadIds[i]);
        roadState := roadState[roadIds[i] := "blocked"];
      }
      assert roadIds[..|roadIds|] == roadIds;
    }

    /** One round: find a route with the roads of `routes` closed, and close its roads too. */
    method Round(ghost o: Live, source: int, safe: set<int>, ghost routes: seq<seq<Hop>>)
      returns (ok: bool, ghost longer: seq<seq<Hop>>)
      requires Valid() && Snapshot() == Closing(o, AllRoads(routes)) && DisjointRoutes(o, source, safe, routes)
      modifies `roadState
      ensures Valid() && Snapshot() == Closing(o, AllRoads(longer)) && DisjointRoutes(o, source, safe, longer)
      ensures |longer| == |routes| + if ok then 1 else 0
      ensures !ok && source !in safe ==> CutOff(Closing(o, AllRoads(longer)), source, safe)
      ensures source in safe && Positive(View(old(Snapshot()))) ==> !ok
    {
      var roadIds, t, p := NextRoute(source, safe);
      if roadIds == [] {
        return false, routes;
      }
      longer := OneMoreRoute(o, source, safe, routes, t, p);
      Block(roadIds);
      ok := true;
    }

    /** The rounds of the greedy search, which close the roads they use. */
    method Rounds(source: int, safe: set<int>, maxPaths: int) returns (found: nat, ghost routes: seq<seq<Hop>>)
      requires Valid()
      modifies `roadState
      ensures Valid() && Snapshot() == Closing(old(Snapshot()), AllRoads(routes))
      ensures found == |routes| <= Clip(maxPaths) && DisjointRoutes(old(Snapshot()), source, safe, routes)
      ensures found < Clip(maxPaths) && source !in safe ==> CutOff(Snapshot(), source, safe)
      ensures source in safe && Positive(View(old(Snapshot()))) ==> found == 0
    {
      ghost var o := Snapshot();
      found, routes := 0, [];
      ClosingNothing(o);
      while found < maxPaths
        invariant found == |routes| <= Clip(maxPaths)
        invariant Valid() && Snapshot() == Closing(o, AllRoads(routes)) && DisjointRoutes(o, source, safe, routes)
        invariant source in safe && Positive(View(o)) ==> found == 0
        decreases maxPaths - found
      {
        var ok;
        ok, routes := Round(o, source, safe, routes);
        if !ok {
          return;
        }
        found := found + 1;
      }
    }

    /**
     Greedy search for road-disjoint routes to safety. The routes found are exhibited;
     stopping early means that closing them cuts an unsafe source off; and the road
     states are put back as they were. A source that is itself safe counts no routes,
     unless a road costs nothing.
     */
    method IndependentRoutes(source: int, safe: set<int>, maxPaths: int)
      returns (found: nat, ghost routes: seq<seq<Hop>>)
      requires Valid()
      modifies `roadState
      ensures Valid() && Snapshot() == old(Snapshot())
      ensures found == |routes| <= Clip(maxPaths)
      ensures DisjointRoutes(old(Snapshot()), source, safe, routes)
      ensures found < Clip(maxPaths) && source !in safe ==>
                CutOff(Closing(old(Snapshot()), AllRoads(routes)), source, safe)
      ensures source in safe && Positive(View(old(Snapshot()))) ==> found == 0
    {
      var original := roadState;
      found, routes := Rounds(source, safe, maxPaths);
      roadState := original;
    }
  }

  lemma ClosingNothing(o: Live)
    ensures Closing(o, {}) == o
  {
  }

  ghost function Elements(s: seq<int>): set<int> {
    set r | r in s
  }

  lemma ElementsSnoc(s: seq<int>, i: nat)
    requires i < |s|
    ensures Elements(s[..i + 1]) == Elements(s[..i]) + {s[i]}
  {
  }

  /** A route found with the earlier ones closed shares no road with them. */
  lemma OneMoreRoute(o: Live, source: int, safe: set<int>, routes: seq<seq<Hop>>, t: int, p: seq<Hop>)
    returns (longer: seq<seq<Hop>>)
    requires DisjointRoutes(o, source, safe, routes)
    requires t in safe && IsPath(View(Closing(o, AllRoads(routes))), source, t, p)
    ensures |longer| == |routes| + 1 && DisjointRoutes(o, source, safe, longer)
    ensures Closing(Closing(o, AllRoads(routes)), Elements(Roads(p))) == Closing(o, AllRoads(longer))
  {
    longer := routes + [p];
    PathSurvives(o, AllRoads(routes), source, t, p);
    RoadsAreRoadSet(p);
    assert longer[..|routes|] == routes;
    ClosingMore(o, AllRoads(routes), Elements(Roads(p)));
  }

  ghost predicate Positive(g: Network) {
    forall u, e :: e in Out(g, u) && g.cost(e).Some? ==> 0.0 < g.cost(e).value
  }

  /** Where every road costs something, only the source is no farther than the source. */
  lemma NowhereIsNearer(g: Network, source: int, t: int, dist: map<int, real>, prev: map<int, Hop>, rank: map<int, nat>)
    requires BestFirst.Spans(g, source, dist, prev, rank) && Positive(g) && NonNegative(g)
    requires t in dist && source in dist && dist[t] <= dist[source]
    ensures t in rank && TreePath(g, source, prev, rank, t) == []
  {
    var p := TreePath(g, source, prev, rank, t);
    assert TreePath(g, source, prev, rank, source) == [];
    TreePathIsPath(g, source, prev, rank, t);
    if p != [] {
      CostNonNegative(g, source, p[|p| - 1].src, p[..|p| - 1]);
    }
  }

  function Clip(n: int): nat {
    if n < 0 then 0 else n
  }

  lemma RoadsAreRoadSet(p: seq<Hop>)
    ensures Elements(Roads(p)) == RoadSet(p)
  {
    forall r | r in RoadSet(p) ensures r in Roads(p) {
      var i :| 0 <= i < |p| && p[i].edge.roadId == r;
      assert Roads(p)[i] == r;
    }
  }

  lemma CloseOneMore(o: Live, a: set<int>, r: int)
    ensures Closing(o, a + {r}) == o.(roadState := Closing(o, a).roadState[r := "blocked"])
  {
  }

  lemma ClosingMore(o: Live, a: set<int>, b: set<int>)
    ensures Closing(Closing(o, a), b) == Closing(o, a + b)
  {
    var once := o.roadState + (map r | r in a + b :: "blocked");
    var twice := o.roadState + (map r | r in a :: "blocked") + (map r | r in b :: "blocked");
    forall r ensures (r in once <==> r in twice) && (r in once ==> once[r] == twice[r]) {
    }
    assert once == twice;
  }

  /** A full search for the safe nodes reaches each of them that can be reached at all. */
  lemma ReachedSafety(g: Network, source: int, safe: set<int>, dist: map<int, real>, prev: map<int, Hop>,
                      settled: set<int>, rank: map<int, nat>)
    requires BestFirst.Spans(g, source, dist, prev, rank) && settled <= dist.Keys
    requires BestFirst.Complete(g, source, Some(safe), None, settled)
    ensures forall t :: t in safe && Reachable(g, source, t) ==> t in dist
  {
  }
}
