/**
 The live overlay of backend/app/routing/graph.py: road state, cell risk and
 assigned load on top of an adjacency list, and the cost they put on an edge.
 Distances on the sphere are an abstract function `hav`.
 */
module Overlay {
  import opened Wrappers
  import opened Paths
  import Search

  datatype Live = Live(adj: map<int, seq<Edge>>, coords: map<int, Coord>, roadState: map<int, string>,
                       cellRisk: map<string, real>, edgeLoad: map<int, int>,
                       hazardAlpha: real, congestionBeta: real, maxSpeedKph: real)

  /** The multiplier for a reported state; `None` is impassable, an unlisted state costs nothing extra. */
  function StatePenalty(state: string): Option<real> {
    if state == "open" then Some(1.0)
    else if state == "slow" then Some(2.2)
    else if state == "partially_blocked" then Some(3.5)
    else if state == "blocked" || state == "flooded" || state == "landslide" then None
    else if state == "unknown" then Some(1.4)
    else Some(1.0)
  }

  function StateOf(o: Live, roadId: int): string {
    if roadId in o.roadState then o.roadState[roadId] else "open"
  }

  function BaseTime(e: Edge): real {
    e.lengthM / Max(e.freeFlowKph, 1.0) * 3.6
  }

  function RiskSum(o: Live, cells: seq<string>): real {
    if cells == [] then 0.0
    else (if cells[0] in o.cellRisk then o.cellRisk[cells[0]] else 0.0) + RiskSum(o, cells[1..])
  }

  /** Mean risk of the cells an edge passes through, clamped to [0, 1]. */
  function EdgeHazard(o: Live, e: Edge): (hz: real)
    ensures 0.0 <= hz <= 1.0
  {
    if e.cellIds == [] || o.cellRisk == map[] then 0.0
    else Max(0.0, Min(1.0, RiskSum(o, e.cellIds) / (|e.cellIds| as real) / 100.0))
  }

  function LoadOf(o: Live, roadId: int): int {
    if roadId in o.edgeLoad then o.edgeLoad[roadId] else 0
  }

  function Congestion(o: Live, e: Edge): real {
    var load := LoadOf(o, e.roadId);
    if load != 0 && e.capacityPph != 0
    then o.congestionBeta * BaseTime(e) * (load as real / e.capacityPph as real)
    else 0.0
  }

  function Weighted(t: real, alpha: real, hazard: real): real {
    t * (1.0 + alpha * hazard)
  }

  /** Seconds, hazard- and congestion-adjusted; `None` is impassable. */
  function EdgeCost(o: Live, e: Edge): Option<real> {
    match StatePenalty(StateOf(o, e.roadId))
    case None => None
    case Some(penalty) =>
      Some(Weighted(BaseTime(e) * penalty, o.hazardAlpha, EdgeHazard(o, e)) + Congestion(o, e))
  }

  /** The network a search sees. */
  function View(o: Live): Network {
    Network(o.adj, (e: Edge) => EdgeCost(o, e))
  }

  ghost predicate GoodEdge(nodes: set<int>, maxSpeedKph: real, e: Edge) {
    e.toNode in nodes && 0.0 <= e.lengthM && 0 <= e.capacityPph && e.freeFlowKph <= maxSpeedKph
  }

  ghost predicate GoodEdges(nodes: set<int>, maxSpeedKph: real, es: seq<Edge>) {
    forall e :: e in es ==> GoodEdge(nodes, maxSpeedKph, e)
  }

  /** The class invariant of RoadGraph. */
  ghost predicate WellFormed(o: Live) {
    && 0.0 <= o.hazardAlpha && 0.0 <= o.congestionBeta && 1.0 <= o.maxSpeedKph
    && (forall r :: r in o.edgeLoad ==> 0 <= o.edgeLoad[r])
    && (forall u :: u in o.adj ==> GoodEdges(o.adj.Keys, o.maxSpeedKph, o.adj[u]))
  }

  // ----- an edge never costs less than driving it freely ------------------------------

  lemma MulGe(a: real, f: real)
    requires 0.0 <= a && 1.0 <= f
    ensures a <= a * f
  {
  }

  lemma MulNonNeg(a: real, b: real)
    requires 0.0 <= a && 0.0 <= b
    ensures 0.0 <= a * b
  {
  }

  lemma CongestionNonNegative(o: Live, e: Edge)
    requires 0.0 <= BaseTime(e) && 0.0 <= o.congestionBeta && 0 <= e.capacityPph
    requires forall r :: r in o.edgeLoad ==> 0 <= o.edgeLoad[r]
    ensures 0.0 <= Congestion(o, e)
  {
    var load := LoadOf(o, e.roadId);
    if load != 0 && e.capacityPph != 0 {
      var share := load as real / e.capacityPph as real;
      assert 0.0 <= share;
      MulNonNeg(o.congestionBeta, BaseTime(e));
      MulNonNeg(o.congestionBeta * BaseTime(e), share);
    }
  }

  lemma BaseTimeNonNegative(e: Edge)
    requires 0.0 <= e.lengthM
    ensures 0.0 <= BaseTime(e)
  {
    assert 0.0 <= e.lengthM / Max(e.freeFlowKph, 1.0);
  }

  lemma WeightedGe(t: real, alpha: real, hazard: real)
    requires 0.0 <= t && 0.0 <= alpha && 0.0 <= hazard
    ensures t <= Weighted(t, alpha, hazard)
  {
    MulNonNeg(alpha, hazard);
    MulGe(t, 1.0 + alpha * hazard);
  }

  lemma CostAtLeastBase(o: Live, e: Edge)
    requires 0.0 <= o.hazardAlpha && 0.0 <= o.congestionBeta && 0 <= e.capacityPph && 0.0 <= e.lengthM
    requires forall r :: r in o.edgeLoad ==> 0 <= o.edgeLoad[r]
    ensures 0.0 <= BaseTime(e)
    ensures EdgeCost(o, e).Some? ==> BaseTime(e) <= EdgeCost(o, e).value
  {
    BaseTimeNonNegative(e);
    CongestionNonNegative(o, e);
    var p := StatePenalty(StateOf(o, e.roadId));
    if p.Some? {
      hide Weighted, BaseTime, Congestion;
      MulGe(BaseTime(e), p.value);
      WeightedGe(BaseTime(e) * p.value, o.hazardAlpha, EdgeHazard(o, e));
    }
  }

  lemma ViewIsSearchable(o: Live)
    requires WellFormed(o)
    ensures NonNegative(View(o)) && Closed(View(o))
  {
    var g := View(o);
    forall u, e | e in Out(g, u) ensures GoodEdge(o.adj.Keys, o.maxSpeedKph, e) {
      assert GoodEdges(o.adj.Keys, o.maxSpeedKph, o.adj[u]);
    }
    forall u, e | e in Out(g, u) && g.cost(e).Some? ensures 0.0 <= g.cost(e).value {
      CostAtLeastBase(o, e);
    }
  }

  // ----- the default heuristic ----------------------------------------------------------

  function Heuristic(o: Live, hav: (Coord, Coord) -> real, a: int, b: int): real {
    if a !in o.coords || b !in o.coords then 0.0
    else hav(o.coords[a], o.coords[b]) / Max(o.maxSpeedKph, 1.0) * 3.6
  }

  ghost predicate Metric(hav: (Coord, Coord) -> real) {
    && (forall a, b :: 0.0 <= hav(a, b))
    && (forall a, b :: hav(a, b) == hav(b, a))
    && (forall a :: hav(a, a) == 0.0)
    && (forall a, b, c :: hav(a, c) <= hav(a, b) + hav(b, c))
  }

  /** No road is shorter than the straight line between the known positions of its ends. */
  ghost predicate Straight(o: Live, hav: (Coord, Coord) -> real) {
    forall u, e :: u in o.adj && e in o.adj[u] && u in o.coords && e.toNode in o.coords ==>
      hav(o.coords[u], o.coords[e.toNode]) <= e.lengthM
  }

  /** The heuristic towards `target`, as the potential of a search. */
  function Towards(o: Live, hav: (Coord, Coord) -> real, target: int): int -> real {
    v => Heuristic(o, hav, v, target)
  }

  /**
   A usable road from a located node to one without coordinates drops the heuristic
   to zero; it keeps consistency just when it costs at least what was dropped.
   */
  ghost predicate NoCheapDrop(o: Live, hav: (Coord, Coord) -> real, target: int) {
    target in o.coords ==>
      forall u, e :: u in o.adj && e in o.adj[u] && u in o.coords && e.toNode !in o.coords && EdgeCost(o, e).Some? ==>
        Heuristic(o, hav, u, target) <= EdgeCost(o, e).value
  }

  lemma DivMono(a: real, b: real, d: real)
    requires a <= b && 0.0 < d
    ensures a / d <= b / d
  {
  }

  lemma DivAnti(a: real, d: real, d': real)
    requires 0.0 <= a && 0.0 < d <= d'
    ensures a / d' <= a / d
  {
    assert a / d' * d' == a;
    assert a / d * d == a;
    assert a / d * d <= a / d * d';
  }

  /** Driving an edge takes at least the straight-line time at the network's top speed. */
  lemma BaseTimeAtLeastStraight(o: Live, hav: (Coord, Coord) -> real, u: int, e: Edge)
    requires Metric(hav) && 1.0 <= o.maxSpeedKph && e.freeFlowKph <= o.maxSpeedKph
    requires u in o.coords && e.toNode in o.coords && hav(o.coords[u], o.coords[e.toNode]) <= e.lengthM
    ensures hav(o.coords[u], o.coords[e.toNode]) / Max(o.maxSpeedKph, 1.0) * 3.6 <= BaseTime(e)
  {
    var line := hav(o.coords[u], o.coords[e.toNode]);
    var top := Max(o.maxSpeedKph, 1.0);
    DivMono(line, e.lengthM, top);
    DivAnti(e.lengthM, Max(e.freeFlowKph, 1.0), top);
  }

  lemma Triangle(a: real, b: real, c: real, d: real)
    requires a <= b + c && 0.0 < d
    ensures a / d * 3.6 <= b / d * 3.6 + c / d * 3.6
  {
    DivMono(a, b + c, d);
    assert (b + c) / d == b / d + c / d;
  }

  lemma HeuristicNonNegative(o: Live, hav: (Coord, Coord) -> real, a: int, b: int)
    requires Metric(hav) && 1.0 <= o.maxSpeedKph
    ensures 0.0 <= Heuristic(o, hav, a, b)
  {
    if a in o.coords && b in o.coords {
      DivMono(0.0, hav(o.coords[a], o.coords[b]), Max(o.maxSpeedKph, 1.0));
    }
  }

  /** Between located nodes the heuristic never drops by more than the road costs. */
  lemma LocatedStepConsistent(o: Live, hav: (Coord, Coord) -> real, target: int, u: int, e: Edge)
    requires WellFormed(o) && Metric(hav) && Straight(o, hav)
    requires u in o.adj && e in o.adj[u] && EdgeCost(o, e).Some?
    requires target in o.coords && u in o.coords && e.toNode in o.coords
    ensures Heuristic(o, hav, u, target) <= EdgeCost(o, e).value + Heuristic(o, hav, e.toNode, target)
  {
    assert GoodEdges(o.adj.Keys, o.maxSpeedKph, o.adj[u]);
    var pu, pv, pt := o.coords[u], o.coords[e.toNode], o.coords[target];
    CostAtLeastBase(o, e);
    BaseTimeAtLeastStraight(o, hav, u, e);
    Triangle(hav(pu, pt), hav(pu, pv), hav(pv, pt), Max(o.maxSpeedKph, 1.0));
  }

  /**
   The documentation calls the heuristic consistent. With missing coordinates it need
   not be; it is so exactly when no road falls off the edge of the map too cheaply.
   */
  lemma HeuristicConsistency(o: Live, hav: (Coord, Coord) -> real, target: int)
    requires WellFormed(o) && Metric(hav) && Straight(o, hav)
    ensures Search.Consistent(View(o), Towards(o, hav, target)) <==> NoCheapDrop(o, hav, target)
  {
    var g, h := View(o), Towards(o, hav, target);
    if NoCheapDrop(o, hav, target) {
      forall u, e | e in Out(g, u) && g.cost(e).Some? ensures h(u) <= g.cost(e).value + h(e.toNode) {
        assert GoodEdges(o.adj.Keys, o.maxSpeedKph, o.adj[u]);
        CostAtLeastBase(o, e);
        HeuristicNonNegative(o, hav, e.toNode, target);
        if target in o.coords && u in o.coords && e.toNode in o.coords {
          LocatedStepConsistent(o, hav, target, u, e);
        }
      }
    }
    if Search.Consistent(g, h) && target in o.coords {
      forall u, e | u in o.adj && e in o.adj[u] && u in o.coords && e.toNode !in o.coords && EdgeCost(o, e).Some?
        ensures Heuristic(o, hav, u, target) <= EdgeCost(o, e).value
      {
        assert e in Out(g, u) && g.cost(e).Some?;
        assert h(u) <= g.cost(e).value + h(e.toNode);
      }
    }
  }

  // ----- admissibility --------------------------------------------------------------------------

  lemma {:induction false} SameRisk(o: Live, o': Live, cells: seq<string>)
    requires o.cellRisk == o'.cellRisk
    ensures RiskSum(o, cells) == RiskSum(o', cells)
  {
    if cells != [] {
      SameRisk(o, o', cells[1..]);
    }
  }

  /** Neither coordinates nor other roads play a part in the price of a road. */
  lemma SamePrice(o: Live, o': Live, e: Edge)
    requires o' == o.(adj := o'.adj, coords := o'.coords)
    ensures EdgeCost(o', e) == EdgeCost(o, e)
  {
    SameRisk(o, o', e.cellIds);
    assert EdgeHazard(o', e) == EdgeHazard(o, e) && StateOf(o', e.roadId) == StateOf(o, e.roadId);
    assert Congestion(o', e) == Congestion(o, e);
    hide BaseTime, Weighted, Congestion, EdgeHazard, StatePenalty;
  }

  /** `placed` puts every node on the map, and those with coordinates where they are. */
  ghost predicate Completes(o: Live, placed: map<int, Coord>) {
    && o.adj.Keys <= placed.Keys
    && forall v :: v in o.coords ==> v in placed && placed[v] == o.coords[v]
  }

  lemma CompletedIsConsistent(o: Live, hav: (Coord, Coord) -> real, placed: map<int, Coord>, target: int)
    requires WellFormed(o) && Metric(hav) && Completes(o, placed) && target in placed
    requires Straight(o.(coords := placed), hav)
    ensures Search.Consistent(View(o), Towards(o.(coords := placed), hav, target))
  {
    var g, full := View(o), o.(coords := placed);
    hide EdgeCost, Heuristic, GoodEdge, Straight;
    forall u, e | e in Out(g, u) && g.cost(e).Some?
      ensures Heuristic(full, hav, u, target) <= g.cost(e).value + Heuristic(full, hav, e.toNode, target)
    {
      EndsAreNodes(o, u, e);
      SamePrice(o, full, e);
      LocatedStepConsistent(full, hav, target, u, e);
    }
  }

  lemma EndsAreNodes(o: Live, u: int, e: Edge)
    requires WellFormed(o) && e in Out(View(o), u)
    ensures u in o.adj && e.toNode in o.adj
  {
    assert GoodEdges(o.adj.Keys, o.maxSpeedKph, o.adj[u]);
  }

  lemma {:induction false} ConsistentBoundsPath(g: Network, h: int -> real, s: int, t: int, p: seq<Hop>)
    requires Search.Consistent(g, h) && IsPath(g, s, t, p)
    ensures h(s) <= Cost(g, p) + h(t)
    decreases |p|
  {
    if p != [] {
      var last := p[|p| - 1];
      ConsistentBoundsPath(g, h, s, last.src, p[..|p| - 1]);
      assert h(last.src) <= g.cost(last.edge).value + h(t);
    }
  }

  lemma NoDistance(o: Live, hav: (Coord, Coord) -> real, v: int)
    requires Metric(hav)
    ensures Heuristic(o, hav, v, v) == 0.0
  {
  }

  /**
   The default heuristic never overestimates, missing coordinates or not, as long as the
   missing nodes could be placed so that no road is shorter than the straight line.
   */
  lemma HeuristicIsAdmissible(o: Live, hav: (Coord, Coord) -> real, placed: map<int, Coord>,
                              s: int, t: int, p: seq<Hop>)
    requires WellFormed(o) && Metric(hav) && Completes(o, placed) && Straight(o.(coords := placed), hav)
    requires IsPath(View(o), s, t, p)
    ensures Heuristic(o, hav, s, t) <= Cost(View(o), p)
  {
    hide WellFormed, Straight, EdgeCost;
    ViewIsSearchable(o);
    CostNonNegative(View(o), s, t, p);
    if s in o.coords && t in o.coords {
      var full := o.(coords := placed);
      CompletedIsConsistent(o, hav, placed, t);
      ConsistentBoundsPath(View(o), Towards(full, hav, t), s, t, p);
      NoDistance(full, hav, t);
      hide Heuristic;
    }
  }
}
