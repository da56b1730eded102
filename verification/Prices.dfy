/**
 What the overlay of backend/app/routing/graph.py does to the price of a road: the state multiplies
 it, the risk of its cells adds a share of it, and the people on the road add their part.
 */
module Prices {
  import opened Wrappers
  import opened Paths
  import opened Overlay
  import BestFirst
  import Optimality
  import RoadGraphs

  /** The road driven freely: nothing reported, nothing at risk, nobody on it. */
  function Free(o: Live): Live {
    o.(roadState := map[], cellRisk := map[], edgeLoad := map[])
  }

  function Calm(o: Live): Live {
    o.(cellRisk := map[])
  }

  function Empty(o: Live): Live {
    o.(edgeLoad := map[])
  }

  /** Seconds at the free-flow speed, which is never taken for less than a kilometre per hour. */
  lemma FreePrice(o: Live, e: Edge)
    ensures EdgeCost(Free(o), e).Some?
    ensures EdgeCost(Free(o), e).value * (if e.freeFlowKph < 1.0 then 1.0 else e.freeFlowKph) == 3.6 * e.lengthM
  {
    var v := Max(e.freeFlowKph, 1.0);
    assert e.lengthM / v * v == e.lengthM;
    FreeIsBase(o, e);
    hide EdgeCost;
    Regroup(e.lengthM / v, v);
  }

  lemma Regroup(a: real, v: real)
    ensures a * 3.6 * v == 3.6 * (a * v)
  {
  }

  // ----- what is reported -------------------------------------------------------------------------

  /** What each state makes of a second; an unlisted state, or none, leaves it as it is. */
  ghost predicate Multiplies(state: string, m: real) {
    && (state == "slow" ==> m == 2.2) && (state == "partially_blocked" ==> m == 3.5)
    && (state == "unknown" ==> m == 1.4)
    && (state !in {"slow", "partially_blocked", "unknown"} ==> m == 1.0)
  }

  /** Blocked, flooded and buried roads cannot be used; any other state multiplies the price of an empty road. */
  lemma StateMultiplies(o: Live, e: Edge, m: real)
    requires LoadOf(o, e.roadId) == 0 && Multiplies(StateOf(o, e.roadId), m)
    ensures EdgeCost(o, e).None? <==> StateOf(o, e.roadId) in {"blocked", "flooded", "landslide"}
    ensures EdgeCost(o.(roadState := map[]), e).Some?
    ensures EdgeCost(o, e).Some? ==> EdgeCost(o, e).value == m * EdgeCost(o.(roadState := map[]), e).value
  {
    SameRisk(o, o.(roadState := map[]), e.cellIds);
    hide BaseTime;
    Factored(BaseTime(e), m, o.hazardAlpha * EdgeHazard(o, e));
  }

  lemma Factored(t: real, m: real, x: real)
    ensures t * m * (1.0 + x) == m * (t * 1.0 * (1.0 + x))
  {
  }

  // ----- what is at risk ------------------------------------------------------------------------------

  function RiskOf(o: Live, cell: string): real {
    if cell in o.cellRisk then o.cellRisk[cell] else 0.0
  }

  /** Cell by cell: the sum is determined by these. */
  lemma {:induction false} RiskAddsUp(o: Live, a: seq<string>, b: seq<string>)
    ensures RiskSum(o, []) == 0.0 && forall c :: RiskSum(o, [c]) == RiskOf(o, c)
    ensures RiskSum(o, a + b) == RiskSum(o, a) + RiskSum(o, b)
    decreases |a|
  {
    forall c ensures RiskSum(o, [c]) == RiskOf(o, c) {
      assert [c][1..] == [];
    }
    if a == [] {
      assert a + b == b;
    } else {
      RiskAddsUp(o, a[1..], b);
      assert (a + b)[1..] == a[1..] + b;
    }
  }

  /** The cells of the road carry a risk of `r` out of a hundred on average. */
  ghost predicate MeanRisk(o: Live, e: Edge, r: real) {
    if e.cellIds == [] then r == 0.0 else RiskSum(o, e.cellIds) == r * |e.cellIds| as real
  }

  /** Risk is never charged as less than none or more than all. */
  function Charged(r: real): real {
    if r < 0.0 then 0.0 else if 100.0 < r then 100.0 else r
  }

  lemma HazardIsMeanRisk(o: Live, e: Edge, r: real)
    requires MeanRisk(o, e, r)
    ensures EdgeHazard(o, e) == Charged(r) / 100.0
  {
    if e.cellIds != [] {
      var n := |e.cellIds| as real;
      assert r * n / n == r;
      if o.cellRisk == map[] {
        NoRisk(o, e.cellIds);
        assert r == 0.0;
      }
    }
  }

  lemma {:induction false} NoRisk(o: Live, cells: seq<string>)
    requires o.cellRisk == map[]
    ensures RiskSum(o, cells) == 0.0
  {
    if cells != [] {
      NoRisk(o, cells[1..]);
    }
  }

  /** The price by its parts. */
  lemma PricedAs(o: Live, e: Edge, p: real, t: real, hazard: real, c: real)
    requires StatePenalty(StateOf(o, e.roadId)) == Some(p) && t == BaseTime(e) * p
    requires hazard == EdgeHazard(o, e) && c == Congestion(o, e)
    ensures EdgeCost(o, e) == Some(Weighted(t, o.hazardAlpha, hazard) + c)
  {
  }

  /** What a mean risk of `r` adds to a price of `t`. */
  function RiskShare(alpha: real, r: real, t: real): real {
    alpha * (Charged(r) / 100.0) * t
  }

  /**
   Risk adds its share, times alpha, of the price that the road would have empty and calm; whether
   there are people on it makes no difference to that.
   */
  lemma RiskIsCharged(o: Live, e: Edge, r: real)
    requires MeanRisk(o, e, r)
    ensures EdgeCost(o, e).Some? <==> EdgeCost(Calm(o), e).Some?
    ensures EdgeCost(o, e).Some? <==> EdgeCost(Calm(Empty(o)), e).Some?
    ensures EdgeCost(o, e).Some? ==>
              EdgeCost(o, e).value
                == EdgeCost(Calm(o), e).value + RiskShare(o.hazardAlpha, r, EdgeCost(Calm(Empty(o)), e).value)
  {
    hide BaseTime, EdgeHazard, Congestion, MeanRisk, RiskSum, Weighted, RiskShare, Charged, StatePenalty;
    HazardIsMeanRisk(o, e, r);
    NoHazard(o, e);
    NoHazard(Empty(o), e);
    OnlyLoadIsCongestion(o, e);
    var p := StatePenalty(StateOf(o, e.roadId));
    if p.Some? {
      var t := BaseTime(e) * p.value;
      Surcharge(t, o.hazardAlpha, r);
      PricedAs(o, e, p.value, t, Charged(r) / 100.0, Congestion(o, e));
      PricedAs(Calm(o), e, p.value, t, 0.0, Congestion(o, e));
      PricedAs(Calm(Empty(o)), e, p.value, t, 0.0, 0.0);
      assert EdgeCost(Calm(Empty(o)), e).value == t;
    }
  }

  lemma NoHazard(o: Live, e: Edge)
    ensures EdgeHazard(Calm(o), e) == 0.0
  {
  }

  lemma OnlyLoadIsCongestion(o: Live, e: Edge)
    ensures Congestion(Calm(o), e) == Congestion(o, e) && Congestion(Calm(Empty(o)), e) == 0.0
  {
  }

  lemma Surcharge(t: real, alpha: real, r: real)
    ensures Weighted(t, alpha, Charged(r) / 100.0) == t + RiskShare(alpha, r, t)
    ensures Weighted(t, alpha, 0.0) == t
  {
  }

  /** What an empty road of mean risk `r` costs if it costs `calm` without the risk. */
  function AtRisk(alpha: real, r: real, calm: real): real {
    (1.0 + alpha * (Charged(r) / 100.0)) * calm
  }

  /** Without people on it: so many times the calm price; by default four times through a critical cell. */
  lemma RiskMultiplies(o: Live, e: Edge, r: real)
    requires MeanRisk(o, e, r) && LoadOf(o, e.roadId) == 0 && EdgeCost(o, e).Some?
    ensures EdgeCost(Calm(o), e).Some?
    ensures EdgeCost(o, e).value == AtRisk(o.hazardAlpha, r, EdgeCost(Calm(o), e).value)
    ensures o.hazardAlpha == 3.0 && r == 100.0 ==> EdgeCost(o, e).value == 4.0 * EdgeCost(Calm(o), e).value
  {
    hide EdgeCost, MeanRisk;
    RiskIsCharged(o, e, r);
    EmptyAnyway(o, e);
    ShareOnTop(o.hazardAlpha, r, EdgeCost(Calm(o), e).value);
  }

  lemma ShareOnTop(alpha: real, r: real, t: real)
    ensures t + RiskShare(alpha, r, t) == AtRisk(alpha, r, t)
    ensures alpha == 3.0 && r == 100.0 ==> t + RiskShare(alpha, r, t) == 4.0 * t
  {
  }

  lemma EmptyAnyway(o: Live, e: Edge)
    requires LoadOf(o, e.roadId) == 0
    ensures EdgeCost(Calm(Empty(o)), e) == EdgeCost(Calm(o), e)
  {
    NoHazard(o, e);
    NoHazard(Empty(o), e);
    hide EdgeHazard, Weighted, BaseTime;
  }

  lemma PositiveFactors(t: real, m: real)
    requires 0.0 < t && 0.0 < m
    ensures 0.0 < t * m
  {
  }

  /** More risk is strictly dearer, as long as there is any way to go and the risk is on the scale. */
  lemma MoreRiskIsDearer(o: Live, o': Live, e: Edge, r: real, r': real)
    requires o' == o.(cellRisk := o'.cellRisk) && MeanRisk(o, e, r) && MeanRisk(o', e, r')
    requires 0.0 <= r < r' <= 100.0 && 0.0 < o.hazardAlpha && 0.0 < e.lengthM && EdgeCost(o, e).Some?
    ensures EdgeCost(o', e).Some? && EdgeCost(o, e).value < EdgeCost(o', e).value
  {
    assert Calm(o') == Calm(o) && Calm(Empty(o')) == Calm(Empty(o));
    hide EdgeCost, MeanRisk, RiskShare;
    RiskIsCharged(o, e, r);
    RiskIsCharged(o', e, r');
    CalmCosts(o, e);
    ShareGrows(o.hazardAlpha, r, r', EdgeCost(Calm(Empty(o)), e).value);
  }

  lemma ShareGrows(alpha: real, r: real, r': real, t: real)
    requires 0.0 < alpha && 0.0 <= r < r' <= 100.0 && 0.0 < t
    ensures RiskShare(alpha, r, t) < RiskShare(alpha, r', t)
  {
    PositiveFactors(alpha, t);
    Steeper(alpha * t, r / 100.0, r' / 100.0);
    Swapped(alpha, r / 100.0, t);
    Swapped(alpha, r' / 100.0, t);
  }

  lemma Steeper(a: real, x: real, y: real)
    requires 0.0 < a && x < y
    ensures a * x < a * y
  {
  }

  lemma Swapped(a: real, x: real, t: real)
    ensures a * x * t == a * t * x
  {
  }

  lemma CalmCosts(o: Live, e: Edge)
    requires 0.0 < e.lengthM && EdgeCost(o, e).Some?
    ensures EdgeCost(Calm(Empty(o)), e).Some? && 0.0 < EdgeCost(Calm(Empty(o)), e).value
  {
    NoHazard(Empty(o), e);
    var v := Max(e.freeFlowKph, 1.0);
    assert 0.0 < e.lengthM / v;
    hide EdgeHazard;
    PositiveFactors(BaseTime(e), StatePenalty(StateOf(o, e.roadId)).value);
  }

  // ----- who is on it ----------------------------------------------------------------------------------

  /** The people on a road add beta times their share of its capacity of the free price, whatever its state and risk. */
  lemma LoadIsCharged(o: Live, e: Edge)
    requires EdgeCost(o, e).Some?
    ensures EdgeCost(Empty(o), e).Some? && EdgeCost(Free(o), e).Some?
    ensures EdgeCost(o, e).value - EdgeCost(Empty(o), e).value
         == if e.capacityPph == 0 then 0.0
            else o.congestionBeta * EdgeCost(Free(o), e).value * (LoadOf(o, e.roadId) as real / e.capacityPph as real)
  {
    hide BaseTime, EdgeHazard, Weighted, StatePenalty, RiskSum;
    var p := StatePenalty(StateOf(o, e.roadId)).value;
    var t, hazard := BaseTime(e) * p, EdgeHazard(o, e);
    PricedAs(o, e, p, t, hazard, Congestion(o, e));
    EmptyHazard(o, e);
    PricedAs(Empty(o), e, p, t, hazard, 0.0);
    hide EdgeCost;
    FreeIsBase(o, e);
  }

  lemma EmptyHazard(o: Live, e: Edge)
    ensures EdgeHazard(Empty(o), e) == EdgeHazard(o, e)
  {
    SameRisk(o, Empty(o), e.cellIds);
  }

  lemma FreeIsBase(o: Live, e: Edge)
    ensures EdgeCost(Free(o), e) == Some(BaseTime(e))
  {
    NoHazard(Free(o), e);
    hide BaseTime, EdgeHazard;
  }

  // ----- two roads ----------------------------------------------------------------------------------------

  /** Two roads from `s` to `t`, and nothing else. */
  ghost predicate TwoRoads(o: Live, s: int, t: int, a: Edge, b: Edge) {
    && s != t && Out(View(o), s) == [a, b] && Out(View(o), t) == [] && a.toNode == t == b.toNode
  }

  lemma OneOfTwo(o: Live, s: int, t: int, a: Edge, b: Edge, p: seq<Hop>)
    requires TwoRoads(o, s, t, a, b) && IsPath(View(o), s, t, p)
    ensures p == [Hop(s, a)] || p == [Hop(s, b)]
  {
    PathIsContiguous(View(o), s, t, p);
    assert p[0].src == s && p[0].edge in Out(View(o), s);
    if |p| > 1 {
      GoesOn(View(o), s, t, p);
      assert false;
    }
    assert p == [p[0]];
  }

  lemma GoesOn(g: Network, s: int, t: int, p: seq<Hop>)
    requires IsPath(g, s, t, p) && |p| > 1
    ensures Out(g, p[0].edge.toNode) != []
  {
    PathIsContiguous(g, s, t, p);
    assert Usable(g, p[1]);
  }

  lemma BothWays(o: Live, s: int, t: int, a: Edge, b: Edge)
    requires TwoRoads(o, s, t, a, b)
    ensures forall e :: e in {a, b} && EdgeCost(o, e).Some? ==>
      IsPath(View(o), s, t, [Hop(s, e)]) && Cost(View(o), [Hop(s, e)]) == EdgeCost(o, e).value
  {
    forall e | e in {a, b} && EdgeCost(o, e).Some?
      ensures IsPath(View(o), s, t, [Hop(s, e)]) && Cost(View(o), [Hop(s, e)]) == EdgeCost(o, e).value
    {
      IsPathSnoc(View(o), s, [], Hop(s, e));
      assert [] + [Hop(s, e)] == [Hop(s, e)];
    }
  }

  /** `p` takes the road that needs less time at its risk; with the same time it may take either. */
  ghost predicate TakesTheSafer(o: Live, s: int, a: Edge, b: Edge, ra: real, rb: real, p: seq<Hop>) {
    && EdgeCost(Calm(o), a).Some? && EdgeCost(Calm(o), b).Some?
    && var timeA := AtRisk(o.hazardAlpha, ra, EdgeCost(Calm(o), a).value);
       var timeB := AtRisk(o.hazardAlpha, rb, EdgeCost(Calm(o), b).value);
       && (timeA < timeB ==> p == [Hop(s, a)]) && (timeB < timeA ==> p == [Hop(s, b)])
  }

  /** Neither road is closed, and nobody is on them. */
  ghost predicate OpenAndEmpty(o: Live, a: Edge, b: Edge) {
    && EdgeCost(o, a).Some? && EdgeCost(o, b).Some?
    && LoadOf(o, a.roadId) == 0 && LoadOf(o, b.roadId) == 0
  }

  /** Every cheapest route does so, one that Dijkstra's search reports included. */
  lemma CheapestTakesTheSafer(o: Live, s: int, t: int, a: Edge, b: Edge, ra: real, rb: real, p: seq<Hop>)
    requires TwoRoads(o, s, t, a, b) && OpenAndEmpty(o, a, b) && MeanRisk(o, a, ra) && MeanRisk(o, b, rb)
    requires IsPath(View(o), s, t, p) && IsDistance(View(o), s, t, Cost(View(o), p))
    ensures TakesTheSafer(o, s, a, b, ra, rb, p)
  {
    RiskMultiplies(o, a, ra);
    RiskMultiplies(o, b, rb);
    OneOfTwo(o, s, t, a, b, p);
    BothWays(o, s, t, a, b);
    hide EdgeCost, IsPath, Cost, MeanRisk;
  }

  /**
   A* takes the longer way round a dangerous road exactly if that is quicker than the short way with
   alpha times its risk on top.
   */
  lemma AStarTakesTheSafer(o: Live, hav: (Coord, Coord) -> real, s: int, t: int, a: Edge, b: Edge, ra: real, rb: real,
                           p: seq<Hop>)
    requires WellFormed(o) && Metric(hav) && Straight(o, hav) && NoCheapDrop(o, hav, t)
    requires TwoRoads(o, s, t, a, b) && OpenAndEmpty(o, a, b) && MeanRisk(o, a, ra) && MeanRisk(o, b, rb)
    requires BestFirst.Finds(View(o), Towards(o, hav, t), s, t, p)
    ensures TakesTheSafer(o, s, a, b, ra, rb, p)
  {
    hide WellFormed, Metric, Straight, NoCheapDrop, TwoRoads, OpenAndEmpty, MeanRisk, BestFirst.Finds, View, Towards,
         TakesTheSafer, Optimality.WithinPadding;
    ViewIsSearchable(o);
    HeuristicConsistency(o, hav, t);
    Optimality.FoundWithinPadding(View(o), Towards(o, hav, t), s, t, p);
    Optimality.FoundIsCheapest(View(o), Towards(o, hav, t), s, t, p);
    CheapestTakesTheSafer(o, s, t, a, b, ra, rb, p);
  }

  // ----- exposure -------------------------------------------------------------------------------------

  lemma Quotient(a: real, b: real)
    requires b != 0.0
    ensures a / b * b == a
  {
  }

  lemma ExposedTime(o: Live, s: int, t: int, p: seq<Hop>)
    requires WellFormed(o) && IsPath(View(o), s, t, p)
    ensures RoadGraphs.Exposure(o, p) * Cost(View(o), p) == RoadGraphs.HazardTime(o, p)
  {
    hide RoadGraphs.HazardTime, Cost, View, WellFormed, IsPath;
    RoadGraphs.HazardTimeBounded(o, s, t, p);
    if Cost(View(o), p) != 0.0 {
      Quotient(RoadGraphs.HazardTime(o, p), Cost(View(o), p));
    }
  }

  /** The exposure of a route is the mean of the risks along it, weighted by the time spent at each. */
  lemma ExposureIsWeightedMean(o: Live, s: int, p: seq<Hop>, h: Hop, r: real)
    requires WellFormed(o) && IsPath(View(o), s, h.src, p) && Usable(View(o), h) && MeanRisk(o, h.edge, r)
    ensures RoadGraphs.Exposure(o, []) == 0.0 && EdgeCost(o, h.edge).Some?
    ensures RoadGraphs.Exposure(o, p + [h]) * Cost(View(o), p + [h])
         == RoadGraphs.Exposure(o, p) * Cost(View(o), p) + EdgeCost(o, h.edge).value * (Charged(r) / 100.0)
  {
    hide RoadGraphs.HazardTime, RoadGraphs.Exposure, Cost, IsPath, WellFormed, EdgeCost, EdgeHazard, MeanRisk, Usable;
    IsPathSnoc(View(o), s, p, h);
    ExposedTime(o, s, h.src, p);
    ExposedTime(o, s, h.edge.toNode, p + [h]);
    HazardIsMeanRisk(o, h.edge, r);
    HazardOneMore(o, p, h, Charged(r) / 100.0);
    NoExposure(o);
  }

  lemma HazardOneMore(o: Live, p: seq<Hop>, h: Hop, hazard: real)
    requires Usable(View(o), h) && EdgeHazard(o, h.edge) == hazard
    ensures EdgeCost(o, h.edge).Some?
    ensures RoadGraphs.HazardTime(o, p + [h]) == RoadGraphs.HazardTime(o, p) + EdgeCost(o, h.edge).value * hazard
  {
    hide EdgeCost, EdgeHazard;
    assert (p + [h])[..|p|] == p;
  }

  lemma NoExposure(o: Live)
    ensures RoadGraphs.Exposure(o, []) == 0.0
  {
  }

  // ----- what the figures of a route are made of ----------------------------------------------------------

  lemma {:induction false} RoutesAddUp(o: Live, p: seq<Hop>, q: seq<Hop>)
    ensures RoadGraphs.Length(p + q) == RoadGraphs.Length(p) + RoadGraphs.Length(q)
    ensures Cost(View(o), p + q) == Cost(View(o), p) + Cost(View(o), q)
    ensures Roads(p + q) == Roads(p) + Roads(q)
    ensures forall h: Hop :: RoadGraphs.Length([h]) == h.edge.lengthM && Roads([h]) == [h.edge.roadId]
    decreases |q|
  {
    hide View;
    if q == [] {
      assert p + q == p;
    } else {
      var init, last := q[..|q| - 1], q[|q| - 1];
      assert (p + q)[..|p + q| - 1] == p + init;
      RoutesAddUp(o, p, init);
    }
    forall h: Hop ensures RoadGraphs.Length([h]) == h.edge.lengthM {
      assert [h][..0] == [];
    }
  }

  /**
   The estimate cannot be made any larger: a straight road at the top speed of the network, with nothing
   on it, takes just as long.
   */
  lemma HeuristicIsTight(o: Live, hav: (Coord, Coord) -> real, u: int, e: Edge)
    requires u in o.coords && e.toNode in o.coords && 1.0 <= o.maxSpeedKph
    requires e.freeFlowKph == o.maxSpeedKph && e.lengthM == hav(o.coords[u], o.coords[e.toNode])
    ensures EdgeCost(Free(o), e) == Some(Heuristic(o, hav, u, e.toNode))
  {
    FreeIsBase(o, e);
    hide EdgeCost;
  }
}
