/** The EvacuationOptimizer of backend/app/evacuation/optimizer.py. */
module Evacuation {
  import opened Wrappers
  import opened Paths
  import opened Overlay
  import opened RoadGraphs
  import opened Books
  import opened Journal
  import Capacity
  import BestFirst
  import Excuses
  import KdTree
  import Shelters
  import Totals

  class EvacuationPlan {
    var assignments: seq<Assignment>
    var unassigned: seq<Unassigned>
    var shelterLoad: map<string, int>

    constructor ()
      ensures assignments == [] && unassigned == [] && shelterLoad == map[]
    {
      assignments, unassigned, shelterLoad := [], [], map[];
    }
  }

  // ----- what the shelters offer ---------------------------------------------------------------

  /** The reserved capacity of each operational shelter; a later report replaces an earlier one. */
  function Capacities(rs: seq<Capacity.CapacityResult>): map<string, int> {
    if rs == [] then map[]
    else
      var m, r := Capacities(rs[..|rs| - 1]), rs[|rs| - 1];
      if r.operational then m[r.shelterId := r.effectiveCapacity] else m
  }

  function ById(rs: seq<Capacity.CapacityResult>): map<string, Capacity.CapacityResult> {
    if rs == [] then map[] else ById(rs[..|rs| - 1])[rs[|rs| - 1].shelterId := rs[|rs| - 1]]
  }

  /** Shelter ids in the order the reservation dictionary holds them. */
  function Order(rs: seq<Capacity.CapacityResult>): seq<string> {
    if rs == [] then []
    else
      var ids, r := Order(rs[..|rs| - 1]), rs[|rs| - 1];
      if r.operational && r.shelterId !in ids then ids + [r.shelterId] else ids
  }

  lemma {:induction false} OrderIsKeys(rs: seq<Capacity.CapacityResult>)
    ensures forall id :: id in Order(rs) <==> id in Capacities(rs)
    ensures forall id :: id in Capacities(rs) ==> id in ById(rs)
  {
    if rs != [] {
      OrderIsKeys(rs[..|rs| - 1]);
    }
  }

  function Mapped(ids: seq<string>, meta: map<string, Meta>): seq<string> {
    if ids == [] then []
    else Mapped(ids[..|ids| - 1], meta) + if ids[|ids| - 1] in meta then [ids[|ids| - 1]] else []
  }

  lemma {:induction false} MappedMembers(ids: seq<string>, meta: map<string, Meta>)
    ensures forall id :: id in Mapped(ids, meta) <==> id in ids && id in meta
  {
    if ids != [] {
      MappedMembers(ids[..|ids| - 1], meta);
      assert ids == ids[..|ids| - 1] + [ids[|ids| - 1]];
    }
  }

  /** Demand that counts: a zone without people, or with fewer than none, is passed over. */
  function Demand(z: Zone): int {
    if z.people <= 0 then 0 else z.people
  }

  function Demands(zones: seq<Zone>, cell: string): int {
    if zones == [] then 0
    else
      Demands(zones[..|zones| - 1], cell)
      + if zones[|zones| - 1].cellId == cell then Demand(zones[|zones| - 1]) else 0
  }

  class EvacuationOptimizer {
    const graph: RoadGraph
    const maxTravelTimeS: real
    const splitLargeZones: bool
    const maxSheltersPerZone: int
    const hav: (Coord, Coord) -> real
    const project: Coord -> KdTree.Point

    constructor (graph: RoadGraph, maxTravelTimeS: real, splitLargeZones: bool, maxSheltersPerZone: int,
                 hav: (Coord, Coord) -> real, project: Coord -> KdTree.Point)
      ensures this.graph == graph && this.maxTravelTimeS == maxTravelTimeS
      ensures this.splitLargeZones == splitLargeZones && this.maxSheltersPerZone == maxSheltersPerZone
      ensures this.hav == hav && this.project == project
    {
      this.graph, this.maxTravelTimeS := graph, maxTravelTimeS;
      this.splitLargeZones, this.maxSheltersPerZone := splitLargeZones, maxSheltersPerZone;
      this.hav, this.project := hav, project;
    }

    /** `c` is a scene of this optimiser, and `root` the tree of its shelters. */
    ghost predicate Sets(c: Scene, root: KdTree.Tree<string>) {
      && c.cutoff == maxTravelTimeS && c.split == splitLargeZones && c.most == maxSheltersPerZone
      && c.hav == hav && c.project == project
      && root == KdTree.Build(c.items, 0) && (forall it :: it in c.items ==> it.payload in c.payloads) && Keyed(c)
    }

    /** The books balance; the roads are as in `base`, but for what the plan has put on them. */
    ghost predicate Balanced(plan: EvacuationPlan, base: Live, zones: seq<Zone>, meta: map<string, Meta>,
                             capacity: map<string, int>, remaining: map<string, int>)
      reads plan, graph
    {
      && graph.Valid() && graph.Snapshot() == base.(edgeLoad := graph.edgeLoad)
      && Reserved(capacity, remaining, plan.assignments)
      && Loaded(plan.shelterLoad, plan.assignments)
      && RoadsLoaded(graph.Snapshot(), plan.assignments)
      && AllServed(base, zones, meta, plan.assignments)
    }

    /** The route the search has left, at the prices of now. */
    method RouteTo(source: int, node: int, prev: map<int, Hop>, settled: nat, ghost rank: map<int, nat>,
                   ghost base: Live)
      returns (route: RouteResult)
      requires Tree(View(base), source, prev, rank) && node in rank
      ensures Reports(graph.Snapshot(), source, node, TreePath(View(base), source, prev, rank, node), route)
      ensures RealRoute(base, source, node, route)
    {
      route := graph.PathFromDijkstra(source, node, prev, settled, View(base), rank);
      TreePathIsPath(View(base), source, prev, rank, node);
      hide View, TreePath;
    }

    /** Reserves capacity for `a`, counts it, and puts its people on its roads. */
    method Book(plan: EvacuationPlan, ghost zone: Zone, ghost meta: map<string, Meta>, a: Assignment,
                remaining0: map<string, int>, ghost base: Live, ghost zones: seq<Zone>,
                ghost capacity: map<string, int>)
      returns (remaining: map<string, int>)
      requires Balanced(plan, base, zones, meta, capacity, remaining0)
      requires zone in zones && Served(base, zone, meta, a)
      requires a.shelterId in remaining0 && 0 < a.people <= remaining0[a.shelterId]
      modifies plan, graph`edgeLoad
      ensures Balanced(plan, base, zones, meta, capacity, remaining)
      ensures plan.unassigned == old(plan.unassigned) && plan.assignments == old(plan.assignments) + [a]
      ensures remaining == remaining0[a.shelterId := remaining0[a.shelterId] - a.people]
    {
      hide Reserved, Loaded, RoadsLoaded, AllServed, RealRoute, WellFormed;
      ghost var o := graph.Snapshot();
      ghost var xs := plan.assignments;
      ServeOne(base, zones, meta, xs, zone, a);
      ReserveOne(capacity, remaining0, xs, a);
      LoadOne(plan.shelterLoad, xs, a);
      plan.assignments := plan.assignments + [a];
      remaining := remaining0[a.shelterId := remaining0[a.shelterId] - a.people];
      plan.shelterLoad := plan.shelterLoad[a.shelterId := At(plan.shelterLoad, a.shelterId) + a.people];
      graph.AssignLoad(a.route.value.roadIds, a.people);
      RoadOne(o, graph.Snapshot(), xs, a);
    }

    /** Books one assignment: the route is rebuilt, capacity reserved, the roads loaded. */
    method Assign(plan: EvacuationPlan, zone: Zone, meta: map<string, Meta>, cand: Shelters.Candidate, take: nat,
                  prev: map<int, Hop>, settled: nat, remaining0: map<string, int>,
                  ghost rank: map<int, nat>, ghost base: Live, ghost zones: seq<Zone>, ghost capacity: map<string, int>)
      returns (remaining: map<string, int>, ghost a: Assignment)
      requires Balanced(plan, base, zones, meta, capacity, remaining0)
      requires zone in zones && zone.nearestNode.Some? && Located(meta, cand.shelterId)
      requires Tree(View(base), zone.nearestNode.value, prev, rank) && Node(meta, cand.shelterId) in rank
      requires cand.shelterId in remaining0 && 0 < take <= remaining0[cand.shelterId]
      modifies plan, graph`edgeLoad
      ensures Balanced(plan, base, zones, meta, capacity, remaining)
      ensures plan.unassigned == old(plan.unassigned) && plan.assignments == old(plan.assignments) + [a]
      ensures Carries(zone, Take(cand, take), a)
      ensures Reports(old(graph.Snapshot()), zone.nearestNode.value, Node(meta, cand.shelterId),
                      TreePath(View(base), zone.nearestNode.value, prev, rank, Node(meta, cand.shelterId)),
                      a.route.value)
      ensures remaining == remaining0[cand.shelterId := remaining0[cand.shelterId] - take]
    {
      hide RealRoute, Reserved, Loaded, RoadsLoaded, AllServed, Tree, View, TreePath, Reports, WellFormed;
      var source, node := zone.nearestNode.value, Node(meta, cand.shelterId);
      var route := RouteTo(source, node, prev, settled, rank, base);
      var booked := AssignmentOf(zone, cand, take, route);
      remaining := Book(plan, zone, meta, booked, remaining0, base, zones, capacity);
      a := booked;
    }

    /** The seconds and exposure of every shelter that the search has reached. */
    method TravelTimes(source: int, ids: seq<string>, meta: map<string, Meta>, dist: map<int, real>,
                       prev: map<int, Hop>, settled: nat, ghost rank: map<int, nat>, ghost cutoff: real)
      returns (travel: Shelters.Travel)
      requires BestFirst.Spans(View(graph.Snapshot()), source, dist, prev, rank)
      requires BestFirst.LastRoadOver(View(graph.Snapshot()), Some(cutoff), dist, prev)
      ensures forall id :: id in travel ==>
        id in ids && TimedBy(graph.Snapshot(), source, meta, cutoff, dist, id, travel[id])
      ensures forall id :: id in ids && Reached(meta, dist, id) ==> id in travel
    {
      hide View, Timed, TreePath, Reports, BestFirst.LastRoadOver;
      ghost var o := graph.Snapshot();
      travel := map[];
      for i := 0 to |ids|
        invariant forall id :: id in travel ==> id in ids && TimedBy(o, source, meta, cutoff, dist, id, travel[id])
        invariant forall j :: 0 <= j < i && Reached(meta, dist, ids[j]) ==> ids[j] in travel
      {
        if Reached(meta, dist, ids[i]) {
          var node := Node(meta, ids[i]);
          var route := graph.PathFromDijkstra(source, node, prev, settled, View(o), rank);
          TimedByLinks(o, source, node, cutoff, dist, prev, rank, route);
          travel := travel[ids[i] := (route.travelTimeS, route.hazardExposure)];
        }
      }
    }

    /** Serves a zone from its ranked shelters, splitting it if that is allowed. */
    method Fill(plan: EvacuationPlan, zone: Zone, meta: map<string, Meta>, feasible: seq<Shelters.Candidate>,
                prev: map<int, Hop>, settled: nat, remaining0: map<string, int>,
                ghost rank: map<int, nat>, ghost base: Live, ghost zones: seq<Zone>, ghost capacity: map<string, int>)
      returns (remaining: map<string, int>, left: int, ghost placed: seq<Assignment>)
      requires Balanced(plan, base, zones, meta, capacity, remaining0)
      requires zone in zones && zone.nearestNode.Some? && zone.people > 0
      requires Tree(View(base), zone.nearestNode.value, prev, rank)
      requires forall c :: c in feasible ==> Reached(meta, rank, c.shelterId)
      modifies plan, graph`edgeLoad
      ensures Balanced(plan, base, zones, meta, capacity, remaining)
      ensures plan.unassigned == old(plan.unassigned) && plan.assignments == old(plan.assignments) + placed
      ensures var out := Serve(feasible, remaining0, zone.people, splitLargeZones, maxSheltersPerZone);
              Booked(zone, out.takes, placed) && remaining == out.stock && left == out.left
      ensures forall c :: PeopleFrom(plan.assignments, c)
                       == PeopleFrom(old(plan.assignments), c) + if c == zone.cellId then zone.people - left else 0
    {
      hide Reserved, Loaded, RoadsLoaded, AllServed, Tree, View, WellFormed, Serve, PeopleFrom, Carries, Booked,
           Reports, TreePath;
      ghost var out := Serve(feasible, remaining0, zone.people, splitLargeZones, maxSheltersPerZone);
      remaining, left, placed := remaining0, zone.people, [];
      var used := 0;
      ghost var done: seq<Take> := [];
      NothingBooked(zone);
      assert feasible[0..] == feasible;
      for i := 0 to |feasible|
        invariant Balanced(plan, base, zones, meta, capacity, remaining)
        invariant plan.unassigned == old(plan.unassigned) && plan.assignments == old(plan.assignments) + placed
        invariant Booked(zone, done, placed) && used == |done|
        invariant out == Onward(done, Serve(feasible[i..], remaining, left, splitLargeZones, maxSheltersPerZone - used))
        invariant forall c :: PeopleFrom(plan.assignments, c)
                           == PeopleFrom(old(plan.assignments), c) + if c == zone.cellId then zone.people - left else 0
      {
        var cand := feasible[i];
        if left <= 0 || maxSheltersPerZone <= used {
          ServeNoMore(feasible[i..], remaining, left, splitLargeZones, maxSheltersPerZone - used, done);
          return;
        }
        ServeNext(feasible, i, remaining, left, splitLargeZones, maxSheltersPerZone - used, done);
        var available := At(remaining, cand.shelterId);
        if available <= 0 {
          continue;
        }
        var take := if splitLargeZones then (if available < left then available else left)
                    else if left <= available then left else 0;
        if take <= 0 {
          continue;
        }
        ghost var xs := plan.assignments;
        ghost var a;
        remaining, a := Assign(plan, zone, meta, cand, take, prev, settled, remaining, rank, base, zones, capacity);
        AppendedFrom(xs, a);
        BookedOneMore(zone, done, placed, Take(cand, take), a);
        placed, done := placed + [a], done + [Take(cand, take)];
        left := left - take;
        used := used + 1;
      }
      ServeNoMore(feasible[|feasible|..], remaining, left, splitLargeZones, maxSheltersPerZone - used, done);
    }

    lemma NothingBooked(zone: Zone)
      ensures Booked(zone, [], [])
    {
    }

    /** Appends what could not be placed. */
    method Report(plan: EvacuationPlan, zone: Zone, people: int, reason: string,
                  ghost base: Live, ghost zones: seq<Zone>, ghost meta: map<string, Meta>,
                  ghost capacity: map<string, int>, ghost remaining: map<string, int>)
      requires Balanced(plan, base, zones, meta, capacity, remaining)
      modifies plan`unassigned
      ensures Balanced(plan, base, zones, meta, capacity, remaining)
      ensures plan.assignments == old(plan.assignments)
      ensures plan.unassigned == old(plan.unassigned) + [Record(zone, people, reason)]
      ensures forall c :: Unplaced(plan.unassigned, c)
                       == Unplaced(old(plan.unassigned), c) + if c == zone.cellId then people else 0
    {
      hide Reserved, Loaded, RoadsLoaded, AllServed, WellFormed;
      var u := Record(zone, people, reason);
      forall c ensures Unplaced(plan.unassigned + [u], c)
                    == Unplaced(plan.unassigned, c) + if c == zone.cellId then people else 0 {
        UnplacedOne(plan.unassigned, u, c);
      }
      plan.unassigned := plan.unassigned + [u];
    }

    /** Searches from the zone, ranks the shelters on live capacity, and returns the feasible ones. */
    method Options(zone: Zone, c: Scene, root: KdTree.Tree<string>, remaining: map<string, int>)
      returns (feasible: seq<Shelters.Candidate>, why: string, prev: map<int, Hop>, settled: nat,
               ghost rank: map<int, nat>, ghost raw: seq<KdTree.Found<string>>, ghost travel: Shelters.Travel)
      requires graph.Valid() && graph.Snapshot() == c.base.(edgeLoad := graph.edgeLoad) && zone.nearestNode.Some?
      requires Sets(c, root)
      ensures Tree(View(c.base), zone.nearestNode.value, prev, rank)
      ensures forall cand :: cand in feasible ==> Reached(c.meta, rank, cand.shelterId)
      ensures Shelters.Known(raw, c.payloads) && TwelveNearest(c, zone, raw)
      ensures Travels(graph.Snapshot(), zone.nearestNode.value, c.ids, c.meta, c.cutoff, travel)
      ensures feasible == Shelters.FeasibleOnes(RankedFrom(c, zone, remaining, raw, travel))
      ensures why == Why(RankedFrom(c, zone, remaining, raw, travel))
    {
      hide Tree, View, WellFormed, KdTree.Build, Shelters.FeasibleOnes, Shelters.Ranked, Shelters.JudgeAll, Travels,
           Why, Reached;
      var prev', settled', rank', seconds := SearchFrom(zone.nearestNode.value, c);
      prev, settled, rank, travel := prev', settled', rank', seconds;
      var ranked;
      ranked, raw := RankFor(zone, c, root, remaining, seconds);
      Excuses.FeasibleHaveRoutes(c, zone, remaining, raw, travel);
      feasible := Shelters.FeasibleOnes(ranked);
      why := Why(ranked);
    }

    /** One search for all the shelters at once, within the cutoff. */
    method SearchFrom(source: int, c: Scene)
      returns (prev: map<int, Hop>, settled: nat, ghost rank: map<int, nat>, travel: Shelters.Travel)
      requires graph.Valid() && graph.Snapshot() == c.base.(edgeLoad := graph.edgeLoad) && c.cutoff == maxTravelTimeS
      ensures Tree(View(c.base), source, prev, rank) && forall id :: id in travel ==> Reached(c.meta, rank, id)
      ensures Travels(graph.Snapshot(), source, c.ids, c.meta, c.cutoff, travel)
    {
      hide Tree, View, WellFormed, Travels, IsDistance, TimedBy, BestFirst.Complete, BestFirst.Frugal,
           BestFirst.LastRoadOver;
      var nodes := set id | id in c.ids && Located(c.meta, id) :: Node(c.meta, id);
      var dist, prev', done, rank' := graph.Dijkstra(source, Some(nodes), Some(maxTravelTimeS));
      prev, settled, rank := prev', |done|, rank';
      travel := TravelTimes(source, c.ids, c.meta, dist, prev, settled, rank, c.cutoff);
      SearchTravels(c, graph.Snapshot(), source, nodes, dist, done, travel);
      TravelIsReached(graph.Snapshot(), source, c.meta, c.cutoff, dist, rank, travel);
      LoadKeepsTree(graph.Snapshot(), c.base, source, prev, rank);
    }

    /** The twelve nearest shelters, ranked on live capacity. */
    method RankFor(zone: Zone, c: Scene, root: KdTree.Tree<string>, remaining: map<string, int>,
                   travel: Shelters.Travel)
      returns (ranked: seq<Shelters.Candidate>, ghost raw: seq<KdTree.Found<string>>)
      requires Sets(c, root)
      ensures Shelters.Known(raw, c.payloads) && TwelveNearest(c, zone, raw)
      ensures ranked == RankedFrom(c, zone, remaining, raw, travel)
    {
      hide KdTree.Build, KdTree.Best, KdTree.Dists, KdTree.Candidates, Shelters.Ranked, Shelters.JudgeAll;
      ranked, raw := Shelters.RankShelters(c.items, root, Refreshed(c.payloads, remaining), hav,
                                           zone.place, project(zone.place), zone.people, Shelters.K_CANDIDATES,
                                           Some(Shelters.MAX_STRAIGHT_LINE_M), Shelters.UNSAFE_RISK, Some(travel));
    }

    lemma TravelIsReached(o: Live, source: int, meta: map<string, Meta>, cutoff: real, dist: map<int, real>,
                          rank: map<int, nat>, travel: Shelters.Travel)
      requires dist.Keys == rank.Keys
      requires forall id :: id in travel ==> TimedBy(o, source, meta, cutoff, dist, id, travel[id])
      ensures forall id :: id in travel ==> Reached(meta, rank, id)
    {
      hide Timed;
    }

    /** A zone with a road node: its options, then its share of them, then the report. */
    method PlaceLocated(plan: EvacuationPlan, zone: Zone, c: Scene, root: KdTree.Tree<string>,
                        remaining0: map<string, int>, ghost zones: seq<Zone>, ghost capacity: map<string, int>)
      returns (remaining: map<string, int>, ghost e: Step)
      requires Balanced(plan, c.base, zones, c.meta, capacity, remaining0)
      requires zone in zones && zone.people > 0 && zone.nearestNode.Some? && Sets(c, root)
      modifies plan, graph`edgeLoad
      ensures Balanced(plan, c.base, zones, c.meta, capacity, remaining)
      ensures e == Step(zone, remaining0, old(graph.edgeLoad), e.raw, e.travel, e.placed, e.reports, remaining)
      ensures LocatedStep(c, e)
      ensures plan.assignments == old(plan.assignments) + e.placed
      ensures plan.unassigned == old(plan.unassigned) + e.reports
      ensures forall k :: Settled(plan, k) == old(Settled(plan, k)) + if k == zone.cellId then zone.people else 0
    {
      hide Reserved, Loaded, RoadsLoaded, AllServed, Tree, View, WellFormed, Reached, KdTree.Build, PeopleFrom,
           Unplaced,
           Shelters.FeasibleOnes, RankedFrom, Travels, TwelveNearest, Serve, Booked, Keyed;
      remaining := remaining0;
      ghost var load := graph.edgeLoad;
      var feasible, why, prev, settled, rank, raw, travel := Options(zone, c, root, remaining);
      ghost var out := Serve(feasible, remaining0, zone.people, c.split, c.most);
      if feasible == [] {
        Report(plan, zone, zone.people, NO_FEASIBLE + why, c.base, zones, c.meta, capacity, remaining);
        e := Step(zone, remaining0, load, raw, travel, [], [Record(zone, zone.people, NO_FEASIBLE + why)], remaining);
        ServeNoMore([], remaining0, zone.people, c.split, c.most, []);
        NothingBooked(zone);
        return;
      }
      ghost var before := plan.assignments;
      var left;
      ghost var placed;
      remaining, left, placed := Fill(plan, zone, c.meta, feasible, prev, settled, remaining, rank, c.base, zones,
                                      capacity);
      EveryoneIsTakenOrLeft(feasible, remaining0, zone.people, c.split, c.most);
      if left > 0 {
        Report(plan, zone, left, EXHAUSTED, c.base, zones, c.meta, capacity, remaining);
        e := Step(zone, remaining0, load, raw, travel, placed, [Record(zone, left, EXHAUSTED)], remaining);
      } else {
        e := Step(zone, remaining0, load, raw, travel, placed, [], remaining);
      }
    }

    /** One zone of the plan: everyone in it is either placed or reported. */
    method PlaceZone(plan: EvacuationPlan, zone: Zone, c: Scene, root: KdTree.Tree<string>,
                     remaining0: map<string, int>, ghost zones: seq<Zone>, ghost capacity: map<string, int>)
      returns (remaining: map<string, int>, ghost e: Step)
      requires Balanced(plan, c.base, zones, c.meta, capacity, remaining0) && zone in zones && Sets(c, root)
      modifies plan, graph`edgeLoad
      ensures Balanced(plan, c.base, zones, c.meta, capacity, remaining)
      ensures e == Step(zone, remaining0, old(graph.edgeLoad), e.raw, e.travel, e.placed, e.reports, remaining)
      ensures StepOk(c, e)
      ensures plan.assignments == old(plan.assignments) + e.placed
      ensures plan.unassigned == old(plan.unassigned) + e.reports
      ensures forall k :: Settled(plan, k) == old(Settled(plan, k)) + if k == zone.cellId then Demand(zone) else 0
    {
      hide Reserved, Loaded, RoadsLoaded, AllServed, WellFormed, KdTree.Build, PeopleFrom, Unplaced, LocatedStep, Keyed;
      remaining := remaining0;
      if zone.people <= 0 {
        e := Step(zone, remaining0, graph.edgeLoad, [], map[], [], [], remaining0);
      } else if zone.nearestNode.None? {
        Report(plan, zone, zone.people, NO_ACCESS, c.base, zones, c.meta, capacity, remaining);
        e := Step(zone, remaining0, graph.edgeLoad, [], map[], [], [Record(zone, zone.people, NO_ACCESS)], remaining0);
      } else {
        remaining, e := PlaceLocated(plan, zone, c, root, remaining, zones, capacity);
      }
    }

    /** The zones, one after the other. */
    method PlaceAll(plan: EvacuationPlan, zones: seq<Zone>, c: Scene, root: KdTree.Tree<string>,
                    remaining0: map<string, int>)
      returns (remaining: map<string, int>, ghost steps: seq<Step>)
      requires Balanced(plan, c.base, zones, c.meta, remaining0, remaining0) && Sets(c, root)
      requires plan.assignments == [] && plan.unassigned == []
      modifies plan, graph`edgeLoad
      ensures Balanced(plan, c.base, zones, c.meta, remaining0, remaining)
      ensures Kept(c, remaining0, zones, steps) && remaining == StockAfter(remaining0, steps)
      ensures plan.assignments == AllPlaced(steps) && plan.unassigned == AllReports(steps)
      ensures forall k :: Settled(plan, k) == Demands(zones, k)
    {
      hide Reserved, Loaded, RoadsLoaded, AllServed, WellFormed, KdTree.Build, PeopleFrom, Unplaced, StepOk, Sets;
      remaining, steps := remaining0, [];
      NobodySettled(plan);
      hide Settled;
      for i := 0 to |zones|
        invariant Balanced(plan, c.base, zones, c.meta, remaining0, remaining)
        invariant Kept(c, remaining0, zones[..i], steps) && remaining == StockAfter(remaining0, steps)
        invariant plan.assignments == AllPlaced(steps) && plan.unassigned == AllReports(steps)
        invariant forall k :: Settled(plan, k) == Demands(zones[..i], k)
      {
        hide Kept, AllPlaced, AllReports, StockAfter;
        assert zones[..i + 1] == zones[..i] + [zones[i]];
        DemandsOneMore(zones[..i], zones[i]);
        ghost var e;
        remaining, e := PlaceZone(plan, zones[i], c, root, remaining, zones, remaining0);
        KeepOneMore(c, remaining0, zones[..i], steps, zones[i], e);
        steps := steps + [e];
      }
      assert zones[..|zones|] == zones;
    }

    lemma NobodySettled(plan: EvacuationPlan)
      requires plan.assignments == [] && plan.unassigned == []
      ensures forall k :: Settled(plan, k) == 0
    {
    }

    /** The reservation dictionary, shelter by shelter, and the order of its keys. */
    method OpenReservations(results: seq<Capacity.CapacityResult>)
      returns (remaining: map<string, int>, byId: map<string, Capacity.CapacityResult>, ids: seq<string>)
      ensures remaining == Capacities(results) && byId == ById(results) && ids == Order(results)
    {
      remaining, byId, ids := map[], map[], [];
      for i := 0 to |results|
        invariant remaining == Capacities(results[..i]) && byId == ById(results[..i]) && ids == Order(results[..i])
      {
        assert results[..i + 1][..i] == results[..i];
        var r := results[i];
        byId := byId[r.shelterId := r];
        if r.operational {
          remaining := remaining[r.shelterId := r.effectiveCapacity];
          if r.shelterId !in ids {
            ids := ids + [r.shelterId];
          }
        }
      }
      assert results[..|results|] == results;
    }

    /** The shelters that have both capacity and a place on the map: what the whole plan works with. */
    function SceneOf(base: Live, ids: seq<string>, byId: map<string, Capacity.CapacityResult>, meta: map<string, Meta>,
                     remaining: map<string, int>): Scene
      requires forall id :: id in ids ==> id in byId && id in meta && id in remaining
    {
      Scene(base, ids, meta,
            map id | id in ids :: PayloadOf(byId[id], meta[id], remaining[id]),
            seq(|ids|, i requires 0 <= i < |ids| => KdTree.Item(project(meta[ids[i]].place), ids[i])),
            maxTravelTimeS, splitLargeZones, maxSheltersPerZone, hav, project)
    }

    function PayloadOf(r: Capacity.CapacityResult, m: Meta, capacity: int): Shelters.Payload {
      Shelters.Payload(r.shelterId, r.name, m.place, capacity, m.hazardRisk, true,
                       if r.medics.Some? then r.medics.value else 0, r.waterDays, r.foodDays)
    }

    /** The catalogue holds exactly the shelters named, each once, at its place and with its capacity. */
    lemma SceneHolds(base: Live, ids: seq<string>, byId: map<string, Capacity.CapacityResult>, meta: map<string, Meta>,
                     remaining: map<string, int>)
      requires forall id :: id in ids ==> id in byId && id in meta && id in remaining && byId[id].shelterId == id
      ensures var c := SceneOf(base, ids, byId, meta, remaining);
              && Sets(c, KdTree.Build(c.items, 0)) && |c.items| == |ids|
              && (forall id :: id in c.payloads <==> id in ids)
              && (forall id :: id in ids ==>
                    c.payloads[id].effectiveCapacity == remaining[id] && c.payloads[id].operational)
              && (forall i :: 0 <= i < |ids| ==> c.items[i] == KdTree.Item(project(meta[ids[i]].place), ids[i]))
              && (forall id :: id in ids ==>
                    && c.payloads[id].name == byId[id].name && c.payloads[id].place == meta[id].place
                    && c.payloads[id].hazardRisk == meta[id].hazardRisk
                    && c.payloads[id].waterDays == byId[id].waterDays && c.payloads[id].foodDays == byId[id].foodDays
                    && (c.payloads[id].medics > 0 <==> byId[id].medics.Some? && byId[id].medics.value > 0))
    {
      hide KdTree.Build;
    }

    /** Nobody can be taken in: every zone is reported as it is. */
    method ReportAll(plan: EvacuationPlan, zones: seq<Zone>, ghost base: Live, ghost meta: map<string, Meta>,
                     ghost capacity: map<string, int>)
      requires Balanced(plan, base, zones, meta, capacity, capacity)
      modifies plan`unassigned
      ensures Balanced(plan, base, zones, meta, capacity, capacity)
      ensures plan.unassigned == old(plan.unassigned) + Refused(zones)
      ensures forall c :: Settled(plan, c) == old(Settled(plan, c)) + Living(zones, c)
    {
      hide Reserved, Loaded, RoadsLoaded, AllServed, WellFormed, PeopleFrom, Unplaced;
      for i := 0 to |zones|
        invariant Balanced(plan, base, zones, meta, capacity, capacity)
        invariant plan.unassigned == old(plan.unassigned) + Refused(zones[..i])
        invariant forall c :: Settled(plan, c) == old(Settled(plan, c)) + Living(zones[..i], c)
      {
        assert zones[..i + 1][..i] == zones[..i];
        Report(plan, zones[i], zones[i].people, NO_SHELTER, base, zones, meta, capacity, capacity);
      }
      assert zones[..|zones|] == zones;
    }

    /** What a plan rests on: the roads without load, and the shelters with capacity and a place. */
    ghost function Offer(base: Live, results: seq<Capacity.CapacityResult>, meta: map<string, Meta>): Scene {
      OrderIsKeys(results);
      MappedMembers(Order(results), meta);
      SceneOf(base, Mapped(Order(results), meta), ById(results), meta, Capacities(results))
    }

    /**
     The whole plan. Capacity is never overcommitted, loads are what the assignments say,
     every assignment has a real route over roads passable throughout, and everyone is
     accounted for. `steps` is how it came about: each zone in turn is served best shelter
     first from what the earlier ones have left, and whoever is reported from it is left for a
     reason that still holds at the end. Zones come in priority order; nothing here depends on it.
     */
    method Plan(zones: seq<Zone>, results: seq<Capacity.CapacityResult>, meta: map<string, Meta>)
      returns (plan: EvacuationPlan, ghost remaining: map<string, int>, ghost steps: seq<Step>)
      requires graph.Valid()
      modifies graph`edgeLoad
      ensures fresh(plan)
      ensures Balanced(plan, old(graph.Snapshot()).(edgeLoad := map[]), zones, meta, Capacities(results), remaining)
      ensures var c := Offer(old(graph.Snapshot()).(edgeLoad := map[]), results, meta);
              if c.ids == []
              then plan.assignments == [] && plan.unassigned == Refused(zones) && remaining == Capacities(results)
              else && Kept(c, Capacities(results), zones, steps) && remaining == StockAfter(Capacities(results), steps)
                   && plan.assignments == AllPlaced(steps) && plan.unassigned == AllReports(steps)
                   && Excuses.Justified(c, graph.edgeLoad, remaining, steps) && Excuses.AllOnTime(c, steps)
      ensures (forall z :: z in zones ==> 0 <= z.people) ==> forall k :: Settled(plan, k) == Living(zones, k)
      ensures (forall z :: z in zones ==> 0 <= z.people) ==>
                Totals.PeoplePlaced(plan.assignments) + Totals.PeopleUnplaced(plan.unassigned) == Totals.PeopleIn(zones)
    {
      hide Reserved, Loaded, RoadsLoaded, AllServed, WellFormed, Kept, Settled, Capacities, Offer, Excuses.Justified,
           Excuses.AllOnTime;
      plan, remaining, steps := Draft(zones, results, meta);
      ghost var c := Offer(old(graph.Snapshot()).(edgeLoad := map[]), results, meta);
      if c.ids != [] {
        OfferIsKeyed(old(graph.Snapshot()).(edgeLoad := map[]), results, meta);
        Excuses.PlanIsJustified(c, Capacities(results), zones, steps, graph.edgeLoad);
        Excuses.PlanIsOnTime(c, Capacities(results), zones, steps);
      }
      if forall z | z in zones :: 0 <= z.people {
        Conclude(plan, zones);
      }
    }

    lemma OfferIsKeyed(base: Live, results: seq<Capacity.CapacityResult>, meta: map<string, Meta>)
      ensures var c := Offer(base, results, meta); Keyed(c) && c.base == base
    {
      OrderIsKeys(results);
      MappedMembers(Order(results), meta);
      KeyedById(results);
      hide Order, Mapped, ById, Capacities;
    }

    /** The plan before its totals are drawn. */
    method Draft(zones: seq<Zone>, results: seq<Capacity.CapacityResult>, meta: map<string, Meta>)
      returns (plan: EvacuationPlan, ghost remaining: map<string, int>, ghost steps: seq<Step>)
      requires graph.Valid()
      modifies graph`edgeLoad
      ensures fresh(plan)
      ensures WellFormed(old(graph.Snapshot()).(edgeLoad := map[]))
      ensures Balanced(plan, old(graph.Snapshot()).(edgeLoad := map[]), zones, meta, Capacities(results), remaining)
      ensures var c := Offer(old(graph.Snapshot()).(edgeLoad := map[]), results, meta);
              if c.ids == []
              then plan.assignments == [] && plan.unassigned == Refused(zones) && remaining == Capacities(results)
              else && Kept(c, Capacities(results), zones, steps) && remaining == StockAfter(Capacities(results), steps)
                   && plan.assignments == AllPlaced(steps) && plan.unassigned == AllReports(steps)
      ensures (forall z :: z in zones ==> 0 <= z.people) ==> forall k :: Settled(plan, k) == Living(zones, k)
    {
      hide KdTree.Build, WellFormed, Capacities, ById, Order, Mapped, Kept, Sets;
      plan := new EvacuationPlan();
      steps := [];
      graph.ResetLoad();
      var base := graph.Snapshot();
      var left, byId, order := OpenReservations(results);
      assert Balanced(plan, base, zones, meta, left, left);
      OrderIsKeys(results);
      var ids := Mapped(order, meta);
      MappedMembers(order, meta);
      NobodySettled(plan);
      hide Settled, Reserved, Loaded, RoadsLoaded, AllServed;
      if ids == [] {
        ReportAll(plan, zones, base, meta, left);
        remaining := left;
        return;
      }
      KeyedById(results);
      SceneHolds(base, ids, byId, meta, left);
      var c := SceneOf(base, ids, byId, meta, left);
      remaining, steps := PlaceAll(plan, zones, c, KdTree.Build(c.items, 0), left);
      DemandIsLiving(zones);
    }

    lemma Conclude(plan: EvacuationPlan, zones: seq<Zone>)
      requires forall c :: Settled(plan, c) == Living(zones, c)
      ensures Totals.PeoplePlaced(plan.assignments) + Totals.PeopleUnplaced(plan.unassigned) == Totals.PeopleIn(zones)
    {
      forall c ensures PeopleFrom(plan.assignments, c) + Unplaced(plan.unassigned, c) == Living(zones, c) {
        assert Settled(plan, c) == Living(zones, c);
      }
      Totals.EveryoneIsCounted(plan.assignments, plan.unassigned, zones);
    }

    /** Everyone of the cell the plan accounts for, placed or not. */
    ghost function Settled(plan: EvacuationPlan, cell: string): int
      reads plan
    {
      PeopleFrom(plan.assignments, cell) + Unplaced(plan.unassigned, cell)
    }
  }

  lemma DemandsOneMore(zones: seq<Zone>, z: Zone)
    ensures forall k :: Demands(zones + [z], k) == Demands(zones, k) + if z.cellId == k then Demand(z) else 0
  {
    assert (zones + [z])[..|zones|] == zones;
  }

  lemma {:induction false} KeyedById(rs: seq<Capacity.CapacityResult>)
    ensures forall id :: id in ById(rs) ==> ById(rs)[id].shelterId == id
  {
    if rs != [] {
      KeyedById(rs[..|rs| - 1]);
    }
  }

  lemma {:induction false} DemandIsLiving(zones: seq<Zone>)
    ensures (forall z :: z in zones ==> 0 <= z.people) ==> forall c :: Demands(zones, c) == Living(zones, c)
  {
    if zones != [] {
      DemandIsLiving(zones[..|zones| - 1]);
    }
  }

  // ----- end to end: capacity engine, reservation, plan ----------------------------------------

  lemma {:induction false} CapacityAt(rs: seq<Capacity.CapacityResult>, i: nat)
    requires i < |rs| && forall j, k :: 0 <= j < k < |rs| ==> rs[j].shelterId != rs[k].shelterId
    ensures rs[i].shelterId in Capacities(rs) <==> rs[i].operational
    ensures rs[i].operational ==> Capacities(rs)[rs[i].shelterId] == rs[i].effectiveCapacity
  {
    var init, last := rs[..|rs| - 1], rs[|rs| - 1];
    if i < |rs| - 1 {
      CapacityAt(init, i);
      assert init[i] == rs[i];
    } else {
      NotEarlier(init, last.shelterId);
    }
  }

  lemma {:induction false} NotEarlier(rs: seq<Capacity.CapacityResult>, id: string)
    requires forall j :: 0 <= j < |rs| ==> rs[j].shelterId != id
    ensures id !in Capacities(rs)
  {
    if rs != [] {
      NotEarlier(rs[..|rs| - 1], id);
    }
  }

  /**
   Whatever a plan sends to a shelter, on top of its occupants and those already under way,
   keeps it within the safe share of its space and within every limit it has reported.
   */
  lemma LoadedSheltersAreSafe(g: Capacity.Engine, states: seq<Capacity.ShelterState>, ages: seq<Option<real>>,
                              rs: seq<Capacity.CapacityResult>, remaining: map<string, int>,
                              xs: seq<Assignment>, i: nat)
    requires |states| == |ages| == |rs| && i < |rs|
    requires forall j :: 0 <= j < |rs| ==> rs[j] == Capacity.Compute(g, states[j], ages[j])
    requires forall j, k :: 0 <= j < k < |rs| ==> states[j].shelterId != states[k].shelterId
    requires Reserved(Capacities(rs), remaining, xs)
    requires PeopleTo(xs, states[i].shelterId) > 0
    ensures Capacity.WithinLimits(g, states[i], Capacity.Committed(states[i]) + PeopleTo(xs, states[i].shelterId))
  {
    NoOvercommitment(Capacities(rs), remaining, xs, states[i].shelterId);
    assert forall j :: 0 <= j < |rs| ==> rs[j].shelterId == states[j].shelterId;
    CapacityAt(rs, i);
    Capacity.FillingIsSafe(g, states[i], ages[i], PeopleTo(xs, states[i].shelterId));
  }

  /** The shelter has a road node, and the search (or its tree) has come by it. */
  predicate Reached<V>(meta: map<string, Meta>, nodes: map<int, V>, id: string) {
    Located(meta, id) && Node(meta, id) in nodes
  }

  // ----- travel times --------------------------------------------------------------------------

  /** Seconds as the search has them, and with the exposure those of a real path. */
  ghost predicate TimedBy(o: Live, source: int, meta: map<string, Meta>, cutoff: real, dist: map<int, real>,
                          id: string, tt: (real, real)) {
    Reached(meta, dist, id) && tt.0 == dist[Node(meta, id)] && Timed(o, source, Node(meta, id), cutoff, tt)
  }

  lemma TimedByLinks(o: Live, source: int, node: int, cutoff: real, dist: map<int, real>, prev: map<int, Hop>,
                     rank: map<int, nat>, r: RouteResult)
    requires BestFirst.Spans(View(o), source, dist, prev, rank) && node in dist
    requires BestFirst.LastRoadOver(View(o), Some(cutoff), dist, prev)
    requires Reports(o, source, node, TreePath(View(o), source, prev, rank, node), r)
    ensures r.travelTimeS == dist[node] && Timed(o, source, node, cutoff, (r.travelTimeS, r.hazardExposure))
  {
    var p := TreePath(View(o), source, prev, rank, node);
    TreePathIsPath(View(o), source, prev, rank, node);
    if node != source {
      var u := prev[node].src;
      assert p == TreePath(View(o), source, prev, rank, u) + [prev[node]];
      assert p[..|p| - 1] == TreePath(View(o), source, prev, rank, u);
      assert Cost(View(o), p[..|p| - 1]) == dist[u] <= cutoff;
    }
    hide View, TreePath, Exposure;
    assert Journal.LastRoadOver(o, cutoff, p);
  }

  /** What the search promises of the shelters' nodes, said of the shelters. */
  lemma SearchTravels(c: Scene, o: Live, source: int, nodes: set<int>, dist: map<int, real>, settled: set<int>,
                      travel: Shelters.Travel)
    requires forall id :: id in c.ids && Located(c.meta, id) ==> Node(c.meta, id) in nodes
    requires settled <= dist.Keys && forall u :: u in settled ==> IsDistance(View(o), source, u, dist[u])
    requires BestFirst.Complete(View(o), source, Some(nodes), Some(c.cutoff), settled)
    requires forall id :: id in travel ==> id in c.ids && TimedBy(o, source, c.meta, c.cutoff, dist, id, travel[id])
    requires forall id :: id in c.ids && Reached(c.meta, dist, id) ==> id in travel
    ensures Travels(o, source, c.ids, c.meta, c.cutoff, travel)
  {
    hide View, IsDistance, IsPath, Timed;
    forall id | id in c.ids && Located(c.meta, id) && WithinCutoff(o, source, Node(c.meta, id), c.cutoff)
      ensures id in travel && IsDistance(View(o), source, Node(c.meta, id), travel[id].0)
    {
      var p :| IsPath(View(o), source, Node(c.meta, id), p) && Cost(View(o), p) <= c.cutoff;
      assert Node(c.meta, id) in settled;
      assert Reached(c.meta, dist, id) && TimedBy(o, source, c.meta, c.cutoff, dist, id, travel[id]);
    }
  }

  lemma AppendedFrom(xs: seq<Assignment>, a: Assignment)
    ensures forall c :: PeopleFrom(xs + [a], c) == PeopleFrom(xs, c) + if a.cellId == c then a.people else 0
  {
    assert (xs + [a])[..|xs|] == xs;
  }

  lemma BookedOneMore(zone: Zone, ts: seq<Take>, xs: seq<Assignment>, t: Take, a: Assignment)
    requires Booked(zone, ts, xs) && Carries(zone, t, a)
    ensures Booked(zone, ts + [t], xs + [a]) && a.cellId == zone.cellId && a.people == t.people
  {
  }

  /** The records of a plan that has no shelter to offer. */
  function Refused(zones: seq<Zone>): seq<Unassigned> {
    if zones == [] then []
    else Refused(zones[..|zones| - 1]) + [Record(zones[|zones| - 1], zones[|zones| - 1].people, NO_SHELTER)]
  }

  /** Each zone once, in order, with all its people, its rank and the reason. */
  lemma {:induction false} RefusedIsEachZone(zones: seq<Zone>)
    ensures |Refused(zones)| == |zones|
    ensures forall i :: 0 <= i < |zones| ==>
              Refused(zones)[i] == Unassigned(zones[i].cellId, zones[i].people, "no operational shelter available",
                                              zones[i].priorityRank)
  {
    if zones != [] {
      RefusedIsEachZone(zones[..|zones| - 1]);
    }
  }
}
