/**
 What an evacuation plan keeps true while it is drawn up: people are conserved, no
 shelter is promised beyond its capacity, every route is real, and road loads add up.
 */
module Books {
  import opened Wrappers
  import opened Paths
  import opened Overlay
  import RoadGraphs

  datatype Zone = Zone(cellId: string, place: Coord, nearestNode: Option<int>, people: int,
                       priorityRank: int, timeToImpactH: Option<real>)

  datatype Meta = Meta(place: Coord, nearestNode: Option<int>, hazardRisk: real)

  datatype Assignment = Assignment(cellId: string, shelterId: string, shelterName: string, people: int,
                                   route: Option<RoadGraphs.RouteResult>, travelTimeS: real, distanceM: real,
                                   hazardExposure: real, priorityRank: int, beforeImpact: Option<bool>)

  datatype Unassigned = Unassigned(cellId: string, people: int, reason: string, priorityRank: int)

  // ----- sums -------------------------------------------------------------------------------

  function PeopleTo(xs: seq<Assignment>, shelter: string): int {
    if xs == [] then 0
    else PeopleTo(xs[..|xs| - 1], shelter) + if xs[|xs| - 1].shelterId == shelter then xs[|xs| - 1].people else 0
  }

  function PeopleFrom(xs: seq<Assignment>, cell: string): int {
    if xs == [] then 0
    else PeopleFrom(xs[..|xs| - 1], cell) + if xs[|xs| - 1].cellId == cell then xs[|xs| - 1].people else 0
  }

  function Unplaced(xs: seq<Unassigned>, cell: string): int {
    if xs == [] then 0
    else Unplaced(xs[..|xs| - 1], cell) + if xs[|xs| - 1].cellId == cell then xs[|xs| - 1].people else 0
  }

  function Living(zones: seq<Zone>, cell: string): int {
    if zones == [] then 0
    else Living(zones[..|zones| - 1], cell) + if zones[|zones| - 1].cellId == cell then zones[|zones| - 1].people else 0
  }

  /** People times occurrences of the road, over all assigned routes. */
  function RoadLoad(xs: seq<Assignment>, road: int): int {
    if xs == [] then 0
    else
      var a := xs[|xs| - 1];
      RoadLoad(xs[..|xs| - 1], road)
      + if a.route.Some? then a.people * RoadGraphs.Occurrences(a.route.value.roadIds, road) else 0
  }

  // ----- the books --------------------------------------------------------------------------

  /** `r` follows roads that are all passable in `o`, from `s` to `t`. */
  ghost predicate RealRoute(o: Live, s: int, t: int, r: RoadGraphs.RouteResult) {
    && r.Feasible() && r.origin == s && r.destination == t
    && exists p :: IsPath(View(o), s, t, p) && r.roadIds == Roads(p) && r.nodePath == RoadGraphs.Nodes(p, t)
                   && r.distanceM == RoadGraphs.Length(p)
  }

  /** `a` sends people along a real route from its zone to its shelter. */
  ghost predicate Served(o: Live, zone: Zone, meta: map<string, Meta>, a: Assignment) {
    && a.cellId == zone.cellId && a.people > 0 && zone.nearestNode.Some?
    && a.shelterId in meta && meta[a.shelterId].nearestNode.Some?
    && a.route.Some? && RealRoute(o, zone.nearestNode.value, meta[a.shelterId].nearestNode.value, a.route.value)
  }

  ghost predicate AllServed(o: Live, zones: seq<Zone>, meta: map<string, Meta>, xs: seq<Assignment>) {
    forall a :: a in xs ==> exists z :: z in zones && Served(o, z, meta, a)
  }

  function At(m: map<string, int>, k: string): int {
    if k in m then m[k] else 0
  }

  /** Reserved and remaining capacity make up what there was; nothing is reserved beyond it. */
  ghost predicate Reserved(capacity: map<string, int>, remaining: map<string, int>, xs: seq<Assignment>) {
    && remaining.Keys == capacity.Keys
    && (forall k :: k in capacity ==> remaining[k] + PeopleTo(xs, k) == capacity[k])
    && (forall k :: k in capacity ==> 0 <= remaining[k] || remaining[k] == capacity[k])
    && (forall k :: k !in capacity ==> PeopleTo(xs, k) == 0)
  }

  ghost predicate Loaded(load: map<string, int>, xs: seq<Assignment>) {
    forall k :: At(load, k) == PeopleTo(xs, k)
  }

  ghost predicate RoadsLoaded(o: Live, xs: seq<Assignment>) {
    forall r :: LoadOf(o, r) == RoadLoad(xs, r)
  }

  lemma ReserveOne(capacity: map<string, int>, remaining: map<string, int>, xs: seq<Assignment>, a: Assignment)
    requires Reserved(capacity, remaining, xs)
    requires a.shelterId in remaining && a.people <= remaining[a.shelterId] && 0 <= remaining[a.shelterId]
    ensures Reserved(capacity, remaining[a.shelterId := remaining[a.shelterId] - a.people], xs + [a])
  {
  }

  lemma LoadOne(load: map<string, int>, xs: seq<Assignment>, a: Assignment)
    requires Loaded(load, xs)
    ensures Loaded(load[a.shelterId := At(load, a.shelterId) + a.people], xs + [a])
  {
    assert (xs + [a])[..|xs|] == xs;
    forall k ensures At(load[a.shelterId := At(load, a.shelterId) + a.people], k) == PeopleTo(xs + [a], k) {
      assert At(load, k) == PeopleTo(xs, k);
    }
  }

  lemma RoadOne(o: Live, o': Live, xs: seq<Assignment>, a: Assignment)
    requires RoadsLoaded(o, xs) && a.route.Some?
    requires forall r :: LoadOf(o', r) == LoadOf(o, r) + a.people * RoadGraphs.Occurrences(a.route.value.roadIds, r)
    ensures RoadsLoaded(o', xs + [a])
  {
  }

  lemma ServeOne(o: Live, zones: seq<Zone>, meta: map<string, Meta>, xs: seq<Assignment>, zone: Zone, a: Assignment)
    requires AllServed(o, zones, meta, xs) && zone in zones && Served(o, zone, meta, a)
    ensures AllServed(o, zones, meta, xs + [a])
  {
  }

  lemma UnplacedOne(us: seq<Unassigned>, u: Unassigned, cell: string)
    ensures Unplaced(us + [u], cell) == Unplaced(us, cell) + if u.cellId == cell then u.people else 0
  {
  }

  /** A shelter is never promised to more people than it can take. */
  lemma NoOvercommitment(capacity: map<string, int>, remaining: map<string, int>, xs: seq<Assignment>, k: string)
    requires Reserved(capacity, remaining, xs) && PeopleTo(xs, k) > 0
    ensures k in capacity && PeopleTo(xs, k) <= capacity[k]
  {
  }
}
