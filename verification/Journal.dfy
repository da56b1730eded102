/**
 What the plan of backend/app/evacuation/optimizer.py does for one zone after another: the
 shelters it weighs, who takes how many, and what it reports of those it cannot place.
 */
module Journal {
  import opened Wrappers
  import opened Paths
  import opened Overlay
  import opened Books
  import KdTree
  import RoadGraphs
  import Shelters

  // ----- serving one zone -----------------------------------------------------------------

  datatype Take = Take(cand: Shelters.Candidate, people: int)

  datatype Outcome = Outcome(takes: seq<Take>, stock: map<string, int>, left: int)

  /** How many of `people` a shelter takes that has `available` places. */
  function Share(available: int, people: int, split: bool): int {
    if split then Smaller(available, people) else if people <= available then people else 0
  }

  /** Best shelter first, and no more than `most` of them. */
  function Serve(cs: seq<Shelters.Candidate>, stock: map<string, int>, people: int, split: bool, most: int): Outcome {
    if cs == [] || people <= 0 || most <= 0 then Outcome([], stock, people)
    else
      var id := cs[0].shelterId;
      var take := Share(At(stock, id), people, split);
      if take <= 0 then Serve(cs[1..], stock, people, split, most)
      else
        var rest := Serve(cs[1..], stock[id := At(stock, id) - take], people - take, split, most - 1);
        rest.(takes := [Take(cs[0], take)] + rest.takes)
  }

  /** With the earlier takes in front. */
  function Onward(done: seq<Take>, out: Outcome): Outcome {
    out.(takes := done + out.takes)
  }

  /** One turn of the loop over the shelters. */
  lemma ServeNext(cs: seq<Shelters.Candidate>, i: nat, stock: map<string, int>, people: int, split: bool, most: int,
                  done: seq<Take>)
    requires i < |cs| && people > 0 && most > 0
    ensures var id := cs[i].shelterId;
            var take := Share(At(stock, id), people, split);
            Onward(done, Serve(cs[i..], stock, people, split, most))
              == if take <= 0 then Onward(done, Serve(cs[i + 1..], stock, people, split, most))
                 else Onward(done + [Take(cs[i], take)],
                             Serve(cs[i + 1..], stock[id := At(stock, id) - take], people - take, split, most - 1))
  {
    var rest := cs[i..];
    assert rest[1..] == cs[i + 1..] && rest[0] == cs[i];
    var id := cs[i].shelterId;
    var take := Share(At(stock, id), people, split);
    if take > 0 {
      var out := Serve(cs[i + 1..], stock[id := At(stock, id) - take], people - take, split, most - 1);
      assert done + ([Take(cs[i], take)] + out.takes) == done + [Take(cs[i], take)] + out.takes;
    }
  }

  lemma ServeNoMore(cs: seq<Shelters.Candidate>, stock: map<string, int>, people: int, split: bool, most: int,
                    done: seq<Take>)
    requires cs == [] || people <= 0 || most <= 0
    ensures Onward(done, Serve(cs, stock, people, split, most)) == Outcome(done, stock, people)
  {
    assert done + [] == done;
  }

  function Taken(ts: seq<Take>): int {
    if ts == [] then 0 else ts[0].people + Taken(ts[1..])
  }

  function TakenAt(ts: seq<Take>, id: string): int {
    if ts == [] then 0 else (if ts[0].cand.shelterId == id then ts[0].people else 0) + TakenAt(ts[1..], id)
  }

  /** Everyone is taken or left. */
  lemma {:induction false} EveryoneIsTakenOrLeft(cs: seq<Shelters.Candidate>, stock: map<string, int>, people: int,
                                                 split: bool, most: int)
    ensures var out := Serve(cs, stock, people, split, most);
            && Taken(out.takes) + out.left == people && (0 <= people ==> 0 <= out.left)
            && (forall k :: 0 <= k < |out.takes| ==> out.takes[k].people > 0)
    decreases cs
  {
    if cs != [] && people > 0 && most > 0 {
      var id := cs[0].shelterId;
      var take := Share(At(stock, id), people, split);
      if take <= 0 {
        EveryoneIsTakenOrLeft(cs[1..], stock, people, split, most);
      } else {
        EveryoneIsTakenOrLeft(cs[1..], stock[id := At(stock, id) - take], people - take, split, most - 1);
      }
    }
  }

  /** A shelter gives up exactly the places taken there, and none that it has not got. */
  lemma {:induction false} PlacesAreTaken(cs: seq<Shelters.Candidate>, stock: map<string, int>, people: int,
                                          split: bool, most: int, id: string)
    ensures var out := Serve(cs, stock, people, split, most);
            && At(out.stock, id) + TakenAt(out.takes, id) == At(stock, id)
            && At(out.stock, id) <= At(stock, id) && (0 <= At(stock, id) ==> 0 <= At(out.stock, id))
    decreases cs
  {
    if cs != [] && people > 0 && most > 0 {
      var first := cs[0].shelterId;
      var take := Share(At(stock, first), people, split);
      if take <= 0 {
        PlacesAreTaken(cs[1..], stock, people, split, most, id);
      } else {
        PlacesAreTaken(cs[1..], stock[first := At(stock, first) - take], people - take, split, most - 1, id);
      }
    }
  }

  lemma {:induction false} ServeLimit(cs: seq<Shelters.Candidate>, stock: map<string, int>, people: int, split: bool,
                                      most: int)
    ensures |Serve(cs, stock, people, split, most).takes| <= RoadGraphs.Clip(most)
    decreases cs
  {
    if cs != [] && people > 0 && most > 0 {
      var id := cs[0].shelterId;
      var take := Share(At(stock, id), people, split);
      if take <= 0 {
        ServeLimit(cs[1..], stock, people, split, most);
      } else {
        ServeLimit(cs[1..], stock[id := At(stock, id) - take], people - take, split, most - 1);
      }
    }
  }

  /** The places a shelter must have to be of any use to the zone. */
  function Need(people: int, split: bool): int {
    if split then 1 else people
  }

  ghost predicate NoRoom(cs: seq<Shelters.Candidate>, stock: map<string, int>, need: int) {
    forall i :: 0 <= i < |cs| ==> At(stock, cs[i].shelterId) < need
  }

  lemma NoRoomFirst(cs: seq<Shelters.Candidate>, stock: map<string, int>, need: int)
    requires cs != []
    ensures NoRoom(cs, stock, need) <==> At(stock, cs[0].shelterId) < need && NoRoom(cs[1..], stock, need)
  {
    assert cs == [cs[0]] + cs[1..];
  }

  /** Nobody is placed if and only if no shelter has the room, or none may be used. */
  lemma {:induction false} ServesSomeone(cs: seq<Shelters.Candidate>, stock: map<string, int>, people: int,
                                         split: bool, most: int)
    requires people > 0
    ensures Serve(cs, stock, people, split, most).takes == [] <==> most <= 0 || NoRoom(cs, stock, Need(people, split))
    decreases cs
  {
    if cs != [] && most > 0 {
      NoRoomFirst(cs, stock, Need(people, split));
      if Share(At(stock, cs[0].shelterId), people, split) <= 0 {
        ServesSomeone(cs[1..], stock, people, split, most);
      }
    }
  }

  /** People are left only if every shelter has run out of room, or enough of them are in use. */
  lemma {:induction false} LeftForWantOfRoom(cs: seq<Shelters.Candidate>, stock: map<string, int>, people: int,
                                             split: bool, most: int)
    requires people > 0
    ensures var out := Serve(cs, stock, people, split, most);
            && (out.left > 0 ==> most <= |out.takes| || NoRoom(cs, out.stock, Need(people, split)))
            && (!split ==> out.left == 0 || (out.takes == [] && out.left == people))
    decreases cs
  {
    var out := Serve(cs, stock, people, split, most);
    if cs != [] && most > 0 {
      var id := cs[0].shelterId;
      var take := Share(At(stock, id), people, split);
      NoRoomFirst(cs, out.stock, Need(people, split));
      hide NoRoom;
      if take <= 0 {
        PlacesAreTaken(cs[1..], stock, people, split, most, id);
        LeftForWantOfRoom(cs[1..], stock, people, split, most);
      } else if take < people {
        PlacesAreTaken(cs[1..], stock[id := At(stock, id) - take], people - take, split, most - 1, id);
        LeftForWantOfRoom(cs[1..], stock[id := At(stock, id) - take], people - take, split, most - 1);
      }
    }
  }

  ghost predicate AfterBetter(t: Take, cs: seq<Shelters.Candidate>, stock: map<string, int>, need: int) {
    exists j :: 0 <= j < |cs| && cs[j] == t.cand && NoRoom(cs[..j], stock, need)
  }

  lemma AfterOneMore(t: Take, cs: seq<Shelters.Candidate>, stock: map<string, int>, need: int)
    requires cs != [] && At(stock, cs[0].shelterId) < need && AfterBetter(t, cs[1..], stock, need)
    ensures AfterBetter(t, cs, stock, need)
  {
    var j :| 0 <= j < |cs[1..]| && cs[1..][j] == t.cand && NoRoom(cs[1..][..j], stock, need);
    assert cs[..j + 1] == [cs[0]] + cs[1..][..j];
    assert cs[j + 1] == t.cand;
    NoRoomFirst(cs[..j + 1], stock, need);
  }

  /** A zone uses a shelter only once all the better ones have run out of room for it. */
  lemma {:induction false} BetterAreFull(cs: seq<Shelters.Candidate>, stock: map<string, int>, people: int, split: bool,
                                         most: int, k: nat)
    requires k < |Serve(cs, stock, people, split, most).takes|
    ensures var out := Serve(cs, stock, people, split, most);
            AfterBetter(out.takes[k], cs, out.stock, Need(people, split))
    decreases cs
  {
    hide AfterBetter;
    var id := cs[0].shelterId;
    var take := Share(At(stock, id), people, split);
    var out := Serve(cs, stock, people, split, most);
    if take <= 0 {
      PlacesAreTaken(cs[1..], stock, people, split, most, id);
      BetterAreFull(cs[1..], stock, people, split, most, k);
      AfterOneMore(out.takes[k], cs, out.stock, Need(people, split));
    } else if k == 0 {
      AfterNone(cs, out.stock, Need(people, split));
    } else {
      var stock' := stock[id := At(stock, id) - take];
      PlacesAreTaken(cs[1..], stock', people - take, split, most - 1, id);
      BetterAreFull(cs[1..], stock', people - take, split, most - 1, k - 1);
      AfterOneMore(out.takes[k], cs, out.stock, Need(people, split));
    }
  }

  lemma AfterNone(cs: seq<Shelters.Candidate>, stock: map<string, int>, need: int)
    requires cs != []
    ensures forall t: Take :: t.cand == cs[0] ==> AfterBetter(t, cs, stock, need)
  {
    assert NoRoom(cs[..0], stock, need);
  }

  // ----- one zone in the journal ----------------------------------------------------------------

  /** What stays as it is while a plan is drawn up. */
  datatype Scene = Scene(base: Live, ids: seq<string>, meta: map<string, Meta>, payloads: map<string, Shelters.Payload>,
                         items: seq<KdTree.Item<string>>, cutoff: real, split: bool, most: int,
                         hav: (Coord, Coord) -> real, project: Coord -> KdTree.Point)

  /**
   What befell a zone: the capacity and the loads it found, its nearest shelters and the travel to
   them, whom it placed, what was reported, and the capacity it left.
   */
  datatype Step = Step(zone: Zone, stock: map<string, int>, load: map<int, int>, raw: seq<KdTree.Found<string>>,
                       travel: Shelters.Travel, placed: seq<Assignment>, reports: seq<Unassigned>,
                       left: map<string, int>)

  const NO_SHELTER := "no operational shelter available"
  const NO_ACCESS := "zone has no road-network access point"
  const NO_FEASIBLE := "no feasible shelter \U{2014} "
  const NONE_IN_RANGE := "no shelter within range"
  const EXHAUSTED := "shelter capacity within reach is exhausted"

  function OrElse(x: Option<real>, d: real): real {
    if x.Some? && x.value != 0.0 then x.value else d
  }

  /** The record of `take` people of `zone` going to `cand` by `route`. */
  function AssignmentOf(zone: Zone, cand: Shelters.Candidate, take: int, route: RoadGraphs.RouteResult): Assignment {
    Assignment(zone.cellId, cand.shelterId, cand.name, take, Some(route),
               OrElse(cand.travelTime, cand.straightLine / 1000.0 * 180.0), route.distanceM,
               OrElse(cand.routeHazard, 0.0), zone.priorityRank,
               if zone.timeToImpactH.Some? && cand.travelTime.Some?
               then Some(cand.travelTime.value / 3600.0 < zone.timeToImpactH.value) else None)
  }

  predicate Carries(zone: Zone, t: Take, a: Assignment) {
    a.route.Some? && a == AssignmentOf(zone, t.cand, t.people, a.route.value)
  }

  ghost predicate Booked(zone: Zone, ts: seq<Take>, xs: seq<Assignment>) {
    |ts| == |xs| && forall k :: 0 <= k < |ts| ==> Carries(zone, ts[k], xs[k])
  }

  function Record(zone: Zone, people: int, reason: string): Unassigned {
    Unassigned(zone.cellId, people, reason, zone.priorityRank)
  }

  /** Live capacity, as the ranking is to see it. */
  function Refreshed(payloads: map<string, Shelters.Payload>, stock: map<string, int>): map<string, Shelters.Payload> {
    map id | id in payloads ::
      payloads[id].(effectiveCapacity := At(stock, id), operational := At(stock, id) > 0)
  }

  /** Payloads are known by their shelter's id, and only shelters of the plan have one. */
  ghost predicate Keyed(c: Scene) {
    forall id :: id in c.payloads ==> c.payloads[id].shelterId == id && id in c.ids
  }

  predicate Located(meta: map<string, Meta>, id: string) {
    id in meta && meta[id].nearestNode.Some?
  }

  function Node(meta: map<string, Meta>, id: string): int
    requires Located(meta, id)
  {
    meta[id].nearestNode.value
  }

  /** No more than the last road of the route is beyond the cutoff. */
  ghost predicate LastRoadOver(o: Live, cutoff: real, p: seq<Hop>) {
    p != [] ==> Cost(View(o), p[..|p| - 1]) <= cutoff
  }

  /** Seconds and exposure of a real path. */
  ghost predicate Timed(o: Live, s: int, t: int, cutoff: real, tt: (real, real)) {
    exists p :: IsPath(View(o), s, t, p) && LastRoadOver(o, cutoff, p)
                && tt == (Cost(View(o), p), RoadGraphs.Exposure(o, p))
  }

  ghost predicate WithinCutoff(o: Live, s: int, t: int, cutoff: real) {
    exists p :: IsPath(View(o), s, t, p) && Cost(View(o), p) <= cutoff
  }

  /** Every shelter timed is on a real path; those within the cutoff are all timed, by a quickest path. */
  ghost predicate Travels(o: Live, s: int, ids: seq<string>, meta: map<string, Meta>, cutoff: real,
                          travel: Shelters.Travel) {
    && (forall id :: id in travel ==> id in ids && Located(meta, id) && Timed(o, s, Node(meta, id), cutoff, travel[id]))
    && (forall id :: id in ids && Located(meta, id) && WithinCutoff(o, s, Node(meta, id), cutoff) ==>
          id in travel && IsDistance(View(o), s, Node(meta, id), travel[id].0))
  }

  function InRange(c: Scene, zone: Zone): seq<KdTree.Found<string>> {
    KdTree.Candidates(c.project(zone.place), Some(Shelters.MAX_STRAIGHT_LINE_M), c.items)
  }

  /** The twelve nearest of the shelters in range. */
  ghost predicate TwelveNearest(c: Scene, zone: Zone, raw: seq<KdTree.Found<string>>) {
    && KdTree.Dists(raw) == KdTree.Best(Shelters.K_CANDIDATES, KdTree.Dists(InRange(c, zone)))
    && multiset(raw) <= multiset(InRange(c, zone))
  }

  /** The shelters found, judged on the capacity there is, in the order in which they are tried. */
  function RankedFrom(c: Scene, zone: Zone, stock: map<string, int>, raw: seq<KdTree.Found<string>>,
                      travel: Shelters.Travel): seq<Shelters.Candidate>
    requires Shelters.Known(raw, c.payloads)
  {
    Shelters.Ranked(Shelters.JudgeAll(raw, Refreshed(c.payloads, stock), c.hav, zone.place, Shelters.UNSAFE_RISK,
                                      Some(travel), zone.people))
  }

  function RankedFor(c: Scene, e: Step): seq<Shelters.Candidate>
    requires Shelters.Known(e.raw, c.payloads)
  {
    RankedFrom(c, e.zone, e.stock, e.raw, e.travel)
  }

  function Why(ranked: seq<Shelters.Candidate>): string {
    if ranked != [] && ranked[0].rejectedBecause.Some? then ranked[0].rejectedBecause.value else NONE_IN_RANGE
  }

  /** A zone with a road node: its nearest shelters are judged, and serve it in their order. */
  ghost predicate LocatedStep(c: Scene, e: Step)
    requires e.zone.nearestNode.Some?
  {
    && Shelters.Known(e.raw, c.payloads) && TwelveNearest(c, e.zone, e.raw)
    && Travels(c.base.(edgeLoad := e.load), e.zone.nearestNode.value, c.ids, c.meta, c.cutoff, e.travel)
    && var ranked := RankedFor(c, e);
       var out := Serve(Shelters.FeasibleOnes(ranked), e.stock, e.zone.people, c.split, c.most);
       && Booked(e.zone, out.takes, e.placed) && e.left == out.stock
       && e.reports == if Shelters.FeasibleOnes(ranked) == []
                       then [Record(e.zone, e.zone.people, NO_FEASIBLE + Why(ranked))]
                       else if out.left > 0 then [Record(e.zone, out.left, EXHAUSTED)] else []
  }

  ghost predicate StepOk(c: Scene, e: Step) {
    if e.zone.people <= 0 then e.placed == [] && e.reports == [] && e.left == e.stock
    else if e.zone.nearestNode.None? then
      e.placed == [] && e.reports == [Record(e.zone, e.zone.people, NO_ACCESS)] && e.left == e.stock
    else LocatedStep(c, e)
  }

  // ----- the journal --------------------------------------------------------------------------------

  function AllPlaced(steps: seq<Step>): seq<Assignment> {
    if steps == [] then [] else AllPlaced(steps[..|steps| - 1]) + steps[|steps| - 1].placed
  }

  function AllReports(steps: seq<Step>): seq<Unassigned> {
    if steps == [] then [] else AllReports(steps[..|steps| - 1]) + steps[|steps| - 1].reports
  }

  function StockAfter(stock: map<string, int>, steps: seq<Step>): map<string, int> {
    if steps == [] then stock else steps[|steps| - 1].left
  }

  /** One step for each zone, each beginning with what the earlier ones have left. */
  ghost predicate Kept(c: Scene, stock: map<string, int>, zones: seq<Zone>, steps: seq<Step>) {
    |steps| == |zones| &&
    (steps == [] || (
       var init, e := steps[..|steps| - 1], steps[|steps| - 1];
       && Kept(c, stock, zones[..|zones| - 1], init)
       && e.zone == zones[|zones| - 1] && e.stock == StockAfter(stock, init)
       && RoadsLoaded(c.base.(edgeLoad := e.load), AllPlaced(init))
       && StepOk(c, e)))
  }

  lemma KeepOneMore(c: Scene, stock: map<string, int>, zones: seq<Zone>, steps: seq<Step>, z: Zone, e: Step)
    requires Kept(c, stock, zones, steps)
    requires e.zone == z && e.stock == StockAfter(stock, steps) && StepOk(c, e)
    requires RoadsLoaded(c.base.(edgeLoad := e.load), AllPlaced(steps))
    ensures Kept(c, stock, zones + [z], steps + [e])
    ensures AllPlaced(steps + [e]) == AllPlaced(steps) + e.placed
    ensures AllReports(steps + [e]) == AllReports(steps) + e.reports
    ensures StockAfter(stock, steps + [e]) == e.left
  {
    hide StepOk, RoadsLoaded;
    assert (steps + [e])[..|steps|] == steps && (zones + [z])[..|zones|] == zones;
  }
}
