/**
 Why people are left: the records of backend/app/evacuation/optimizer.py judged by what the
 shelters could offer, when the zone had its turn and still when the plan is complete.
 */
module Excuses {
  import opened Wrappers
  import opened Paths
  import opened Overlay
  import opened Books
  import opened Journal
  import KdTree
  import RoadGraphs
  import Shelters

  /** The shelter is unsafe, has not the places, or was not reached from the zone. */
  predicate Unfit(c: Scene, e: Step, id: string, need: int, stock: map<string, int>)
    requires id in c.payloads
  {
    Shelters.UNSAFE_RISK <= c.payloads[id].hazardRisk || At(stock, id) < need || id !in e.travel
  }

  ghost predicate AllUnfit(c: Scene, e: Step, need: int, stock: map<string, int>)
    requires Shelters.Known(e.raw, c.payloads)
  {
    forall k :: 0 <= k < |e.raw| ==> Unfit(c, e, e.raw[k].payload, need, stock)
  }

  // ----- the feasible shelters are the fit ones ---------------------------------------------------

  function JudgedFor(c: Scene, e: Step): seq<Shelters.Candidate>
    requires Shelters.Known(e.raw, c.payloads)
  {
    Shelters.JudgeAll(e.raw, Refreshed(c.payloads, e.stock), c.hav, e.zone.place, Shelters.UNSAFE_RISK,
                                      Some(e.travel), e.zone.people)
  }

  lemma JudgedFit(c: Scene, e: Step, k: nat)
    requires Keyed(c) && Shelters.Known(e.raw, c.payloads) && k < |e.raw|
    ensures JudgedFor(c, e)[k].shelterId == e.raw[k].payload
    ensures JudgedFor(c, e)[k].Feasible() <==> !Unfit(c, e, e.raw[k].payload, 1, e.stock)
  {
    var id := e.raw[k].payload;
    var p := Refreshed(c.payloads, e.stock)[id];
    Shelters.JudgedFeasible(p, c.hav(e.zone.place, p.place), Shelters.UNSAFE_RISK, Some(e.travel), e.zone.people);
    hide Shelters.Judge;
  }

  lemma {:induction false} FeasibleOnesHold(cs: seq<Shelters.Candidate>, c: Shelters.Candidate)
    ensures c in Shelters.FeasibleOnes(cs) <==> c in cs && c.Feasible()
  {
    if cs != [] {
      FeasibleOnesHold(cs[..|cs| - 1], c);
      assert cs == cs[..|cs| - 1] + [cs[|cs| - 1]];
    }
  }

  /** The feasible shelters of the ranking are the feasible ones that were judged. */
  lemma RankedFeasible(c: Scene, e: Step, cand: Shelters.Candidate)
    requires Shelters.Known(e.raw, c.payloads)
    ensures cand in Shelters.FeasibleOnes(RankedFor(c, e)) <==> cand in JudgedFor(c, e) && cand.Feasible()
  {
    FeasibleOnesHold(RankedFor(c, e), cand);
    Shelters.RankedOrder(JudgedFor(c, e));
    hide Shelters.Ranked, Shelters.FeasibleOnes, Shelters.JudgeAll;
    assert cand in multiset(RankedFor(c, e)) <==> cand in multiset(JudgedFor(c, e));
  }

  lemma FitIsFeasible(c: Scene, e: Step, k: nat) returns (i: nat)
    requires Keyed(c) && Shelters.Known(e.raw, c.payloads) && k < |e.raw|
    requires !Unfit(c, e, e.raw[k].payload, 1, e.stock)
    ensures var fs := Shelters.FeasibleOnes(RankedFor(c, e)); i < |fs| && fs[i].shelterId == e.raw[k].payload
  {
    JudgedFit(c, e, k);
    var cand := JudgedFor(c, e)[k];
    hide Shelters.JudgeAll, Shelters.FeasibleOnes, RankedFrom, JudgedFor, Unfit;
    RankedFeasible(c, e, cand);
    i :| 0 <= i < |Shelters.FeasibleOnes(RankedFor(c, e))| && Shelters.FeasibleOnes(RankedFor(c, e))[i] == cand;
  }

  lemma FeasibleIsFit(c: Scene, e: Step, i: nat) returns (k: nat)
    requires Keyed(c) && Shelters.Known(e.raw, c.payloads) && i < |Shelters.FeasibleOnes(RankedFor(c, e))|
    ensures k < |e.raw| && e.raw[k].payload == Shelters.FeasibleOnes(RankedFor(c, e))[i].shelterId
    ensures !Unfit(c, e, e.raw[k].payload, 1, e.stock)
  {
    var cand := Shelters.FeasibleOnes(RankedFor(c, e))[i];
    assert |JudgedFor(c, e)| == |e.raw|;
    hide Shelters.JudgeAll, Shelters.FeasibleOnes, RankedFrom, JudgedFor, Unfit;
    RankedFeasible(c, e, cand);
    k :| 0 <= k < |JudgedFor(c, e)| && JudgedFor(c, e)[k] == cand;
    JudgedFit(c, e, k);
  }

  /** As capacity only falls, no feasible shelter has room exactly when all the nearest are unfit. */
  lemma NoRoomIsUnfit(c: Scene, e: Step, need: int, stock: map<string, int>)
    requires Keyed(c) && Shelters.Known(e.raw, c.payloads)
    requires need >= 1 && forall id :: At(stock, id) <= At(e.stock, id)
    ensures NoRoom(Shelters.FeasibleOnes(RankedFor(c, e)), stock, need) <==> AllUnfit(c, e, need, stock)
  {
    var fs := Shelters.FeasibleOnes(RankedFor(c, e));
    hide Shelters.FeasibleOnes, RankedFor;
    if NoRoom(fs, stock, need) {
      forall k | 0 <= k < |e.raw| ensures Unfit(c, e, e.raw[k].payload, need, stock) {
        if !Unfit(c, e, e.raw[k].payload, 1, e.stock) {
          var i := FitIsFeasible(c, e, k);
          assert At(stock, fs[i].shelterId) < need;
        } else {
          assert At(stock, e.raw[k].payload) <= At(e.stock, e.raw[k].payload);
        }
      }
    }
    if AllUnfit(c, e, need, stock) {
      forall i | 0 <= i < |fs| ensures At(stock, fs[i].shelterId) < need {
        var k := FeasibleIsFit(c, e, i);
        assert Unfit(c, e, e.raw[k].payload, need, stock);
      }
    }
  }

  /** A shelter that survives the ranking has a travel time, hence a route, and room. */
  lemma FeasibleHaveRoutes(c: Scene, zone: Zone, stock: map<string, int>, raw: seq<KdTree.Found<string>>,
                           travel: Shelters.Travel)
    requires Shelters.Known(raw, c.payloads) && Keyed(c)
    ensures forall cand :: cand in Shelters.FeasibleOnes(RankedFrom(c, zone, stock, raw, travel)) ==>
              && cand.shelterId in travel && cand.travelTime == Some(travel[cand.shelterId].0)
              && cand.shelterId in c.payloads && 0 < At(stock, cand.shelterId)
  {
    var payloads := Refreshed(c.payloads, stock);
    var cs := Shelters.JudgeAll(raw, payloads, c.hav, zone.place, Shelters.UNSAFE_RISK, Some(travel), zone.people);
    hide Shelters.Ranked, Shelters.FeasibleOnes, Shelters.Judge;
    forall cand | cand in Shelters.FeasibleOnes(RankedFrom(c, zone, stock, raw, travel))
      ensures cand.shelterId in travel && cand.travelTime == Some(travel[cand.shelterId].0)
      ensures cand.shelterId in c.payloads && 0 < At(stock, cand.shelterId)
    {
      Shelters.FeasibleOnesMembers(Shelters.Ranked(cs), cand);
      Shelters.RankedMembers(cs, cand);
      var i :| 0 <= i < |cs| && cs[i] == cand;
      var p := payloads[raw[i].payload];
      Shelters.JudgedFeasible(p, c.hav(zone.place, p.place), Shelters.UNSAFE_RISK, Some(travel), zone.people);
    }
  }

  // ----- one zone ------------------------------------------------------------------------------------

  lemma BookedArePeople(zone: Zone, ts: seq<Take>, xs: seq<Assignment>)
    requires Booked(zone, ts, xs) && forall k :: 0 <= k < |ts| ==> ts[k].people > 0
    ensures |xs| == |ts| && forall a :: a in xs ==> a.people > 0 && a.route.Some?
  {
  }

  lemma StepServes(c: Scene, e: Step)
    requires e.zone.nearestNode.Some? && LocatedStep(c, e) && e.zone.people > 0
    ensures forall id :: At(e.left, id) <= At(e.stock, id)
    ensures forall a :: a in e.placed ==> a.people > 0 && a.route.Some?
    ensures |e.placed| <= RoadGraphs.Clip(c.most)
  {
    hide Shelters.FeasibleOnes, RankedFrom, TwelveNearest, Travels, Serve, Booked, Why;
    var fs := Shelters.FeasibleOnes(RankedFor(c, e));
    var out := Serve(fs, e.stock, e.zone.people, c.split, c.most);
    forall id ensures At(e.left, id) <= At(e.stock, id) {
      PlacesAreTaken(fs, e.stock, e.zone.people, c.split, c.most, id);
    }
    EveryoneIsTakenOrLeft(fs, e.stock, e.zone.people, c.split, c.most);
    ServeLimit(fs, e.stock, e.zone.people, c.split, c.most);
    BookedArePeople(e.zone, out.takes, e.placed);
  }

  /** Nobody of a zone is placed if and only if none of the nearest shelters is fit, or none may be used. */
  lemma NobodyPlacedExactly(c: Scene, e: Step)
    requires Keyed(c) && e.zone.nearestNode.Some? && LocatedStep(c, e) && e.zone.people > 0
    ensures e.placed == [] <==> c.most <= 0 || AllUnfit(c, e, Need(e.zone.people, c.split), e.stock)
  {
    var fs := Shelters.FeasibleOnes(RankedFor(c, e));
    hide Shelters.FeasibleOnes, RankedFrom, TwelveNearest, Travels, Serve;
    ServesSomeone(fs, e.stock, e.zone.people, c.split, c.most);
    NoRoomIsUnfit(c, e, Need(e.zone.people, c.split), e.stock);
  }

  /** No shelter is feasible if and only if each of the nearest is unsafe, full or unreached. */
  lemma InfeasibleExactly(c: Scene, e: Step)
    requires Keyed(c) && e.zone.nearestNode.Some? && LocatedStep(c, e) && e.zone.people > 0
    ensures Shelters.FeasibleOnes(RankedFor(c, e)) == [] <==> AllUnfit(c, e, 1, e.stock)
  {
    var fs := Shelters.FeasibleOnes(RankedFor(c, e));
    hide Shelters.FeasibleOnes, RankedFrom, TwelveNearest, Travels, Serve, AllUnfit;
    NoRoomIsUnfit(c, e, 1, e.stock);
    if fs != [] {
      var k := FeasibleIsFit(c, e, 0);
      UnfitOne(c, e, k);
    }
  }

  lemma UnfitOne(c: Scene, e: Step, k: nat)
    requires Shelters.Known(e.raw, c.payloads) && k < |e.raw| && !Unfit(c, e, e.raw[k].payload, 1, e.stock)
    ensures !AllUnfit(c, e, 1, e.stock)
  {
  }

  lemma {:induction false} NoneFeasible(cs: seq<Shelters.Candidate>)
    requires Shelters.FeasibleOnes(cs) == []
    ensures Shelters.RejectedOnes(cs) == cs
  {
    if cs != [] {
      NoneFeasible(cs[..|cs| - 1]);
      assert cs == cs[..|cs| - 1] + [cs[|cs| - 1]];
    }
  }

  /** What keeps the shelter from being of use to the zone; one that is full counts as not operational. */
  function Flaw(c: Scene, e: Step, id: string): string
    requires id in c.payloads
  {
    if 60.0 <= c.payloads[id].hazardRisk then "inside hazard footprint"
    else if At(e.stock, id) <= 0 then "not operational"
    else "no route on the current road network"
  }

  lemma JudgedFlaw(c: Scene, e: Step, k: nat)
    requires Keyed(c) && Shelters.Known(e.raw, c.payloads) && k < |e.raw|
    ensures k < |JudgedFor(c, e)|
    ensures !JudgedFor(c, e)[k].Feasible() ==>
              JudgedFor(c, e)[k].rejectedBecause == Some(Flaw(c, e, e.raw[k].payload))
  {
    hide Shelters.Score;
    var p := Refreshed(c.payloads, e.stock)[e.raw[k].payload];
    RejectedFor(p, c.hav(e.zone.place, p.place), e.travel, e.zone.people);
    hide Shelters.Judge;
  }

  lemma RejectedFor(p: Shelters.Payload, line: real, travel: Shelters.Travel, people: int)
    requires p.operational <==> p.effectiveCapacity > 0
    ensures Shelters.Judge(p, line, Shelters.UNSAFE_RISK, Some(travel), people).rejectedBecause
         == if 60.0 <= p.hazardRisk then Some("inside hazard footprint")
            else if p.effectiveCapacity <= 0 then Some("not operational")
            else if p.shelterId !in travel then Some("no route on the current road network") else None
  {
    hide Shelters.Score;
  }

  /** A report that no shelter is feasible gives the flaw of the first that was found, or that none was. */
  lemma ReportGivesFirstFlaw(c: Scene, e: Step)
    requires Keyed(c) && Shelters.Known(e.raw, c.payloads) && Shelters.FeasibleOnes(RankedFor(c, e)) == []
    ensures Why(RankedFor(c, e)) == if e.raw == [] then NONE_IN_RANGE else Flaw(c, e, e.raw[0].payload)
  {
    var cs := JudgedFor(c, e);
    assert |cs| == |e.raw|;
    NobodyRanked(c, e);
    assert RankedFor(c, e) == cs by {
      hide JudgedFor, Shelters.FeasibleOnes;
      NoneFeasible(cs);
      NothingToSort(cs);
    }
    if e.raw != [] {
      JudgedFlaw(c, e, 0);
      if cs[0].Feasible() {
        FeasibleOnesHold(cs, cs[0]);
      }
    }
    hide JudgedFor, RankedFrom, Shelters.FeasibleOnes, Flaw;
  }

  lemma NothingToSort(cs: seq<Shelters.Candidate>)
    requires Shelters.FeasibleOnes(cs) == [] && Shelters.RejectedOnes(cs) == cs
    ensures Shelters.Ranked(cs) == cs
  {
    hide Shelters.FeasibleOnes, Shelters.RejectedOnes;
  }

  lemma NobodyRanked(c: Scene, e: Step)
    requires Shelters.Known(e.raw, c.payloads) && Shelters.FeasibleOnes(RankedFor(c, e)) == []
    ensures Shelters.FeasibleOnes(JudgedFor(c, e)) == []
  {
    var cs := JudgedFor(c, e);
    hide Shelters.FeasibleOnes, RankedFrom, JudgedFor;
    if Shelters.FeasibleOnes(cs) != [] {
      var cand := Shelters.FeasibleOnes(cs)[0];
      FeasibleOnesHold(cs, cand);
      RankedFeasible(c, e, cand);
    }
  }

  /** People are reported only if enough shelters are in use, or none of the nearest is fit any more. */
  lemma ReportedForAReason(c: Scene, e: Step)
    requires Keyed(c) && e.zone.nearestNode.Some? && LocatedStep(c, e) && e.zone.people > 0 && e.reports != []
    ensures c.most <= |e.placed| || AllUnfit(c, e, Need(e.zone.people, c.split), e.left)
  {
    var fs := Shelters.FeasibleOnes(RankedFor(c, e));
    StepServes(c, e);
    hide Shelters.FeasibleOnes, RankedFrom, TwelveNearest, Travels, AllUnfit;
    LeftForWantOfRoom(fs, e.stock, e.zone.people, c.split, c.most);
    NoRoomIsUnfit(c, e, Need(e.zone.people, c.split), e.left);
  }

  // ----- capacity only falls, and loads only grow -------------------------------------------------------

  lemma StepOnlyFalls(c: Scene, e: Step)
    requires StepOk(c, e)
    ensures forall id :: At(e.left, id) <= At(e.stock, id)
    ensures forall a :: a in e.placed ==> a.people > 0 && a.route.Some?
  {
    if e.zone.people > 0 && e.zone.nearestNode.Some? {
      StepServes(c, e);
    }
    hide LocatedStep;
  }

  lemma {:induction false} StockOnlyFalls(c: Scene, stock: map<string, int>, zones: seq<Zone>, steps: seq<Step>,
                                          i: nat, id: string)
    requires Kept(c, stock, zones, steps) && i < |steps|
    ensures At(StockAfter(stock, steps), id) <= At(steps[i].left, id) && At(steps[i].left, id) <= At(steps[i].stock, id)
    ensures StepOk(c, steps[i])
    decreases |steps|
  {
    hide StepOk, RoadsLoaded;
    var init, e := steps[..|steps| - 1], steps[|steps| - 1];
    StepOnlyFalls(c, e);
    if i < |init| {
      StockOnlyFalls(c, stock, zones[..|zones| - 1], init, i, id);
      assert At(e.left, id) <= At(e.stock, id);
      assert init[i] == steps[i];
    }
  }

  lemma {:induction false} RoadLoadGrows(xs: seq<Assignment>, ys: seq<Assignment>, r: int)
    requires forall a :: a in ys ==> a.people > 0 && a.route.Some?
    ensures RoadLoad(xs, r) <= RoadLoad(xs + ys, r)
    decreases |ys|
  {
    if ys == [] {
      assert xs + ys == xs;
    } else {
      var init, last := ys[..|ys| - 1], ys[|ys| - 1];
      assert xs + ys == (xs + init) + [last] && last in ys;
      RoadLoadGrows(xs, init, r);
      OneMoreLoads(xs + init, last, r);
    }
  }

  lemma OneMoreLoads(xs: seq<Assignment>, a: Assignment, r: int)
    requires a.people > 0 && a.route.Some?
    ensures RoadLoad(xs, r) <= RoadLoad(xs + [a], r)
  {
    assert (xs + [a])[..|xs|] == xs;
    MulNat(a.people, RoadGraphs.Occurrences(a.route.value.roadIds, r));
  }

  lemma MulNat(a: int, n: nat)
    requires a > 0
    ensures 0 <= a * n
  {
  }

  /** Each step found no more load on a road than there is in the end, and none below nought. */
  lemma {:induction false} LoadOnlyGrows(c: Scene, stock: map<string, int>, zones: seq<Zone>, steps: seq<Step>,
                                         i: nat, r: int)
    requires Kept(c, stock, zones, steps) && i < |steps|
    ensures 0 <= LoadOf(c.base.(edgeLoad := steps[i].load), r) <= RoadLoad(AllPlaced(steps), r)
    decreases |steps|
  {
    hide StepOk, RoadLoad;
    var init, e := steps[..|steps| - 1], steps[|steps| - 1];
    StepOnlyFalls(c, e);
    RoadLoadGrows(AllPlaced(init), e.placed, r);
    if i < |init| {
      LoadOnlyGrows(c, stock, zones[..|zones| - 1], init, i, r);
      assert init[i] == steps[i];
    } else {
      PlacedLoads(c, stock, zones[..|zones| - 1], init, r);
    }
  }

  lemma {:induction false} PlacedLoads(c: Scene, stock: map<string, int>, zones: seq<Zone>, steps: seq<Step>, r: int)
    requires Kept(c, stock, zones, steps)
    ensures 0 <= RoadLoad(AllPlaced(steps), r)
    decreases |steps|
  {
    hide StepOk, RoadsLoaded;
    if steps != [] {
      var init, e := steps[..|steps| - 1], steps[|steps| - 1];
      StepOnlyFalls(c, e);
      PlacedLoads(c, stock, zones[..|zones| - 1], init, r);
      RoadLoadGrows(AllPlaced(init), e.placed, r);
    }
  }

  // ----- more load, dearer paths ----------------------------------------------------------------------

  /** The same roads, at least as loaded. */
  ghost predicate Busier(o: Live, o': Live) {
    o' == o.(edgeLoad := o'.edgeLoad) && forall r :: 0 <= LoadOf(o, r) <= LoadOf(o', r)
  }

  lemma CongestionGrows(o: Live, o': Live, e: Edge)
    requires Busier(o, o') && 0.0 <= o.congestionBeta && 0.0 <= e.lengthM && 0 <= e.capacityPph
    ensures Congestion(o, e) <= Congestion(o', e)
  {
    var k := o.congestionBeta * BaseTime(e);
    MulNonNeg(o.congestionBeta, BaseTime(e));
    if e.capacityPph != 0 {
      var x, y := LoadOf(o, e.roadId), LoadOf(o', e.roadId);
      QuotientGrows(x, y, e.capacityPph);
      hide BaseTime;
      ProductGrows(k, x as real / e.capacityPph as real, y as real / e.capacityPph as real);
    }
  }

  lemma QuotientGrows(x: int, y: int, n: int)
    requires 0 <= x <= y && 0 < n
    ensures 0.0 <= x as real / n as real <= y as real / n as real
    ensures x == 0 ==> x as real / n as real == 0.0
  {
  }

  lemma ProductGrows(k: real, a: real, b: real)
    requires 0.0 <= k && 0.0 <= a <= b
    ensures 0.0 <= k * a <= k * b
  {
  }

  lemma EdgeCostGrows(o: Live, o': Live, e: Edge)
    requires Busier(o, o') && 0.0 <= o.congestionBeta && 0.0 <= e.lengthM && 0 <= e.capacityPph
    ensures EdgeCost(o, e).Some? <==> EdgeCost(o', e).Some?
    ensures CostOf(View(o), e) <= CostOf(View(o'), e)
  {
    CongestionGrows(o, o', e);
    SameRisk(o, o', e.cellIds);
    assert EdgeHazard(o', e) == EdgeHazard(o, e) && StateOf(o', e.roadId) == StateOf(o, e.roadId);
    hide Congestion, EdgeHazard, StateOf, BaseTime, Weighted;
  }

  lemma {:induction false} PathCostGrows(o: Live, o': Live, s: int, t: int, p: seq<Hop>)
    requires WellFormed(o) && Busier(o, o') && IsPath(View(o'), s, t, p)
    ensures IsPath(View(o), s, t, p) && Cost(View(o), p) <= Cost(View(o'), p)
    decreases |p|
  {
    if p != [] {
      var last := p[|p| - 1];
      assert GoodEdges(o.adj.Keys, o.maxSpeedKph, o.adj[last.src]);
      PathCostGrows(o, o', s, last.src, p[..|p| - 1]);
      EdgeCostGrows(o, o', last.edge);
      hide EdgeCost, Busier;
    }
  }

  lemma CutoffOnlyShrinks(o: Live, o': Live, s: int, t: int, cutoff: real)
    requires WellFormed(o) && Busier(o, o') && WithinCutoff(o', s, t, cutoff)
    ensures WithinCutoff(o, s, t, cutoff)
  {
    hide Busier, WellFormed;
    var p :| IsPath(View(o'), s, t, p) && Cost(View(o'), p) <= cutoff;
    PathCostGrows(o, o', s, t, p);
  }

  // ----- the whole plan -----------------------------------------------------------------------------------

  /** The shelter is unsafe, has not the places, or no path to it is within the cutoff. */
  ghost predicate Excused(c: Scene, load: map<int, int>, stock: map<string, int>, source: int, id: string, need: int)
    requires id in c.payloads
  {
    || Shelters.UNSAFE_RISK <= c.payloads[id].hazardRisk || At(stock, id) < need
    || !(Located(c.meta, id) && WithinCutoff(c.base.(edgeLoad := load), source, Node(c.meta, id), c.cutoff))
  }

  lemma UnfitIsExcused(c: Scene, e: Step, o: Live, load: map<int, int>, stock: map<string, int>, source: int,
                       id: string, need: int)
    requires Keyed(c) && id in c.payloads && o == c.base.(edgeLoad := e.load)
    requires WellFormed(o) && Busier(o, c.base.(edgeLoad := load)) && At(stock, id) <= At(e.left, id)
    requires Travels(o, source, c.ids, c.meta, c.cutoff, e.travel)
    requires Unfit(c, e, id, need, e.left)
    ensures Excused(c, load, stock, source, id, need)
  {
    hide Busier, WellFormed, WithinCutoff, Travels;
    if Located(c.meta, id) {
      WithinCutoffIsTimed(c, e, o, load, source, id);
    }
  }

  /** A shelter within the cutoff in the end was within it before, and had a travel time. */
  lemma WithinCutoffIsTimed(c: Scene, e: Step, o: Live, load: map<int, int>, source: int, id: string)
    requires Keyed(c) && id in c.payloads && Located(c.meta, id)
    requires WellFormed(o) && Busier(o, c.base.(edgeLoad := load))
    requires Travels(o, source, c.ids, c.meta, c.cutoff, e.travel)
    ensures WithinCutoff(c.base.(edgeLoad := load), source, Node(c.meta, id), c.cutoff) ==> id in e.travel
  {
    hide Busier, WellFormed, WithinCutoff, IsDistance;
    if WithinCutoff(c.base.(edgeLoad := load), source, Node(c.meta, id), c.cutoff) {
      CutoffOnlyShrinks(o, c.base.(edgeLoad := load), source, Node(c.meta, id), c.cutoff);
    }
  }

  lemma StepIsLessBusy(c: Scene, stock: map<string, int>, zones: seq<Zone>, steps: seq<Step>, i: nat,
                       load: map<int, int>)
    requires WellFormed(c.base) && Kept(c, stock, zones, steps) && i < |steps|
    requires RoadsLoaded(c.base.(edgeLoad := load), AllPlaced(steps))
    ensures Busier(c.base.(edgeLoad := steps[i].load), c.base.(edgeLoad := load))
    ensures WellFormed(c.base.(edgeLoad := steps[i].load))
  {
    var o, o' := c.base.(edgeLoad := steps[i].load), c.base.(edgeLoad := load);
    hide Kept, AllPlaced, RoadLoad;
    forall r ensures 0 <= LoadOf(o, r) <= LoadOf(o', r) {
      LoadOnlyGrows(c, stock, zones, steps, i, r);
    }
    forall r | r in o.edgeLoad ensures 0 <= o.edgeLoad[r] {
      assert 0 <= LoadOf(o, r);
    }
  }

  ghost predicate AllExcused(c: Scene, load: map<int, int>, stock: map<string, int>, e: Step)
    requires e.zone.nearestNode.Some? && Shelters.Known(e.raw, c.payloads)
  {
    forall k :: 0 <= k < |e.raw| ==>
      Excused(c, load, stock, e.zone.nearestNode.value, e.raw[k].payload, Need(e.zone.people, c.split))
  }

  /**
   Whoever is reported from a zone with a road node is left for a reason that still holds when the
   plan is complete: the zone uses as many shelters as it may, or each of the twelve nearest is
   unsafe, has no room left for it, or lies beyond the cutoff.
   */
  lemma NobodyIsLeftNeedlessly(c: Scene, stock: map<string, int>, zones: seq<Zone>, steps: seq<Step>, i: nat,
                               load: map<int, int>)
    requires WellFormed(c.base) && Keyed(c) && Kept(c, stock, zones, steps) && i < |steps|
    requires RoadsLoaded(c.base.(edgeLoad := load), AllPlaced(steps))
    requires steps[i].reports != [] && steps[i].zone.nearestNode.Some?
    ensures Shelters.Known(steps[i].raw, c.payloads)
    ensures c.most <= |steps[i].placed| || AllExcused(c, load, StockAfter(stock, steps), steps[i])
  {
    var e, end := steps[i], StockAfter(stock, steps);
    StockOnlyFalls(c, stock, zones, steps, i, "");
    StepIsLessBusy(c, stock, zones, steps, i, load);
    assert e.zone.people > 0 && LocatedStep(c, e);
    ReportedForAReason(c, e);
    var o, source := c.base.(edgeLoad := e.load), e.zone.nearestNode.value;
    assert Shelters.Known(e.raw, c.payloads) && Travels(o, source, c.ids, c.meta, c.cutoff, e.travel);
    hide LocatedStep, StepOk, Kept, RoadsLoaded, Travels, WellFormed, Busier, Excused, Unfit, Keyed;
    if c.most > |e.placed| {
      forall k | 0 <= k < |e.raw|
        ensures Excused(c, load, end, source, e.raw[k].payload, Need(e.zone.people, c.split))
      {
        StockOnlyFalls(c, stock, zones, steps, i, e.raw[k].payload);
        UnfitIsExcused(c, e, o, load, end, source, e.raw[k].payload, Need(e.zone.people, c.split));
      }
    }
  }

  /** Every report of the plan has its reason. */
  ghost predicate Justified(c: Scene, load: map<int, int>, stock: map<string, int>, steps: seq<Step>) {
    forall i | 0 <= i < |steps| && steps[i].reports != [] && steps[i].zone.nearestNode.Some? ::
      && Shelters.Known(steps[i].raw, c.payloads)
      && (c.most <= |steps[i].placed| || AllExcused(c, load, stock, steps[i]))
  }

  lemma PlanIsJustified(c: Scene, stock: map<string, int>, zones: seq<Zone>, steps: seq<Step>, load: map<int, int>)
    requires WellFormed(c.base) && Keyed(c) && Kept(c, stock, zones, steps)
    requires RoadsLoaded(c.base.(edgeLoad := load), AllPlaced(steps))
    ensures Justified(c, load, StockAfter(stock, steps), steps)
  {
    hide WellFormed, Keyed, Kept, RoadsLoaded, AllExcused, AllPlaced;
    forall i | 0 <= i < |steps| && steps[i].reports != [] && steps[i].zone.nearestNode.Some?
      ensures Shelters.Known(steps[i].raw, c.payloads)
      ensures c.most <= |steps[i].placed| || AllExcused(c, load, StockAfter(stock, steps), steps[i])
    {
      NobodyIsLeftNeedlessly(c, stock, zones, steps, i, load);
    }
  }

  // ----- travel times and the cutoff ------------------------------------------------------------------

  lemma {:induction false} ServesListed(cs: seq<Shelters.Candidate>, stock: map<string, int>, people: int, split: bool,
                                        most: int, k: nat)
    requires k < |Serve(cs, stock, people, split, most).takes|
    ensures Serve(cs, stock, people, split, most).takes[k].cand in cs
    decreases cs
  {
    var id := cs[0].shelterId;
    var take := Share(At(stock, id), people, split);
    if take <= 0 {
      ServesListed(cs[1..], stock, people, split, most, k);
    } else if k > 0 {
      ServesListed(cs[1..], stock[id := At(stock, id) - take], people - take, split, most - 1, k - 1);
    }
  }

  /**
   The assignment's time is that of a real path, on the roads as they were at the time, whose last
   road alone may lie beyond the cutoff. A time of nought is replaced by a guess from the distance,
   three minutes a kilometre. Whether the people arrive before the impact is told, by the time on the
   road, exactly when the time to the impact is known.
   */
  ghost predicate OnTime(c: Scene, e: Step, a: Assignment) {
    && e.zone.nearestNode.Some? && a.shelterId in e.travel && Located(c.meta, a.shelterId)
    && Timed(c.base.(edgeLoad := e.load), e.zone.nearestNode.value, Node(c.meta, a.shelterId), c.cutoff,
             e.travel[a.shelterId])
    && (e.travel[a.shelterId].0 != 0.0 ==> a.travelTimeS == e.travel[a.shelterId].0)
    && a.shelterId in c.payloads
    && (e.travel[a.shelterId].0 == 0.0 ==>
          a.travelTimeS == 180.0 * (c.hav(e.zone.place, c.payloads[a.shelterId].place) / 1000.0))
    && a.hazardExposure == e.travel[a.shelterId].1
    && a.beforeImpact == (match e.zone.timeToImpactH
                          case None => None
                          case Some(hours) => Some(e.travel[a.shelterId].0 < 3600.0 * hours))
    && a.cellId == e.zone.cellId && a.priorityRank == e.zone.priorityRank
    && a.shelterName == c.payloads[a.shelterId].name
  }

  lemma PlacedOnTime(c: Scene, e: Step, k: nat)
    requires Keyed(c) && StepOk(c, e) && k < |e.placed|
    ensures OnTime(c, e, e.placed[k])
  {
    hide Shelters.FeasibleOnes, RankedFrom, TwelveNearest, Serve, Timed, Why;
    var fs := Shelters.FeasibleOnes(RankedFor(c, e));
    ServesListed(fs, e.stock, e.zone.people, c.split, c.most, k);
    FeasibleHaveRoutes(c, e.zone, e.stock, e.raw, e.travel);
    FeasibleAreFaithful(c, e);
    assert Carries(e.zone, Serve(fs, e.stock, e.zone.people, c.split, c.most).takes[k], e.placed[k]);
  }

  /** The candidate keeps the name and the place of its shelter, and the exposure of its route. */
  ghost predicate Faithful(c: Scene, e: Step, cand: Shelters.Candidate) {
    && cand.shelterId in c.payloads && cand.shelterId in e.travel
    && cand.name == c.payloads[cand.shelterId].name
    && cand.straightLine == c.hav(e.zone.place, c.payloads[cand.shelterId].place)
    && cand.routeHazard == Some(e.travel[cand.shelterId].1)
  }

  lemma FeasibleAreFaithful(c: Scene, e: Step)
    requires Shelters.Known(e.raw, c.payloads) && Keyed(c)
    ensures forall cand :: cand in Shelters.FeasibleOnes(RankedFor(c, e)) ==> Faithful(c, e, cand)
  {
    assert |JudgedFor(c, e)| == |e.raw|;
    hide Shelters.FeasibleOnes, RankedFrom, JudgedFor, Faithful;
    forall cand | cand in Shelters.FeasibleOnes(RankedFor(c, e)) ensures Faithful(c, e, cand) {
      RankedFeasible(c, e, cand);
      var k :| 0 <= k < |JudgedFor(c, e)| && JudgedFor(c, e)[k] == cand;
      JudgedIsFaithful(c, e, k);
    }
  }

  lemma JudgedIsFaithful(c: Scene, e: Step, k: nat)
    requires Shelters.Known(e.raw, c.payloads) && Keyed(c) && k < |e.raw|
    ensures JudgedFor(c, e)[k].Feasible() ==> Faithful(c, e, JudgedFor(c, e)[k])
  {
    hide Shelters.Score;
    var p := Refreshed(c.payloads, e.stock)[e.raw[k].payload];
    assert p.shelterId == e.raw[k].payload && p.place == c.payloads[e.raw[k].payload].place;
    JudgedKeeps(p, c.hav(e.zone.place, p.place), e.travel, e.zone.people);
  }

  lemma JudgedKeeps(p: Shelters.Payload, line: real, travel: Shelters.Travel, people: int)
    ensures var cand := Shelters.Judge(p, line, Shelters.UNSAFE_RISK, Some(travel), people);
            && cand.shelterId == p.shelterId && cand.name == p.name && cand.straightLine == line
            && (cand.Feasible() ==>
                  p.shelterId in travel && cand.routeHazard == Some(travel[p.shelterId].1))
  {
    hide Shelters.Score;
  }

  /** Every assignment of the plan. */
  ghost predicate AllOnTime(c: Scene, steps: seq<Step>) {
    forall i, k :: 0 <= i < |steps| && 0 <= k < |steps[i].placed| ==> OnTime(c, steps[i], steps[i].placed[k])
  }

  /** No travel time of a plan is beyond the cutoff by more than the last road of its route. */
  lemma PlanIsOnTime(c: Scene, stock: map<string, int>, zones: seq<Zone>, steps: seq<Step>)
    requires Keyed(c) && Kept(c, stock, zones, steps)
    ensures AllOnTime(c, steps)
  {
    hide Keyed, Kept, StepOk, OnTime;
    forall i, k | 0 <= i < |steps| && 0 <= k < |steps[i].placed| ensures OnTime(c, steps[i], steps[i].placed[k]) {
      StockOnlyFalls(c, stock, zones, steps, i, "");
      PlacedOnTime(c, steps[i], k);
    }
  }
}
