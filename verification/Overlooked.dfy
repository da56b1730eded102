/**
 What comes of looking at the twelve nearest shelters, as backend/app/evacuation/optimizer.py does,
 before it is known which of them are of any use.
 */
module Overlooked {
  import opened Wrappers
  import opened Paths
  import opened Overlay
  import opened Books
  import opened Journal
  import opened Excuses
  import Capacity
  import Evacuation
  import Evaluation
  import KdTree
  import RoadGraphs
  import Shelters

  // ----- counting distances ---------------------------------------------------------------------

  predicate Before(x: real, d: real, tied: bool) {
    x < d || (tied && x == d)
  }

  /** How many of `ds` are below `d`, those equal to it included if they are tied. */
  function Nearer(ds: seq<real>, d: real, tied: bool): nat {
    if ds == [] then 0 else Nearer(ds[..|ds| - 1], d, tied) + if Before(ds[|ds| - 1], d, tied) then 1 else 0
  }

  lemma {:induction false} NearerConcat(xs: seq<real>, ys: seq<real>, d: real, tied: bool)
    ensures Nearer(xs + ys, d, tied) == Nearer(xs, d, tied) + Nearer(ys, d, tied)
    decreases |ys|
  {
    if ys == [] {
      assert xs + ys == xs;
    } else {
      assert (xs + ys)[..|xs + ys| - 1] == xs + ys[..|ys| - 1];
      NearerConcat(xs, ys[..|ys| - 1], d, tied);
    }
  }

  lemma NearerOne(x: real, d: real, tied: bool)
    ensures Nearer([x], d, tied) == if Before(x, d, tied) then 1 else 0
  {
    assert [x][..0] == [];
  }

  lemma {:induction false} PlaceNearer(xs: seq<real>, e: real, d: real, tied: bool)
    ensures Nearer(KdTree.Place(xs, e), d, tied) == Nearer(xs, d, tied) + if Before(e, d, tied) then 1 else 0
  {
    if xs != [] && e < xs[|xs| - 1] {
      PlaceNearer(xs[..|xs| - 1], e, d, tied);
    }
  }

  lemma {:induction false} PlaceAllNearer(ds: seq<real>, d: real, tied: bool)
    ensures Nearer(KdTree.PlaceAll([], ds), d, tied) == Nearer(ds, d, tied)
  {
    if ds != [] {
      PlaceAllNearer(ds[..|ds| - 1], d, tied);
      PlaceNearer(KdTree.PlaceAll([], ds[..|ds| - 1]), ds[|ds| - 1], d, tied);
    }
  }

  lemma {:induction false} NearerAtMost(xs: seq<real>, d: real, tied: bool)
    ensures Nearer(xs, d, tied) <= |xs|
  {
    if xs != [] {
      NearerAtMost(xs[..|xs| - 1], d, tied);
    }
  }

  /** The near ones of an ascending sequence come first. */
  lemma {:induction false} NearerComeFirst(xs: seq<real>, d: real, tied: bool, k: nat)
    requires KdTree.Ascending(xs) && k < Nearer(xs, d, tied)
    ensures k < |xs| && Before(xs[k], d, tied)
  {
    if Before(xs[|xs| - 1], d, tied) {
      NearerAtMost(xs, d, tied);
    } else {
      NearerComeFirst(xs[..|xs| - 1], d, tied, k);
    }
  }

  /** So cutting it short behind them loses none. */
  lemma {:induction false} TakeNearer(xs: seq<real>, d: real, tied: bool, k: nat)
    requires KdTree.Ascending(xs) && Nearer(xs, d, tied) <= k
    ensures Nearer(KdTree.Take(xs, k), d, tied) == Nearer(xs, d, tied)
  {
    if k < |xs| {
      var init, last := xs[..|xs| - 1], xs[|xs| - 1];
      if Before(last, d, tied) {
        AllNearer(xs, d, tied);
      }
      TakeNearer(init, d, tied, k);
      assert k < |init| ==> init[..k] == xs[..k];
      assert k == |init| ==> init == xs[..k];
    }
  }

  lemma {:induction false} AllNearer(xs: seq<real>, d: real, tied: bool)
    requires KdTree.Ascending(xs) && xs != [] && Before(xs[|xs| - 1], d, tied)
    ensures Nearer(xs, d, tied) == |xs|
  {
    var init := xs[..|xs| - 1];
    if init != [] {
      assert init[|init| - 1] <= xs[|xs| - 1];
      AllNearer(init, d, tied);
    }
  }

  ghost predicate NoTies(ds: seq<real>) {
    forall i, j :: 0 <= i < j < |ds| ==> ds[i] != ds[j]
  }

  lemma {:induction false} TiesAddOne(ds: seq<real>, d: real)
    requires NoTies(ds)
    ensures Nearer(ds, d, true) <= Nearer(ds, d, false) + 1
    ensures (forall i :: 0 <= i < |ds| ==> ds[i] != d) ==> Nearer(ds, d, true) == Nearer(ds, d, false)
  {
    if ds != [] {
      TiesAddOne(ds[..|ds| - 1], d);
    }
  }

  // ----- counting shelters -----------------------------------------------------------------------

  type Found = KdTree.Found<string>

  function Count(fs: seq<Found>, d: real, tied: bool): nat {
    Nearer(KdTree.Dists(fs), d, tied)
  }

  lemma CountPull(fs: seq<Found>, j: nat, d: real, tied: bool)
    requires j < |fs|
    ensures Count(fs, d, tied) == Count(Without(fs, j), d, tied) + if Before(fs[j].dist, d, tied) then 1 else 0
  {
    hide KdTree.Dists, Nearer;
    var a, b := fs[..j], fs[j + 1..];
    assert fs == a + ([fs[j]] + b);
    CountMiddle(a, fs[j], b, d, tied);
  }

  lemma CountMiddle(a: seq<Found>, f: Found, b: seq<Found>, d: real, tied: bool)
    ensures Count(a + ([f] + b), d, tied) == Count(a + b, d, tied) + if Before(f.dist, d, tied) then 1 else 0
  {
    KdTree.OneDist(f);
    hide KdTree.Dists, Nearer;
    KdTree.DistsConcat(a, [f] + b);
    KdTree.DistsConcat([f], b);
    KdTree.DistsConcat(a, b);
    NearerConcat(KdTree.Dists(a), [f.dist] + KdTree.Dists(b), d, tied);
    NearerConcat([f.dist], KdTree.Dists(b), d, tied);
    NearerConcat(KdTree.Dists(a), KdTree.Dists(b), d, tied);
    NearerOne(f.dist, d, tied);
  }

  /** Whoever is left out is one fewer. */
  lemma {:induction false} LeftOutIsFewer(raw: seq<Found>, all: seq<Found>, f: Found)
    requires multiset(raw) <= multiset(all) && f in all && f !in raw
    ensures Count(raw, f.dist, true) < Count(all, f.dist, true)
    decreases |raw|
  {
    hide Count, Without;
    if raw == [] {
      var j :| 0 <= j < |all| && all[j] == f;
      CountPull(all, j, f.dist, true);
      CountNone(f.dist, true);
    } else {
      assert raw[0] in multiset(all);
      var j :| 0 <= j < |all| && all[j] == raw[0];
      WithoutOne(all, j);
      WithoutOne(raw, 0);
      SmallerBag(raw, all, j);
      StaysIn(all, j, f);
      CountPull(all, j, f.dist, true);
      CountPull(raw, 0, f.dist, true);
      StaysOut(raw, 0, f);
      LeftOutIsFewer(Without(raw, 0), Without(all, j), f);
    }
  }

  lemma CountNone(d: real, tied: bool)
    ensures Count([], d, tied) == 0
  {
  }

  lemma SmallerBag<T>(xs: seq<T>, ys: seq<T>, j: nat)
    requires xs != [] && j < |ys| && xs[0] == ys[j] && multiset(xs) <= multiset(ys)
    ensures multiset(Without(xs, 0)) <= multiset(Without(ys, j)) && |Without(xs, 0)| < |xs|
  {
    WithoutOne(xs, 0);
    WithoutOne(ys, j);
  }

  lemma StaysIn<T>(ys: seq<T>, j: nat, y: T)
    requires j < |ys| && y in ys && ys[j] != y
    ensures y in Without(ys, j)
  {
    WithoutOne(ys, j);
    assert y in multiset(ys);
    assert y in multiset(Without(ys, j));
  }

  lemma StaysOut<T>(xs: seq<T>, j: nat, x: T)
    requires j < |xs| && x !in xs
    ensures x !in Without(xs, j)
  {
  }

  // ----- which shelters are looked at -------------------------------------------------------------

  /** With twelve shelters nearer than `d`, nothing at `d` or beyond is looked at. */
  lemma TwelveAreNearer(c: Scene, zone: Zone, raw: seq<Found>, d: real, k: nat)
    requires TwelveNearest(c, zone, raw) && Shelters.K_CANDIDATES <= Count(InRange(c, zone), d, false) && k < |raw|
    ensures raw[k].dist < d && raw[k] in InRange(c, zone)
  {
    var ds := KdTree.Dists(InRange(c, zone));
    hide InRange, KdTree.Dists, KdTree.PlaceAll, Nearer;
    KdTree.PlaceAllAscends([], ds);
    PlaceAllNearer(ds, d, false);
    KdTree.DistsAt(raw);
    assert raw[k].dist == KdTree.PlaceAll([], ds)[k];
    NearerComeFirst(KdTree.PlaceAll([], ds), d, false, k);
    assert raw[k] in multiset(InRange(c, zone));
  }

  /** A shelter with at most twelve as near as itself is looked at. */
  lemma NearIsLookedAt(c: Scene, zone: Zone, raw: seq<Found>, f: Found)
    requires TwelveNearest(c, zone, raw) && f in InRange(c, zone)
    requires Count(InRange(c, zone), f.dist, true) <= Shelters.K_CANDIDATES
    ensures f in raw
  {
    var ds := KdTree.Dists(InRange(c, zone));
    hide InRange, KdTree.Dists, KdTree.PlaceAll, KdTree.Take, Nearer;
    KdTree.PlaceAllAscends([], ds);
    PlaceAllNearer(ds, f.dist, true);
    TakeNearer(KdTree.PlaceAll([], ds), f.dist, true, Shelters.K_CANDIDATES);
    if f !in raw {
      LeftOutIsFewer(raw, InRange(c, zone), f);
    }
  }

  // ----- when a zone is told that there is no feasible shelter ---------------------------------------

  /** `f` is of no use to the zone as it stands. */
  predicate Useless(c: Scene, e: Step, f: Found) {
    f.payload in c.payloads && Unfit(c, e, f.payload, 1, e.stock)
  }

  /** The useful shelters in range are all behind twelve others, which are nearer or perhaps as near. */
  ghost predicate AllHidden(c: Scene, e: Step, tied: bool) {
    forall f :: f in InRange(c, e.zone) && !Useless(c, e, f) ==>
      Shelters.K_CANDIDATES <= Count(InRange(c, e.zone), f.dist, tied) - if tied then 1 else 0
  }

  lemma HiddenIsUnfit(c: Scene, e: Step)
    requires Shelters.Known(e.raw, c.payloads) && TwelveNearest(c, e.zone, e.raw) && AllHidden(c, e, false)
    ensures AllUnfit(c, e, 1, e.stock)
  {
    hide InRange, Count, Unfit;
    forall k | 0 <= k < |e.raw| ensures Unfit(c, e, e.raw[k].payload, 1, e.stock) {
      LookedAtIsInRange(c, e.zone, e.raw, k);
      if !Useless(c, e, e.raw[k]) {
        TwelveAreNearer(c, e.zone, e.raw, e.raw[k].dist, k);
      }
    }
  }

  lemma LookedAtIsInRange(c: Scene, zone: Zone, raw: seq<Found>, k: nat)
    requires TwelveNearest(c, zone, raw) && k < |raw|
    ensures raw[k] in InRange(c, zone)
  {
    hide InRange;
    assert raw[k] in multiset(InRange(c, zone));
  }

  lemma UnfitIsHidden(c: Scene, e: Step)
    requires Shelters.Known(e.raw, c.payloads) && TwelveNearest(c, e.zone, e.raw) && AllUnfit(c, e, 1, e.stock)
    ensures AllHidden(c, e, true)
  {
    hide InRange, Count, Unfit, TwelveNearest;
    forall f | f in InRange(c, e.zone) && !Useless(c, e, f)
      ensures Shelters.K_CANDIDATES <= Count(InRange(c, e.zone), f.dist, true) - 1
    {
      if Count(InRange(c, e.zone), f.dist, true) <= Shelters.K_CANDIDATES {
        LookedAtIsUseless(c, e, f);
      }
    }
  }

  lemma LookedAtIsUseless(c: Scene, e: Step, f: Found)
    requires Shelters.Known(e.raw, c.payloads) && TwelveNearest(c, e.zone, e.raw) && AllUnfit(c, e, 1, e.stock)
    requires f in InRange(c, e.zone) && Count(InRange(c, e.zone), f.dist, true) <= Shelters.K_CANDIDATES
    ensures Useless(c, e, f)
  {
    hide Unfit, InRange, Count, TwelveNearest;
    NearIsLookedAt(c, e.zone, e.raw, f);
    var k :| 0 <= k < |e.raw| && e.raw[k] == f;
  }

  /**
   A zone has no feasible shelter if every useful one in range is behind twelve nearer ones, and
   only if each is behind twelve that are nearer or as near.
   */
  lemma InfeasibleWhenHidden(c: Scene, e: Step)
    requires Keyed(c) && e.zone.nearestNode.Some? && LocatedStep(c, e) && e.zone.people > 0
    ensures AllHidden(c, e, false) ==> Shelters.FeasibleOnes(RankedFor(c, e)) == []
    ensures Shelters.FeasibleOnes(RankedFor(c, e)) == [] ==> AllHidden(c, e, true)
  {
    InfeasibleExactly(c, e);
    hide Shelters.FeasibleOnes, RankedFrom, Travels, Keyed, TwelveNearest, AllUnfit, AllHidden, Why, Serve;
    if AllHidden(c, e, false) {
      HiddenIsUnfit(c, e);
    }
    if AllUnfit(c, e, 1, e.stock) {
      UnfitIsHidden(c, e);
    }
  }

  /** With no two shelters equally far, the one condition is the other. */
  lemma HiddenEitherWay(c: Scene, e: Step)
    requires NoTies(KdTree.Dists(InRange(c, e.zone))) && AllHidden(c, e, true)
    ensures AllHidden(c, e, false)
  {
    hide InRange, Useless, KdTree.Dists, Nearer, NoTies;
    forall f | f in InRange(c, e.zone) && !Useless(c, e, f)
      ensures Shelters.K_CANDIDATES <= Count(InRange(c, e.zone), f.dist, false)
    {
      TiesAddOne(KdTree.Dists(InRange(c, e.zone)), f.dist);
    }
  }

  /**
   The shelters are looked for before it is known which of them are of any use. With no two of
   them equally far, a zone has no feasible one if and only if twelve are nearer than each that is.
   */
  lemma InfeasibleExactlyWhenHidden(c: Scene, e: Step)
    requires Keyed(c) && e.zone.nearestNode.Some? && LocatedStep(c, e) && e.zone.people > 0
    requires NoTies(KdTree.Dists(InRange(c, e.zone)))
    ensures Shelters.FeasibleOnes(RankedFor(c, e)) == [] <==> AllHidden(c, e, false)
  {
    InfeasibleWhenHidden(c, e);
    hide Shelters.FeasibleOnes, RankedFor, LocatedStep, Keyed, NoTies, AllHidden;
    if AllHidden(c, e, true) {
      HiddenEitherWay(c, e);
    }
  }

  /** With at most twelve shelters in range, ties or not: if and only if all of them are useless. */
  lemma InfeasibleAmongFew(c: Scene, e: Step)
    requires Keyed(c) && e.zone.nearestNode.Some? && LocatedStep(c, e) && e.zone.people > 0
    requires |InRange(c, e.zone)| <= Shelters.K_CANDIDATES
    ensures Shelters.FeasibleOnes(RankedFor(c, e)) == [] <==> forall f :: f in InRange(c, e.zone) ==> Useless(c, e, f)
  {
    InfeasibleWhenHidden(c, e);
    hide Shelters.FeasibleOnes, RankedFor, LocatedStep, Keyed, InRange, Useless, KdTree.Dists, Nearer;
    var near := InRange(c, e.zone);
    KdTree.DistsAt(near);
    forall f | f in near ensures Count(near, f.dist, true) <= Shelters.K_CANDIDATES {
      NearerAtMost(KdTree.Dists(near), f.dist, true);
    }
  }

  lemma ServesNobody(c: Scene, e: Step)
    requires e.zone.nearestNode.Some? && LocatedStep(c, e) && Shelters.FeasibleOnes(RankedFor(c, e)) == []
    ensures e.placed == [] && e.reports == [Record(e.zone, e.zone.people, NO_FEASIBLE + Why(RankedFor(c, e)))]
  {
    hide Shelters.FeasibleOnes, RankedFrom, Travels, TwelveNearest;
  }

  /** Twelve useless shelters hide whatever lies farther off, and the zone is reported whole. */
  lemma TwelveUselessHideTheRest(c: Scene, e: Step, d: real)
    requires Keyed(c) && e.zone.nearestNode.Some? && LocatedStep(c, e) && e.zone.people > 0
    requires Shelters.K_CANDIDATES <= Count(InRange(c, e.zone), d, false)
    requires forall f :: f in InRange(c, e.zone) && f.dist < d ==> Useless(c, e, f)
    ensures e.placed == [] && e.reports == [Record(e.zone, e.zone.people, NO_FEASIBLE + Why(RankedFor(c, e)))]
  {
    InfeasibleWhenHidden(c, e);
    hide Shelters.FeasibleOnes, RankedFrom, LocatedStep, InRange, Keyed, Useless, KdTree.Dists, Nearer;
    forall f | f in InRange(c, e.zone) && !Useless(c, e, f)
      ensures Shelters.K_CANDIDATES <= Count(InRange(c, e.zone), f.dist, false)
    {
      NearerGrows(KdTree.Dists(InRange(c, e.zone)), d, f.dist);
    }
    ServesNobody(c, e);
  }

  lemma {:induction false} NearerGrows(ds: seq<real>, d: real, d': real)
    requires d <= d'
    ensures Nearer(ds, d, false) <= Nearer(ds, d', false)
  {
    if ds != [] {
      NearerGrows(ds[..|ds| - 1], d, d');
    }
  }

  // ----- a shelter with room that nobody looks at ------------------------------------------------------

  /** The school's name, told apart by its length. */
  function Name(k: nat): string {
    seq(k, i => 'x')
  }

  function Names(): seq<string> {
    seq(13, k requires 0 <= k < 13 => Name(k))
  }

  /** One to the north of the other, starting from the village. */
  function Site(k: nat): Coord {
    (30.0 + 0.01 * k as real, 79.0)
  }

  /** Only the farthest is on a road, at the end of the only one. */
  function Schools(): map<string, Meta> {
    map id | id in Names() :: Meta(Site(|id|), if |id| < 12 then None else Some(2), 0.0)
  }

  /** An empty school with a hundred places and no shortage. */
  function School(id: string): Capacity.ShelterState {
    Capacity.ShelterState(id, "School", 100, 0, "open", None, None, None, None, None, None, None, true, 0.0, 0)
  }

  /** What the capacity engine makes of a school, with the share and the threshold that it has by default. */
  function Assessed(k: nat): Capacity.CapacityResult {
    Capacity.Compute(Capacity.Engine(0.9, 60.0), School(Name(k)), None)
  }

  function Results(): seq<Capacity.CapacityResult> {
    seq(13, k requires 0 <= k < 13 => Assessed(k))
  }

  function Away(step: real, k: nat): real {
    step * k as real
  }

  /** A projection under which the sites are in line, `step` apart, and within the radius of the search. */
  ghost predicate InLine(project: Coord -> KdTree.Point, step: real) {
    && 0.0 < step <= 3000.0
    && forall k: nat :: k < 13 ==>
         project(Site(k)) == KdTree.Point(project(Site(0)).x, project(Site(0)).y + Away(step, k))
  }

  /** What a plan for these schools rests on. */
  ghost predicate Crowd(c: Scene, step: real) {
    && c.base == Evaluation.OneRoad() && c.ids == Names() && c.meta == Schools() && Keyed(c)
    && (forall id :: id in Names() ==> id in c.payloads && c.payloads[id].hazardRisk == 0.0)
    && |c.items| == 13
    && (forall k: nat :: k < 13 ==> c.items[k] == KdTree.Item(c.project(Site(k)), Name(k)))
    && InLine(c.project, step) && 60.0 <= c.cutoff
  }

  function FoundAt(step: real, k: nat): Found {
    KdTree.Found(KdTree.Square(Away(step, k)), Name(k))
  }

  function FoundFirst(step: real, n: nat): seq<Found> {
    seq(n, k requires 0 <= k < n => FoundAt(step, k))
  }

  function Minute(): Shelters.Travel {
    map[Name(12) := (60.0, 0.0)]
  }

  lemma NamesAre(k: nat)
    ensures k < 13 ==> Name(k) in Names() && Name(k) in Schools()
    ensures |Name(k)| == k
  {
    if k < 13 {
      assert Names()[k] == Name(k);
    }
  }

  lemma NamesDiffer(j: nat, k: nat)
    requires j != k
    ensures Name(j) != Name(k)
  {
    assert |Name(j)| == j && |Name(k)| == k;
  }

  // ----- from the schools to the scene -------------------------------------------------------------

  lemma SchoolIsOpen(k: nat)
    ensures Assessed(k).operational && Assessed(k).effectiveCapacity == 90 && Assessed(k).shelterId == Name(k)
  {
    hide Name;
  }

  lemma SchoolsAreOpen()
    ensures forall k :: 0 <= k < 13 ==> Results()[k].operational && Results()[k].shelterId == Name(k)
    ensures forall j, k :: 0 <= j < k < 13 ==> Results()[j].shelterId != Results()[k].shelterId
  {
    hide Assessed, Name;
    forall k | 0 <= k < 13 ensures Results()[k].operational && Results()[k].shelterId == Name(k) {
      SchoolIsOpen(k);
    }
    forall j, k | 0 <= j < k < 13 ensures Results()[j].shelterId != Results()[k].shelterId {
      NamesDiffer(j, k);
    }
  }

  lemma {:induction false} OrderOfDistinct(rs: seq<Capacity.CapacityResult>)
    requires forall i :: 0 <= i < |rs| ==> rs[i].operational
    requires forall i, j :: 0 <= i < j < |rs| ==> rs[i].shelterId != rs[j].shelterId
    ensures |Evacuation.Order(rs)| == |rs|
    ensures forall i :: 0 <= i < |rs| ==> Evacuation.Order(rs)[i] == rs[i].shelterId
  {
    if rs != [] {
      OrderOfDistinct(rs[..|rs| - 1]);
    }
  }

  lemma {:induction false} AllMapped(ids: seq<string>, meta: map<string, Meta>)
    requires forall i :: 0 <= i < |ids| ==> ids[i] in meta
    ensures Evacuation.Mapped(ids, meta) == ids
  {
    if ids != [] {
      AllMapped(ids[..|ids| - 1], meta);
    }
  }

  lemma SchoolsInOrder()
    ensures Evacuation.Mapped(Evacuation.Order(Results()), Schools()) == Names()
  {
    SchoolsAreOpen();
    OrderOfDistinct(Results());
    hide Assessed, Name, Evacuation.Order, Evacuation.Mapped, Schools;
    assert Evacuation.Order(Results()) == Names();
    forall k | 0 <= k < 13 ensures Names()[k] in Schools() {
      NamesAre(k);
    }
    AllMapped(Names(), Schools());
  }

  /** What an offer holds, item by item. */
  lemma OfferHolds(o: Evacuation.EvacuationOptimizer, base: Live, results: seq<Capacity.CapacityResult>,
                   meta: map<string, Meta>)
    ensures var c, ids := o.Offer(base, results, meta), Evacuation.Mapped(Evacuation.Order(results), meta);
            && c.base == base && c.ids == ids && c.meta == meta && Keyed(c)
            && c.project == o.project && c.cutoff == o.maxTravelTimeS && |c.items| == |ids|
            && (forall i :: 0 <= i < |ids| ==>
                  ids[i] in meta && c.items[i] == KdTree.Item(o.project(meta[ids[i]].place), ids[i]))
            && (forall id :: id in ids ==>
                  id in meta && id in c.payloads && c.payloads[id].hazardRisk == meta[id].hazardRisk)
  {
    o.OfferIsKeyed(base, results, meta);
    Evacuation.OrderIsKeys(results);
    Evacuation.MappedMembers(Evacuation.Order(results), meta);
    hide Evacuation.Order, Evacuation.Mapped, Evacuation.ById, Evacuation.Capacities, Keyed;
  }

  lemma SchoolAt(k: nat)
    requires k < 13
    ensures Names()[k] == Name(k) && Name(k) in Schools() && Schools()[Name(k)].place == Site(k)
  {
    NamesAre(k);
  }

  lemma SchoolsAreSafe()
    ensures forall id :: id in Names() ==> id in Schools() && Schools()[id].hazardRisk == 0.0
  {
    hide Names;
  }

  /** Any optimiser with such a projection, and with a minute to spare, works with this scene. */
  lemma OffersCrowd(o: Evacuation.EvacuationOptimizer, step: real)
    requires InLine(o.project, step) && 60.0 <= o.maxTravelTimeS
    ensures Crowd(o.Offer(Evaluation.OneRoad(), Results(), Schools()), step)
  {
    hide Evacuation.Order, Evacuation.Mapped, Results, Schools, InLine, Keyed, Name, Evaluation.OneRoad, Site,
         Evacuation.EvacuationOptimizer.Offer;
    SchoolsInOrder();
    OfferHolds(o, Evaluation.OneRoad(), Results(), Schools());
    SchoolsAreSafe();
    forall k: nat | k < 13
      ensures Names()[k] == Name(k) && Name(k) in Schools() && Schools()[Name(k)].place == Site(k)
    {
      SchoolAt(k);
    }
  }

  lemma SchoolsHaveRoom(k: nat)
    requires k < 13
    ensures At(Evacuation.Capacities(Results()), Name(k)) == 90
  {
    SchoolsAreOpen();
    SchoolIsOpen(k);
    hide Assessed, Name;
    Evacuation.CapacityAt(Results(), k);
  }

  // ----- what is in range ------------------------------------------------------------------------------

  lemma {:induction false} SitesInRange(items: seq<KdTree.Item<string>>, target: KdTree.Point, radius: Option<real>)
    requires forall i :: 0 <= i < |items| ==> !KdTree.TooFar(KdTree.Dist(target, items[i].point), radius)
    ensures KdTree.Candidates(target, radius, items)
         == seq(|items|, i requires 0 <= i < |items| =>
                  KdTree.Found(KdTree.Dist(target, items[i].point), items[i].payload))
  {
    if items != [] {
      SitesInRange(items[1..], target, radius);
    }
  }

  lemma AwayGrows(step: real, j: nat, k: nat)
    requires 0.0 < step && j < k
    ensures 0.0 <= Away(step, j) < Away(step, k) && KdTree.Square(Away(step, j)) < KdTree.Square(Away(step, k))
  {
    assert step * (k - j) as real > 0.0;
    assert step * j as real >= 0.0;
    SquaresGrow(Away(step, j), Away(step, k));
  }

  lemma SquaresGrow(a: real, b: real)
    requires 0.0 <= a < b
    ensures KdTree.Square(a) < KdTree.Square(b)
  {
    assert KdTree.Square(b) == a * b + (b - a) * b;
    assert KdTree.Square(a) <= a * b;
    Positive(b - a, b);
  }

  lemma Positive(a: real, b: real)
    requires 0.0 < a && 0.0 < b
    ensures 0.0 < a * b
  {
  }

  lemma AwayIsNear(step: real, k: nat)
    requires 0.0 < step <= 3000.0 && k < 13
    ensures 0.0 <= Away(step, k) <= Shelters.MAX_STRAIGHT_LINE_M
  {
    assert (3000.0 - step) * k as real >= 0.0;
  }

  lemma SiteDistance(c: Scene, step: real, k: nat)
    requires Crowd(c, step) && k < 13
    ensures KdTree.Dist(c.project(Evaluation.VILLAGE.place), c.items[k].point) == KdTree.Square(Away(step, k))
  {
    assert Evaluation.VILLAGE.place == Site(0);
    hide Away;
    KdTree.SquareEven(Away(step, k));
  }

  lemma AllInRange(c: Scene, step: real)
    requires Crowd(c, step)
    ensures InRange(c, Evaluation.VILLAGE) == FoundFirst(step, 13)
  {
    var target, radius := c.project(Evaluation.VILLAGE.place), Some(Shelters.MAX_STRAIGHT_LINE_M);
    hide KdTree.Candidates, Name, Away, KdTree.Dist, KdTree.Square;
    assert 0.0 < step <= 3000.0;
    hide InLine;
    forall k | 0 <= k < 13
      ensures KdTree.Dist(target, c.items[k].point) == KdTree.Square(Away(step, k))
      ensures !KdTree.TooFar(KdTree.Dist(target, c.items[k].point), radius)
    {
      SiteDistance(c, step, k);
      AwayIsNear(step, k);
      KdTree.SquareMono(Away(step, k), Shelters.MAX_STRAIGHT_LINE_M);
    }
    SitesInRange(c.items, target, radius);
  }

  /** The first of an ascending list are its nearest. */
  lemma FirstAreNearest(all: seq<Found>, n: nat)
    requires n <= |all| && KdTree.Ascending(KdTree.Dists(all))
    ensures KdTree.Dists(all[..n]) == KdTree.Best(n, KdTree.Dists(all)) && multiset(all[..n]) <= multiset(all)
  {
    hide KdTree.Dists, KdTree.PlaceAll, KdTree.Ascending;
    KdTree.AscendingIsSorted(KdTree.Dists(all));
    KdTree.DistsAt(all);
    KdTree.DistsAt(all[..n]);
    assert all == all[..n] + all[n..];
  }

  lemma SitesAscend(step: real, n: nat)
    requires 0.0 < step
    ensures KdTree.Ascending(KdTree.Dists(FoundFirst(step, n)))
  {
    hide KdTree.Dists, KdTree.Square, Away;
    KdTree.DistsAt(FoundFirst(step, n));
    forall j, k | 0 <= j < k < n
      ensures KdTree.Dists(FoundFirst(step, n))[j] <= KdTree.Dists(FoundFirst(step, n))[k]
    {
      AwayGrows(step, j, k);
    }
  }

  lemma FirstTwelve(c: Scene, step: real)
    requires Crowd(c, step)
    ensures TwelveNearest(c, Evaluation.VILLAGE, FoundFirst(step, 12))
  {
    AllInRange(c, step);
    SitesAscend(step, 13);
    assert FoundFirst(step, 12) == FoundFirst(step, 13)[..12];
    hide InRange, Crowd, FoundFirst, KdTree.Dists, KdTree.PlaceAll, KdTree.Ascending;
    FirstAreNearest(FoundFirst(step, 13), 12);
  }

  /** Twelve of the schools are nearer than the last. */
  lemma TwelveBeforeTheLast(c: Scene, step: real)
    requires Crowd(c, step)
    ensures Shelters.K_CANDIDATES <= Count(InRange(c, Evaluation.VILLAGE), FoundAt(step, 12).dist, false)
  {
    var first, last := FoundFirst(step, 12), FoundAt(step, 12);
    AllInRange(c, step);
    assert FoundFirst(step, 13) == first + [last];
    SitesAscend(step, 12);
    AwayGrows(step, 11, 12);
    assert first[11].dist < last.dist;
    hide Crowd, FoundFirst, FoundAt, InRange, KdTree.Dists, Nearer, KdTree.Ascending;
    KdTree.DistsAt(first);
    KdTree.DistsConcat(first, [last]);
    AllNearer(KdTree.Dists(first), last.dist, false);
    NearerConcat(KdTree.Dists(first), KdTree.Dists([last]), last.dist, false);
  }

  // ----- the minute's road -------------------------------------------------------------------------------

  lemma RoadIsAMinute()
    ensures EdgeCost(Evaluation.OneRoad(), Evaluation.ONLY_ROAD) == Some(60.0)
  {
  }

  lemma OneHop(o: Live, s: int, road: Edge, c: real, cutoff: real)
    requires road in Out(View(o), s) && EdgeCost(o, road) == Some(c) && EdgeHazard(o, road) == 0.0 && 0.0 <= cutoff
    ensures Timed(o, s, road.toNode, cutoff, (c, 0.0))
  {
    var g, p := View(o), [Hop(s, road)];
    hide EdgeCost, EdgeHazard;
    assert p[..0] == [] && [] + [Hop(s, road)] == p;
    IsPathSnoc(g, s, [], Hop(s, road));
    assert RoadGraphs.HazardTime(o, p) == 0.0;
    assert RoadGraphs.Exposure(o, p) == 0.0 && LastRoadOver(o, cutoff, p);
  }

  /** Where only one road leads to `t`, no route from elsewhere costs less than that road. */
  lemma OnlyWayIn(g: Network, s: int, t: int, road: Edge, c: real, q: seq<Hop>)
    requires NonNegative(g) && g.cost(road) == Some(c) && s != t && IsPath(g, s, t, q)
    requires forall u, e :: e in Out(g, u) && e.toNode == t ==> e == road
    ensures c <= Cost(g, q)
  {
    var last := q[|q| - 1];
    assert last.edge in Out(g, last.src) && last.edge == road;
    CostNonNegative(g, s, last.src, q[..|q| - 1]);
  }

  lemma QuickestRoute(o: Live, s: int, road: Edge, c: real, cutoff: real)
    requires WellFormed(o) && road in Out(View(o), s) && EdgeCost(o, road) == Some(c) && s != road.toNode
    requires EdgeHazard(o, road) == 0.0 && 0.0 <= cutoff
    requires forall u, e :: e in Out(View(o), u) && e.toNode == road.toNode ==> e == road
    ensures Timed(o, s, road.toNode, cutoff, (c, 0.0)) && IsDistance(View(o), s, road.toNode, c)
  {
    var g, t := View(o), road.toNode;
    OneHop(o, s, road, c, cutoff);
    ViewIsSearchable(o);
    var p :| IsPath(g, s, t, p) && (c, 0.0) == (Cost(g, p), RoadGraphs.Exposure(o, p));
    hide WellFormed, NonNegative, Closed, IsPath, Cost, RoadGraphs.Exposure, LastRoadOver;
    forall q | IsPath(g, s, t, q) ensures c <= Cost(g, q) {
      OnlyWayIn(g, s, t, road, c, q);
    }
  }

  lemma OneRoadLeadsThere()
    ensures var o, road := Evaluation.OneRoad(), Evaluation.ONLY_ROAD;
            && road in Out(View(o), 1) && EdgeHazard(o, road) == 0.0
            && forall u, e :: e in Out(View(o), u) && e.toNode == 2 ==> e == road
  {
  }

  lemma MinuteRoute(cutoff: real)
    requires 0.0 <= cutoff
    ensures Timed(Evaluation.OneRoad(), 1, 2, cutoff, (60.0, 0.0))
    ensures IsDistance(View(Evaluation.OneRoad()), 1, 2, 60.0)
  {
    OneRoadLeadsThere();
    RoadIsAMinute();
    Evaluation.OnlyRoute();
    hide Evaluation.OneRoad, View, EdgeCost, EdgeHazard, WellFormed, RealRoute, Timed, IsDistance, Out;
    QuickestRoute(Evaluation.OneRoad(), 1, Evaluation.ONLY_ROAD, 60.0, cutoff);
  }

  lemma TravelsToOne(o: Live, s: int, ids: seq<string>, meta: map<string, Meta>, cutoff: real, id: string,
                     tt: (real, real))
    requires id in ids && forall i :: Located(meta, i) <==> i == id
    requires Timed(o, s, Node(meta, id), cutoff, tt) && IsDistance(View(o), s, Node(meta, id), tt.0)
    ensures Travels(o, s, ids, meta, cutoff, map[id := tt])
  {
    hide Timed, IsDistance, WithinCutoff, View, Located, Node;
  }

  lemma MinuteTravels(c: Scene, step: real)
    requires Crowd(c, step)
    ensures Travels(c.base, 1, c.ids, c.meta, c.cutoff, Minute())
  {
    hide Timed, IsDistance, View, Names, Evaluation.OneRoad, Name, InLine, Keyed, Schools, Travels, Located, Node;
    MinuteRoute(c.cutoff);
    NamesAre(12);
    OnlyTheLastIsOnARoad();
    TravelsToOne(c.base, 1, c.ids, c.meta, c.cutoff, Name(12), (60.0, 0.0));
  }

  lemma OnlyTheLastIsOnARoad()
    ensures forall id :: Located(Schools(), id) <==> id == Name(12)
    ensures Located(Schools(), Name(12)) && Node(Schools(), Name(12)) == 2
  {
    NamesAre(12);
    forall id | Located(Schools(), id) ensures id == Name(12) {
      var k :| 0 <= k < 13 && Names()[k] == id;
      NamesAre(k);
    }
  }

  // ----- and so it is overlooked ---------------------------------------------------------------------------

  /** Whatever a zone has found out, the schools without a road are of no use to it. */
  lemma NearerAreUseless(c: Scene, step: real, e: Step, k: nat)
    requires Crowd(c, step) && e.zone.nearestNode.Some? && k < 12
    requires Travels(c.base.(edgeLoad := e.load), e.zone.nearestNode.value, c.ids, c.meta, c.cutoff, e.travel)
    ensures Name(k) in c.payloads && Unfit(c, e, Name(k), 1, e.stock) && Useless(c, e, FoundAt(step, k))
  {
    OnlyTheLastIsOnARoad();
    NamesAre(k);
    NamesDiffer(k, 12);
    hide Timed, IsDistance, WithinCutoff, Names, Name, InLine, Keyed, Schools;
  }

  lemma BeforeTheLastIsUseless(c: Scene, step: real, e: Step, f: Found)
    requires Crowd(c, step) && e.zone.nearestNode.Some?
    requires Travels(c.base.(edgeLoad := e.load), e.zone.nearestNode.value, c.ids, c.meta, c.cutoff, e.travel)
    requires f in FoundFirst(step, 13) && f.dist < FoundAt(step, 12).dist
    ensures Useless(c, e, f)
  {
    var k :| 0 <= k < 13 && FoundAt(step, k) == f;
    hide Crowd, Travels, FoundAt, Useless;
    if k < 12 {
      NearerAreUseless(c, step, e, k);
    }
  }

  /** Every step that serves the village. */
  lemma VillageIsTurnedAway(c: Scene, step: real, e: Step)
    requires Crowd(c, step) && e.zone == Evaluation.VILLAGE && LocatedStep(c, e)
    ensures e.placed == [] && e.reports == [Record(e.zone, 10, NO_FEASIBLE + Why(RankedFor(c, e)))]
  {
    AllInRange(c, step);
    TwelveBeforeTheLast(c, step);
    assert e.zone.nearestNode.Some? && e.zone.people == 10;
    assert Travels(c.base.(edgeLoad := e.load), e.zone.nearestNode.value, c.ids, c.meta, c.cutoff, e.travel);
    hide InRange, Count, Useless, LocatedStep, RankedFor, Why, FoundFirst, FoundAt, InLine, Keyed, Travels, Names,
         Schools;
    forall f | f in InRange(c, e.zone) && f.dist < FoundAt(step, 12).dist ensures Useless(c, e, f) {
      BeforeTheLastIsUseless(c, step, e, f);
    }
    TwelveUselessHideTheRest(c, e, FoundAt(step, 12).dist);
  }

  lemma TwelveAreKnown(c: Scene, step: real)
    requires Crowd(c, step)
    ensures Shelters.Known(FoundFirst(step, 12), c.payloads)
  {
    forall k | 0 <= k < 12 ensures FoundFirst(step, 12)[k].payload in c.payloads {
      NamesAre(k);
    }
  }

  /** The village's step, given its reports. */
  ghost function Looked(step: real, stock: map<string, int>, reports: seq<Unassigned>): Step {
    Step(Evaluation.VILLAGE, stock, map[], FoundFirst(step, 12), Minute(), [], reports, stock)
  }

  lemma NobodyIsFeasible(c: Scene, e: Step)
    requires Keyed(c) && Shelters.Known(e.raw, c.payloads) && AllUnfit(c, e, 1, e.stock)
    ensures Shelters.FeasibleOnes(RankedFor(c, e)) == []
  {
    var fs := Shelters.FeasibleOnes(RankedFor(c, e));
    hide Shelters.FeasibleOnes, RankedFrom, AllUnfit, Keyed;
    if fs != [] {
      var k := FeasibleIsFit(c, e, 0);
      UnfitOne(c, e, k);
    }
  }

  /** A step that finds no feasible shelter. */
  lemma StepInVain(c: Scene, e: Step)
    requires e.zone.nearestNode.Some? && Shelters.Known(e.raw, c.payloads) && TwelveNearest(c, e.zone, e.raw)
    requires Travels(c.base.(edgeLoad := e.load), e.zone.nearestNode.value, c.ids, c.meta, c.cutoff, e.travel)
    requires Shelters.FeasibleOnes(RankedFor(c, e)) == []
    requires e.placed == [] && e.left == e.stock
    requires e.reports == [Record(e.zone, e.zone.people, NO_FEASIBLE + Why(RankedFor(c, e)))]
    ensures LocatedStep(c, e)
  {
    hide Shelters.FeasibleOnes, RankedFor, TwelveNearest, Travels, Why;
  }

  /** There is such a step: the twelve nearest are found, the last one timed. */
  lemma VillageHasAStep(c: Scene, step: real, stock: map<string, int>) returns (e: Step)
    requires Crowd(c, step)
    ensures e.zone == Evaluation.VILLAGE && e.stock == stock && e.load == map[] && LocatedStep(c, e)
    ensures e.travel == Minute()
  {
    TwelveAreKnown(c, step);
    FirstTwelve(c, step);
    MinuteTravels(c, step);
    var e0 := Looked(step, stock, []);
    assert c.base.(edgeLoad := map[]) == c.base;
    forall k | 0 <= k < 12 ensures Unfit(c, e0, FoundFirst(step, 12)[k].payload, 1, stock) {
      NearerAreUseless(c, step, e0, k);
    }
    NobodyIsFeasible(c, e0);
    e := Looked(step, stock, [Record(Evaluation.VILLAGE, 10, NO_FEASIBLE + Why(RankedFor(c, e0)))]);
    StepInVain(c, e);
  }

  /** A plan for the village alone is one step, taken on empty roads. */
  lemma OneZonePlan(c: Scene, stock: map<string, int>, e: Step)
    requires c.base.edgeLoad == map[]
    ensures Kept(c, stock, [Evaluation.VILLAGE], [e]) ==>
              e.zone == Evaluation.VILLAGE && e.stock == stock && LocatedStep(c, e)
    ensures e.zone == Evaluation.VILLAGE && e.stock == stock && e.load == map[] && LocatedStep(c, e) ==>
              Kept(c, stock, [Evaluation.VILLAGE], [e])
  {
    hide LocatedStep;
    assert [e][..0] == [] && [Evaluation.VILLAGE][..0] == [];
  }

  lemma TheLastIsUseful(c: Scene, step: real, e: Step)
    requires Crowd(c, step) && e.travel == Minute() && At(e.stock, Name(12)) > 0
    ensures FoundAt(step, 12) in InRange(c, Evaluation.VILLAGE) && !Useless(c, e, FoundAt(step, 12))
  {
    AllInRange(c, step);
    NamesAre(12);
    hide InRange, Name, InLine, Keyed, Names;
    assert FoundFirst(step, 13)[12] == FoundAt(step, 12);
  }

  /** There is one plan for the village at least, and every one turns it away. */
  lemma VillageIsOverlooked(c: Scene, step: real, stock: map<string, int>) returns (e: Step)
    requires Crowd(c, step) && At(stock, Name(12)) > 0
    ensures Kept(c, stock, [Evaluation.VILLAGE], [e])
    ensures FoundAt(step, 12) in InRange(c, Evaluation.VILLAGE) && !Useless(c, e, FoundAt(step, 12))
    ensures forall e' :: Kept(c, stock, [Evaluation.VILLAGE], [e']) ==>
              e'.placed == [] && |e'.reports| == 1 && e'.reports[0].people == 10
  {
    assert c.base.edgeLoad == map[];
    hide Crowd, Name, InRange, Useless, LocatedStep, Kept, Why, RankedFor, FoundAt, Minute, At;
    e := VillageHasAStep(c, step, stock);
    OneZonePlan(c, stock, e);
    TheLastIsUseful(c, step, e);
    forall e' | Kept(c, stock, [Evaluation.VILLAGE], [e'])
      ensures e'.placed == [] && |e'.reports| == 1 && e'.reports[0].people == 10
    {
      OneZonePlan(c, stock, e');
      VillageIsTurnedAway(c, step, e');
    }
  }

  /** The k-d tree's projection: a degree is so many metres, eastward and northward. */
  ghost predicate Equirectangular(project: Coord -> KdTree.Point, east: real, north: real) {
    forall a: Coord :: project(a) == KdTree.Point(east * a.1, north * a.0)
  }

  lemma SitesAreInLine(project: Coord -> KdTree.Point, east: real, north: real)
    requires Equirectangular(project, east, north) && 0.0 < north <= 300000.0
    ensures InLine(project, 0.01 * north)
  {
    forall k: nat | k < 13
      ensures project(Site(k)) == KdTree.Point(project(Site(0)).x, project(Site(0)).y + Away(0.01 * north, k))
    {
      Northward(north, k);
      Northward(north, 0);
    }
  }

  lemma Northward(north: real, k: nat)
    ensures north * (30.0 + 0.01 * k as real) == north * 30.0 + Away(0.01 * north, k)
  {
  }

  /**
   Ten people a minute by road from a safe school with ninety free places, in range and within the
   cutoff, are told that no shelter is feasible: there are twelve nearer schools, which have as many
   places but no road. That is so in every plan for them, whatever else the optimiser is set to.
   */
  lemma RoomIsOverlooked(o: Evacuation.EvacuationOptimizer, east: real, north: real) returns (e: Step)
    requires Equirectangular(o.project, east, north) && 0.0 < north <= 300000.0 && 60.0 <= o.maxTravelTimeS
    ensures var c, stock := o.Offer(Evaluation.OneRoad(), Results(), Schools()), Evacuation.Capacities(Results());
            && (forall k: nat :: k < 13 ==> At(stock, Name(k)) == 90)
            && Kept(c, stock, [Evaluation.VILLAGE], [e])
            && FoundAt(0.01 * north, 12) in InRange(c, Evaluation.VILLAGE)
            && !Useless(c, e, FoundAt(0.01 * north, 12))
            && forall e' :: Kept(c, stock, [Evaluation.VILLAGE], [e']) ==>
                 e'.placed == [] && |e'.reports| == 1 && e'.reports[0].people == 10
  {
    hide Equirectangular, InLine, Name, Schools, Results, InRange, Useless, Kept, Evacuation.Capacities, FoundAt,
         Evaluation.OneRoad, Crowd, At, Evacuation.EvacuationOptimizer.Offer;
    var c, stock := o.Offer(Evaluation.OneRoad(), Results(), Schools()), Evacuation.Capacities(Results());
    SitesAreInLine(o.project, east, north);
    OffersCrowd(o, 0.01 * north);
    forall k: nat | k < 13 ensures At(stock, Name(k)) == 90 {
      SchoolsHaveRoom(k);
    }
    e := VillageIsOverlooked(c, 0.01 * north, stock);
  }
}
