/**
 Shelter ranking, `rank_shelters` of backend/app/spatial/nearest.py: candidates from
 the k-d tree, screened, given a travel time, and ranked. A payload dictionary is
 known by its shelter id, so that updating it is updating a map.
 */
module Shelters {
  import opened Wrappers
  import KdTree
  import Sorting

  datatype Payload = Payload(shelterId: string, name: string, place: Coord, effectiveCapacity: int,
                             hazardRisk: real, operational: bool, medics: int,
                             waterDays: Option<real>, foodDays: Option<real>)

  datatype Candidate = Candidate(shelterId: string, name: string, straightLine: real, effectiveCapacity: int,
                                 hazardRisk: real, operational: bool, medics: int,
                                 waterDays: Option<real>, foodDays: Option<real>,
                                 travelTime: Option<real>, routeHazard: Option<real>,
                                 score: real, rejectedBecause: Option<string>)
  {
    predicate Feasible() { rejectedBecause.None? }
  }

  const K_CANDIDATES: nat := 12
  const MAX_STRAIGHT_LINE_M := 40000.0
  const UNSAFE_RISK := 60.0

  /** Steps 1 to 3: unsafe, not operational, full. */
  function Screen(p: Payload, line: real, unsafeRisk: real): Candidate {
    Candidate(p.shelterId, p.name, line, p.effectiveCapacity, p.hazardRisk, p.operational, p.medics,
              p.waterDays, p.foodDays, None, None, 0.0,
              if unsafeRisk <= p.hazardRisk then Some("inside hazard footprint")
              else if !p.operational then Some("not operational")
              else if p.effectiveCapacity <= 0 then Some("no effective capacity")
              else None)
  }

  type Travel = map<string, (real, real)>

  /** Step 4: `travel` holds seconds and exposure of the shelters that have a route, if routes are asked for. */
  function WithTravel(c: Candidate, travel: Option<Travel>): Candidate {
    if !c.Feasible() || travel.None? then c
    else if c.shelterId !in travel.value then c.(rejectedBecause := Some("no route on the current road network"))
    else c.(travelTime := Some(travel.value[c.shelterId].0), routeHazard := Some(travel.value[c.shelterId].1))
  }

  function OrZero(x: Option<real>): real {
    match x case Some(v) => v case None => 0.0
  }

  /** Step 5: minutes and exposure, less what speaks for the shelter. */
  function Score(c: Candidate, people: int): real {
    var minutes := if c.travelTime.Some? then c.travelTime.value / 60.0 else c.straightLine / 1000.0 * 3.0;
    var share := c.effectiveCapacity as real / (if people < 1 then 1 else people) as real;
    var headroom := if 2.0 < share then 2.0 else share;
    minutes + OrZero(c.routeHazard) * 25.0 - headroom * 6.0
    - (if c.medics > 0 then 4.0 else 0.0)
    - (if 2.0 <= OrZero(c.waterDays) && 2.0 <= OrZero(c.foodDays) then 3.0 else 0.0)
  }

  function Rate(c: Candidate, people: int): Candidate {
    if c.Feasible() then c.(score := Score(c, people)) else c
  }

  function Judge(p: Payload, line: real, unsafeRisk: real, travel: Option<Travel>, people: int): Candidate {
    Rate(WithTravel(Screen(p, line, unsafeRisk), travel), people)
  }

  /** Whoever is not rejected has a travel time of its own shelter, or none was asked for and none is made up. */
  lemma JudgedFeasible(p: Payload, line: real, unsafeRisk: real, travel: Option<Travel>, people: int)
    ensures var c := Judge(p, line, unsafeRisk, travel, people);
            && c.shelterId == p.shelterId
            && (c.Feasible() <==> && p.hazardRisk < unsafeRisk && p.operational && p.effectiveCapacity > 0
                                  && (travel.Some? ==> p.shelterId in travel.value))
            && (!c.Feasible() ==> c.score == 0.0)
            && (travel.None? ==> c.travelTime == None && c.routeHazard == None)
            && (travel.Some? && c.Feasible() ==>
                  && c.travelTime == Some(travel.value[p.shelterId].0)
                  && c.routeHazard == Some(travel.value[p.shelterId].1))
  {
  }

  /** `c` beats `d` on every count that the score weighs. */
  predicate NoWorse(c: Candidate, d: Candidate) {
    && c.travelTime.Some? && d.travelTime.Some? && c.travelTime.value <= d.travelTime.value
    && OrZero(c.routeHazard) <= OrZero(d.routeHazard) && d.effectiveCapacity <= c.effectiveCapacity
    && (d.medics > 0 ==> c.medics > 0)
    && OrZero(d.waterDays) <= OrZero(c.waterDays) && OrZero(d.foodDays) <= OrZero(c.foodDays)
  }

  /** Sooner, safer, roomier, with medics and supplies: never the worse score. */
  lemma ScoreFavoursBetter(c: Candidate, d: Candidate, people: int)
    requires NoWorse(c, d)
    ensures Score(c, people) <= Score(d, people)
  {
    var n := if people < 1 then 1 else people;
    ShareMonotone(d.effectiveCapacity, c.effectiveCapacity, n);
  }

  lemma ShareMonotone(a: int, b: int, n: int)
    requires a <= b && 0 < n
    ensures a as real / n as real <= b as real / n as real
  {
  }

  function FeasibleOnes(cs: seq<Candidate>): seq<Candidate> {
    if cs == [] then []
    else FeasibleOnes(cs[..|cs| - 1]) + if cs[|cs| - 1].Feasible() then [cs[|cs| - 1]] else []
  }

  function RejectedOnes(cs: seq<Candidate>): seq<Candidate> {
    if cs == [] then []
    else RejectedOnes(cs[..|cs| - 1]) + if cs[|cs| - 1].Feasible() then [] else [cs[|cs| - 1]]
  }

  function ByScore(): Candidate -> real {
    (c: Candidate) => c.score
  }

  /** Feasible candidates by score, then the rejected ones with their reasons. */
  function Ranked(cs: seq<Candidate>): seq<Candidate> {
    Sorting.StableSort(FeasibleOnes(cs), Sorting.ByKey(ByScore())) + RejectedOnes(cs)
  }

  lemma {:induction false} PartsHoldAll(cs: seq<Candidate>)
    ensures multiset(FeasibleOnes(cs)) + multiset(RejectedOnes(cs)) == multiset(cs)
  {
    if cs != [] {
      hide FeasibleOnes, RejectedOnes;
      var init, last := cs[..|cs| - 1], cs[|cs| - 1];
      assert cs == init + [last];
      PartsHoldAll(init);
      PartsOfOneMore(init, last);
    }
  }

  lemma PartsOfOneMore(init: seq<Candidate>, last: Candidate)
    requires multiset(FeasibleOnes(init)) + multiset(RejectedOnes(init)) == multiset(init)
    ensures multiset(FeasibleOnes(init + [last])) + multiset(RejectedOnes(init + [last])) == multiset(init + [last])
  {
    assert (init + [last])[..|init|] == init;
    var f, r := FeasibleOnes(init), RejectedOnes(init);
    assert FeasibleOnes(init + [last]) == (if last.Feasible() then f + [last] else f);
    assert RejectedOnes(init + [last]) == (if last.Feasible() then r else r + [last]);
    hide FeasibleOnes, RejectedOnes;
    OneMorePart(f, r, init, last);
  }

  lemma OneMorePart(f: seq<Candidate>, r: seq<Candidate>, cs: seq<Candidate>, c: Candidate)
    requires multiset(f) + multiset(r) == multiset(cs)
    ensures multiset(f + [c]) + multiset(r) == multiset(cs + [c])
    ensures multiset(f) + multiset(r + [c]) == multiset(cs + [c])
  {
    assert multiset(f + [c]) == multiset(f) + multiset{c} && multiset(r + [c]) == multiset(r) + multiset{c};
  }

  lemma {:induction false} PartsAreApart(cs: seq<Candidate>)
    ensures forall c :: c in FeasibleOnes(cs) ==> c.Feasible()
    ensures forall c :: c in RejectedOnes(cs) ==> !c.Feasible()
  {
    if cs != [] {
      PartsAreApart(cs[..|cs| - 1]);
    }
  }

  /** The `n` feasible ones come first, by score. */
  ghost predicate InOrder(r: seq<Candidate>, n: nat) {
    && n <= |r|
    && (forall i :: 0 <= i < n ==> r[i].Feasible())
    && (forall i :: n <= i < |r| ==> !r[i].Feasible())
    && (forall i, j :: 0 <= i < j < n ==> r[i].score <= r[j].score)
  }

  lemma InOrderConcat(s: seq<Candidate>, t: seq<Candidate>)
    requires forall c :: c in s ==> c.Feasible()
    requires forall c :: c in t ==> !c.Feasible()
    requires forall i, j :: 0 <= i < j < |s| ==> s[i].score <= s[j].score
    ensures InOrder(s + t, |s|)
  {
  }

  /** Nobody is dropped, the feasible come first, and among them a lower score comes first. */
  lemma RankedOrder(cs: seq<Candidate>)
    ensures multiset(Ranked(cs)) == multiset(cs) && InOrder(Ranked(cs), |FeasibleOnes(cs)|)
  {
    hide FeasibleOnes, RejectedOnes;
    PartsHoldAll(cs);
    PartsAreApart(cs);
    var less := Sorting.ByKey(ByScore());
    var s := Sorting.StableSort(FeasibleOnes(cs), less);
    Sorting.StableSortKeepsAll(FeasibleOnes(cs), less);
    Sorting.SortedByKey(FeasibleOnes(cs), ByScore());
    forall c | c in s ensures c.Feasible() {
      assert c in multiset(FeasibleOnes(cs));
    }
    forall i, j | 0 <= i < j < |s| ensures s[i].score <= s[j].score {
      assert ByScore()(s[i]) <= ByScore()(s[j]);
    }
    InOrderConcat(s, RejectedOnes(cs));
  }

  lemma FeasibleOnesMembers(cs: seq<Candidate>, c: Candidate)
    requires c in FeasibleOnes(cs)
    ensures c in cs && c.Feasible()
  {
  }

  lemma RankedMembers(cs: seq<Candidate>, c: Candidate)
    requires c in Ranked(cs)
    ensures c in cs
  {
    RankedOrder(cs);
    assert c in multiset(Ranked(cs));
  }

  predicate Known(raw: seq<KdTree.Found<string>>, payloads: map<string, Payload>) {
    forall i :: 0 <= i < |raw| ==> raw[i].payload in payloads
  }

  /** Each shelter found, judged on its current payload. */
  function JudgeAll(raw: seq<KdTree.Found<string>>, payloads: map<string, Payload>, hav: (Coord, Coord) -> real,
                    origin: Coord, unsafeRisk: real, travel: Option<Travel>, people: int): seq<Candidate>
    requires Known(raw, payloads)
  {
    seq(|raw|, i requires 0 <= i < |raw| =>
          Judge(payloads[raw[i].payload], hav(origin, payloads[raw[i].payload].place), unsafeRisk, travel, people))
  }

  /** The shelters that brute force would rank nearest, judged and put in order. */
  method RankShelters(ghost items: seq<KdTree.Item<string>>, root: KdTree.Tree<string>, payloads: map<string, Payload>,
                      hav: (Coord, Coord) -> real, origin: Coord, target: KdTree.Point, people: int,
                      k: nat, radius: Option<real>, unsafeRisk: real, travel: Option<Travel>)
    returns (ranked: seq<Candidate>, ghost raw: seq<KdTree.Found<string>>)
    requires root == KdTree.Build(items, 0) && k > 0
    requires forall it :: it in items ==> it.payload in payloads
    ensures KdTree.Dists(raw) == KdTree.Best(k, KdTree.Dists(KdTree.Candidates(target, radius, items)))
    ensures multiset(raw) <= multiset(KdTree.Candidates(target, radius, items))
    ensures Known(raw, payloads) && ranked == Ranked(JudgeAll(raw, payloads, hav, origin, unsafeRisk, travel, people))
    ensures |ranked| <= k && exists n :: InOrder(ranked, n)
  {
    hide KdTree.Candidates, KdTree.Dists, KdTree.Best, KdTree.Build, KdTree.Ascending, Ranked, Judge, InOrder,
         FeasibleOnes;
    var found := KdTree.Nearest(items, root, target, k, radius);
    raw := found;
    FoundAreItems(items, target, radius, found);
    assert Known(raw, payloads);
    var candidates: seq<Candidate> := [];
    for i := 0 to |found|
      invariant candidates == JudgeAll(raw, payloads, hav, origin, unsafeRisk, travel, people)[..i]
    {
      var p := payloads[found[i].payload];
      candidates := candidates + [Judge(p, hav(origin, p.place), unsafeRisk, travel, people)];
    }
    assert candidates == JudgeAll(raw, payloads, hav, origin, unsafeRisk, travel, people);
    ranked := Ranked(candidates);
    RankedOrder(candidates);
    assert |multiset(ranked)| == |multiset(candidates)|;
  }

  lemma {:induction false} CandidatesAreItems<T>(target: KdTree.Point, radius: Option<real>, items: seq<KdTree.Item<T>>)
    ensures forall f :: f in KdTree.Candidates(target, radius, items) ==>
      exists it :: it in items && it.payload == f.payload
  {
    if items != [] {
      CandidatesAreItems(target, radius, items[1..]);
      assert items == [items[0]] + items[1..];
    }
  }

  lemma FoundAreItems(items: seq<KdTree.Item<string>>, target: KdTree.Point, radius: Option<real>,
                      raw: seq<KdTree.Found<string>>)
    requires multiset(raw) <= multiset(KdTree.Candidates(target, radius, items))
    ensures forall f :: f in raw ==> exists it :: it in items && it.payload == f.payload
  {
    CandidatesAreItems(target, radius, items);
    forall f | f in raw ensures exists it :: it in items && it.payload == f.payload {
      assert f in multiset(KdTree.Candidates(target, radius, items));
    }
  }
}
