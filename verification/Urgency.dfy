/**
 What each factor of backend/app/priority/engine.py is worth: how its normalised term follows the
 input, what a rise of one term does to the score, and what that does to the ranking.
 */
module Urgency {
  import opened Rankings
  import opened Scores
  import opened Wrappers

  // ----- term by term -----------------------------------------------------------------------------

  const RISK: nat := 0
  const EXPOSURE: nat := 1
  const VULNERABILITY: nat := 2
  const TRAVEL: nat := 3
  const IMPACT: nat := 4
  const ACCESS: nat := 5

  /** The term is there, and has the value `v`. */
  predicate Reads(i: Inputs, curves: Curves, k: nat, v: real) {
    k < TERMS && Norms(i, curves)[k] == Some(v)
  }

  /** Hazard rises by a hundredth per point of risk, from nothing at none to all at a hundred, and no further. */
  lemma HazardTerm(i: Inputs, curves: Curves)
    ensures i.riskScore <= 0.0 ==> Reads(i, curves, RISK, 0.0)
    ensures 100.0 <= i.riskScore ==> Reads(i, curves, RISK, 1.0)
    ensures 0.0 <= i.riskScore <= 100.0 ==> exists v :: Reads(i, curves, RISK, v) && 100.0 * v == i.riskScore
  {
    if 0.0 <= i.riskScore <= 100.0 {
      assert Reads(i, curves, RISK, i.riskScore / 100.0);
    }
  }

  /** The growth of the logarithm up to the reference, and the decay of the exponential. */
  ghost predicate Exact(curves: Curves, reference: real) {
    && curves.growth(0.0) == 0.0 && curves.growth(reference) == 1.0 && 0.0 < reference
    && (forall x, y :: 0.0 <= x < y ==> curves.growth(x) < curves.growth(y))
    && curves.decay(0.0) == 1.0 && (forall x :: 0.0 < curves.decay(x))
    && (forall x, y :: x < y ==> curves.decay(y) < curves.decay(x))
  }

  /** Exposure is nothing for nobody and all from the reference on; in between more people are strictly more. */
  lemma ExposureTerm(i: Inputs, j: Inputs, curves: Curves, reference: real)
    requires Exact(curves, reference)
    ensures i.expectedExposed <= 0.0 ==> Reads(i, curves, EXPOSURE, 0.0)
    ensures reference <= i.expectedExposed ==> Reads(i, curves, EXPOSURE, 1.0)
    ensures 0.0 <= i.expectedExposed < j.expectedExposed <= reference ==>
              exists u, v :: Reads(i, curves, EXPOSURE, u) && Reads(j, curves, EXPOSURE, v) && u < v
  {
    if 0.0 <= i.expectedExposed < j.expectedExposed <= reference {
      var u, v := curves.growth(i.expectedExposed), curves.growth(j.expectedExposed);
      assert v <= 1.0;
      assert Reads(i, curves, EXPOSURE, u) && Reads(j, curves, EXPOSURE, v);
    }
  }

  /** Vulnerability is taken as it is, kept between nothing and all; only without it the term is dropped. */
  lemma VulnerabilityTerm(i: Inputs, curves: Curves)
    ensures i.vulnerability.None? <==> Norms(i, curves)[VULNERABILITY].None?
    ensures i.vulnerability.Some? ==>
              var x := i.vulnerability.value;
              Reads(i, curves, VULNERABILITY, if x < 0.0 then 0.0 else if 1.0 < x then 1.0 else x)
  {
  }

  /** Travel is proportional to the time it takes, all from an hour and a half on, and half if it is unknown. */
  lemma TravelTerm(i: Inputs, curves: Curves)
    ensures i.travelTime.None? ==> Reads(i, curves, TRAVEL, 0.5)
    ensures i.travelTime.Some? && 5400.0 <= i.travelTime.value ==> Reads(i, curves, TRAVEL, 1.0)
    ensures i.travelTime.Some? && i.travelTime.value <= 5400.0 ==>
              exists v :: Reads(i, curves, TRAVEL, v) && 5400.0 * v == i.travelTime.value
  {
    if i.travelTime.Some? && i.travelTime.value <= 5400.0 {
      assert Reads(i, curves, TRAVEL, i.travelTime.value / 60.0 / 90.0);
    }
  }

  /** A hazard that is there is all; one still to come is less, and strictly the less the later. */
  lemma ImpactTerm(i: Inputs, j: Inputs, curves: Curves, reference: real)
    requires Exact(curves, reference)
    ensures i.timeToImpact.None? ==> Reads(i, curves, IMPACT, 0.4)
    ensures i.timeToImpact.Some? && i.timeToImpact.value <= 0.0 ==> Reads(i, curves, IMPACT, 1.0)
    ensures i.timeToImpact.Some? && j.timeToImpact.Some? && 0.0 <= i.timeToImpact.value < j.timeToImpact.value ==>
              exists u, v :: Reads(i, curves, IMPACT, u) && Reads(j, curves, IMPACT, v) && 0.0 < v < u <= 1.0
  {
    if i.timeToImpact.Some? && j.timeToImpact.Some? && 0.0 <= i.timeToImpact.value < j.timeToImpact.value {
      var u, v := curves.decay(i.timeToImpact.value), curves.decay(j.timeToImpact.value);
      assert v < curves.decay(0.0);
      assert Reads(i, curves, IMPACT, u) && Reads(j, curves, IMPACT, v);
    }
  }

  /** The routes out that are left. */
  function Usable(i: Inputs): Option<int> {
    match i.routesOut
    case None => None
    case Some(n) => Some(if n < i.blockedRoutes then 0 else n - i.blockedRoutes)
  }

  /** No route out is all; the first, second and third to be left each take off a part, and no further one does. */
  lemma AccessTerm(i: Inputs, curves: Curves)
    ensures Usable(i) == None ==> Reads(i, curves, ACCESS, 0.5)
    ensures Usable(i) == Some(0) ==> Reads(i, curves, ACCESS, 1.0)
    ensures Usable(i) == Some(1) ==> Reads(i, curves, ACCESS, 0.8)
    ensures Usable(i) == Some(2) ==> Reads(i, curves, ACCESS, 0.45)
    ensures Usable(i).Some? && 3 <= Usable(i).value ==> Reads(i, curves, ACCESS, 0.2)
  {
  }

  // ----- what is said of the terms ---------------------------------------------------------------------

  /** What a note says is so, and a note is there for every case. */
  lemma NotesAreTrue(i: Inputs)
    ensures Readings(i)[RISK] == Reading(Some(i.riskScore), Risk(i.riskScore))
    ensures var people := if i.expectedExposed < 0.0 then 0.0 else i.expectedExposed;
            Readings(i)[EXPOSURE] == Reading(Some(people), Exposed(people))
    ensures i.vulnerability.Some? ==>
              var r := Readings(i)[VULNERABILITY];
              r.raw == i.vulnerability && r.note.Vulnerable? && 0.0 <= r.note.index <= 1.0
              && (0.0 <= i.vulnerability.value <= 1.0 ==> r.note.index == i.vulnerability.value)
    ensures i.travelTime.Some? ==>
              var r := Readings(i)[TRAVEL];
              r.note.MinutesAway? && r.raw == Some(r.note.minutes) && 60.0 * r.note.minutes == i.travelTime.value
    ensures Readings(i)[IMPACT] == match i.timeToImpact
                                   case None => Reading(None, ImpactUnknown)
                                   case Some(h) => if 0.0 < h then Reading(Some(h), HoursAway(h))
                                                   else Reading(Some(0.0), AlreadyThere)
    ensures Readings(i)[ACCESS] == match Usable(i)
                                   case None => Reading(None, RoutesUnknown)
                                   case Some(n) => Reading(Some(n as real), if n == 0 then NoRouteOut
                                                                            else if n == 1 then OneRouteOut
                                                                            else RoutesOut(n))
  {
  }

  /** What the screen shows of a zone besides its sums: the inputs as they are, and every term to four places. */
  lemma ZoneShows(i: Inputs, curves: Curves, weights: seq<real>, round: real -> int, k: nat)
    requires Weighing(weights) && Rounds(round) && k < TERMS
    ensures var z := ZoneOf(i, curves, weights, round);
            && z.cellId == i.cellId && z.hazard == i.hazard && z.name == i.name && z.confidence == i.confidence
            && z.expectedExposed == i.expectedExposed && z.timeToImpact == i.timeToImpact
            && z.peopleToMove == i.populationInFootprint && z.readings == Readings(i)
            && |z.norms| == TERMS && (z.norms[k].None? <==> Norms(i, curves)[k].None?)
            && (z.norms[k].Some? ==>
                  -0.00005 <= z.norms[k].value as real / 10_000.0 - Norms(i, curves)[k].value <= 0.00005)
  {
    hide Norms, Displayed, Total, FirstBand, AllReasons, Readings, Contributions;
    var norm := Norms(i, curves)[k];
    if norm.Some? {
      assert -0.5 <= round(norm.value * 10_000.0) as real - norm.value * 10_000.0 <= 0.5;
    }
  }

  // ----- from a term to the score ------------------------------------------------------------------

  /** The same terms, but for a rise of `d` in the one at `k`. */
  ghost predicate Rises(a: seq<Option<real>>, b: seq<Option<real>>, k: nat, d: real) {
    && |a| == |b| && k < |a| && a[k].Some? && b == a[k := Some(a[k].value + d)]
  }

  /** `rise` is `d` times the weight, give or take a millionth. */
  predicate ToTheMillionth(rise: int, d: real, w: int) {
    -1.0 <= rise as real - d * w as real <= 1.0
  }

  lemma RoundedRise(x: Option<real>, d: real, y: Option<real>, w: int, round: real -> int, rise: int)
    requires Rounds(round) && x.Some? && y == Some(x.value + d)
    requires rise == Contribution(y, w, round) - Contribution(x, w, round)
    ensures ToTheMillionth(rise, d, w)
  {
    Spread(x.value, d, w as real);
    Apart(x.value * w as real, y.value * w as real, round);
  }

  lemma Spread(v: real, d: real, w: real)
    ensures (v + d) * w == v * w + d * w
  {
  }

  lemma Apart(x: real, y: real, round: real -> int)
    requires Rounds(round)
    ensures -1.0 <= (round(y) - round(x)) as real - (y - x) <= 1.0
  {
    assert -0.5 <= round(x) as real - x <= 0.5 && -0.5 <= round(y) as real - y <= 0.5;
  }

  /** A rise of `d` in one term raises the score by `d` times the weight on the screen, to the millionth. */
  lemma RiseIsWorth(a: seq<Option<real>>, b: seq<Option<real>>, k: nat, d: real, weights: seq<real>, round: real -> int)
    requires |a| == TERMS && |weights| == TERMS && Rises(a, b, k, d) && Rounds(round)
    ensures ToTheMillionth(ScoreOf(b, weights, round) - ScoreOf(a, weights, round), d,
                           Displayed(a, weights, round)[k])
  {
    hide Displayed, Rounds, Total, Contributions, ToTheMillionth;
    WeightsIgnoreValues(a, b, weights, round);
    DisplayedLength(a, weights, round);
    ContributionRises(a, b, k, d, Displayed(a, weights, round), round);
  }

  lemma DisplayedLength(norms: seq<Option<real>>, weights: seq<real>, round: real -> int)
    requires |norms| == |weights|
    ensures |Displayed(norms, weights, round)| == |norms|
  {
  }

  lemma ContributionRises(a: seq<Option<real>>, b: seq<Option<real>>, k: nat, d: real, ws: seq<int>, round: real -> int)
    requires |a| == |ws| && Rises(a, b, k, d) && Rounds(round)
    ensures |Contributions(a, ws, round)| == |a| && |Contributions(b, ws, round)| == |b|
    ensures ToTheMillionth(Total(Contributions(b, ws, round), |b|) - Total(Contributions(a, ws, round), |a|), d, ws[k])
  {
    RiseOf(a, b, k, d);
    hide Rounds, Total, Contribution, Contributions, Rises, ToTheMillionth;
    TotalsDiffer(a, b, k, d, ws, round);
    RoundedRise(a[k], d, b[k], ws[k], round,
                Total(Contributions(b, ws, round), |b|) - Total(Contributions(a, ws, round), |a|));
  }

  lemma RiseOf(a: seq<Option<real>>, b: seq<Option<real>>, k: nat, d: real)
    requires Rises(a, b, k, d)
    ensures |a| == |b| && k < |a| && a[k].Some? && b[k] == Some(a[k].value + d)
  {
  }

  lemma TotalsDiffer(a: seq<Option<real>>, b: seq<Option<real>>, k: nat, d: real, ws: seq<int>, round: real -> int)
    requires |a| == |b| == |ws| && k < |a| && Rises(a, b, k, d)
    ensures |Contributions(a, ws, round)| == |a| && |Contributions(b, ws, round)| == |b|
    ensures Total(Contributions(b, ws, round), |b|) - Total(Contributions(a, ws, round), |a|)
         == Contribution(b[k], ws[k], round) - Contribution(a[k], ws[k], round)
  {
    hide Total, Contribution, Contributions;
    ContributionsDiffer(a, b, k, d, ws, round);
    TotalUpdate(Contributions(a, ws, round), k, Contribution(b[k], ws[k], round), |a|);
  }

  lemma ContributionsDiffer(a: seq<Option<real>>, b: seq<Option<real>>, k: nat, d: real, ws: seq<int>,
                            round: real -> int)
    requires |a| == |ws| && Rises(a, b, k, d)
    ensures |Contributions(a, ws, round)| == |a| && Contributions(a, ws, round)[k] == Contribution(a[k], ws[k], round)
    ensures Contributions(b, ws, round) == Contributions(a, ws, round)[k := Contribution(b[k], ws[k], round)]
  {
    hide Contribution;
  }

  // ----- what is available --------------------------------------------------------------------------

  lemma {:induction false} SumUpdate(xs: seq<real>, k: nat, x: real, m: nat)
    requires k < |xs| && m <= |xs|
    ensures Sum(xs[k := x], m) == Sum(xs, m) + if k < m then x - xs[k] else 0.0
  {
    if m > 0 {
      SumUpdate(xs, k, x, m - 1);
    }
  }

  /** What is available are the weights of the terms that are there: each gives its own, and none gives nothing. */
  lemma AvailableExactly(norms: seq<Option<real>>, weights: seq<real>, k: nat)
    requires |norms| == |weights| && k < |norms|
    ensures norms[k].Some? ==> Available(norms, weights) == Available(norms[k := None], weights) + weights[k]
    ensures !AnyLive(norms) ==> Available(norms, weights) == 0.0
  {
    SumUpdate(LiveWeights(norms, weights), k, 0.0, |norms|);
    assert LiveWeights(norms[k := None], weights) == LiveWeights(norms, weights)[k := 0.0];
    if !AnyLive(norms) {
      SumOfNone(LiveWeights(norms, weights), |norms|);
    }
  }

  /** Nothing is available only if no term that is there has any weight. */
  lemma AvailableIfAnyWeighs(norms: seq<Option<real>>, weights: seq<real>)
    requires |norms| == TERMS && Weighing(weights)
    ensures Available(norms, weights) > 0.0 <==> exists k :: 0 <= k < TERMS && norms[k].Some? && weights[k] > 0.0
  {
    var live := LiveWeights(norms, weights);
    assert forall k :: 0 <= k < TERMS ==> live[k] == if norms[k].Some? then weights[k] else 0.0;
    hide LiveWeights;
    if k :| 0 <= k < TERMS && norms[k].Some? && weights[k] > 0.0 {
      SumGrows(live, TERMS, k);
    } else {
      forall k | 0 <= k < TERMS ensures live[k] == 0.0 {
        assert norms[k].Some? ==> !(weights[k] > 0.0);
      }
      SumOfNone(live, TERMS);
    }
  }

  /** Every weight on the screen but one, which takes the rest, is its share to half a millionth. */
  lemma DisplayedIsShare(norms: seq<Option<real>>, weights: seq<real>, round: real -> int) returns (h: nat)
    requires |norms| == TERMS && Weighing(weights) && Rounds(round) && Available(norms, weights) > 0.0
    ensures h < TERMS && norms[h].Some? && |Displayed(norms, weights, round)| == TERMS
    ensures forall k :: 0 <= k < TERMS && k != h && norms[k].Some? ==>
              -0.5 <= Displayed(norms, weights, round)[k] as real - ShareOf(norms, weights, k) * UNIT as real <= 0.5
  {
    SomeLive(norms, weights);
    DisplayedLength(norms, weights, round);
    h := DisplayedNearBut(norms, weights, round);
    forall k | 0 <= k < TERMS && k != h && norms[k].Some?
      ensures -0.5 <= Displayed(norms, weights, round)[k] as real - ShareOf(norms, weights, k) * UNIT as real <= 0.5
    {
      IdealIsShare(norms, weights, k);
    }
  }

  lemma IdealIsShare(norms: seq<Option<real>>, weights: seq<real>, k: nat)
    requires |norms| == |weights| && k < |norms| && norms[k].Some? && Available(norms, weights) > 0.0
    ensures |Ideal(norms, weights)| == |norms|
    ensures Ideal(norms, weights)[k] == ShareOf(norms, weights, k) * UNIT as real
  {
    var a := Available(norms, weights);
    assert Ideal(norms, weights)[k] == Renormalised(weights[k], 1.0 / a);
    hide Available;
    DivideByTimes(weights[k], a);
  }

  /** Six terms count, or five without a vulnerability: scores are within 5.5 or 4.5 millionths of the true mean. */
  lemma TermsThatCount(i: Inputs, curves: Curves)
    ensures LiveCount(Norms(i, curves), TERMS) == if i.vulnerability.Some? then 6 else 5
  {
    var norms := Norms(i, curves);
    assert norms[0].Some? && norms[1].Some? && norms[3].Some? && norms[4].Some? && norms[5].Some?;
    assert norms[2].Some? <==> i.vulnerability.Some?;
    hide Norms;
    assert LiveCount(norms, 3) == LiveCount(norms, 2) + if i.vulnerability.Some? then 1 else 0;
    assert LiveCount(norms, 2) == LiveCount(norms, 1) + 1 == LiveCount(norms, 0) + 2;
    assert LiveCount(norms, 6) == LiveCount(norms, 5) + 1 == LiveCount(norms, 4) + 2 == LiveCount(norms, 3) + 3;
  }

  /** The weight of a live term as a share of what is available. */
  function ShareOf(norms: seq<Option<real>>, weights: seq<real>, k: nat): real
    requires |norms| == |weights| && k < |weights| && Available(norms, weights) > 0.0
  {
    weights[k] / Available(norms, weights)
  }

  /** And by `d` times its true share, to within twice the margin of a score. */
  lemma RiseIsWorthItsShare(a: seq<Option<real>>, b: seq<Option<real>>, k: nat, d: real, weights: seq<real>,
                            round: real -> int)
    requires Normed(a) && Normed(b) && Rises(a, b, k, d) && Weighing(weights) && Rounds(round)
    requires Available(a, weights) > 0.0
    ensures var rise := (ScoreOf(b, weights, round) - ScoreOf(a, weights, round)) as real;
            var margin := 2.0 * LiveCount(a, TERMS) as real - 1.0;
            -margin <= rise - d * ShareOf(a, weights, k) * UNIT as real <= margin
  {
    hide ScoreOf, WeightedMean, Available, ShareOf, Rounds, LiveCount, LiveWeights;
    LiveWeightsAgree(a, b, weights, k, d);
    MeanRises(a, b, k, d, weights);
    ScoreIsAccurate(a, weights, round);
    ScoreIsAccurate(b, weights, round);
    SameCount(a, b, TERMS);
    Within(ScoreOf(a, weights, round) as real, ScoreOf(b, weights, round) as real, WeightedMean(a, weights),
           WeightedMean(b, weights), d * ShareOf(a, weights, k), LiveCount(a, TERMS) as real - 0.5);
  }

  lemma Within(a: real, b: real, x: real, y: real, d: real, margin: real)
    requires y == x + d && -margin <= a - x * UNIT as real <= margin && -margin <= b - y * UNIT as real <= margin
    ensures -2.0 * margin <= b - a - d * UNIT as real <= 2.0 * margin
  {
  }

  lemma {:induction false} SameCount(a: seq<Option<real>>, b: seq<Option<real>>, m: nat)
    requires SameLive(a, b) && m <= |a|
    ensures LiveCount(a, m) == LiveCount(b, m)
  {
    if m > 0 {
      SameCount(a, b, m - 1);
    }
  }

  lemma LiveWeightsAgree(a: seq<Option<real>>, b: seq<Option<real>>, weights: seq<real>, k: nat, d: real)
    requires |a| == |weights| && Rises(a, b, k, d)
    ensures SameLive(a, b) && LiveWeights(a, weights) == LiveWeights(b, weights)
    ensures Available(a, weights) == Available(b, weights)
  {
    assert LiveWeights(a, weights) == LiveWeights(b, weights);
  }

  lemma {:induction false} DotUpdate(a: seq<real>, x: seq<real>, k: nat, v: real, m: nat)
    requires k < |a| && m <= |a| && m <= |x| && k < |x|
    ensures Dot(a[k := v], x, m) == Dot(a, x, m) + if k < m then Product(v - a[k], x[k]) else 0.0
  {
    hide Product;
    if m > 0 {
      DotUpdate(a, x, k, v, m - 1);
      if k == m - 1 {
        ProductDiffers(v, a[k], x[k]);
      }
    }
  }

  lemma ProductDiffers(v: real, a: real, x: real)
    ensures Product(v, x) == Product(a, x) + Product(v - a, x)
  {
  }

  /** The true mean rises by exactly the share. */
  lemma MeanRises(a: seq<Option<real>>, b: seq<Option<real>>, k: nat, d: real, weights: seq<real>)
    requires |a| == |weights| && Rises(a, b, k, d) && Available(a, weights) > 0.0
    ensures Available(b, weights) > 0.0
    ensures WeightedMean(b, weights) == WeightedMean(a, weights) + d * ShareOf(a, weights, k)
  {
    LiveWeightsAgree(a, b, weights, k, d);
    var live := LiveWeights(a, weights);
    assert Values(b) == Values(a)[k := a[k].value + d] && Values(a)[k] == a[k].value;
    assert live[k] == weights[k];
    hide Available, Values, LiveWeights, Dot;
    DotUpdate(Values(a), live, k, a[k].value + d, |a|);
    DivideAdded(Dot(Values(a), live, |a|), d, weights[k], Available(a, weights));
  }

  lemma DivideAdded(x: real, d: real, w: real, available: real)
    requires available > 0.0
    ensures (x + Product(d, w)) / available == x / available + d * (w / available)
  {
    assert d * (w / available) == d * w / available;
  }

  // ----- from the risk to the rank --------------------------------------------------------------------

  /** Two places alike in all but their risk, and their cells. */
  ghost predicate AlikeButRisk(i: Inputs, j: Inputs) {
    j == i.(cellId := j.cellId, riskScore := j.riskScore)
  }

  lemma RiskRises(i: Inputs, j: Inputs, curves: Curves)
    requires AlikeButRisk(i, j) && 0.0 <= i.riskScore <= j.riskScore <= 100.0
    ensures Rises(Norms(i, curves), Norms(j, curves), RISK, (j.riskScore - i.riskScore) / 100.0)
  {
    assert Norms(j, curves)[1..] == Norms(i, curves)[1..];
  }

  /**
   Of two places alike but for their predicted risk, the riskier one scores higher by a hundredth of
   the weight of hazard for each point, to the millionth, and is ranked ahead if that is more than one.
   */
  lemma RiskierRanksAhead(i: Inputs, j: Inputs, curves: Curves, weights: seq<real>, round: real -> int)
    requires Weighing(weights) && Rounds(round)
    requires AlikeButRisk(i, j) && 0.0 <= i.riskScore <= j.riskScore <= 100.0
    ensures var w := Displayed(Norms(i, curves), weights, round)[RISK];
            var d := (j.riskScore - i.riskScore) / 100.0;
            var a, b := ZoneOf(i, curves, weights, round), ZoneOf(j, curves, weights, round);
            && ToTheMillionth(b.score - a.score, d, w)
            && (1.0 < d * w as real ==> a.score < b.score && KeyLess(KeyOf(b), KeyOf(a)))
  {
    hide Norms, ScoreOf, Displayed, ZoneOf, Rounds;
    RiskRises(i, j, curves);
    RiseIsWorth(Norms(i, curves), Norms(j, curves), RISK, (j.riskScore - i.riskScore) / 100.0, weights, round);
    ZoneFields(i, curves, weights, round);
    ZoneFields(j, curves, weights, round);
  }
}
