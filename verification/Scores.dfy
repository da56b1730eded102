/**
 The priority score of backend/app/priority/engine.py, in the millionths it is kept
 in: the displayed weights and contributions close exactly, and stay near the true
 weighted mean.
 */
module Scores {
  import opened Sorting
  import opened Wrappers

  const UNIT := 1_000_000

  /** The six ranking factors, in the order the engine computes them. */
  const TERMS := 6

  lemma ExactOnIntegers(round: real -> int, n: int)
    requires Rounds(round)
    ensures round(n as real) == n
  {
    assert -0.5 <= (round(n as real) - n) as real <= 0.5;
  }

  // ----- normalised terms -----------------------------------------------------------------

  datatype Inputs = Inputs(
    cellId: string,
    hazard: string,
    name: Option<string>,
    riskScore: real,
    expectedExposed: real,
    populationInFootprint: int,
    vulnerability: Option<real>,
    travelTime: Option<real>,
    timeToImpact: Option<real>,
    routesOut: Option<int>,
    blockedRoutes: int,
    confidence: real)

  /** The two curves: log1p(people) over log1p(reference), and exp(-hours / 8). */
  datatype Curves = Curves(growth: real -> real, decay: real -> real) {
    ghost predicate Valid() {
      && (forall x :: x >= 0.0 ==> growth(x) >= 0.0)
      && (forall x, y :: 0.0 <= x <= y ==> growth(x) <= growth(y))
      && (forall x :: decay(x) >= 0.0)
      && (forall x, y :: x <= y ==> decay(y) <= decay(x))
    }
  }

  function Clamp(x: real): real {
    Max(0.0, Min(1.0, x))
  }

  function Accessibility(usable: int): real {
    if usable <= 0 then 1.0 else if usable == 1 then 0.8 else if usable == 2 then 0.45 else 0.2
  }

  /** Only a missing vulnerability leaves a term out; other gaps take a neutral value. */
  function Norms(i: Inputs, curves: Curves): (norms: seq<Option<real>>)
    ensures |norms| == TERMS
  {
    [ Some(Clamp(i.riskScore / 100.0)),
      Some(Min(curves.growth(Max(i.expectedExposed, 0.0)), 1.0)),
      if i.vulnerability.None? then None else Some(Clamp(i.vulnerability.value)),
      Some(if i.travelTime.None? then 0.5 else Min(i.travelTime.value / 60.0 / 90.0, 1.0)),
      Some(if i.timeToImpact.None? then 0.4
           else if i.timeToImpact.value <= 0.0 then 1.0
           else Min(curves.decay(i.timeToImpact.value), 1.0)),
      Some(if i.routesOut.None? then 0.5 else Accessibility(i.routesOut.value - i.blockedRoutes)) ]
  }

  predicate Sensible(i: Inputs) {
    i.travelTime.Some? ==> i.travelTime.value >= 0.0
  }

  /** Six terms, each missing or in [0, 1]. */
  predicate Normed(norms: seq<Option<real>>) {
    && |norms| == TERMS
    && forall k :: 0 <= k < |norms| && norms[k].Some? ==> 0.0 <= norms[k].value <= 1.0
  }

  predicate AnyLive(norms: seq<Option<real>>) {
    exists k :: 0 <= k < |norms| && norms[k].Some?
  }

  lemma NormsAreNormed(i: Inputs, curves: Curves)
    requires Sensible(i) && curves.Valid()
    ensures Normed(Norms(i, curves)) && AnyLive(Norms(i, curves))
  {
    assert Norms(i, curves)[0].Some?;
  }

  // ----- sums -----------------------------------------------------------------------------

  function Total(xs: seq<int>, m: nat): int
    requires m <= |xs|
  {
    if m == 0 then 0 else Total(xs, m - 1) + xs[m - 1]
  }

  function Sum(xs: seq<real>, m: nat): real
    requires m <= |xs|
  {
    if m == 0 then 0.0 else Sum(xs, m - 1) + xs[m - 1]
  }

  function Product(a: real, b: real): real {
    a * b
  }

  function Dot(a: seq<real>, b: seq<real>, m: nat): real
    requires m <= |a| && m <= |b|
  {
    if m == 0 then 0.0 else Dot(a, b, m - 1) + Product(a[m - 1], b[m - 1])
  }

  function LiveCount(norms: seq<Option<real>>, m: nat): nat
    requires m <= |norms|
  {
    if m == 0 then 0 else LiveCount(norms, m - 1) + if norms[m - 1].Some? then 1 else 0
  }

  lemma {:induction false} TotalUpdate(xs: seq<int>, k: nat, x: int, m: nat)
    requires k < |xs| && m <= |xs|
    ensures Total(xs[k := x], m) == Total(xs, m) + if k < m then x - xs[k] else 0
  {
    if m > 0 {
      TotalUpdate(xs, k, x, m - 1);
    }
  }

  lemma {:induction false} TotalMonotone(xs: seq<int>, ys: seq<int>, m: nat)
    requires m <= |xs| && m <= |ys| && forall k :: 0 <= k < m ==> xs[k] <= ys[k]
    ensures Total(xs, m) <= Total(ys, m)
  {
    if m > 0 {
      TotalMonotone(xs, ys, m - 1);
    }
  }

  lemma {:induction false} TotalOfNone(xs: seq<int>, m: nat)
    requires m <= |xs| && forall k :: 0 <= k < m ==> xs[k] == 0
    ensures Total(xs, m) == 0
  {
    if m > 0 {
      TotalOfNone(xs, m - 1);
    }
  }

  // ----- weights --------------------------------------------------------------------------

  predicate Weighing(weights: seq<real>) {
    |weights| == TERMS && forall k :: 0 <= k < |weights| ==> weights[k] >= 0.0
  }

  function LiveWeights(norms: seq<Option<real>>, weights: seq<real>): seq<real>
    requires |norms| == |weights|
  {
    seq(|norms|, k requires 0 <= k < |norms| => if norms[k].Some? then weights[k] else 0.0)
  }

  function Available(norms: seq<Option<real>>, weights: seq<real>): real
    requires |norms| == |weights|
  {
    Sum(LiveWeights(norms, weights), |norms|)
  }

  function Scale(norms: seq<Option<real>>, weights: seq<real>): real
    requires |norms| == |weights|
  {
    var available := Available(norms, weights);
    if available > 0.0 then 1.0 / available else 0.0
  }

  /** A weight in millionths of what is available. */
  function Renormalised(weight: real, scale: real): real {
    weight * scale * UNIT as real
  }

  lemma RenormalisedIs(weight: real, scale: real)
    ensures Renormalised(weight, scale) == weight * (scale * UNIT as real)
  {
    Associate(weight, scale, UNIT as real);
  }

  /** The renormalised weights, in millionths, before rounding. */
  function Ideal(norms: seq<Option<real>>, weights: seq<real>): seq<real>
    requires |norms| == |weights|
  {
    var scale := Scale(norms, weights);
    var live := LiveWeights(norms, weights);
    seq(|norms|, k requires 0 <= k < |norms| => Renormalised(live[k], scale))
  }

  function Rounded(norms: seq<Option<real>>, weights: seq<real>, round: real -> int): seq<int>
    requires |norms| == |weights|
  {
    var ideal := Ideal(norms, weights);
    seq(|norms|, k requires 0 <= k < |norms| => if norms[k].Some? then round(ideal[k]) else 0)
  }

  /** The first live term with the largest weight. */
  function Heaviest(norms: seq<Option<real>>, ws: seq<int>, m: nat): (h: Option<nat>)
    requires m <= |norms| == |ws|
    ensures h.Some? ==> h.value < m && norms[h.value].Some?
  {
    if m == 0 then None
    else
      var best := Heaviest(norms, ws, m - 1);
      if norms[m - 1].None? || (best.Some? && ws[m - 1] <= ws[best.value]) then best else Some(m - 1)
  }

  /** Rounded weights with the residue put on the heaviest live term. */
  function Displayed(norms: seq<Option<real>>, weights: seq<real>, round: real -> int): seq<int>
    requires |norms| == |weights|
  {
    var ws := Rounded(norms, weights, round);
    var h := Heaviest(norms, ws, |norms|);
    if h.None? then ws
    else
      var residue := round((UNIT - Total(ws, |ws|)) as real);
      ws[h.value := round((ws[h.value] + residue) as real)]
  }

  function Contribution(norm: Option<real>, w: int, round: real -> int): int {
    if norm.Some? then round(norm.value * w as real) else 0
  }

  function Contributions(norms: seq<Option<real>>, ws: seq<int>, round: real -> int): seq<int>
    requires |norms| == |ws|
  {
    seq(|norms|, k requires 0 <= k < |norms| => Contribution(norms[k], ws[k], round))
  }

  /** The score: the sum of the displayed contributions. */
  function ScoreOf(norms: seq<Option<real>>, weights: seq<real>, round: real -> int): int
    requires |norms| == |weights|
  {
    Total(Contributions(norms, Displayed(norms, weights, round), round), |norms|)
  }

  // ----- the weights close ------------------------------------------------------------------

  lemma {:induction false} HeaviestIsMax(norms: seq<Option<real>>, ws: seq<int>, m: nat)
    requires m <= |norms| == |ws|
    ensures var h := Heaviest(norms, ws, m);
            && (h.None? ==> forall k :: 0 <= k < m ==> norms[k].None?)
            && (h.Some? ==> forall k :: 0 <= k < m && norms[k].Some? ==>
                  ws[k] <= ws[h.value] && (k < h.value ==> ws[k] < ws[h.value]))
  {
    if m > 0 {
      HeaviestIsMax(norms, ws, m - 1);
    }
  }

  /** The residue is a whole number of millionths, so rounding leaves it as it is. */
  lemma DisplayedIs(norms: seq<Option<real>>, weights: seq<real>, round: real -> int)
    requires |norms| == |weights| && Rounds(round)
    ensures var ws, h := Rounded(norms, weights, round), Heaviest(norms, Rounded(norms, weights, round), |norms|);
            Displayed(norms, weights, round)
              == if h.None? then ws else ws[h.value := ws[h.value] + (UNIT - Total(ws, |ws|))]
  {
    var ws := Rounded(norms, weights, round);
    var h := Heaviest(norms, ws, |norms|);
    if h.Some? {
      ExactOnIntegers(round, UNIT - Total(ws, |ws|));
      ExactOnIntegers(round, ws[h.value] + (UNIT - Total(ws, |ws|)));
    }
    hide Rounds, Rounded, Heaviest, Total;
  }

  lemma ResidueCloses(ws: seq<int>, h: nat)
    requires h < |ws|
    ensures Total(ws[h := ws[h] + (UNIT - Total(ws, |ws|))], |ws|) == UNIT
  {
    TotalUpdate(ws, h, ws[h] + (UNIT - Total(ws, |ws|)), |ws|);
  }

  lemma HeaviestIfLive(norms: seq<Option<real>>, ws: seq<int>)
    requires |norms| == |ws|
    ensures AnyLive(norms) <==> Heaviest(norms, ws, |norms|).Some?
    ensures !AnyLive(norms) ==> forall k :: 0 <= k < |norms| ==> norms[k].None?
  {
    HeaviestIsMax(norms, ws, |norms|);
    var h := Heaviest(norms, ws, |norms|);
    assert h.Some? ==> norms[h.value].Some?;
  }

  /** Live weights on screen sum to exactly one. */
  lemma WeightsClose(norms: seq<Option<real>>, weights: seq<real>, round: real -> int)
    requires |norms| == |weights| && Rounds(round)
    ensures Total(Displayed(norms, weights, round), |norms|) == if AnyLive(norms) then UNIT else 0
  {
    hide Displayed, Heaviest, Total, AnyLive, Rounds, Ideal;
    var ws := Rounded(norms, weights, round);
    DisplayedIs(norms, weights, round);
    HeaviestIfLive(norms, ws);
    if AnyLive(norms) {
      ResidueCloses(ws, Heaviest(norms, ws, |norms|).value);
    } else {
      TotalOfNone(ws, |norms|);
    }
  }

  lemma {:induction false} SumScales(xs: seq<real>, ys: seq<real>, factor: real, m: nat)
    requires m <= |xs| && m <= |ys| && forall k :: 0 <= k < m ==> ys[k] == xs[k] * factor
    ensures Sum(ys, m) == Sum(xs, m) * factor
  {
    if m > 0 {
      SumScales(xs, ys, factor, m - 1);
      Distribute(Sum(xs, m - 1), xs[m - 1], factor);
    }
  }

  lemma Distribute(a: real, b: real, c: real)
    ensures (a + b) * c == a * c + b * c
  {
  }

  lemma {:induction false} SumGrows(xs: seq<real>, m: nat, k: nat)
    requires k < m <= |xs| && forall i :: 0 <= i < |xs| ==> xs[i] >= 0.0
    ensures 0.0 <= xs[k] <= Sum(xs, m)
    decreases m
  {
    if k < m - 1 {
      SumGrows(xs, m - 1, k);
    } else if k > 0 {
      SumGrows(xs, m - 1, 0);
    }
  }

  lemma IdealIsScaled(norms: seq<Option<real>>, weights: seq<real>)
    requires |norms| == |weights|
    ensures forall k :: 0 <= k < |norms| ==>
              Ideal(norms, weights)[k] == LiveWeights(norms, weights)[k] * (Scale(norms, weights) * UNIT as real)
  {
    hide Renormalised, Scale;
    forall k | 0 <= k < |norms|
      ensures Ideal(norms, weights)[k] == LiveWeights(norms, weights)[k] * (Scale(norms, weights) * UNIT as real)
    {
      RenormalisedIs(LiveWeights(norms, weights)[k], Scale(norms, weights));
    }
  }

  /** Before rounding, the live weights sum to one (unless they are all zero). */
  lemma IdealCloses(norms: seq<Option<real>>, weights: seq<real>)
    requires |norms| == |weights|
    ensures Available(norms, weights) > 0.0 ==> Sum(Ideal(norms, weights), |norms|) == UNIT as real
    ensures !(Available(norms, weights) > 0.0) ==>
              forall k :: 0 <= k < |norms| ==> Ideal(norms, weights)[k] == 0.0
  {
    if Available(norms, weights) > 0.0 {
      IdealIsScaled(norms, weights);
      hide Ideal, LiveWeights, Sum;
      SumScales(LiveWeights(norms, weights), Ideal(norms, weights), Scale(norms, weights) * UNIT as real, |norms|);
      Inverse(Available(norms, weights), UNIT as real);
    }
  }

  lemma Associate(a: real, b: real, c: real)
    ensures a * b * c == a * (b * c)
  {
  }

  lemma Inverse(a: real, u: real)
    requires a > 0.0
    ensures a * (1.0 / a * u) == u
  {
    assert a * (1.0 / a) == 1.0;
    assert a * (1.0 / a * u) == a * (1.0 / a) * u;
  }

  // ----- scores stay between 0 and 1 ----------------------------------------------------------

  /** Live entries are at most half a unit apart, the others are nought on both sides. */
  ghost predicate Near(norms: seq<Option<real>>, ws: seq<int>, xs: seq<real>) {
    && |norms| == |ws| == |xs|
    && forall k :: 0 <= k < |norms| ==>
         if norms[k].Some? then -0.5 <= ws[k] as real - xs[k] <= 0.5 else ws[k] == 0 && xs[k] == 0.0
  }

  lemma {:induction false} TotalNear(norms: seq<Option<real>>, ws: seq<int>, xs: seq<real>, m: nat)
    requires Near(norms, ws, xs) && m <= |norms|
    ensures var half := 0.5 * LiveCount(norms, m) as real;
            -half <= Total(ws, m) as real - Sum(xs, m) <= half
  {
    if m > 0 {
      TotalNear(norms, ws, xs, m - 1);
    }
  }

  lemma RoundedNear(norms: seq<Option<real>>, weights: seq<real>, round: real -> int)
    requires |norms| == |weights| && Rounds(round)
    ensures Near(norms, Rounded(norms, weights, round), Ideal(norms, weights))
  {
  }

  lemma {:induction false} LiveAtMost(norms: seq<Option<real>>, m: nat)
    requires m <= |norms|
    ensures LiveCount(norms, m) <= m
  {
    if m > 0 {
      LiveAtMost(norms, m - 1);
    }
  }

  lemma {:induction false} TotalAtMost(xs: seq<int>, top: int, m: nat)
    requires m <= |xs| && forall k :: 0 <= k < m ==> xs[k] <= top
    ensures Total(xs, m) <= m * top
  {
    if m > 0 {
      TotalAtMost(xs, top, m - 1);
    }
  }

  lemma ProductNonNegative(a: real, b: real)
    requires a >= 0.0 && b >= 0.0
    ensures a * b >= 0.0
  {
  }

  lemma RoundedNonNegative(norms: seq<Option<real>>, weights: seq<real>, round: real -> int)
    requires |norms| == TERMS && Weighing(weights) && Rounds(round)
    ensures forall k :: 0 <= k < |norms| ==> Rounded(norms, weights, round)[k] >= 0
  {
  }

  /** Taking the residue back never turns a displayed weight negative. */
  lemma DisplayedNonNegative(norms: seq<Option<real>>, weights: seq<real>, round: real -> int)
    requires |norms| == TERMS && Weighing(weights) && Rounds(round)
    ensures forall k :: 0 <= k < |norms| ==> 0 <= Displayed(norms, weights, round)[k]
    ensures forall k :: 0 <= k < |norms| && norms[k].None? ==> Displayed(norms, weights, round)[k] == 0
  {
    var ws := Rounded(norms, weights, round);
    var h := Heaviest(norms, ws, |norms|);
    RoundedNonNegative(norms, weights, round);
    HeaviestIsMax(norms, ws, |norms|);
    if h.Some? {
      var residue := UNIT - Total(ws, |ws|);
      ExactOnIntegers(round, residue);
      ExactOnIntegers(round, ws[h.value] + residue);
      RoundedNear(norms, weights, round);
      TotalNear(norms, ws, Ideal(norms, weights), TERMS);
      LiveAtMost(norms, TERMS);
      IdealCloses(norms, weights);
      if Available(norms, weights) > 0.0 {
        assert Total(ws, TERMS) as real <= UNIT as real + 3.0;
        forall k | 0 <= k < TERMS ensures ws[k] <= ws[h.value] {
          assert norms[k].None? ==> ws[k] == 0;
        }
        TotalAtMost(ws, ws[h.value], TERMS);
      } else {
        forall k | 0 <= k < TERMS ensures ws[k] == 0 {
          ExactOnIntegers(round, 0);
        }
        TotalOfNone(ws, TERMS);
      }
    }
  }

  lemma Shrinks(norm: real, w: real)
    requires 0.0 <= norm <= 1.0 && w >= 0.0
    ensures 0.0 <= norm * w <= w
  {
  }

  /** A contribution lies between nothing and its weight. */
  lemma ContributionsBounded(norms: seq<Option<real>>, ws: seq<int>, round: real -> int)
    requires Normed(norms) && |ws| == TERMS && Rounds(round) && forall k :: 0 <= k < |ws| ==> ws[k] >= 0
    ensures var cs := Contributions(norms, ws, round);
            forall k :: 0 <= k < |cs| ==> 0 <= cs[k] <= ws[k]
  {
    ExactOnIntegers(round, 0);
    forall k | 0 <= k < |norms| && norms[k].Some? ensures 0 <= round(norms[k].value * ws[k] as real) <= ws[k] {
      Shrinks(norms[k].value, ws[k] as real);
      ExactOnIntegers(round, ws[k]);
      assert round(0.0) <= round(norms[k].value * ws[k] as real) <= round(ws[k] as real);
    }
  }

  lemma ScoreInUnit(norms: seq<Option<real>>, weights: seq<real>, round: real -> int)
    requires Normed(norms) && Weighing(weights) && Rounds(round)
    ensures 0 <= ScoreOf(norms, weights, round) <= UNIT
  {
    var ws := Displayed(norms, weights, round);
    DisplayedNonNegative(norms, weights, round);
    ContributionsBounded(norms, ws, round);
    WeightsClose(norms, weights, round);
    var cs, noughts := Contributions(norms, ws, round), seq(TERMS, _ => 0);
    TotalOfNone(noughts, TERMS);
    TotalMonotone(noughts, cs, TERMS);
    TotalMonotone(cs, ws, TERMS);
  }

  // ----- more of any factor never lowers the score ---------------------------------------------

  ghost predicate SameLive(a: seq<Option<real>>, b: seq<Option<real>>) {
    |a| == |b| && forall k :: 0 <= k < |a| ==> (a[k].Some? <==> b[k].Some?)
  }

  ghost predicate Below(a: seq<Option<real>>, b: seq<Option<real>>) {
    SameLive(a, b) && forall k :: 0 <= k < |a| && a[k].Some? ==> a[k].value <= b[k].value
  }

  /** The displayed weights depend only on which terms are live. */
  lemma WeightsIgnoreValues(a: seq<Option<real>>, b: seq<Option<real>>, weights: seq<real>, round: real -> int)
    requires SameLive(a, b) && |a| == |weights|
    ensures Displayed(a, weights, round) == Displayed(b, weights, round)
  {
    assert LiveWeights(a, weights) == LiveWeights(b, weights);
    assert Ideal(a, weights) == Ideal(b, weights);
    var ws := Rounded(a, weights, round);
    assert ws == Rounded(b, weights, round);
    HeaviestIgnoresValues(a, b, ws, |a|);
  }

  lemma {:induction false} HeaviestIgnoresValues(a: seq<Option<real>>, b: seq<Option<real>>, ws: seq<int>, m: nat)
    requires SameLive(a, b) && m <= |a| == |ws|
    ensures Heaviest(a, ws, m) == Heaviest(b, ws, m)
  {
    if m > 0 {
      HeaviestIgnoresValues(a, b, ws, m - 1);
    }
  }

  lemma ContributionMonotone(a: Option<real>, b: Option<real>, w: int, round: real -> int)
    requires (a.Some? <==> b.Some?) && (a.Some? ==> a.value <= b.value) && w >= 0 && Rounds(round)
    ensures Contribution(a, w, round) <= Contribution(b, w, round)
  {
    if a.Some? {
      ProductNonNegative(b.value - a.value, w as real);
      Distribute(b.value - a.value, a.value, w as real);
    }
  }

  lemma ScoreMonotone(a: seq<Option<real>>, b: seq<Option<real>>, weights: seq<real>, round: real -> int)
    requires |a| == TERMS && Below(a, b) && Weighing(weights) && Rounds(round)
    ensures ScoreOf(a, weights, round) <= ScoreOf(b, weights, round)
  {
    WeightsIgnoreValues(a, b, weights, round);
    DisplayedNonNegative(a, weights, round);
    var ws := Displayed(a, weights, round);
    var ca, cb := Contributions(a, ws, round), Contributions(b, ws, round);
    hide Displayed, Contribution, Rounds;
    forall k | 0 <= k < TERMS ensures ca[k] <= cb[k] {
      ContributionMonotone(a[k], b[k], ws[k], round);
    }
    TotalMonotone(ca, cb, TERMS);
  }

  /** `j` is in at least the danger of `i`, factor by factor, with the same factors measured. */
  ghost predicate AtLeastAsUrgent(i: Inputs, j: Inputs) {
    && i.riskScore <= j.riskScore && i.expectedExposed <= j.expectedExposed
    && (i.vulnerability.Some? <==> j.vulnerability.Some?)
    && (i.vulnerability.Some? ==> i.vulnerability.value <= j.vulnerability.value)
    && (i.travelTime.Some? <==> j.travelTime.Some?)
    && (i.travelTime.Some? ==> i.travelTime.value <= j.travelTime.value)
    && (i.timeToImpact.Some? <==> j.timeToImpact.Some?)
    && (i.timeToImpact.Some? ==> j.timeToImpact.value <= i.timeToImpact.value)
    && (i.routesOut.Some? <==> j.routesOut.Some?)
    && (i.routesOut.Some? ==> j.routesOut.value - j.blockedRoutes <= i.routesOut.value - i.blockedRoutes)
  }

  lemma MoreUrgentNeverScoresLower(i: Inputs, j: Inputs, curves: Curves, weights: seq<real>, round: real -> int)
    requires curves.Valid() && Weighing(weights) && Rounds(round) && AtLeastAsUrgent(i, j)
    ensures ScoreOf(Norms(i, curves), weights, round) <= ScoreOf(Norms(j, curves), weights, round)
  {
    var a, b := Norms(i, curves), Norms(j, curves);
    assert Below(a, b);
    ScoreMonotone(a, b, weights, round);
  }

  // ----- the score is close to the true weighted mean -------------------------------------------

  function Values(norms: seq<Option<real>>): seq<real> {
    seq(|norms|, k requires 0 <= k < |norms| => if norms[k].Some? then norms[k].value else 0.0)
  }

  function Reals(ws: seq<int>): seq<real> {
    seq(|ws|, k requires 0 <= k < |ws| => ws[k] as real)
  }

  /** The unrounded mean of the live terms, weighted by the registered weights. */
  function WeightedMean(norms: seq<Option<real>>, weights: seq<real>): real
    requires |norms| == |weights| && Available(norms, weights) > 0.0
  {
    Dot(Values(norms), LiveWeights(norms, weights), |norms|) / Available(norms, weights)
  }

  lemma {:induction false} DotScales(a: seq<real>, x: seq<real>, y: seq<real>, factor: real, m: nat)
    requires m <= |a| && m <= |x| && m <= |y| && forall k :: 0 <= k < m ==> y[k] == x[k] * factor
    ensures Dot(a, y, m) == Dot(a, x, m) * factor
  {
    hide Product;
    if m > 0 {
      DotScales(a, x, y, factor, m - 1);
      var p, q := Dot(a, x, m - 1), Product(a[m - 1], x[m - 1]);
      ProductScales(a[m - 1], x[m - 1], y[m - 1], factor);
      assert Dot(a, y, m) == p * factor + q * factor;
      assert Dot(a, x, m) == p + q;
      Distribute(p, q, factor);
    } else {
      assert 0.0 * factor == 0.0;
    }
  }

  lemma ProductScales(a: real, x: real, y: real, factor: real)
    requires y == x * factor
    ensures Product(a, y) == Product(a, x) * factor
  {
    Associate(a, x, factor);
  }

  lemma MeanOfIdeal(norms: seq<Option<real>>, weights: seq<real>)
    requires |norms| == |weights| && Available(norms, weights) > 0.0
    ensures Dot(Values(norms), Ideal(norms, weights), |norms|) == WeightedMean(norms, weights) * UNIT as real
  {
    var live, scale := LiveWeights(norms, weights), Scale(norms, weights);
    IdealIsScaled(norms, weights);
    hide Ideal, LiveWeights, Dot, Values, Sum, Available;
    DotScales(Values(norms), live, Ideal(norms, weights), scale * UNIT as real, |norms|);
    Quotient(Dot(Values(norms), live, |norms|), Available(norms, weights), UNIT as real);
  }

  lemma Quotient(d: real, a: real, u: real)
    requires a > 0.0
    ensures d * (1.0 / a * u) == d / a * u
  {
    assert d * (1.0 / a) == d / a;
    Associate(d, 1.0 / a, u);
  }

  /** The drift of the weights, weighed around `pivot`. */
  function Spread(values: seq<real>, ws: seq<int>, ideal: seq<real>, pivot: real, m: nat): real
    requires m <= |values| && m <= |ws| && m <= |ideal|
  {
    if m == 0 then 0.0
    else Spread(values, ws, ideal, pivot, m - 1) + Product(values[m - 1] - pivot, ws[m - 1] as real - ideal[m - 1])
  }

  lemma {:induction false} PivotShift(values: seq<real>, ws: seq<int>, ideal: seq<real>, pivot: real, m: nat)
    requires m <= |values| && m <= |ws| && m <= |ideal|
    ensures Dot(values, Reals(ws), m) - Dot(values, ideal, m)
            == Spread(values, ws, ideal, pivot, m) + Product(pivot, Total(ws, m) as real - Sum(ideal, m))
  {
    hide Product;
    if m > 0 {
      PivotShift(values, ws, ideal, pivot, m - 1);
      PivotTerm(values[m - 1], ws[m - 1] as real, ideal[m - 1], pivot, Total(ws, m - 1) as real - Sum(ideal, m - 1));
      assert Reals(ws)[m - 1] == ws[m - 1] as real;
    } else {
      NoProduct(pivot, 0.0);
    }
  }

  lemma PivotTerm(v: real, w: real, x: real, pivot: real, t: real)
    ensures Product(v, w) - Product(v, x) + Product(pivot, t) == Product(v - pivot, w - x) + Product(pivot, t + w - x)
  {
  }

  /** With weights that close, only the spread is left. */
  lemma ClosedShift(values: seq<real>, ws: seq<int>, ideal: seq<real>, pivot: real, m: nat)
    requires m <= |values| && m <= |ws| && m <= |ideal| && Total(ws, m) as real == Sum(ideal, m)
    ensures Dot(values, Reals(ws), m) - Dot(values, ideal, m) == Spread(values, ws, ideal, pivot, m)
  {
    PivotShift(values, ws, ideal, pivot, m);
    NoProduct(pivot, Total(ws, m) as real - Sum(ideal, m));
  }

  /** Only the heaviest weight may drift by more than half a unit. */
  ghost predicate NearBut(norms: seq<Option<real>>, ws: seq<int>, ideal: seq<real>, h: nat) {
    && |norms| == |ws| == |ideal|
    && forall k :: 0 <= k < |norms| && k != h ==>
         if norms[k].Some? then -0.5 <= ws[k] as real - ideal[k] <= 0.5 else ws[k] == 0 && ideal[k] == 0.0
  }

  lemma HalfAtMost(v: real, d: real)
    requires -1.0 <= v <= 1.0 && -0.5 <= d <= 0.5
    ensures -0.5 <= Product(v, d) <= 0.5
  {
    AtMostHalf(v, d);
    AtMostHalf(-v, d);
    assert Product(-v, d) == -Product(v, d);
  }

  lemma AtMostHalf(v: real, d: real)
    requires -1.0 <= v <= 1.0 && -0.5 <= d <= 0.5
    ensures Product(v, d) <= 0.5
  {
    if v >= 0.0 {
      ProductNonNegative(v, 0.5 - d);
    } else {
      ProductNonNegative(-v, 0.5 + d);
    }
  }

  lemma NoProduct(v: real, d: real)
    requires v == 0.0 || d == 0.0
    ensures Product(v, d) == 0.0
  {
  }

  /** Around the heaviest term's own value, its drift does not matter. */
  lemma {:induction false} SpreadBound(norms: seq<Option<real>>, ws: seq<int>, ideal: seq<real>, h: nat, m: nat)
    requires Normed(norms) && NearBut(norms, ws, ideal, h) && h < |norms| && norms[h].Some? && m <= |norms|
    ensures var half := 0.5 * (LiveCount(norms, m) - if h < m then 1 else 0) as real;
            -half <= Spread(Values(norms), ws, ideal, norms[h].value, m) <= half
  {
    hide Product, Values;
    if m > 0 {
      SpreadBound(norms, ws, ideal, h, m - 1);
      DriftBound(norms, ws, ideal, h, m - 1);
    }
  }

  lemma DriftBound(norms: seq<Option<real>>, ws: seq<int>, ideal: seq<real>, h: nat, k: nat)
    requires Normed(norms) && NearBut(norms, ws, ideal, h) && h < |norms| && norms[h].Some? && k < |norms|
    ensures var d := Product(Values(norms)[k] - norms[h].value, ws[k] as real - ideal[k]);
            if k != h && norms[k].Some? then -0.5 <= d <= 0.5 else d == 0.0
  {
    var v, d := Values(norms)[k] - norms[h].value, ws[k] as real - ideal[k];
    hide Product;
    if k == h || norms[k].None? {
      NoProduct(v, d);
    } else {
      HalfAtMost(v, d);
    }
  }

  lemma {:induction false} TotalOfReals(ws: seq<int>, m: nat)
    requires m <= |ws|
    ensures Sum(Reals(ws), m) == Total(ws, m) as real
  {
    if m > 0 {
      TotalOfReals(ws, m - 1);
    }
  }

  function Products(a: seq<real>, b: seq<real>): seq<real>
    requires |a| == |b|
  {
    seq(|a|, k requires 0 <= k < |a| => Product(a[k], b[k]))
  }

  lemma {:induction false} SumOfProducts(a: seq<real>, b: seq<real>, m: nat)
    requires |a| == |b| && m <= |a|
    ensures Sum(Products(a, b), m) == Dot(a, b, m)
  {
    if m > 0 {
      SumOfProducts(a, b, m - 1);
    }
  }

  /** Rounding the contributions costs at most half a millionth each. */
  lemma ContributionsNear(norms: seq<Option<real>>, ws: seq<int>, round: real -> int)
    requires Normed(norms) && |ws| == TERMS && Rounds(round)
    ensures var half := 0.5 * LiveCount(norms, TERMS) as real;
            var total := Total(Contributions(norms, ws, round), TERMS) as real;
            -half <= total - Dot(Values(norms), Reals(ws), TERMS) <= half
  {
    var values, reals := Values(norms), Reals(ws);
    var cs, products := Contributions(norms, ws, round), Products(values, reals);
    forall k | 0 <= k < |norms|
      ensures if norms[k].Some? then -0.5 <= cs[k] as real - products[k] <= 0.5 else cs[k] == 0 && products[k] == 0.0
    {
      assert products[k] == Product(values[k], reals[k]);
      if norms[k].None? {
        NoProduct(values[k], reals[k]);
      }
    }
    hide Product, Products, Contributions, Rounds;
    TotalNear(norms, cs, products, TERMS);
    SumOfProducts(values, reals, TERMS);
  }

  lemma DisplayedNearBut(norms: seq<Option<real>>, weights: seq<real>, round: real -> int) returns (h: nat)
    requires |norms| == TERMS && Weighing(weights) && Rounds(round) && AnyLive(norms)
    ensures h < |norms| && norms[h].Some?
    ensures NearBut(norms, Displayed(norms, weights, round), Ideal(norms, weights), h)
  {
    var ws := Rounded(norms, weights, round);
    HeaviestIsMax(norms, ws, |norms|);
    RoundedNear(norms, weights, round);
    h := Heaviest(norms, ws, |norms|).value;
  }

  /**
   With n live terms the score is within n - 1/2 millionths of the true weighted mean,
   hence within 5.5 of them.
   */
  lemma ScoreIsAccurate(norms: seq<Option<real>>, weights: seq<real>, round: real -> int)
    requires Normed(norms) && Weighing(weights) && Rounds(round) && Available(norms, weights) > 0.0
    ensures AnyLive(norms)
    ensures var margin := LiveCount(norms, TERMS) as real - 0.5;
            && margin <= 5.5
            && -margin <= ScoreOf(norms, weights, round) as real - WeightedMean(norms, weights) * UNIT as real <= margin
  {
    SomeLive(norms, weights);
    var h := DisplayedNearBut(norms, weights, round);
    WeightsClose(norms, weights, round);
    IdealCloses(norms, weights);
    MeanOfIdeal(norms, weights);
    LiveAtMost(norms, TERMS);
    var ws, ideal := Displayed(norms, weights, round), Ideal(norms, weights);
    ContributionsNear(norms, ws, round);
    hide Displayed, Ideal, Available, WeightedMean, Dot, Sum, Values, Reals, Spread, Contributions, NearBut, Rounds;
    SpreadBound(norms, ws, ideal, h, TERMS);
    ClosedShift(Values(norms), ws, ideal, norms[h].value, TERMS);
  }

  lemma {:induction false} SumOfNone(xs: seq<real>, m: nat)
    requires m <= |xs| && forall k :: 0 <= k < m ==> xs[k] == 0.0
    ensures Sum(xs, m) == 0.0
  {
    if m > 0 {
      SumOfNone(xs, m - 1);
    }
  }

  lemma SomeLive(norms: seq<Option<real>>, weights: seq<real>)
    requires |norms| == |weights| && Available(norms, weights) > 0.0
    ensures AnyLive(norms)
  {
    if !AnyLive(norms) {
      SumOfNone(LiveWeights(norms, weights), |norms|);
    }
  }

  /** Only the proportions of the weights matter. */
  lemma ScaleFree(norms: seq<Option<real>>, weights: seq<real>, scaled: seq<real>, factor: real, round: real -> int)
    requires |norms| == TERMS && Weighing(weights) && factor > 0.0
    requires |scaled| == TERMS && forall k :: 0 <= k < TERMS ==> scaled[k] == weights[k] * factor
    ensures ScoreOf(norms, scaled, round) == ScoreOf(norms, weights, round)
  {
    SumScales(LiveWeights(norms, weights), LiveWeights(norms, scaled), factor, TERMS);
    var a := Available(norms, weights);
    if a > 0.0 {
      ProductPositive(a, factor);
    } else {
      ProductNonPositive(a, factor);
    }
    forall k | 0 <= k < TERMS ensures Ideal(norms, scaled)[k] == Ideal(norms, weights)[k] {
      if a > 0.0 {
        Cancel(LiveWeights(norms, weights)[k], factor, a);
      }
    }
    assert Ideal(norms, scaled) == Ideal(norms, weights);
    assert Rounded(norms, scaled, round) == Rounded(norms, weights, round);
  }

  lemma ProductPositive(a: real, f: real)
    requires a > 0.0 && f > 0.0
    ensures a * f > 0.0
  {
  }

  lemma ProductNonPositive(a: real, f: real)
    requires a <= 0.0 && f > 0.0
    ensures a * f <= 0.0
  {
  }

  lemma Cancel(w: real, f: real, a: real)
    requires a > 0.0 && f > 0.0
    ensures a * f > 0.0 && w * f * (1.0 / (a * f)) == w * (1.0 / a)
  {
    ProductPositive(a, f);
    var x := 1.0 / (a * f);
    assert a * f * x == 1.0;
    assert f * x * a == 1.0;
    assert f * x == 1.0 / a by {
      Divides(f * x, a);
    }
    Associate(w, f, x);
  }

  lemma Divides(y: real, a: real)
    requires a > 0.0 && y * a == 1.0
    ensures y == 1.0 / a
  {
  }

  /** The engine's own copy of a weight set: divided by its sum unless that is 1 already; None if the sum is nought. */
  function Registered(weights: seq<real>): Option<seq<real>>
    requires Weighing(weights)
  {
    var sum := Sum(weights, TERMS);
    if -0.000000001 <= sum - 1.0 <= 0.000000001 then Some(weights)
    else if sum == 0.0 then None
    else Some(seq(TERMS, k requires 0 <= k < TERMS => weights[k] / sum))
  }

  lemma DivideByTimes(w: real, d: real)
    requires d > 0.0
    ensures w / d == w * (1.0 / d)
  {
  }

  lemma RegisteredIsScaled(weights: seq<real>) returns (factor: real)
    requires Weighing(weights) && Registered(weights).Some? && Registered(weights).value != weights
    ensures factor > 0.0 && Weighing(Registered(weights).value)
    ensures forall k :: 0 <= k < TERMS ==> Registered(weights).value[k] == weights[k] * factor
  {
    var sum, registered := Sum(weights, TERMS), Registered(weights).value;
    SumGrows(weights, TERMS, 0);
    factor := 1.0 / sum;
    forall k | 0 <= k < TERMS ensures registered[k] == weights[k] * factor >= 0.0 {
      DivideByTimes(weights[k], sum);
      ProductNonNegative(weights[k], factor);
    }
  }

  lemma RegisteringKeepsScores(norms: seq<Option<real>>, weights: seq<real>, round: real -> int)
    requires |norms| == TERMS && Weighing(weights)
    ensures var r := Registered(weights);
            r.Some? ==> Weighing(r.value) && ScoreOf(norms, r.value, round) == ScoreOf(norms, weights, round)
  {
    hide Registered, ScoreOf;
    var r := Registered(weights);
    if r.Some? && r.value != weights {
      var factor := RegisteredIsScaled(weights);
      ScaleFree(norms, weights, r.value, factor, round);
    }
  }

  lemma {:induction false} SumDivides(xs: seq<real>, ys: seq<real>, sum: real, m: nat)
    requires m <= |xs| == |ys| && sum != 0.0 && forall k :: 0 <= k < |xs| ==> ys[k] == xs[k] / sum
    ensures Sum(ys, m) == Sum(xs, m) / sum
  {
    if m > 0 {
      SumDivides(xs, ys, sum, m - 1);
      assert (Sum(xs, m - 1) + xs[m - 1]) / sum == Sum(xs, m - 1) / sum + xs[m - 1] / sum;
    }
  }

  /**
   The engine's weights sum to one: to a billionth if they were registered so, when it leaves them as they
   are, and exactly otherwise. Only a set of noughts cannot be registered.
   */
  lemma RegisteredSumsToOne(weights: seq<real>)
    requires Weighing(weights)
    ensures var r, sum := Registered(weights), Sum(weights, TERMS);
            && (r.None? <==> sum == 0.0)
            && (r.Some? && 0.999999999 <= sum <= 1.000000001 ==> r.value == weights)
            && (r.Some? && !(0.999999999 <= sum <= 1.000000001) ==> |r.value| == TERMS && Sum(r.value, TERMS) == 1.0)
  {
    var r, sum := Registered(weights), Sum(weights, TERMS);
    if r.Some? && !(0.999999999 <= sum <= 1.000000001) {
      hide Sum;
      SumDivides(weights, r.value, sum, TERMS);
      Whole(sum);
    }
  }

  lemma Whole(a: real)
    requires a != 0.0
    ensures a / a == 1.0
  {
  }

  // ----- bands, reasons and the audit ---------------------------------------------------------

  datatype Band = Critical | High | Medium | Low

  const BANDS := [(750_000, Critical), (550_000, High), (320_000, Medium), (0, Low)]

  /** The first band whose threshold is met; None where the source's `next` would fail. */
  function FirstBand(total: int, bands: seq<(int, Band)>): Option<Band> {
    if bands == [] then None
    else if total >= bands[0].0 then Some(bands[0].1)
    else FirstBand(total, bands[1..])
  }

  function Severity(band: Band): nat {
    match band case Low => 0 case Medium => 1 case High => 2 case Critical => 3
  }

  lemma BandSpelled(total: int)
    ensures FirstBand(total, BANDS) ==
      if total >= 750_000 then Some(Critical)
      else if total >= 550_000 then Some(High)
      else if total >= 320_000 then Some(Medium)
      else if total >= 0 then Some(Low) else None
  {
    var high := BANDS[1..];
    var medium := high[1..];
    var low := medium[1..];
    assert high == [(550_000, High), (320_000, Medium), (0, Low)];
    assert FirstBand(total, low) == if total >= 0 then Some(Low) else FirstBand(total, low[1..]);
    assert FirstBand(total, medium) == if total >= 320_000 then Some(Medium) else FirstBand(total, low);
    assert FirstBand(total, high) == if total >= 550_000 then Some(High) else FirstBand(total, medium);
  }

  /** Every score has a band, and a higher score never a milder one. */
  lemma BandsFollowScores(a: int, b: int)
    requires 0 <= a <= b
    ensures FirstBand(a, BANDS).Some? && FirstBand(b, BANDS).Some?
    ensures Severity(FirstBand(a, BANDS).value) <= Severity(FirstBand(b, BANDS).value)
  {
    BandSpelled(a);
    BandSpelled(b);
  }

  function At(cs: seq<int>, k: nat): int {
    if k < |cs| then cs[k] else 0
  }

  function Outweighs(cs: seq<int>): (nat, nat) -> bool {
    (a: nat, b: nat) => At(cs, a) > At(cs, b)
  }

  predicate Carries(cs: seq<int>, total: int, k: nat) {
    k < |cs| && cs[k] as real >= 0.15 * Max(total as real, 0.001)
  }

  function Carrying(order: seq<nat>, cs: seq<int>, total: int): seq<nat> {
    if order == [] then []
    else (if Carries(cs, total, order[0]) then [order[0]] else []) + Carrying(order[1..], cs, total)
  }

  function AllTerms(): seq<nat> {
    seq(TERMS, k => k)
  }

  /** The terms, the larger contribution first. */
  function LargerFirst(cs: seq<int>): seq<nat> {
    StableSort(AllTerms(), Outweighs(cs))
  }

  /** The terms that carry at least 15 % of the score, largest first, at most four. */
  function Reasons(cs: seq<int>, total: int): seq<nat> {
    var found := Carrying(LargerFirst(cs), cs, total);
    if |found| < 4 then found else found[..4]
  }

  lemma {:induction false} NothingCarries(order: seq<nat>, cs: seq<int>, total: int)
    requires forall k :: 0 <= k < |cs| ==> !Carries(cs, total, k)
    ensures Carrying(order, cs, total) == []
  {
    if order != [] {
      NothingCarries(order[1..], cs, total);
    }
  }

  /**
   A score above nought always has a reason, and the first one is a largest contribution;
   a score of nought has none.
   */
  lemma ScoresHaveReasons(cs: seq<int>)
    requires |cs| == TERMS && forall k :: 0 <= k < |cs| ==> cs[k] >= 0
    ensures var total := Total(cs, TERMS); var rs := Reasons(cs, total);
            && (total == 0 ==> rs == [])
            && (total > 0 ==> rs != [] && forall k :: 0 <= k < TERMS ==> cs[k] <= At(cs, rs[0]))
  {
    var total, order := Total(cs, TERMS), LargerFirst(cs);
    if total == 0 {
      forall k | 0 <= k < TERMS ensures !Carries(cs, total, k) {
        PartOfTotal(cs, k, TERMS);
      }
      NothingCarries(order, cs, total);
    } else {
      var first := LargestFirst(cs);
      TotalAtMost(cs, cs[first], TERMS);
      PartOfTotal(cs, 0, TERMS);
      assert Carries(cs, total, first);
      assert Carrying(order, cs, total)[0] == first;
    }
  }

  lemma {:induction false} PartOfTotal(cs: seq<int>, k: nat, m: nat)
    requires k < m <= |cs| && forall i :: 0 <= i < |cs| ==> cs[i] >= 0
    ensures cs[k] <= Total(cs, m)
    decreases m
  {
    if k < m - 1 {
      PartOfTotal(cs, k, m - 1);
    } else if k > 0 {
      PartOfTotal(cs, 0, m - 1);
    }
  }

  lemma LargestFirst(cs: seq<int>) returns (first: nat)
    requires |cs| == TERMS
    ensures LargerFirst(cs) != [] && first == LargerFirst(cs)[0]
    ensures first < TERMS && forall k :: 0 <= k < TERMS ==> cs[k] <= cs[first]
  {
    var all, less := AllTerms(), Outweighs(cs);
    var order := StableSort(all, less);
    assert WeakOrder(less);
    StableSortSorts(all, less);
    StableSortKeepsAll(all, less);
    hide StableSort, WeakOrder, AllTerms, Outweighs, Class;
    first := order[0];
    FirstIsLeast(all, order, less);
    AllTermsAre(first);
    forall k | 0 <= k < TERMS ensures cs[k] <= cs[first] {
      AllTermsAre(k);
      assert !less(k, first);
      OutweighsIs(cs, k, first);
    }
  }

  lemma AllTermsAre(k: nat)
    ensures k in AllTerms() <==> k < TERMS
  {
    assert k < TERMS ==> AllTerms()[k] == k;
  }

  lemma OutweighsIs(cs: seq<int>, a: nat, b: nat)
    ensures Outweighs(cs)(a, b) <==> At(cs, a) > At(cs, b)
  {
  }

  /** Nothing sorts before the first of a sorted permutation. */
  lemma FirstIsLeast(xs: seq<nat>, order: seq<nat>, less: (nat, nat) -> bool)
    requires Sorted(order, less) && multiset(order) == multiset(xs) && order != [] && !less(order[0], order[0])
    ensures order[0] in xs && forall x :: x in xs ==> !less(x, order[0])
  {
    assert order[0] in multiset(xs);
    forall x | x in xs ensures !less(x, order[0]) {
      assert x in multiset(order);
      var j :| 0 <= j < |order| && order[j] == x;
    }
  }

  lemma {:induction false} CarryingMembers(order: seq<nat>, cs: seq<int>, total: int, k: nat)
    ensures k in Carrying(order, cs, total) <==> k in order && Carries(cs, total, k)
  {
    if order != [] {
      CarryingMembers(order[1..], cs, total, k);
      assert order == [order[0]] + order[1..];
    }
  }

  ghost predicate Falls(cs: seq<int>, ks: seq<nat>) {
    forall i, j :: 0 <= i < j < |ks| ==> At(cs, ks[i]) >= At(cs, ks[j])
  }

  lemma {:induction false} CarryingFalls(order: seq<nat>, cs: seq<int>, total: int)
    requires Falls(cs, order)
    ensures Falls(cs, Carrying(order, cs, total))
  {
    if order != [] {
      var first, rest := order[0], order[1..];
      CarryingFalls(rest, cs, total);
      forall j | 0 <= j < |Carrying(rest, cs, total)|
        ensures At(cs, first) >= At(cs, Carrying(rest, cs, total)[j])
      {
        var k := Carrying(rest, cs, total)[j];
        CarryingMembers(rest, cs, total, k);
        var i :| 0 <= i < |rest| && rest[i] == k;
        assert order[i + 1] == k;
      }
    }
  }

  lemma TermsInOrder(cs: seq<int>)
    requires |cs| == TERMS
    ensures Falls(cs, LargerFirst(cs)) && multiset(LargerFirst(cs)) == multiset(AllTerms())
  {
    var all, less := AllTerms(), Outweighs(cs);
    assert WeakOrder(less);
    StableSortSorts(all, less);
    StableSortKeepsAll(all, less);
    var order := LargerFirst(cs);
    hide StableSort, WeakOrder, AllTerms, Outweighs, Class, At;
    forall i, j | 0 <= i < j < |order| ensures At(cs, order[i]) >= At(cs, order[j]) {
      assert !less(order[j], order[i]);
      OutweighsIs(cs, order[j], order[i]);
    }
  }

  lemma TermIsListed(cs: seq<int>, k: nat)
    requires multiset(LargerFirst(cs)) == multiset(AllTerms())
    ensures k in LargerFirst(cs) <==> k < TERMS
  {
    hide LargerFirst, AllTerms;
    AllTermsAre(k);
    assert k in multiset(LargerFirst(cs)) <==> k in multiset(AllTerms());
  }

  /** A reason is a term that carries the score. */
  lemma ReasonCarries(cs: seq<int>, total: int, i: nat)
    requires |cs| == TERMS && i < |Reasons(cs, total)|
    ensures Reasons(cs, total)[i] < TERMS && Carries(cs, total, Reasons(cs, total)[i])
  {
    TermsInOrder(cs);
    var k := Reasons(cs, total)[i];
    assert Carrying(LargerFirst(cs), cs, total)[i] == k;
    hide Carrying, LargerFirst, Carries, Reasons;
    CarryingMembers(LargerFirst(cs), cs, total, k);
    TermIsListed(cs, k);
  }

  /** A term that carries the score is a reason, or there are four that are no smaller. */
  lemma CarrierIsReason(cs: seq<int>, total: int, k: nat)
    requires |cs| == TERMS && k < TERMS && Carries(cs, total, k)
    ensures var rs := Reasons(cs, total);
            k in rs || (|rs| == 4 && forall i :: 0 <= i < 4 ==> At(cs, rs[i]) >= cs[k])
  {
    var found := Carrying(LargerFirst(cs), cs, total);
    TermsInOrder(cs);
    TermIsListed(cs, k);
    hide Carrying, LargerFirst, Carries, Falls, At;
    CarryingMembers(LargerFirst(cs), cs, total, k);
    CarryingFalls(LargerFirst(cs), cs, total);
    var j :| 0 <= j < |found| && found[j] == k;
    CutIsLarger(cs, found, j);
    AtOf(cs, k);
  }

  lemma AtOf(cs: seq<int>, k: nat)
    requires k < |cs|
    ensures At(cs, k) == cs[k]
  {
  }

  lemma CutIsLarger(cs: seq<int>, found: seq<nat>, j: nat)
    requires Falls(cs, found) && j < |found|
    ensures var cut := if |found| < 4 then found else found[..4];
            found[j] in cut || (|cut| == 4 && forall i :: 0 <= i < 4 ==> At(cs, cut[i]) >= At(cs, found[j]))
  {
    hide At;
    if 4 <= j {
      assert forall i :: 0 <= i < 4 ==> found[..4][i] == found[i];
    } else if 4 <= |found| {
      assert found[..4][j] == found[j];
    }
  }

  /**
   Of a score above nought the reasons are terms that carry 15 % of it or more, and any such term is one
   unless there are four that are no smaller.
   */
  lemma ReasonsExactly(cs: seq<int>, total: int, k: nat)
    requires |cs| == TERMS && k < TERMS && total > 0
    ensures var rs := Reasons(cs, total);
            && (k in rs ==> 15 * total <= 100 * cs[k])
            && (15 * total <= 100 * cs[k] ==>
                  k in rs || (|rs| == 4 && forall i :: 0 <= i < 4 ==> At(cs, rs[i]) >= cs[k]))
  {
    var rs := Reasons(cs, total);
    assert Carries(cs, total, k) <==> 15 * total <= 100 * cs[k];
    hide Reasons, Carries;
    if k in rs {
      var i :| 0 <= i < |rs| && rs[i] == k;
      ReasonCarries(cs, total, i);
    }
    if Carries(cs, total, k) {
      CarrierIsReason(cs, total, k);
    }
  }

  /** Larger reasons come first. */
  lemma ReasonsFall(cs: seq<int>, total: int)
    requires |cs| == TERMS
    ensures |Reasons(cs, total)| <= 4 && Falls(cs, Reasons(cs, total))
  {
    TermsInOrder(cs);
    hide Carrying, LargerFirst;
    CarryingFalls(LargerFirst(cs), cs, total);
  }

  // ----- what is said of the terms --------------------------------------------------------------

  /** What a note says; its wording is left to the screen. */
  datatype Note = Risk(score: real) | Exposed(people: real) | Vulnerable(index: real)
                | TimeUnknown | MinutesAway(minutes: real)
                | ImpactUnknown | AlreadyThere | HoursAway(hours: real)
                | RoutesUnknown | NoRouteOut | OneRouteOut | RoutesOut(routes: int)
                | NoInput(term: nat)

  /** A term as it was read: the raw value, if there is one, and the note on it. */
  datatype Reading = Reading(raw: Option<real>, note: Note)

  function RouteNote(usable: int): Note {
    if usable <= 0 then NoRouteOut else if usable == 1 then OneRouteOut else RoutesOut(usable)
  }

  function Readings(i: Inputs): (rs: seq<Reading>)
    ensures |rs| == TERMS
  {
    [ Reading(Some(i.riskScore), Risk(i.riskScore)),
      Reading(Some(Max(i.expectedExposed, 0.0)), Exposed(Max(i.expectedExposed, 0.0))),
      match i.vulnerability
      case None => Reading(None, NoInput(2))
      case Some(v) => Reading(Some(v), Vulnerable(Clamp(v))),
      match i.travelTime
      case None => Reading(None, TimeUnknown)
      case Some(t) => Reading(Some(t / 60.0), MinutesAway(t / 60.0)),
      match i.timeToImpact
      case None => Reading(None, ImpactUnknown)
      case Some(h) => if h <= 0.0 then Reading(Some(0.0), AlreadyThere) else Reading(Some(h), HoursAway(h)),
      match i.routesOut
      case None => Reading(None, RoutesUnknown)
      case Some(n) =>
        var usable := if n - i.blockedRoutes < 0 then 0 else n - i.blockedRoutes;
        Reading(Some(usable as real), RouteNote(usable)) ]
  }

  /** A term is dropped exactly if its note says so; one kept without a raw value has a neutral one. */
  lemma ReadingsMatchNorms(i: Inputs, curves: Curves, k: nat)
    requires k < TERMS
    ensures Norms(i, curves)[k].None? <==> Readings(i)[k].note == NoInput(k)
    ensures Readings(i)[k].raw.None? && Norms(i, curves)[k].Some? ==> Norms(i, curves)[k].value in {0.4, 0.5}
    ensures Readings(i)[k].note == NoRouteOut ==> Norms(i, curves)[k] == Some(1.0)
    ensures Readings(i)[k].note == AlreadyThere ==> Norms(i, curves)[k] == Some(1.0)
  {
    assert k == 0 || k == 1 || k == 2 || k == 3 || k == 4 || k == 5;
  }

  datatype Reason = Because(note: Note) | FewInputs(missing: seq<nat>) | LowConfidence(confidence: real)

  const CONFIDENT := 0.6

  function Missing(norms: seq<Option<real>>, m: nat): seq<nat>
    requires m <= |norms|
  {
    if m == 0 then [] else Missing(norms, m - 1) + if norms[m - 1].None? then [m - 1] else []
  }

  function NoteAt(readings: seq<Reading>, k: nat): Note {
    if k < |readings| then readings[k].note else NoInput(k)
  }

  function Becauses(readings: seq<Reading>, ks: seq<nat>): seq<Reason> {
    seq(|ks|, j requires 0 <= j < |ks| => Because(NoteAt(readings, ks[j])))
  }

  /** The notes on the terms that carry the score, then what weakens the evidence. */
  function AllReasons(i: Inputs, norms: seq<Option<real>>, cs: seq<int>, score: int): seq<Reason> {
    Said(Becauses(Readings(i), Reasons(cs, score)), Missing(norms, |norms|), i.confidence)
  }

  function Said(because: seq<Reason>, missing: seq<nat>, confidence: real): seq<Reason> {
    because
    + (if missing != [] then [FewInputs(missing)] else [])
    + (if confidence < CONFIDENT then [LowConfidence(confidence)] else [])
  }

  lemma SaidOf(because: seq<Reason>, missing: seq<nat>, confidence: real)
    requires forall r :: r in because ==> r.Because?
    ensures var said := Said(because, missing, confidence);
            && |said| <= |because| + 2 && (because != [] ==> said != [] && said[0] == because[0])
            && (forall ks :: FewInputs(ks) in said <==> missing != [] && ks == missing)
            && (forall c :: LowConfidence(c) in said <==> confidence < CONFIDENT && c == confidence)
  {
  }

  lemma {:induction false} MissingAre(norms: seq<Option<real>>, m: nat, k: nat)
    requires m <= |norms|
    ensures k in Missing(norms, m) <==> k < m && norms[k].None?
  {
    if m > 0 {
      MissingAre(norms, m - 1, k);
    }
  }

  /**
   A score above nought leads with the note on a largest contribution; the screen owns up to missing
   inputs exactly when vulnerability is missing, and to low confidence exactly when it is low.
   */
  lemma ReasonsTellAll(i: Inputs, curves: Curves, cs: seq<int>)
    requires |cs| == TERMS && forall k :: 0 <= k < |cs| ==> cs[k] >= 0
    ensures var total := Total(cs, TERMS); var said := AllReasons(i, Norms(i, curves), cs, total);
            && |said| <= 6
            && (total > 0 ==>
                  said != [] && exists k: nat :: IsLargest(cs, k) && said[0] == Because(Readings(i)[k].note))
            && (forall ks :: FewInputs(ks) in said <==> i.vulnerability.None? && ks == [2])
            && (forall c :: LowConfidence(c) in said <==> i.confidence < CONFIDENT && c == i.confidence)
  {
    hide Reasons, Missing, Total, Norms, Readings, Carries, Falls, Becauses, Said, At;
    var total := Total(cs, TERMS);
    var because := Becauses(Readings(i), Reasons(cs, total));
    ReasonsFall(cs, total);
    VulnerabilityAlone(i, curves);
    BecausesAre(Readings(i), Reasons(cs, total));
    SaidOf(because, Missing(Norms(i, curves), TERMS), i.confidence);
    if total > 0 {
      FirstReason(i, cs);
    }
  }

  lemma FirstReason(i: Inputs, cs: seq<int>)
    requires |cs| == TERMS && (forall k :: 0 <= k < |cs| ==> cs[k] >= 0) && Total(cs, TERMS) > 0
    ensures var because := Becauses(Readings(i), Reasons(cs, Total(cs, TERMS)));
            because != [] && exists k: nat :: IsLargest(cs, k) && because[0] == Because(Readings(i)[k].note)
  {
    var rs := Reasons(cs, Total(cs, TERMS));
    ScoresHaveReasons(cs);
    hide Reasons, Total, Readings, Carries;
    ReasonCarries(cs, Total(cs, TERMS), 0);
    assert IsLargest(cs, rs[0]);
  }

  lemma BecausesAre(readings: seq<Reading>, ks: seq<nat>)
    ensures var bs := Becauses(readings, ks);
            && |bs| == |ks| && (forall b :: b in bs ==> b.Because?)
            && forall j :: 0 <= j < |ks| ==> bs[j] == Because(NoteAt(readings, ks[j]))
  {
  }

  ghost predicate IsLargest(cs: seq<int>, k: nat) {
    k < TERMS && forall j :: 0 <= j < TERMS ==> At(cs, j) <= At(cs, k)
  }

  lemma VulnerabilityAlone(i: Inputs, curves: Curves)
    ensures Missing(Norms(i, curves), TERMS) == if i.vulnerability.None? then [2] else []
  {
    var norms := Norms(i, curves);
    assert norms[0].Some? && norms[1].Some? && norms[3].Some? && norms[4].Some? && norms[5].Some?;
    hide Norms;
    assert Missing(norms, 2) == Missing(norms, 1) == Missing(norms, 0) == [];
    assert Missing(norms, 3) == if norms[2].None? then [2] else [];
    assert Missing(norms, 6) == Missing(norms, 5) == Missing(norms, 4) == Missing(norms, 3);
  }

  datatype Zone = Zone(
    cellId: string,
    hazard: string,
    name: Option<string>,
    score: int,
    band: Band,
    expectedExposed: real,
    timeToImpact: Option<real>,
    confidence: real,
    peopleToMove: int,
    readings: seq<Reading>,
    norms: seq<Option<int>>,
    weights: seq<int>,
    contributions: seq<int>,
    reasons: seq<Reason>,
    rank: nat)

  /** The normalised terms as they are displayed, in ten-thousandths. */
  function ShownNorms(norms: seq<Option<real>>, round: real -> int): seq<Option<int>> {
    seq(|norms|, k requires 0 <= k < |norms| =>
          if norms[k].None? then None else Some(round(norms[k].value * 10_000.0)))
  }

  /** The zone that scoring `i` yields. */
  function ZoneOf(i: Inputs, curves: Curves, weights: seq<real>, round: real -> int): Zone
    requires Weighing(weights)
  {
    var norms := Norms(i, curves);
    var ws := Displayed(norms, weights, round);
    var cs := Contributions(norms, ws, round);
    var score := Total(cs, TERMS);
    var band := FirstBand(score, BANDS);
    Zone(i.cellId, i.hazard, i.name, score, if band.Some? then band.value else Low, i.expectedExposed, i.timeToImpact,
         i.confidence, i.populationInFootprint, Readings(i), ShownNorms(norms, round), ws, cs,
         AllReasons(i, norms, cs, score), 0)
  }

  lemma ZoneFields(i: Inputs, curves: Curves, weights: seq<real>, round: real -> int)
    requires Weighing(weights)
    ensures var z := ZoneOf(i, curves, weights, round);
            && z.cellId == i.cellId && z.expectedExposed == i.expectedExposed && z.timeToImpact == i.timeToImpact
            && z.score == ScoreOf(Norms(i, curves), weights, round)
  {
    hide Norms, Displayed, Total, FirstBand, AllReasons, Readings, ShownNorms;
  }

  /**
   What the screen shows of a scored zone adds up: weights to one, contributions to the
   score, and the score lies between 0 and 1.
   */
  ghost predicate Auditable(z: Zone) {
    && |z.weights| == |z.contributions| == TERMS
    && Total(z.weights, TERMS) == UNIT
    && Total(z.contributions, TERMS) == z.score
    && 0 <= z.score <= UNIT
    && FirstBand(z.score, BANDS) == Some(z.band)
    && forall k :: 0 <= k < TERMS ==> 0 <= z.contributions[k] <= z.weights[k]
  }

  lemma ZonesAreAuditable(i: Inputs, curves: Curves, weights: seq<real>, round: real -> int)
    requires Sensible(i) && curves.Valid() && Weighing(weights) && Rounds(round)
    ensures Auditable(ZoneOf(i, curves, weights, round))
  {
    var norms := Norms(i, curves);
    var ws := Displayed(norms, weights, round);
    NormsAreNormed(i, curves);
    WeightsClose(norms, weights, round);
    DisplayedNonNegative(norms, weights, round);
    ContributionsBounded(norms, ws, round);
    ScoreInUnit(norms, weights, round);
    BandSpelled(ScoreOf(norms, weights, round));
  }

  method AddWeights(norms: seq<Option<real>>, weights: seq<real>) returns (available: real)
    requires |norms| == |weights|
    ensures available == Available(norms, weights)
  {
    available := 0.0;
    for k := 0 to |norms|
      invariant available == Sum(LiveWeights(norms, weights), k)
    {
      if norms[k].Some? {
        available := available + weights[k];
      }
    }
  }

  /** Rounds each live weight, and keeps count of the total and of the first heaviest. */
  method RoundWeights(norms: seq<Option<real>>, weights: seq<real>, round: real -> int)
    returns (ws: seq<int>, total: int, heaviest: Option<nat>)
    requires |norms| == |weights|
    ensures ws == Rounded(norms, weights, round) && total == Total(ws, |ws|)
    ensures heaviest == Heaviest(norms, ws, |norms|) && (heaviest.Some? ==> heaviest.value < |ws|)
  {
    var available := AddWeights(norms, weights);
    var scale := if available > 0.0 then 1.0 / available else 0.0;
    ghost var whole := Rounded(norms, weights, round);
    ws, total, heaviest := [], 0, None;
    for k := 0 to |norms|
      invariant ws == whole[..k] && total == Total(whole, k) && heaviest == Heaviest(norms, whole, k)
    {
      var w := if norms[k].Some? then round(Renormalised(weights[k], scale)) else 0;
      RoundedAt(norms, weights, round, k);
      assert whole[..k + 1] == whole[..k] + [w];
      ws, total := ws + [w], total + w;
      if norms[k].Some? && (heaviest.None? || ws[heaviest.value] < w) {
        heaviest := Some(k);
      }
    }
  }

  lemma RoundedAt(norms: seq<Option<real>>, weights: seq<real>, round: real -> int, k: nat)
    requires |norms| == |weights| && k < |norms|
    ensures Rounded(norms, weights, round)[k]
         == if norms[k].Some? then round(Renormalised(weights[k], Scale(norms, weights))) else 0
  {
    hide Scale, Renormalised;
  }

  /**
   Rounds the live weights and gives the residue to the heaviest. What is shown sums to
   exactly one, no weight is negative, and a term without input has none.
   */
  method WeightsOnScreen(norms: seq<Option<real>>, weights: seq<real>, round: real -> int) returns (ws: seq<int>)
    requires |norms| == TERMS && Weighing(weights) && Rounds(round)
    ensures ws == Displayed(norms, weights, round)
    ensures Total(ws, TERMS) == if AnyLive(norms) then UNIT else 0
    ensures forall k :: 0 <= k < TERMS ==> 0 <= ws[k] && (norms[k].None? ==> ws[k] == 0)
    ensures AnyLive(norms) ==> exists h :: NearBut(norms, ws, Ideal(norms, weights), h)
  {
    hide Rounded, Total, Heaviest, Rounds;
    var total, heaviest;
    ws, total, heaviest := RoundWeights(norms, weights, round);
    if heaviest.Some? {
      var residue := round((UNIT - total) as real);
      ws := ws[heaviest.value := round((ws[heaviest.value] + residue) as real)];
    }
    WeightsClose(norms, weights, round);
    DisplayedNonNegative(norms, weights, round);
    if AnyLive(norms) {
      var h := DisplayedNearBut(norms, weights, round);
    }
  }

  /** The rounded contributions, and their sum. */
  method AddUp(norms: seq<Option<real>>, ws: seq<int>, round: real -> int) returns (terms: seq<int>, total: int)
    requires |norms| == |ws|
    ensures terms == Contributions(norms, ws, round) && total == Total(terms, |terms|)
  {
    terms, total := [], 0;
    ghost var cs := Contributions(norms, ws, round);
    for k := 0 to |norms|
      invariant terms == cs[..k] && total == Total(cs, k)
    {
      var contribution := 0;
      if norms[k].Some? {
        contribution := round(norms[k].value * ws[k] as real);
        total := total + contribution;
      }
      assert cs[k] == Contribution(norms[k], ws[k], round);
      assert cs[..k + 1] == cs[..k] + [cs[k]];
      terms := terms + [contribution];
    }
  }

  method Score(i: Inputs, curves: Curves, weights: seq<real>, round: real -> int) returns (z: Zone)
    requires Sensible(i) && curves.Valid() && Weighing(weights) && Rounds(round)
    ensures z == ZoneOf(i, curves, weights, round) && Auditable(z)
  {
    hide FirstBand, Displayed, Contributions, Total, AllReasons, Readings, ShownNorms, Sensible, Rounds, Auditable;
    ZonesAreAuditable(i, curves, weights, round);
    var norms := Norms(i, curves);
    var ws := WeightsOnScreen(norms, weights, round);
    var terms, total := AddUp(norms, ws, round);
    var band := FirstBand(total, BANDS);
    z := Zone(i.cellId, i.hazard, i.name, total, if band.Some? then band.value else Low,
              i.expectedExposed, i.timeToImpact, i.confidence, i.populationInFootprint,
              Readings(i), ShownNorms(norms, round), ws, terms, AllReasons(i, norms, terms, total), 0);
  }

  /** The audit: contributions may be off the score by at most one millionth. */
  predicate Verify(z: Zone)
    requires |z.contributions| == TERMS
  {
    -1 <= Total(z.contributions, TERMS) - z.score <= 1
  }

  /** It accepts every scored zone, and none whose score was moved by more than a millionth. */
  lemma VerifyIsExact(i: Inputs, curves: Curves, weights: seq<real>, round: real -> int, shown: int)
    requires Sensible(i) && curves.Valid() && Weighing(weights) && Rounds(round)
    ensures var z := ZoneOf(i, curves, weights, round);
            && Verify(z) && (Verify(z.(score := shown)) <==> -1 <= shown - z.score <= 1)
  {
  }
}
