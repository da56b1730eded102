/**
 The ranking of backend/app/priority/engine.py: zones in the order of `priority_key`
 (backend/app/priority/mergesort.py), numbered from one.
 */
module Rankings {
  import opened MergeSort
  import opened Scores
  import opened Sorting
  import opened Wrappers

  // ----- the key --------------------------------------------------------------------------

  /** Strings by code point, a prefix before what it begins. */
  predicate Before(a: string, b: string) {
    b != [] && (a == [] || a[0] < b[0] || (a[0] == b[0] && Before(a[1..], b[1..])))
  }

  lemma {:induction false} BeforeIsAsymmetric(a: string, b: string)
    ensures !(Before(a, b) && Before(b, a))
  {
    if a != [] && b != [] {
      BeforeIsAsymmetric(a[1..], b[1..]);
    }
  }

  lemma {:induction false} BeforeIsWeak(a: string, b: string, c: string)
    ensures Before(a, b) ==> Before(a, c) || Before(c, b)
  {
    if a != [] && b != [] && c != [] {
      BeforeIsWeak(a[1..], b[1..], c[1..]);
    }
  }

  lemma {:induction false} BeforeIsTotal(a: string, b: string)
    ensures a == b || Before(a, b) || Before(b, a)
  {
    if a != [] && b != [] {
      BeforeIsTotal(a[1..], b[1..]);
      if a[0] == b[0] && a[1..] == b[1..] {
        assert a == [a[0]] + a[1..] && b == [b[0]] + b[1..];
      }
    }
  }

  const NO_IMPACT_TIME := 1_000_000_000.0

  datatype Key = Key(score: int, exposed: int, hours: real, cell: string)

  function KeyOf(z: Zone): Key {
    Key(-z.score, -Trunc(z.expectedExposed),
        if z.timeToImpact.Some? then z.timeToImpact.value else NO_IMPACT_TIME, z.cellId)
  }

  predicate KeyLess(a: Key, b: Key) {
    if a.score != b.score then a.score < b.score
    else if a.exposed != b.exposed then a.exposed < b.exposed
    else if a.hours != b.hours then a.hours < b.hours
    else Before(a.cell, b.cell)
  }

  function ByPriority(): (Zone, Zone) -> bool {
    (a, b) => KeyLess(KeyOf(a), KeyOf(b))
  }

  lemma ByPriorityIsWeakOrder()
    ensures WeakOrder(ByPriority())
  {
    var less := ByPriority();
    forall a, b | less(a, b) ensures !less(b, a) {
      BeforeIsAsymmetric(a.cellId, b.cellId);
    }
    forall a, b, c | less(a, b) ensures less(a, c) || less(c, b) {
      BeforeIsWeak(a.cellId, b.cellId, c.cellId);
    }
  }

  lemma SameMeansSameKey(a: Zone, b: Zone)
    ensures Same(ByPriority(), a, b) <==> KeyOf(a) == KeyOf(b)
  {
    BeforeIsTotal(a.cellId, b.cellId);
    BeforeIsAsymmetric(a.cellId, a.cellId);
  }

  // ----- the ranking ------------------------------------------------------------------------

  function Numbered(zones: seq<Zone>): seq<Zone> {
    seq(|zones|, k requires 0 <= k < |zones| => zones[k].(rank := k + 1))
  }

  function Zones(inputs: seq<Inputs>, curves: Curves, weights: seq<real>, round: real -> int): seq<Zone>
    requires Weighing(weights)
  {
    seq(|inputs|, k requires 0 <= k < |inputs| => ZoneOf(inputs[k], curves, weights, round))
  }

  function Ranking(zones: seq<Zone>): seq<Zone> {
    Numbered(Sort(zones, ByPriority()))
  }

  method Rank(inputs: seq<Inputs>, curves: Curves, weights: seq<real>, round: real -> int, caption: Zone -> string)
    returns (ordered: seq<Zone>, report: SortReport)
    requires curves.Valid() && Weighing(weights) && Rounds(round)
    requires forall i :: i in inputs ==> Sensible(i)
    ensures ordered == Ranking(Zones(inputs, curves, weights, round))
    ensures report.n == |inputs| == |ordered|
    ensures report.comparisons == Recorded(report.merges)
    ensures |inputs| > 0 ==> Power(2, report.comparisons) <= Power(|inputs|, |inputs|)
  {
    hide ZoneOf, Sort, AllComparisons, Traces, Recorded, Power, IsLogCeiling, Auditable, Rounds;
    var zones: seq<Zone> := [];
    for k := 0 to |inputs|
      invariant zones == Zones(inputs, curves, weights, round)[..k]
    {
      var z := Score(inputs[k], curves, weights, round);
      zones := zones + [z];
    }
    assert zones == Zones(inputs, curves, weights, round);
    ordered, report := SortWithTrace(zones, ByPriority(), caption);
    SortLength(zones, ByPriority());
    ghost var sorted := ordered;
    for k := 0 to |ordered|
      invariant |ordered| == |sorted|
      invariant forall i :: 0 <= i < |ordered| ==> ordered[i] == if i < k then sorted[i].(rank := i + 1) else sorted[i]
    {
      ordered := ordered[k := ordered[k].(rank := k + 1)];
    }
    assert ordered == Numbered(sorted);
  }

  /** Sooner, or as soon; a hazard that is not foreseen comes after any within a hundred thousand years. */
  predicate NoLater(a: Option<real>, b: Option<real>) {
    match (a, b)
    case (Some(x), Some(y)) => x <= y
    case (None, Some(y)) => 1_000_000_000.0 <= y
    case (Some(x), None) => x <= 1_000_000_000.0
    case (None, None) => true
  }

  /** `ahead` is listed ahead of `behind` rightly: the documented chain of tie-breaks. */
  ghost predicate Outranks(ahead: Zone, behind: Zone) {
    var a, b := KeyOf(ahead), KeyOf(behind);
    && ahead.score >= behind.score
    && (ahead.score == behind.score ==> Trunc(ahead.expectedExposed) >= Trunc(behind.expectedExposed))
    && (ahead.score == behind.score && a.exposed == b.exposed ==>
          a.hours <= b.hours && NoLater(ahead.timeToImpact, behind.timeToImpact))
    && (ahead.score == behind.score && a.exposed == b.exposed && a.hours == b.hours ==>
          ahead.cellId == behind.cellId || Before(ahead.cellId, behind.cellId))
  }

  /** Every zone is listed once, ranks run from one, and each outranks those behind it. */
  lemma RankingIsRight(zones: seq<Zone>)
    ensures var r := Ranking(zones);
            && |r| == |zones|
            && (forall k :: 0 <= k < |r| ==> r[k].rank == k + 1)
            && forall i, j :: 0 <= i < j < |r| ==> Outranks(r[i], r[j])
    ensures multiset(Sort(zones, ByPriority())) == multiset(zones)
    ensures Ranking(zones) == Numbered(Sort(zones, ByPriority()))
  {
    ByPriorityIsWeakOrder();
    SortIsStable(zones, ByPriority());
    SortLength(zones, ByPriority());
    var s, r := Sort(zones, ByPriority()), Ranking(zones);
    forall i, j | 0 <= i < j < |r| ensures Outranks(r[i], r[j]) {
      assert !ByPriority()(s[j], s[i]);
      BeforeIsTotal(r[i].cellId, r[j].cellId);
    }
  }

  // ----- when the order of the inputs does not matter -------------------------------------------

  /** Zones that tie on the whole key are the same zone. */
  ghost predicate KeysIdentify(zones: seq<Zone>) {
    forall a, b :: a in zones && b in zones && KeyOf(a) == KeyOf(b) ==> a == b
  }

  lemma FirstsAgree(xs: seq<Zone>, ys: seq<Zone>)
    requires multiset(xs) == multiset(ys) && Sorted(xs, ByPriority()) && Sorted(ys, ByPriority()) && KeysIdentify(xs)
    requires xs != [] && ys != []
    ensures xs[0] == ys[0]
  {
    hide KeyLess;
    var less := ByPriority();
    assert xs[0] in multiset(ys) && ys[0] in multiset(xs);
    var j :| 0 <= j < |ys| && ys[j] == xs[0];
    var i :| 0 <= i < |xs| && xs[i] == ys[0];
    ByPriorityIsWeakOrder();
    assert !less(ys[j], ys[0]) && !less(xs[i], xs[0]) by {
      assert !less(xs[0], xs[0]) && !less(ys[0], ys[0]);
    }
    SameMeansSameKey(xs[0], ys[0]);
  }

  lemma TailFits(xs: seq<Zone>)
    requires xs != [] && Sorted(xs, ByPriority())
    ensures Sorted(xs[1..], ByPriority()) && (KeysIdentify(xs) ==> KeysIdentify(xs[1..]))
    ensures multiset(xs[1..]) == multiset(xs) - multiset{xs[0]}
  {
    hide ByPriority, KeyOf;
    WithoutOne(xs, 0);
    assert xs[1..] == Without(xs, 0);
  }

  lemma {:induction false} SortedPermutationsAgree(xs: seq<Zone>, ys: seq<Zone>)
    requires multiset(xs) == multiset(ys) && Sorted(xs, ByPriority()) && Sorted(ys, ByPriority()) && KeysIdentify(xs)
    ensures xs == ys
    decreases |xs|
  {
    hide Sorted, KeysIdentify, ByPriority;
    assert |multiset(xs)| == |multiset(ys)|;
    if xs == [] {
      assert ys == [];
    } else {
      FirstsAgree(xs, ys);
      TailFits(xs);
      TailFits(ys);
      SortedPermutationsAgree(xs[1..], ys[1..]);
      assert xs == [xs[0]] + xs[1..] && ys == [ys[0]] + ys[1..];
    }
  }

  lemma OrderDoesNotMatter(zones: seq<Zone>, shuffled: seq<Zone>)
    requires KeysIdentify(zones) && multiset(zones) == multiset(shuffled)
    ensures Sort(zones, ByPriority()) == Sort(shuffled, ByPriority())
  {
    ByPriorityIsWeakOrder();
    SortIsStable(zones, ByPriority());
    SortIsStable(shuffled, ByPriority());
    var s := Sort(zones, ByPriority());
    forall a | a in s ensures a in zones {
      assert a in multiset(s);
    }
    SortedPermutationsAgree(s, Sort(shuffled, ByPriority()));
  }

  /** Swapping two zones that tie swaps them in the ranking. */
  lemma TiesFollowTheInput(a: Zone, b: Zone, rest: seq<Zone>)
    requires KeyOf(a) == KeyOf(b) && a != b
    ensures multiset([a, b] + rest) == multiset([b, a] + rest)
    ensures Sort([a, b] + rest, ByPriority()) != Sort([b, a] + rest, ByPriority())
  {
    var less := ByPriority();
    var xs, ys := [a, b] + rest, [b, a] + rest;
    ByPriorityIsWeakOrder();
    SortIsStable(xs, less);
    SortIsStable(ys, less);
    SameMeansSameKey(a, a);
    SameMeansSameKey(b, a);
    assert Class(xs, less, a)[0] == a;
    assert Class(ys, less, a)[0] == b;
  }

  lemma PullFront<T>(s: seq<T>, a: T, b: T) returns (rest: seq<T>)
    requires a in s && b in s && a != b
    ensures multiset(s) == multiset([a, b] + rest)
  {
    hide Without;
    var i :| 0 <= i < |s| && s[i] == a;
    var others := Without(s, i);
    WithoutOne(s, i);
    assert b in multiset(others);
    var j :| 0 <= j < |others| && others[j] == b;
    rest := Without(others, j);
    WithoutOne(others, j);
    assert multiset([a, b] + rest) == multiset{a, b} + multiset(rest);
  }

  /** Whatever order the zones come in, they leave the sort alike. */
  ghost predicate Steady(zones: seq<Zone>) {
    forall shuffled :: multiset(shuffled) == multiset(zones) ==>
      Sort(shuffled, ByPriority()) == Sort(zones, ByPriority())
  }

  lemma TiesUnsettle(zones: seq<Zone>, a: Zone, b: Zone)
    requires a in zones && b in zones && KeyOf(a) == KeyOf(b) && a != b
    ensures !Steady(zones)
  {
    hide Sort, ByPriority, KeyOf;
    var rest := PullFront(zones, a, b);
    TiesFollowTheInput(a, b, rest);
    if Sort([a, b] + rest, ByPriority()) == Sort(zones, ByPriority()) {
      assert Sort([b, a] + rest, ByPriority()) != Sort(zones, ByPriority());
    }
  }

  /** The ranking is the same for every input order exactly when ties identify zones. */
  lemma OrderMattersOnlyForTies(zones: seq<Zone>)
    ensures KeysIdentify(zones) <==> Steady(zones)
  {
    hide Sort, ByPriority, KeyOf;
    if KeysIdentify(zones) {
      forall shuffled | multiset(shuffled) == multiset(zones)
        ensures Sort(shuffled, ByPriority()) == Sort(zones, ByPriority())
      {
        OrderDoesNotMatter(zones, shuffled);
      }
    } else {
      var a, b :| a in zones && b in zones && KeyOf(a) == KeyOf(b) && a != b;
      TiesUnsettle(zones, a, b);
    }
  }

  // ----- from inputs to ranks -----------------------------------------------------------------

  /** Where the left sequences have equal elements, the right ones do. */
  ghost predicate Paired<A(!new), B(!new)>(xs: seq<A>, xs': seq<A>, ys: seq<B>, ys': seq<B>) {
    && |xs| == |ys| && |xs'| == |ys'|
    && forall i, j :: 0 <= i < |xs| && 0 <= j < |xs'| && xs[i] == xs'[j] ==> ys[i] == ys'[j]
  }

  lemma PairedWithout<A(!new), B(!new)>(xs: seq<A>, xs': seq<A>, ys: seq<B>, ys': seq<B>, i: nat, j: nat)
    requires Paired(xs, xs', ys, ys') && i < |xs| && j < |xs'|
    ensures Paired(Without(xs, i), Without(xs', j), Without(ys, i), Without(ys', j))
  {
  }

  /** Sequences paired off with permutations of one another are permutations themselves. */
  lemma {:induction false} PairedPermutations<A(!new), B(!new)>(xs: seq<A>, xs': seq<A>, ys: seq<B>, ys': seq<B>)
    requires multiset(xs) == multiset(xs') && Paired(xs, xs', ys, ys')
    ensures multiset(ys) == multiset(ys')
    decreases |xs|
  {
    hide Without;
    assert |multiset(xs)| == |multiset(xs')|;
    if xs == [] {
      assert ys == ys' == [];
    } else {
      assert xs[0] in multiset(xs');
      var j :| 0 <= j < |xs'| && xs'[j] == xs[0];
      assert ys[0] == ys'[j];
      PairedWithout(xs, xs', ys, ys', 0, j);
      hide Paired;
      WithoutOne(xs, 0);
      WithoutOne(xs', j);
      WithoutOne(ys, 0);
      WithoutOne(ys', j);
      PairedPermutations(Without(xs, 0), Without(xs', j), Without(ys, 0), Without(ys', j));
    }
  }

  ghost predicate DistinctCells(inputs: seq<Inputs>) {
    forall i, j :: 0 <= i < j < |inputs| ==> inputs[i].cellId != inputs[j].cellId
  }

  lemma DistinctCellsIdentify(inputs: seq<Inputs>, curves: Curves, weights: seq<real>, round: real -> int)
    requires Weighing(weights) && DistinctCells(inputs)
    ensures KeysIdentify(Zones(inputs, curves, weights, round))
  {
    hide ZoneOf;
    var zones := Zones(inputs, curves, weights, round);
    forall a, b | a in zones && b in zones && KeyOf(a) == KeyOf(b) ensures a == b {
      var i :| 0 <= i < |zones| && zones[i] == a;
      var j :| 0 <= j < |zones| && zones[j] == b;
      ZoneFields(inputs[i], curves, weights, round);
      ZoneFields(inputs[j], curves, weights, round);
    }
  }

  /** With distinct cells, the same inputs in any order give the same zones the same ranks. */
  lemma RankingIgnoresInputOrder(inputs: seq<Inputs>, shuffled: seq<Inputs>,
                                 curves: Curves, weights: seq<real>, round: real -> int)
    requires Weighing(weights) && DistinctCells(inputs) && multiset(inputs) == multiset(shuffled)
    ensures Ranking(Zones(inputs, curves, weights, round)) == Ranking(Zones(shuffled, curves, weights, round))
  {
    hide Sort, ByPriority, ZoneOf, KeysIdentify, DistinctCells;
    var zones, others := Zones(inputs, curves, weights, round), Zones(shuffled, curves, weights, round);
    DistinctCellsIdentify(inputs, curves, weights, round);
    PairedPermutations(inputs, shuffled, zones, others);
    OrderDoesNotMatter(zones, others);
  }

  /**
   A place in at least the danger of another, factor by factor, is never ranked behind
   it, unless the two tie on everything but the cell id.
   */
  lemma MoreUrgentRanksAhead(i: Inputs, j: Inputs, curves: Curves, weights: seq<real>, round: real -> int)
    requires curves.Valid() && Weighing(weights) && Rounds(round) && AtLeastAsUrgent(i, j)
    ensures var a, b := KeyOf(ZoneOf(i, curves, weights, round)), KeyOf(ZoneOf(j, curves, weights, round));
            KeyLess(a, b) ==> a.score == b.score && a.exposed == b.exposed && a.hours == b.hours
  {
    hide ZoneOf, ScoreOf, Norms, Rounds, Weighing;
    MoreUrgentNeverScoresLower(i, j, curves, weights, round);
    ZoneFields(i, curves, weights, round);
    ZoneFields(j, curves, weights, round);
    assert Trunc(i.expectedExposed) <= Trunc(j.expectedExposed);
  }
}
