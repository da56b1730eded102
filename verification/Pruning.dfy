/**
 Exactly which regions the sweep of backend/app/spatial/quadtree.py leaves undivided, in terms of the
 differences between the risks it has read there.
 */
module Pruning {
  import opened Quadtree

  // ----- spread, pair by pair ------------------------------------------------------------------------

  /** The squared differences between `risk` and each of `xs`. */
  function SquaredGaps(xs: seq<Sample>, risk: real): real {
    if xs == [] then 0.0 else SquaredGaps(xs[1..], risk) + (xs[0].risk - risk) * (xs[0].risk - risk)
  }

  /** The squared differences between any two of `xs`. */
  function PairGaps(xs: seq<Sample>): real {
    if xs == [] then 0.0 else PairGaps(xs[1..]) + SquaredGaps(xs[1..], xs[0].risk)
  }

  function SquareSum(xs: seq<Sample>): real {
    if xs == [] then 0.0 else SquareSum(xs[1..]) + xs[0].risk * xs[0].risk
  }

  lemma {:induction false} SumFirst(xs: seq<Sample>)
    requires xs != []
    ensures Sum(xs) == xs[0].risk + Sum(xs[1..])
  {
    if |xs| > 1 {
      SumFirst(xs[..|xs| - 1]);
      assert xs[..|xs| - 1][1..] == xs[1..][..|xs| - 2];
    }
  }

  lemma {:induction false} SpreadFirst(xs: seq<Sample>, mean: real)
    requires xs != []
    ensures SquaredSpread(xs, mean) == (xs[0].risk - mean) * (xs[0].risk - mean) + SquaredSpread(xs[1..], mean)
  {
    if |xs| > 1 {
      SpreadFirst(xs[..|xs| - 1], mean);
      assert xs[..|xs| - 1][1..] == xs[1..][..|xs| - 2];
    }
  }

  lemma {:induction false} GapsAreSpread(xs: seq<Sample>, mean: real)
    ensures SquaredSpread(xs, mean) == SquaredGaps(xs, mean)
  {
    if xs != [] {
      GapsAreSpread(xs[1..], mean);
      SpreadFirst(xs, mean);
      hide SquaredSpread;
    }
  }

  /** Squared differences from `m`, by the sum and the square sum of so many. */
  function About(m: real, n: real, sum: real, squares: real): real {
    squares - 2.0 * m * sum + n * (m * m)
  }

  lemma AboutStep(m: real, n: real, sum: real, squares: real, x: real, sum': real, squares': real)
    requires sum' == x + sum && squares' == squares + x * x
    ensures About(m, n + 1.0, sum', squares') == About(m, n, sum, squares) + (x - m) * (x - m)
  {
    Binomial(x, m);
    assert 2.0 * m * (x + sum) == 2.0 * m * x + 2.0 * m * sum;
    assert (n + 1.0) * (m * m) == n * (m * m) + m * m;
  }

  lemma Binomial(a: real, b: real)
    ensures (a - b) * (a - b) == a * a - 2.0 * b * a + b * b
  {
  }

  lemma {:induction false} GapsAddUp(xs: seq<Sample>, m: real)
    ensures SquaredGaps(xs, m) == About(m, |xs| as real, Sum(xs), SquareSum(xs))
  {
    hide Sum, About;
    if xs == [] {
      NoneAddUp(m);
    } else {
      GapsAddUp(xs[1..], m);
      SumFirst(xs);
      assert |xs| as real == |xs[1..]| as real + 1.0;
      AboutStep(m, |xs[1..]| as real, Sum(xs[1..]), SquareSum(xs[1..]), xs[0].risk, Sum(xs), SquareSum(xs));
    }
  }

  lemma NoneAddUp(m: real)
    ensures About(m, 0.0, Sum([]), 0.0) == 0.0
  {
  }

  /** The same for all pairs. */
  function Paired(n: real, sum: real, squares: real): real {
    n * squares - sum * sum
  }

  lemma PairStep(n: real, sum: real, squares: real, x: real, sum': real, squares': real)
    requires sum' == x + sum && squares' == squares + x * x
    ensures Paired(n, sum, squares) + About(x, n, sum, squares) == Paired(n + 1.0, sum', squares')
  {
    assert (x + sum) * (x + sum) == x * x + 2.0 * x * sum + sum * sum;
    assert (n + 1.0) * (squares + x * x) == n * squares + n * (x * x) + squares + x * x;
  }

  lemma {:induction false} PairsAddUp(xs: seq<Sample>)
    ensures PairGaps(xs) == Paired(|xs| as real, Sum(xs), SquareSum(xs))
  {
    hide Sum, About, Paired, SquaredGaps;
    if xs == [] {
      NoPairs();
    } else {
      PairsAddUp(xs[1..]);
      GapsAddUp(xs[1..], xs[0].risk);
      SumFirst(xs);
      assert |xs| as real == |xs[1..]| as real + 1.0;
      PairStep(|xs[1..]| as real, Sum(xs[1..]), SquareSum(xs[1..]), xs[0].risk, Sum(xs), SquareSum(xs));
    }
  }

  lemma NoPairs()
    ensures Paired(0.0, Sum([]), 0.0) == 0.0
  {
  }

  lemma MeanStep(n: real, mean: real, sum: real, squares: real)
    requires n * mean == sum
    ensures n * About(mean, n, sum, squares) == Paired(n, sum, squares)
  {
    var square := mean * mean;
    assert 2.0 * mean * sum == 2.0 * n * square;
    assert About(mean, n, sum, squares) == squares - n * square;
    assert sum * sum == n * (n * square);
    assert n * (squares - n * square) == n * squares - n * (n * square);
  }

  /** The spread about the mean is that of the pairs, by the number of samples. */
  lemma SpreadIsPairwise(xs: seq<Sample>)
    requires xs != []
    ensures |xs| as real * SquaredSpread(xs, Sum(xs) / |xs| as real) == PairGaps(xs)
  {
    hide Sum, SquaredSpread, SquaredGaps, PairGaps, SquareSum, About, Paired;
    var n := |xs| as real;
    var mean := Sum(xs) / n;
    DivMul(Sum(xs), |xs|);
    GapsAreSpread(xs, mean);
    GapsAddUp(xs, mean);
    PairsAddUp(xs);
    MeanStep(n, mean, Sum(xs), SquareSum(xs));
  }

  lemma Scaled(n: real, v: real, w: real)
    requires 0.0 < n
    ensures v / n <= w <==> n * v <= n * (n * w)
  {
    assert v / n * n == v;
    More(n, v / n, w);
    More(n, w, v / n);
    More(n, v, n * w);
    More(n, n * w, v);
  }

  lemma More(m: real, q: real, w: real)
    requires 0.0 < m
    ensures (q <= w ==> m * q <= m * w) && (q < w ==> m * q < m * w)
  {
    assert m * w - m * q == m * (w - q);
  }

  lemma UniformIsPairwise(xs: seq<Sample>, tolerance: real)
    requires xs != []
    ensures Uniform(xs, tolerance) <==>
              0.0 <= tolerance && PairGaps(xs) <= |xs| as real * (|xs| as real * (tolerance * tolerance))
  {
    hide SquaredSpread, PairGaps, Sum;
    SpreadIsPairwise(xs);
    Scaled(|xs| as real, SquaredSpread(xs, Sum(xs) / |xs| as real), tolerance * tolerance);
  }

  // ----- which regions are left undivided ---------------------------------------------------------------

  /**
   The region is calm all over: it has been read twice at least, nothing is at the threshold, and the
   squared differences within all pairs of samples come to no more than the tolerance allows.
   */
  ghost predicate Calm(s: Settings, xs: seq<Sample>) {
    && |xs| >= 2 && (forall x :: x in xs ==> x.risk < s.escalateAbove)
    && 0.0 <= s.tolerance && PairGaps(xs) <= |xs| as real * (|xs| as real * (s.tolerance * s.tolerance))
  }

  /**
   A region is left undivided if and only if it is at the depth limit, no side of it is longer than a
   leaf, nothing could be read there, or it is deep enough to be pruned and calm. Any other is swept
   quadrant by quadrant. Pruned are those with readings above the limit.
   */
  lemma UndividedExactly(s: Settings, b: BBox, depth: int)
    ensures var xs, r := Samples(s, b), Analyse(s, b, depth);
            && (r.children == [] <==>
                  || s.maxDepth <= depth || xs == []
                  || (b.maxLon - b.minLon <= s.leafSize && b.maxLat - b.minLat <= s.leafSize)
                  || (s.minDepth <= depth && Calm(s, xs)))
            && (r.children != [] ==>
                  |r.children| == 4 && !r.pruned
                  && forall i :: 0 <= i < 4 ==> r.children[i] == Analyse(s, Quadrants(b)[i], depth + 1))
            && (r.children == [] ==> (r.pruned <==> xs != [] && depth < s.maxDepth))
  {
    hide Samples, Analyse, Stops, Calm, Quadrants;
    StopsShape(s, b, depth);
    StopsExactly(s, b, depth);
  }

  lemma StopsExactly(s: Settings, b: BBox, depth: int)
    ensures Stops(s, b, depth) <==>
              || s.maxDepth <= depth || Samples(s, b) == []
              || (b.maxLon - b.minLon <= s.leafSize && b.maxLat - b.minLat <= s.leafSize)
              || (s.minDepth <= depth && Calm(s, Samples(s, b)))
  {
    hide Samples, Uniform, PairGaps;
    if Samples(s, b) != [] {
      UniformIsPairwise(Samples(s, b), s.tolerance);
    }
  }

  lemma StopsShape(s: Settings, b: BBox, depth: int)
    ensures Stops(s, b, depth) ==>
              && Analyse(s, b, depth).children == []
              && (Analyse(s, b, depth).pruned <==> Samples(s, b) != [] && depth < s.maxDepth)
    ensures !Stops(s, b, depth) ==>
              var r := Analyse(s, b, depth);
              && |r.children| == 4 && !r.pruned
              && forall i :: 0 <= i < 4 ==> r.children[i] == Analyse(s, Quadrants(b)[i], depth + 1)
  {
    hide Samples, Scored, WeightedSum, TotalCount, Worst, WorstRegion, Sum, Uniform, Quadrants;
  }

  // ----- the count of pruned regions --------------------------------------------------------------------

  function PrunedOnes(rs: seq<Region>): nat {
    if rs == [] then 0 else PrunedOnes(rs[..|rs| - 1]) + if rs[|rs| - 1].pruned then 1 else 0
  }

  lemma {:induction false} PrunedConcat(rs: seq<Region>, ts: seq<Region>)
    ensures PrunedOnes(rs + ts) == PrunedOnes(rs) + PrunedOnes(ts)
    decreases |ts|
  {
    if ts == [] {
      assert rs + ts == rs;
    } else {
      assert (rs + ts)[..|rs + ts| - 1] == rs + ts[..|ts| - 1];
      PrunedConcat(rs, ts[..|ts| - 1]);
    }
  }

  lemma PrunedOne(r: Region)
    ensures PrunedOnes([r]) == if r.pruned then 1 else 0
  {
    assert [r][..0] == [];
  }

  /** The counter is the number of leaves that are marked as pruned. */
  lemma {:induction false} PrunedCounts(s: Settings, b: BBox, depth: int)
    ensures Pruned(s, b, depth) == PrunedOnes(Leaves(Analyse(s, b, depth)))
    decreases s.maxDepth - depth
  {
    hide Analyse, Leaves, LeavesAll, Stops, Samples, Quadrant, PrunedOnes;
    AnalyseShape(s, b, depth);
    StopsShape(s, b, depth);
    if Stops(s, b, depth) {
      PrunedOne(Analyse(s, b, depth));
    } else {
      var rs := Kids(s, b, depth);
      LeavesOfFour(rs);
      PrunedCounts(s, Quadrant(b, 0), depth + 1);
      PrunedCounts(s, Quadrant(b, 1), depth + 1);
      PrunedCounts(s, Quadrant(b, 2), depth + 1);
      PrunedCounts(s, Quadrant(b, 3), depth + 1);
      PrunedConcat(Leaves(rs[0]), Leaves(rs[1]));
      PrunedConcat(Leaves(rs[0]) + Leaves(rs[1]), Leaves(rs[2]));
      PrunedConcat(Leaves(rs[0]) + Leaves(rs[1]) + Leaves(rs[2]), Leaves(rs[3]));
    }
  }

  // ----- which place is reported ----------------------------------------------------------------------

  /** Of equally great ones the first counts, as in the source's `max`. */
  lemma {:induction false} WorstIsFirst(xs: seq<Sample>) returns (i: nat)
    requires xs != []
    ensures i < |xs| && Worst(xs) == xs[i] && forall j :: 0 <= j < i ==> xs[j].risk < xs[i].risk
  {
    if |xs| == 1 {
      i := 0;
    } else {
      i := WorstIsFirst(xs[..|xs| - 1]);
      if xs[i].risk < xs[|xs| - 1].risk {
        i := |xs| - 1;
      }
    }
  }

  lemma {:induction false} WorstRegionIsFirst(rs: seq<Region>) returns (i: nat)
    requires rs != []
    ensures i < |rs| && WorstRegion(rs) == rs[i] && forall j :: 0 <= j < i ==> rs[j].maxRisk < rs[i].maxRisk
  {
    if |rs| == 1 {
      i := 0;
    } else {
      i := WorstRegionIsFirst(rs[..|rs| - 1]);
      if rs[i].maxRisk < rs[|rs| - 1].maxRisk {
        i := |rs| - 1;
      }
    }
  }

  /** A region where nothing could be read says so. */
  lemma NothingRead(s: Settings, b: BBox, depth: int)
    ensures var r := Analyse(s, b, depth);
            r.cellCount == 0 ==> r.maxRisk == -1.0 && r.meanRisk == -1.0 && r.hotspot.None?
  {
    AnalyseShape(s, b, depth);
    AnalyseSumsUpLeaves(s, b, depth);
    hide Quadrant, Samples, Stops, Leaves, Worst, LeafSamples;
    if !Stops(s, b, depth) {
      ScoredTotals(Kids(s, b, depth));
      CombineWeighs(b, depth, Kids(s, b, depth));
    } else {
      LeafCounts(s, b, depth);
    }
  }
}
