/**
 How many comparisons the merge sort of backend/app/priority/mergesort.py makes at least and at
 most, and when it makes as many as its documentation claims for every input.
 */
module MergeCost {
  import opened MergeSort
  import opened Sorting
  import opened Wrappers

  /** Every merge of two runs compares at least as often as the shorter is long. */
  function Least(n: nat): nat {
    if n <= 1 then 0 else Least(n / 2) + Least(n - n / 2) + n / 2
  }

  /** And at most once for each element but the last. */
  function Most(n: nat): nat {
    if n <= 1 then 0 else Most(n / 2) + Most(n - n / 2) + n - 1
  }

  lemma {:induction false} MergeAtLeast<T>(left: seq<T>, right: seq<T>, less: (T, T) -> bool)
    ensures Comparisons(left, right, less) >= if |left| < |right| then |left| else |right|
    decreases |left| + |right|
  {
    if left != [] && right != [] {
      if less(right[0], left[0]) {
        MergeAtLeast(left, right[1..], less);
      } else {
        MergeAtLeast(left[1..], right, less);
      }
    }
  }

  lemma HalfOf(n: nat, mid: nat)
    requires n > 1 && mid == n / 2
    ensures 0 < mid <= n - mid
  {
  }

  lemma LeastUnfolds(n: nat, mid: nat)
    requires n > 1 && mid == n / 2
    ensures Least(n) == Least(mid) + Least(n - mid) + mid
  {
  }

  lemma MostUnfolds(n: nat, mid: nat)
    requires n > 1 && mid == n / 2
    ensures Most(n) == Most(mid) + Most(n - mid) + n - 1
  {
  }

  lemma SortUnfolds<T>(xs: seq<T>, mid: nat, less: (T, T) -> bool)
    requires |xs| > 1 && mid == |xs| / 2
    ensures Sort(xs, less) == Merge(Sort(xs[..mid], less), Sort(xs[mid..], less), less)
    ensures AllComparisons(xs, less)
         == AllComparisons(xs[..mid], less) + AllComparisons(xs[mid..], less)
            + Comparisons(Sort(xs[..mid], less), Sort(xs[mid..], less), less)
  {
    hide Merge, Comparisons;
  }

  /** One level of the recursion: `xs` is `a` and `b`, its halves. */
  ghost predicate Halves<T>(xs: seq<T>, a: seq<T>, b: seq<T>, less: (T, T) -> bool) {
    && xs == a + b && 0 < |a| <= |b| < |xs|
    && |Sort(a, less)| == |a| && |Sort(b, less)| == |b|
    && Sort(xs, less) == Merge(Sort(a, less), Sort(b, less), less)
    && AllComparisons(xs, less)
       == AllComparisons(a, less) + AllComparisons(b, less) + Comparisons(Sort(a, less), Sort(b, less), less)
    && Least(|xs|) == Least(|a|) + Least(|b|) + |a| && Most(|xs|) == Most(|a|) + Most(|b|) + |a| + |b| - 1
  }

  lemma Halved<T>(xs: seq<T>, mid: nat, less: (T, T) -> bool) returns (a: seq<T>, b: seq<T>)
    requires |xs| > 1 && mid == |xs| / 2
    ensures a == xs[..mid] && b == xs[mid..] && Halves(xs, a, b, less)
  {
    hide Merge, Comparisons, Least, Most, Sort, AllComparisons;
    HalfOf(|xs|, mid);
    LeastUnfolds(|xs|, mid);
    MostUnfolds(|xs|, mid);
    SortUnfolds(xs, mid, less);
    a, b := xs[..mid], xs[mid..];
    SortLength(a, less);
    SortLength(b, less);
  }

  lemma Single<T>(xs: seq<T>, less: (T, T) -> bool)
    requires |xs| <= 1
    ensures Sort(xs, less) == xs && AllComparisons(xs, less) == 0 && Least(|xs|) == 0 && Most(|xs|) == 0
  {
  }

  /** Whatever the input and the order, the comparisons lie between these. */
  lemma {:induction false} ComparisonsBetween<T>(xs: seq<T>, less: (T, T) -> bool)
    ensures Least(|xs|) <= AllComparisons(xs, less) <= Most(|xs|)
    decreases |xs|
  {
    hide Sort, Merge, Comparisons, AllComparisons, Least, Most;
    if |xs| <= 1 {
      Single(xs, less);
    } else {
      var a, b := Halved(xs, |xs| / 2, less);
      ComparisonsBetween(a, less);
      ComparisonsBetween(b, less);
      MergeAtLeast(Sort(a, less), Sort(b, less), less);
      ComparisonsAtMost(Sort(a, less), Sort(b, less), less);
    }
  }

  // ----- the least is attained ----------------------------------------------------------------

  lemma {:induction false} MergeInOrder<T>(left: seq<T>, right: seq<T>, less: (T, T) -> bool)
    requires right != [] && forall i :: 0 <= i < |left| ==> !less(right[0], left[i])
    ensures Merge(left, right, less) == left + right && Comparisons(left, right, less) == |left|
    decreases |left|
  {
    if left != [] {
      var first, rest := left[0], left[1..];
      MergeInOrder(rest, right, less);
      assert Merge(left, right, less) == [first] + Merge(rest, right, less);
      assert Comparisons(left, right, less) == 1 + |rest|;
      hide Merge, Comparisons;
      assert left == [first] + rest;
      assert [first] + (rest + right) == [first] + rest + right;
    }
  }

  lemma HalvesInOrder<T>(xs: seq<T>, a: seq<T>, b: seq<T>, less: (T, T) -> bool)
    requires Sorted(xs, less) && xs == a + b && b != []
    ensures Sorted(a, less) && Sorted(b, less) && forall i :: 0 <= i < |a| ==> !less(b[0], a[i])
  {
    assert forall i :: 0 <= i < |a| ==> a[i] == xs[i];
    assert forall j :: 0 <= j < |b| ==> b[j] == xs[|a| + j];
  }

  /** Input that is already in order stays as it is, at the least number of comparisons. */
  lemma {:induction false} SortedIsCheapest<T>(xs: seq<T>, less: (T, T) -> bool)
    requires Sorted(xs, less)
    ensures Sort(xs, less) == xs && AllComparisons(xs, less) == Least(|xs|)
    decreases |xs|
  {
    hide Sort, Merge, Comparisons, AllComparisons, Least, Most, Sorted;
    if |xs| <= 1 {
      Single(xs, less);
    } else {
      var a, b := Halved(xs, |xs| / 2, less);
      HalvesInOrder(xs, a, b, less);
      SortedIsCheapest(a, less);
      SortedIsCheapest(b, less);
      MergeInOrder(a, b, less);
    }
  }

  // ----- when the most is attained -----------------------------------------------------------------

  /** Neither run ends while the other has more than one element to go. */
  predicate Interleaved<T>(left: seq<T>, right: seq<T>, less: (T, T) -> bool)
    requires left != [] && right != []
  {
    && (|right| > 1 ==> less(right[|right| - 2], left[|left| - 1]))
    && (|left| > 1 ==> !less(right[|right| - 1], left[|left| - 2]))
  }

  lemma {:induction false} MergeIsFull<T(!new)>(left: seq<T>, right: seq<T>, less: (T, T) -> bool)
    requires WeakOrder(less) && Sorted(left, less) && Sorted(right, less) && left != [] && right != []
    ensures Comparisons(left, right, less) == |left| + |right| - 1 <==> Interleaved(left, right, less)
    decreases |left| + |right|
  {
    ComparisonsAtMost(left, right, less);
    if less(right[0], left[0]) {
      if |right| > 1 {
        TailIsSorted(right, less);
        MergeIsFull(left, right[1..], less);
      }
      BelowLater(left, right[0], less);
    } else {
      if |left| > 1 {
        TailIsSorted(left, less);
        MergeIsFull(left[1..], right, less);
      }
      NotAboveLater(left[0], right, less);
    }
  }

  lemma BelowLater<T(!new)>(xs: seq<T>, x: T, less: (T, T) -> bool)
    requires WeakOrder(less) && Sorted(xs, less) && xs != [] && less(x, xs[0])
    ensures forall i :: 0 <= i < |xs| ==> less(x, xs[i])
  {
    forall i | 0 <= i < |xs| ensures less(x, xs[i]) {
      assert i > 0 ==> !less(xs[i], xs[0]);
    }
  }

  lemma NotAboveLater<T(!new)>(x: T, ys: seq<T>, less: (T, T) -> bool)
    requires WeakOrder(less) && Sorted(ys, less) && ys != [] && !less(ys[0], x)
    ensures forall j :: 0 <= j < |ys| ==> !less(ys[j], x)
  {
    forall j | 0 <= j < |ys| ensures !less(ys[j], x) {
      assert j > 0 ==> !less(ys[j], ys[0]);
    }
  }

  /** The two sorted halves end close together, and so do those of each half. */
  ghost predicate Shuffled<T>(xs: seq<T>, less: (T, T) -> bool)
    decreases |xs|
  {
    |xs| > 1 ==>
      var a, b := xs[..|xs| / 2], xs[|xs| / 2..];
      && Shuffled(a, less) && Shuffled(b, less)
      && Sort(a, less) != [] && Sort(b, less) != [] && Interleaved(Sort(a, less), Sort(b, less), less)
  }

  lemma ShuffledHalves<T>(xs: seq<T>, less: (T, T) -> bool)
    ensures |xs| <= 1 ==> Shuffled(xs, less)
    ensures |xs| > 1 ==>
              var a, b := xs[..|xs| / 2], xs[|xs| / 2..];
              && Sort(a, less) != [] && Sort(b, less) != []
              && (Shuffled(xs, less) <==>
                    Shuffled(a, less) && Shuffled(b, less) && Interleaved(Sort(a, less), Sort(b, less), less))
  {
    hide Sort, Interleaved;
    if |xs| > 1 {
      SortLength(xs[..|xs| / 2], less);
      SortLength(xs[|xs| / 2..], less);
    }
  }

  /** The most comparisons are made if and only if the input is shuffled at every level. */
  lemma {:induction false} MostExactly<T(!new)>(xs: seq<T>, less: (T, T) -> bool)
    requires WeakOrder(less)
    ensures AllComparisons(xs, less) == Most(|xs|) <==> Shuffled(xs, less)
    decreases |xs|
  {
    hide Sort, Merge, Comparisons, AllComparisons, Least, Most, Sorted, WeakOrder, Shuffled, Interleaved, StablySorts;
    ShuffledHalves(xs, less);
    if |xs| <= 1 {
      Single(xs, less);
    } else {
      var a, b := Halved(xs, |xs| / 2, less);
      MostExactly(a, less);
      MostExactly(b, less);
      ComparisonsBetween(a, less);
      ComparisonsBetween(b, less);
      SortIsSorted(a, less);
      SortIsSorted(b, less);
      ComparisonsAtMost(Sort(a, less), Sort(b, less), less);
      MergeIsFull(Sort(a, less), Sort(b, less), less);
    }
  }

  lemma SortIsSorted<T(!new)>(xs: seq<T>, less: (T, T) -> bool)
    requires WeakOrder(less)
    ensures Sorted(Sort(xs, less), less)
  {
    hide Sort, Sorted, WeakOrder, Class;
    SortIsStable(xs, less);
  }

  // ----- the documented lower bound ------------------------------------------------------------------

  function LogTimes(k: nat, n: nat): nat {
    k * n
  }

  lemma LogTimesDouble(k: nat, half: nat)
    requires k > 0
    ensures LogTimes(k, 2 * half) == 2 * LogTimes(k - 1, half) + 2 * half
  {
    assert k * (2 * half) == 2 * (k * half);
    assert k * half == (k - 1) * half + half;
  }

  lemma NoLevels(n: nat)
    ensures LogTimes(0, n) == 0
  {
  }

  lemma Doubled(half: nat)
    requires half > 0
    ensures Most(2 * half) == 2 * Most(half) + 2 * half - 1 && Least(2 * half) == 2 * Least(half) + half
  {
    assert 2 * half / 2 == half && 2 * half - half == half;
  }

  lemma {:induction false} PowerPositive(k: nat)
    ensures Power(2, k) > 0
  {
    if k > 0 {
      PowerPositive(k - 1);
    }
  }

  /** For powers of two: n log2 n - n + 1 at most, and half of n log2 n at least. */
  lemma {:induction false} PowersOfTwo(k: nat)
    ensures Most(Power(2, k)) + Power(2, k) == LogTimes(k, Power(2, k)) + 1
    ensures 2 * Least(Power(2, k)) == LogTimes(k, Power(2, k))
  {
    hide Most, Least, LogTimes;
    if k == 0 {
      NoLevels(1);
      Single([0], (a: int, b: int) => a < b);
    } else {
      PowersOfTwo(k - 1);
      var half := Power(2, k - 1);
      assert Power(2, k) == 2 * half;
      hide Power;
      PowerPositive(k - 1);
      LogTimesDouble(k, half);
      Doubled(half);
    }
  }

  /**
   The documentation has n log2 n - n + 1 as the fewest comparisons for any input. For n a power of
   two that is the most: it is reached if and only if the input is shuffled at every level.
   */
  lemma DocumentedLeastIsTheMost<T(!new)>(xs: seq<T>, less: (T, T) -> bool, k: nat)
    requires WeakOrder(less) && |xs| == Power(2, k)
    ensures AllComparisons(xs, less) + |xs| >= k * |xs| + 1 <==> Shuffled(xs, less)
  {
    PowersOfTwo(k);
    assert LogTimes(k, |xs|) == k * |xs|;
    hide Most, Least, LogTimes, Power, AllComparisons, Shuffled, WeakOrder;
    ComparisonsBetween(xs, less);
    MostExactly(xs, less);
  }

  // ----- and for every number of elements, where n log2 n is the logarithm of n^n ----------------------

  /** The bounds of the two halves and of their merge make up that of the whole. */
  lemma PowersOfHalves(n: nat, a: nat, b: nat, x: nat, y: nat, z: nat)
    requires Power(2, x) <= Power(a, a) && Power(2, y) <= Power(b, b) && z <= n - 1
    requires n > 1 && a == n / 2 && b == n - a
    ensures Power(2, x + y + z) <= Power(n, n)
    ensures z < n - 1 ==> Power(2, x + y + z) < Power(n, n)
  {
    hide Power;
    PowerSum(2, x + y, z);
    PowerSum(2, x, y);
    PowerGrows(z, n - 1);
    Product3(Power(2, x), Power(2, y), Power(2, z), Power(a, a), Power(b, b), Power(2, n - 1));
    HalvesBound(n);
    if z < n - 1 {
      PowerPositive(x + y + z);
      PowerDoubles(z, n - 1);
      Product3(Power(2, x), Power(2, y), 2 * Power(2, z), Power(a, a), Power(b, b), Power(2, n - 1));
      TwiceThat(Power(2, x), Power(2, y), Power(2, z));
    }
  }

  lemma TwiceThat(x: nat, y: nat, z: nat)
    ensures x * y * (2 * z) == 2 * (x * y * z)
  {
  }

  lemma PowerDoubles(m: nat, n: nat)
    requires m < n
    ensures 2 * Power(2, m) <= Power(2, n)
  {
    PowerGrows(m + 1, n);
  }

  lemma SmallPowers()
    ensures Power(2, 0) == 1 && Power(2, 2) == 4 && Power(2, 4) == 16 && Power(2, 7) == 128
    ensures Power(1, 1) == 1 && Power(3, 3) == 27 && Power(4, 4) == 256
  {
    assert Power(2, 3) == 8;
    assert Power(2, 5) == 32;
    assert Power(2, 6) == 64;
    assert Power(3, 1) == 3;
    assert Power(3, 2) == 9;
    assert Power(4, 1) == 4;
    assert Power(4, 2) == 16;
    assert Power(4, 3) == 64;
  }

  lemma SmallLeast()
    ensures Least(1) == 0 && Least(2) == 1 && Least(3) == 2 && Least(4) == 4
  {
  }

  /** The least is below the documented number, from three elements on. */
  lemma {:induction false} LeastIsBelow(n: nat)
    requires n > 0
    ensures Power(2, Least(n) + n - 1) <= Power(n, n)
    ensures n > 2 ==> Power(2, Least(n) + n - 1) < Power(n, n)
  {
    hide Power, Least;
    SmallPowers();
    SmallLeast();
    if n > 4 {
      var a, b := n / 2, n - n / 2;
      LeastIsBelow(a);
      LeastIsBelow(b);
      LeastUnfolds(n, a);
      PowersOfHalves(n, a, b, Least(a) + a - 1, Least(b) + b - 1, a + 1);
    }
  }

  /** Three or more elements in order take fewer comparisons than n log2 n - n + 1. */
  lemma SortedFallsShort<T>(xs: seq<T>, less: (T, T) -> bool)
    requires Sorted(xs, less) && |xs| > 2
    ensures Power(2, AllComparisons(xs, less) + |xs| - 1) < Power(|xs|, |xs|)
  {
    hide Least, Power, AllComparisons, Sorted;
    SortedIsCheapest(xs, less);
    LeastIsBelow(|xs|);
  }

  lemma FewAreAsDocumented<T>(xs: seq<T>, less: (T, T) -> bool)
    requires 0 < |xs| <= 2
    ensures Power(|xs|, |xs|) <= Power(2, AllComparisons(xs, less) + |xs| - 1)
  {
    hide Least, Most, Power, AllComparisons;
    SmallPowers();
    SmallLeast();
    ComparisonsBetween(xs, less);
    PowerGrows(Least(|xs|) + |xs| - 1, AllComparisons(xs, less) + |xs| - 1);
  }

  lemma EqualsAreSorted<T(!new)>(n: nat, x: T, less: (T, T) -> bool)
    requires WeakOrder(less)
    ensures Sorted(seq(n, i => x), less)
  {
  }

  /** The documented fewest comparisons, n log2 n - n + 1, are a lower bound for one or two elements only. */
  lemma DocumentedLeastExactly<T(!new)>(n: nat, x: T, less: (T, T) -> bool)
    requires WeakOrder(less) && n > 0
    ensures (forall xs: seq<T> :: |xs| == n ==> Power(n, n) <= Power(2, AllComparisons(xs, less) + n - 1)) <==> n <= 2
  {
    hide Power, AllComparisons, Sorted, WeakOrder;
    if n <= 2 {
      forall xs: seq<T> | |xs| == n ensures Power(n, n) <= Power(2, AllComparisons(xs, less) + n - 1) {
        FewAreAsDocumented(xs, less);
      }
    } else {
      var xs := seq(n, i => x);
      EqualsAreSorted(n, x, less);
      SortedFallsShort(xs, less);
      assert |xs| == n;
    }
  }

  /** Bernoulli's inequality, for 1 - 1/m. */
  lemma {:induction false} Bernoulli(m: nat, e: nat)
    requires m > 0 && e <= m
    ensures Power(m, e) * (m - e) <= Power(m - 1, e) * m
  {
    if e > 0 {
      Bernoulli(m, e - 1);
      BernoulliStep(m, e, Power(m, e - 1), Power(m - 1, e - 1));
    }
  }

  lemma BernoulliStep(m: nat, e: nat, p: nat, q: nat)
    requires 0 < e <= m && p * (m - e + 1) <= q * m
    ensures m * p * (m - e) <= (m - 1) * q * m
  {
    assert m * (m - e) <= (m - 1) * (m - e + 1);
    MulMono(m * (m - e), (m - 1) * (m - e + 1), p, p);
    MulMono(m - 1, m - 1, p * (m - e + 1), q * m);
    assert m * (m - e) * p == m * p * (m - e);
    assert (m - 1) * (m - e + 1) * p == (m - 1) * (p * (m - e + 1));
    assert (m - 1) * (q * m) == (m - 1) * q * m;
  }

  lemma EvenHalvesReach(a: nat)
    ensures Power(a, a) * Power(a, a) * Power(2, 2 * a) == Power(2 * a, 2 * a)
  {
    hide Power;
    PowerProduct(2, a, 2 * a);
    PowerSum(a, a, a);
    assert a + a == 2 * a;
    Swapped(Power(2, 2 * a), Power(a, 2 * a));
  }

  lemma Swapped(a: nat, b: nat)
    ensures a * b == b * a
  {
  }

  /** n odd: (n - 1)^a (n + 1)^(a + 1) is no less than n^n. */
  lemma OddHalvesReach(a: nat)
    ensures Power(2 * a + 1, 2 * a + 1) <= Power(a, a) * Power(a + 1, a + 1) * Power(2, 2 * a + 1)
  {
    var n := 2 * a + 1;
    var m := n * n;
    var x, y, t := Power(a, a), Power(a + 1, a), Power(2, a);
    PowerSum(2, a, a);
    assert a + a == 2 * a;
    assert Power(2, n) == 2 * (t * t);
    PowerProduct(2, a, a);
    PowerProduct(2, a + 1, a);
    PowerProduct(2 * a, 2 * (a + 1), a);
    assert 2 * a * (2 * (a + 1)) == m - 1;
    PowerProduct(n, n, a);
    PowerSum(n, a, a);
    assert Power(n, n) == n * Power(m, a);
    OddReachShuffle(a, x, y, t);
    assert a <= m;
    Bernoulli(m, a);
    hide Power;
    Rounding(n, a, m, Power(m, a), Power(m - 1, a));
  }

  lemma OddReachShuffle(a: nat, x: nat, y: nat, t: nat)
    ensures x * ((a + 1) * y) * (2 * (t * t)) == 2 * (a + 1) * (t * x * (t * y))
  {
    OddShuffle(a, x, y, t);
    TwiceLast(x * ((a + 1) * y), t * t);
    assert 2 * (a + 1) * (t * x * (t * y)) == 2 * ((a + 1) * (t * x * (t * y)));
  }

  lemma TwiceLast(p: nat, q: nat)
    ensures p * (2 * q) == 2 * (p * q)
  {
  }

  lemma Rounding(n: nat, a: nat, m: nat, p: nat, q: nat)
    requires n == 2 * a + 1 && m == n * n && a <= m && p * (m - a) <= q * m
    ensures n * p <= (n + 1) * q
  {
    OddMargin(n, a, m);
    ThroughMargin(m, n, m - a, p, q);
    Cancel(m, n * p, (n + 1) * q);
  }

  lemma OddMargin(n: nat, a: nat, m: nat)
    requires n == 2 * a + 1 && m == n * n && a <= m
    ensures m > 0 && m * n <= (m - a) * (n + 1)
  {
    assert (m - a) * (n + 1) == m * n + m - a * (n + 1);
    assert 2 * (a * (n + 1)) == m - 1;
  }

  lemma ThroughMargin(m: nat, n: nat, k: nat, p: nat, q: nat)
    requires m * n <= k * (n + 1) && p * k <= q * m
    ensures m * (n * p) <= m * ((n + 1) * q)
  {
    MulMono(m * n, k * (n + 1), p, p);
    MulMono(n + 1, n + 1, p * k, q * m);
    Turned(m, n, p);
    Turned(n + 1, k, p);
    Turned(m, n + 1, q);
  }

  lemma Turned(a: nat, b: nat, c: nat)
    ensures a * b * c == a * (b * c) == b * a * c == a * (c * b)
    ensures b * (c * a) == a * (b * c)
  {
  }

  lemma Cancel(m: nat, x: nat, y: nat)
    requires m > 0 && m * x <= m * y
    ensures x <= y
  {
  }

  lemma HalvesReach(n: nat)
    requires n > 1
    ensures Power(n, n) <= Power(n / 2, n / 2) * Power(n - n / 2, n - n / 2) * Power(2, n)
  {
    var a := n / 2;
    if n == 2 * a {
      EvenHalvesReach(a);
    } else {
      assert n == 2 * a + 1;
      OddHalvesReach(a);
    }
  }

  /** The most is never below the documented number. */
  lemma {:induction false} MostIsNotBelow(n: nat)
    requires n > 0
    ensures Power(n, n) <= Power(2, Most(n) + n - 1)
  {
    hide Power, Most;
    if n == 1 {
      SmallPowers();
      Single([0], (a: int, b: int) => a < b);
    } else {
      var a, b := n / 2, n - n / 2;
      MostIsNotBelow(a);
      MostIsNotBelow(b);
      MostUnfolds(n, a);
      HalvesReach(n);
      var x, y := Most(a) + a - 1, Most(b) + b - 1;
      Product3(Power(a, a), Power(b, b), Power(2, n), Power(2, x), Power(2, y), Power(2, n));
      PowerSum(2, x, y);
      PowerSum(2, x + y, n);
      assert Most(n) + n - 1 == x + y + n;
    }
  }

  /** Input that is shuffled at every level takes no fewer than documented, whatever its length. */
  lemma ShuffledIsAsDocumented<T(!new)>(xs: seq<T>, less: (T, T) -> bool)
    requires WeakOrder(less) && xs != [] && Shuffled(xs, less)
    ensures Power(|xs|, |xs|) <= Power(2, AllComparisons(xs, less) + |xs| - 1)
  {
    hide Most, Power, AllComparisons, Shuffled, WeakOrder;
    MostExactly(xs, less);
    MostIsNotBelow(|xs|);
  }

  // ----- what the records tell -----------------------------------------------------------------------------

  /** A record of a merge of two runs of nearly equal length, no deeper than the recursion goes. */
  ghost predicate IsMerge(t: MergeTrace, depth: nat, levels: nat) {
    && depth <= t.depth < depth + levels && 0 < t.leftSize <= t.rightSize <= t.leftSize + 1
    && t.leftSize <= t.comparisons < t.leftSize + t.rightSize
    && |t.head| == if t.leftSize + t.rightSize < 3 then t.leftSize + t.rightSize else 3
  }

  ghost predicate AllMerges(ts: seq<MergeTrace>, depth: nat, levels: nat) {
    forall i :: 0 <= i < |ts| ==> IsMerge(ts[i], depth, levels)
  }

  /** The record of the merge of two halves, which shows how the sorted whole begins. */
  ghost predicate LastMerge<T>(t: MergeTrace, depth: nat, s: seq<T>, caption: T -> string) {
    && t.depth == depth && t.leftSize == |s| / 2 && t.leftSize + t.rightSize == |s|
    && |t.head| <= |s| && forall i :: 0 <= i < |t.head| ==> t.head[i] == caption(s[i])
  }

  /** Every record is of a merge, and the last one is that of the two halves. */
  lemma {:induction false} RecordsAreMerges<T>(xs: seq<T>, depth: nat, less: (T, T) -> bool, caption: T -> string)
    ensures var ts := Traces(xs, depth, less, caption);
            && AllMerges(ts, depth, Levels(|xs|))
            && (|xs| > 1 ==> ts != [] && LastMerge(ts[|ts| - 1], depth, Sort(xs, less), caption))
    decreases |xs|
  {
    hide Sort, Traces, AllComparisons, Comparisons, Merge, Levels, IsMerge, AllMerges, LastMerge, Head;
    if |xs| <= 1 {
      ShortRun(xs, depth, less, caption);
      NoMerges(depth, Levels(|xs|));
    } else {
      LongRun(xs, depth, less, caption);
      var a, b := xs[..|xs| / 2], xs[|xs| / 2..];
      RecordsAreMerges(a, depth + 1, less, caption);
      RecordsAreMerges(b, depth + 1, less, caption);
      SortLength(xs, less);
      LevelsUnfold(|xs|, |a|);
      var left, right := Sort(a, less), Sort(b, less);
      var own := MergeTrace(depth, |left|, |right|, Comparisons(left, right, less), Head(Sort(xs, less), caption));
      OwnRecord(left, right, less, Sort(xs, less), own, depth, Levels(|xs|), caption);
      MergesJoin(Traces(a, depth + 1, less, caption), Traces(b, depth + 1, less, caption), own, depth, Levels(|a|),
                 Levels(|b|), Levels(|xs|));
    }
  }

  lemma NoMerges(depth: nat, levels: nat)
    ensures AllMerges([], depth, levels)
  {
  }

  lemma OwnRecord<T>(left: seq<T>, right: seq<T>, less: (T, T) -> bool, s: seq<T>, t: MergeTrace, depth: nat,
                     levels: nat, caption: T -> string)
    requires 0 < |left| == |s| / 2 && |left| + |right| == |s| && levels > 0
    requires t == MergeTrace(depth, |left|, |right|, Comparisons(left, right, less), Head(s, caption))
    ensures IsMerge(t, depth, levels) && LastMerge(t, depth, s, caption)
  {
    hide Comparisons;
    MergeAtLeast(left, right, less);
    ComparisonsAtMost(left, right, less);
  }

  lemma MergesJoin(ts: seq<MergeTrace>, us: seq<MergeTrace>, t: MergeTrace, depth: nat, a: nat, b: nat, levels: nat)
    requires AllMerges(ts, depth + 1, a) && AllMerges(us, depth + 1, b) && IsMerge(t, depth, levels)
    requires a < levels && b < levels
    ensures AllMerges(ts + us + [t], depth, levels)
  {
    var all := ts + us + [t];
    forall i | 0 <= i < |all| ensures IsMerge(all[i], depth, levels) {
      if i < |ts| {
        assert IsMerge(ts[i], depth + 1, a) && all[i] == ts[i];
      } else if i < |ts| + |us| {
        assert IsMerge(us[i - |ts|], depth + 1, b) && all[i] == us[i - |ts|];
      }
    }
  }

  lemma LevelsUnfold(n: nat, mid: nat)
    requires n > 1 && mid == n / 2
    ensures Levels(mid) < Levels(n) && Levels(n - mid) < Levels(n)
  {
  }
}
