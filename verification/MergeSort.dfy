/**
 The traced merge sort of backend/app/priority/mergesort.py: its outcome, its
 comparison count and its recursion depth.
 */
module MergeSort {
  import opened Sorting
  import opened Wrappers

  // ----- merging ------------------------------------------------------------------------

  /** On ties the left run goes first. */
  function Merge<T>(left: seq<T>, right: seq<T>, less: (T, T) -> bool): seq<T>
    decreases |left| + |right|
  {
    if left == [] then right
    else if right == [] then left
    else if less(right[0], left[0]) then [right[0]] + Merge(left, right[1..], less)
    else [left[0]] + Merge(left[1..], right, less)
  }

  /** How often a merge compares two keys. */
  function Comparisons<T>(left: seq<T>, right: seq<T>, less: (T, T) -> bool): nat
    decreases |left| + |right|
  {
    if left == [] || right == [] then 0
    else if less(right[0], left[0]) then 1 + Comparisons(left, right[1..], less)
    else 1 + Comparisons(left[1..], right, less)
  }

  function Sort<T>(xs: seq<T>, less: (T, T) -> bool): seq<T>
    decreases |xs|
  {
    if |xs| <= 1 then xs
    else
      var mid := |xs| / 2;
      Merge(Sort(xs[..mid], less), Sort(xs[mid..], less), less)
  }

  /** The two-index loop, and how many turns it takes. */
  method MergeRuns<T>(left: seq<T>, right: seq<T>, less: (T, T) -> bool) returns (out: seq<T>, comps: nat)
    ensures out == Merge(left, right, less) && comps == Comparisons(left, right, less)
  {
    hide Merge, Comparisons;
    out, comps := [], 0;
    var i, j := 0, 0;
    assert left[0..] == left && right[0..] == right;
    while i < |left| && j < |right|
      invariant i <= |left| && j <= |right|
      invariant out + Merge(left[i..], right[j..], less) == Merge(left, right, less)
      invariant comps + Comparisons(left[i..], right[j..], less) == Comparisons(left, right, less)
      decreases |left| + |right| - i - j
    {
      MergeTurn(left, right, i, j, out, less);
      comps := comps + 1;
      if less(right[j], left[i]) {
        out := out + [right[j]];
        j := j + 1;
      } else {
        out := out + [left[i]];
        i := i + 1;
      }
    }
    MergeEnd(left[i..], right[j..], out, less);
    out := out + left[i..];
    out := out + right[j..];
  }

  /** One turn of the loop. */
  lemma MergeTurn<T>(left: seq<T>, right: seq<T>, i: nat, j: nat, out: seq<T>, less: (T, T) -> bool)
    requires i < |left| && j < |right|
    ensures out + Merge(left[i..], right[j..], less)
         == if less(right[j], left[i]) then out + [right[j]] + Merge(left[i..], right[j + 1..], less)
            else out + [left[i]] + Merge(left[i + 1..], right[j..], less)
    ensures Comparisons(left[i..], right[j..], less)
         == 1 + if less(right[j], left[i]) then Comparisons(left[i..], right[j + 1..], less)
                else Comparisons(left[i + 1..], right[j..], less)
  {
    var l, r := left[i..], right[j..];
    assert l[1..] == left[i + 1..] && r[1..] == right[j + 1..];
    assert l[0] == left[i] && r[0] == right[j];
  }

  lemma MergeEnd<T>(left: seq<T>, right: seq<T>, out: seq<T>, less: (T, T) -> bool)
    requires left == [] || right == []
    ensures out + left + right == out + Merge(left, right, less) && Comparisons(left, right, less) == 0
  {
  }

  lemma {:induction false} MergeKeepsAll<T>(left: seq<T>, right: seq<T>, less: (T, T) -> bool)
    ensures multiset(Merge(left, right, less)) == multiset(left) + multiset(right)
    decreases |left| + |right|
  {
    if left != [] && right != [] {
      if less(right[0], left[0]) {
        MergeKeepsAll(left, right[1..], less);
        HeadAside(right);
        HeadInFront(right[0], Merge(left, right[1..], less));
      } else {
        MergeKeepsAll(left[1..], right, less);
        HeadAside(left);
        HeadInFront(left[0], Merge(left[1..], right, less));
      }
    }
  }

  lemma HeadInFront<T>(h: T, rest: seq<T>)
    ensures multiset([h] + rest) == multiset{h} + multiset(rest)
  {
  }

  /** The head of a sorted merge is below everything behind it. */
  lemma HeadSorts<T>(h: T, rest: seq<T>, less: (T, T) -> bool)
    requires Sorted(rest, less) && forall x :: x in rest ==> !less(x, h)
    ensures Sorted([h] + rest, less)
  {
  }

  lemma {:induction false} MergeSorts<T(!new)>(left: seq<T>, right: seq<T>, less: (T, T) -> bool)
    requires WeakOrder(less) && Sorted(left, less) && Sorted(right, less)
    ensures Sorted(Merge(left, right, less), less)
    decreases |left| + |right|
  {
    if left != [] && right != [] {
      if less(right[0], left[0]) {
        MergeSorts(left, right[1..], less);
        MergeKeepsAll(left, right[1..], less);
        forall x | x in Merge(left, right[1..], less) ensures !less(x, right[0]) {
          assert x in multiset(left) + multiset(right[1..]);
          if x in left {
            var i :| 0 <= i < |left| && left[i] == x;
            assert !less(x, left[0]);
          }
        }
        HeadSorts(right[0], Merge(left, right[1..], less), less);
      } else {
        MergeSorts(left[1..], right, less);
        MergeKeepsAll(left[1..], right, less);
        forall x | x in Merge(left[1..], right, less) ensures !less(x, left[0]) {
          assert x in multiset(left[1..]) + multiset(right);
          if x in right {
            var i :| 0 <= i < |right| && right[i] == x;
            assert !less(x, right[0]);
          }
        }
        HeadSorts(left[0], Merge(left[1..], right, less), less);
      }
    }
  }

  lemma {:induction false} NoneAlike<T>(xs: seq<T>, less: (T, T) -> bool, k: T)
    requires forall x :: x in xs ==> !Same(less, x, k)
    ensures Class(xs, less, k) == []
  {
    if xs != [] {
      NoneAlike(xs[1..], less, k);
    }
  }

  /** What is taken from the right run early ties with nothing in the left run. */
  lemma EarlyTiesWithNone<T(!new)>(left: seq<T>, first: T, less: (T, T) -> bool, k: T)
    requires WeakOrder(less) && Sorted(left, less) && left != [] && less(first, left[0]) && Same(less, first, k)
    ensures Class(left, less, k) == []
  {
    forall x | x in left ensures !Same(less, x, k) {
      var i :| 0 <= i < |left| && left[i] == x;
      assert !less(x, left[0]);
    }
    NoneAlike(left, less, k);
  }

  /** Stability: equal keys of the left run stay ahead of those of the right run. */
  lemma {:induction false} MergeKeepsClasses<T(!new)>(left: seq<T>, right: seq<T>, less: (T, T) -> bool, k: T)
    requires WeakOrder(less) && Sorted(left, less)
    ensures Class(Merge(left, right, less), less, k) == Class(left, less, k) + Class(right, less, k)
    decreases |left| + |right|
  {
    if left != [] && right != [] {
      if less(right[0], left[0]) {
        MergeKeepsClasses(left, right[1..], less, k);
        if Same(less, right[0], k) {
          EarlyTiesWithNone(left, right[0], less, k);
        }
        hide WeakOrder, Sorted, Same;
        ClassBehind(right[0], Merge(left, right[1..], less), less, k);
      } else {
        TailIsSorted(left, less);
        hide WeakOrder, Sorted, Same;
        MergeKeepsClasses(left[1..], right, less, k);
        ClassBehind(left[0], Merge(left[1..], right, less), less, k);
      }
    }
  }

  lemma ClassBehind<T>(h: T, rest: seq<T>, less: (T, T) -> bool, k: T)
    ensures Class([h] + rest, less, k) == (if Same(less, h, k) then [h] else []) + Class(rest, less, k)
  {
    assert ([h] + rest)[1..] == rest;
  }

  lemma TailIsSorted<T>(s: seq<T>, less: (T, T) -> bool)
    requires s != [] && Sorted(s, less)
    ensures Sorted(s[1..], less)
  {
  }

  /** Merge sort is the stable sort: sorted, a permutation, equal keys in input order. */
  lemma {:induction false} SortIsStable<T(!new)>(xs: seq<T>, less: (T, T) -> bool)
    requires WeakOrder(less)
    ensures StablySorts(xs, Sort(xs, less), less)
    decreases |xs|
  {
    if |xs| > 1 {
      var mid := |xs| / 2;
      var a, b := xs[..mid], xs[mid..];
      SortIsStable(a, less);
      SortIsStable(b, less);
      assert xs == a + b;
      MergeSorts(Sort(a, less), Sort(b, less), less);
      MergeKeepsAll(Sort(a, less), Sort(b, less), less);
      forall k ensures Class(Sort(xs, less), less, k) == Class(xs, less, k) {
        MergeKeepsClasses(Sort(a, less), Sort(b, less), less, k);
        ClassConcat(a, b, less, k);
      }
    }
  }

  /** Hence it agrees with any other stable sort, the library's included. */
  lemma SortAgreesWithLibrary<T(!new)>(xs: seq<T>, less: (T, T) -> bool)
    requires WeakOrder(less)
    ensures Sort(xs, less) == StableSort(xs, less)
  {
    SortIsStable(xs, less);
    StableSortSorts(xs, less);
    StableSortUnique(xs, Sort(xs, less), StableSort(xs, less), less);
  }

  method MergeSort<T>(items: seq<T>, less: (T, T) -> bool) returns (out: seq<T>)
    ensures out == Sort(items, less)
    decreases |items|
  {
    if |items| <= 1 {
      return items;
    }
    var mid := |items| / 2;
    var left := MergeSort(items[..mid], less);
    var right := MergeSort(items[mid..], less);
    var comps;
    out, comps := MergeRuns(left, right, less);
  }

  // ----- the traced variant ----------------------------------------------------------------

  datatype MergeTrace = MergeTrace(depth: nat, leftSize: nat, rightSize: nat, comparisons: nat, head: seq<string>)

  function AllComparisons<T>(xs: seq<T>, less: (T, T) -> bool): nat
    decreases |xs|
  {
    if |xs| <= 1 then 0
    else
      var mid := |xs| / 2;
      AllComparisons(xs[..mid], less) + AllComparisons(xs[mid..], less)
      + Comparisons(Sort(xs[..mid], less), Sort(xs[mid..], less), less)
  }

  /** Levels of recursion below the top one. */
  function Levels(n: nat): nat {
    if n <= 1 then 0
    else
      var a, b := Levels(n / 2), Levels(n - n / 2);
      1 + if a < b then b else a
  }

  /** The first three captions of a run. */
  function Head<T>(run: seq<T>, caption: T -> string): seq<string> {
    var few := if |run| < 3 then run else run[..3];
    seq(|few|, i requires 0 <= i < |few| => caption(few[i]))
  }

  /** The records of a sort in the order it files them: inner merges before outer ones. */
  function Traces<T>(xs: seq<T>, depth: nat, less: (T, T) -> bool, caption: T -> string): seq<MergeTrace>
    decreases |xs|
  {
    if |xs| <= 1 then []
    else
      var mid := |xs| / 2;
      var a, b := Sort(xs[..mid], less), Sort(xs[mid..], less);
      Traces(xs[..mid], depth + 1, less, caption) + Traces(xs[mid..], depth + 1, less, caption)
      + [MergeTrace(depth, mid, |xs| - mid, Comparisons(a, b, less), Head(Merge(a, b, less), caption))]
  }

  function Recorded(merges: seq<MergeTrace>): nat {
    if merges == [] then 0 else merges[0].comparisons + Recorded(merges[1..])
  }

  lemma {:induction false} RecordedConcat(a: seq<MergeTrace>, b: seq<MergeTrace>)
    ensures Recorded(a + b) == Recorded(a) + Recorded(b)
  {
    if a == [] {
      assert a + b == b;
    } else {
      RecordedConcat(a[1..], b);
      assert (a + b)[1..] == a[1..] + b;
    }
  }

  /** One record per merge, n - 1 in all, and their comparisons sum to the total. */
  lemma {:induction false} TracesAddUp<T>(xs: seq<T>, depth: nat, less: (T, T) -> bool, caption: T -> string)
    ensures |Traces(xs, depth, less, caption)| == if |xs| == 0 then 0 else |xs| - 1
    ensures Recorded(Traces(xs, depth, less, caption)) == AllComparisons(xs, less)
    decreases |xs|
  {
    if |xs| > 1 {
      hide Sort, Traces, AllComparisons, Comparisons, Merge, Head;
      LongRun(xs, depth, less, caption);
      var a, b := xs[..|xs| / 2], xs[|xs| / 2..];
      TracesAddUp(a, depth + 1, less, caption);
      TracesAddUp(b, depth + 1, less, caption);
      var left, right := Traces(a, depth + 1, less, caption), Traces(b, depth + 1, less, caption);
      var all := Traces(xs, depth, less, caption);
      var own := all[|all| - 1];
      RecordedConcat(left, right);
      RecordedConcat(left + right, [own]);
      RecordedOne(own);
    } else {
      ShortRun(xs, depth, less, caption);
    }
  }

  lemma RecordedOne(t: MergeTrace)
    ensures Recorded([t]) == t.comparisons
  {
  }

  class SortReport {
    const n: nat
    var comparisons: nat
    var depth: nat
    var merges: seq<MergeTrace>

    constructor (n: nat)
      ensures this.n == n && comparisons == 0 && depth == 0 && merges == []
    {
      this.n := n;
      comparisons, depth, merges := 0, 0, [];
    }

    /** Counts a merge and files its record. */
    method Add(trace: MergeTrace)
      modifies this
      ensures depth == old(depth) && comparisons == old(comparisons) + trace.comparisons
      ensures merges == old(merges) + [trace]
    {
      comparisons := comparisons + trace.comparisons;
      merges := merges + [trace];
    }
  }

  lemma ShortRun<T>(xs: seq<T>, depth: nat, less: (T, T) -> bool, caption: T -> string)
    requires |xs| <= 1
    ensures Sort(xs, less) == xs && AllComparisons(xs, less) == 0 && Traces(xs, depth, less, caption) == []
  {
  }

  lemma LongRun<T>(xs: seq<T>, depth: nat, less: (T, T) -> bool, caption: T -> string)
    requires |xs| > 1
    ensures var a, b := xs[..|xs| / 2], xs[|xs| / 2..];
            var left, right := Sort(a, less), Sort(b, less);
            && |left| == |xs| / 2 && |right| == |xs| - |xs| / 2
            && Sort(xs, less) == Merge(left, right, less)
            && AllComparisons(xs, less)
               == AllComparisons(a, less) + AllComparisons(b, less) + Comparisons(left, right, less)
            && Traces(xs, depth, less, caption)
               == Traces(a, depth + 1, less, caption) + Traces(b, depth + 1, less, caption)
                  + [MergeTrace(depth, |left|, |right|, Comparisons(left, right, less),
                     Head(Merge(left, right, less), caption))]
  {
    hide Merge, Comparisons, Head;
    SortLength(xs[..|xs| / 2], less);
    SortLength(xs[|xs| / 2..], less);
  }

  lemma ConcatAssociates<X>(a: seq<X>, b: seq<X>, c: seq<X>, d: seq<X>)
    ensures a + b + c + d == a + (b + c + d)
  {
  }

  method SortRec<T>(xs: seq<T>, depth: nat, less: (T, T) -> bool, caption: T -> string, report: SortReport)
    returns (out: seq<T>)
    modifies report
    ensures out == Sort(xs, less)
    ensures report.comparisons == old(report.comparisons) + AllComparisons(xs, less)
    ensures report.depth == Larger(old(report.depth), depth + Levels(|xs|))
    ensures report.merges == old(report.merges) + Traces(xs, depth, less, caption)
    decreases |xs|
  {
    hide Sort, Merge, AllComparisons, Comparisons, Traces, Head;
    ghost var filed := report.merges;
    report.depth := Larger(report.depth, depth);
    if |xs| <= 1 {
      ShortRun(xs, depth, less, caption);
      assert filed == filed + [];
      return xs;
    }
    LongRun(xs, depth, less, caption);
    var mid := |xs| / 2;
    var left := SortRec(xs[..mid], depth + 1, less, caption, report);
    var right := SortRec(xs[mid..], depth + 1, less, caption, report);
    var comps;
    out, comps := MergeRuns(left, right, less);
    var trace := MergeTrace(depth, |left|, |right|, comps, Head(out, caption));
    report.Add(trace);
    ConcatAssociates(filed, Traces(xs[..mid], depth + 1, less, caption), Traces(xs[mid..], depth + 1, less, caption),
                     [trace]);
  }

  /**
   The traced sort returns the stable order, and its report adds up: one record per merge,
   their comparisons sum to the total, the total is at most n log2 n, and the depth is
   the logarithm rounded up.
   */
  method SortWithTrace<T>(items: seq<T>, less: (T, T) -> bool, caption: T -> string)
    returns (out: seq<T>, report: SortReport)
    ensures fresh(report) && report.n == |items| && out == Sort(items, less)
    ensures report.comparisons == AllComparisons(items, less) == Recorded(report.merges)
    ensures report.merges == Traces(items, 0, less, caption)
    ensures |report.merges| == if |items| == 0 then 0 else |items| - 1
    ensures |items| > 0 ==> Power(2, report.comparisons) <= Power(|items|, |items|)
    ensures |items| > 0 ==> IsLogCeiling(report.depth, |items|)
  {
    hide Sort, AllComparisons, Traces, Recorded, Levels, Power, IsLogCeiling;
    report := new SortReport(|items|);
    out := SortRec(items, 0, less, caption, report);
    assert report.merges == Traces(items, 0, less, caption);
    TracesAddUp(items, 0, less, caption);
    if |items| > 0 {
      ComparisonBound(items, less);
      LevelsAreLog(|items|);
    }
  }

  // ----- the bounds --------------------------------------------------------------------------

  function Power(b: nat, e: nat): nat {
    if e == 0 then 1 else b * Power(b, e - 1)
  }

  /** `d` is the least number with n <= 2^d. */
  ghost predicate IsLogCeiling(d: nat, n: nat) {
    n <= Power(2, d) && (d > 0 ==> Power(2, d - 1) < n)
  }

  lemma {:induction false} LevelsAreLog(n: nat)
    requires n > 0
    ensures IsLogCeiling(Levels(n), n)
  {
    if n > 1 {
      var a, b := Levels(n / 2), Levels(n - n / 2);
      LevelsAreLog(n / 2);
      LevelsAreLog(n - n / 2);
      if a > b {
        PowersGrow(b, a - 1);
      }
      LogDoubles(n, b);
    }
  }

  lemma {:induction false} PowersGrow(i: nat, j: nat)
    requires i <= j
    ensures Power(2, i) <= Power(2, j)
    decreases j - i
  {
    if i < j {
      PowersGrow(i, j - 1);
    }
  }

  lemma LogDoubles(n: nat, d: nat)
    requires n > 1 && IsLogCeiling(d, n - n / 2)
    ensures IsLogCeiling(d + 1, n)
  {
  }

  lemma {:induction false} ComparisonsAtMost<T>(left: seq<T>, right: seq<T>, less: (T, T) -> bool)
    ensures left != [] && right != [] ==> Comparisons(left, right, less) < |left| + |right|
    decreases |left| + |right|
  {
    if left != [] && right != [] {
      if less(right[0], left[0]) {
        ComparisonsAtMost(left, right[1..], less);
      } else {
        ComparisonsAtMost(left[1..], right, less);
      }
    }
  }

  lemma {:induction false} SortLength<T>(xs: seq<T>, less: (T, T) -> bool)
    ensures |Sort(xs, less)| == |xs|
    decreases |xs|
  {
    if |xs| > 1 {
      var mid := |xs| / 2;
      SortLength(xs[..mid], less);
      SortLength(xs[mid..], less);
      var a, b := Sort(xs[..mid], less), Sort(xs[mid..], less);
      MergeKeepsAll(a, b, less);
      assert |multiset(Merge(a, b, less))| == |multiset(a)| + |multiset(b)|;
    }
  }

  lemma {:induction false} PowerSum(b: nat, m: nat, n: nat)
    ensures Power(b, m + n) == Power(b, m) * Power(b, n)
  {
    if m > 0 {
      PowerSum(b, m - 1, n);
      assert Power(b, m + n) == b * Power(b, m - 1 + n);
      Regroup(b, Power(b, m - 1), Power(b, n));
    }
  }

  lemma Regroup(a: nat, b: nat, c: nat)
    ensures a * (b * c) == a * b * c
  {
  }

  lemma {:induction false} PowerProduct(a: nat, b: nat, e: nat)
    ensures Power(a * b, e) == Power(a, e) * Power(b, e)
  {
    if e > 0 {
      PowerProduct(a, b, e - 1);
      Shuffle(a, b, Power(a, e - 1), Power(b, e - 1));
    }
  }

  lemma Shuffle(a: nat, b: nat, c: nat, d: nat)
    ensures a * b * (c * d) == a * c * (b * d)
  {
  }

  lemma MulMono(a: nat, b: nat, c: nat, d: nat)
    requires a <= b && c <= d
    ensures a * c <= b * d
  {
    assert a * c <= b * c;
    assert b * c <= b * d;
  }

  lemma {:induction false} PowerMono(a: nat, b: nat, e: nat)
    requires a <= b
    ensures Power(a, e) <= Power(b, e)
  {
    if e > 0 {
      PowerMono(a, b, e - 1);
      MulMono(a, b, Power(a, e - 1), Power(b, e - 1));
    }
  }

  lemma {:induction false} PowerGrows(m: nat, n: nat)
    requires m <= n
    ensures Power(2, m) <= Power(2, n)
  {
    if m < n {
      PowerGrows(m, n - 1);
    }
  }

  /** n even: two halves of a each. */
  lemma EvenHalves(a: nat)
    requires a > 0
    ensures Power(a, a) * Power(a, a) * Power(2, 2 * a - 1) <= Power(2 * a, 2 * a)
  {
    PowerProduct(2, a, 2 * a);
    PowerSum(a, a, a);
    assert a + a == 2 * a;
    var p, q := Power(a, a) * Power(a, a), Power(2, 2 * a - 1);
    assert Power(2, 2 * a) == 2 * q;
    hide Power;
    EvenShuffle(p, q);
  }

  lemma EvenShuffle(p: nat, q: nat)
    ensures p * q <= 2 * q * p
  {
    assert 2 * q * p == p * q + p * q;
  }

  /** n odd: halves of a and a + 1, and 2a(2a + 2) is just below n squared. */
  lemma OddHalves(a: nat)
    ensures Power(a, a) * Power(a + 1, a + 1) * Power(2, 2 * a) <= Power(2 * a + 1, 2 * a + 1)
  {
    var n := 2 * a + 1;
    var x, y, t := Power(a, a), Power(a + 1, a), Power(2, a);
    PowerSum(2, a, a);
    assert a + a == 2 * a;
    assert Power(2, 2 * a) == t * t;
    PowerProduct(2, a, a);
    PowerProduct(2, a + 1, a);
    PowerProduct(2 * a, 2 * (a + 1), a);
    assert 2 * a * (2 * (a + 1)) <= n * n;
    PowerMono(2 * a * (2 * (a + 1)), n * n, a);
    PowerProduct(n, n, a);
    PowerSum(n, a, a);
    OddShuffle(a, x, y, t);
    MulMono(a + 1, n, t * x * (t * y), Power(n, 2 * a));
  }

  lemma OddShuffle(a: nat, x: nat, y: nat, t: nat)
    ensures x * ((a + 1) * y) * (t * t) == (a + 1) * (t * x * (t * y))
  {
    assert x * ((a + 1) * y) == (a + 1) * (x * y);
    assert x * y * (t * t) == t * x * (t * y);
    assert (a + 1) * (x * y) * (t * t) == (a + 1) * (x * y * (t * t));
  }

  lemma HalvesBound(n: nat)
    requires n > 1
    ensures Power(n / 2, n / 2) * Power(n - n / 2, n - n / 2) * Power(2, n - 1) <= Power(n, n)
  {
    var a := n / 2;
    if n == 2 * a {
      EvenHalves(a);
    } else {
      assert n == 2 * a + 1;
      OddHalves(a);
    }
  }

  lemma Product3(a: nat, b: nat, c: nat, a': nat, b': nat, c': nat)
    requires a <= a' && b <= b' && c <= c'
    ensures a * b * c <= a' * b' * c'
  {
    MulMono(a, a', b, b');
    MulMono(a * b, a' * b', c, c');
  }

  lemma OneToTheOne()
    ensures Power(2, 0) == 1 == Power(1, 1)
  {
  }

  /** At most n log2 n comparisons, for every input and every comparison. */
  lemma {:induction false} ComparisonBound<T>(xs: seq<T>, less: (T, T) -> bool)
    requires |xs| > 0
    ensures Power(2, AllComparisons(xs, less)) <= Power(|xs|, |xs|)
    decreases |xs|
  {
    hide Power, Sort, Comparisons;
    var n, mid := |xs|, |xs| / 2;
    if n == 1 {
      OneToTheOne();
    } else {
      var a, b := xs[..mid], xs[mid..];
      ComparisonBound(a, less);
      ComparisonBound(b, less);
      SortLength(a, less);
      SortLength(b, less);
      ComparisonsAtMost(Sort(a, less), Sort(b, less), less);
      var ca, cb := AllComparisons(a, less), AllComparisons(b, less);
      var c := Comparisons(Sort(a, less), Sort(b, less), less);
      PowerSum(2, ca + cb, c);
      PowerSum(2, ca, cb);
      PowerGrows(c, n - 1);
      Product3(Power(2, ca), Power(2, cb), Power(2, c), Power(mid, mid), Power(n - mid, n - mid), Power(2, n - 1));
      HalvesBound(n);
    }
  }
}
