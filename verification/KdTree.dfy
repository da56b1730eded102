/**
 The k-d tree of backend/app/spatial/nearest.py over projected points. Distances are
 compared squared, which orders them alike. A search that skips subtrees returns the
 distances that ranking every item would.
 */
module KdTree {
  import opened Wrappers
  import Sorting

  datatype Point = Point(x: real, y: real)

  datatype Item<T> = Item(point: Point, payload: T)

  datatype Tree<T> = Leaf | Node(item: Item<T>, axis: nat, left: Tree<T>, right: Tree<T>)

  /** A candidate with its squared distance. */
  datatype Found<T> = Found(dist: real, payload: T)

  function Along(p: Point, axis: nat): real {
    if axis == 0 then p.x else p.y
  }

  function Square(a: real): real {
    a * a
  }

  function Dist(a: Point, b: Point): real {
    Square(a.x - b.x) + Square(a.y - b.y)
  }

  function OnAxis<T>(axis: nat): Item<T> -> real {
    (it: Item<T>) => Along(it.point, axis)
  }

  function SortAlong<T>(items: seq<Item<T>>, axis: nat): (s: seq<Item<T>>)
    ensures |s| == |items| && multiset(s) == multiset(items)
  {
    Sorting.StableSortKeepsAll(items, Sorting.ByKey(OnAxis(axis)));
    Sorting.StableSort(items, Sorting.ByKey(OnAxis(axis)))
  }

  /** Median split on alternating axes; ties may fall on either side. */
  function Build<T>(items: seq<Item<T>>, depth: nat): Tree<T>
    decreases |items|
  {
    if items == [] then Leaf
    else
      var axis := depth % 2;
      var s := SortAlong(items, axis);
      var mid := |s| / 2;
      Node(s[mid], axis, Build(s[..mid], depth + 1), Build(s[mid + 1..], depth + 1))
  }

  ghost function Contents<T>(t: Tree<T>): seq<Item<T>> {
    match t
    case Leaf => []
    case Node(item, _, left, right) => [item] + Contents(left) + Contents(right)
  }

  /** Each node separates its subtrees along its axis. */
  ghost predicate Split<T>(t: Tree<T>) {
    match t
    case Leaf => true
    case Node(item, axis, left, right) =>
      && axis < 2 && Split(left) && Split(right)
      && AllBelow(Contents(left), axis, Along(item.point, axis))
      && AllAbove(Contents(right), axis, Along(item.point, axis))
  }

  lemma SplitAt<A>(s: seq<A>, mid: nat)
    requires mid < |s|
    ensures multiset(s) == multiset{s[mid]} + multiset(s[..mid]) + multiset(s[mid + 1..])
  {
    assert s == s[..mid] + [s[mid]] + s[mid + 1..];
  }

  lemma NodeContents<T>(t: Tree<T>)
    requires t.Node?
    ensures multiset(Contents(t)) == multiset{t.item} + multiset(Contents(t.left)) + multiset(Contents(t.right))
  {
  }

  /** One node of the tree: the median, and the trees of the two sides. */
  lemma BuildNode<T>(items: seq<Item<T>>, depth: nat)
    requires items != []
    ensures var s := SortAlong(items, depth % 2);
            Build(items, depth) == Node(s[|s| / 2], depth % 2, Build(s[..|s| / 2], depth + 1),
                                        Build(s[|s| / 2 + 1..], depth + 1))
  {
    hide SortAlong;
  }

  lemma {:induction false} BuildHoldsAll<T>(items: seq<Item<T>>, depth: nat)
    ensures multiset(Contents(Build(items, depth))) == multiset(items)
    decreases |items|
  {
    if items != [] {
      BuildNode(items, depth);
      hide Build, SortAlong;
      var s := SortAlong(items, depth % 2);
      var mid := |s| / 2;
      BuildHoldsAll(s[..mid], depth + 1);
      BuildHoldsAll(s[mid + 1..], depth + 1);
      SplitAt(s, mid);
      NodeContents(Build(items, depth));
    }
  }

  ghost predicate AllBelow<T>(items: seq<Item<T>>, axis: nat, bound: real) {
    forall it :: it in items ==> Along(it.point, axis) <= bound
  }

  ghost predicate AllAbove<T>(items: seq<Item<T>>, axis: nat, bound: real) {
    forall it :: it in items ==> bound <= Along(it.point, axis)
  }

  lemma SameContents<T>(xs: seq<T>, ys: seq<T>)
    requires multiset(xs) == multiset(ys)
    ensures forall x :: x in xs ==> x in ys
  {
    forall x | x in xs ensures x in ys {
      assert x in multiset(xs);
    }
  }

  /** The median of a sorted sequence bounds both halves. */
  lemma MedianSplits<T(!new)>(items: seq<Item<T>>, axis: nat)
    requires items != []
    ensures var s := SortAlong(items, axis);
            |s| == |items| && AllBelow(s[..|s| / 2], axis, Along(s[|s| / 2].point, axis))
            && AllAbove(s[|s| / 2 + 1..], axis, Along(s[|s| / 2].point, axis))
  {
    var key := OnAxis<T>(axis);
    var s := SortAlong(items, axis);
    assert s == Sorting.StableSort(items, Sorting.ByKey(key));
    Sorting.SortedByKey(items, key);
    hide Sorting.StableSort, SortAlong, Along;
    var mid := |s| / 2;
    forall i | 0 <= i < mid ensures Along(s[i].point, axis) <= Along(s[mid].point, axis) {
      assert key(s[i]) <= key(s[mid]);
    }
    forall i | mid < i < |s| ensures Along(s[mid].point, axis) <= Along(s[i].point, axis) {
      assert key(s[mid]) <= key(s[i]);
    }
  }

  lemma {:induction false} BuildSplits<T(!new)>(items: seq<Item<T>>, depth: nat)
    ensures Split(Build(items, depth))
    decreases |items|
  {
    if items != [] {
      BuildNode(items, depth);
      MedianSplits(items, depth % 2);
      hide Build, SortAlong, AllBelow, AllAbove, Along;
      var s := SortAlong(items, depth % 2);
      var mid := |s| / 2;
      BuildSplits(s[..mid], depth + 1);
      BuildSplits(s[mid + 1..], depth + 1);
      BuildHoldsAll(s[..mid], depth + 1);
      BuildHoldsAll(s[mid + 1..], depth + 1);
      SameBounds(Contents(Build(s[..mid], depth + 1)), s[..mid], depth % 2, Along(s[mid].point, depth % 2));
      SameBounds(Contents(Build(s[mid + 1..], depth + 1)), s[mid + 1..], depth % 2, Along(s[mid].point, depth % 2));
    }
  }

  /** The root of a tree divides it by x at even depths and by y at odd ones, and its two sides likewise, one deeper. */
  lemma AxesAlternate<T(!new)>(items: seq<Item<T>>, depth: nat) returns (a: seq<Item<T>>, b: seq<Item<T>>)
    requires items != []
    ensures var t := Build(items, depth);
            && t.Node? && t.left == Build(a, depth + 1) && t.right == Build(b, depth + 1)
            && (forall it :: it in Contents(t.left) ==>
                  if depth % 2 == 0 then it.point.x <= t.item.point.x else it.point.y <= t.item.point.y)
            && (forall it :: it in Contents(t.right) ==>
                  if depth % 2 == 0 then t.item.point.x <= it.point.x else t.item.point.y <= it.point.y)
  {
    hide SortAlong, Build, Contents, Split;
    BuildSplits(items, depth);
    BuildNode(items, depth);
    var s := SortAlong(items, depth % 2);
    a, b := s[..|s| / 2], s[|s| / 2 + 1..];
    SplitHere(Build(items, depth));
  }

  lemma SplitHere<T(!new)>(t: Tree<T>)
    requires t.Node? && Split(t)
    ensures AllBelow(Contents(t.left), t.axis, Along(t.item.point, t.axis))
    ensures AllAbove(Contents(t.right), t.axis, Along(t.item.point, t.axis))
  {
  }

  lemma SameBounds<T>(xs: seq<Item<T>>, ys: seq<Item<T>>, axis: nat, bound: real)
    requires multiset(xs) == multiset(ys)
    ensures AllBelow(ys, axis, bound) ==> AllBelow(xs, axis, bound)
    ensures AllAbove(ys, axis, bound) ==> AllAbove(xs, axis, bound)
  {
    SameContents(xs, ys);
  }

  // ----- ascending sequences of reals ------------------------------------------------------

  ghost predicate Ascending(xs: seq<real>) {
    forall i, j :: 0 <= i < j < |xs| ==> xs[i] <= xs[j]
  }

  function Place(xs: seq<real>, d: real): seq<real> {
    if xs == [] || xs[|xs| - 1] <= d then xs + [d]
    else Place(xs[..|xs| - 1], d) + [xs[|xs| - 1]]
  }

  function PlaceAll(xs: seq<real>, ds: seq<real>): seq<real> {
    if ds == [] then xs else Place(PlaceAll(xs, ds[..|ds| - 1]), ds[|ds| - 1])
  }

  function Take(xs: seq<real>, k: nat): seq<real> {
    if k < |xs| then xs[..k] else xs
  }

  /** The `k` least of `ds`, in order: sort everything, keep the first `k`. */
  function Best(k: nat, ds: seq<real>): seq<real> {
    Take(PlaceAll([], ds), k)
  }

  lemma {:induction false} PlaceAscends(xs: seq<real>, d: real)
    requires Ascending(xs)
    ensures Ascending(Place(xs, d)) && |Place(xs, d)| == |xs| + 1
    ensures Place(xs, d)[|xs|] == if xs == [] || xs[|xs| - 1] <= d then d else xs[|xs| - 1]
  {
    if xs != [] && d < xs[|xs| - 1] {
      PlaceAscends(xs[..|xs| - 1], d);
    }
  }

  lemma {:induction false} PlaceKeepsAll(xs: seq<real>, d: real)
    ensures multiset(Place(xs, d)) == multiset(xs) + multiset{d}
  {
    if xs != [] && d < xs[|xs| - 1] {
      PlaceKeepsAll(xs[..|xs| - 1], d);
      LastAside(xs);
    }
  }

  lemma {:induction false} PlaceAllAscends(xs: seq<real>, ds: seq<real>)
    requires Ascending(xs)
    ensures Ascending(PlaceAll(xs, ds)) && |PlaceAll(xs, ds)| == |xs| + |ds|
  {
    if ds != [] {
      PlaceAllAscends(xs, ds[..|ds| - 1]);
      PlaceAscends(PlaceAll(xs, ds[..|ds| - 1]), ds[|ds| - 1]);
    }
  }

  lemma {:induction false} PlaceAllKeepsAll(xs: seq<real>, ds: seq<real>)
    ensures multiset(PlaceAll(xs, ds)) == multiset(xs) + multiset(ds)
  {
    if ds != [] {
      PlaceAllKeepsAll(xs, ds[..|ds| - 1]);
      PlaceKeepsAll(PlaceAll(xs, ds[..|ds| - 1]), ds[|ds| - 1]);
      LastAside(ds);
    }
  }

  lemma {:induction false} PlaceAllConcat(xs: seq<real>, ds: seq<real>, es: seq<real>)
    ensures PlaceAll(xs, ds + es) == PlaceAll(PlaceAll(xs, ds), es)
    decreases |es|
  {
    if es == [] {
      assert ds + es == ds;
    } else {
      assert (ds + es)[..|ds + es| - 1] == ds + es[..|es| - 1];
      PlaceAllConcat(xs, ds, es[..|es| - 1]);
    }
  }

  /** What is cut off before an insertion could not have come back after it. */
  lemma {:induction false} TakePlace(xs: seq<real>, k: nat, d: real)
    requires Ascending(xs)
    ensures Take(Place(Take(xs, k), d), k) == Take(Place(xs, d), k)
  {
    if k < |xs| {
      var init, last := xs[..|xs| - 1], xs[|xs| - 1];
      assert Take(init, k) == xs[..k];
      PlaceLength(xs[..k], d);
      PlaceLength(init, d);
      if last <= d {
        if k > 0 {
          assert xs[k - 1] <= d;
          assert Place(xs[..k], d) == xs[..k] + [d];
        }
      } else {
        TakePlace(init, k, d);
        assert Place(xs, d)[..k] == Place(init, d)[..k];
      }
    }
  }

  lemma {:induction false} PlaceLength(xs: seq<real>, d: real)
    ensures |Place(xs, d)| == |xs| + 1
  {
    if xs != [] {
      PlaceLength(xs[..|xs| - 1], d);
    }
  }

  lemma {:induction false} TakePlaceAll(xs: seq<real>, k: nat, ds: seq<real>)
    requires Ascending(xs)
    ensures Take(PlaceAll(Take(xs, k), ds), k) == Take(PlaceAll(xs, ds), k)
    decreases |ds|
  {
    if ds == [] {
    } else {
      var init, d := ds[..|ds| - 1], ds[|ds| - 1];
      TakePlaceAll(xs, k, init);
      PlaceAllAscends(xs, init);
      PlaceAllAscends(Take(xs, k), init);
      TakePlace(PlaceAll(xs, init), k, d);
      TakePlace(PlaceAll(Take(xs, k), init), k, d);
    }
  }

  /** Keeping only the `k` best so far loses nothing. */
  lemma BestAbsorbs(k: nat, ds: seq<real>, es: seq<real>)
    ensures Best(k, Best(k, ds) + es) == Best(k, ds + es)
  {
    hide PlaceAll, Ascending, Take;
    var s := PlaceAll([], ds);
    PlaceAllConcat([], ds, es);
    PlaceAllAscends([], ds);
    TakeAscends(s, k);
    TakePlaceAll(s, k, es);
    PlaceAllConcat([], Take(s, k), es);
    AscendingIsSorted(Take(s, k));
  }

  lemma TakeAscends(xs: seq<real>, k: nat)
    requires Ascending(xs)
    ensures Ascending([]) && Ascending(Take(xs, k))
  {
  }

  lemma {:induction false} AscendingIsSorted(xs: seq<real>)
    requires Ascending(xs)
    ensures PlaceAll([], xs) == xs
  {
    if xs != [] {
      var init, d := xs[..|xs| - 1], xs[|xs| - 1];
      AscendingIsSorted(init);
      assert init == [] || init[|init| - 1] <= d;
      hide Ascending;
      assert Place(init, d) == init + [d];
      assert xs == init + [d];
    }
  }

  /** A full list gains nothing from candidates no closer than its last. */
  lemma {:induction false} BestPrunes(k: nat, xs: seq<real>, ds: seq<real>)
    requires Ascending(xs) && |xs| == k && k > 0
    requires forall i :: 0 <= i < |ds| ==> xs[k - 1] <= ds[i]
    ensures Best(k, xs + ds) == xs
    decreases |ds|
  {
    AscendingIsSorted(xs);
    if ds == [] {
      assert xs + ds == xs;
    } else {
      var init, d := ds[..|ds| - 1], ds[|ds| - 1];
      BestPrunes(k, xs, init);
      assert Place(xs, d) == xs + [d];
      assert xs + ds == xs + init + [d];
      hide PlaceAll, Ascending, Place;
      PlaceLast(xs + init, d);
      PlaceAllAscends([], xs + init);
      TakePlace(PlaceAll([], xs + init), k, d);
    }
  }

  /** Ascending sequences of the same numbers are equal, so the order of the input is immaterial. */
  lemma {:induction false} AscendingUnique(xs: seq<real>, ys: seq<real>)
    requires Ascending(xs) && Ascending(ys) && multiset(xs) == multiset(ys)
    ensures xs == ys
    decreases |xs|
  {
    assert |multiset(xs)| == |xs| && |multiset(ys)| == |ys|;
    if xs != [] {
      LastIsGreatest(xs, ys);
      LastIsGreatest(ys, xs);
      LastAside(xs);
      LastAside(ys);
      var a := xs[|xs| - 1];
      CancelOne(multiset(xs[..|xs| - 1]), multiset(ys[..|ys| - 1]), a);
      AscendingUnique(xs[..|xs| - 1], ys[..|ys| - 1]);
      assert xs == xs[..|xs| - 1] + [a] && ys == ys[..|ys| - 1] + [a];
    }
  }

  lemma CancelOne(m: multiset<real>, n: multiset<real>, a: real)
    requires m + multiset{a} == n + multiset{a}
    ensures m == n
  {
    assert m == m + multiset{a} - multiset{a};
    assert n == n + multiset{a} - multiset{a};
  }

  lemma LastIsGreatest(xs: seq<real>, ys: seq<real>)
    requires xs != [] && ys != [] && Ascending(ys) && multiset(xs) == multiset(ys)
    ensures xs[|xs| - 1] <= ys[|ys| - 1]
  {
    assert xs[|xs| - 1] in multiset(ys);
    var i :| 0 <= i < |ys| && ys[i] == xs[|xs| - 1];
  }

  lemma BestIgnoresOrder(k: nat, ds: seq<real>, es: seq<real>)
    requires multiset(ds) == multiset(es)
    ensures Best(k, ds) == Best(k, es)
  {
    PlaceAllAscends([], ds);
    PlaceAllAscends([], es);
    PlaceAllKeepsAll([], ds);
    PlaceAllKeepsAll([], es);
    AscendingUnique(PlaceAll([], ds), PlaceAll([], es));
  }

  // ----- searching -----------------------------------------------------------------------------

  predicate TooFar(dist: real, radius: Option<real>) {
    radius.Some? && (radius.value < 0.0 || Square(radius.value) < dist)
  }

  /** What brute force would rank: every item within the radius, with its distance. */
  function Candidates<T>(target: Point, radius: Option<real>, items: seq<Item<T>>): seq<Found<T>> {
    if items == [] then []
    else
      var d := Dist(target, items[0].point);
      (if TooFar(d, radius) then [] else [Found(d, items[0].payload)]) + Candidates(target, radius, items[1..])
  }

  /** The squared distance of the theorem of Pythagoras. */
  predicate Apart(a: Point, b: Point, d: real) {
    d == (b.x - a.x) * (b.x - a.x) + (b.y - a.y) * (b.y - a.y)
  }

  /** Candidates are exactly the items within the radius, the border included; a negative radius holds none. */
  lemma {:induction false} CandidatesExactly<T>(target: Point, radius: Option<real>, items: seq<Item<T>>, f: Found<T>)
    ensures f in Candidates(target, radius, items) <==>
              && (radius.Some? ==> 0.0 <= radius.value && f.dist <= radius.value * radius.value)
              && exists i :: 0 <= i < |items| && items[i].payload == f.payload && Apart(target, items[i].point, f.dist)
  {
    if items != [] {
      var first, rest := items[0], items[1..];
      CandidatesExactly(target, radius, rest, f);
      DistIsApart(target, first.point, f.dist);
      hide Apart, Dist, Candidates;
      OneMoreCandidate(target, radius, items);
      assert items == [first] + rest;
      forall i | 0 <= i < |rest| ensures rest[i] == items[i + 1] {
      }
    }
  }

  lemma DistIsApart(a: Point, b: Point, d: real)
    ensures Apart(a, b, d) <==> d == Dist(a, b)
  {
    SquareEven(a.x - b.x);
    SquareEven(a.y - b.y);
  }

  lemma OneMoreCandidate<T>(target: Point, radius: Option<real>, items: seq<Item<T>>)
    requires items != []
    ensures var d := Dist(target, items[0].point);
            Candidates(target, radius, items)
              == (if radius.Some? && (radius.value < 0.0 || radius.value * radius.value < d) then []
                  else [Found(d, items[0].payload)]) + Candidates(target, radius, items[1..])
  {
  }

  function Dists<T>(fs: seq<Found<T>>): seq<real> {
    if fs == [] then [] else Dists(fs[..|fs| - 1]) + [fs[|fs| - 1].dist]
  }

  lemma {:induction false} DistsConcat<T>(fs: seq<Found<T>>, gs: seq<Found<T>>)
    ensures Dists(fs + gs) == Dists(fs) + Dists(gs)
    decreases |gs|
  {
    if gs == [] {
      assert fs + gs == fs;
    } else {
      assert (fs + gs)[..|fs + gs| - 1] == fs + gs[..|gs| - 1];
      DistsConcat(fs, gs[..|gs| - 1]);
    }
  }

  lemma {:induction false} DistsAt<T>(fs: seq<Found<T>>)
    ensures |Dists(fs)| == |fs| && forall i :: 0 <= i < |fs| ==> Dists(fs)[i] == fs[i].dist
  {
    if fs != [] {
      DistsAt(fs[..|fs| - 1]);
    }
  }

  lemma {:induction false} CandidatesConcat<T>(target: Point, radius: Option<real>, xs: seq<Item<T>>, ys: seq<Item<T>>)
    ensures Candidates(target, radius, xs + ys) == Candidates(target, radius, xs) + Candidates(target, radius, ys)
  {
    if xs == [] {
      assert xs + ys == ys;
    } else {
      assert (xs + ys)[1..] == xs[1..] + ys;
      CandidatesConcat(target, radius, xs[1..], ys);
    }
  }

  /** Every candidate lies at least as far off as the bound that its item obeys. */
  lemma {:induction false} CandidatesAtLeast<T>(target: Point, radius: Option<real>, items: seq<Item<T>>, bound: real)
    requires forall it :: it in items ==> bound <= Dist(target, it.point)
    ensures forall i :: 0 <= i < |Candidates(target, radius, items)| ==>
      bound <= Candidates(target, radius, items)[i].dist
  {
    if items != [] {
      assert items[0] in items;
      CandidatesAtLeast(target, radius, items[1..], bound);
    }
  }

  /** Equal multisets: the first of one is somewhere in the other, and the rests are equal again. */
  lemma MatchFirst<A>(xs: seq<A>, ys: seq<A>) returns (i: nat)
    requires xs != [] && multiset(xs) == multiset(ys)
    ensures i < |ys| && ys[i] == xs[0] && multiset(Without(xs, 0)) == multiset(Without(ys, i))
  {
    SameContents(xs, ys);
    assert xs[0] in ys;
    i :| 0 <= i < |ys| && ys[i] == xs[0];
    WithoutOne(xs, 0);
    WithoutOne(ys, i);
    CancelItem(multiset(Without(xs, 0)), multiset(Without(ys, i)), xs[0]);
  }

  lemma PullOut<T>(target: Point, radius: Option<real>, xs: seq<Item<T>>, i: nat)
    requires i < |xs|
    ensures multiset(Candidates(target, radius, xs))
         == multiset(Candidates(target, radius, [xs[i]])) + multiset(Candidates(target, radius, Without(xs, i)))
  {
    assert xs == xs[..i] + ([xs[i]] + xs[i + 1..]);
    CandidatesConcat(target, radius, xs[..i], [xs[i]] + xs[i + 1..]);
    CandidatesConcat(target, radius, [xs[i]], xs[i + 1..]);
    CandidatesConcat(target, radius, xs[..i], xs[i + 1..]);
  }

  /** The candidates depend on which items there are, not on their order. */
  lemma {:induction false} CandidatesPermute<T>(target: Point, radius: Option<real>, xs: seq<Item<T>>, ys: seq<Item<T>>)
    requires multiset(xs) == multiset(ys)
    ensures multiset(Candidates(target, radius, xs)) == multiset(Candidates(target, radius, ys))
    decreases |xs|
  {
    hide Candidates;
    SameLength(xs, ys);
    if xs == [] {
      assert ys == [];
    } else {
      var i := MatchFirst(xs, ys);
      CandidatesPermute(target, radius, Without(xs, 0), Without(ys, i));
      PullOut(target, radius, xs, 0);
      PullOut(target, radius, ys, i);
    }
  }

  lemma SameLength<A>(xs: seq<A>, ys: seq<A>)
    requires multiset(xs) == multiset(ys)
    ensures |xs| == |ys|
  {
    assert |multiset(xs)| == |xs| && |multiset(ys)| == |ys|;
  }

  lemma CancelItem<A>(m: multiset<A>, n: multiset<A>, a: A)
    requires multiset{a} + m == multiset{a} + n
    ensures m == n
  {
    assert m == multiset{a} + m - multiset{a};
    assert n == multiset{a} + n - multiset{a};
  }

  /** An axis distance never exceeds the distance. */
  lemma AcrossTheLine(target: Point, p: Point, q: Point, axis: nat)
    requires axis < 2
    requires if Along(target, axis) < Along(p, axis)
             then Along(p, axis) <= Along(q, axis) else Along(q, axis) <= Along(p, axis)
    ensures Square(Along(target, axis) - Along(p, axis)) <= Dist(target, q)
  {
    hide Square;
    var a, b := Along(target, axis) - Along(p, axis), Along(target, axis) - Along(q, axis);
    SquareEven(a);
    SquareEven(b);
    SquareEven(target.x - q.x);
    SquareEven(target.y - q.y);
    if a < 0.0 {
      SquareMono(-a, -b);
    } else {
      SquareMono(a, b);
    }
  }

  lemma SquareEven(a: real)
    ensures 0.0 <= Square(a) && Square(-a) == Square(a)
  {
  }

  lemma SquareMono(a: real, b: real)
    requires 0.0 <= a <= b
    ensures Square(a) <= Square(b)
  {
    assert Square(b) - Square(a) == (b - a) * (b + a);
  }

  // ----- the bounded list ------------------------------------------------------------------------

  function Key<T>(): Found<T> -> real {
    (f: Found<T>) => f.dist
  }

  /** What `nearest` keeps between two candidates: at most `k`, closest first. */
  ghost predicate Shortlist<T>(heap: seq<Found<T>>, k: nat) {
    |heap| <= k && Ascending(Dists(heap))
  }

  lemma {:induction false} InsertPlaces<T>(heap: seq<Found<T>>, f: Found<T>)
    ensures Dists(Sorting.Insert(heap, f, Sorting.ByKey(Key()))) == Place(Dists(heap), f.dist)
  {
    DistsAt(heap);
    if heap == [] || !Sorting.ByKey(Key())(f, heap[|heap| - 1]) {
      DistsConcat(heap, [f]);
    } else {
      var init, last := heap[..|heap| - 1], heap[|heap| - 1];
      InsertPlaces(init, f);
      DistsConcat(Sorting.Insert(init, f, Sorting.ByKey(Key())), [last]);
    }
  }

  lemma {:induction false} SortKeepsShortlist<T>(heap: seq<Found<T>>)
    requires Ascending(Dists(heap))
    ensures Sorting.StableSort(heap, Sorting.ByKey(Key())) == heap
  {
    DistsAt(heap);
    if heap != [] {
      var init, last := heap[..|heap| - 1], heap[|heap| - 1];
      DistsAt(init);
      SortKeepsShortlist(init);
      assert init == [] || init[|init| - 1].dist <= last.dist;
    }
  }

  lemma {:induction false} DistsTake<T>(fs: seq<Found<T>>, k: nat)
    ensures Dists(if k < |fs| then fs[..k] else fs) == Take(Dists(fs), k)
  {
    DistsAt(fs);
    if k < |fs| {
      DistsAt(fs[..k]);
    }
  }

  lemma OneCandidate<T>(target: Point, radius: Option<real>, it: Item<T>)
    ensures var f := Found(Dist(target, it.point), it.payload);
            Candidates(target, radius, [it]) == if TooFar(f.dist, radius) then [] else [f]
  {
  }

  /** Sorting in one more candidate puts its distance in its place. */
  lemma AppendSorts<T>(heap: seq<Found<T>>, f: Found<T>)
    requires Ascending(Dists(heap))
    ensures var s := Sorting.StableSort(heap + [f], Sorting.ByKey(Key()));
            && Dists(s) == PlaceAll([], Dists(heap) + [f.dist]) && Ascending(Dists(s))
            && multiset(s) == multiset(heap) + multiset{f}
  {
    var less := Sorting.ByKey(Key<T>());
    SortAppended(heap, f);
    hide Sorting.StableSort, Sorting.Insert, Dists, Ascending, Place;
    InsertPlaces(heap, f);
    Sorting.InsertKeepsAll(heap, f, less);
    AscendingIsSorted(Dists(heap));
    PlaceAscends(Dists(heap), f.dist);
    PlaceLast(Dists(heap), f.dist);
  }

  lemma SortAppended<T>(heap: seq<Found<T>>, f: Found<T>)
    requires Ascending(Dists(heap))
    ensures var less := Sorting.ByKey(Key<T>());
            Sorting.StableSort(heap + [f], less) == Sorting.Insert(heap, f, less)
  {
    hide Dists, Ascending, Sorting.Insert;
    assert (heap + [f])[..|heap|] == heap;
    SortKeepsShortlist(heap);
  }

  lemma PlaceLast(ds: seq<real>, d: real)
    ensures PlaceAll([], ds + [d]) == Place(PlaceAll([], ds), d)
  {
    assert (ds + [d])[..|ds|] == ds;
  }

  /** Dropping what is beyond the `k`-th. */
  lemma DropBeyond<T>(s: seq<Found<T>>, k: nat)
    requires Ascending(Dists(s))
    ensures var s' := if k < |s| then s[..k] else s;
            Shortlist(s', k) && Dists(s') == Take(Dists(s), k) && multiset(s') <= multiset(s)
  {
    hide Dists;
    DistsAt(s);
    DistsTake(s, k);
    if k < |s| {
      assert s == s[..k] + s[k..];
    }
  }

  /** Sorting in one more candidate and dropping what is beyond the `k`-th. */
  lemma AppendSortDrop<T>(heap: seq<Found<T>>, k: nat, f: Found<T>)
    requires Shortlist(heap, k)
    ensures var s := Sorting.StableSort(heap + [f], Sorting.ByKey(Key()));
            var s' := if k < |s| then s[..k] else s;
            && Shortlist(s', k) && Dists(s') == Best(k, Dists(heap) + [f.dist])
            && multiset(s') <= multiset(heap) + multiset{f}
  {
    hide Sorting.StableSort, Dists, Ascending, PlaceAll, Take;
    AppendSorts(heap, f);
    DropBeyond(Sorting.StableSort(heap + [f], Sorting.ByKey(Key<T>())), k);
  }

  /** A shortlist is the best of itself. */
  lemma ShortlistIsBest<T>(heap: seq<Found<T>>, k: nat)
    requires Shortlist(heap, k)
    ensures Dists(heap) == Best(k, Dists(heap) + [])
  {
    DistsAt(heap);
    AscendingIsSorted(Dists(heap));
    assert Dists(heap) + [] == Dists(heap);
  }

  /** Appends a candidate, sorts, and drops what is beyond the `k`-th. */
  method Consider<T>(heap0: seq<Found<T>>, k: nat, target: Point, radius: Option<real>, it: Item<T>)
    returns (heap: seq<Found<T>>)
    requires Shortlist(heap0, k)
    ensures Shortlist(heap, k)
    ensures Dists(heap) == Best(k, Dists(heap0) + Dists(Candidates(target, radius, [it])))
    ensures multiset(heap) <= multiset(heap0) + multiset(Candidates(target, radius, [it]))
  {
    var f := Found(Dist(target, it.point), it.payload);
    OneCandidate(target, radius, it);
    DistsAt(Candidates(target, radius, [it]));
    if TooFar(f.dist, radius) {
      ShortlistIsBest(heap0, k);
      return heap0;
    }
    heap := Sorting.StableSort(heap0 + [f], Sorting.ByKey(Key()));
    AppendSortDrop(heap0, k, f);
    assert Dists(Candidates(target, radius, [it])) == [f.dist];
    if k < |heap| {
      heap := heap[..k];
    }
  }

  /** The near side first, then the far side or nothing: the list ends up the same. */
  lemma SearchOrder(k: nat, start: seq<real>, own: seq<real>, near: seq<real>, far: seq<real>)
    ensures Best(k, Best(k, Best(k, start + own) + near) + far) == Best(k, start + (own + near + far))
    ensures Best(k, start + (own + near + far)) == Best(k, start + (own + far + near))
  {
    BestAbsorbs(k, start + own, near);
    BestAbsorbs(k, start + own + near, far);
    assert start + own + near + far == start + (own + near + far);
    BestIgnoresOrder(k, start + (own + near + far), start + (own + far + near));
  }

  ghost predicate NoneBelow(ds: seq<real>, bound: real) {
    forall i :: 0 <= i < |ds| ==> bound <= ds[i]
  }

  /** A subtree beyond the splitting line holds nothing closer than the line itself. */
  lemma FarSideIsFar<T>(t: Tree<T>, target: Point, radius: Option<real>)
    requires t.Node? && Split(t)
    ensures var delta := Along(target, t.axis) - Along(t.item.point, t.axis);
            var far := Contents(if delta < 0.0 then t.right else t.left);
            NoneBelow(Dists(Candidates(target, radius, far)), Square(delta))
  {
    var delta := Along(target, t.axis) - Along(t.item.point, t.axis);
    var far := Contents(if delta < 0.0 then t.right else t.left);
    forall it | it in far ensures Square(delta) <= Dist(target, it.point) {
      AcrossTheLine(target, t.item.point, it.point, t.axis);
    }
    CandidatesAtLeast(target, radius, far, Square(delta));
    DistsAt(Candidates(target, radius, far));
  }

  /** Skipping the far side is as good as searching it. */
  lemma SkipFar<T>(t: Tree<T>, target: Point, k: nat, radius: Option<real>, heap: seq<Found<T>>)
    requires t.Node? && Split(t) && Shortlist(heap, k) && 0 < k <= |heap|
    requires heap[|heap| - 1].dist <= Square(Along(target, t.axis) - Along(t.item.point, t.axis))
    ensures var delta := Along(target, t.axis) - Along(t.item.point, t.axis);
            var far := if delta < 0.0 then t.right else t.left;
            Dists(heap) == Best(k, Dists(heap) + Dists(Candidates(target, radius, Contents(far))))
  {
    var delta := Along(target, t.axis) - Along(t.item.point, t.axis);
    var far := if delta < 0.0 then t.right else t.left;
    var line, ds := Square(delta), Dists(Candidates(target, radius, Contents(far)));
    DistsAt(heap);
    FarSideIsFar(t, target, radius);
    assert Dists(heap)[k - 1] <= line;
    assert NoneBelow(ds, line);
    BestPrunes(k, Dists(heap), ds);
  }

  /** Visits a subtree, near side first, crossing the splitting line only if that could help. */
  method Search<T>(t: Tree<T>, target: Point, k: nat, radius: Option<real>, heap0: seq<Found<T>>)
    returns (heap: seq<Found<T>>)
    requires k > 0 && Split(t) && Shortlist(heap0, k)
    ensures Shortlist(heap, k)
    ensures Dists(heap) == Best(k, Dists(heap0) + Dists(Candidates(target, radius, Contents(t))))
    ensures multiset(heap) <= multiset(heap0) + multiset(Candidates(target, radius, Contents(t)))
    decreases t
  {
    hide Best, Dists, Candidates, Shortlist;
    if t.Leaf? {
      ShortlistIsBest(heap0, k);
      NoCandidates<T>(target, radius);
      return heap0;
    }
    heap := Consider(heap0, k, target, radius, t.item);
    var delta := Along(target, t.axis) - Along(t.item.point, t.axis);
    var near, far := if delta < 0.0 then t.left else t.right, if delta < 0.0 then t.right else t.left;
    heap := Search(near, target, k, radius, heap);
    if |heap| < k || Square(delta) < heap[|heap| - 1].dist {
      heap := Search(far, target, k, radius, heap);
    } else {
      SkipFar(t, target, k, radius, heap);
    }
    NodeCandidates(target, radius, t);
    SearchOrder(k, Dists(heap0), Dists(Candidates(target, radius, [t.item])),
                Dists(Candidates(target, radius, Contents(near))), Dists(Candidates(target, radius, Contents(far))));
  }

  lemma NoCandidates<T>(target: Point, radius: Option<real>)
    ensures Dists(Candidates<T>(target, radius, [])) == []
  {
  }

  lemma NodeCandidates<T>(target: Point, radius: Option<real>, t: Tree<T>)
    requires t.Node?
    ensures var own, cl, cr := Candidates(target, radius, [t.item]), Candidates(target, radius, Contents(t.left)),
                               Candidates(target, radius, Contents(t.right));
            && Candidates(target, radius, Contents(t)) == own + cl + cr
            && Dists(Candidates(target, radius, Contents(t))) == Dists(own) + Dists(cl) + Dists(cr)
  {
    var own, cl, cr := Candidates(target, radius, [t.item]), Candidates(target, radius, Contents(t.left)),
                       Candidates(target, radius, Contents(t.right));
    CandidatesConcat(target, radius, [t.item] + Contents(t.left), Contents(t.right));
    CandidatesConcat(target, radius, [t.item], Contents(t.left));
    DistsConcat(own + cl, cr);
    DistsConcat(own, cl);
  }

  /**
   Agreement with brute force, for any items, `k` and radius: the distances are those of
   the first `k` of the full ranking, and each entry is an item at its own distance.
   */
  method Nearest<T(!new)>(ghost items: seq<Item<T>>, root: Tree<T>, target: Point, k: nat, radius: Option<real>)
    returns (heap: seq<Found<T>>)
    requires k > 0 && root == Build(items, 0)
    ensures Dists(heap) == Best(k, Dists(Candidates(target, radius, items)))
    ensures Ascending(Dists(heap)) && |heap| <= k
    ensures multiset(heap) <= multiset(Candidates(target, radius, items))
  {
    BuildSplits(items, 0);
    BuildHoldsAll(items, 0);
    heap := Search(root, target, k, radius, []);
    ghost var cs := Candidates(target, radius, Contents(root));
    assert [] + Dists(cs) == Dists(cs);
    CandidatesPermute(target, radius, Contents(root), items);
    DistsPermute(cs, Candidates(target, radius, items));
    BestIgnoresOrder(k, Dists(cs), Dists(Candidates(target, radius, items)));
  }

  lemma {:induction false} DistsPermute<T>(fs: seq<Found<T>>, gs: seq<Found<T>>)
    requires multiset(fs) == multiset(gs)
    ensures multiset(Dists(fs)) == multiset(Dists(gs))
    decreases |fs|
  {
    hide Dists;
    SameLength(fs, gs);
    if fs == [] {
      assert gs == [];
    } else {
      var i := MatchFirst(fs, gs);
      DistsPermute(Without(fs, 0), Without(gs, i));
      DistsPull(fs, 0);
      DistsPull(gs, i);
    }
  }

  lemma DistsPull<T>(gs: seq<Found<T>>, i: nat)
    requires i < |gs|
    ensures multiset(Dists(gs)) == multiset(Dists(Without(gs, i))) + multiset{gs[i].dist}
  {
    hide Dists;
    var a, b := gs[..i], gs[i + 1..];
    assert gs == a + ([gs[i]] + b);
    DistsMiddle(a, gs[i], b);
  }

  lemma DistsMiddle<T>(a: seq<Found<T>>, f: Found<T>, b: seq<Found<T>>)
    ensures multiset(Dists(a + ([f] + b))) == multiset(Dists(a + b)) + multiset{f.dist}
  {
    OneDist(f);
    hide Dists;
    DistsConcat(a, [f] + b);
    DistsConcat([f], b);
    DistsConcat(a, b);
  }

  lemma OneDist<T>(f: Found<T>)
    ensures Dists([f]) == [f.dist]
  {
  }
}
