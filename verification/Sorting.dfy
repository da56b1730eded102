/**
 Stable sorting by a comparison `less`, as Python's `list.sort` does it, and the
 fact that its outcome is unique.
 */
module Sorting {
  ghost predicate WeakOrder<T(!new)>(less: (T, T) -> bool) {
    && (forall a, b :: less(a, b) ==> !less(b, a))
    && (forall a, b, c :: less(a, b) ==> less(a, c) || less(c, b))
  }

  ghost predicate Sorted<T>(xs: seq<T>, less: (T, T) -> bool) {
    forall i, j :: 0 <= i < j < |xs| ==> !less(xs[j], xs[i])
  }

  function Same<T>(less: (T, T) -> bool, a: T, b: T): bool {
    !less(a, b) && !less(b, a)
  }

  /** The elements that compare equal to `k`, in their order. */
  function Class<T>(xs: seq<T>, less: (T, T) -> bool, k: T): seq<T> {
    if xs == [] then []
    else (if Same(less, xs[0], k) then [xs[0]] else []) + Class(xs[1..], less, k)
  }

  /** `out` is `xs` in order, with elements that compare equal in the order they came. */
  ghost predicate StablySorts<T(!new)>(xs: seq<T>, out: seq<T>, less: (T, T) -> bool) {
    && Sorted(out, less) && multiset(out) == multiset(xs)
    && forall k :: Class(out, less, k) == Class(xs, less, k)
  }

  lemma {:induction false} ClassConcat<T>(xs: seq<T>, ys: seq<T>, less: (T, T) -> bool, k: T)
    ensures Class(xs + ys, less, k) == Class(xs, less, k) + Class(ys, less, k)
  {
    if xs == [] {
      assert xs + ys == ys;
    } else {
      var zs := xs + ys;
      var head := if Same(less, xs[0], k) then [xs[0]] else [];
      assert zs[0] == xs[0] && zs[1..] == xs[1..] + ys;
      ClassConcat(xs[1..], ys, less, k);
      assert head + (Class(xs[1..], less, k) + Class(ys, less, k))
        == head + Class(xs[1..], less, k) + Class(ys, less, k);
    }
  }

  lemma {:induction false} ClassHasMember<T>(xs: seq<T>, less: (T, T) -> bool, k: T, i: nat)
    requires i < |xs| && Same(less, xs[i], k)
    ensures Class(xs, less, k) != []
  {
    if i > 0 {
      ClassHasMember(xs[1..], less, k, i - 1);
    }
  }

  lemma {:induction false} ClassFromMember<T>(xs: seq<T>, less: (T, T) -> bool, k: T) returns (i: nat)
    requires Class(xs, less, k) != []
    ensures i < |xs| && Same(less, xs[i], k)
  {
    if Same(less, xs[0], k) {
      i := 0;
    } else {
      i := ClassFromMember(xs[1..], less, k);
      i := i + 1;
    }
  }

  lemma SomeClass<T(!new)>(xs: seq<T>, less: (T, T) -> bool)
    requires WeakOrder(less)
    ensures xs != [] ==> exists k :: Class(xs, less, k) != []
  {
    if xs != [] {
      ClassHasMember(xs, less, xs[0], 0);
    }
  }

  /** Sorted sequences with the same classes are the same sequence. */
  lemma {:induction false} SortedByClassesUnique<T(!new)>(xs: seq<T>, ys: seq<T>, less: (T, T) -> bool)
    requires WeakOrder(less) && Sorted(xs, less) && Sorted(ys, less)
    requires forall k :: Class(xs, less, k) == Class(ys, less, k)
    ensures xs == ys
    decreases |xs|
  {
    if xs == [] {
      SomeClass(ys, less);
    } else {
      ClassHasMember(xs, less, xs[0], 0);
      var i := ClassFromMember(ys, less, xs[0]);
      ClassHasMember(ys, less, ys[0], 0);
      var j := ClassFromMember(xs, less, ys[0]);
      assert Same(less, xs[0], ys[0]);
      assert Class(xs, less, xs[0])[0] == xs[0];
      assert Class(ys, less, xs[0])[0] == ys[0];
      forall k ensures Class(xs[1..], less, k) == Class(ys[1..], less, k) {
        var head := if Same(less, xs[0], k) then [xs[0]] else [];
        assert Class(xs, less, k) == head + Class(xs[1..], less, k);
        assert Class(ys, less, k) == head + Class(ys[1..], less, k);
        assert Class(xs, less, k)[|head|..] == Class(xs[1..], less, k);
        assert Class(ys, less, k)[|head|..] == Class(ys[1..], less, k);
      }
      SortedByClassesUnique(xs[1..], ys[1..], less);
      assert xs == [xs[0]] + xs[1..] && ys == [ys[0]] + ys[1..];
    }
  }

  /** A stable sort has only one possible outcome. */
  lemma StableSortUnique<T(!new)>(xs: seq<T>, ys: seq<T>, zs: seq<T>, less: (T, T) -> bool)
    requires WeakOrder(less) && StablySorts(xs, ys, less) && StablySorts(xs, zs, less)
    ensures ys == zs
  {
    SortedByClassesUnique(ys, zs, less);
  }

  // ----- a stable sort ------------------------------------------------------------------

  /** Inserts `x` behind everything it is not less than. */
  function Insert<T>(xs: seq<T>, x: T, less: (T, T) -> bool): seq<T> {
    if xs == [] || !less(x, xs[|xs| - 1]) then xs + [x]
    else Insert(xs[..|xs| - 1], x, less) + [xs[|xs| - 1]]
  }

  function StableSort<T>(xs: seq<T>, less: (T, T) -> bool): seq<T> {
    if xs == [] then [] else Insert(StableSort(xs[..|xs| - 1], less), xs[|xs| - 1], less)
  }

  lemma {:induction false} InsertKeepsAll<T>(xs: seq<T>, x: T, less: (T, T) -> bool)
    ensures multiset(Insert(xs, x, less)) == multiset(xs) + multiset{x}
  {
    if xs != [] && less(x, xs[|xs| - 1]) {
      InsertKeepsAll(xs[..|xs| - 1], x, less);
      assert xs == xs[..|xs| - 1] + [xs[|xs| - 1]];
    }
  }

  lemma {:induction false} InsertSorts<T(!new)>(xs: seq<T>, x: T, less: (T, T) -> bool)
    requires WeakOrder(less) && Sorted(xs, less)
    ensures Sorted(Insert(xs, x, less), less)
  {
    if xs != [] && less(x, xs[|xs| - 1]) {
      var init, last := xs[..|xs| - 1], xs[|xs| - 1];
      InsertSorts(init, x, less);
      InsertKeepsAll(init, x, less);
      forall y | y in Insert(init, x, less) ensures !less(last, y) {
        assert y in multiset(init) + multiset{x};
        if y != x {
          assert y in init;
        }
      }
    } else if xs != [] {
      forall i | 0 <= i < |xs| ensures !less(x, xs[i]) {
        assert i < |xs| - 1 ==> !less(xs[|xs| - 1], xs[i]);
      }
    }
  }

  /** An inserted element passes only elements of other classes. */
  lemma {:induction false} InsertKeepsClasses<T(!new)>(xs: seq<T>, x: T, less: (T, T) -> bool, k: T)
    requires WeakOrder(less)
    ensures Class(Insert(xs, x, less), less, k) == Class(xs, less, k) + Class([x], less, k)
  {
    if xs != [] && less(x, xs[|xs| - 1]) {
      var init, last := xs[..|xs| - 1], xs[|xs| - 1];
      InsertKeepsClasses(init, x, less, k);
      ClassConcat(Insert(init, x, less), [last], less, k);
      ClassConcat(init, [last], less, k);
      assert xs == init + [last];
      assert Class([last], less, k) == [] || Class([x], less, k) == [];
    } else {
      ClassConcat(xs, [x], less, k);
    }
  }

  lemma {:induction false} StableSortSorts<T(!new)>(xs: seq<T>, less: (T, T) -> bool)
    requires WeakOrder(less)
    ensures StablySorts(xs, StableSort(xs, less), less)
  {
    if xs != [] {
      var init, last := xs[..|xs| - 1], xs[|xs| - 1];
      StableSortSorts(init, less);
      var s := StableSort(init, less);
      InsertSorts(s, last, less);
      InsertKeepsAll(s, last, less);
      assert xs == init + [last];
      forall k ensures Class(Insert(s, last, less), less, k) == Class(xs, less, k) {
        InsertKeepsClasses(s, last, less, k);
        ClassConcat(init, [last], less, k);
      }
    }
  }

  // ----- comparing by a real key -----------------------------------------------------------

  function ByKey<T>(key: T -> real): (T, T) -> bool {
    (a, b) => key(a) < key(b)
  }

  lemma ByKeyIsWeakOrder<T(!new)>(key: T -> real)
    ensures WeakOrder(ByKey(key))
  {
  }

  lemma {:induction false} StableSortKeepsAll<T>(xs: seq<T>, less: (T, T) -> bool)
    ensures multiset(StableSort(xs, less)) == multiset(xs) && |StableSort(xs, less)| == |xs|
  {
    if xs != [] {
      var init, last := xs[..|xs| - 1], xs[|xs| - 1];
      StableSortKeepsAll(init, less);
      InsertKeepsAll(StableSort(init, less), last, less);
      assert xs == init + [last];
      assert |multiset(StableSort(xs, less))| == |multiset(xs)|;
    }
  }

  lemma SortedByKey<T(!new)>(xs: seq<T>, key: T -> real)
    ensures var s := StableSort(xs, ByKey(key));
            forall i, j :: 0 <= i < j < |s| ==> key(s[i]) <= key(s[j])
  {
    ByKeyIsWeakOrder(key);
    StableSortSorts(xs, ByKey(key));
    var s := StableSort(xs, ByKey(key));
    forall i, j | 0 <= i < j < |s| ensures key(s[i]) <= key(s[j]) {
      assert !ByKey(key)(s[j], s[i]);
    }
  }
}
