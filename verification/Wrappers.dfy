/** Optional values (the source's `None`), and small facts and functions that several modules share. */
module Wrappers {
  datatype Option<+T> = None | Some(value: T)

  type Coord = (real, real)

  function Max(a: real, b: real): real {
    if a < b then b else a
  }

  function Min(a: real, b: real): real {
    if b < a then b else a
  }

  function Larger(a: int, b: int): int {
    if a < b then b else a
  }

  function Smaller(a: int, b: int): int {
    if b < a then b else a
  }

  /** Any rounding to whole units that is monotone and at most half a unit off. */
  ghost predicate Rounds(round: real -> int) {
    && (forall x, y :: x <= y ==> round(x) <= round(y))
    && forall x :: -0.5 <= round(x) as real - x <= 0.5
  }

  /** Python's `int`: towards zero. */
  function Trunc(x: real): int {
    if 0.0 <= x then x.Floor else -((-x).Floor)
  }

  lemma SomeMember(s: set<int>)
    ensures s == {} || exists n :: n in s
  {
    if forall n :: n !in s {
      assert s == {};
    }
  }

  lemma CommonMember(a: set<int>, b: set<int>)
    ensures a !! b || exists n :: n in a && n in b
  {
    if forall n :: !(n in a && n in b) {
      assert a !! b;
    }
  }

  lemma HeadAside<T>(s: seq<T>)
    requires s != []
    ensures multiset(s) == multiset{s[0]} + multiset(s[1..])
  {
    assert s == [s[0]] + s[1..];
  }

  lemma LastAside<T>(s: seq<T>)
    requires s != []
    ensures multiset(s) == multiset(s[..|s| - 1]) + multiset{s[|s| - 1]}
  {
    assert s == s[..|s| - 1] + [s[|s| - 1]];
  }

  function Without<T>(s: seq<T>, j: nat): seq<T>
    requires j < |s|
  {
    s[..j] + s[j + 1..]
  }

  lemma WithoutOne<T>(s: seq<T>, j: nat)
    requires j < |s|
    ensures multiset(Without(s, j)) == multiset(s) - multiset{s[j]}
    ensures multiset(s) == multiset(Without(s, j)) + multiset{s[j]}
  {
    assert s == s[..j] + [s[j]] + s[j + 1..];
    Around(s[..j], s[j], s[j + 1..]);
    assert multiset(Without(s, j)) + multiset{s[j]} - multiset{s[j]} == multiset(Without(s, j));
  }

  lemma Around<T>(a: seq<T>, x: T, b: seq<T>)
    ensures multiset(a + [x] + b) == multiset(a + b) + multiset{x}
  {
  }
}
