/** Values shared by the components: optional and fallible results, and the
    "in-order subsequence" relation used to speak about lossy streams. */
module Common {

  datatype Option<+T> = None | Some(value: T)

  datatype Result<+T, +E> = Success(value: T) | Failure(error: E)

  /** Instants and durations, in nanoseconds. */
  type Time = nat

  const MILLISECOND: Time := 1_000_000
  const SECOND: Time := 1_000_000_000

  function Max(a: int, b: int): int {
    if a < b then b else a
  }

  function Min(a: int, b: int): int {
    if a < b then a else b
  }

  /** `a` is what is left of `b` after deleting some elements. */
  ghost predicate Subsequence<T>(a: seq<T>, b: seq<T>)
    decreases |b|
  {
    || a == []
    || (|b| > 0 && |a| > 0 && a[0] == b[0] && Subsequence(a[1..], b[1..]))
    || (|b| > 0 && Subsequence(a, b[1..]))
  }

  lemma {:induction false} SubsequenceSelf<T>(a: seq<T>)
    ensures Subsequence(a, a)
  {
    if a != [] {
      SubsequenceSelf(a[1..]);
    }
  }

  /** Streams may be cut into stretches: subsequences concatenate. */
  lemma {:induction false} SubsequenceConcat<T>(a: seq<T>, b: seq<T>, c: seq<T>, d: seq<T>)
    requires Subsequence(a, b) && Subsequence(c, d)
    ensures Subsequence(a + c, b + d)
    decreases |b|
  {
    if b == [] {
      assert a + c == c && b + d == d;
    } else if |a| > 0 && a[0] == b[0] && Subsequence(a[1..], b[1..]) {
      SubsequenceConcat(a[1..], b[1..], c, d);
      assert (a + c)[1..] == a[1..] + c && (b + d)[1..] == b[1..] + d;
    } else {
      SubsequenceConcat(a, b[1..], c, d);
      assert (b + d)[1..] == b[1..] + d;
    }
  }

  lemma {:induction false} SubsequenceMember<T>(a: seq<T>, b: seq<T>, x: T)
    requires Subsequence(a, b) && x in a
    ensures x in b
    decreases |b|
  {
    if |b| > 0 && a[0] == b[0] && Subsequence(a[1..], b[1..]) {
      if x != a[0] {
        assert x in a[1..];
        SubsequenceMember(a[1..], b[1..], x);
      }
    } else {
      SubsequenceMember(a, b[1..], x);
    }
  }

  function Flatten<T>(xs: seq<seq<T>>): seq<T> {
    if xs == [] then [] else xs[0] + Flatten(xs[1..])
  }

  lemma {:induction false} FlattenConcat<T>(xs: seq<seq<T>>, ys: seq<seq<T>>)
    ensures Flatten(xs + ys) == Flatten(xs) + Flatten(ys)
  {
    if xs == [] {
      assert xs + ys == ys;
    } else {
      FlattenConcat(xs[1..], ys);
      assert (xs + ys)[1..] == xs[1..] + ys && (xs + ys)[0] == xs[0];
      assert xs[0] + (Flatten(xs[1..]) + Flatten(ys)) == (xs[0] + Flatten(xs[1..])) + Flatten(ys);
    }
  }

  lemma {:induction false} FlattenSubsequence<T>(xs: seq<seq<T>>, ys: seq<seq<T>>)
    requires Subsequence(xs, ys)
    ensures Subsequence(Flatten(xs), Flatten(ys))
    decreases |ys|
  {
    if xs == [] {
    } else if xs[0] == ys[0] && Subsequence(xs[1..], ys[1..]) {
      FlattenSubsequence(xs[1..], ys[1..]);
      SubsequenceSelf(xs[0]);
      SubsequenceConcat(xs[0], ys[0], Flatten(xs[1..]), Flatten(ys[1..]));
    } else {
      FlattenSubsequence(xs, ys[1..]);
      SubsequenceConcat([], ys[0], Flatten(xs), Flatten(ys[1..]));
      assert [] + Flatten(xs) == Flatten(xs);
    }
  }

  /** The elements that pass the test, in order. */
  ghost function Filter<T>(keep: T -> bool, xs: seq<T>): seq<T> {
    if xs == [] then [] else (if keep(xs[0]) then [xs[0]] else []) + Filter(keep, xs[1..])
  }

  lemma {:induction false} FilterConcat<T>(keep: T -> bool, a: seq<T>, b: seq<T>)
    ensures Filter(keep, a + b) == Filter(keep, a) + Filter(keep, b)
  {
    if a == [] {
      assert a + b == b;
    } else {
      FilterConcat(keep, a[1..], b);
      assert (a + b)[1..] == a[1..] + b && (a + b)[0] == a[0];
    }
  }

  /** The order in which a hash map or hash set is walked: every element of
      `members` once, in some order. */
  ghost predicate Enumerates<T(!new)>(order: seq<T>, members: set<T>) {
    && (forall x :: x in order <==> x in members)
    && (forall i, j :: 0 <= i < j < |order| ==> order[i] != order[j])
  }

  lemma SubsetSize<T>(a: set<T>, b: set<T>)
    requires a <= b
    ensures |a| <= |b|
  {
    assert b == a + (b - a);
  }
}
