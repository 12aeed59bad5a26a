/** Lists built by joining a piece per element, and steps taken one after the other. */
module Seqs {

  /** `q` without its k-th element. */
  function Cut<T>(q: seq<T>, k: nat): seq<T>
    requires k < |q|
  {
    q[..k] + q[k + 1..]
  }

  function FlatMap<T, U>(f: T -> seq<U>, xs: seq<T>): seq<U> {
    if xs == [] then [] else f(xs[0]) + FlatMap(f, xs[1..])
  }

  lemma {:induction false} FlatMapSplits<T, U>(f: T -> seq<U>, a: seq<T>, b: seq<T>)
    ensures FlatMap(f, a + b) == FlatMap(f, a) + FlatMap(f, b)
  {
    if a == [] {
      assert a + b == b;
    } else {
      assert (a + b)[1..] == a[1..] + b;
      FlatMapSplits(f, a[1..], b);
      Associate(f(a[0]), FlatMap(f, a[1..]), FlatMap(f, b));
    }
  }

  lemma Associate<U>(x: seq<U>, y: seq<U>, z: seq<U>)
    ensures x + (y + z) == x + y + z
  {
  }

  lemma FlatMapOne<T, U>(f: T -> seq<U>, x: T)
    ensures FlatMap(f, [x]) == f(x)
  {
    assert [x][1..] == [];
  }

  /** Replacing one element replaces its piece. */
  lemma FlatMapAt<T, U>(f: T -> seq<U>, a: seq<T>, x: T, b: seq<T>)
    ensures FlatMap(f, a + [x] + b) == FlatMap(f, a) + f(x) + FlatMap(f, b)
  {
    FlatMapSplits(f, a + [x], b);
    FlatMapSplits(f, a, [x]);
    FlatMapOne(f, x);
  }

  lemma {:induction false} NoPieces<T, U>(f: T -> seq<U>, xs: seq<T>)
    requires forall j :: 0 <= j < |xs| ==> f(xs[j]) == []
    ensures FlatMap(f, xs) == []
  {
    if xs == [] {
    } else {
      NoPieces(f, xs[1..]);
    }
  }

  lemma Regroup<U>(a: seq<U>, b: seq<U>, c: seq<U>, d: seq<U>)
    ensures (a + b) + c + d == a + (b + c + d)
  {
  }

  /** The first element's piece comes first. */
  lemma FlatMapCons<T, U>(f: T -> seq<U>, x: T, xs: seq<T>)
    ensures FlatMap(f, [x] + xs) == f(x) + FlatMap(f, xs)
  {
  }

  /** What is in the list is in the piece of some element, and conversely. */
  lemma {:induction false} FlatMapHas<T, U>(f: T -> seq<U>, xs: seq<T>, y: U)
    ensures y in FlatMap(f, xs) <==> exists i :: 0 <= i < |xs| && y in f(xs[i])
  {
    if xs == [] {
    } else {
      FlatMapHas(f, xs[1..], y);
      assert forall i :: 0 < i < |xs| ==> xs[i] == xs[1..][i - 1];
    }
  }

  /** The value after the given steps. */
  function Fold<S, I>(f: (S, I) -> S, x: S, steps: seq<I>): S {
    if steps == [] then x else f(Fold(f, x, steps[..|steps| - 1]), steps[|steps| - 1])
  }

  lemma FoldOne<S, I>(f: (S, I) -> S, x: S, i: I)
    ensures Fold(f, x, [i]) == f(x, i)
  {
    assert [i][..0] == [];
  }

  lemma {:induction false} FoldJoins<S, I>(f: (S, I) -> S, x: S, a: seq<I>, b: seq<I>)
    ensures Fold(f, x, a + b) == Fold(f, Fold(f, x, a), b)
  {
    if b == [] {
      assert a + b == a;
    } else {
      assert (a + b)[..|a + b| - 1] == a + b[..|b| - 1];
      FoldJoins(f, x, a, b[..|b| - 1]);
    }
  }

  lemma {:induction false} FoldKeeps<S(!new), I(!new)>(f: (S, I) -> S, p: S -> bool, x: S, steps: seq<I>)
    requires p(x) && forall y, i :: p(y) ==> p(f(y, i))
    ensures p(Fold(f, x, steps))
  {
    if steps == [] {
    } else {
      FoldKeeps(f, p, x, steps[..|steps| - 1]);
    }
  }

  function Repeated<T>(f: T -> T, x: T, n: nat): T {
    if n == 0 then x else f(Repeated(f, x, n - 1))
  }

  lemma {:induction false} RepeatedKeeps<T(!new)>(f: T -> T, p: T -> bool, x: T, n: nat)
    requires p(x) && forall y :: p(y) ==> p(f(y))
    ensures p(Repeated(f, x, n))
  {
    if n == 0 {
    } else {
      RepeatedKeeps(f, p, x, n - 1);
    }
  }
}
