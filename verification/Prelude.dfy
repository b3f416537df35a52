/** Small shared types. */
module Prelude {
  datatype Option<+T> = None | Some(value: T)

  type Token = int

  /** Python's `xs[:n]` for n >= 0: a slice that stops at the end of the list. */
  function Take<T>(xs: seq<T>, n: nat): (r: seq<T>)
    ensures r <= xs
    ensures |r| == if n <= |xs| then n else |xs|
  {
    if n <= |xs| then xs[..n] else xs
  }

  predicate OccursAt<T(==)>(text: seq<T>, s: seq<T>, p: int) {
    0 <= p && p + |s| <= |text| && text[p..p + |s|] == s
  }

  ghost predicate Distinct<T>(xs: seq<T>) {
    forall i, j :: 0 <= i < j < |xs| ==> xs[i] != xs[j]
  }

  /** Where `x` first occurs. */
  function Position<T(==)>(xs: seq<T>, x: T): (k: nat)
    requires x in xs
    ensures k < |xs| && xs[k] == x
  {
    if xs[0] == x then 0 else 1 + Position(xs[1..], x)
  }

  /** The sequence without its first occurrence of `x`. */
  function Removed<T(==)>(xs: seq<T>, x: T): seq<T> {
    if xs == [] then [] else if xs[0] == x then xs[1..] else [xs[0]] + Removed(xs[1..], x)
  }

  lemma {:induction false} RemovedIs<T>(xs: seq<T>, k: nat)
    requires Distinct(xs) && k < |xs|
    ensures Removed(xs, xs[k]) == xs[..k] + xs[k + 1..]
  {
    if k > 0 {
      RemovedIs(xs[1..], k - 1);
    }
  }

  lemma {:induction false} InRemoved<T>(xs: seq<T>, x: T)
    requires Distinct(xs)
    ensures Distinct(Removed(xs, x)) && forall y :: y in Removed(xs, x) <==> y in xs && y != x
    ensures |Removed(xs, x)| == |xs| - if x in xs then 1 else 0
  {
    if xs != [] {
      assert xs == [xs[0]] + xs[1..] && xs[0] !in xs[1..];
      InRemoved(xs[1..], x);
      if xs[0] != x {
        ConsDistinct(xs[0], Removed(xs[1..], x));
      }
    }
  }

  lemma ConsDistinct<T>(x: T, xs: seq<T>)
    requires Distinct(xs) && x !in xs
    ensures Distinct([x] + xs)
  {
  }
}
