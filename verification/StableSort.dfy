/** Python's stable `sorted`, for any total preorder `leq`. */
module StableSort {
  import opened Prelude

  ghost predicate TotalPreorder<T(!new)>(leq: (T, T) -> bool) {
    && (forall x, y :: leq(x, y) || leq(y, x))
    && (forall x, y, z :: leq(x, y) && leq(y, z) ==> leq(x, z))
  }

  predicate Ordered<T>(xs: seq<T>, leq: (T, T) -> bool) {
    forall i, j :: 0 <= i < j < |xs| ==> leq(xs[i], xs[j])
  }

  function Sorted<T>(xs: seq<T>, leq: (T, T) -> bool): seq<T> {
    if xs == [] then [] else Insert(xs[0], Sorted(xs[1..], leq), leq)
  }

  function Insert<T>(x: T, ys: seq<T>, leq: (T, T) -> bool): seq<T> {
    if ys == [] || leq(x, ys[0]) then [x] + ys else [ys[0]] + Insert(x, ys[1..], leq)
  }

  lemma {:induction false} InsertKeepsElements<T>(x: T, ys: seq<T>, leq: (T, T) -> bool)
    ensures multiset(Insert(x, ys, leq)) == multiset([x]) + multiset(ys)
  {
    if ys != [] && !leq(x, ys[0]) {
      InsertKeepsElements(x, ys[1..], leq);
      assert ys == [ys[0]] + ys[1..];
    }
  }

  ghost predicate AllAfter<T>(b: T, xs: seq<T>, leq: (T, T) -> bool) {
    forall k :: 0 <= k < |xs| ==> leq(b, xs[k])
  }

  lemma {:induction false} InsertKeepsBound<T>(x: T, ys: seq<T>, leq: (T, T) -> bool, b: T)
    requires leq(b, x) && AllAfter(b, ys, leq)
    ensures AllAfter(b, Insert(x, ys, leq), leq)
  {
    if ys != [] && !leq(x, ys[0]) {
      InsertKeepsBound(x, ys[1..], leq, b);
    }
  }

  lemma {:induction false} InsertKeepsOrder<T(!new)>(x: T, ys: seq<T>, leq: (T, T) -> bool)
    requires TotalPreorder(leq) && Ordered(ys, leq)
    ensures Ordered(Insert(x, ys, leq), leq)
  {
    if ys != [] && !leq(x, ys[0]) {
      InsertKeepsOrder(x, ys[1..], leq);
      InsertKeepsBound(x, ys[1..], leq, ys[0]);
    }
  }

  /** The result is an ordered permutation. */
  lemma {:induction false} SortedIsSorted<T(!new)>(xs: seq<T>, leq: (T, T) -> bool)
    requires TotalPreorder(leq)
    ensures Ordered(Sorted(xs, leq), leq) && multiset(Sorted(xs, leq)) == multiset(xs)
    ensures |Sorted(xs, leq)| == |xs|
  {
    if xs != [] {
      SortedIsSorted(xs[1..], leq);
      InsertKeepsOrder(xs[0], Sorted(xs[1..], leq), leq);
      InsertKeepsElements(xs[0], Sorted(xs[1..], leq), leq);
      assert xs == [xs[0]] + xs[1..];
    }
    assert |multiset(Sorted(xs, leq))| == |multiset(xs)|;
  }

  function InsertedAt<T>(x: T, ys: seq<T>, k: nat): (zs: seq<T>)
    requires k <= |ys|
    ensures |zs| == |ys| + 1
    ensures forall i :: 0 <= i < |zs| ==> zs[i] == if i < k then ys[i] else if i == k then x else ys[i - 1]
  {
    ys[..k] + [x] + ys[k..]
  }

  /** `x` goes behind everything that comes strictly before it. */
  lemma {:induction false} InsertIsAt<T>(x: T, ys: seq<T>, leq: (T, T) -> bool) returns (k: nat)
    ensures k <= |ys| && Insert(x, ys, leq) == InsertedAt(x, ys, k) && forall i :: 0 <= i < k ==> !leq(x, ys[i])
  {
    if ys == [] || leq(x, ys[0]) {
      k := 0;
    } else {
      var k' := InsertIsAt(x, ys[1..], leq);
      k := k' + 1;
    }
  }

  /** `places` says where the elements of `ys` come from in `xs`. */
  ghost predicate TakenFrom<T>(xs: seq<T>, ys: seq<T>, places: seq<nat>) {
    && |places| == |ys| && Distinct(places)
    && forall i :: 0 <= i < |ys| ==> places[i] < |xs| && ys[i] == xs[places[i]]
  }

  lemma {:induction false} TakenPrefix<T>(xs: seq<T>, ys: seq<T>, places: seq<nat>, n: nat)
    requires TakenFrom(xs, ys, places) && n <= |ys|
    ensures TakenFrom(xs, ys[..n], places[..n])
  {
  }

  /** Elements that tie come in the order of their places. */
  ghost predicate TiesInOrder<T>(ys: seq<T>, leq: (T, T) -> bool, places: seq<nat>)
    requires |places| == |ys|
  {
    forall i, j :: 0 <= i < j < |ys| && leq(ys[j], ys[i]) ==> places[i] < places[j]
  }

  function Raised(places: seq<nat>): (r: seq<nat>)
    ensures |r| == |places| && forall i :: 0 <= i < |places| ==> r[i] == places[i] + 1
  {
    seq(|places|, i requires 0 <= i < |places| => places[i] + 1)
  }

  lemma {:induction false} InsertedDistinct(ps: seq<nat>, k: nat)
    requires Distinct(ps) && k <= |ps|
    ensures Distinct(InsertedAt<nat>(0, Raised(ps), k))
  {
  }

  lemma {:induction false} InsertIsTaken<T>(xs: seq<T>, ys: seq<T>, ps: seq<nat>, k: nat)
    requires xs != [] && TakenFrom(xs[1..], ys, ps) && k <= |ys|
    ensures TakenFrom(xs, InsertedAt(xs[0], ys, k), InsertedAt<nat>(0, Raised(ps), k))
  {
    var zs, places := InsertedAt(xs[0], ys, k), InsertedAt<nat>(0, Raised(ps), k);
    InsertedDistinct(ps, k);
    forall i | 0 <= i < |zs|
      ensures places[i] < |xs| && zs[i] == xs[places[i]]
    {
      if i != k {
        var a := if i < k then i else i - 1;
        assert places[i] == ps[a] + 1 && ys[a] == xs[1..][ps[a]];
      }
    }
  }

  lemma {:induction false} InsertKeepsTies<T>(x: T, ys: seq<T>, leq: (T, T) -> bool, ps: seq<nat>, k: nat)
    requires |ps| == |ys| && TiesInOrder(ys, leq, ps) && k <= |ys| && forall i :: 0 <= i < k ==> !leq(x, ys[i])
    ensures TiesInOrder(InsertedAt(x, ys, k), leq, InsertedAt<nat>(0, Raised(ps), k))
  {
    var zs, places := InsertedAt(x, ys, k), InsertedAt<nat>(0, Raised(ps), k);
    forall i, j | 0 <= i < j < |zs| && leq(zs[j], zs[i])
      ensures places[i] < places[j]
    {
      if i != k && j != k {
        var a, b := if i < k then i else i - 1, if j < k then j else j - 1;
        assert leq(ys[b], ys[a]);
      }
    }
  }

  lemma {:induction false} InsertKeepsAll(ps: seq<nat>, k: nat, n: nat)
    requires k <= |ps| && forall i: nat :: i < n ==> i in ps
    ensures forall i: nat :: i < n + 1 ==> i in InsertedAt<nat>(0, Raised(ps), k)
  {
    var places := InsertedAt<nat>(0, Raised(ps), k);
    assert places[k] == 0;
    forall i: nat | 0 < i < n + 1
      ensures i in places
    {
      var before: nat := i - 1;
      assert before in ps;
      var j :| 0 <= j < |ps| && ps[j] == before;
      assert places[if j < k then j else j + 1] == i;
    }
  }

  /** The result takes every element from its own place, and elements that tie keep their order. */
  lemma {:induction false} SortedIsStable<T(!new)>(xs: seq<T>, leq: (T, T) -> bool) returns (places: seq<nat>)
    ensures TakenFrom(xs, Sorted(xs, leq), places) && TiesInOrder(Sorted(xs, leq), leq, places)
    ensures forall k: nat :: k < |xs| ==> k in places
  {
    if xs == [] {
      places := [];
    } else {
      var ps := SortedIsStable(xs[1..], leq);
      var k := InsertIsAt(xs[0], Sorted(xs[1..], leq), leq);
      InsertIsTaken(xs, Sorted(xs[1..], leq), ps, k);
      InsertKeepsTies(xs[0], Sorted(xs[1..], leq), leq, ps, k);
      InsertKeepsAll(ps, k, |xs| - 1);
      places := InsertedAt<nat>(0, Raised(ps), k);
    }
  }

  /** A permutation of distinct elements is distinct. */
  lemma PermutationDistinct<T>(xs: seq<T>, ys: seq<T>)
    requires Distinct(xs) && multiset(xs) == multiset(ys)
    ensures Distinct(ys)
  {
    forall i, j | 0 <= i < j < |ys|
      ensures ys[i] != ys[j]
    {
      if ys[i] == ys[j] {
        assert ys == ys[..j] + ys[j..];
        assert ys[i] in multiset(ys[..j]) && ys[j] in multiset(ys[j..]);
        DistinctOnce(xs, ys[i]);
      }
    }
  }

  lemma {:induction false} DistinctOnce<T>(xs: seq<T>, x: T)
    requires Distinct(xs)
    ensures multiset(xs)[x] <= 1
  {
    if xs != [] {
      DistinctOnce(xs[1..], x);
      assert xs == [xs[0]] + xs[1..];
    }
  }
}
