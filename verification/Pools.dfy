/** The state of a `BlockPool` (vllm/v1/core/block_pool.py) as a value: reference counts, the free blocks in eviction
    order, and the cache from block hashes to blocks. Blocks are named by their ids; block 0 is the null block. */
module Pools {
  import opened Prelude
  import opened FreeQueue

  // ----- The pool as a value

  /** `cached` holds, for each hash, the ids of the blocks with it in the order they were cached. */
  datatype Pool = Pool(refs: seq<int>, hashes: seq<Option<Hash>>, free: seq<nat>, cached: map<Hash, seq<nat>>)
  {
    predicate Sized() {
      |refs| == |hashes| > 0
    }
  }

  /** `_maybe_evict_cached_block`. */
  function Evict(p: Pool, i: nat): (p': Pool)
    requires p.Sized() && i < |p.refs|
    ensures p'.refs == p.refs && p'.free == p.free && |p'.hashes| == |p.hashes|
  {
    if p.hashes[i].None? || p.hashes[i].value !in p.cached then p
    else
      var h := p.hashes[i].value;
      var rest := Removed(p.cached[h], i);
      p.(hashes := p.hashes[i := None], cached := if rest == [] then p.cached - {h} else p.cached[h := rest])
  }

  /** A block taken from the queue loses its hash and is counted once. */
  function TakeOne(p: Pool, i: nat): Pool
    requires p.Sized() && i < |p.refs|
  {
    var p1 := Evict(p, i);
    p1.(refs := p1.refs[i := p1.refs[i] + 1])
  }

  predicate Within(ids: seq<nat>, n: nat) {
    forall k :: 0 <= k < |ids| ==> ids[k] < n
  }

  function TakeAll(p: Pool, ids: seq<nat>): (p': Pool)
    requires p.Sized() && Within(ids, |p.refs|)
    ensures p'.Sized() && |p'.refs| == |p.refs| && p'.free == p.free
    decreases |ids|
  {
    if ids == [] then p else TakeAll(TakeOne(p, ids[0]), ids[1..])
  }

  /** `get_new_blocks`; `None` where the source raises an error. */
  function GetNew(p: Pool, n: nat): Option<(seq<nat>, Pool)>
    requires p.Sized() && Within(p.free, |p.refs|)
  {
    if n > |p.free| then None else Some((p.free[..n], TakeAll(p.(free := p.free[n..]), p.free[..n])))
  }

  function TouchOne(p: Pool, i: nat): Pool
    requires p.Sized() && i < |p.refs|
  {
    p.(free := if p.refs[i] == 0 && i != 0 then Removed(p.free, i) else p.free, refs := p.refs[i := p.refs[i] + 1])
  }

  function TouchAll(p: Pool, ids: seq<nat>): (p': Pool)
    requires p.Sized() && Within(ids, |p.refs|)
    ensures p'.Sized() && |p'.refs| == |p.refs|
    decreases |ids|
  {
    if ids == [] then p else TouchAll(TouchOne(p, ids[0]), ids[1..])
  }

  /** The counts after every occurrence in `ids` has been subtracted. */
  function Decremented(refs: seq<int>, ids: seq<nat>): (r: seq<int>)
    ensures |r| == |refs| && forall i :: 0 <= i < |refs| ==> r[i] == refs[i] - multiset(ids)[i]
  {
    seq(|refs|, i requires 0 <= i < |refs| => refs[i] - multiset(ids)[i])
  }

  /** The blocks of the list that are no longer referenced, in its order. */
  function Unused(refs: seq<int>, ids: seq<nat>): seq<nat>
    requires Within(ids, |refs|)
  {
    if ids == [] then []
    else (if refs[ids[0]] == 0 && ids[0] != 0 then [ids[0]] else []) + Unused(refs, ids[1..])
  }

  /** `free_blocks`. */
  function FreeAll(p: Pool, ids: seq<nat>): (p': Pool)
    requires p.Sized() && Within(ids, |p.refs|)
    ensures p'.Sized() && |p'.refs| == |p.refs|
  {
    var refs := Decremented(p.refs, ids);
    p.(refs := refs, free := p.free + Unused(refs, ids))
  }

  function CacheOne(p: Pool, i: nat, h: Hash): Pool
    requires p.Sized() && i < |p.refs|
  {
    p.(hashes := p.hashes[i := Some(h)], cached := p.cached[h := (if h in p.cached then p.cached[h] else []) + [i]])
  }

  /** The loop of `cache_full_blocks`; false where its assertion fails, at the first block that has a hash. */
  function CacheAll(p: Pool, ids: seq<nat>, hashes: seq<Hash>): (r: (bool, Pool))
    requires p.Sized() && Within(ids, |p.refs|) && |ids| <= |hashes|
    ensures r.1.Sized() && r.1.refs == p.refs && r.1.free == p.free
    decreases |ids|
  {
    if ids == [] then (true, p)
    else if p.hashes[ids[0]].Some? then (false, p)
    else CacheAll(CacheOne(p, ids[0], hashes[0]), ids[1..], hashes[1..])
  }

  /** `reset_prefix_cache`; `None` while a block other than the null block is in use. */
  function ResetCache(p: Pool): Option<Pool>
    requires p.Sized()
  {
    if |p.refs| - |p.free| != 1 then None else Some(p.(hashes := seq(|p.hashes|, _ => None), cached := map[]))
  }

  /** `get_cached_block` for one group. */
  function Lookup(p: Pool, h: Hash): Option<nat> {
    if h !in p.cached || p.cached[h] == [] then None else Some(p.cached[h][0])
  }

  function NewPool(n: nat): Pool
    requires n > 0
  {
    Pool(seq(n, _ => 0), seq(n, _ => None), seq(n - 1, i requires 0 <= i => i + 1), map[])
  }

  // ----- What every operation keeps

  /** The queue holds exactly the blocks that nobody references and that are not on their way out (`taken`), each once;
      the null block is never in it. */
  ghost predicate QueueExact(p: Pool, taken: seq<nat>)
    requires p.Sized()
  {
    && Distinct(p.free) && Distinct(taken) && (forall i :: i in taken ==> i !in p.free)
    && (forall i: nat :: i in p.free || i in taken ==> 0 < i < |p.refs|)
    && (forall i: nat :: 0 < i < |p.refs| ==> p.refs[i] >= 0 && (p.refs[i] == 0 <==> i in p.free || i in taken))
  }

  predicate Names(cached: map<Hash, seq<nat>>, h: Hash, i: nat) {
    h in cached && i in cached[h]
  }

  /** The cache names exactly the blocks that carry a hash, under that hash, each once, and never the null block. */
  ghost predicate CacheExact(p: Pool)
    requires p.Sized()
  {
    && p.hashes[0] == None
    && (forall h :: h in p.cached ==> p.cached[h] != [] && Distinct(p.cached[h]))
    && (forall h, i: nat :: Names(p.cached, h, i) ==> i < |p.hashes| && p.hashes[i] == Some(h))
    && (forall i: nat :: i < |p.hashes| && p.hashes[i].Some? ==> Names(p.cached, p.hashes[i].value, i))
  }

  ghost predicate Inv(p: Pool) {
    p.Sized() && QueueExact(p, []) && CacheExact(p)
  }

  lemma NewPoolHolds(n: nat)
    requires n > 0
    ensures Inv(NewPool(n))
  {
    var p := NewPool(n);
    forall i: nat | 0 < i < n
      ensures i in p.free
    {
      assert p.free[i - 1] == i;
    }
  }

  lemma EvictKeepsCache(p: Pool, i: nat)
    requires p.Sized() && CacheExact(p) && i < |p.refs|
    ensures CacheExact(Evict(p, i)) && Evict(p, i).hashes[i] == None
    ensures forall j :: 0 <= j < |p.hashes| && j != i ==> Evict(p, i).hashes[j] == p.hashes[j]
  {
    if p.hashes[i].Some? {
      var h := p.hashes[i].value;
      var rest := Removed(p.cached[h], i);
      InRemoved(p.cached[h], i);
      var p' := Evict(p, i);
      assert Names(p.cached, h, i);
      forall g, j: nat
        ensures Names(p'.cached, g, j) <==> Names(p.cached, g, j) && j != i
      {
        assert Names(p.cached, g, i) ==> g == h;
      }
    }
  }

  lemma SameCache(p: Pool, q: Pool)
    requires p.Sized() && q.Sized() && CacheExact(p) && q.hashes == p.hashes && q.cached == p.cached
    ensures CacheExact(q)
  {
  }

  lemma TakeOneKeeps(p: Pool, i: nat, taken: seq<nat>)
    requires p.Sized() && QueueExact(p, [i] + taken) && CacheExact(p)
    ensures i < |p.refs| && QueueExact(TakeOne(p, i), taken) && CacheExact(TakeOne(p, i))
    ensures TakeOne(p, i).hashes[i] == None && TakeOne(p, i).refs == p.refs[i := 1]
    ensures forall j :: 0 <= j < |p.refs| && j != i ==> TakeOne(p, i).hashes[j] == p.hashes[j]
  {
    assert ([i] + taken)[0] == i && forall k :: 0 <= k < |taken| ==> ([i] + taken)[k + 1] == taken[k];
    assert i in [i] + taken;
    assert i !in taken;
    EvictKeepsCache(p, i);
    SameCache(Evict(p, i), TakeOne(p, i));
  }

  lemma {:induction false} TakeAllKeeps(p: Pool, taken: seq<nat>)
    requires p.Sized() && QueueExact(p, taken) && CacheExact(p) && Within(taken, |p.refs|)
    ensures var p' := TakeAll(p, taken);
            && QueueExact(p', []) && CacheExact(p')
            && forall i: nat :: i < |p.refs| ==>
                                  if i in taken then p'.refs[i] == 1 && p'.hashes[i] == None
                                  else p'.refs[i] == p.refs[i] && p'.hashes[i] == p.hashes[i]
    decreases |taken|
  {
    if taken != [] {
      assert taken == [taken[0]] + taken[1..];
      TakeOneKeeps(p, taken[0], taken[1..]);
      TakeAllKeeps(TakeOne(p, taken[0]), taken[1..]);
    }
  }

  lemma QueueWithin(p: Pool)
    requires Inv(p)
    ensures Within(p.free, |p.refs|)
  {
    forall k | 0 <= k < |p.free|
      ensures p.free[k] < |p.refs|
    {
      assert p.free[k] in p.free;
    }
  }

  /** New blocks come from the front of the queue, were referenced by nobody, and carry no hash afterwards; no other
      block changes. */
  lemma GetNewKeepsInv(p: Pool, n: nat)
    requires Inv(p) && n <= |p.free|
    ensures Within(p.free, |p.refs|)
    ensures var (ids, p') := GetNew(p, n).value;
            && Inv(p') && p'.free == p.free[n..] && |p'.refs| == |p.refs| && Distinct(ids) && |ids| == n
            && (forall i :: i in ids ==> 0 < i < |p.refs| && p.refs[i] == 0)
            && forall i: nat :: i < |p.refs| ==>
                                  if i in ids then p'.refs[i] == 1 && p'.hashes[i] == None
                                  else p'.refs[i] == p.refs[i] && p'.hashes[i] == p.hashes[i]
  {
    QueueWithin(p);
    var p1 := p.(free := p.free[n..]);
    SplitAt(p.free, n);
    assert QueueExact(p1, p.free[..n]);
    SameCache(p, p1);
    TakeAllKeeps(p1, p.free[..n]);
  }

  lemma SplitAt<T>(xs: seq<T>, n: nat)
    requires Distinct(xs) && n <= |xs|
    ensures Distinct(xs[..n]) && Distinct(xs[n..]) && forall x :: x in xs <==> x in xs[..n] || x in xs[n..]
    ensures forall x :: x in xs[..n] ==> x !in xs[n..]
  {
    assert xs == xs[..n] + xs[n..];
  }

  lemma TouchOneKeepsInv(p: Pool, i: nat)
    requires Inv(p) && i < |p.refs|
    ensures Inv(TouchOne(p, i))
  {
    InRemoved(p.free, i);
    SameCache(p, TouchOne(p, i));
  }

  /** A touched block is referenced once more and is in the queue no longer. */
  lemma {:induction false} TouchKeepsInv(p: Pool, ids: seq<nat>)
    requires Inv(p) && Within(ids, |p.refs|)
    ensures Inv(TouchAll(p, ids)) && TouchAll(p, ids).hashes == p.hashes && TouchAll(p, ids).cached == p.cached
    ensures forall i: nat :: i < |p.refs| ==> TouchAll(p, ids).refs[i] == p.refs[i] + multiset(ids)[i]
    decreases |ids|
  {
    if ids != [] {
      assert ids == [ids[0]] + ids[1..];
      TouchOneKeepsInv(p, ids[0]);
      TouchKeepsInv(TouchOne(p, ids[0]), ids[1..]);
    }
  }

  lemma {:induction false} UnusedIs(refs: seq<int>, ids: seq<nat>, i: nat)
    requires Within(ids, |refs|)
    ensures multiset(Unused(refs, ids))[i] == if i in ids && refs[i] == 0 && i != 0 then multiset(ids)[i] else 0
  {
    if ids != [] {
      assert ids == [ids[0]] + ids[1..];
      UnusedIs(refs, ids[1..], i);
    }
  }

  lemma {:induction false} DistinctIff<T(!new)>(xs: seq<T>)
    ensures Distinct(xs) <==> forall x :: multiset(xs)[x] <= 1
  {
    if xs != [] {
      assert xs == [xs[0]] + xs[1..];
      DistinctIff(xs[1..]);
      assert multiset(xs)[xs[0]] == 1 + multiset(xs[1..])[xs[0]];
      if Distinct(xs) {
        assert xs[0] !in xs[1..];
      } else if Distinct(xs[1..]) {
        assert xs[0] in xs[1..] by {
          if xs[0] !in xs[1..] {
            ConsDistinct(xs[0], xs[1..]);
          }
        }
      } else {
        var x :| multiset(xs[1..])[x] > 1;
        assert multiset(xs)[x] > 1;
      }
    }
  }

  /** No block is freed more often than it is referenced, and one that loses its last reference is named once. */
  ghost predicate FreesCleanly(refs: seq<int>, ids: seq<nat>)
    requires Within(ids, |refs|)
  {
    forall i: nat :: i in ids && i != 0 ==>
                       multiset(ids)[i] <= refs[i] && (multiset(ids)[i] == refs[i] ==> multiset(ids)[i] == 1)
  }

  lemma QueueAfterFree(p: Pool, ids: seq<nat>, i: nat)
    requires Inv(p) && Within(ids, |p.refs|)
    ensures multiset(FreeAll(p, ids).free)[i]
            == multiset(p.free)[i] + if i in ids && i != 0 && p.refs[i] == multiset(ids)[i] then multiset(ids)[i] else 0
  {
    UnusedIs(Decremented(p.refs, ids), ids, i);
  }

  lemma FreeKeepsInv(p: Pool, ids: seq<nat>)
    requires Inv(p) && Within(ids, |p.refs|) && FreesCleanly(p.refs, ids)
    ensures Inv(FreeAll(p, ids))
  {
    var p' := FreeAll(p, ids);
    SameCache(p, p');
    DistinctIff(p.free);
    DistinctIff(p'.free);
    forall i: nat
      ensures multiset(p'.free)[i] <= 1
      ensures i in p'.free <==> i in p.free || (i in ids && i != 0 && p.refs[i] == multiset(ids)[i])
    {
      QueueAfterFree(p, ids, i);
    }
  }

  lemma FreeBreaksInv(p: Pool, ids: seq<nat>, i: nat)
    requires Inv(p) && Within(ids, |p.refs|) && i in ids && i != 0
    requires multiset(ids)[i] > p.refs[i] || multiset(ids)[i] == p.refs[i] > 1
    ensures !Inv(FreeAll(p, ids))
  {
    DistinctIff(FreeAll(p, ids).free);
    QueueAfterFree(p, ids, i);
  }

  /** Freeing keeps the queue exact if and only if that holds. */
  lemma FreeKeepsInvIff(p: Pool, ids: seq<nat>)
    requires Inv(p) && Within(ids, |p.refs|)
    ensures Inv(FreeAll(p, ids)) <==> FreesCleanly(p.refs, ids)
  {
    if FreesCleanly(p.refs, ids) {
      FreeKeepsInv(p, ids);
    } else {
      var i: nat :| i in ids && i != 0
                    && !(multiset(ids)[i] <= p.refs[i] && (multiset(ids)[i] == p.refs[i] ==> multiset(ids)[i] == 1));
      assert multiset(ids)[i] >= 1;
      FreeBreaksInv(p, ids, i);
    }
  }

  /** A block with two references that is named twice in one call enters the queue twice. */
  lemma FreedTwice()
    ensures var p := Pool([0, 2], [None, None], [], map[]);
            Inv(p) && FreeAll(p, [1, 1]).free == [1, 1] && !Inv(FreeAll(p, [1, 1]))
  {
    var p := Pool([0, 2], [None, None], [], map[]);
    var refs := Decremented(p.refs, [1, 1]);
    assert multiset([1, 1])[1] == 2 && refs[1] == 0;
    assert Unused(refs, [1]) == [1];
    FreeBreaksInv(p, [1, 1], 1);
  }

  lemma CacheOneKeepsInv(p: Pool, i: nat, h: Hash)
    requires Inv(p) && 0 < i < |p.refs| && p.hashes[i] == None
    ensures Inv(CacheOne(p, i, h))
  {
    var p' := CacheOne(p, i, h);
    assert QueueExact(p', []);
    assert !Names(p.cached, h, i);
    forall g, j: nat
      ensures Names(p'.cached, g, j) <==> Names(p.cached, g, j) || (g == h && j == i)
    {
    }
  }

  /** A block that has a hash, or had one given to it earlier in the list. */
  predicate Taken(p: Pool, ids: seq<nat>, k: nat)
    requires k < |ids| && Within(ids, |p.hashes|)
  {
    p.hashes[ids[k]].Some? || ids[k] in ids[..k]
  }

  /** `p'` is `p` with the first `n` blocks entered under their hashes, and nothing else changed. */
  ghost predicate Entered(p: Pool, p': Pool, ids: seq<nat>, hashes: seq<Hash>, n: nat)
    requires n <= |ids| <= |hashes|
  {
    && p'.refs == p.refs && p'.free == p.free && |p'.hashes| == |p.hashes|
    && (forall k :: 0 <= k < n ==> ids[k] < |p.hashes| && p'.hashes[ids[k]] == Some(hashes[k]))
    && (forall i: nat :: i < |p.hashes| && i !in ids[..n] ==> p'.hashes[i] == p.hashes[i])
    && (forall h :: h in p.cached ==> h in p'.cached && p.cached[h] <= p'.cached[h])
    && (forall h, i: nat :: Names(p'.cached, h, i) <==> Names(p.cached, h, i) || GivenAt(ids, hashes, n, h, i))
  }

  ghost predicate GivenAt(ids: seq<nat>, hashes: seq<Hash>, n: nat, h: Hash, i: nat)
    requires n <= |ids| <= |hashes|
  {
    exists k :: 0 <= k < n && ids[k] == i && hashes[k] == h
  }

  lemma {:induction false} NoneTakenIff(p: Pool, ids: seq<nat>)
    requires Within(ids, |p.hashes|)
    ensures (forall k :: 0 <= k < |ids| ==> !Taken(p, ids, k))
            <==> Distinct(ids) && forall k :: 0 <= k < |ids| ==> p.hashes[ids[k]].None?
  {
    if forall k :: 0 <= k < |ids| ==> !Taken(p, ids, k) {
      forall i, j | 0 <= i < j < |ids|
        ensures ids[i] != ids[j]
      {
        assert !Taken(p, ids, j) && ids[..j][i] == ids[i];
      }
      assert forall k :: 0 <= k < |ids| && !Taken(p, ids, k) ==> p.hashes[ids[k]].None?;
    }
  }

  /** Every block is entered under its own hash, up to the first that has one: all of them if and only if they are
      different and none had a hash. */
  lemma {:induction false} CachesEach(p: Pool, ids: seq<nat>, hashes: seq<Hash>) returns (n: nat)
    requires p.Sized() && Within(ids, |p.refs|) && |ids| <= |hashes|
    ensures n <= |ids| && Entered(p, CacheAll(p, ids, hashes).1, ids, hashes, n)
    ensures (forall k :: 0 <= k < n ==> !Taken(p, ids, k)) && (n < |ids| ==> Taken(p, ids, n))
    ensures CacheAll(p, ids, hashes).0 <==> n == |ids|
    ensures n == |ids| <==> Distinct(ids) && forall k :: 0 <= k < |ids| ==> p.hashes[ids[k]].None?
    decreases |ids|
  {
    NoneTakenIff(p, ids);
    n := 0;
    if ids != [] && p.hashes[ids[0]].None? {
      var n1 := CachesEach(CacheOne(p, ids[0], hashes[0]), ids[1..], hashes[1..]);
      n := n1 + 1;
      TakenLater(p, ids, hashes[0], n1);
      EntersFirst(p, CacheAll(p, ids, hashes).1, ids, hashes, n1);
    }
  }

  /** Whether a block of the rest is taken does not depend on when the first one was entered. */
  lemma {:induction false} TakenLater(p: Pool, ids: seq<nat>, h: Hash, n: nat)
    requires p.Sized() && Within(ids, |p.refs|) && n < |ids| && p.hashes[ids[0]].None?
    requires forall k :: 0 <= k < n ==> !Taken(CacheOne(p, ids[0], h), ids[1..], k)
    requires n < |ids| - 1 ==> Taken(CacheOne(p, ids[0], h), ids[1..], n)
    ensures ids[0] !in ids[1..][..n]
    ensures forall k :: 0 <= k < n + 1 ==> !Taken(p, ids, k)
    ensures n + 1 < |ids| ==> Taken(p, ids, n + 1)
  {
    var p1 := CacheOne(p, ids[0], h);
    forall k | 0 < k < |ids|
      ensures Taken(p, ids, k) <==> Taken(p1, ids[1..], k - 1)
    {
      assert ids[..k] == [ids[0]] + ids[1..][..k - 1];
    }
    forall k | 0 <= k < n
      ensures ids[1..][k] != ids[0]
    {
      assert !Taken(p1, ids[1..], k);
    }
  }

  lemma {:induction false} EntersFirst(p: Pool, p': Pool, ids: seq<nat>, hashes: seq<Hash>, n: nat)
    requires p.Sized() && Within(ids, |p.refs|) && n < |ids| <= |hashes|
    requires Entered(CacheOne(p, ids[0], hashes[0]), p', ids[1..], hashes[1..], n) && ids[0] !in ids[1..][..n]
    ensures Entered(p, p', ids, hashes, n + 1)
  {
    var p1 := CacheOne(p, ids[0], hashes[0]);
    assert ids[..n + 1] == [ids[0]] + ids[1..][..n];
    assert ids[1..][..n] == ids[1..n + 1];
    forall h, i: nat
      ensures GivenAt(ids, hashes, n + 1, h, i)
              <==> (ids[0] == i && hashes[0] == h) || GivenAt(ids[1..], hashes[1..], n, h, i)
    {
      GivenCons(ids, hashes, n, h, i);
    }
    forall h, i: nat
      ensures Names(p1.cached, h, i) <==> Names(p.cached, h, i) || (h == hashes[0] && i == ids[0])
    {
    }
  }

  lemma {:induction false} GivenCons(ids: seq<nat>, hashes: seq<Hash>, n: nat, h: Hash, i: nat)
    requires n < |ids| <= |hashes|
    ensures GivenAt(ids, hashes, n + 1, h, i)
            <==> (ids[0] == i && hashes[0] == h) || GivenAt(ids[1..], hashes[1..], n, h, i)
  {
    if GivenAt(ids[1..], hashes[1..], n, h, i) {
      var k :| 0 <= k < n && ids[1..][k] == i && hashes[1..][k] == h;
      assert ids[k + 1] == i && hashes[k + 1] == h;
    }
    if GivenAt(ids, hashes, n + 1, h, i) && !(ids[0] == i && hashes[0] == h) {
      var k :| 0 <= k < n + 1 && ids[k] == i && hashes[k] == h;
      assert ids[1..][k - 1] == i && hashes[1..][k - 1] == h;
    }
  }

  lemma {:induction false} CacheAllKeepsInv(p: Pool, ids: seq<nat>, hashes: seq<Hash>)
    requires Inv(p) && |ids| <= |hashes| && forall k :: 0 <= k < |ids| ==> 0 < ids[k] < |p.refs|
    ensures Inv(CacheAll(p, ids, hashes).1)
    decreases |ids|
  {
    if ids != [] && p.hashes[ids[0]].None? {
      CacheOneKeepsInv(p, ids[0], hashes[0]);
      CacheAllKeepsInv(CacheOne(p, ids[0], hashes[0]), ids[1..], hashes[1..]);
    }
  }

  lemma ResetKeepsInv(p: Pool)
    requires Inv(p) && ResetCache(p).Some?
    ensures Inv(ResetCache(p).value)
  {
  }

  /** There are at most `n - 1` different numbers between 0 and `n`, and that many only if they are all of them. */
  lemma {:induction false} AllOfThem(xs: seq<nat>, n: nat)
    requires n > 0 && Distinct(xs) && forall x :: x in xs ==> 0 < x < n
    ensures |xs| <= n - 1 && (|xs| == n - 1 <==> forall i: nat :: 0 < i < n ==> i in xs)
    decreases n
  {
    var last: nat := n - 1;
    if xs == [] {
      assert n > 1 ==> 1 !in xs;
    } else if last in xs {
      InRemoved(xs, last);
      AllOfThem(Removed(xs, last), last);
    } else {
      assert xs[0] in xs;
      AllOfThem(xs, n - 1);
    }
  }

  /** The cache can be reset exactly when nobody references a block. */
  lemma ResetIff(p: Pool)
    requires Inv(p)
    ensures ResetCache(p).Some? <==> forall i: nat :: 0 < i < |p.refs| ==> p.refs[i] == 0
  {
    AllOfThem(p.free, |p.refs|);
  }

  /** A hit is a block that still carries the hash. */
  lemma LookupIsCurrent(p: Pool, h: Hash)
    requires Inv(p)
    ensures match Lookup(p, h)
            case Some(i) => 0 < i < |p.hashes| && p.hashes[i] == Some(h)
            case None => forall i :: 0 <= i < |p.hashes| ==> p.hashes[i] != Some(h)
  {
    if Lookup(p, h).Some? {
      assert Names(p.cached, h, p.cached[h][0]);
    } else {
      forall i: nat | i < |p.hashes|
        ensures p.hashes[i] != Some(h)
      {
        assert p.hashes[i] == Some(h) ==> Names(p.cached, h, i);
      }
    }
  }

  // ----- Runs

  datatype Event =
    | Get(n: nat)
    | Touch(ids: seq<nat>)
    | Free(ids: seq<nat>)
    | Cache(ids: seq<nat>, hashes: seq<Hash>)
    | Reset

  /** The pool, the references that its users hold, and a stamp for each block that says when it was last freed: blocks
      freed in one call are stamped in the order of the call, and at the start in the order of their ids. */
  datatype World = World(pool: Pool, held: multiset<nat>, freedAt: seq<nat>, now: nat)

  /** Users free what they hold, and name a block once in the call that gives up its last reference; the null block is
      never cached. */
  predicate Enabled(w: World, e: Event) {
    var n := |w.pool.refs|;
    && w.pool.Sized() && Within(w.pool.free, n) && |w.freedAt| == n
    && match e
       case Get(_) => true
       case Touch(ids) => Within(ids, n)
       case Free(ids) =>
         Within(ids, n)
         && forall i :: i in ids && i != 0 ==>
                          multiset(ids)[i] <= w.held[i] && (multiset(ids)[i] == w.held[i] ==> multiset(ids)[i] == 1)
       case Cache(ids, hashes) => |ids| <= |hashes| && forall k :: 0 <= k < |ids| ==> 0 < ids[k] < n
       case Reset => true
  }

  function Stamped(freedAt: seq<nat>, ids: seq<nat>, now: nat): (r: seq<nat>)
    ensures |r| == |freedAt|
    ensures forall i: nat :: i < |freedAt| ==> r[i] == if i in ids then now + Position<nat>(ids, i) else freedAt[i]
  {
    seq(|freedAt|, (i: nat) requires i < |freedAt| => if i in ids then now + Position<nat>(ids, i) else freedAt[i])
  }

  function Exec(w: World, e: Event): World
    requires Enabled(w, e)
  {
    match e
    case Get(n) =>
      var r := GetNew(w.pool, n);
      if r.None? then w else w.(pool := r.value.1, held := w.held + multiset(r.value.0))
    case Touch(ids) => w.(pool := TouchAll(w.pool, ids), held := w.held + multiset(ids))
    case Free(ids) =>
      World(FreeAll(w.pool, ids), w.held - multiset(ids), Stamped(w.freedAt, ids, w.now), w.now + |ids|)
    case Cache(ids, hashes) => w.(pool := CacheAll(w.pool, ids, hashes).1)
    case Reset => if ResetCache(w.pool).None? then w else w.(pool := ResetCache(w.pool).value)
  }

  predicate Legal(w: World, events: seq<Event>)
    decreases |events|
  {
    events == [] || (Enabled(w, events[0]) && Legal(Exec(w, events[0]), events[1..]))
  }

  function Run(w: World, events: seq<Event>): World
    requires Legal(w, events)
    decreases |events|
  {
    if events == [] then w else Run(Exec(w, events[0]), events[1..])
  }

  function Start(n: nat): World
    requires n > 0
  {
    World(NewPool(n), multiset{}, seq(n, i requires 0 <= i => i), n)
  }

  ghost predicate InOrder(free: seq<nat>, freedAt: seq<nat>) {
    && Within(free, |freedAt|)
    && forall k, l :: 0 <= k < l < |free| ==> freedAt[free[k]] < freedAt[free[l]]
  }

  /** The counts are the references held, and the queue is in the order in which its blocks were freed. */
  ghost predicate WorldInv(w: World) {
    && Inv(w.pool) && |w.freedAt| == |w.pool.refs|
    && (forall i: nat :: 0 < i < |w.pool.refs| ==> w.pool.refs[i] == w.held[i])
    && (forall i: nat :: i < |w.freedAt| ==> w.freedAt[i] < w.now)
    && InOrder(w.pool.free, w.freedAt)
  }

  lemma GetKeepsWorld(w: World, n: nat)
    requires WorldInv(w) && Enabled(w, Get(n))
    ensures WorldInv(Exec(w, Get(n)))
  {
    if n <= |w.pool.free| {
      GetNewKeepsInv(w.pool, n);
      var (ids, p) := GetNew(w.pool, n).value;
      DistinctIff(ids);
    }
  }

  lemma {:induction false} RemovedInOrder(free: seq<nat>, freedAt: seq<nat>, i: nat)
    requires InOrder(free, freedAt)
    ensures InOrder(Removed(free, i), freedAt)
    ensures forall x :: x in Removed(free, i) ==> x in free
  {
    if free != [] && free[0] == i {
      TailInOrder(free, freedAt);
    } else if free != [] {
      TailInOrder(free, freedAt);
      RemovedInOrder(free[1..], freedAt, i);
      ConsInOrder(free[0], Removed(free[1..], i), freedAt);
    }
  }

  lemma TailInOrder(free: seq<nat>, freedAt: seq<nat>)
    requires InOrder(free, freedAt) && free != []
    ensures InOrder(free[1..], freedAt) && free[0] < |freedAt|
    ensures forall x :: x in free[1..] ==> x < |freedAt| && freedAt[free[0]] < freedAt[x]
  {
  }

  lemma ConsInOrder(x: nat, free: seq<nat>, freedAt: seq<nat>)
    requires InOrder(free, freedAt) && x < |freedAt|
    requires forall y :: y in free ==> y < |freedAt| && freedAt[x] < freedAt[y]
    ensures InOrder([x] + free, freedAt)
  {
  }

  lemma {:induction false} TouchInOrder(p: Pool, ids: seq<nat>, freedAt: seq<nat>)
    requires p.Sized() && Within(ids, |p.refs|) && InOrder(p.free, freedAt)
    ensures InOrder(TouchAll(p, ids).free, freedAt)
    decreases |ids|
  {
    if ids != [] {
      RemovedInOrder(p.free, freedAt, ids[0]);
      TouchInOrder(TouchOne(p, ids[0]), ids[1..], freedAt);
    }
  }

  lemma TouchKeepsWorld(w: World, ids: seq<nat>)
    requires WorldInv(w) && Enabled(w, Touch(ids))
    ensures WorldInv(Exec(w, Touch(ids)))
  {
    TouchKeepsInv(w.pool, ids);
    TouchInOrder(w.pool, ids, w.freedAt);
  }

  ghost predicate NamedOnce(refs: seq<int>, ids: seq<nat>)
    requires Within(ids, |refs|)
  {
    forall i :: i in ids && i != 0 && refs[i] == 0 ==> multiset(ids)[i] == 1
  }

  lemma TailNamedOnce(refs: seq<int>, ids: seq<nat>)
    requires ids != [] && Within(ids, |refs|) && NamedOnce(refs, ids)
    ensures NamedOnce(refs, ids[1..]) && forall i :: i in ids[1..] && i != 0 && refs[i] == 0 ==> i != ids[0]
  {
    assert ids == [ids[0]] + ids[1..];
    forall i | i in ids[1..] && i != 0 && refs[i] == 0
      ensures multiset(ids[1..])[i] == 1 && i != ids[0]
    {
      assert multiset(ids)[i] == (if i == ids[0] then 1 else 0) + multiset(ids[1..])[i];
    }
  }

  /** The places of the unused blocks in the list ascend. */
  lemma {:induction false} UnusedAscends(refs: seq<int>, ids: seq<nat>)
    requires Within(ids, |refs|) && NamedOnce(refs, ids)
    ensures forall k :: 0 <= k < |Unused(refs, ids)| ==>
                          var i := Unused(refs, ids)[k];
                          i in ids && i != 0 && refs[i] == 0
    ensures forall k, l :: 0 <= k < l < |Unused(refs, ids)| ==>
                             Position<nat>(ids, Unused(refs, ids)[k]) < Position<nat>(ids, Unused(refs, ids)[l])
  {
    if ids != [] {
      assert ids == [ids[0]] + ids[1..];
      TailNamedOnce(refs, ids);
      UnusedAscends(refs, ids[1..]);
      var rest := Unused(refs, ids[1..]);
      forall k | 0 <= k < |rest|
        ensures rest[k] in ids[1..] && rest[k] != ids[0]
        ensures Position<nat>(ids, rest[k]) == 1 + Position<nat>(ids[1..], rest[k])
      {
      }
    }
  }

  /** The blocks that stay in the queue keep their stamps, and those that enter it get later ones, in the order of the
      call. */
  lemma FreeInOrder(p: Pool, ids: seq<nat>, freedAt: seq<nat>, now: nat)
    requires Inv(p) && Within(ids, |p.refs|) && |freedAt| == |p.refs| && InOrder(p.free, freedAt)
    requires NamedOnce(Decremented(p.refs, ids), ids) && forall i: nat :: i < |freedAt| ==> freedAt[i] < now
    requires forall i :: i in ids && i != 0 ==> i !in p.free
    ensures InOrder(FreeAll(p, ids).free, Stamped(freedAt, ids, now))
  {
    var refs := Decremented(p.refs, ids);
    var unused, stamps := Unused(refs, ids), Stamped(freedAt, ids, now);
    UnusedAscends(refs, ids);
    QueueWithin(p);
    forall k | 0 <= k < |p.free|
      ensures stamps[p.free[k]] == freedAt[p.free[k]] < now
    {
      assert p.free[k] in p.free;
    }
    forall k | 0 <= k < |unused|
      ensures unused[k] < |stamps| && stamps[unused[k]] == now + Position<nat>(ids, unused[k])
    {
    }
  }

  lemma FreesWhatIsHeld(w: World, ids: seq<nat>)
    requires WorldInv(w) && Enabled(w, Free(ids))
    ensures var refs := Decremented(w.pool.refs, ids);
            && FreesCleanly(w.pool.refs, ids) && NamedOnce(refs, ids)
            && (forall i :: i in ids && i != 0 ==> i !in w.pool.free)
            && forall i: nat :: 0 < i < |refs| ==> refs[i] == (w.held - multiset(ids))[i]
  {
    forall i | i in ids && i != 0
      ensures 0 < multiset(ids)[i] <= w.pool.refs[i] == w.held[i]
    {
    }
  }

  lemma FreeKeepsWorld(w: World, ids: seq<nat>)
    requires WorldInv(w) && Enabled(w, Free(ids))
    ensures WorldInv(Exec(w, Free(ids)))
  {
    FreesWhatIsHeld(w, ids);
    FreeKeepsInv(w.pool, ids);
    FreeInOrder(w.pool, ids, w.freedAt, w.now);
  }

  lemma OthersKeepWorld(w: World, e: Event)
    requires WorldInv(w) && Enabled(w, e) && (e.Cache? || e.Reset?)
    ensures WorldInv(Exec(w, e))
  {
    if e.Cache? {
      CacheAllKeepsInv(w.pool, e.ids, e.hashes);
      var _ := CachesEach(w.pool, e.ids, e.hashes);
    } else if ResetCache(w.pool).Some? {
      ResetKeepsInv(w.pool);
    }
  }

  lemma StepKeepsWorld(w: World, e: Event)
    requires WorldInv(w) && Enabled(w, e)
    ensures WorldInv(Exec(w, e))
  {
    match e
    case Get(n) => GetKeepsWorld(w, n);
    case Touch(ids) => TouchKeepsWorld(w, ids);
    case Free(ids) => FreeKeepsWorld(w, ids);
    case _ => OthersKeepWorld(w, e);
  }

  /** Over every run: the queue holds exactly the blocks nobody references, each once and never the null block, in the
      order in which they were freed; the cache names exactly the blocks that carry a hash; and the counts are the
      references held. */
  lemma {:induction false} RunsKeepWorld(w: World, events: seq<Event>)
    requires WorldInv(w) && Legal(w, events)
    ensures WorldInv(Run(w, events))
    decreases |events|
  {
    if events != [] {
      StepKeepsWorld(w, events[0]);
      RunsKeepWorld(Exec(w, events[0]), events[1..]);
    }
  }

  lemma {:induction false} TakingKeepsHit(p: Pool, taken: seq<nat>, h: Hash, i: nat)
    requires p.Sized() && Within(taken, |p.refs|) && Lookup(p, h) == Some(i) && i !in taken
    ensures Lookup(TakeAll(p, taken), h) == Some(i)
    decreases |taken|
  {
    if taken != [] {
      TakingKeepsHit(TakeOne(p, taken[0]), taken[1..], h, i);
    }
  }

  /** A hash that leads to a block leads to the same block for as long as that block carries it, whatever other blocks
      are given the same hash: the one cached first is found. */
  lemma HitStays(w: World, e: Event, h: Hash)
    requires WorldInv(w) && Enabled(w, e) && Lookup(w.pool, h).Some?
    ensures var (i, p) := (Lookup(w.pool, h).value, Exec(w, e).pool);
            i < |p.hashes| == |w.pool.hashes| && (p.hashes[i] == Some(h) ==> Lookup(p, h) == Some(i))
  {
    var i := Lookup(w.pool, h).value;
    LookupIsCurrent(w.pool, h);
    match e
    case Get(n) =>
      if n <= |w.pool.free| {
        GetNewKeepsInv(w.pool, n);
        if i !in w.pool.free[..n] {
          TakingKeepsHit(w.pool.(free := w.pool.free[n..]), w.pool.free[..n], h, i);
        }
      }
    case Touch(ids) => TouchKeepsInv(w.pool, ids);
    case Free(_) =>
    case Cache(ids, hashes) => var _ := CachesEach(w.pool, ids, hashes);
    case Reset =>
  }

  lemma {:induction false} SizeStays(w: World, events: seq<Event>)
    requires Legal(w, events) && w.pool.Sized()
    ensures |Run(w, events).pool.refs| == |w.pool.refs|
    decreases |events|
  {
    if events != [] {
      SizeStays(Exec(w, events[0]), events[1..]);
    }
  }

  lemma TakesLongestFree(w: World, k: nat)
    requires WorldInv(w) && k <= |w.pool.free|
    ensures Within(w.pool.free, |w.pool.refs|)
    ensures var (ids, p) := GetNew(w.pool, k).value;
            && Within(ids, |w.freedAt|) && Within(p.free, |w.freedAt|)
            && forall a, b :: 0 <= a < |ids| && 0 <= b < |p.free| ==> w.freedAt[ids[a]] < w.freedAt[p.free[b]]
  {
    GetNewKeepsInv(w.pool, k);
  }

  lemma NotFound(p: Pool, ids: seq<nat>, h: Hash)
    requires Inv(p) && forall i :: i in ids ==> i < |p.hashes| && p.hashes[i] == None
    ensures Lookup(p, h).Some? ==> Lookup(p, h).value !in ids
  {
    LookupIsCurrent(p, h);
  }

  lemma StartHolds(n: nat)
    requires n > 0
    ensures WorldInv(Start(n))
  {
    NewPoolHolds(n);
  }

  /** From a new pool, whatever its users do: new blocks are held by nobody, are those freed longest ago, and no lookup
      finds them until they are cached again. */
  lemma NewBlocksAreExclusive(n: nat, events: seq<Event>, k: nat)
    requires n > 0 && Legal(Start(n), events)
    ensures var w := Run(Start(n), events);
            && WorldInv(w) && |w.pool.refs| == n && Within(w.pool.free, n)
            && (GetNew(w.pool, k).Some? <==> k <= |w.pool.free|)
            && (k <= |w.pool.free| ==>
                  var (ids, p) := GetNew(w.pool, k).value;
                  && Distinct(ids) && |ids| == k && Within(ids, n) && Within(p.free, n)
                  && (forall i :: i in ids ==> i != 0 && w.held[i] == 0)
                  && (forall a, b :: 0 <= a < |ids| && 0 <= b < |p.free| ==> w.freedAt[ids[a]] < w.freedAt[p.free[b]])
                  && (forall h :: Lookup(p, h).Some? ==> Lookup(p, h).value !in ids))
  {
    StartHolds(n);
    RunsKeepWorld(Start(n), events);
    SizeStays(Start(n), events);
    var w := Run(Start(n), events);
    QueueWithin(w.pool);
    if k <= |w.pool.free| {
      GetNewKeepsInv(w.pool, k);
      TakesLongestFree(w, k);
      var (ids, p) := GetNew(w.pool, k).value;
      forall h
        ensures Lookup(p, h).Some? ==> Lookup(p, h).value !in ids
      {
        NotFound(p, ids, h);
      }
    }
  }
}
