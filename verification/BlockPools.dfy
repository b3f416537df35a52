/** `BlockPool` (vllm/v1/core/block_pool.py) on the block objects and their linked queue. */
module BlockPools {
  import opened Prelude
  import opened FreeQueue
  import opened Pools

  /** The blocks hold these counts and hashes. */
  ghost predicate Mirrors(blocks: seq<Block>, p: Pool)
    reads blocks`refCnt, blocks`hash
  {
    && |blocks| == |p.refs| == |p.hashes|
    && forall i :: 0 <= i < |blocks| ==> blocks[i].refCnt == p.refs[i] && blocks[i].hash == p.hashes[i]
  }

  /** The queue holds these blocks, and no other block is linked. */
  ghost predicate Queued(queue: Queue, blocks: seq<Block>, free: seq<nat>)
    reads queue, queue.nodes`prev, queue.nodes`next, blocks`prev, blocks`next
  {
    && queue.Valid() && queue.head !in blocks && queue.tail !in blocks && |queue.Contents()| == |free|
    && (forall k :: 0 <= k < |free| ==> free[k] < |blocks| && queue.Contents()[k] == blocks[free[k]])
    && forall i: nat :: i < |blocks| && i !in free ==> Loose(blocks[i])
  }

  /** Only the first block is the null block. */
  ghost predicate NullFirst(blocks: seq<Block>)
    reads blocks`isNull
  {
    forall i :: 0 <= i < |blocks| ==> blocks[i].isNull == (i == 0)
  }

  /** Every block is in its place. */
  ghost predicate Numbered(blocks: seq<Block>) {
    Distinct(blocks) && forall i :: 0 <= i < |blocks| ==> blocks[i].id == i
  }

  /** A block that is not in the list is not in the queue. */
  lemma NotQueued(queue: Queue, blocks: seq<Block>, free: seq<nat>, i: nat)
    requires Queued(queue, blocks, free) && Distinct(blocks) && i < |blocks| && i !in free
    ensures blocks[i] !in queue.nodes
  {
    forall k | 0 <= k < |queue.nodes|
      ensures queue.nodes[k] != blocks[i]
    {
      if 0 < k < |queue.nodes| - 1 {
        assert queue.nodes[k] == queue.Contents()[k - 1] == blocks[free[k - 1]];
      }
    }
  }

  method PopBlocks(queue: Queue, blocks: seq<Block>, n: nat, ghost free: seq<nat>) returns (ret: seq<Block>)
    requires Queued(queue, blocks, free) && Distinct(blocks) && n <= |free|
    modifies queue, queue.nodes`prev, queue.nodes`next
    ensures Queued(queue, blocks, free[n..])
    ensures |ret| == n && forall k :: 0 <= k < n ==> free[k] < |blocks| && ret[k] == blocks[free[k]]
  {
    forall i: nat | i < |blocks| && i !in free
      ensures blocks[i] !in queue.nodes
    {
      NotQueued(queue, blocks, free, i);
    }
    var ok;
    ok, ret := queue.PopLeftN(n);
    forall i: nat | i < |blocks| && i !in free[n..]
      ensures Loose(blocks[i])
    {
      if i in free {
        assert free == free[..n] + free[n..];
        var k :| 0 <= k < n && free[..n][k] == i;
        assert ret[k] == blocks[i];
      }
    }
  }

  class BlockPool {
    const blocks: seq<Block>
    const queue: Queue
    const caching: bool
    var cached: map<Hash, seq<nat>>
    ghost var model: Pool

    ghost predicate Valid()
      reads this, blocks, queue, queue.nodes
    {
      && Numbered(blocks) && Inv(model) && Mirrors(blocks, model) && cached == model.cached
      && Queued(queue, blocks, model.free)
      && NullFirst(blocks)
      && (!caching ==> cached == map[])
    }

    /** All blocks but the first, which becomes the null block, are free. */
    constructor (n: nat, caching: bool)
      requires n > 0
      ensures Valid() && model == NewPool(n) && this.caching == caching
    {
      var bs, q := FreshBlocks(n);
      blocks, queue, this.caching := bs, q, caching;
      cached, model := map[], NewPool(n);
      new;
      NewPoolHolds(n);
    }

    /** Takes blocks from the front of the queue, or fails when there are too few. The source's assertion that nobody
        references them holds. */
    method GetNewBlocks(n: nat) returns (ids: Option<seq<nat>>)
      requires Valid()
      modifies this`cached, this`model, blocks, queue, queue.nodes
      ensures Valid()
      ensures if n > |old(model).free| then ids == None && model == old(model)
              else Within(old(model).free, |old(model).refs|) && ids.Some?
                   && GetNew(old(model), n) == Some((ids.value, model))
    {
      GetNewFits(model, n);
      if n > queue.numFree {
        return None;
      }
      var left, taken := TakeFront(queue, blocks, n, caching, cached, model);
      cached, model := left, GetNew(model, n).value.1;
      ids := Some(taken);
    }

    /** Each block is referenced once more; one that nobody referenced leaves the queue. */
    method Touch(ids: seq<nat>)
      requires Valid() && Within(ids, |blocks|)
      modifies this`model, blocks, queue, queue.nodes
      ensures Valid() && model == TouchAll(old(model), ids)
    {
      TouchKeepsInv(model, ids);
      ghost var before := model;
      model := TouchAll(before, ids);
      TouchEach(queue, blocks, ids, before);
    }

    /** Each block is referenced once less; those that nobody references any more enter the queue, in the given
        order. */
    method FreeBlocks(ids: seq<nat>)
      requires Valid() && Within(ids, |blocks|) && FreesCleanly(model.refs, ids)
      modifies this`model, blocks, queue, queue.nodes
      ensures Valid() && model == FreeAll(old(model), ids)
    {
      FreeKeepsInv(model, ids);
      CleanFits(model, ids);
      ghost var before := model;
      model := FreeAll(before, ids);
      FreeEach(queue, blocks, ids, before);
    }

    method CacheFullBlock(id: nat, hash: Hash)
      requires Valid() && caching && 0 < id < |blocks| && model.hashes[id] == None
      modifies this`cached, this`model, blocks`hash
      ensures Valid() && model == CacheOne(old(model), id, hash)
    {
      CacheOneKeepsInv(model, id, hash);
      ghost var before := model;
      cached := cached[hash := (if hash in cached then cached[hash] else []) + [id]];
      model := CacheOne(before, id, hash);
      SetHash(queue, blocks, id, hash, before);
    }

    /** `ok` is false where the source's assertion that a block has no hash yet fails. */
    method CacheFullBlocks(ids: seq<nat>, hashes: seq<Hash>) returns (ok: bool)
      requires Valid() && caching && |ids| <= |hashes|
      requires forall k :: 0 <= k < |ids| ==> 0 < ids[k] < |blocks|
      modifies this`cached, this`model, blocks`hash
      ensures Valid() && (ok, model) == CacheAll(old(model), ids, hashes)
    {
      for k := 0 to |ids|
        invariant Valid() && CacheAll(old(model), ids, hashes) == CacheAll(model, ids[k..], hashes[k..])
      {
        assert ids[k..][0] == ids[k] && ids[k..][1..] == ids[k + 1..];
        assert hashes[k..][0] == hashes[k] && hashes[k..][1..] == hashes[k + 1..];
        if blocks[ids[k]].hash != None {
          return false;
        }
        CacheFullBlock(ids[k], hashes[k]);
      }
      ok := true;
    }

    method ResetPrefixCache() returns (ok: bool)
      requires Valid()
      modifies this`cached, this`model, blocks`hash
      ensures Valid() && (ok <==> ResetCache(old(model)).Some?)
      ensures model == if ok then ResetCache(old(model)).value else old(model)
    {
      if |blocks| - queue.numFree != 1 {
        return false;
      }
      ResetKeepsInv(model);
      ghost var before := model;
      cached, model := map[], ResetCache(before).value;
      ClearHashes(queue, blocks, before);
      ok := true;
    }

    /** One block for every group, or none when a group has no block with the hash. */
    method GetCachedBlock(hash: int, groups: seq<int>) returns (r: Option<seq<nat>>)
      requires Valid()
      ensures r.Some? <==> forall k :: 0 <= k < |groups| ==> Lookup(model, (hash, groups[k])).Some?
      ensures r.Some? ==>
                && |r.value| == |groups|
                && forall k :: 0 <= k < |groups| ==>
                                 && 0 < r.value[k] < |blocks| && blocks[r.value[k]].hash == Some((hash, groups[k]))
                                 && Lookup(model, (hash, groups[k])) == Some(r.value[k])
    {
      var found := [];
      for k := 0 to |groups|
        invariant |found| == k
        invariant forall j :: 0 <= j < k ==>
                                && 0 < found[j] < |blocks| && blocks[found[j]].hash == Some((hash, groups[j]))
                                && Lookup(model, (hash, groups[j])) == Some(found[j])
      {
        var key := (hash, groups[k]);
        LookupIsCurrent(model, key);
        if key !in cached || cached[key] == [] {
          return None;
        }
        found := found + [cached[key][0]];
      }
      r := Some(found);
    }
  }

  method SetHash(queue: Queue, blocks: seq<Block>, i: nat, hash: Hash, ghost p: Pool)
    requires Distinct(blocks) && Mirrors(blocks, p) && Queued(queue, blocks, p.free) && NullFirst(blocks)
    requires i < |blocks|
    modifies blocks`hash
    ensures Mirrors(blocks, CacheOne(p, i, hash)) && Queued(queue, blocks, p.free) && NullFirst(blocks)
  {
    blocks[i].hash := Some(hash);
  }

  method ClearHashes(queue: Queue, blocks: seq<Block>, ghost p: Pool)
    requires Distinct(blocks) && Mirrors(blocks, p) && Queued(queue, blocks, p.free) && NullFirst(blocks)
    modifies blocks`hash
    ensures Mirrors(blocks, p.(hashes := seq(|p.hashes|, _ => None))) && Queued(queue, blocks, p.free)
    ensures NullFirst(blocks)
  {
    for k := 0 to |blocks|
      invariant forall i :: 0 <= i < k ==> blocks[i].hash == None
    {
      blocks[k].hash := None;
    }
  }

  /** Where a block of the list is in the queue. */
  lemma IsQueued(queue: Queue, blocks: seq<Block>, free: seq<nat>, i: nat)
    requires Queued(queue, blocks, free) && i in free
    ensures i < |blocks| && blocks[i] in queue.Contents()
  {
    var k :| 0 <= k < |free| && free[k] == i;
    assert queue.Contents()[k] == blocks[i];
  }

  lemma DroppedAlike(blocks: seq<Block>, free: seq<nat>, contents: seq<Block>, k: nat)
    requires k < |free| == |contents|
    requires forall j :: 0 <= j < |free| ==> free[j] < |blocks| && contents[j] == blocks[free[j]]
    ensures var rest := free[..k] + free[k + 1..];
            forall j :: 0 <= j < |rest| ==>
                          rest[j] < |blocks| && (contents[..k] + contents[k + 1..])[j] == blocks[rest[j]]
  {
  }

  lemma RemovedAlike(blocks: seq<Block>, free: seq<nat>, contents: seq<Block>, i: nat)
    requires Distinct(blocks) && Distinct(free) && i in free && Within(free, |blocks|) && |contents| == |free|
    requires forall k :: 0 <= k < |free| ==> contents[k] == blocks[free[k]]
    ensures |Removed(contents, blocks[i])| == |Removed(free, i)|
    ensures forall k :: 0 <= k < |Removed(free, i)| ==>
                          && 0 <= Removed(free, i)[k] < |blocks|
                          && Removed(contents, blocks[i])[k] == blocks[Removed(free, i)[k]]
  {
    var k :| 0 <= k < |free| && free[k] == i;
    RemovedIs(free, k);
    assert Distinct(contents);
    RemovedIs(contents, k);
    DroppedAlike(blocks, free, contents, k);
  }

  /** The blocks of the queue are among these. */
  ghost predicate Covers(own: set<Block>, queue: Queue)
    reads queue
  {
    forall k :: 0 <= k < |queue.nodes| ==> queue.nodes[k] in own
  }

  method RemoveBlock(queue: Queue, blocks: seq<Block>, i: nat, ghost free: seq<nat>, ghost own: set<Block>)
    requires Queued(queue, blocks, free) && Distinct(blocks) && Distinct(free) && i in free && Within(free, |blocks|)
    requires Covers(own, queue)
    modifies queue, queue.nodes`prev, queue.nodes`next
    ensures Queued(queue, blocks, Removed(free, i)) && Covers(own, queue)
  {
    forall j: nat | j < |blocks| && j !in free
      ensures blocks[j] !in queue.nodes
    {
      NotQueued(queue, blocks, free, j);
    }
    IsQueued(queue, blocks, free, i);
    RemovedAlike(blocks, free, queue.Contents(), i);
    InRemoved(free, i);
    var _ := queue.Remove(blocks[i]);
    forall k | 0 <= k < |queue.nodes|
      ensures queue.nodes[k] in own
    {
      assert queue.nodes[k] in old(queue.nodes);
    }
  }

  method AddRef(blocks: seq<Block>, i: nat, delta: int, ghost p: Pool)
    requires Distinct(blocks) && p.Sized() && Mirrors(blocks, p) && i < |blocks|
    modifies blocks`refCnt
    ensures Mirrors(blocks, p.(refs := p.refs[i := p.refs[i] + delta]))
  {
    blocks[i].refCnt := blocks[i].refCnt + delta;
  }

  method TouchBlock(queue: Queue, blocks: seq<Block>, i: nat, ghost p: Pool, ghost own: set<Block>)
    requires Covers(own, queue)
    requires Distinct(blocks) && p.Sized() && Mirrors(blocks, p) && Queued(queue, blocks, p.free) && i < |blocks|
    requires Distinct(p.free) && Within(p.free, |blocks|) && (i != 0 && p.refs[i] == 0 ==> i in p.free)
    requires blocks[i].isNull == (i == 0)
    modifies blocks`refCnt, queue, own`prev, own`next
    ensures Mirrors(blocks, TouchOne(p, i)) && Queued(queue, blocks, TouchOne(p, i).free) && Covers(own, queue)
  {
    if blocks[i].refCnt == 0 && !blocks[i].isNull {
      RemoveBlock(queue, blocks, i, p.free, own);
    }
    AddRef(blocks, i, 1, p);
  }

  lemma {:induction false} TouchSnoc(p: Pool, ids: seq<nat>, i: nat)
    requires p.Sized() && Within(ids, |p.refs|) && i < |p.refs|
    ensures Within(ids + [i], |p.refs|) && TouchAll(p, ids + [i]) == TouchOne(TouchAll(p, ids), i)
    decreases |ids|
  {
    if ids == [] {
      assert [i][1..] == [];
    } else {
      assert (ids + [i])[1..] == ids[1..] + [i];
      TouchSnoc(TouchOne(p, ids[0]), ids[1..], i);
    }
  }

  /** What is known of the pool before the `k`th block is touched, and how it goes on. */
  lemma InvFits(p: Pool, i: nat)
    requires Inv(p) && i < |p.refs|
    ensures Distinct(p.free) && Within(p.free, |p.refs|) && (i != 0 && p.refs[i] == 0 ==> i in p.free)
  {
    QueueWithin(p);
  }

  lemma TouchStep(p: Pool, ids: seq<nat>, k: nat)
    requires Inv(p) && Within(ids, |p.refs|) && k < |ids|
    ensures Within(ids[..k], |p.refs|) && Within(ids[..k + 1], |p.refs|)
    ensures var now, i := TouchAll(p, ids[..k]), ids[k];
            && now.Sized() && |now.refs| == |p.refs| && Distinct(now.free) && Within(now.free, |p.refs|)
            && (i != 0 && now.refs[i] == 0 ==> i in now.free) && TouchAll(p, ids[..k + 1]) == TouchOne(now, i)
  {
    TouchSnoc(p, ids[..k], ids[k]);
    assert ids[..k + 1] == ids[..k] + [ids[k]];
    TouchKeepsInv(p, ids[..k]);
    InvFits(TouchAll(p, ids[..k]), ids[k]);
  }

  method TouchEach(queue: Queue, blocks: seq<Block>, ids: seq<nat>, ghost p: Pool)
    requires Distinct(blocks) && Inv(p) && Mirrors(blocks, p) && Queued(queue, blocks, p.free) && Within(ids, |blocks|)
    requires NullFirst(blocks)
    modifies blocks`refCnt, queue, queue.nodes`prev, queue.nodes`next
    ensures Mirrors(blocks, TouchAll(p, ids)) && Queued(queue, blocks, TouchAll(p, ids).free) && NullFirst(blocks)
  {
    ghost var own := set b | b in queue.nodes;
    for k := 0 to |ids|
      invariant Within(ids[..k], |p.refs|) && Covers(own, queue)
      invariant Mirrors(blocks, TouchAll(p, ids[..k])) && Queued(queue, blocks, TouchAll(p, ids[..k]).free)
    {
      TouchStep(p, ids, k);
      TouchBlock(queue, blocks, ids[k], TouchAll(p, ids[..k]), own);
    }
    assert ids[..|ids|] == ids;
  }

  lemma DecrementedSnoc(refs: seq<int>, ids: seq<nat>, k: nat)
    requires k < |ids| && ids[k] < |refs|
    ensures var before := Decremented(refs, ids[..k]);
            Decremented(refs, ids[..k + 1]) == before[ids[k] := before[ids[k]] - 1]
  {
    assert ids[..k + 1] == ids[..k] + [ids[k]];
  }

  method Decrement(blocks: seq<Block>, ids: seq<nat>, ghost p: Pool)
    requires Distinct(blocks) && p.Sized() && Mirrors(blocks, p) && Within(ids, |blocks|)
    modifies blocks`refCnt
    ensures Mirrors(blocks, p.(refs := Decremented(p.refs, ids)))
  {
    for k := 0 to |ids|
      invariant Mirrors(blocks, p.(refs := Decremented(p.refs, ids[..k])))
    {
      AddRef(blocks, ids[k], -1, p.(refs := Decremented(p.refs, ids[..k])));
      DecrementedSnoc(p.refs, ids, k);
    }
    assert ids[..|ids|] == ids;
  }

  lemma {:induction false} UnusedStep(refs: seq<int>, ids: seq<nat>, k: nat, us: seq<nat>)
    requires Within(ids, |refs|) && k < |ids|
    ensures us + Unused(refs, ids[k..])
            == (if refs[ids[k]] == 0 && ids[k] != 0 then us + [ids[k]] else us) + Unused(refs, ids[k + 1..])
  {
    assert ids[k..][0] == ids[k] && ids[k..][1..] == ids[k + 1..];
    var rest := Unused(refs, ids[k + 1..]);
    if refs[ids[k]] == 0 && ids[k] != 0 {
      assert us + ([ids[k]] + rest) == us + [ids[k]] + rest;
    } else {
      assert [] + rest == rest;
    }
  }

  method CollectUnused(blocks: seq<Block>, ids: seq<nat>, ghost p: Pool) returns (unused: seq<Block>)
    requires p.Sized() && Mirrors(blocks, p) && Within(ids, |blocks|)
    requires NullFirst(blocks)
    ensures var us := Unused(p.refs, ids);
            |unused| == |us| && forall k :: 0 <= k < |us| ==> us[k] < |blocks| && unused[k] == blocks[us[k]]
  {
    unused := [];
    ghost var us: seq<nat> := [];
    for k := 0 to |ids|
      invariant us + Unused(p.refs, ids[k..]) == Unused(p.refs, ids) && |unused| == |us|
      invariant forall j :: 0 <= j < |us| ==> us[j] < |blocks| && unused[j] == blocks[us[j]]
    {
      UnusedStep(p.refs, ids, k, us);
      if blocks[ids[k]].refCnt == 0 && !blocks[ids[k]].isNull {
        unused, us := unused + [blocks[ids[k]]], us + [ids[k]];
      }
    }
  }

  /** The blocks that enter the queue are not in it, and the others stay out of both. */
  lemma Apart(queue: Queue, blocks: seq<Block>, unused: seq<Block>, free: seq<nat>, us: seq<nat>)
    requires Queued(queue, blocks, free) && Distinct(blocks) && Distinct(us) && forall i :: i in us ==> i !in free
    requires |unused| == |us| && Within(us, |blocks|) && forall k :: 0 <= k < |us| ==> unused[k] == blocks[us[k]]
    ensures Distinct(unused) && forall b :: b in unused ==> b in blocks && b !in queue.nodes
    ensures forall j: nat :: j < |blocks| && j !in free + us ==> blocks[j] !in queue.nodes && blocks[j] !in unused
  {
    forall k | 0 <= k < |unused|
      ensures unused[k] in blocks && unused[k] !in queue.nodes
    {
      assert us[k] in us;
      NotQueued(queue, blocks, free, us[k]);
    }
    forall j: nat | j < |blocks| && j !in free + us
      ensures blocks[j] !in queue.nodes && blocks[j] !in unused
    {
      NotQueued(queue, blocks, free, j);
      assert forall k :: 0 <= k < |us| ==> us[k] in us;
    }
  }

  method AppendBlocks(queue: Queue, blocks: seq<Block>, unused: seq<Block>, ghost free: seq<nat>, ghost us: seq<nat>)
    requires Queued(queue, blocks, free) && Distinct(blocks) && Distinct(us) && forall i :: i in us ==> i !in free
    requires |unused| == |us| && Within(us, |blocks|) && forall k :: 0 <= k < |us| ==> unused[k] == blocks[us[k]]
    modifies queue, queue.nodes`prev, queue.nodes`next, blocks`prev, blocks`next
    ensures Queued(queue, blocks, free + us)
  {
    Apart(queue, blocks, unused, free, us);
    queue.AppendN(unused);
    forall k | 0 <= k < |free + us|
      ensures (free + us)[k] < |blocks| && queue.Contents()[k] == blocks[(free + us)[k]]
    {
    }
  }

  /** The blocks that enter the queue are different, and none is in it. */
  ghost predicate UnusedFits(p: Pool, ids: seq<nat>)
    requires p.Sized() && Within(ids, |p.refs|)
  {
    var us := Unused(Decremented(p.refs, ids), ids);
    Distinct(us) && Within(us, |p.refs|) && forall i :: i in us ==> i !in p.free
  }

  lemma CleanFits(p: Pool, ids: seq<nat>)
    requires Inv(p) && Within(ids, |p.refs|) && FreesCleanly(p.refs, ids)
    ensures UnusedFits(p, ids)
  {
    var us := Unused(Decremented(p.refs, ids), ids);
    FreeKeepsInv(p, ids);
    var free := FreeAll(p, ids).free;
    assert free == p.free + us;
    SplitAt(free, |p.free|);
    assert free[..|p.free|] == p.free && free[|p.free|..] == us;
    QueueWithin(FreeAll(p, ids));
  }

  method FreeEach(queue: Queue, blocks: seq<Block>, ids: seq<nat>, ghost p: Pool)
    requires Distinct(blocks) && p.Sized() && Mirrors(blocks, p) && Queued(queue, blocks, p.free)
    requires Within(ids, |blocks|) && UnusedFits(p, ids) && NullFirst(blocks)
    modifies blocks`refCnt, blocks`prev, blocks`next, queue, queue.nodes`prev, queue.nodes`next
    ensures Mirrors(blocks, FreeAll(p, ids)) && Queued(queue, blocks, FreeAll(p, ids).free) && NullFirst(blocks)
  {
    ghost var p1 := p.(refs := Decremented(p.refs, ids));
    Decrement(blocks, ids, p);
    var unused := CollectUnused(blocks, ids, p1);
    AppendBlocks(queue, blocks, unused, p.free, Unused(p1.refs, ids));
  }

  lemma GetNewFits(p: Pool, n: nat)
    requires Inv(p)
    ensures Within(p.free, |p.refs|)
    ensures n <= |p.free| ==> Inv(GetNew(p, n).value.1) && GetNew(p, n).value.1.free == p.free[n..]
                              && Distinct(p.free[..n]) && forall k :: 0 <= k < n ==> p.refs[p.free[k]] == 0
  {
    QueueWithin(p);
    if n <= |p.free| {
      GetNewKeepsInv(p, n);
    }
  }

  /** `_maybe_evict_cached_block`. */
  method EvictBlock(blocks: seq<Block>, i: nat, cached: map<Hash, seq<nat>>, ghost p: Pool)
    returns (cached': map<Hash, seq<nat>>)
    requires Distinct(blocks) && Mirrors(blocks, p) && cached == p.cached && i < |blocks| && p.Sized()
    modifies blocks`hash
    ensures Mirrors(blocks, Evict(p, i)) && cached' == Evict(p, i).cached
  {
    cached' := cached;
    var block := blocks[i];
    var blockHash := block.hash;
    if blockHash.None? || blockHash.value !in cached {
      return;
    }
    block.hash := None;
    var rest := Removed(cached[blockHash.value], i);
    cached' := if rest == [] then cached - {blockHash.value} else cached[blockHash.value := rest];
  }

  method TakeBlock(blocks: seq<Block>, i: nat, caching: bool, cached: map<Hash, seq<nat>>, ghost p: Pool)
    returns (cached': map<Hash, seq<nat>>)
    requires Distinct(blocks) && Mirrors(blocks, p) && cached == p.cached && i < |blocks| && p.Sized()
    requires caching || cached == map[]
    modifies blocks`hash, blocks`refCnt
    ensures Mirrors(blocks, TakeOne(p, i)) && cached' == TakeOne(p, i).cached
    ensures caching || cached' == map[]
  {
    cached' := cached;
    if caching {
      cached' := EvictBlock(blocks, i, cached, p);
    }
    blocks[i].refCnt := blocks[i].refCnt + 1;
  }

  /** The loop over the blocks taken. */
  method TakeEach(blocks: seq<Block>, ret: seq<Block>, caching: bool, given: map<Hash, seq<nat>>,
                  ghost p: Pool, ghost ids: seq<nat>)
    returns (cached: map<Hash, seq<nat>>, taken: seq<nat>)
    requires Numbered(blocks) && p.Sized() && Mirrors(blocks, p) && given == p.cached && (caching || given == map[])
    requires |ret| == |ids| && Within(ids, |blocks|) && forall k :: 0 <= k < |ids| ==> ret[k] == blocks[ids[k]]
    modifies blocks`hash, blocks`refCnt
    ensures Mirrors(blocks, TakeAll(p, ids)) && cached == TakeAll(p, ids).cached && taken == ids
    ensures caching || cached == map[]
  {
    cached, taken := given, [];
    ghost var now := p;
    for k := 0 to |ret|
      invariant now.Sized() && Mirrors(blocks, now) && cached == now.cached && (caching || cached == map[])
      invariant taken == ids[..k] && TakeAll(now, ids[k..]) == TakeAll(p, ids)
    {
      assert ret[k] == blocks[ids[k]] && ids[k..][0] == ids[k] && ids[k..][1..] == ids[k + 1..];
      var i := ret[k].id;
      cached := TakeBlock(blocks, i, caching, cached, now);
      taken := taken + [i];
      now := TakeOne(now, i);
    }
  }

  method TakeFront(queue: Queue, blocks: seq<Block>, n: nat, caching: bool, given: map<Hash, seq<nat>>, ghost p: Pool)
    returns (cached: map<Hash, seq<nat>>, taken: seq<nat>)
    requires Numbered(blocks) && p.Sized() && Mirrors(blocks, p) && Queued(queue, blocks, p.free)
    requires given == p.cached && (caching || given == map[]) && n <= |p.free| && Within(p.free, |p.refs|)
    requires NullFirst(blocks)
    modifies blocks`hash, blocks`refCnt, queue, queue.nodes`prev, queue.nodes`next
    ensures var p' := GetNew(p, n).value.1;
            Mirrors(blocks, p') && Queued(queue, blocks, p'.free) && cached == p'.cached && taken == p.free[..n]
    ensures NullFirst(blocks) && (caching || cached == map[])
  {
    var ret := PopBlocks(queue, blocks, n, p.free);
    assert NullFirst(blocks) && Mirrors(blocks, p);
    ghost var p1 := p.(free := p.free[n..]);
    cached, taken := TakeEach(blocks, ret, caching, given, p1, p.free[..n]);
  }

  method NewBlocks(n: nat) returns (blocks: seq<Block>)
    requires n > 0
    ensures |blocks| == n && Numbered(blocks) && Mirrors(blocks, NewPool(n))
    ensures forall i :: 0 <= i < n ==> fresh(blocks[i]) && !blocks[i].isNull
  {
    blocks := [];
    for k := 0 to n
      invariant |blocks| == k && Numbered(blocks)
      invariant forall i :: 0 <= i < k ==> blocks[i].refCnt == 0 && blocks[i].hash == None
      invariant forall i :: 0 <= i < k ==> fresh(blocks[i]) && !blocks[i].isNull
    {
      var b := new Block(k);
      blocks := blocks + [b];
    }
  }

  function AllIds(n: nat): (ids: seq<nat>)
    ensures |ids| == n && forall i :: 0 <= i < n ==> ids[i] == i
  {
    seq(n, i requires 0 <= i => i)
  }

  method NewQueue(blocks: seq<Block>) returns (queue: Queue)
    requires Numbered(blocks)
    modifies blocks`prev, blocks`next
    ensures fresh(queue) && Queued(queue, blocks, AllIds(|blocks|))
    ensures forall k :: 0 <= k < |queue.nodes| ==> queue.nodes[k] in blocks || fresh(queue.nodes[k])
  {
    queue := new Queue(blocks);
    assert forall i: nat :: i < |blocks| ==> AllIds(|blocks|)[i] in AllIds(|blocks|);
    forall k | 0 <= k < |queue.nodes|
      ensures queue.nodes[k] in blocks || fresh(queue.nodes[k])
    {
      if 0 < k < |queue.nodes| - 1 {
        assert queue.nodes[k] == queue.Contents()[k - 1];
      }
    }
  }

  method PopFirst(queue: Queue, blocks: seq<Block>, ghost free: seq<nat>) returns (first: Block)
    requires Queued(queue, blocks, free) && Distinct(blocks) && free != []
    modifies queue, queue.nodes`prev, queue.nodes`next
    ensures Queued(queue, blocks, free[1..]) && free[0] < |blocks| && first == blocks[free[0]]
  {
    forall i: nat | i < |blocks| && i !in free
      ensures blocks[i] !in queue.nodes
    {
      NotQueued(queue, blocks, free, i);
    }
    var r := queue.PopLeft();
    first := r.value;
    forall i: nat | i < |blocks| && i !in free[1..]
      ensures Loose(blocks[i])
    {
      if i in free {
        assert free == [free[0]] + free[1..];
      }
    }
  }

  method SetNull(blocks: seq<Block>, first: Block)
    requires Distinct(blocks) && blocks != [] && first == blocks[0]
    requires forall i :: 0 <= i < |blocks| ==> !blocks[i].isNull
    modifies blocks`isNull
    ensures NullFirst(blocks)
  {
    first.isNull := true;
  }

  /** The first block of the queue becomes the null block. */
  method TakeNull(queue: Queue, blocks: seq<Block>, ghost n: nat)
    requires n == |blocks| > 0 && Numbered(blocks) && Queued(queue, blocks, AllIds(n)) && Mirrors(blocks, NewPool(n))
    requires forall i :: 0 <= i < |blocks| ==> !blocks[i].isNull
    modifies blocks`isNull, queue, queue.nodes`prev, queue.nodes`next
    ensures Queued(queue, blocks, NewPool(n).free) && Mirrors(blocks, NewPool(n)) && NullFirst(blocks)
  {
    assert AllIds(n)[1..] == NewPool(n).free;
    var first := PopFirst(queue, blocks, AllIds(n));
    SetNull(blocks, first);
  }

  method FreshBlocks(n: nat) returns (blocks: seq<Block>, queue: Queue)
    requires n > 0
    ensures Numbered(blocks) && Mirrors(blocks, NewPool(n)) && Queued(queue, blocks, NewPool(n).free)
    ensures NullFirst(blocks)
  {
    blocks := NewBlocks(n);
    queue := NewQueue(blocks);
    assert forall k :: 0 <= k < |queue.nodes| ==> fresh(queue.nodes[k]);
    TakeNull(queue, blocks, n);
  }
}
