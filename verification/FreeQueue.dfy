/** `KVCacheBlock` and the doubly linked queue of free blocks, `FreeKVCacheBlockQueue` (vllm/v1/core/kv_cache_utils.py).
    */
module FreeQueue {
  import opened Prelude

  /** A block hash together with its group id. */
  type Hash = (int, int)

  class Block {
    const id: int
    var refCnt: int
    var hash: Option<Hash>
    var prev: Block?
    var next: Block?
    var isNull: bool

    constructor (id: int)
      ensures this.id == id && refCnt == 0 && hash == None && prev == next == null && !isNull
    {
      this.id, refCnt, hash, prev, next, isNull := id, 0, None, null, null, false;
    }
  }

  /** Neighbours point to each other. */
  ghost predicate Linked(nodes: seq<Block>)
    reads nodes`prev, nodes`next
  {
    forall i :: 0 <= i < |nodes| - 1 ==> nodes[i].next == nodes[i + 1] && nodes[i + 1].prev == nodes[i]
  }

  lemma Joined(xs: seq<Block>, ys: seq<Block>)
    requires Linked(xs) && Linked(ys) && xs != [] && ys != []
    requires xs[|xs| - 1].next == ys[0] && ys[0].prev == xs[|xs| - 1]
    ensures Linked(xs + ys)
  {
  }

  /** Makes one chain of two. */
  method Connect(last: Block, first: Block, ghost xs: seq<Block>, ghost ys: seq<Block>)
    requires Linked(xs) && Linked(ys) && xs != [] && ys != [] && last == xs[|xs| - 1] && first == ys[0]
    requires Distinct(xs + ys)
    modifies last`next, first`prev
    ensures Linked(xs + ys)
  {
    Parts(xs, ys);
    last.next := first;
    first.prev := last;
    Joined(xs, ys);
  }

  lemma Parts<T>(xs: seq<T>, ys: seq<T>)
    requires Distinct(xs + ys)
    ensures Distinct(xs) && Distinct(ys) && forall i, j :: 0 <= i < |xs| && 0 <= j < |ys| ==> xs[i] != ys[j]
  {
    assert forall i :: 0 <= i < |xs| ==> (xs + ys)[i] == xs[i];
    assert forall j :: 0 <= j < |ys| ==> (xs + ys)[|xs| + j] == ys[j];
  }

  /** Not in any queue. */
  ghost predicate Loose(b: Block)
    reads b`prev, b`next
  {
    b.prev == null && b.next == null
  }

  /** Takes the first block `nodes[k]` off a chain. */
  method Unlink(curr: Block, ret: seq<Block>, ghost nodes: seq<Block>, ghost k: nat)
    returns (curr': Block, ret': seq<Block>)
    requires Distinct(nodes) && 0 < k < |nodes| - 1 && curr == nodes[k] && ret == nodes[1..k] && Linked(nodes[k..])
    requires forall i :: 0 <= i < |ret| ==> Loose(ret[i])
    modifies curr`prev, curr`next
    ensures curr' == nodes[k + 1] && ret' == nodes[1..k + 1] && Linked(nodes[k + 1..])
    ensures forall i :: 0 <= i < |ret'| ==> Loose(ret'[i])
  {
    assert nodes[k..][0] == curr && nodes[k..][1] == nodes[k + 1];
    ret' := ret + [curr];
    curr' := curr.next;
    assert nodes[k + 1..] == nodes[k..][1..];
    curr.prev, curr.next := null, null;
  }

  /** Takes the block `nodes[k]` out of a chain. */
  method Detach(block: Block, ghost nodes: seq<Block>, ghost k: nat)
    requires Distinct(nodes) && Linked(nodes) && 0 < k < |nodes| - 1 && block == nodes[k]
    requires block.prev == nodes[k - 1] && block.next == nodes[k + 1]
    modifies nodes`prev, nodes`next
    ensures Linked(nodes[..k] + nodes[k + 1..]) && Loose(block)
  {
    InnerWithout(nodes, k);
    Connect(block.prev, block.next, nodes[..k], nodes[k + 1..]);
    block.prev, block.next := null, null;
  }

  /** The loop of `popleft_n`. */
  method UnlinkFirst(first: Block, n: nat, ghost nodes: seq<Block>) returns (curr: Block, ret: seq<Block>)
    requires Distinct(nodes) && Linked(nodes) && n + 2 <= |nodes| && first == nodes[1]
    modifies nodes[1..n + 1]`prev, nodes[1..n + 1]`next
    ensures curr == nodes[n + 1] && ret == nodes[1..n + 1] && Linked(nodes[n + 1..])
    ensures forall i :: 0 <= i < |ret| ==> Loose(ret[i])
  {
    curr, ret := first, [];
    for k := 0 to n
      invariant ret == nodes[1..k + 1] && curr == nodes[k + 1] && Linked(nodes[k + 1..])
      invariant forall i :: 0 <= i < |ret| ==> Loose(ret[i])
    {
      curr, ret := Unlink(curr, ret, nodes, k + 1);
    }
  }

  /** The first `n` are linked. */
  ghost predicate LinkedTo(nodes: seq<Block>, n: nat)
    requires n <= |nodes|
    reads nodes`prev, nodes`next
  {
    forall i :: 0 <= i < n - 1 ==> nodes[i].next == nodes[i + 1] && nodes[i + 1].prev == nodes[i]
  }

  /** Links `full[k]` behind the chain before it. */
  method LinkNext(last: Block, block: Block, ghost full: seq<Block>, ghost k: nat)
    requires Distinct(full) && 0 < k < |full| && LinkedTo(full, k) && last == full[k - 1] && block == full[k]
    modifies last`next, block`prev
    ensures LinkedTo(full, k + 1)
  {
    block.prev := last;
    last.next := block;
  }

  /** The loop of `append_n`: the blocks from `full[from]` on are linked behind the ones before. */
  method LinkBehind(last: Block, blocks: seq<Block>, ghost full: seq<Block>, ghost from: nat) returns (last': Block)
    requires Distinct(full) && 0 < from && from + |blocks| <= |full|
    requires forall k :: 0 <= k < |blocks| ==> blocks[k] == full[from + k]
    requires last == full[from - 1] && LinkedTo(full, from)
    modifies full`prev, full`next
    ensures last' == full[from + |blocks| - 1] && LinkedTo(full, from + |blocks|)
  {
    last' := last;
    for k := 0 to |blocks|
      invariant last' == full[from + k - 1] && LinkedTo(full, from + k)
    {
      LinkNext(last', blocks[k], full, from + k);
      last' := blocks[k];
    }
  }

  /** `full` has `blocks` before the last node. */
  ghost predicate Puts(nodes: seq<Block>, blocks: seq<Block>, full: seq<Block>)
    requires |nodes| >= 2
  {
    && |full| == |nodes| + |blocks| && full[|full| - 1] == nodes[|nodes| - 1]
    && (forall i :: 0 <= i < |nodes| - 1 ==> full[i] == nodes[i])
    && (forall k :: 0 <= k < |blocks| ==> full[|nodes| - 1 + k] == blocks[k])
  }

  /** The blocks come between the last one and the tail. */
  method PutLast(last: Block, blocks: seq<Block>, tail: Block, ghost nodes: seq<Block>, ghost full: seq<Block>)
    requires |nodes| >= 2 && Linked(nodes) && last == nodes[|nodes| - 2] && tail == nodes[|nodes| - 1]
    requires Puts(nodes, blocks, full) && Distinct(full)
    modifies full`prev, full`next
    ensures Linked(full)
  {
    var last' := LinkBehind(last, blocks, full, |nodes| - 1);
    LinkNext(last', tail, full, |full| - 1);
  }

  /** Joins the first block to what follows the blocks taken out behind it. */
  method TakeOut(head: Block, n: nat, ghost nodes: seq<Block>) returns (ret: seq<Block>)
    requires Distinct(nodes) && Linked(nodes) && 0 < n && n + 2 <= |nodes|
    requires head == nodes[0] && head.next == nodes[1]
    modifies nodes`prev, nodes`next
    ensures ret == nodes[1..n + 1] && Linked([head] + nodes[n + 1..])
    ensures forall i :: 0 <= i < |ret| ==> Loose(ret[i])
  {
    InnerAfter(nodes, n);
    var curr := head.next;
    curr, ret := UnlinkFirst(curr, n, nodes);
    if curr != null {
      Connect(head, curr, [head], nodes[n + 1..]);
    }
  }

  method LinkAll(head: Block, blocks: seq<Block>, tail: Block)
    requires Distinct([head] + blocks + [tail])
    modifies head`next, blocks`prev, blocks`next, tail`prev
    ensures Linked([head] + blocks + [tail])
  {
    Parts([head] + blocks, [tail]);
    Parts([head], blocks);
    LinkInOrder(blocks);
    if |blocks| > 0 {
      Connect(head, blocks[0], [head], blocks);
      Connect(blocks[|blocks| - 1], tail, [head] + blocks, [tail]);
    } else {
      assert [head] + blocks + [tail] == [head] + [tail];
      Connect(head, tail, [head], [tail]);
    }
  }

  /** The first loop of the constructor. */
  method LinkInOrder(blocks: seq<Block>)
    requires Distinct(blocks)
    modifies blocks`prev, blocks`next
    ensures Linked(blocks)
  {
    var n := |blocks|;
    for i := 0 to n
      invariant forall j :: 0 < j < i ==> blocks[j].prev == blocks[j - 1]
      invariant forall j :: 0 <= j < i && j < n - 1 ==> blocks[j].next == blocks[j + 1]
    {
      if i > 0 {
        blocks[i].prev := blocks[i - 1];
      }
      if i < n - 1 {
        blocks[i].next := blocks[i + 1];
      }
    }
  }

  /** What is between the two ends. */
  function Inner<T>(xs: seq<T>): seq<T>
    requires |xs| >= 2
  {
    xs[1..|xs| - 1]
  }

  lemma InnerWithout<T>(xs: seq<T>, k: nat)
    requires Distinct(xs) && 0 < k < |xs| - 1
    ensures Distinct(xs[..k] + xs[k + 1..]) && Inner(xs[..k] + xs[k + 1..]) == Removed(Inner(xs), xs[k])
  {
    var inner, rest := Inner(xs), xs[..k] + xs[k + 1..];
    RemovedIs(inner, k - 1);
    assert inner[k - 1] == xs[k];
    forall j | 0 <= j < |xs| - 3
      ensures Inner(rest)[j] == (inner[..k - 1] + inner[k..])[j]
    {
      assert Inner(rest)[j] == rest[j + 1];
    }
    assert Inner(rest) == inner[..k - 1] + inner[k..];
  }

  lemma InnerAfter<T>(xs: seq<T>, n: nat)
    requires Distinct(xs) && n + 2 <= |xs|
    ensures Distinct([xs[0]] + xs[n + 1..]) && Inner([xs[0]] + xs[n + 1..]) == Inner(xs)[n..]
  {
  }

  lemma Appended<T>(xs: seq<T>, ys: seq<T>) returns (full: seq<T>)
    requires Distinct(xs) && Distinct(ys) && |xs| >= 2 && forall y :: y in ys ==> y !in xs
    ensures full == xs[..|xs| - 1] + ys + [xs[|xs| - 1]] && Distinct(full) && Inner(full) == Inner(xs) + ys
  {
    full := xs[..|xs| - 1] + ys + [xs[|xs| - 1]];
    forall i, j | 0 <= i < |xs| && 0 <= j < |ys|
      ensures xs[i] != ys[j]
    {
      assert ys[j] in ys;
    }
  }

  lemma Framed<T>(a: T, xs: seq<T>, b: T)
    requires Distinct(xs) && a != b && a !in xs && b !in xs
    ensures Distinct([a] + xs + [b]) && Inner([a] + xs + [b]) == xs
  {
  }

  class Queue {
    const head: Block
    const tail: Block
    var numFree: int
    ghost var nodes: seq<Block>

    ghost predicate Valid()
      reads this, nodes`prev, nodes`next
    {
      && |nodes| >= 2 && nodes[0] == head && nodes[|nodes| - 1] == tail
      && Distinct(nodes) && Linked(nodes) && numFree == |nodes| - 2
    }

    /** The free blocks, the first to be taken first. */
    ghost function Contents(): seq<Block>
      requires |nodes| >= 2
      reads this
    {
      Inner(nodes)
    }

    /** The blocks are linked in order between two blocks that are never taken. */
    constructor (blocks: seq<Block>)
      requires Distinct(blocks)
      modifies blocks`prev, blocks`next
      ensures Valid() && Contents() == blocks && fresh(head) && fresh(tail)
    {
      var h := new Block(-1);
      var t := new Block(-1);
      head, tail := h, t;
      numFree := |blocks|;
      nodes := [h] + blocks + [t];
      new;
      Framed(head, blocks, tail);
      LinkAll(head, blocks, tail);
    }

    /** The first block, or nothing when the queue is empty. */
    method PopLeft() returns (r: Option<Block>)
      requires Valid()
      modifies this`numFree, this`nodes, nodes`prev, nodes`next
      ensures Valid()
      ensures if old(Contents()) == [] then r == None && Contents() == []
              else r == Some(old(Contents())[0]) && Contents() == old(Contents())[1..] && Loose(r.value)
    {
      if head.next == tail || head.next == null {
        assert nodes[1] == head.next;
        return None;
      }
      var first := head.next;
      assert first == nodes[1] && nodes[2] == first.next;
      head.next := first.next;
      first.next.prev := head;
      first.prev, first.next := null, null;
      numFree := numFree - 1;
      InnerAfter(nodes, 1);
      nodes := [head] + nodes[2..];
      r := Some(first);
    }

    /** The first `n` blocks in order, none of them linked any more; false where the source's assertion fails. */
    method PopLeftN(n: nat) returns (ok: bool, ret: seq<Block>)
      requires Valid()
      modifies this`numFree, this`nodes, nodes`prev, nodes`next
      ensures Valid() && (ok <==> n <= |old(Contents())|)
      ensures !ok ==> Contents() == old(Contents())
      ensures ok ==> ret == old(Contents())[..n] && Contents() == old(Contents())[n..]
      ensures ok ==> forall i :: 0 <= i < |ret| ==> Loose(ret[i])
    {
      if n == 0 {
        return true, [];
      }
      if numFree < n {
        return false, [];
      }
      InnerAfter(nodes, n);
      ghost var before := nodes;
      numFree := numFree - n;
      nodes := [head] + before[n + 1..];
      assert head.next == before[1];
      ret := TakeOut(head, n, before);
      ok := true;
    }

    /** Where a block is; in the queue it is linked on both sides. */
    lemma Place(block: Block) returns (k: int)
      requires Valid() && (block in Contents() || Loose(block))
      ensures if block in Contents() then 0 < k < |nodes| - 1 && nodes[k] == block
                                         && block.prev == nodes[k - 1] && block.next == nodes[k + 1]
              else Loose(block)
    {
      k := 0;
      if block in Contents() {
        var i :| 0 <= i < |Contents()| && Contents()[i] == block;
        k := i + 1;
        assert nodes[k - 1].next == nodes[k];
      }
    }

    /** Takes a block out of the middle; false, with nothing changed, where the source raises an error. */
    method Remove(block: Block) returns (ok: bool)
      requires Valid() && (block in Contents() || Loose(block))
      modifies this`numFree, this`nodes, nodes`prev, nodes`next
      ensures Valid() && (ok <==> block in old(Contents()))
      ensures !ok ==> Contents() == old(Contents())
      ensures ok ==> Loose(block) && Contents() == Removed(old(Contents()), block)
      ensures forall b :: b in nodes ==> b in old(nodes)
    {
      ghost var k := Place(block);
      if block.prev == null || block.next == null {
        return false;
      }
      InnerWithout(nodes, k);
      ghost var before := nodes;
      numFree := numFree - 1;
      nodes := before[..k] + before[k + 1..];
      Detach(block, before, k);
      ok := true;
    }

    method Append(block: Block)
      requires Valid() && block !in nodes
      modifies this`numFree, this`nodes, nodes`prev, nodes`next, block`prev, block`next
      ensures Valid() && Contents() == old(Contents()) + [block]
    {
      ghost var full := Appended(nodes, [block]);
      assert tail.prev == nodes[|nodes| - 2];
      PutLast(tail.prev, [block], tail, nodes, full);
      numFree := numFree + 1;
      nodes := full;
    }

    /** Puts different blocks at the end, in order. */
    method AppendN(blocks: seq<Block>)
      requires Valid() && Distinct(blocks) && forall b :: b in blocks ==> b !in nodes
      modifies this`numFree, this`nodes, nodes`prev, nodes`next, blocks`prev, blocks`next
      ensures Valid() && Contents() == old(Contents()) + blocks
    {
      if |blocks| == 0 {
        return;
      }
      ghost var full := Appended(nodes, blocks);
      assert tail.prev == nodes[|nodes| - 2];
      PutLast(tail.prev, blocks, tail, nodes, full);
      numFree := numFree + |blocks|;
      nodes := full;
    }
  }
}
