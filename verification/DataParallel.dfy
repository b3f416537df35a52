/** Chunked execution in lockstep across data-parallel ranks: vllm/forward_context.py and the chunk loop of
    vllm/model_executor/layers/fused_moe/layer.py. */
module DataParallel {
  import opened Prelude

  // ----- What every rank learns about the others

  /** The vector one rank contributes: its own count, zero elsewhere. */
  function OneHot(n: int, size: nat, rank: nat): (v: seq<int>)
    requires rank < size
    ensures |v| == size
  {
    seq(size, i requires 0 <= i < size => if i == rank then n else 0)
  }

  function Add(a: seq<int>, b: seq<int>): (v: seq<int>)
    requires |a| == |b|
    ensures |v| == |a|
  {
    seq(|a|, i requires 0 <= i < |a| => a[i] + b[i])
  }

  /** The all-reduce over the first `ranks` ranks: the sum of their vectors. */
  function AllReduce(counts: seq<int>, ranks: nat): (v: seq<int>)
    requires ranks <= |counts|
    ensures |v| == |counts|
  {
    if ranks == 0 then seq(|counts|, _ => 0)
    else Add(AllReduce(counts, ranks - 1), OneHot(counts[ranks - 1], |counts|, ranks - 1))
  }

  lemma {:induction false} AllReducePartial(counts: seq<int>, ranks: nat)
    requires ranks <= |counts|
    ensures forall i :: 0 <= i < |counts| ==> AllReduce(counts, ranks)[i] == if i < ranks then counts[i] else 0
  {
    if ranks > 0 {
      AllReducePartial(counts, ranks - 1);
    }
  }

  /** Every rank ends up with every rank's count. */
  lemma AllReduceGathers(counts: seq<int>)
    ensures AllReduce(counts, |counts|) == counts
  {
    AllReducePartial(counts, |counts|);
  }

  /** Running sums, as `torch.cumsum`. */
  function Cumsum(xs: seq<int>): (c: seq<int>)
    ensures |c| == |xs|
  {
    if xs == [] then []
    else
      var c := Cumsum(xs[..|xs| - 1]);
      c + [(if c == [] then 0 else c[|c| - 1]) + xs[|xs| - 1]]
  }

  function Differences(cu: seq<int>): (d: seq<int>)
    ensures |d| == |cu|
  {
    seq(|cu|, i requires 0 <= i < |cu| => if i > 0 then cu[i] - cu[i - 1] else cu[0])
  }

  /** Differencing undoes the running sums. */
  lemma {:induction false} DifferencesUndoCumsum(xs: seq<int>)
    ensures Differences(Cumsum(xs)) == xs
  {
    if xs != [] {
      var init := xs[..|xs| - 1];
      DifferencesUndoCumsum(init);
      var c, d := Cumsum(xs), Differences(Cumsum(xs));
      forall i | 0 <= i < |xs|
        ensures d[i] == xs[i]
      {
      }
    }
  }

  function Max(xs: seq<int>): (m: int)
    requires xs != []
    ensures m in xs && forall x :: x in xs ==> x <= m
  {
    if |xs| == 1 then xs[0]
    else
      var m := Max(xs[1..]);
      assert forall x :: x in xs <==> x == xs[0] || x in xs[1..];
      if xs[0] > m then xs[0] else m
  }

  // ----- Chunk sizes

  /** The size of chunk `k` on a rank with `n` tokens; one dummy token once the rank is done. */
  function ChunkSize(n: int, maxSize: int, k: int): int {
    var rest := n - maxSize * k;
    var size := if maxSize <= rest then maxSize else rest;
    if size <= 0 then 1 else size
  }

  method ComputeChunkedLocalNumTokens(counts: seq<int>, maxNumTokens: int, chunkIdx: int) returns (sizes: seq<int>)
    ensures |sizes| == |counts|
    ensures forall i :: 0 <= i < |counts| ==> sizes[i] == ChunkSize(counts[i], maxNumTokens, chunkIdx)
  {
    sizes := seq(|counts|, _ => -1);
    for i := 0 to |counts|
      invariant |sizes| == |counts|
      invariant forall j :: 0 <= j < i ==> sizes[j] == ChunkSize(counts[j], maxNumTokens, chunkIdx)
    {
      var rest := counts[i] - maxNumTokens * chunkIdx;
      sizes := sizes[i := if maxNumTokens <= rest then maxNumTokens else rest];
      if sizes[i] <= 0 {
        sizes := sizes[i := 1];
      }
    }
  }

  class DPMetadata {
    const maxTokensAcrossDp: int
    const cuTokensAcrossDp: seq<int>
    var localSizes: Option<seq<int>>

    /** Built on any rank: the same for all of them. */
    constructor Make(counts: seq<int>)
      requires counts != []
      ensures maxTokensAcrossDp == Max(counts) && cuTokensAcrossDp == Cumsum(counts) && localSizes == None
    {
      AllReduceGathers(counts);
      var gathered := AllReduce(counts, |counts|);
      maxTokensAcrossDp, cuTokensAcrossDp := Max(gathered), Cumsum(gathered);
      localSizes := None;
    }

    /** Entering the context: the size of this chunk on every rank, recovered from the running sums. */
    method EnterChunk(maxChunkSize: int, chunkIdx: int, ghost counts: seq<int>) returns (sizes: seq<int>)
      requires cuTokensAcrossDp == Cumsum(counts)
      modifies this`localSizes
      ensures localSizes == Some(sizes) && |sizes| == |counts|
      ensures forall i :: 0 <= i < |counts| ==> sizes[i] == ChunkSize(counts[i], maxChunkSize, chunkIdx)
    {
      DifferencesUndoCumsum(counts);
      sizes := ComputeChunkedLocalNumTokens(Differences(cuTokensAcrossDp), maxChunkSize, chunkIdx);
      localSizes := Some(sizes);
    }

    method LeaveChunk()
      modifies this`localSizes
      ensures localSizes == None
    {
      localSizes := None;
    }
  }

  lemma Step(m: nat, k: nat)
    ensures m * (k + 1) == m * k + m
  {
  }

  /** The tokens a rank really processes in its first `k` chunks. */
  function RealTokens(n: nat, m: nat, k: nat): nat
    requires m > 0
  {
    if k == 0 then 0
    else
      RealTokens(n, m, k - 1)
      + if m * (k - 1) < n then ChunkSize(n, m, k - 1) as nat else 0
  }

  lemma {:induction false} RealTokensAre(n: nat, m: nat, k: nat)
    requires m > 0
    ensures RealTokens(n, m, k) == if m * k <= n then m * k else n
  {
    if k > 0 {
      RealTokensAre(n, m, k - 1);
    }
  }

  /** Chunk `k` of a rank with `n` tokens starts where the earlier ones ended, or is a dummy. */
  ghost predicate ChunkFits(n: nat, m: nat, k: nat)
    requires m > 0
  {
    var size := ChunkSize(n, m, k);
    && 1 <= size <= m
    && if m * k < n then RealTokens(n, m, k) == m * k && RealTokens(n, m, k + 1) == m * k + size
       else size == 1 && RealTokens(n, m, k + 1) == RealTokens(n, m, k) == n
  }

  lemma {:induction false} EveryChunkFits(n: nat, m: nat, k: nat)
    requires m > 0
    ensures ChunkFits(n, m, k)
  {
    RealTokensAre(n, m, k);
  }

  /** Sizes stay within 1..m; the chunks that are not dummies follow one another without gap or overlap, and enough
      chunks for the largest rank cover each rank's tokens exactly. */
  lemma {:induction false} ChunksTile(counts: seq<nat>, m: nat, chunks: nat, i: nat)
    requires m > 0 && i < |counts| && m * chunks >= Max(counts)
    ensures RealTokens(counts[i], m, chunks) == counts[i] && forall k: nat :: ChunkFits(counts[i], m, k)
  {
    assert counts[i] in counts;
    RealTokensAre(counts[i], m, chunks);
    forall k: nat
      ensures ChunkFits(counts[i], m, k)
    {
      EveryChunkFits(counts[i], m, k);
    }
  }

  // ----- The loop over the chunks

  function MapSeq<T, U>(f: T -> U, xs: seq<T>): (ys: seq<U>)
    ensures |ys| == |xs| && forall i :: 0 <= i < |xs| ==> ys[i] == f(xs[i])
  {
    seq(|xs|, i requires 0 <= i < |xs| => f(xs[i]))
  }

  /** The rows of a tensor slice; a negative start counts from the end and stops at the front. */
  function Slice<T>(xs: seq<T>, start: int, end: int): seq<T>
    requires end <= |xs|
  {
    var from := if start >= 0 then start else if |xs| + start >= 0 then |xs| + start else 0;
    if 0 <= from <= end then xs[from..end] else []
  }

  /** Copying `rows` over the output from `start` on. */
  method Store<U>(out: array<U>, start: nat, rows: seq<U>)
    requires start + |rows| <= out.Length
    modifies out
    ensures out[..] == old(out[..start]) + rows + old(out[start + |rows|..])
  {
    for j := 0 to |rows|
      invariant forall i :: 0 <= i < out.Length ==>
                              out[i] == if start <= i < start + j then rows[i - start] else old(out[i])
    {
      out[start + j] := rows[j];
    }
  }

  /** The bounds of a chunk after clamping them to the rank's own tokens. */
  function ClampedStart(start: int, n: int): int {
    if start <= n - 1 then start else n - 1
  }

  function ClampedEnd(start: int, m: int, maxTokens: int, n: int): int {
    var end := if start + m <= maxTokens then start + m else maxTokens;
    if end <= n then end else n
  }

  lemma {:induction false} ClampedSize(n: nat, m: nat, maxTokens: nat, k: nat)
    requires 0 < n <= maxTokens && m > 0 && m * k < maxTokens
    ensures ClampedEnd(m * k, m, maxTokens, n) - ClampedStart(m * k, n) == ChunkSize(n, m, k)
    ensures 0 <= ClampedStart(m * k, n) <= ClampedEnd(m * k, m, maxTokens, n) <= n
  {
  }

  /** The size of a chunk on every rank. */
  ghost predicate SizesOf(sizes: seq<int>, counts: seq<nat>, m: nat, k: nat) {
    |sizes| == |counts| && forall i :: 0 <= i < |counts| ==> sizes[i] == ChunkSize(counts[i], m, k)
  }

  /** One chunk: the rows of the clamped slice go through `f`, and into the output unless the rank is done. It
      fails, at the copy into the staging buffer, exactly on a rank without tokens. */
  method ProcessChunk<T, U>(input: seq<T>, out: array<U>, m: nat, maxTokens: nat, f: T -> U, k: nat)
    returns (ok: bool, size: int)
    requires m > 0 && out.Length == |input| <= maxTokens && m * k < maxTokens
    requires forall i :: 0 <= i < |input| && i < m * k ==> out[i] == f(input[i])
    modifies out
    ensures ok <==> input != []
    ensures ok ==> size == ChunkSize(|input|, m, k)
    ensures ok ==> forall i :: 0 <= i < |input| && i < m * (k + 1) ==> out[i] == f(input[i])
  {
    var n := |input|;
    var start, end := ClampedStart(m * k, n), ClampedEnd(m * k, m, maxTokens, n);
    var rows := Slice(input, start, end);
    size := end - start;
    if n > 0 {
      ClampedSize(n, m, maxTokens, k);
    }
    if |rows| != size {
      return false, size;
    }
    if m * k < n {
      Store(out, start, MapSeq(f, rows));
      forall i | 0 <= i < n && i < m * (k + 1)
        ensures out[i] == f(input[i])
      {
        assert out[i] == out[..][i];
      }
    }
    ok := true;
  }

  /** The layer runs `f` on each row, chunk by chunk, as often as the rank with most tokens needs, each time
      inside the context with the chunk's sizes. It fails exactly on a rank without tokens while another has some;
      otherwise the result is that of one pass over all rows. While chunk `k` runs, every rank holds the same list
      of sizes, and this rank's chunk has the size listed for it. No list is left behind, not by a failure either.
      */
  method ForwardChunked<T, U>(meta: DPMetadata, input: seq<T>, out: array<U>, m: nat, f: T -> U,
                              rank: nat, ghost counts: seq<nat>)
    returns (ok: bool, sizes: seq<int>, lists: seq<seq<int>>)
    requires m > 0 && rank < |counts| && counts[rank] == |input| == out.Length
    requires meta.maxTokensAcrossDp == Max(counts) && meta.cuTokensAcrossDp == Cumsum(counts) && meta.localSizes == None
    modifies out, meta`localSizes
    ensures meta.localSizes == None
    ensures ok <==> input != [] || Max(counts) == 0
    ensures ok ==> out[..] == MapSeq(f, input)
    ensures ok ==> m * |lists| >= Max(counts) && (lists != [] ==> m * (|lists| - 1) < Max(counts))
    ensures |sizes| == |lists|
    ensures forall k :: 0 <= k < |lists| ==> SizesOf(lists[k], counts, m, k) && sizes[k] == lists[k][rank]
  {
    var maxTokens := meta.maxTokensAcrossDp;
    assert counts[rank] in counts;
    var start, k := 0, 0;
    sizes, lists := [], [];
    while start < maxTokens
      invariant start == m * k && k == |lists| == |sizes| && meta.localSizes == None
      invariant k > 0 ==> input != [] && m * (k - 1) < maxTokens
      invariant forall j :: 0 <= j < k ==> SizesOf(lists[j], counts, m, j) && sizes[j] == lists[j][rank]
      invariant forall i :: 0 <= i < |input| && i < start ==> out[i] == f(input[i])
      decreases maxTokens - start
    {
      var list := meta.EnterChunk(m, k, counts);
      var size;
      ok, size := ProcessChunk(input, out, m, maxTokens, f, k);
      meta.LeaveChunk();
      if !ok {
        return;
      }
      sizes, lists := sizes + [size], lists + [list];
      Step(m, k);
      start, k := start + m, k + 1;
    }
    ok := true;
    assert out[..] == MapSeq(f, input);
  }

  /** A rank without tokens, next to one with four: its slice has no rows where one is expected. */
  lemma EmptyRankFails<T>()
    ensures var start, end := ClampedStart(0, 0), ClampedEnd(0, 4, 4, 0);
            |Slice<T>([], start, end)| == 0 && end - start == 1 == ChunkSize(0, 4, 0)
  {
  }
}
