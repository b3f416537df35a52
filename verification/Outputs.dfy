/** `CompletionOutput` and `RequestOutput` (vllm/outputs.py): building the output of a sequence group, with and
    without the per-group cache, and merging later outputs into earlier ones. */
module Outputs {
  import opened Prelude
  import opened Streaming

  datatype OutputKind = Cumulative | OnlyDeltas | FinalOnly

  datatype Params = Params(kind: OutputKind, buffer: nat, wantLogprobs: bool)

  /** The value of a `CompletionOutput`. */
  datatype Completion = Completion(index: int, text: string, tokens: seq<Token>, logprob: Option<real>,
                                   logprobs: Option<seq<Logprobs>>, finish: Option<string>, stop: StopReason)

  /** The value of a `RequestOutput`; the prompt is left out after the first output that carries tokens. */
  datatype Response = Response(requestId: string, prompt: Option<seq<Token>>, completions: seq<Completion>,
                               finished: bool)

  /** True when the chunk's logprob list is the sequence's own list and not a copy of part of it. */
  predicate SharesList(s: SeqState, p: Params) {
    p.wantLogprobs && (p.kind.OnlyDeltas? ==> s.logprobs == [])
  }

  function ChunkLogprobs(s: SeqState, p: Params, count: nat): Option<seq<Logprobs>>
    requires count <= |s.logprobs|
  {
    if !p.wantLogprobs then None
    else if SharesList(s, p) then Some(s.logprobs)
    else if count > 0 then Some(s.logprobs[|s.logprobs| - count..])
    else None
  }

  /** What one sequence contributes to an output, and the sequence afterwards. */
  function Chunk(s: SeqState, p: Params, i: int): (r: (Completion, SeqState))
    requires s.Valid()
    ensures r.1.Valid()
  {
    var (text, s1) := if p.kind.OnlyDeltas? then s.TextRead(p.buffer) else (s.CumulativeText(p.buffer), s);
    var (tokens, s2) := if p.kind.OnlyDeltas? then s1.TokenDelta() else (Many(s1.data.output), s1);
    (Completion(i, text, tokens.Tokens(), if p.wantLogprobs then Some(s.data.logprob) else None,
                ChunkLogprobs(s, p, |tokens.Tokens()|), s.status.Reason(), s.stopReason),
     s2)
  }

  /** Where a delta read moves the text offset to. */
  function NextTextOffset(s: SeqState, buffer: nat): int {
    if s.textOffset < s.ReturnableLength(buffer) then s.ReturnableLength(buffer) else s.textOffset
  }

  /** A DELTA chunk is the text, tokens and logprobs between the old offsets and the new ones. */
  lemma DeltaChunkIs(s: SeqState, p: Params, i: int)
    requires s.Valid() && s.textOffset <= |s.text| && p.kind.OnlyDeltas?
    ensures s.textOffset <= NextTextOffset(s, p.buffer) <= |s.text|
    ensures var count := |s.data.output| - s.tokenOffset;
            Chunk(s, p, i) ==
            (Completion(i, s.text[s.textOffset..NextTextOffset(s, p.buffer)], s.data.output[s.tokenOffset..],
                        if p.wantLogprobs then Some(s.data.logprob) else None, ChunkLogprobs(s, p, count),
                        s.status.Reason(), s.stopReason),
             s.(textOffset := NextTextOffset(s, p.buffer), tokenOffset := |s.data.output|))
  {
    TokenDeltaIsExact(s.TextRead(p.buffer).1);
    assert s.text[s.textOffset..s.textOffset] == "";
  }

  // ----- Merging

  /** `add` merging `d` into `c`; false where the source's assertion fails, with text and tokens already extended. */
  function Merge(c: Completion, d: Completion): (bool, Completion) {
    var c1 := c.(text := c.text + d.text, tokens := c.tokens + d.tokens);
    if d.logprobs.Some? && d.logprobs.value != [] then
      if c.logprobs.None? then (false, c1)
      else (true, c1.(logprobs := Some(c.logprobs.value + d.logprobs.value), logprob := d.logprob,
                  finish := d.finish, stop := d.stop))
    else (true, c1.(logprob := d.logprob, finish := d.finish, stop := d.stop))
  }

  function FirstWithIndex(cs: seq<Completion>, index: int): (i: nat)
    ensures i <= |cs| && (i < |cs| ==> cs[i].index == index)
    ensures forall j :: 0 <= j < i ==> cs[j].index != index
  {
    if cs == [] || cs[0].index == index then 0 else 1 + FirstWithIndex(cs[1..], index)
  }

  function AddOne(cs: seq<Completion>, d: Completion, aggregate: bool): (bool, seq<Completion>) {
    var i := FirstWithIndex(cs, d.index);
    if i == |cs| then (true, cs + [d])
    else if !aggregate then (true, cs[i := d])
    else var (ok, c) := Merge(cs[i], d); (ok, cs[i := c])
  }

  /** Adding every completion of the next output in turn, up to the first failure. */
  function AddAll(cs: seq<Completion>, ds: seq<Completion>, aggregate: bool): (bool, seq<Completion>)
    decreases |ds|
  {
    if ds == [] then (true, cs)
    else
      var (ok, cs1) := AddOne(cs, ds[0], aggregate);
      if ok then AddAll(cs1, ds[1..], aggregate) else (false, cs1)
  }

  predicate Indexed(cs: seq<Completion>) {
    forall i :: 0 <= i < |cs| ==> cs[i].index == i
  }

  /** Outputs of the same group line up: adding one merges position by position, and succeeds exactly if each
      merge does. */
  lemma {:induction false} AddAllIsPointwise(cs: seq<Completion>, ds: seq<Completion>, k: nat)
    requires Indexed(cs) && Indexed(ds) && |cs| == |ds| && k <= |ds|
    ensures var (ok, r) := AddAll(cs, ds[k..], true);
            && Indexed(r) && |r| == |cs|
            && (ok <==> forall i :: k <= i < |ds| ==> Merge(cs[i], ds[i]).0)
            && (ok ==> forall i :: 0 <= i < |cs| ==> r[i] == if i < k then cs[i] else Merge(cs[i], ds[i]).1)
    decreases |ds| - k
  {
    if k < |ds| {
      assert cs[k].index == ds[k].index == k;
      assert ds[k..][0] == ds[k] && ds[k..][1..] == ds[k + 1..];
      AddAllIsPointwise(cs[k := Merge(cs[k], ds[k]).1], ds, k + 1);
    }
  }

  /** The place of the last completion with this index, or -1. */
  function LastWithIndex(ds: seq<Completion>, index: int): (k: int)
    ensures -1 <= k < |ds| && (k >= 0 ==> ds[k].index == index)
    ensures forall j :: k < j < |ds| ==> ds[j].index != index
  {
    if ds == [] || ds[|ds| - 1].index == index then |ds| - 1 else LastWithIndex(ds[..|ds| - 1], index)
  }

  lemma {:induction false} LastCons(ds: seq<Completion>, index: int)
    requires ds != []
    ensures LastWithIndex(ds, index) == if LastWithIndex(ds[1..], index) >= 0 then 1 + LastWithIndex(ds[1..], index)
                                        else if ds[0].index == index then 0 else -1
    ensures LastWithIndex(ds, index) >= 0 <==> FirstWithIndex(ds, index) < |ds|
  {
    var k, k1 := LastWithIndex(ds, index), LastWithIndex(ds[1..], index);
    assert k1 >= 0 ==> ds[k1 + 1] == ds[1..][k1];
    assert k > 0 ==> ds[1..][k - 1] == ds[k];
  }

  /** `c` with every completion of this index merged in, in turn. */
  function MergedWith(c: Completion, ds: seq<Completion>, index: int): Completion
    decreases |ds|
  {
    if ds == [] then c else MergedWith(if ds[0].index == index then Merge(c, ds[0]).1 else c, ds[1..], index)
  }

  /** One completion goes to the first place with its index, or behind all others; nothing else moves. */
  lemma {:induction false} AddOneIs(cs: seq<Completion>, d: Completion, aggregate: bool, x: int)
    ensures var (cs1, a) := (AddOne(cs, d, aggregate).1, FirstWithIndex(cs, d.index));
            && |cs1| == (if a < |cs| then |cs| else |cs| + 1) && cs1[a].index == d.index
            && (forall i :: 0 <= i < |cs| && i != a ==> cs1[i] == cs[i])
            && FirstWithIndex(cs1, x) == if x == d.index || FirstWithIndex(cs, x) < |cs| then FirstWithIndex(cs, x)
                                         else |cs1|
  {
    var cs1 := AddOne(cs, d, aggregate).1;
    var b, b1 := FirstWithIndex(cs, x), FirstWithIndex(cs1, x);
    assert forall i :: 0 <= i < |cs| ==> cs1[i].index == cs[i].index;
    assert b < |cs| || x == d.index ==> cs1[b].index == x;
    assert b1 < |cs| ==> cs[b1].index == x;
  }

  /** Completions keep their places and indices, and one that is not the first of its index stays as it is. */
  lemma {:induction false} AddKeepsPlaces(cs: seq<Completion>, ds: seq<Completion>, aggregate: bool, i: nat)
    requires i < |cs|
    ensures var r := AddAll(cs, ds, aggregate).1;
            |cs| <= |r| && r[i].index == cs[i].index && (FirstWithIndex(cs, cs[i].index) < i ==> r[i] == cs[i])
    decreases |ds|
  {
    if ds != [] {
      AddOneIs(cs, ds[0], aggregate, cs[i].index);
      AddKeepsPlaces(AddOne(cs, ds[0], aggregate).1, ds[1..], aggregate, i);
    }
  }

  /** An index keeps its place, and holds something afterwards exactly if it did or was given. One that was not given
      holds what it held. */
  lemma {:induction false} AddFinds(cs: seq<Completion>, ds: seq<Completion>, aggregate: bool, x: int)
    requires AddAll(cs, ds, aggregate).0
    ensures var (r, a) := (AddAll(cs, ds, aggregate).1, FirstWithIndex(cs, x));
            && (FirstWithIndex(r, x) < |r| <==> a < |cs| || FirstWithIndex(ds, x) < |ds|)
            && (a < |cs| ==> FirstWithIndex(r, x) == a && (FirstWithIndex(ds, x) == |ds| ==> r[a] == cs[a]))
    decreases |ds|
  {
    if ds != [] {
      AddOneIs(cs, ds[0], aggregate, x);
      AddFinds(AddOne(cs, ds[0], aggregate).1, ds[1..], aggregate, x);
    }
  }

  /** Without merging nothing fails, and an index that was given holds the last completion given with it. */
  lemma {:induction false} ReplaceHoldsLast(cs: seq<Completion>, ds: seq<Completion>, x: int)
    ensures var (ok, r) := AddAll(cs, ds, false);
            && ok
            && (LastWithIndex(ds, x) >= 0 ==>
                  FirstWithIndex(r, x) < |r| && r[FirstWithIndex(r, x)] == ds[LastWithIndex(ds, x)])
    decreases |ds|
  {
    if ds != [] {
      var cs1 := AddOne(cs, ds[0], false).1;
      ReplaceHoldsLast(cs1, ds[1..], x);
      LastCons(ds, x);
      if LastWithIndex(ds[1..], x) < 0 && ds[0].index == x {
        AddOneIs(cs, ds[0], false, x);
        assert FirstWithIndex(ds[1..], x) == |ds| - 1;
        AddFinds(cs1, ds[1..], false, x);
      }
    }
  }

  /** With merging, all completions given with an index are merged in turn into the one it held, or, if it is new, into
      the first of them. */
  lemma {:induction false} MergeHoldsAll(cs: seq<Completion>, ds: seq<Completion>, x: int)
    requires AddAll(cs, ds, true).0
    ensures var (r, a, f) := (AddAll(cs, ds, true).1, FirstWithIndex(cs, x), FirstWithIndex(ds, x));
            && (a < |cs| ==> a < |r| && r[a] == MergedWith(cs[a], ds, x))
            && (a == |cs| && f < |ds| ==> FirstWithIndex(r, x) < |r|
                                          && r[FirstWithIndex(r, x)] == MergedWith(ds[f], ds[f + 1..], x))
    decreases |ds|
  {
    if ds != [] {
      var cs1 := AddOne(cs, ds[0], true).1;
      AddOneIs(cs, ds[0], true, x);
      MergeHoldsAll(cs1, ds[1..], x);
      AddFinds(cs1, ds[1..], true, x);
      var f := FirstWithIndex(ds, x);
      if 0 < f < |ds| {
        assert ds[1..][f - 1..] == ds[f..] && ds[1..][f..] == ds[f + 1..];
      }
    }
  }

  /** Completions with new indices follow, each index once, in the order in which they were first given. */
  lemma {:induction false} NewOnesFollow(cs: seq<Completion>, ds: seq<Completion>, aggregate: bool, i: nat)
    requires AddAll(cs, ds, aggregate).0 && |cs| <= i < |AddAll(cs, ds, aggregate).1|
    ensures var r := AddAll(cs, ds, aggregate).1;
            && FirstWithIndex(r, r[i].index) == i && FirstWithIndex(ds, r[i].index) < |ds|
            && (forall j :: i < j < |r| ==> FirstWithIndex(ds, r[i].index) < FirstWithIndex(ds, r[j].index))
    decreases |ds|
  {
    if ds != [] {
      var cs1, r := AddOne(cs, ds[0], aggregate).1, AddAll(cs, ds, aggregate).1;
      AddOneIs(cs, ds[0], aggregate, ds[0].index);
      AddKeepsPlaces(cs1, ds[1..], aggregate, FirstWithIndex(cs, ds[0].index));
      AddFinds(cs1, ds[1..], aggregate, ds[0].index);
      forall j | |cs1| <= j < |r|
        ensures FirstWithIndex(r, r[j].index) == j && FirstWithIndex(ds[1..], r[j].index) < |ds| - 1
        ensures forall l :: j < l < |r| ==> FirstWithIndex(ds[1..], r[j].index) < FirstWithIndex(ds[1..], r[l].index)
      {
        NewOnesFollow(cs1, ds[1..], aggregate, j);
      }
      FollowStep(ds, r, FirstWithIndex(cs, ds[0].index), |cs1|, i);
    }
  }

  /** If the new ones from `base` on follow in the order of the rest, they do in the order of all, behind the first. */
  lemma {:induction false} FollowStep(ds: seq<Completion>, r: seq<Completion>, a: nat, base: nat, i: nat)
    requires ds != [] && a < base <= |r| && i < |r| && (i == a || base <= i) && r[a].index == ds[0].index
    requires FirstWithIndex(r, ds[0].index) == a
    requires forall j :: base <= j < |r| ==>
                           FirstWithIndex(r, r[j].index) == j && FirstWithIndex(ds[1..], r[j].index) < |ds| - 1
    requires forall j, l :: base <= j < l < |r| ==>
                              FirstWithIndex(ds[1..], r[j].index) < FirstWithIndex(ds[1..], r[l].index)
    ensures FirstWithIndex(r, r[i].index) == i && FirstWithIndex(ds, r[i].index) < |ds|
    ensures forall j :: i < j < |r| && base <= j ==> FirstWithIndex(ds, r[i].index) < FirstWithIndex(ds, r[j].index)
  {
    forall j | base <= j < |r|
      ensures FirstWithIndex(ds, r[j].index) == 1 + FirstWithIndex(ds[1..], r[j].index)
    {
      assert r[j].index != ds[0].index;
    }
  }

  /** The first `k` completions of the next output in their places. */
  function UpTo(cs: seq<Completion>, ds: seq<Completion>, k: nat): seq<Completion>
    requires k <= |ds|
  {
    ds[..k] + if k < |cs| then cs[k..] else []
  }

  lemma {:induction false} IndexedFirst(cs: seq<Completion>, k: nat)
    requires Indexed(cs) && k <= |cs|
    ensures FirstWithIndex(cs, k) == k
  {
    assert FirstWithIndex(cs, k) < |cs| ==> cs[FirstWithIndex(cs, k)].index == FirstWithIndex(cs, k);
    assert k < |cs| ==> cs[k].index == k;
  }

  lemma {:induction false} ReplacesFrom(cs: seq<Completion>, ds: seq<Completion>, k: nat)
    requires Indexed(cs) && Indexed(ds) && k <= |ds|
    ensures AddAll(UpTo(cs, ds, k), ds[k..], false) == (true, UpTo(cs, ds, |ds|))
    decreases |ds| - k
  {
    if k < |ds| {
      var now := UpTo(cs, ds, k);
      IndexedFirst(now, k);
      assert AddOne(now, ds[k], false).1 == UpTo(cs, ds, k + 1);
      assert ds[k..][0] == ds[k] && ds[k..][1..] == ds[k + 1..];
      ReplacesFrom(cs, ds, k + 1);
    }
  }

  /** Outputs of the same group line up: without merging, the next output takes the place of the earlier one. */
  lemma {:induction false} ReplacesAll(cs: seq<Completion>, ds: seq<Completion>)
    requires Indexed(cs) && Indexed(ds) && |cs| <= |ds|
    ensures AddAll(cs, ds, false) == (true, ds)
  {
    assert UpTo(cs, ds, 0) == cs && ds[0..] == ds && UpTo(cs, ds, |ds|) == ds;
    ReplacesFrom(cs, ds, 0);
  }

  /** Where merging fails, everything before is merged, and the text and the tokens of the failing completion are too:
      it brings logprobs that the one it meets has no list for. */
  lemma {:induction false} AddStopsAt(cs: seq<Completion>, ds: seq<Completion>) returns (k: nat, a: nat)
    requires !AddAll(cs, ds, true).0
    ensures k < |ds| && AddAll(cs, ds[..k], true).0
    ensures var (r, was) := (AddAll(cs, ds, true).1, AddAll(cs, ds[..k], true).1);
            && a < |was| && was[a].index == ds[k].index && was[a].logprobs.None?
            && ds[k].logprobs.Some? && ds[k].logprobs.value != []
            && r == was[a := was[a].(text := was[a].text + ds[k].text, tokens := was[a].tokens + ds[k].tokens)]
    decreases |ds|
  {
    var (ok, cs1) := AddOne(cs, ds[0], true);
    if !ok {
      k, a := 0, FirstWithIndex(cs, ds[0].index);
    } else {
      k, a := AddStopsAt(cs1, ds[1..]);
      assert ds[..k + 1][0] == ds[0] && ds[..k + 1][1..] == ds[1..][..k];
      k := k + 1;
    }
  }

  class CompletionOutput {
    const index: int
    var text: string
    var tokenIds: seq<Token>
    var cumulativeLogprob: Option<real>
    var logprobs: LogprobList?
    var finishReason: Option<string>
    var stopReason: StopReason

    function Value(): Completion
      reads this, logprobs
    {
      Completion(index, text, tokenIds, cumulativeLogprob,
                 if logprobs == null then None else Some(logprobs.items), finishReason, stopReason)
    }

    constructor (index: int, text: string, tokenIds: seq<Token>, cumulativeLogprob: Option<real>,
                 logprobs: LogprobList?, finishReason: Option<string>, stopReason: StopReason)
      ensures this.index == index && this.logprobs == logprobs
      ensures Value() == Completion(index, text, tokenIds, cumulativeLogprob,
                                    if logprobs == null then None else Some(logprobs.items), finishReason, stopReason)
    {
      this.index, this.text, this.tokenIds := index, text, tokenIds;
      this.cumulativeLogprob, this.logprobs := cumulativeLogprob, logprobs;
      this.finishReason, this.stopReason := finishReason, stopReason;
    }

    /** The list is extended in place, so whoever shares it sees the new entries too. */
    method MergeFrom(next: CompletionOutput) returns (ok: bool)
      requires next != this
      modifies this, logprobs
      ensures (ok, Value()) == Merge(old(Value()), old(next.Value()))
      ensures logprobs == old(logprobs)
    {
      text := text + next.text;
      tokenIds := tokenIds + next.tokenIds;
      if next.logprobs != null && next.logprobs.items != [] {
        if logprobs == null {
          return false;
        }
        logprobs.items := logprobs.items + next.logprobs.items;
      }
      cumulativeLogprob := next.cumulativeLogprob;
      finishReason, stopReason := next.finishReason, next.stopReason;
      ok := true;
    }
  }

  /** The completion objects, from the `k`th on, hold these values. */
  ghost predicate Shows(outputs: seq<CompletionOutput>, completions: seq<Completion>, k: nat := 0)
    reads outputs, set o | o in outputs && o.logprobs != null :: o.logprobs
  {
    |outputs| == |completions| && forall i :: k <= i < |outputs| ==> outputs[i].Value() == completions[i]
  }

  /** Different objects with different lists. */
  ghost predicate Apart(a: CompletionOutput, b: CompletionOutput)
    reads a, b
  {
    a != b && (a.logprobs == null || a.logprobs != b.logprobs)
  }

  ghost predicate AllApart(xs: seq<CompletionOutput>, k: nat)
    reads xs
  {
    forall i, j :: k <= i < j < |xs| ==> Apart(xs[i], xs[j])
  }

  /** The completions from the `k`th on are different from `xs`. */
  ghost predicate ApartFrom(xs: seq<CompletionOutput>, ys: seq<CompletionOutput>, k: nat)
    reads xs, ys
  {
    forall i, j :: 0 <= i < |xs| && k <= j < |ys| ==> Apart(xs[i], ys[j])
  }

  ghost function Lists(outputs: seq<CompletionOutput>): set<LogprobList>
    reads outputs
  {
    set o | o in outputs && o.logprobs != null :: o.logprobs
  }

  /** The inner loop of `add`: the place of the first completion with this index, if there is one. */
  method FindCompletion(outputs: seq<CompletionOutput>, index: int, ghost cs: seq<Completion>) returns (i: nat)
    requires Shows(outputs, cs)
    ensures i == FirstWithIndex(cs, index)
  {
    i := 0;
    while i < |outputs| && outputs[i].index != index
      invariant i <= |outputs| && forall j :: 0 <= j < i ==> cs[j].index != index
    {
      assert outputs[i].Value() == cs[i];
      i := i + 1;
    }
    assert i < |outputs| ==> outputs[i].Value() == cs[i];
  }

  /** The first completion with the index of `next` is extended or replaced by it, or it is appended. */
  method AddCompletion(outputs: seq<CompletionOutput>, next: CompletionOutput, aggregate: bool,
                       ghost cs: seq<Completion>)
    returns (ok: bool, outputs': seq<CompletionOutput>)
    requires Shows(outputs, cs) && AllApart(outputs, 0)
    requires forall i :: 0 <= i < |outputs| ==> Apart(outputs[i], next)
    modifies outputs, Lists(outputs)
    ensures ok == AddOne(cs, old(next.Value()), aggregate).0
    ensures Shows(outputs', AddOne(cs, old(next.Value()), aggregate).1) && AllApart(outputs', 0)
    ensures forall i :: 0 <= i < |outputs'| ==> outputs'[i] == next || (i < |outputs| && outputs'[i] == outputs[i])
    ensures aggregate ==> outputs <= outputs'
    ensures forall o :: o in outputs ==> o.logprobs == old(o.logprobs)
  {
    var i := FindCompletion(outputs, next.index, cs);
    if i == |outputs| {
      return true, outputs + [next];
    }
    if aggregate {
      ok := outputs[i].MergeFrom(next);
      outputs' := outputs;
      forall j | 0 <= j < |outputs| && j != i
        ensures outputs[j].Value() == cs[j] && outputs[j].logprobs == old(outputs[j].logprobs)
      {
        assert if j < i then Apart(outputs[j], outputs[i]) else Apart(outputs[i], outputs[j]);
        assert old(outputs[j].Value()) == cs[j];
      }
    } else {
      ok, outputs' := true, outputs[i := next];
    }
  }

  /** The completions still to be added stay as they are, and apart. */
  method AddNext(outputs: seq<CompletionOutput>, todo: seq<CompletionOutput>, k: nat, aggregate: bool,
                 ghost cs: seq<Completion>, ghost ds: seq<Completion>)
    returns (ok: bool, outputs': seq<CompletionOutput>)
    requires k < |todo| && Shows(outputs, cs) && AllApart(outputs, 0) && ApartFrom(outputs, todo, k)
    requires Shows(todo, ds, k) && AllApart(todo, k)
    modifies outputs, Lists(outputs)
    ensures ok == AddOne(cs, ds[k], aggregate).0
    ensures Shows(outputs', AddOne(cs, ds[k], aggregate).1) && AllApart(outputs', 0)
    ensures Shows(todo, ds, k + 1) && ApartFrom(outputs', todo, k + 1) && AllApart(todo, k + 1)
    ensures forall i :: 0 <= i < |outputs'| ==> outputs'[i] == todo[k] || (i < |outputs| && outputs'[i] == outputs[i])
    ensures aggregate ==> outputs <= outputs'
    ensures forall o :: o in outputs ==> o.logprobs == old(o.logprobs)
    ensures forall j :: k <= j < |todo| ==> todo[j].logprobs == old(todo[j].logprobs)
  {
    ok, outputs' := AddCompletion(outputs, todo[k], aggregate, cs);
  }

  /** The completions are among `objects`, and their lists among `lists`. */
  ghost predicate Owned(xs: seq<CompletionOutput>, objects: set<CompletionOutput>, lists: set<LogprobList>)
    reads xs
  {
    forall i :: 0 <= i < |xs| ==> xs[i] in objects && (xs[i].logprobs == null || xs[i].logprobs in lists)
  }

  lemma Together(xs: seq<CompletionOutput>, ys: seq<CompletionOutput>)
    returns (objects: set<CompletionOutput>, lists: set<LogprobList>)
    ensures Owned(xs, objects, lists) && Owned(ys, objects, lists)
    ensures forall o :: o in objects ==> o in xs || o in ys
    ensures lists == Lists(xs) + Lists(ys)
  {
    objects, lists := (set o | o in xs + ys), Lists(xs) + Lists(ys);
  }

  /** The outer loop of `add`. */
  method AddEach(given: seq<CompletionOutput>, todo: seq<CompletionOutput>, aggregate: bool,
                 ghost cs: seq<Completion>, ghost ds: seq<Completion>,
                 ghost objects: set<CompletionOutput>, ghost lists: set<LogprobList>)
    returns (ok: bool, outputs: seq<CompletionOutput>)
    requires Shows(given, cs) && Shows(todo, ds)
    requires AllApart(given, 0) && AllApart(todo, 0) && ApartFrom(given, todo, 0)
    requires Owned(given, objects, lists) && Owned(todo, objects, lists)
    modifies objects, lists
    ensures ok == AddAll(cs, ds, aggregate).0 && Shows(outputs, AddAll(cs, ds, aggregate).1)
    ensures aggregate ==> given <= outputs
  {
    outputs := given;
    ghost var cs' := cs;
    for k := 0 to |todo|
      invariant Shows(outputs, cs') && Shows(todo, ds, k)
      invariant AllApart(outputs, 0) && AllApart(todo, k) && ApartFrom(outputs, todo, k)
      invariant Owned(outputs, objects, lists) && Owned(todo[k..], objects, lists)
      invariant AddAll(cs, ds, aggregate) == AddAll(cs', ds[k..], aggregate) && (aggregate ==> given <= outputs)
    {
      assert ds[k..][0] == ds[k] && ds[k..][1..] == ds[k + 1..];
      assert todo[k..][0] == todo[k] && todo[k..][1..] == todo[k + 1..];
      ok, outputs := AddNext(outputs, todo, k, aggregate, cs', ds);
      cs' := AddOne(cs', ds[k], aggregate).1;
      if !ok {
        return;
      }
    }
    ok := true;
  }

  class RequestOutput {
    var requestId: string
    var prompt: Option<seq<Token>>
    var outputs: seq<CompletionOutput>
    var finished: bool

    ghost predicate Is(r: Response)
      reads this, outputs, set o | o in outputs && o.logprobs != null :: o.logprobs
    {
      requestId == r.requestId && prompt == r.prompt && Shows(outputs, r.completions) && finished == r.finished
    }

    constructor (requestId: string, prompt: Option<seq<Token>>, outputs: seq<CompletionOutput>, finished: bool)
      ensures this.requestId == requestId && this.prompt == prompt
      ensures this.outputs == outputs && this.finished == finished
    {
      this.requestId, this.prompt, this.outputs, this.finished := requestId, prompt, outputs, finished;
    }

    /** The constructor called again on an existing object. */
    method Reinitialize(requestId: string, prompt: Option<seq<Token>>, outputs: seq<CompletionOutput>, finished: bool)
      modifies this
      ensures this.requestId == requestId && this.prompt == prompt
      ensures this.outputs == outputs && this.finished == finished
    {
      this.requestId, this.prompt, this.outputs, this.finished := requestId, prompt, outputs, finished;
    }

    /** `add`: the finished flags are combined, and the completions of the next output go in one after the
        other. Merging leaves the completion objects in their places. */
    method Add(next: RequestOutput, aggregate: bool, ghost cs: seq<Completion>, ghost ds: seq<Completion>)
      returns (ok: bool)
      requires Shows(outputs, cs) && Shows(next.outputs, ds)
      requires AllApart(outputs, 0) && AllApart(next.outputs, 0) && ApartFrom(outputs, next.outputs, 0)
      modifies this`outputs, this`finished, outputs, Lists(outputs), next.outputs, Lists(next.outputs)
      ensures finished == (old(finished) || old(next.finished))
      ensures ok == AddAll(cs, ds, aggregate).0 && Shows(outputs, AddAll(cs, ds, aggregate).1)
      ensures aggregate ==> old(outputs) <= outputs
    {
      var given, todo := outputs, next.outputs;
      ghost var objects, lists := Together(given, todo);
      finished := finished || next.finished;
      ok, given := AddEach(given, todo, aggregate, cs, ds, objects, lists);
      outputs := given;
    }
  }

  // ----- One sequence's share of an output

  /** The fields of a chunk, read from the live sequence. A slice is a new list; otherwise the list is shared. */
  method NextChunk(sequence: Sequence, p: Params)
    returns (text: string, tokens: TokenRead, logprobs: LogprobList?)
    requires sequence.Valid()
    modifies sequence`lastTextOffset, sequence`lastTokenOffset
    ensures sequence.Valid() && sequence.Value() == Chunk(old(sequence.Value()), p, 0).1
    ensures var c := Chunk(old(sequence.Value()), p, 0).0;
            && text == c.text && tokens.Tokens() == c.tokens
            && c.logprobs == if logprobs == null then None else Some(logprobs.items)
    ensures logprobs == null || fresh(logprobs) || logprobs == sequence.outputLogprobs
    ensures logprobs == sequence.outputLogprobs <==> SharesList(old(sequence.Value()), p)
    ensures tokens.One? ==> p.kind.OnlyDeltas?
  {
    ghost var s := sequence.Value();
    var delta := p.kind.OnlyDeltas?;
    text := sequence.GetOutputTextToReturn(p.buffer, delta);
    tokens := sequence.GetOutputTokenIdsToReturn(delta);
    var count := if tokens.One? then 1 else |tokens.tokens|;
    assert count == |tokens.Tokens()| <= |s.logprobs|;
    logprobs := if p.wantLogprobs then sequence.outputLogprobs else null;
    if delta && logprobs != null {
      logprobs := SliceLogprobs(logprobs, count);
    }
  }

  /** A new completion that holds the sequence's chunk. */
  method EmitChunk(sequence: Sequence, i: int, p: Params) returns (d: CompletionOutput)
    requires sequence.Valid()
    modifies sequence`lastTextOffset, sequence`lastTokenOffset
    ensures fresh(d) && d.index == i && sequence.Valid()
    ensures (d.Value(), sequence.Value()) == Chunk(old(sequence.Value()), p, i)
    ensures d.logprobs == null || fresh(d.logprobs) || d.logprobs == sequence.outputLogprobs
    ensures d.logprobs == sequence.outputLogprobs <==> SharesList(old(sequence.Value()), p)
  {
    var text, tokens, logprobs := NextChunk(sequence, p);
    d := new CompletionOutput(i, text, tokens.Tokens(),
                              if p.wantLogprobs then Some(sequence.data.cumulativeLogprob) else None,
                              logprobs, sequence.status.Reason(), sequence.stopReason);
  }

  /** The last `count` entries as a new list, none at all for no tokens, and the list itself while it is empty. */
  method SliceLogprobs(list: LogprobList, count: nat) returns (r: LogprobList?)
    requires count <= |list.items|
    ensures if list.items == [] then r == list
            else if count == 0 then r == null
            else r != null && fresh(r) && r.items == list.items[|list.items| - count..]
  {
    if list.items == [] {
      return list;
    }
    if count > 0 {
      r := new LogprobList(list.items[|list.items| - count..]);
    } else {
      r := null;
    }
  }
}
