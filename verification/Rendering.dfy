/** `SequenceGroup` (vllm/sequence.py) and `RequestOutput.from_seq_group` on a group (vllm/outputs.py). */
module Rendering {
  import opened Prelude
  import opened Streaming
  import opened Outputs

  predicate AllFinished(states: seq<SeqState>) {
    forall i :: 0 <= i < |states| ==> states[i].status.Finished()
  }

  ghost predicate AllValid(states: seq<SeqState>) {
    forall i :: 0 <= i < |states| ==> states[i].Valid()
  }

  /** The prompt goes out until some sequence, here among the first `n`, has handed out tokens before. */
  predicate PromptUpTo(states: seq<SeqState>, p: Params, n: nat)
    requires n <= |states|
  {
    p.kind.OnlyDeltas? ==> forall i :: 0 <= i < n ==> states[i].tokenOffset <= 0
  }

  predicate IncludesPrompt(states: seq<SeqState>, p: Params) {
    PromptUpTo(states, p, |states|)
  }

  /** The output of a group whose completions are `chunks`. */
  function GroupResponse(id: string, prompt: seq<Token>, states: seq<SeqState>, p: Params, chunks: seq<Completion>)
    : Response
  {
    Response(id, if IncludesPrompt(states, p) then Some(prompt) else None, chunks, AllFinished(states))
  }

  /** From one output to the next: a CUMULATIVE or final output always has the prompt, and a DELTA output has it until
      the first one with tokens has gone out. */
  lemma PromptUntilTokens(id: string, prompt: seq<Token>, states: seq<SeqState>, p: Params,
                          chunks: seq<Completion>, next: seq<SeqState>, later: seq<Completion>)
    requires AreChunks(states, p, chunks, next)
    ensures var now := GroupResponse(id, prompt, states, p, chunks);
            var then' := GroupResponse(id, prompt, next, p, later);
            && (now.prompt == None || now.prompt == Some(prompt))
            && (!p.kind.OnlyDeltas? || (forall i :: 0 <= i < |states| ==> states[i].tokenOffset == 0) ==>
                  now.prompt == Some(prompt))
            && (p.kind.OnlyDeltas? ==>
                  (then'.prompt == Some(prompt) <==>
                   now.prompt == Some(prompt) && forall i :: 0 <= i < |chunks| ==> chunks[i].tokens == []))
            && (now.finished <==> forall i :: 0 <= i < |states| ==> states[i].status.Finished())
  {
    if p.kind.OnlyDeltas? {
      forall i | 0 <= i < |states|
        ensures next[i].tokenOffset == states[i].tokenOffset + |chunks[i].tokens| && states[i].tokenOffset >= 0
      {
        assert IsChunk(states[i], p, i, chunks[i], next[i]);
        TokenDeltaIsExact(states[i].TextRead(p.buffer).1);
      }
    }
  }

  /** The sequence objects hold these values. */
  ghost predicate Holds(seqs: seq<Sequence>, states: seq<SeqState>)
    reads seqs, set s | s in seqs :: s.data, set s | s in seqs :: s.outputLogprobs
  {
    |seqs| == |states| && forall i :: 0 <= i < |seqs| ==> seqs[i].Value() == states[i]
  }

  /** Completion objects in the order of their indices, none used twice. */
  ghost predicate Slots(outputs: seq<CompletionOutput>) {
    && Distinct(outputs)
    && forall i :: 0 <= i < |outputs| ==> outputs[i].index == i
  }

  ghost predicate IsChunk(s: SeqState, p: Params, i: int, c: Completion, s': SeqState) {
    s.Valid() && Chunk(s, p, i) == (c, s')
  }

  /** `completions` is the output of a group in state `states`, and `next` its state afterwards. */
  ghost predicate AreChunks(states: seq<SeqState>, p: Params, completions: seq<Completion>, next: seq<SeqState>) {
    && |completions| == |next| == |states|
    && forall i {:trigger IsChunk(states[i], p, i, completions[i], next[i])} :: 0 <= i < |states| ==>
         IsChunk(states[i], p, i, completions[i], next[i])
  }

  method StillPrompt(soFar: bool, ghost s: SeqState, outputLen: nat, count: nat, p: Params) returns (r: bool)
    requires s.Valid() && outputLen == |s.data.output| && count == |Chunk(s, p, 0).0.tokens|
    ensures r == (soFar && (p.kind.OnlyDeltas? ==> s.tokenOffset <= 0))
  {
    if p.kind.OnlyDeltas? {
      TokenDeltaIsExact(s.TextRead(p.buffer).1);
    }
    r := soFar && !(p.kind.OnlyDeltas? && outputLen > count);
  }

  method EmitFresh(sequence: Sequence, i: int, p: Params, soFar: bool, ghost c: Completion, ghost s': SeqState)
    returns (o: CompletionOutput, withPrompt: bool)
    requires IsChunk(sequence.Value(), p, i, c, s')
    modifies sequence`lastTextOffset, sequence`lastTokenOffset
    ensures sequence.Value() == s'
    ensures fresh(o) && o.index == i && o.Value() == c
    ensures withPrompt == (soFar && (p.kind.OnlyDeltas? ==> old(sequence.Value()).tokenOffset <= 0))
  {
    ghost var s := sequence.Value();
    o := EmitChunk(sequence, i, p);
    withPrompt := StillPrompt(soFar, s, |sequence.data.outputTokenIds|, |o.tokenIds|, p);
  }

  /** Rewrites an existing completion: a single token goes into the old list after clearing it. */
  method EmitCached(sequence: Sequence, o: CompletionOutput, p: Params, soFar: bool,
                    ghost c: Completion, ghost s': SeqState)
    returns (withPrompt: bool)
    requires IsChunk(sequence.Value(), p, o.index, c, s')
    modifies sequence`lastTextOffset, sequence`lastTokenOffset, o
    ensures sequence.Value() == s' && o.Value() == c
    ensures withPrompt == (soFar && (p.kind.OnlyDeltas? ==> old(sequence.Value()).tokenOffset <= 0))
  {
    ghost var s := sequence.Value();
    var text, tokens, logprobs := NextChunk(sequence, p);
    withPrompt := StillPrompt(soFar, s, |sequence.data.outputTokenIds|, |tokens.Tokens()|, p);
    o.text := text;
    if tokens.One? {
      o.tokenIds := [];
      o.tokenIds := o.tokenIds + [tokens.token];
    } else {
      o.tokenIds := tokens.tokens;
    }
    o.cumulativeLogprob := if p.wantLogprobs then Some(sequence.data.cumulativeLogprob) else None;
    o.logprobs := logprobs;
    o.finishReason, o.stopReason := sequence.status.Reason(), sequence.stopReason;
  }

  /** The first `i` sequences have been written out. */
  ghost predicate Written(seqs: seq<Sequence>, outputs: seq<CompletionOutput>, i: int,
                          states: seq<SeqState>, chunks: seq<Completion>, next: seq<SeqState>)
    requires 0 <= i <= |outputs| && i <= |seqs| == |states| == |chunks| == |next|
    reads seqs, set s | s in seqs :: s.data, set s | s in seqs :: s.outputLogprobs,
          outputs, set o | o in outputs && o.logprobs != null :: o.logprobs
  {
    && (forall j :: 0 <= j < i ==> outputs[j].Value() == chunks[j])
    && (forall j :: 0 <= j < i ==> seqs[j].Value() == next[j])
    && (forall j :: i <= j < |seqs| ==> seqs[j].Value() == states[j])
  }

  method FreshOne(seqs: seq<Sequence>, outputs: seq<CompletionOutput>, p: Params, soFar: bool,
                  ghost states: seq<SeqState>, ghost chunks: seq<Completion>, ghost next: seq<SeqState>)
    returns (outputs': seq<CompletionOutput>, withPrompt: bool)
    requires Distinct(seqs) && Slots(outputs) && |outputs| < |seqs| == |states| == |chunks| == |next|
    requires IsChunk(states[|outputs|], p, |outputs|, chunks[|outputs|], next[|outputs|])
    requires Written(seqs, outputs, |outputs|, states, chunks, next) && soFar == PromptUpTo(states, p, |outputs|)
    modifies seqs[|outputs|]
    ensures |outputs'| == |outputs| + 1 && Slots(outputs')
    ensures Written(seqs, outputs', |outputs'|, states, chunks, next)
    ensures withPrompt == PromptUpTo(states, p, |outputs'|)
  {
    var i := |outputs|;
    var o;
    o, withPrompt := EmitFresh(seqs[i], i, p, soFar, chunks[i], next[i]);
    outputs' := outputs + [o];
    assert forall j :: 0 <= j < |seqs| && j != i ==> seqs[j] != seqs[i];
    forall j | 0 <= j < i
      ensures outputs'[j].Value() == chunks[j]
    {
      assert old(outputs[j].Value()) == chunks[j];
    }
    forall j | 0 <= j < |seqs| && j != i
      ensures seqs[j].Value() == old(seqs[j].Value())
    {
    }
  }

  method RenderFresh(seqs: seq<Sequence>, p: Params,
                     ghost states: seq<SeqState>, ghost chunks: seq<Completion>, ghost next: seq<SeqState>)
    returns (outputs: seq<CompletionOutput>, includePrompt: bool)
    requires Distinct(seqs) && Holds(seqs, states) && AreChunks(states, p, chunks, next)
    modifies seqs
    ensures Holds(seqs, next) && Slots(outputs) && Shows(outputs, chunks)
    ensures includePrompt == IncludesPrompt(states, p)
  {
    outputs, includePrompt := [], true;
    for i := 0 to |seqs|
      invariant |outputs| == i && Slots(outputs)
      invariant Written(seqs, outputs, i, states, chunks, next)
      invariant includePrompt == PromptUpTo(states, p, i)
    {
      assert IsChunk(states[i], p, i, chunks[i], next[i]);
      outputs, includePrompt := FreshOne(seqs, outputs, p, includePrompt, states, chunks, next);
    }
  }

  method FillOne(seqs: seq<Sequence>, slots: seq<CompletionOutput>, i: nat, p: Params, soFar: bool,
                 ghost states: seq<SeqState>, ghost chunks: seq<Completion>, ghost next: seq<SeqState>)
    returns (withPrompt: bool)
    requires Distinct(seqs) && Slots(slots) && i < |slots| == |seqs| == |states| == |chunks| == |next|
    requires IsChunk(states[i], p, i, chunks[i], next[i])
    requires Written(seqs, slots, i, states, chunks, next) && soFar == PromptUpTo(states, p, i)
    modifies seqs[i], slots[i]
    ensures Written(seqs, slots, i + 1, states, chunks, next)
    ensures withPrompt == PromptUpTo(states, p, i + 1)
  {
    withPrompt := EmitCached(seqs[i], slots[i], p, soFar, chunks[i], next[i]);
    assert forall j :: 0 <= j < |seqs| && j != i ==> seqs[j] != seqs[i] && slots[j] != slots[i];
    forall j | 0 <= j < i
      ensures slots[j].Value() == chunks[j]
    {
      assert old(slots[j].Value()) == chunks[j];
    }
    forall j | 0 <= j < |seqs| && j != i
      ensures seqs[j].Value() == old(seqs[j].Value())
    {
    }
  }

  /** The same loop writing into the cached completions. */
  method FillSlots(seqs: seq<Sequence>, slots: seq<CompletionOutput>, p: Params,
                   ghost states: seq<SeqState>, ghost chunks: seq<Completion>, ghost next: seq<SeqState>)
    returns (includePrompt: bool)
    requires Distinct(seqs) && Holds(seqs, states) && AreChunks(states, p, chunks, next)
    requires Slots(slots) && |slots| == |seqs|
    modifies seqs, slots
    ensures Holds(seqs, next) && Shows(slots, chunks)
    ensures includePrompt == IncludesPrompt(states, p)
  {
    includePrompt := true;
    for i := 0 to |seqs|
      invariant Written(seqs, slots, i, states, chunks, next)
      invariant includePrompt == PromptUpTo(states, p, i)
    {
      assert IsChunk(states[i], p, i, chunks[i], next[i]);
      includePrompt := FillOne(seqs, slots, i, p, includePrompt, states, chunks, next);
    }
  }

  /** One slot per sequence: the cached completions, then blank ones each carrying the index of its slot. */
  method PadSlots(cached: seq<CompletionOutput>, n: nat) returns (slots: seq<CompletionOutput>)
    requires Slots(cached)
    ensures |slots| == n && Slots(slots) && (slots <= cached || cached <= slots)
    ensures forall k :: 0 <= k < n ==> fresh(slots[k]) || slots[k] in cached
  {
    slots := Take(cached, n);
    while |slots| < n
      invariant |slots| <= n && Slots(slots) && (slots <= cached || cached <= slots)
      invariant forall k :: 0 <= k < |slots| ==> fresh(slots[k]) || slots[k] in cached
    {
      var blank := new CompletionOutput(|slots|, "", [], None, null, None, NoReason);
      slots := slots + [blank];
    }
  }

  class SequenceGroup {
    const requestId: string
    const firstSeq: Sequence
    const isSingleSeq: bool
    const params: Params
    var seqs: seq<Sequence>
    var cachedRequestOutput: RequestOutput?

    /** The index check on every cached completion is the second half of `Slots`. */
    ghost predicate Valid()
      reads this, cachedRequestOutput
    {
      && Distinct(seqs) && (isSingleSeq ==> seqs == [firstSeq])
      && (cachedRequestOutput != null ==> Slots(cachedRequestOutput.outputs))
    }

    constructor (requestId: string, seqs: seq<Sequence>, params: Params)
      requires seqs != [] && Distinct(seqs)
      ensures Valid() && this.seqs == seqs && this.requestId == requestId && this.params == params
      ensures firstSeq == seqs[0] && cachedRequestOutput == null
    {
      this.requestId, this.seqs, this.params := requestId, seqs, params;
      firstSeq, isSingleSeq := seqs[0], |seqs| == 1;
      cachedRequestOutput := null;
    }

    method IsFinished(ghost states: seq<SeqState>) returns (r: bool)
      requires Valid() && Holds(seqs, states)
      ensures r == AllFinished(states)
    {
      if isSingleSeq {
        assert seqs[0] == firstSeq;
        return firstSeq.status.Finished();
      }
      for i := 0 to |seqs|
        invariant forall j :: 0 <= j < i ==> states[j].status.Finished()
      {
        assert states[i] == seqs[i].Value();
        if !seqs[i].status.Finished() {
          return false;
        }
      }
      r := true;
    }

    /** The output of the group as it stands. Whether cached objects or new ones carry it makes no difference to any
        field of it, nor to the sequences. */
    method Render(useCache: bool, ghost states: seq<SeqState>, ghost chunks: seq<Completion>, ghost next: seq<SeqState>)
      returns (r: RequestOutput?)
      requires Valid() && Holds(seqs, states) && AreChunks(states, params, chunks, next)
      modifies this`cachedRequestOutput, seqs, cachedRequestOutput,
               if cachedRequestOutput == null then [] else cachedRequestOutput.outputs
      ensures Valid()
      ensures r == null <==> params.kind.FinalOnly? && !AllFinished(states)
      ensures Holds(seqs, if r == null then states else next)
      ensures r != null ==> r.Is(GroupResponse(requestId, firstSeq.data.promptTokenIds, states, params, chunks))
    {
      var finished := IsFinished(states);
      if params.kind.FinalOnly? && !finished {
        return null;
      }
      if useCache {
        InitCache();
        RenderIntoCache(cachedRequestOutput, finished, states, chunks, next);
        r := cachedRequestOutput;
      } else {
        r := RenderNew(finished, states, chunks, next);
      }
    }

    method InitCache()
      requires Valid()
      modifies this`cachedRequestOutput
      ensures Valid() && cachedRequestOutput != null
      ensures if old(cachedRequestOutput) != null then cachedRequestOutput == old(cachedRequestOutput)
              else fresh(cachedRequestOutput) && cachedRequestOutput.outputs == []
    {
      if cachedRequestOutput == null {
        cachedRequestOutput := new RequestOutput("", None, [], false);
      }
    }

    method RenderNew(finished: bool, ghost states: seq<SeqState>, ghost chunks: seq<Completion>,
                     ghost next: seq<SeqState>) returns (r: RequestOutput)
      requires Distinct(seqs) && finished == AllFinished(states)
      requires Holds(seqs, states) && AreChunks(states, params, chunks, next)
      modifies seqs
      ensures r.Is(GroupResponse(requestId, firstSeq.data.promptTokenIds, states, params, chunks))
      ensures Holds(seqs, next)
    {
      var outputs, includePrompt := RenderFresh(seqs, params, states, chunks, next);
      var prompt := if includePrompt then Some(firstSeq.data.promptTokenIds) else None;
      r := new RequestOutput(requestId, prompt, outputs, finished);
    }

    method RenderIntoCache(r: RequestOutput, finished: bool,
                           ghost states: seq<SeqState>, ghost chunks: seq<Completion>, ghost next: seq<SeqState>)
      requires Distinct(seqs) && Slots(r.outputs) && finished == AllFinished(states)
      requires Holds(seqs, states) && AreChunks(states, params, chunks, next)
      modifies seqs, r, r.outputs
      ensures Slots(r.outputs) && forall o :: o in r.outputs ==> fresh(o) || o in old(r.outputs)
      ensures r.Is(GroupResponse(requestId, firstSeq.data.promptTokenIds, states, params, chunks))
      ensures Holds(seqs, next)
    {
      var outputs := PadSlots(r.outputs, |seqs|);
      var includePrompt := FillSlots(seqs, outputs, params, states, chunks, next);
      var prompt := if includePrompt then Some(firstSeq.data.promptTokenIds) else None;
      r.Reinitialize(requestId, prompt, outputs, finished);
    }
  }
}
