/** The token bookkeeping of one sequence: `SequenceData` and its deltas in vllm/sequence.py. */
module TokenState {
  import opened Prelude

  datatype Stage = Prefill | Decode

  datatype Delta = Delta(newTokens: seq<Token>, logprob: real, computed: int, stage: Stage)

  /** The value held by a `SequenceData` object.
      `allTokens` is the prompt-plus-output cache and `pending` the tokens appended since the last delta. */
  datatype Data = Data(prompt: seq<Token>, output: seq<Token>, logprob: real, computed: int,
                       stage: Stage, allTokens: seq<Token>, pending: seq<Token>)
  {
    predicate CacheExact() {
      allTokens == prompt + output
    }

    function Len(): nat {
      |output| + |prompt|
    }

    function Uncomputed(): int {
      Len() - computed
    }

    function NumNewTokens(): int {
      if stage.Decode? then 1 else Uncomputed()
    }

    function Append(token: Token, tokenLogprob: real): Data {
      this.(output := output + [token], pending := pending + [token],
      allTokens := allTokens + [token], logprob := logprob + tokenLogprob)
    }

    /** `update_num_computed_tokens` when its assertion holds. */
    function Advance(k: int): Data {
      this.(computed := computed + k, stage := if computed + k == Len() then Decode else stage)
    }

    function Reset(): Data {
      this.(computed := 0, stage := Prefill, pending := [])
    }

    function CutDelta(): Delta {
      Delta(pending, logprob, computed, stage)
    }

    function AfterCut(): Data {
      this.(pending := [])
    }

    function Apply(d: Delta): Data {
      this.(computed := d.computed, logprob := d.logprob, stage := d.stage,
      output := output + d.newTokens, allTokens := allTokens + d.newTokens)
    }

    /** What a worker holds after decoding a full snapshot: every field, with the cache rebuilt. */
    function Decoded(): Data {
      this.(allTokens := prompt + output)
    }
  }

  function FromPrompt(prompt: seq<Token>): (d: Data)
    ensures d.CacheExact() && d.Uncomputed() == |prompt|
  {
    Data(prompt, [], 0.0, 0, Prefill, prompt, [])
  }

  /** The fields a delta is meant to keep equal on both sides. */
  ghost predicate SameView(a: Data, b: Data) {
    a == b.(pending := a.pending)
  }

  class SequenceData {
    const promptTokenIds: seq<Token>
    var outputTokenIds: seq<Token>
    var cumulativeLogprob: real
    var numComputedTokens: int
    var stage: Stage
    var cachedAllTokenIds: seq<Token>
    var newAppendedTokens: seq<Token>

    function Value(): Data
      reads this
    {
      Data(promptTokenIds, outputTokenIds, cumulativeLogprob, numComputedTokens, stage,
           cachedAllTokenIds, newAppendedTokens)
    }

    ghost predicate Valid()
      reads this
    {
      Value().CacheExact()
    }

    constructor (prompt: seq<Token>)
      ensures Valid() && Value() == FromPrompt(prompt)
    {
      promptTokenIds, outputTokenIds, cumulativeLogprob := prompt, [], 0.0;
      numComputedTokens, stage := 0, Prefill;
      cachedAllTokenIds, newAppendedTokens := prompt, [];
    }

    method AppendTokenId(token: Token, logprob: real)
      requires Valid()
      modifies this
      ensures Valid() && Value() == old(Value()).Append(token, logprob)
    {
      outputTokenIds := outputTokenIds + [token];
      newAppendedTokens := newAppendedTokens + [token];
      cachedAllTokenIds := cachedAllTokenIds + [token];
      cumulativeLogprob := cumulativeLogprob + logprob;
    }

    /** `ok` is false where the source's assertion fails; the counter has moved by then. */
    method UpdateNumComputedTokens(k: int) returns (ok: bool)
      requires Valid()
      modifies this
      ensures Valid() && ok == (k <= old(Value()).Uncomputed())
      ensures ok ==> Value() == old(Value()).Advance(k)
      ensures !ok ==> Value() == old(Value()).(computed := old(numComputedTokens) + k)
    {
      numComputedTokens := numComputedTokens + k;
      if numComputedTokens > |outputTokenIds| + |promptTokenIds| {
        return false;
      }
      if |outputTokenIds| + |promptTokenIds| - numComputedTokens == 0 {
        stage := Decode;
      }
      ok := true;
    }

    method ResetStateForRecompute()
      requires Valid()
      modifies this
      ensures Valid() && Value() == old(Value()).Reset()
    {
      numComputedTokens, stage, newAppendedTokens := 0, Prefill, [];
    }

    method GetDeltaAndReset() returns (delta: Delta)
      requires Valid()
      modifies this`newAppendedTokens
      ensures Valid() && delta == old(Value()).CutDelta() && Value() == old(Value()).AfterCut()
    {
      delta := Delta(newAppendedTokens, cumulativeLogprob, numComputedTokens, stage);
      newAppendedTokens := [];
    }

    method ApplyDelta(delta: Delta)
      requires Valid()
      modifies this
      ensures Valid() && Value() == old(Value()).Apply(delta)
    {
      numComputedTokens := delta.computed;
      cumulativeLogprob := delta.logprob;
      stage := delta.stage;
      outputTokenIds := outputTokenIds + delta.newTokens;
      cachedAllTokenIds := cachedAllTokenIds + delta.newTokens;
    }
  }
}
