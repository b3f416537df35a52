/** `NoBadWordsLogitsProcessor` (vllm/logits_process.py). */
module BadWords {
  import opened Prelude

  /** A logit: minus infinity bans a token. */
  datatype Logit = NegInf | Fin(value: real)
  {
    function Plus(other: Logit): Logit {
      if NegInf? || other.NegInf? then NegInf else Fin(value + other.value)
    }
  }

  const NEUTRAL: Logit := Fin(0.0)

  predicate EndsWith(tokens: seq<Token>, word: seq<Token>) {
    |word| <= |tokens| && tokens[|tokens| - |word|..] == word
  }

  /** Token `t` after `past` would complete a bad word. */
  ghost predicate Completes(words: seq<seq<Token>>, past: seq<Token>, t: Token) {
    exists i :: 0 <= i < |words| && EndsWith(past + [t], words[i])
  }

  /** What the processor is to make of the logits. */
  ghost function Processed(words: seq<seq<Token>>, past: seq<Token>, logits: seq<Logit>): (r: seq<Logit>)
    ensures |r| == |logits|
    ensures forall t :: 0 <= t < |logits| ==> r[t] == if Completes(words, past, t) then NegInf else logits[t]
  {
    seq(|logits|, t requires 0 <= t < |logits| => if Completes(words, past, t) then NegInf else logits[t])
  }

  ghost predicate Clean(words: seq<seq<Token>>, tokens: seq<Token>) {
    forall i, p :: 0 <= i < |words| ==> !OccursAt(tokens, words[i], p)
  }

  predicate AllNonempty(words: seq<seq<Token>>) {
    forall i :: 0 <= i < |words| ==> words[i] != []
  }

  predicate InVocabulary(words: seq<seq<Token>>, vocab: nat) {
    forall i :: 0 <= i < |words| ==> forall k :: 0 <= k < |words[i]| ==> 0 <= words[i][k] < vocab
  }

  /** Among the first `n` words, one of a single token that is `t`. */
  ghost predicate SingleAmong(words: seq<seq<Token>>, n: int, t: Token) {
    exists i :: 0 <= i < n <= |words| && words[i] == [t]
  }

  /** Among the first `n` words, one of several tokens that `t` would complete. */
  ghost predicate LongerAmong(words: seq<seq<Token>>, n: int, past: seq<Token>, t: Token) {
    exists i :: 0 <= i < n <= |words| && |words[i]| > 1 && EndsWith(past + [t], words[i])
  }

  class NoBadWordsLogitsProcessor {
    const badWords: seq<seq<Token>>
    var wordBias: Option<seq<Logit>>

    ghost predicate Valid()
      reads this
    {
      wordBias.Some? ==>
        && InVocabulary(badWords, |wordBias.value|)
        && forall t :: 0 <= t < |wordBias.value| ==>
                         wordBias.value[t] == if SingleAmong(badWords, |badWords|, t) then NegInf else NEUTRAL
    }

    constructor (badWords: seq<seq<Token>>)
      ensures Valid() && this.badWords == badWords && wordBias == None
    {
      this.badWords, wordBias := badWords, None;
    }

    method CheckTokenIdsBounds(vocab: nat) returns (ok: bool)
      ensures ok == InVocabulary(badWords, vocab)
    {
      for i := 0 to |badWords|
        invariant InVocabulary(badWords[..i], vocab)
      {
        for k := 0 to |badWords[i]|
          invariant forall j :: 0 <= j < k ==> 0 <= badWords[i][j] < vocab
        {
          if badWords[i][k] < 0 || badWords[i][k] >= vocab {
            return false;
          }
        }
      }
      assert badWords[..|badWords|] == badWords;
      ok := true;
    }

    /** Fails when some word has a token outside the vocabulary; the bias stays unset then. */
    method InitWordBias(vocab: nat) returns (ok: bool)
      requires Valid()
      modifies this
      ensures Valid() && ok == InVocabulary(badWords, vocab)
      ensures if ok then wordBias.Some? && |wordBias.value| == vocab else wordBias == old(wordBias)
    {
      ok := CheckTokenIdsBounds(vocab);
      if !ok {
        return;
      }
      var bias := seq(vocab, _ => NEUTRAL);
      for i := 0 to |badWords|
        invariant |bias| == vocab
        invariant forall t :: 0 <= t < vocab ==> bias[t] == if SingleAmong(badWords, i, t) then NegInf else NEUTRAL
      {
        if |badWords[i]| == 1 {
          var id := badWords[i][0];
          assert badWords[i] == [id];
          bias := bias[id := NegInf];
        }
        SingleStep(badWords, i);
      }
      wordBias := Some(bias);
    }

    /** The bias for the tokens that would complete a word of several tokens; fails on an empty word. */
    method LastTokenBias(past: seq<Token>, vocab: nat) returns (ok: bool, bias: seq<Logit>)
      requires InVocabulary(badWords, vocab)
      ensures ok == AllNonempty(badWords)
      ensures ok ==>
                && |bias| == vocab
                && forall t :: 0 <= t < vocab ==>
                                 bias[t] == if LongerAmong(badWords, |badWords|, past, t) then NegInf else NEUTRAL
    {
      bias := seq(vocab, _ => NEUTRAL);
      for i := 0 to |badWords|
        invariant |bias| == vocab && AllNonempty(badWords[..i])
        invariant forall t :: 0 <= t < vocab ==>
                                bias[t] == if LongerAmong(badWords, i, past, t) then NegInf else NEUTRAL
      {
        var word := badWords[i];
        LongerStep(badWords, i, past);
        if |word| == 1 {
          continue;
        }
        if |word| > |past| + 1 {
          continue;
        }
        if word == [] {
          return false, bias;
        }
        var prefixLength := |word| - 1;
        var last := word[prefixLength];
        var isMatch := past[|past| - prefixLength..] == word[..prefixLength];
        MatchMeansEnd(past, word);
        bias := bias[last := bias[last].Plus(if isMatch then NegInf else NEUTRAL)];
      }
      assert badWords[..|badWords|] == badWords;
      ok := true;
    }

    /** One call: a token's logit becomes minus infinity exactly when the token would complete a bad word, and is left
        alone otherwise. `None` where the source raises an error. */
    method Call(past: seq<Token>, logits: seq<Logit>) returns (r: Option<seq<Logit>>)
      requires Valid() && (wordBias.Some? ==> |wordBias.value| == |logits|)
      modifies this
      ensures Valid() && (wordBias.Some? ==> |wordBias.value| == |logits|)
      ensures r.Some? <==> InVocabulary(badWords, |logits|) && AllNonempty(badWords)
      ensures r.Some? ==> r.value == Processed(badWords, past, logits)
    {
      if wordBias.None? {
        var ok := InitWordBias(|logits|);
        if !ok {
          return None;
        }
      }
      var words := wordBias.value;
      var ok, lasts := LastTokenBias(past, |logits|);
      if !ok {
        return None;
      }
      var out := seq(|logits|, t requires 0 <= t < |logits| => logits[t].Plus(words[t]).Plus(lasts[t]));
      forall t | 0 <= t < |logits|
        ensures out[t] == if Completes(badWords, past, t) then NegInf else logits[t]
      {
        CompletesSplit(badWords, past, t);
      }
      r := Some(out);
    }
  }

  lemma {:induction false} SingleStep(words: seq<seq<Token>>, i: nat)
    requires i < |words|
    ensures forall t :: SingleAmong(words, i + 1, t) <==> SingleAmong(words, i, t) || words[i] == [t]
  {
  }

  lemma {:induction false} LongerStep(words: seq<seq<Token>>, i: nat, past: seq<Token>)
    requires i < |words|
    ensures forall t :: LongerAmong(words, i + 1, past, t)
                        <==> LongerAmong(words, i, past, t) || (|words[i]| > 1 && EndsWith(past + [t], words[i]))
  {
  }

  /** Comparing the prefix and the last token is comparing the whole word with the end of the text. */
  lemma {:induction false} MatchMeansEnd(past: seq<Token>, word: seq<Token>)
    requires 1 < |word| <= |past| + 1
    ensures var n := |word| - 1;
            forall t :: EndsWith(past + [t], word) <==> past[|past| - n..] == word[..n] && t == word[n]
  {
  }

  lemma {:induction false} CompletesSplit(words: seq<seq<Token>>, past: seq<Token>, t: Token)
    requires AllNonempty(words)
    ensures Completes(words, past, t) <==> SingleAmong(words, |words|, t) || LongerAmong(words, |words|, past, t)
  {
  }

  /** A word in the extended text was there before or ends with the new token. */
  lemma {:induction false} OccurrenceSplits(past: seq<Token>, t: Token, word: seq<Token>, p: int)
    requires word != []
    ensures OccursAt(past + [t], word, p)
            <==> OccursAt(past, word, p) || (p == |past| + 1 - |word| && EndsWith(past + [t], word))
  {
  }

  /** A token keeps clean text clean exactly when it does not complete a bad word. */
  lemma {:induction false} StaysCleanIff(words: seq<seq<Token>>, past: seq<Token>, t: Token)
    requires AllNonempty(words) && Clean(words, past)
    ensures Clean(words, past + [t]) <==> !Completes(words, past, t)
  {
    forall i, p | 0 <= i < |words|
      ensures OccursAt(past + [t], words[i], p)
              <==> p == |past| + 1 - |words[i]| && EndsWith(past + [t], words[i])
    {
      OccurrenceSplits(past, t, words[i], p);
    }
    if Completes(words, past, t) {
      var i :| 0 <= i < |words| && EndsWith(past + [t], words[i]);
      assert OccursAt(past + [t], words[i], |past| + 1 - |words[i]|);
    }
  }

  predicate Possible(logits: seq<Logit>, t: Token) {
    0 <= t < |logits| && logits[t].Fin?
  }

  /** Every token was left above minus infinity by the processor when it was chosen; `model` computes the logits. */
  ghost predicate Sampled(words: seq<seq<Token>>, model: seq<Token> -> seq<Logit>, tokens: seq<Token>) {
    forall k :: 0 <= k < |tokens| ==> Possible(Processed(words, tokens[..k], model(tokens[..k])), tokens[k])
  }

  ghost predicate Generated(model: seq<Token> -> seq<Logit>, tokens: seq<Token>) {
    forall k :: 0 <= k < |tokens| ==> Possible(model(tokens[..k]), tokens[k])
  }

  /** With the processor exactly those texts can be sampled that could be without it and in which no bad word
      occurs as a contiguous run, at any length. */
  lemma {:induction false} SampledIffClean(words: seq<seq<Token>>, model: seq<Token> -> seq<Logit>, tokens: seq<Token>)
    requires AllNonempty(words)
    ensures Sampled(words, model, tokens) <==> Generated(model, tokens) && Clean(words, tokens)
  {
    if tokens != [] {
      var past, t := tokens[..|tokens| - 1], tokens[|tokens| - 1];
      assert tokens == past + [t];
      SampledIffClean(words, model, past);
      assert forall k :: 0 <= k < |past| ==> past[..k] == tokens[..k] && past[k] == tokens[k];
      CleanPrefix(words, past, t);
      if Clean(words, past) {
        StaysCleanIff(words, past, t);
      }
    }
  }

  lemma {:induction false} CleanPrefix(words: seq<seq<Token>>, past: seq<Token>, t: Token)
    requires AllNonempty(words)
    ensures Clean(words, past + [t]) ==> Clean(words, past)
  {
    forall i, p | 0 <= i < |words| && OccursAt(past, words[i], p)
      ensures OccursAt(past + [t], words[i], p)
    {
      OccurrenceSplits(past, t, words[i], p);
    }
  }

  /** A sampler chooses among the tokens that are above minus infinity, if there are any. */
  ghost predicate Samples(pick: seq<Logit> -> Option<Token>) {
    forall logits :: pick(logits).Some? ==> Possible(logits, pick(logits).value)
  }

  /** Generation with the processor, for any model that computes logits from the text so far and any sampler. It
      ends after `steps` tokens or when none can be chosen, and `ok` is false where the processor raises an error:
      exactly if some word is empty or not in the vocabulary. The text never contains a bad word. */
  method Generate(processor: NoBadWordsLogitsProcessor, model: seq<Token> -> seq<Logit>, vocab: nat, steps: nat,
                  pick: seq<Logit> -> Option<Token>) returns (ok: bool, tokens: seq<Token>)
    requires processor.Valid() && processor.wordBias == None
    requires Samples(pick) && forall past :: |model(past)| == vocab
    modifies processor
    ensures Sampled(processor.badWords, model, tokens)
    ensures ok <==> steps == 0 || (InVocabulary(processor.badWords, vocab) && AllNonempty(processor.badWords))
    ensures AllNonempty(processor.badWords) ==> Clean(processor.badWords, tokens)
    ensures !ok ==> tokens == []
  {
    ok, tokens := true, [];
    var words := processor.badWords;
    for n := 0 to steps
      invariant processor.Valid() && (processor.wordBias.Some? ==> |processor.wordBias.value| == vocab)
      invariant n > 0 ==> InVocabulary(words, vocab) && AllNonempty(words)
      invariant n == 0 ==> tokens == []
      invariant Sampled(words, model, tokens)
    {
      var logits := processor.Call(tokens, model(tokens));
      if logits.None? {
        return false, tokens;
      }
      var choice := pick(logits.value);
      if choice.None? {
        break;
      }
      var next := tokens + [choice.value];
      assert next[..|tokens|] == tokens && forall k :: 0 <= k < |tokens| ==> next[..k] == tokens[..k];
      tokens := next;
    }
    if AllNonempty(words) {
      SampledIffClean(words, model, tokens);
    }
  }
}
