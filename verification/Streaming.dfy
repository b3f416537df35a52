/** One `Sequence` handing out its text and tokens piece by piece (vllm/sequence.py), stopped by the
    `StopChecker` (vllm/engine/output_processor/stop_checker.py). */
module Streaming {
  import opened Prelude
  import opened TokenState
  import opened StopStrings

  datatype Status =
    | Waiting | Running | Swapped
    | FinishedStopped | FinishedLengthCapped | FinishedAborted | FinishedIgnored
  {
    predicate Finished() {
      FinishedStopped? || FinishedLengthCapped? || FinishedAborted? || FinishedIgnored?
    }

    function Reason(): (r: Option<string>)
      ensures r.Some? <==> Finished()
      ensures r == Some("stop") <==> FinishedStopped?
      ensures r == Some("abort") <==> FinishedAborted?
      ensures r == Some("length") <==> FinishedLengthCapped? || FinishedIgnored?
    {
      match this
      case FinishedStopped => Some("stop")
      case FinishedLengthCapped => Some("length")
      case FinishedAborted => Some("abort")
      case FinishedIgnored => Some("length")
      case _ => None
    }
  }

  type Logprobs = map<Token, real>

  datatype StopReason = NoReason | ByToken(token: Token) | ByString(text: string)

  /** The sampling parameters and engine limits that decide when and how a sequence stops. */
  datatype Limits = Limits(stop: seq<string>, includeStop: bool, minTokens: nat, maxTokens: Option<int>,
                           maxModelLen: int, ignoreEos: bool, eos: Option<Token>, stopTokenIds: set<Token>)
  {
    predicate Valid() {
      NonemptyStrings(stop)
    }

    function Buffer(): nat
      requires Valid()
    {
      HoldBack(stop, includeStop)
    }
  }

  /** The tokens of one read: a bare token, or a list of any other length. */
  datatype TokenRead = One(token: Token) | Many(tokens: seq<Token>)
  {
    function Tokens(): seq<Token> {
      if One? then [token] else tokens
    }
  }

  /** The value held by a `Sequence` object. */
  datatype SeqState = SeqState(data: Data, logprobs: seq<Logprobs>, text: string, status: Status,
                               stopReason: StopReason, tokenOffset: int, textOffset: int)
  {
    predicate Valid() {
      && data.CacheExact() && |logprobs| >= |data.output|
      && 0 <= tokenOffset <= |data.output| && 0 <= textOffset
    }

    function Append(token: Token, lps: Logprobs): SeqState
      requires token in lps
    {
      this.(data := data.Append(token, lps[token]), logprobs := logprobs + [lps])
    }

    function ReturnableLength(buffer: nat): int {
      if buffer > 0 && !status.Finished() then |text| - buffer else |text|
    }

    /** The text a CUMULATIVE read returns. */
    function CumulativeText(buffer: nat): string {
      var n := ReturnableLength(buffer);
      if n <= 0 then "" else text[..n]
    }

    function TextRead(buffer: nat): (r: (string, SeqState))
      requires 0 <= textOffset
    {
      var n := ReturnableLength(buffer);
      if textOffset < n then (text[textOffset..n], this.(textOffset := n)) else ("", this)
    }

    function TokenDelta(): (r: (TokenRead, SeqState))
      requires Valid()
    {
      var unread := |data.output| - tokenOffset;
      (if unread == 1 then One(data.allTokens[|data.allTokens| - 1])
       else if unread == 0 then Many([])
       else Many(data.allTokens[|data.allTokens| - unread..]),
       this.(tokenOffset := |data.output|))
    }

    function LastToken(): Token
      requires data.Len() > 0
    {
      if data.output == [] then data.prompt[|data.prompt| - 1] else data.output[|data.output| - 1]
    }

    /** `text[:-n]` when `n` is nonzero and the stop text is not wanted in the output. */
    function DropLast(n: nat, limits: Limits): string {
      if n > 0 && !limits.includeStop then text[..if n <= |text| then |text| - n else 0] else text
    }

    /** `maybe_stop_sequence`, called after the last `n` characters were added. */
    function MaybeStop(n: nat, limits: Limits): SeqState
      requires data.Len() > 0
    {
      if |data.output| < limits.minTokens then this
      else if !limits.ignoreEos && limits.eos == Some(LastToken()) then
        this.(text := DropLast(n, limits), status := FinishedStopped)
      else if LastToken() in limits.stopTokenIds then
        this.(text := DropLast(n, limits), status := FinishedStopped, stopReason := ByToken(LastToken()))
      else
        var m := Check(text, n, limits.stop, limits.includeStop);
        if m.Some? then
          this.(text := if m.value.truncateTo.Some? then text[..m.value.truncateTo.value] else text,
          status := FinishedStopped, stopReason := ByString(limits.stop[m.value.index]))
        else if data.Len() >= limits.maxModelLen || Some(|data.output|) == limits.maxTokens then
          this.(status := FinishedLengthCapped)
        else this
    }
  }

  function NewSequence(prompt: seq<Token>): SeqState {
    SeqState(FromPrompt(prompt), [], "", Waiting, NoReason, 0, 0)
  }

  /** A Python list of per-token logprobs, an object because output chunks may share it with the sequence. */
  class LogprobList {
    var items: seq<Logprobs>

    constructor (items: seq<Logprobs>)
      ensures this.items == items
    {
      this.items := items;
    }
  }

  class Sequence {
    const data: SequenceData
    const outputLogprobs: LogprobList
    var outputText: string
    var status: Status
    var stopReason: StopReason
    var lastTokenOffset: int
    var lastTextOffset: int

    function Value(): SeqState
      reads this, data, outputLogprobs
    {
      SeqState(data.Value(), outputLogprobs.items, outputText, status, stopReason, lastTokenOffset, lastTextOffset)
    }

    ghost predicate Valid()
      reads this, data, outputLogprobs
    {
      Value().Valid()
    }

    constructor (prompt: seq<Token>)
      ensures Valid() && fresh(data) && fresh(outputLogprobs) && Value() == NewSequence(prompt)
    {
      data := new SequenceData(prompt);
      outputLogprobs := new LogprobList([]);
      outputText := "";
      status, stopReason := Waiting, NoReason;
      lastTokenOffset, lastTextOffset := 0, 0;
    }

    method AppendTokenId(token: Token, lps: Logprobs)
      requires Valid() && token in lps
      modifies data, outputLogprobs
      ensures Valid() && Value() == old(Value()).Append(token, lps)
    {
      outputLogprobs.items := outputLogprobs.items + [lps];
      data.AppendTokenId(token, lps[token]);
    }

    method GetOutputTextToReturn(buffer: nat, delta: bool) returns (text: string)
      requires Valid()
      modifies this`lastTextOffset
      ensures Valid()
      ensures !delta ==> text == Value().CumulativeText(buffer) && Value() == old(Value())
      ensures delta ==> (text, Value()) == old(Value()).TextRead(buffer)
    {
      var truncate := buffer != 0 && !status.Finished();
      if !delta {
        return if truncate then if |outputText| <= buffer then "" else outputText[..|outputText| - buffer]
          else outputText;
      }
      var length := |outputText|;
      if truncate {
        length := length - buffer;
      }
      var lastOffset := lastTextOffset;
      if lastOffset < length {
        lastTextOffset := length;
        return outputText[lastOffset..length];
      }
      text := "";
    }

    method GetOutputTokenIdsToReturn(delta: bool) returns (tokens: TokenRead)
      requires Valid()
      modifies this`lastTokenOffset
      ensures Valid()
      ensures !delta ==> tokens == Many(Value().data.output) && Value() == old(Value())
      ensures delta ==> (tokens, Value()) == old(Value()).TokenDelta()
    {
      if !delta {
        return Many(data.outputTokenIds);
      }
      var outputLen := |data.outputTokenIds|;
      var numNewTokens := outputLen - lastTokenOffset;
      lastTokenOffset := outputLen;
      var all := data.cachedAllTokenIds;
      if numNewTokens == 1 {
        return One(all[|all| - 1]);
      }
      if numNewTokens == 0 {
        return Many([]);
      }
      tokens := Many(all[|all| - numNewTokens..]);
    }

    method MaybeStop(n: nat, limits: Limits)
      requires Valid() && Value().data.Len() > 0
      modifies this
      ensures Valid() && Value() == old(Value()).MaybeStop(n, limits)
    {
      if |data.outputTokenIds| < limits.minTokens {
        return;
      }
      var lastTokenId := Value().LastToken();
      if !limits.ignoreEos && limits.eos == Some(lastTokenId) {
        outputText := Value().DropLast(n, limits);
        status := FinishedStopped;
        return;
      }
      if lastTokenId in limits.stopTokenIds {
        outputText := Value().DropLast(n, limits);
        status, stopReason := FinishedStopped, ByToken(lastTokenId);
        return;
      }
      var stop := CheckStopStrings(outputText, n, limits.stop, limits.includeStop);
      if stop.Some? {
        if stop.value.truncateTo.Some? {
          outputText := outputText[..stop.value.truncateTo.value];
        }
        status, stopReason := FinishedStopped, ByString(limits.stop[stop.value.index]);
        return;
      }
      if Value().data.Len() >= limits.maxModelLen {
        status := FinishedLengthCapped;
        return;
      }
      if Some(|data.outputTokenIds|) == limits.maxTokens {
        status := FinishedLengthCapped;
      }
    }
  }

  // ----- Runs

  /** `Grow` is one engine step: append a token, add its decoded text, check for a stop. */
  datatype Step =
    | Grow(token: Token, lps: Logprobs, newText: string)
    | ReadDelta
    | Abort
    | Preempt

  /** A sequence together with everything its delta reads have returned. */
  datatype Stream = Stream(s: SeqState, text: string, tokens: seq<Token>)

  predicate Enabled(st: Stream, step: Step) {
    match step
    case Grow(token, lps, _) => !st.s.status.Finished() && token in lps
    case ReadDelta => true
    case Abort => !st.s.status.Finished()
    case Preempt => !st.s.status.Finished()
  }

  function Grown(s: SeqState, token: Token, lps: Logprobs, newText: string, limits: Limits): SeqState
    requires token in lps
  {
    var s1 := s.Append(token, lps);
    s1.(text := s1.text + newText).MaybeStop(|newText|, limits)
  }

  function Exec(st: Stream, step: Step, limits: Limits): Stream
    requires limits.Valid() && st.s.Valid() && Enabled(st, step)
  {
    match step
    case Grow(token, lps, newText) => st.(s := Grown(st.s, token, lps, newText, limits))
    case ReadDelta =>
      var (text, s1) := st.s.TextRead(limits.Buffer());
      var (tokens, s2) := s1.TokenDelta();
      Stream(s2, st.text + text, st.tokens + tokens.Tokens())
    case Abort => st.(s := st.s.(status := FinishedAborted))
    case Preempt => st.(s := st.s.(data := st.s.data.Reset()))
  }

  /** What was handed out is a prefix of the state, and while generation continues no more than may be released. */
  ghost predicate Exact(st: Stream, limits: Limits)
    requires limits.Valid()
  {
    var s := st.s;
    && s.Valid()
    && s.textOffset <= |s.text| && st.text == s.text[..s.textOffset]
    && (!s.status.Finished() ==> s.textOffset <= Released(|s.text|, limits.Buffer()))
    && st.tokens == s.data.output[..s.tokenOffset]
  }

  predicate Legal(st: Stream, steps: seq<Step>, limits: Limits)
    requires limits.Valid()
    decreases |steps|
  {
    steps == [] || (st.s.Valid() && Enabled(st, steps[0])
                    && Legal(Exec(st, steps[0], limits), steps[1..], limits))
  }

  function Run(st: Stream, steps: seq<Step>, limits: Limits): Stream
    requires limits.Valid() && Legal(st, steps, limits)
    decreases |steps|
  {
    if steps == [] then st else Run(Exec(st, steps[0], limits), steps[1..], limits)
  }

  // ----- When and why a step ends the sequence

  /** The token itself ends the sequence before any stop string is looked for. */
  predicate StopsByToken(step: Step, limits: Limits)
    requires step.Grow?
  {
    (!limits.ignoreEos && limits.eos == Some(step.token)) || step.token in limits.stopTokenIds
  }

  /** The length of the sequence or of its output has reached a limit. */
  predicate ReachesLimit(s: SeqState, limits: Limits) {
    |s.data.prompt| + |s.data.output| + 1 >= limits.maxModelLen || limits.maxTokens == Some(|s.data.output| + 1)
  }

  /** What one step says about the end: nothing ends the sequence below the minimum number of tokens; from there on a
      token or a string stops it, and a limit caps it if neither does. */
  lemma StepStopsIff(s: SeqState, step: Step, limits: Limits)
    requires limits.Valid() && s.Valid() && Enabled(Stream(s, "", []), step) && step.Grow?
    ensures var s' := Exec(Stream(s, "", []), step, limits).s;
            var (enough, byToken) := (|s.data.output| + 1 >= limits.minTokens, StopsByToken(step, limits));
            var byString := NewMatch(s.text, step.newText, limits.stop);
            && (!s'.status.Finished() ==> s'.status == s.status)
            && (s'.status.Finished() <==> enough && (byToken || byString || ReachesLimit(s, limits)))
            && (s'.status.FinishedStopped? <==> enough && (byToken || byString))
            && (s'.status.FinishedLengthCapped? <==> enough && !byToken && !byString && ReachesLimit(s, limits))
  {
    CheckFindsExactly(s.text + step.newText, |step.newText|, limits.stop, limits.includeStop);
  }

  /** The reason and the text that go with it. The end token and a limit leave no reason; a stop token is one, and so is
      the first listed string that ends in the new text. A token's own text goes unless stops are wanted in the
      output, and the text is cut where that string first begins, or where it ends if it is wanted. */
  lemma StepLeaves(s: SeqState, step: Step, limits: Limits)
    requires limits.Valid() && s.Valid() && Enabled(Stream(s, "", []), step) && step.Grow?
    ensures var s' := Exec(Stream(s, "", []), step, limits).s;
            var text := s.text + step.newText;
            if |s.data.output| + 1 < limits.minTokens then s'.text == text && s'.stopReason == s.stopReason
            else if StopsByToken(step, limits) then
              && s'.text == (if limits.includeStop then text else s.text)
              && s'.stopReason == if !limits.ignoreEos && limits.eos == Some(step.token) then s.stopReason
                                  else ByToken(step.token)
            else if NewMatch(s.text, step.newText, limits.stop) then
              exists i, p :: CutAt(s.text, step.newText, limits.stop, i, p)
                             && s'.stopReason == ByString(limits.stop[i])
                             && s'.text == text[..if limits.includeStop then p + |limits.stop[i]| else p]
            else s'.text == text && s'.stopReason == s.stopReason
  {
    var text := s.text + step.newText;
    CheckFindsExactly(text, |step.newText|, limits.stop, limits.includeStop);
    var m := Check(text, |step.newText|, limits.stop, limits.includeStop);
    if m.Some? {
      var i := m.value.index;
      var p: nat :| FirstNew(text, |step.newText|, limits.stop[i], p)
                    && m.value == MatchAt(text, limits.stop, i, p, limits.includeStop);
      assert CutAt(s.text, step.newText, limits.stop, i, p);
      assert text[..|text|] == text;
    }
    assert text[..|s.text|] == s.text;
  }

  /** A run ends as aborted exactly if it was aborted; `StepStopsIff` describes every other end. */
  lemma {:induction false} AbortedIff(st: Stream, steps: seq<Step>, limits: Limits)
    requires limits.Valid() && st.s.Valid() && Legal(st, steps, limits)
    ensures Run(st, steps, limits).s.status.FinishedAborted?
            <==> st.s.status.FinishedAborted? || exists k :: 0 <= k < |steps| && steps[k] == Abort
    decreases |steps|
  {
    if steps != [] {
      if steps[0].Grow? {
        StepStopsIff(st.s, steps[0], limits);
      }
      AbortedIff(Exec(st, steps[0], limits), steps[1..], limits);
      assert steps == [steps[0]] + steps[1..];
    }
  }

  /** A sequence with `most` output tokens reaches a limit, past the minimum number of tokens. */
  predicate CapsAt(s: SeqState, limits: Limits, most: nat) {
    limits.minTokens <= most && (limits.maxTokens == Some(most) || |s.data.prompt| + most >= limits.maxModelLen)
  }

  predicate StaysWithin(s: SeqState, most: nat) {
    |s.data.output| <= most && (!s.status.Finished() ==> |s.data.output| < most)
  }

  /** Over every run the output grows to a limit and no further, and ends there at the latest. */
  lemma {:induction false} RunsStayWithin(st: Stream, steps: seq<Step>, limits: Limits, most: nat)
    requires limits.Valid() && st.s.Valid() && Legal(st, steps, limits)
    requires CapsAt(st.s, limits, most) && StaysWithin(st.s, most)
    ensures StaysWithin(Run(st, steps, limits).s, most)
    decreases |steps|
  {
    if steps != [] {
      var st' := Exec(st, steps[0], limits);
      if steps[0].Grow? {
        StepStopsIff(st.s, steps[0], limits);
      }
      assert CapsAt(st'.s, limits, most) && StaysWithin(st'.s, most);
      RunsStayWithin(st', steps[1..], limits, most);
    }
  }

  /** A stop never cuts into what could already have been handed out. */
  lemma StopKeepsReleased(s: SeqState, newText: string, limits: Limits)
    requires limits.Valid() && s.data.Len() > 0 && s.textOffset <= Released(|s.text|, limits.Buffer())
    ensures var s' := s.(text := s.text + newText).MaybeStop(|newText|, limits);
            && s.textOffset <= |s'.text| && s'.text <= s.text + newText
            && s' == s.(text := s'.text, status := s'.status, stopReason := s'.stopReason)
            && (s.text <= s'.text || s'.status.Finished())
            && (!s'.status.Finished() ==> s'.text == s.text + newText)
  {
    var text := s.text + newText;
    CheckFindsExactly(text, |newText|, limits.stop, limits.includeStop);
  }

  /** A delta of tokens, whatever shape it takes, is exactly the output since the last one: never prompt tokens. */
  lemma TokenDeltaIsExact(s: SeqState)
    requires s.Valid()
    ensures s.TokenDelta().0.Tokens() == s.data.output[s.tokenOffset..]
  {
  }

  lemma GrowKeepsExact(st: Stream, step: Step, limits: Limits)
    requires limits.Valid() && Exact(st, limits) && Enabled(st, step) && step.Grow?
    ensures Exact(Exec(st, step, limits), limits)
  {
    var s := st.s;
    var s1 := s.Append(step.token, step.lps);
    StopKeepsReleased(s1, step.newText, limits);
  }

  /** A delta read brings everything handed out so far up to exactly one CUMULATIVE read. */
  lemma ReadKeepsExact(st: Stream, limits: Limits)
    requires limits.Valid() && Exact(st, limits)
    ensures var st' := Exec(st, ReadDelta, limits);
            && Exact(st', limits) && st.text <= st'.text && st.tokens <= st'.tokens
            && st'.text == st.s.CumulativeText(limits.Buffer()) && st'.tokens == st.s.data.output
            && (st.s.status.Finished() ==> st'.text == st.s.text)
            && st'.s == st.s.(textOffset := st'.s.textOffset, tokenOffset := |st.s.data.output|)
  {
    TokenDeltaIsExact(st.s.TextRead(limits.Buffer()).1);
  }

  lemma StepKeepsExact(st: Stream, step: Step, limits: Limits)
    requires limits.Valid() && Exact(st, limits) && Enabled(st, step)
    ensures Exact(Exec(st, step, limits), limits)
    ensures st.text <= Exec(st, step, limits).text && st.tokens <= Exec(st, step, limits).tokens
  {
    match step
    case Grow(_, _, _) => GrowKeepsExact(st, step, limits);
    case ReadDelta => ReadKeepsExact(st, limits);
    case Abort =>
    case Preempt =>
  }

  /** Over every run the concatenated deltas are a prefix of the sequence's text and tokens; nothing handed out is
      ever retracted, whatever stop string, token, length limit or abort ends it. */
  lemma {:induction false} RunsStayExact(st: Stream, steps: seq<Step>, limits: Limits)
    requires limits.Valid() && Exact(st, limits) && Legal(st, steps, limits)
    ensures Exact(Run(st, steps, limits), limits)
    ensures st.text <= Run(st, steps, limits).text && st.tokens <= Run(st, steps, limits).tokens
    decreases |steps|
  {
    if steps != [] {
      StepKeepsExact(st, steps[0], limits);
      RunsStayExact(Exec(st, steps[0], limits), steps[1..], limits);
    }
  }

  /** From the prompt: a read returns the rest, so that the deltas so far equal one CUMULATIVE read, and a read
      after the finish completes the final text and tokens. */
  lemma DeltasEqualCumulative(prompt: seq<Token>, steps: seq<Step>, limits: Limits)
    requires limits.Valid() && Legal(Stream(NewSequence(prompt), "", []), steps, limits)
    ensures var st := Run(Stream(NewSequence(prompt), "", []), steps, limits);
            st.s.Valid()
            && var st' := Exec(st, ReadDelta, limits);
            && st'.text == st.s.CumulativeText(limits.Buffer()) && st'.tokens == st.s.data.output
            && (st.s.status.Finished() ==> st'.text == st.s.text)
  {
    var st0 := Stream(NewSequence(prompt), "", []);
    RunsStayExact(st0, steps, limits);
    ReadKeepsExact(Run(st0, steps, limits), limits);
  }

  /** What a CUMULATIVE read returns is never taken back by a later one. */
  lemma {:induction false} StepNeverRetracts(s: SeqState, step: Step, limits: Limits)
    requires limits.Valid() && s.Valid() && Enabled(Stream(s, "", []), step)
    ensures var s' := Exec(Stream(s, "", []), step, limits).s;
            s'.Valid() && s.CumulativeText(limits.Buffer()) <= s'.CumulativeText(limits.Buffer())
  {
    if step.Grow? {
      var s1 := s.Append(step.token, step.lps);
      var released := Released(|s.text|, limits.Buffer());
      StopKeepsReleased(s1.(textOffset := released), step.newText, limits);
      StopIgnoresOffset(s1.(text := s1.text + step.newText), released, |step.newText|, limits);
    }
  }

  lemma {:induction false} StopIgnoresOffset(s: SeqState, offset: int, n: nat, limits: Limits)
    requires s.data.Len() > 0
    ensures s.(textOffset := offset).MaybeStop(n, limits) == s.MaybeStop(n, limits).(textOffset := offset)
  {
  }

  lemma {:induction false} CumulativeNeverRetracts(st: Stream, steps: seq<Step>, limits: Limits)
    requires limits.Valid() && st.s.Valid() && Legal(st, steps, limits)
    ensures st.s.CumulativeText(limits.Buffer()) <= Run(st, steps, limits).s.CumulativeText(limits.Buffer())
    decreases |steps|
  {
    if steps != [] {
      StepNeverRetracts(st.s, steps[0], limits);
      CumulativeNeverRetracts(Exec(st, steps[0], limits), steps[1..], limits);
    }
  }
}
