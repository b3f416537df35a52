/** Folding `add(aggregate=True)` over the DELTA outputs of a request (vllm/outputs.py), with the logprob lists that
    first chunks may share with the live sequences. */
module Aggregation {
  import opened Prelude
  import opened StopStrings
  import opened Streaming
  import opened Outputs

  /** One sequence, the completion folded for it so far, whether the two share one logprob list, and the logprobs
      really appended to the sequence. */
  datatype Fold = Fold(s: SeqState, c: Completion, shared: bool, truth: seq<Logprobs>)

  function Deltas(limits: Limits, want: bool): Params
    requires limits.Valid()
  {
    Params(OnlyDeltas, limits.Buffer(), want)
  }

  /** Folding starts with the chunk cut from `s`, the sequence with index `i`. */
  function Begin(s: SeqState, i: int, limits: Limits, want: bool): Fold
    requires limits.Valid() && s.Valid()
  {
    var (c, s') := Chunk(s, Deltas(limits, want), i);
    Fold(s', c, SharesList(s, Deltas(limits, want)), s.logprobs)
  }

  function NextChunkOf(f: Fold, limits: Limits, want: bool): Completion
    requires limits.Valid() && f.s.Valid()
  {
    Chunk(f.s, Deltas(limits, want), f.c.index).0
  }

  /** The chunk has been cut and the completion is now `c`; extending a shared list changes the sequence's own
      list. */
  function Absorb(f: Fold, c: Completion, limits: Limits, want: bool): Fold
    requires limits.Valid() && f.s.Valid()
  {
    var s := Chunk(f.s, Deltas(limits, want), f.c.index).1;
    f.(s := if f.shared && c.logprobs.Some? then s.(logprobs := c.logprobs.value) else s, c := c)
  }

  /** The next chunk is merged in, when the assertion in `add` holds. */
  function Report(f: Fold, limits: Limits, want: bool): Fold
    requires limits.Valid() && f.s.Valid()
  {
    Absorb(f, Merge(f.c, NextChunkOf(f, limits, want)).1, limits, want)
  }

  predicate MergeHolds(f: Fold, limits: Limits, want: bool)
    requires limits.Valid() && f.s.Valid()
  {
    Merge(f.c, NextChunkOf(f, limits, want)).0
  }

  /** Any other step changes the sequence only, and with it a list that is shared. */
  function Move(f: Fold, step: Step, limits: Limits): Fold
    requires limits.Valid() && f.s.Valid() && Streaming.Enabled(Stream(f.s, "", []), step)
  {
    var s := Streaming.Exec(Stream(f.s, "", []), step, limits).s;
    f.(s := s, c := if f.shared then f.c.(logprobs := Some(s.logprobs)) else f.c,
    truth := if step.Grow? then f.truth + [step.lps] else f.truth)
  }

  // ----- The same on the objects

  /** Sharing a list means having it as one object. */
  ghost predicate Represents(sequence: Sequence, c: CompletionOutput, f: Fold)
    reads sequence, sequence.data, sequence.outputLogprobs, c, c.logprobs
  {
    && sequence.Value() == f.s && c.Value() == f.c && f.s.Valid()
    && (f.shared <==> c.logprobs == sequence.outputLogprobs)
  }

  method FirstChunk(sequence: Sequence, i: int, limits: Limits, want: bool) returns (c: CompletionOutput)
    requires limits.Valid() && sequence.Valid()
    modifies sequence`lastTextOffset, sequence`lastTokenOffset
    ensures fresh(c) && Represents(sequence, c, Begin(old(sequence.Value()), i, limits, want))
  {
    c := EmitChunk(sequence, i, Deltas(limits, want));
  }

  /** Cutting the next chunk from the sequence and merging it into the completion. */
  method MergeNext(sequence: Sequence, c: CompletionOutput, limits: Limits, want: bool, ghost f: Fold)
    returns (ok: bool)
    requires limits.Valid() && Represents(sequence, c, f)
    modifies sequence`lastTextOffset, sequence`lastTokenOffset, c, c.logprobs
    ensures ok == MergeHolds(f, limits, want)
    ensures Represents(sequence, c, Report(f, limits, want))
  {
    var d := EmitChunk(sequence, c.index, Deltas(limits, want));
    ok := c.MergeFrom(d);
  }

  /** Generating a token while a folded completion exists: it changes too if it shares the list. */
  method GenerateNext(sequence: Sequence, ghost c: CompletionOutput, token: Token, lps: Logprobs, newText: string,
                      limits: Limits, ghost f: Fold)
    requires limits.Valid() && Represents(sequence, c, f) && !f.s.status.Finished() && token in lps
    modifies sequence, sequence.data, sequence.outputLogprobs
    ensures Represents(sequence, c, Move(f, Grow(token, lps, newText), limits))
  {
    sequence.AppendTokenId(token, lps);
    sequence.outputText := sequence.outputText + newText;
    sequence.MaybeStop(|newText|, limits);
  }

  // ----- The group

  /** The sequences of a request with their folded completions in index order, the folded finished flag, and false
      once the assertion in `add` has failed. */
  datatype Group = Group(folds: seq<Fold>, finished: bool, ok: bool)

  /** A step on one sequence, or the next output of the request. */
  datatype Event = Act(i: nat, step: Step) | Reported

  predicate AllDone(folds: seq<Fold>) {
    forall i :: 0 <= i < |folds| ==> folds[i].s.status.Finished()
  }

  predicate Sound(folds: seq<Fold>) {
    forall i :: 0 <= i < |folds| ==> folds[i].s.Valid() && folds[i].c.index == i
  }

  function Completions(folds: seq<Fold>): (cs: seq<Completion>)
    ensures |cs| == |folds| && forall i :: 0 <= i < |folds| ==> cs[i] == folds[i].c
  {
    seq(|folds|, i requires 0 <= i < |folds| => folds[i].c)
  }

  function NextChunks(folds: seq<Fold>, limits: Limits, want: bool): (ds: seq<Completion>)
    requires limits.Valid() && Sound(folds)
    ensures |ds| == |folds| && forall i :: 0 <= i < |folds| ==> ds[i] == NextChunkOf(folds[i], limits, want)
  {
    seq(|folds|, i requires 0 <= i < |folds| => NextChunkOf(folds[i], limits, want))
  }

  function BeginGroup(states: seq<SeqState>, limits: Limits, want: bool): (g: Group)
    requires limits.Valid() && forall i :: 0 <= i < |states| ==> states[i].Valid()
  {
    Group(seq(|states|, i requires 0 <= i < |states| => Begin(states[i], i, limits, want)),
          forall i :: 0 <= i < |states| ==> states[i].status.Finished(), true)
  }

  /** The next output, with a chunk of every sequence, is added to the folded one. */
  function ReportGroup(g: Group, limits: Limits, want: bool): (g': Group)
    requires limits.Valid() && Sound(g.folds)
    ensures |g'.folds| == |g.folds|
  {
    var ds := NextChunks(g.folds, limits, want);
    var (ok, cs) := AddAll(Completions(g.folds), ds, true);
    AddAllIsPointwise(Completions(g.folds), ds, 0);
    assert ds[0..] == ds;
    Group(seq(|g.folds|, i requires 0 <= i < |g.folds| => Absorb(g.folds[i], cs[i], limits, want)),
          g.finished || AllDone(g.folds), ok)
  }

  predicate Enabled(g: Group, e: Event) {
    && g.ok && Sound(g.folds)
    && (e.Act? ==> e.i < |g.folds| && !e.step.ReadDelta? && Streaming.Enabled(Stream(g.folds[e.i].s, "", []), e.step))
  }

  function Exec(g: Group, e: Event, limits: Limits, want: bool): Group
    requires limits.Valid() && Enabled(g, e)
  {
    match e
    case Act(i, step) => g.(folds := g.folds[i := Move(g.folds[i], step, limits)])
    case Reported => ReportGroup(g, limits, want)
  }

  predicate Legal(g: Group, events: seq<Event>, limits: Limits, want: bool)
    requires limits.Valid()
    decreases |events|
  {
    events == [] || (Enabled(g, events[0]) && Legal(Exec(g, events[0], limits, want), events[1..], limits, want))
  }

  function Run(g: Group, events: seq<Event>, limits: Limits, want: bool): Group
    requires limits.Valid() && Legal(g, events, limits, want)
    decreases |events|
  {
    if events == [] then g else Run(Exec(g, events[0], limits, want), events[1..], limits, want)
  }

  // ----- What every step keeps

  /** Where folding began: the two offsets, whether the first chunk carried a token, and whether there was none
      yet. */
  datatype Origin = Origin(text: int, tokens: int, first: bool, empty: bool)

  function OriginOf(s: SeqState): Origin {
    Origin(s.textOffset, s.tokenOffset, s.tokenOffset < |s.data.output|, s.logprobs == [])
  }

  ghost predicate TextExact(f: Fold, o: Origin, limits: Limits)
    requires limits.Valid()
  {
    && f.s.Valid() && |f.truth| == |f.s.data.output|
    && 0 <= o.text <= f.s.textOffset <= |f.s.text| && f.c.text == f.s.text[o.text..f.s.textOffset]
    && (!f.s.status.Finished() ==> f.s.textOffset <= Released(|f.s.text|, limits.Buffer()))
    && 0 <= o.tokens <= f.s.tokenOffset && f.c.tokens == f.s.data.output[o.tokens..f.s.tokenOffset]
  }

  /** The four fates of the logprobs: not wanted, owned and exact, shared and growing twice, or missing. */
  ghost predicate ListExact(f: Fold, o: Origin, want: bool)
    requires f.s.Valid() && |f.truth| == |f.s.data.output| && 0 <= o.tokens <= f.s.tokenOffset
  {
    && f.shared == (want && o.empty)
    && if !want then f.c.logprobs.None? && f.s.logprobs == f.truth
       else if o.empty then
         o.tokens == 0 && f.c.logprobs == Some(f.s.logprobs) && |f.s.logprobs| == |f.truth| + f.s.tokenOffset
       else if o.first then f.s.logprobs == f.truth && f.c.logprobs == Some(f.truth[o.tokens..f.s.tokenOffset])
       else f.s.logprobs == f.truth != [] && f.c.logprobs.None? && f.s.tokenOffset == o.tokens
  }

  ghost predicate Inv(f: Fold, o: Origin, limits: Limits, want: bool)
    requires limits.Valid()
  {
    TextExact(f, o, limits) && ListExact(f, o, want)
  }

  /** The first chunk lacked the logprobs that a later one brings. */
  predicate Stranded(f: Fold, o: Origin, want: bool) {
    want && !o.first && !o.empty && f.s.tokenOffset > o.tokens
  }

  ghost predicate CanBegin(s: SeqState, limits: Limits)
    requires limits.Valid()
  {
    && s.Valid() && |s.logprobs| == |s.data.output| && s.textOffset <= |s.text|
    && (!s.status.Finished() ==> s.textOffset <= Released(|s.text|, limits.Buffer()))
  }

  lemma BeginHolds(s: SeqState, i: int, limits: Limits, want: bool)
    requires limits.Valid() && CanBegin(s, limits)
    ensures Inv(Begin(s, i, limits, want), OriginOf(s), limits, want)
  {
    DeltaChunkIs(s, Deltas(limits, want), i);
    WholeTail(s.logprobs, s.tokenOffset);
  }

  lemma WholeTail<T>(xs: seq<T>, k: nat)
    requires k <= |xs|
    ensures xs[k..|xs|] == xs[k..]
  {
  }

  lemma Glue<T>(xs: seq<T>, i: nat, j: nat, k: nat)
    requires i <= j <= k <= |xs|
    ensures xs[i..j] + xs[j..k] == xs[i..k]
  {
  }

  lemma MoveKeepsText(f: Fold, step: Step, o: Origin, limits: Limits)
    requires limits.Valid() && TextExact(f, o, limits)
    requires Streaming.Enabled(Stream(f.s, "", []), step) && !step.ReadDelta?
    ensures var f' := Move(f, step, limits);
            && TextExact(f', o, limits) && f'.s.tokenOffset == f.s.tokenOffset
            && f'.s.logprobs == if step.Grow? then f.s.logprobs + [step.lps] else f.s.logprobs
  {
    if step.Grow? {
      var s1 := f.s.Append(step.token, step.lps);
      StopKeepsReleased(s1, step.newText, limits);
    }
  }

  lemma MoveKeepsInv(f: Fold, step: Step, o: Origin, limits: Limits, want: bool)
    requires limits.Valid() && Inv(f, o, limits, want)
    requires Streaming.Enabled(Stream(f.s, "", []), step) && !step.ReadDelta?
    ensures Inv(Move(f, step, limits), o, limits, want)
  {
    MoveKeepsText(f, step, o, limits);
    if step.Grow? {
      assert (f.truth + [step.lps])[o.tokens..f.s.tokenOffset] == f.truth[o.tokens..f.s.tokenOffset];
    }
  }

  /** A report brings the folded text and tokens up to date. */
  lemma ReportKeepsText(f: Fold, o: Origin, limits: Limits, want: bool)
    requires limits.Valid() && TextExact(f, o, limits) && (f.shared ==> f.c.logprobs == Some(f.s.logprobs))
    ensures var f' := Report(f, limits, want);
            && TextExact(f', o, limits)
            && f'.s == f.s.(textOffset := NextTextOffset(f.s, limits.Buffer()), tokenOffset := |f.s.data.output|,
                       logprobs := f'.s.logprobs)
  {
    var s := f.s;
    DeltaChunkIs(s, Deltas(limits, want), f.c.index);
    Glue(s.data.output, o.tokens, s.tokenOffset, |s.data.output|);
    WholeTail(s.data.output, s.tokenOffset);
    Glue(s.text, o.text, s.textOffset, NextTextOffset(s, limits.Buffer()));
  }

  lemma ReportKeepsInv(f: Fold, o: Origin, limits: Limits, want: bool)
    requires limits.Valid() && Inv(f, o, limits, want)
    ensures var f' := Report(f, limits, want);
            && (MergeHolds(f, limits, want) <==> !Stranded(f', o, want))
            && (MergeHolds(f, limits, want) ==> Inv(f', o, limits, want))
  {
    ReportKeepsText(f, o, limits, want);
    NextLogprobs(f, limits, want);
    Glue(f.truth, o.tokens, f.s.tokenOffset, |f.truth|);
    WholeTail(f.truth, f.s.tokenOffset);
  }

  lemma NextLogprobs(f: Fold, limits: Limits, want: bool)
    requires limits.Valid() && f.s.Valid()
    ensures NextChunkOf(f, limits, want).logprobs
            == ChunkLogprobs(f.s, Deltas(limits, want), |f.s.data.output| - f.s.tokenOffset)
  {
    TokenDeltaIsExact(f.s.TextRead(limits.Buffer()).1);
  }

  /** An output is added index by index, and successfully exactly if that holds for every index. */
  lemma ReportGroupIs(g: Group, limits: Limits, want: bool)
    requires limits.Valid() && Sound(g.folds)
    ensures var g' := ReportGroup(g, limits, want);
            && (g'.ok <==> forall i :: 0 <= i < |g.folds| ==> MergeHolds(g.folds[i], limits, want))
            && (forall i :: 0 <= i < |g.folds| ==> g'.folds[i] == Absorb(g.folds[i], g'.folds[i].c, limits, want))
            && (g'.ok ==> forall i :: 0 <= i < |g.folds| ==> g'.folds[i] == Report(g.folds[i], limits, want))
  {
    var cs, ds := Completions(g.folds), NextChunks(g.folds, limits, want);
    AddAllIsPointwise(cs, ds, 0);
    assert ds[0..] == ds;
  }

  ghost predicate GroupInv(g: Group, os: seq<Origin>, limits: Limits, want: bool)
    requires limits.Valid()
  {
    && |g.folds| == |os|
    && if g.ok then
         && (forall i :: 0 <= i < |os| ==> Inv(g.folds[i], os[i], limits, want) && g.folds[i].c.index == i)
         && (g.finished ==> AllDone(g.folds))
       else exists i :: 0 <= i < |os| && Stranded(g.folds[i], os[i], want)
  }

  lemma ReportGroupKeepsInv(g: Group, os: seq<Origin>, limits: Limits, want: bool)
    requires limits.Valid() && GroupInv(g, os, limits, want) && g.ok
    ensures GroupInv(ReportGroup(g, limits, want), os, limits, want)
  {
    ReportGroupIs(g, limits, want);
    var g' := ReportGroup(g, limits, want);
    if g'.ok {
      forall i | 0 <= i < |os|
        ensures Inv(g'.folds[i], os[i], limits, want) && g'.folds[i].c.index == i
        ensures g'.folds[i].s.status == g.folds[i].s.status
      {
        ReportKeepsInv(g.folds[i], os[i], limits, want);
        ReportKeepsStatus(g.folds[i], limits, want);
      }
    } else {
      var i :| 0 <= i < |os| && !MergeHolds(g.folds[i], limits, want);
      ReportKeepsInv(g.folds[i], os[i], limits, want);
      assert g'.folds[i].s.tokenOffset == Report(g.folds[i], limits, want).s.tokenOffset;
    }
  }

  lemma ReportKeepsStatus(f: Fold, limits: Limits, want: bool)
    requires limits.Valid() && f.s.Valid()
    ensures var f' := Report(f, limits, want); f'.s.status == f.s.status && f'.c.index == f.c.index
  {
  }

  lemma StepKeepsInv(g: Group, e: Event, os: seq<Origin>, limits: Limits, want: bool)
    requires limits.Valid() && GroupInv(g, os, limits, want) && Enabled(g, e)
    ensures GroupInv(Exec(g, e, limits, want), os, limits, want)
  {
    match e
    case Act(i, step) => MoveKeepsInv(g.folds[i], step, os[i], limits, want);
    case Reported => ReportGroupKeepsInv(g, os, limits, want);
  }

  lemma {:induction false} RunsKeepInv(g: Group, events: seq<Event>, os: seq<Origin>, limits: Limits, want: bool)
    requires limits.Valid() && GroupInv(g, os, limits, want) && Legal(g, events, limits, want)
    ensures GroupInv(Run(g, events, limits, want), os, limits, want)
    decreases |events|
  {
    if events != [] {
      StepKeepsInv(g, events[0], os, limits, want);
      RunsKeepInv(Exec(g, events[0], limits, want), events[1..], os, limits, want);
    }
  }

  ghost predicate AllCanBegin(states: seq<SeqState>, limits: Limits)
    requires limits.Valid()
  {
    forall i :: 0 <= i < |states| ==> CanBegin(states[i], limits)
  }

  ghost function Origins(states: seq<SeqState>): (os: seq<Origin>)
    ensures |os| == |states| && forall i :: 0 <= i < |states| ==> os[i] == OriginOf(states[i])
  {
    seq(|states|, i requires 0 <= i < |states| => OriginOf(states[i]))
  }

  lemma BeginGroupHolds(states: seq<SeqState>, limits: Limits, want: bool)
    requires limits.Valid() && AllCanBegin(states, limits)
    ensures GroupInv(BeginGroup(states, limits, want), Origins(states), limits, want)
  {
    forall i | 0 <= i < |states|
      ensures Inv(Begin(states[i], i, limits, want), OriginOf(states[i]), limits, want)
    {
      BeginHolds(states[i], i, limits, want);
    }
  }

  // ----- The results

  /** Wherever folding begins, and whatever happens between the outputs: the assertion in `add` has held so far if
      and only if logprobs are not wanted, or every sequence whose first chunk had no token, but which had
      generated some, has had none handed out since. */
  lemma AddHoldsIff(states: seq<SeqState>, events: seq<Event>, limits: Limits, want: bool)
    requires limits.Valid() && AllCanBegin(states, limits)
    requires Legal(BeginGroup(states, limits, want), events, limits, want)
    ensures var g := Run(BeginGroup(states, limits, want), events, limits, want);
            && |g.folds| == |states|
            && (g.ok <==> !want || forall i :: 0 <= i < |states| ==>
                                                 || states[i].logprobs == []
                                                 || states[i].tokenOffset < |states[i].data.output|
                                                 || g.folds[i].s.tokenOffset == states[i].tokenOffset)
  {
    BeginGroupHolds(states, limits, want);
    RunsKeepInv(BeginGroup(states, limits, want), events, Origins(states), limits, want);
  }

  /** What a CUMULATIVE output would hold, had nothing touched the sequence's logprob list. */
  function CumulativeOutput(f: Fold, limits: Limits, want: bool): Completion
    requires limits.Valid() && f.s.Valid() && |f.truth| == |f.s.data.output|
  {
    Chunk(f.s.(logprobs := f.truth), Params(Cumulative, limits.Buffer(), want), f.c.index).0
  }

  /** The folded completion is the cumulative one, but for the per-token logprobs where the first chunk had no
      token. */
  ghost predicate Agrees(f: Fold, first: bool, limits: Limits, want: bool)
    requires limits.Valid()
  {
    && f.s.Valid() && |f.truth| == |f.s.data.output|
    && f.c.(logprobs := None) == CumulativeOutput(f, limits, want).(logprobs := None)
    && (f.c.logprobs == CumulativeOutput(f, limits, want).logprobs <==> !want || first || |f.s.data.output| == 0)
  }

  lemma AfterReport(f: Fold, o: Origin, limits: Limits, want: bool)
    requires limits.Valid() && Inv(f, o, limits, want) && o.text == o.tokens == 0 && (o.first <==> !o.empty)
    ensures MergeHolds(f, limits, want) && Agrees(Report(f, limits, want), o.first, limits, want)
  {
    ReportKeepsText(f, o, limits, want);
    ReportKeepsInv(f, o, limits, want);
    ReportSets(f, limits, want);
    TextAgrees(Report(f, limits, want), o, limits, want);
    WholeTail(Report(f, limits, want).truth, 0);
  }

  lemma TextAgrees(f: Fold, o: Origin, limits: Limits, want: bool)
    requires limits.Valid() && TextExact(f, o, limits) && o.text == o.tokens == 0
    requires f.s.textOffset == NextTextOffset(f.s, limits.Buffer()) && f.s.tokenOffset == |f.s.data.output|
    requires f.c.logprob == (if want then Some(f.s.data.logprob) else None)
    requires f.c.finish == f.s.status.Reason() && f.c.stop == f.s.stopReason
    ensures f.c.(logprobs := None) == CumulativeOutput(f, limits, want).(logprobs := None)
  {
    WholeTail(f.s.data.output, 0);
  }

  lemma ReportSets(f: Fold, limits: Limits, want: bool)
    requires limits.Valid() && f.s.Valid() && MergeHolds(f, limits, want)
    ensures var f' := Report(f, limits, want);
            && f'.c.logprob == (if want then Some(f'.s.data.logprob) else None)
            && f'.c.finish == f'.s.status.Reason() && f'.c.stop == f'.s.stopReason
  {
  }

  /** Folding began with the first output of the request. */
  ghost predicate FromTheStart(os: seq<Origin>) {
    forall i :: 0 <= i < |os| ==> os[i].text == os[i].tokens == 0 && (os[i].first <==> !os[i].empty)
  }

  lemma NeverStranded(g: Group, os: seq<Origin>, limits: Limits, want: bool)
    requires limits.Valid() && GroupInv(g, os, limits, want) && FromTheStart(os)
    ensures g.ok && Sound(g.folds)
  {
  }

  lemma NextAgrees(g: Group, os: seq<Origin>, i: nat, limits: Limits, want: bool)
    requires limits.Valid() && GroupInv(g, os, limits, want) && FromTheStart(os) && g.ok && i < |os|
    ensures MergeHolds(g.folds[i], limits, want) && Agrees(Report(g.folds[i], limits, want), os[i].first, limits, want)
    ensures Report(g.folds[i], limits, want).s.status == g.folds[i].s.status
  {
    AfterReport(g.folds[i], os[i], limits, want);
    ReportKeepsStatus(g.folds[i], limits, want);
  }

  /** At every index the next merge succeeds and agrees. */
  ghost predicate EveryNextAgrees(g: Group, os: seq<Origin>, limits: Limits, want: bool)
    requires limits.Valid() && Sound(g.folds) && |os| == |g.folds|
  {
    forall i :: 0 <= i < |os| ==>
                  && MergeHolds(g.folds[i], limits, want)
                  && Agrees(Report(g.folds[i], limits, want), os[i].first, limits, want)
                  && Report(g.folds[i], limits, want).s.status == g.folds[i].s.status
  }

  lemma AllNextAgree(g: Group, os: seq<Origin>, limits: Limits, want: bool)
    requires limits.Valid() && GroupInv(g, os, limits, want) && FromTheStart(os) && g.ok && Sound(g.folds)
    ensures EveryNextAgrees(g, os, limits, want) && (g.finished ==> AllDone(g.folds))
  {
    forall i | 0 <= i < |os|
      ensures MergeHolds(g.folds[i], limits, want)
      ensures Agrees(Report(g.folds[i], limits, want), os[i].first, limits, want)
      ensures Report(g.folds[i], limits, want).s.status == g.folds[i].s.status
    {
      NextAgrees(g, os, i, limits, want);
    }
  }

  lemma ReportAgrees(g: Group, os: seq<Origin>, limits: Limits, want: bool)
    requires limits.Valid() && Sound(g.folds) && |os| == |g.folds| && EveryNextAgrees(g, os, limits, want)
    requires g.finished ==> AllDone(g.folds)
    ensures var g' := ReportGroup(g, limits, want);
            && g'.ok && |g'.folds| == |os| && (g'.finished <==> AllDone(g'.folds))
            && forall i :: 0 <= i < |os| ==> Agrees(g'.folds[i], os[i].first, limits, want)
  {
    ReportGroupIs(g, limits, want);
  }

  lemma GroupRefines(g: Group, os: seq<Origin>, limits: Limits, want: bool)
    requires limits.Valid() && GroupInv(g, os, limits, want) && FromTheStart(os)
    ensures g.ok && Sound(g.folds)
    ensures var g' := ReportGroup(g, limits, want);
            && g'.ok && |g'.folds| == |os| && (g'.finished <==> AllDone(g'.folds))
            && forall i :: 0 <= i < |os| ==> Agrees(g'.folds[i], os[i].first, limits, want)
  {
    NeverStranded(g, os, limits, want);
    AllNextAgree(g, os, limits, want);
    ReportAgrees(g, os, limits, want);
  }

  lemma BeginAgrees(s: SeqState, i: int, limits: Limits, want: bool)
    requires limits.Valid() && CanBegin(s, limits) && s.textOffset == s.tokenOffset == 0
    ensures Agrees(Begin(s, i, limits, want), |s.data.output| > 0, limits, want)
  {
    BeginHolds(s, i, limits, want);
    DeltaChunkIs(s, Deltas(limits, want), i);
    WholeTail(s.logprobs, 0);
    TextAgrees(Begin(s, i, limits, want), OriginOf(s), limits, want);
  }

  lemma FinishedAtOnce(states: seq<SeqState>, limits: Limits, want: bool)
    requires limits.Valid() && forall i :: 0 <= i < |states| ==> states[i].Valid()
    ensures var g := BeginGroup(states, limits, want); g.finished <==> AllDone(g.folds)
  {
    var g := BeginGroup(states, limits, want);
    forall i | 0 <= i < |states|
      ensures g.folds[i].s.status == states[i].status
    {
    }
  }

  /** The first DELTA output by itself is a CUMULATIVE one. */
  lemma FirstOutputAgrees(states: seq<SeqState>, limits: Limits, want: bool)
    requires limits.Valid() && AllCanBegin(states, limits)
    requires forall i :: 0 <= i < |states| ==> states[i].textOffset == states[i].tokenOffset == 0
    ensures var g := BeginGroup(states, limits, want);
            && |g.folds| == |states| && (g.finished <==> AllDone(g.folds))
            && forall i :: 0 <= i < |states| ==> Agrees(g.folds[i], |states[i].data.output| > 0, limits, want)
  {
    FinishedAtOnce(states, limits, want);
    var g := BeginGroup(states, limits, want);
    forall i | 0 <= i < |states|
      ensures Agrees(g.folds[i], |states[i].data.output| > 0, limits, want)
    {
      BeginAgrees(states[i], i, limits, want);
    }
  }

  /** Folding all DELTA outputs of a request, whatever happens between them: `add` never fails, and after each
      output the folded one is finished exactly when the request is, and holds for every index the text, the
      tokens, the cumulative logprob, the finish and stop reasons of a CUMULATIVE output. The per-token logprobs
      of an index agree too exactly when they are not wanted, or its first chunk carried a token, or none ever
      came. */
  lemma FoldRefinesCumulative(states: seq<SeqState>, events: seq<Event>, limits: Limits, want: bool)
    requires limits.Valid() && AllCanBegin(states, limits)
    requires forall i :: 0 <= i < |states| ==> states[i].textOffset == states[i].tokenOffset == 0
    requires Legal(BeginGroup(states, limits, want), events, limits, want)
    ensures var g := Run(BeginGroup(states, limits, want), events, limits, want);
            && g.ok && Sound(g.folds)
            && var g' := ReportGroup(g, limits, want);
            && g'.ok && |g'.folds| == |states| && (g'.finished <==> AllDone(g'.folds))
            && forall i :: 0 <= i < |states| ==> Agrees(g'.folds[i], |states[i].data.output| > 0, limits, want)
  {
    BeginGroupHolds(states, limits, want);
    RunsKeepInv(BeginGroup(states, limits, want), events, Origins(states), limits, want);
    GroupRefines(Run(BeginGroup(states, limits, want), events, limits, want), Origins(states), limits, want);
  }

  // ----- Two concrete runs

  lemma RunOfTwo(g: Group, a: Event, b: Event, limits: Limits, want: bool)
    requires limits.Valid() && Enabled(g, a) && Enabled(Exec(g, a, limits, want), b)
    ensures Legal(g, [a, b], limits, want)
    ensures Run(g, [a, b], limits, want) == Exec(Exec(g, a, limits, want), b, limits, want)
  {
    RunOfOne(Exec(g, a, limits, want), b, limits, want);
    assert [a, b][1..] == [b];
  }

  lemma RunOfOne(g: Group, e: Event, limits: Limits, want: bool)
    requires limits.Valid() && Enabled(g, e)
    ensures Legal(g, [e], limits, want) && Run(g, [e], limits, want) == Exec(g, e, limits, want)
  {
    assert [e][1..] == [];
  }

  /** One more token without text, seen from the fold. */
  lemma GrowsBy(f: Fold, token: Token, lps: Logprobs, limits: Limits) returns (f': Fold)
    requires limits.Valid() && f.s.Valid() && !f.s.status.Finished() && token in lps
    ensures f' == Move(f, Grow(token, lps, ""), limits)
    ensures f'.s.Valid() && f'.s.logprobs == f.s.logprobs + [lps] && f'.s.data.output == f.s.data.output + [token]
    ensures f'.s.tokenOffset == f.s.tokenOffset && f'.truth == f.truth + [lps] && f'.shared == f.shared
    ensures f'.c == if f.shared then f.c.(logprobs := Some(f'.s.logprobs)) else f.c
  {
    f' := Move(f, Grow(token, lps, ""), limits);
  }

  /** A request with one sequence that moves from `f` to `f'`, then the next output. */
  lemma MoveThenReport(g: Group, f: Fold, step: Step, f': Fold, limits: Limits)
    requires limits.Valid() && g.folds == [f] && g.ok && f.s.Valid() && f.c.index == 0
    requires step.Grow? && Streaming.Enabled(Stream(f.s, "", []), step)
    requires f' == Move(f, step, limits) && f'.s.Valid() && f'.c.index == 0
    ensures Legal(g, [Act(0, step), Reported], limits, true)
    ensures var g' := Run(g, [Act(0, step), Reported], limits, true);
            && |g'.folds| == 1 && (g'.ok <==> MergeHolds(f', limits, true))
            && (g'.ok ==> g'.folds[0] == Report(f', limits, true))
  {
    var g1 := g.(folds := [f']);
    assert g1 == Exec(g, Act(0, step), limits, true);
    ReportGroupIs(g1, limits, true);
    RunOfTwo(g, Act(0, step), Reported, limits, true);
  }

  lemma FreshFold(prompt: seq<Token>, limits: Limits) returns (f: Fold)
    requires limits.Valid()
    ensures f.s.Valid() && f.c.index == 0 && !f.s.status.Finished() && f.shared
    ensures f.s.logprobs == f.truth == [] && f.c.logprobs == Some([]) && f.s.data.output == [] && f.s.tokenOffset == 0
    ensures var g := BeginGroup([NewSequence(prompt)], limits, true); g.ok && g.folds == [f]
  {
    f := Begin(NewSequence(prompt), 0, limits, true);
  }

  /** The first output of a chunked prefill has no token; the logprobs of the first token are then folded in twice. */
  lemma LogprobsAreRepeated(prompt: seq<Token>, token: Token, limits: Limits)
    requires limits.Valid()
    ensures var lps := map[token := 0.0];
            var g := BeginGroup([NewSequence(prompt)], limits, true);
            var events := [Act(0, Grow(token, lps, "")), Reported];
            && Legal(g, events, limits, true)
            && var folds := Run(g, events, limits, true).folds;
            |folds| == 1 && folds[0].c.logprobs == Some([lps, lps]) && folds[0].truth == [lps]
  {
    var f := FreshFold(prompt, limits);
    var lps := map[token := 0.0];
    var f' := GrowsBy(f, token, lps, limits);
    MoveThenReport(BeginGroup([NewSequence(prompt)], limits, true), f, Grow(token, lps, ""), f', limits);
    RepeatsOne(f', lps, limits);
  }

  lemma RepeatsOne(f: Fold, lps: Logprobs, limits: Limits)
    requires limits.Valid() && f.s.Valid() && f.s.logprobs == [lps] && |f.s.data.output| == 1 && f.s.tokenOffset == 0
    requires f.c.logprobs == Some([lps])
    ensures MergeHolds(f, limits, true) && Report(f, limits, true).c.logprobs == Some([lps, lps])
    ensures Report(f, limits, true).truth == f.truth
  {
    NextIsWhole(f, limits);
    MergesTwice(f.c, NextChunkOf(f, limits, true), lps);
  }

  lemma NextIsWhole(f: Fold, limits: Limits)
    requires limits.Valid() && f.s.Valid() && |f.s.logprobs| == |f.s.data.output| > 0 && f.s.tokenOffset == 0
    ensures NextChunkOf(f, limits, true).logprobs == Some(f.s.logprobs)
  {
    NextLogprobs(f, limits, true);
    WholeTail(f.s.logprobs, 0);
  }

  lemma MergesTwice(c: Completion, d: Completion, lps: Logprobs)
    requires c.logprobs == d.logprobs == Some([lps])
    ensures Merge(c, d).0 && Merge(c, d).1.logprobs == Some([lps, lps])
  {
    assert [lps] + [lps] == [lps, lps];
  }

  /** A sequence whose only token has been handed out. */
  function HandedOut(prompt: seq<Token>, token: Token): SeqState {
    NewSequence(prompt).Append(token, map[token := 0.0]).(tokenOffset := 1)
  }

  lemma LateFold(prompt: seq<Token>, token: Token, limits: Limits) returns (f: Fold)
    requires limits.Valid()
    ensures CanBegin(HandedOut(prompt, token), limits)
    ensures f.s.Valid() && f.c.index == 0 && !f.s.status.Finished() && !f.shared
    ensures f.c.logprobs == None && |f.s.data.output| == 1 && f.s.tokenOffset == 1
    ensures var g := BeginGroup([HandedOut(prompt, token)], limits, true); g.ok && g.folds == [f]
  {
    f := Begin(HandedOut(prompt, token), 0, limits, true);
    DeltaChunkIs(HandedOut(prompt, token), Deltas(limits, true), 0);
  }

  /** The only token was handed out before folding begins, whose first chunk then has none; the next token fails
      `add`. */
  lemma LateFoldFails(prompt: seq<Token>, token: Token, limits: Limits)
    requires limits.Valid()
    ensures var g := BeginGroup([HandedOut(prompt, token)], limits, true);
            var events := [Act(0, Grow(token, map[token := 0.0], "")), Reported];
            && CanBegin(HandedOut(prompt, token), limits) && Legal(g, events, limits, true)
            && !Run(g, events, limits, true).ok
  {
    var f := LateFold(prompt, token, limits);
    var g := BeginGroup([HandedOut(prompt, token)], limits, true);
    var f' := GrowsBy(f, token, map[token := 0.0], limits);
    MoveThenReport(g, f, Grow(token, map[token := 0.0], ""), f', limits);
    NextLogprobs(f', limits, true);
  }
}
