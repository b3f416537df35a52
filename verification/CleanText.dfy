/** Whether the text of a sequence is free of stop strings, over every run of a sequence (vllm/sequence.py) under
    the stop checker (vllm/engine/output_processor/stop_checker.py). The documentation promises it of the returned
    text (vllm/sampling_params.py). */
module CleanText {
  import opened Prelude
  import opened StopStrings
  import opened Streaming

  /** A step before the minimum number of tokens, where nothing is searched, adds a stop string. */
  ghost predicate Missed(s: SeqState, step: Step, limits: Limits) {
    step.Grow? && |s.data.output| + 1 < limits.minTokens && NewMatch(s.text, step.newText, limits.stop)
  }

  /** A step that ends the sequence with a stop string. */
  ghost predicate CutByString(s: SeqState, step: Step, limits: Limits) {
    && step.Grow? && |s.data.output| + 1 >= limits.minTokens && !StopsByToken(step, limits)
    && NewMatch(s.text, step.newText, limits.stop)
  }

  /** What the inputs of one step say about the text after it. */
  lemma {:induction false} StepIsCleanIff(st: Stream, step: Step, limits: Limits)
    requires limits.Valid() && !limits.includeStop && st.s.Valid() && Enabled(st, step)
    ensures StopFree(Exec(st, step, limits).s.text, limits.stop) <==>
            if CutByString(st.s, step, limits) then !Overtaken(st.s.text, step.newText, limits.stop)
            else StopFree(st.s.text, limits.stop) && !Missed(st.s, step, limits)
    ensures CutByString(st.s, step, limits) ==> Exec(st, step, limits).s.status.Finished()
    ensures Missed(st.s, step, limits) ==> !Exec(st, step, limits).s.status.Finished()
    ensures Exec(st, step, limits).s.Valid()
  {
    if step.Grow? {
      StopFreeGrows(st.s.text, step.newText, limits.stop);
      CutTextIsStopFreeIff(st.s.text, step.newText, limits.stop);
      assert (st.s.text + step.newText)[..|st.s.text|] == st.s.text;
    }
  }

  /** Some step of the run misses a stop string. */
  ghost predicate MissedIn(st: Stream, steps: seq<Step>, limits: Limits)
    requires limits.Valid() && Legal(st, steps, limits)
    decreases |steps|
  {
    steps != [] && (Missed(st.s, steps[0], limits) || MissedIn(Exec(st, steps[0], limits), steps[1..], limits))
  }

  lemma {:induction false} FinishedStays(st: Stream, steps: seq<Step>, limits: Limits)
    requires limits.Valid() && Legal(st, steps, limits) && st.s.status.Finished()
    ensures Run(st, steps, limits).s == st.s.(textOffset := Run(st, steps, limits).s.textOffset,
                                         tokenOffset := Run(st, steps, limits).s.tokenOffset)
    decreases |steps|
  {
    if steps != [] {
      FinishedStays(Exec(st, steps[0], limits), steps[1..], limits);
    }
  }

  /** While generation continues, the text is free of stop strings if and only if no step below the minimum number of
      tokens added one. */
  lemma {:induction false} UnfinishedIsCleanIff(st: Stream, steps: seq<Step>, limits: Limits)
    requires limits.Valid() && !limits.includeStop && st.s.Valid() && Legal(st, steps, limits)
    requires !Run(st, steps, limits).s.status.Finished()
    ensures StopFree(Run(st, steps, limits).s.text, limits.stop)
            <==> StopFree(st.s.text, limits.stop) && !MissedIn(st, steps, limits)
    ensures Run(st, steps, limits).s.Valid()
    decreases |steps|
  {
    if steps != [] {
      StepIsCleanIff(st, steps[0], limits);
      if Exec(st, steps[0], limits).s.status.Finished() {
        FinishedStays(Exec(st, steps[0], limits), steps[1..], limits);
      }
      UnfinishedIsCleanIff(Exec(st, steps[0], limits), steps[1..], limits);
    }
  }

  /** The final text, in every run from any prompt: if a stop string ends the sequence, it is clean if and only if
      none ends by the place where the first-listed match begins; otherwise, if and only if no step missed a stop
      string. */
  lemma {:induction false} FinalTextIsCleanIff(prompt: seq<Token>, steps: seq<Step>, last: Step, limits: Limits)
    requires limits.Valid() && !limits.includeStop && Legal(Start(prompt), steps, limits)
    requires !Run(Start(prompt), steps, limits).s.status.Finished() && Run(Start(prompt), steps, limits).s.Valid()
    requires Enabled(Run(Start(prompt), steps, limits), last)
    requires Exec(Run(Start(prompt), steps, limits), last, limits).s.status.Finished()
    ensures var s := Run(Start(prompt), steps, limits).s;
            StopFree(Exec(Run(Start(prompt), steps, limits), last, limits).s.text, limits.stop) <==>
            if CutByString(s, last, limits) then !Overtaken(s.text, last.newText, limits.stop)
            else !MissedIn(Start(prompt), steps, limits)
  {
    UnfinishedIsCleanIff(Start(prompt), steps, limits);
    StepIsCleanIff(Run(Start(prompt), steps, limits), last, limits);
  }

  function Start(prompt: seq<Token>): Stream {
    Stream(NewSequence(prompt), "", [])
  }

  // ----- Conditions on the request

  ghost predicate FirstInAll(stop: seq<string>) {
    forall j :: 0 <= j < |stop| ==> Contains(stop[j], stop[0])
  }

  predicate ShortSteps(steps: seq<Step>, stop: seq<string>) {
    forall i, j :: 0 <= i < |steps| && 0 <= j < |stop| && steps[i].Grow? ==> |steps[i].newText| <= |stop[j]|
  }

  /** Without a minimum number of tokens, the text is clean at every moment of a run, after the finish too, if no
      step adds more characters than any stop string has, or every stop string contains the one listed first. */
  lemma {:induction false} RunsStayClean(st: Stream, steps: seq<Step>, limits: Limits)
    requires limits.Valid() && !limits.includeStop && limits.minTokens <= 1 && st.s.Valid() && Legal(st, steps, limits)
    requires StopFree(st.s.text, limits.stop) && (FirstInAll(limits.stop) || ShortSteps(steps, limits.stop))
    ensures StopFree(Run(st, steps, limits).s.text, limits.stop)
    decreases |steps|
  {
    if steps != [] {
      StepIsCleanIff(st, steps[0], limits);
      if CutByString(st.s, steps[0], limits) {
        if FirstInAll(limits.stop) {
          FirstInAllCutsClean(st.s.text, steps[0].newText, limits.stop);
        } else {
          ShortStepsCutClean(st.s.text, steps[0].newText, limits.stop);
        }
      }
      RunsStayClean(Exec(st, steps[0], limits), steps[1..], limits);
    }
  }

  /** Every run of the request ends with a text free of stop strings. */
  ghost predicate AlwaysClean(prompt: seq<Token>, limits: Limits)
    requires limits.Valid()
  {
    forall steps :: Legal(Start(prompt), steps, limits) && Run(Start(prompt), steps, limits).s.status.Finished() ==>
                      StopFree(Run(Start(prompt), steps, limits).s.text, limits.stop)
  }

  /** The promise holds of a request, whatever is generated, if and only if it asks for no minimum number of
      tokens and each of its stop strings contains the one listed first (or it has none). */
  lemma {:induction false} AlwaysCleanIff(prompt: seq<Token>, limits: Limits, token: Token)
    requires limits.Valid() && !limits.includeStop
    requires !StopsByToken(Grow(token, map[token := 0.0], ""), limits)
    ensures AlwaysClean(prompt, limits) <==>
            limits.stop == [] || (limits.minTokens <= 1 && FirstInAll(limits.stop))
  {
    if limits.stop != [] && limits.minTokens <= 1 && FirstInAll(limits.stop) {
      forall steps | Legal(Start(prompt), steps, limits)
        ensures StopFree(Run(Start(prompt), steps, limits).s.text, limits.stop)
      {
        RunsStayClean(Start(prompt), steps, limits);
      }
    }
    if limits.stop != [] && limits.minTokens > 1 {
      MinimumLetsThrough(prompt, limits, token);
    }
    if limits.minTokens <= 1 && !FirstInAll(limits.stop) {
      OrderLetsThrough(prompt, limits, token);
    }
  }

  lemma {:induction false} RunOne(st: Stream, step: Step, limits: Limits)
    requires limits.Valid() && st.s.Valid() && Enabled(st, step)
    ensures Legal(st, [step], limits) && Run(st, [step], limits) == Exec(st, step, limits)
  {
    assert [step][1..] == [];
  }

  lemma {:induction false} RunTwo(st: Stream, a: Step, b: Step, limits: Limits)
    requires limits.Valid() && st.s.Valid() && Enabled(st, a)
    requires Exec(st, a, limits).s.Valid() && Enabled(Exec(st, a, limits), b)
    ensures Legal(st, [a, b], limits) && Run(st, [a, b], limits) == Exec(Exec(st, a, limits), b, limits)
  {
    RunOne(Exec(st, a, limits), b, limits);
    assert [a, b][1..] == [b];
  }

  /** A stop string generated below the minimum stays, here until an abort. */
  lemma {:induction false} MinimumLetsThrough(prompt: seq<Token>, limits: Limits, token: Token)
    requires limits.Valid() && limits.stop != [] && limits.minTokens > 1
    ensures !AlwaysClean(prompt, limits)
  {
    var grow := Grow(token, map[token := 0.0], limits.stop[0]);
    RunTwo(Start(prompt), grow, Abort, limits);
    var s := Run(Start(prompt), [grow, Abort], limits).s;
    assert s.text == limits.stop[0];
    assert OccursAt(s.text, limits.stop[0], 0);
  }

  lemma {:induction false} OrderLetsThrough(prompt: seq<Token>, limits: Limits, token: Token)
    requires limits.Valid() && !limits.includeStop && limits.minTokens <= 1 && !FirstInAll(limits.stop)
    requires !StopsByToken(Grow(token, map[token := 0.0], ""), limits)
    ensures !AlwaysClean(prompt, limits)
  {
    var j :| 0 <= j < |limits.stop| && !Contains(limits.stop[j], limits.stop[0]);
    var added := FirstMissingOvertakes(limits.stop, j);
    var grow := Grow(token, map[token := 0.0], added);
    StepIsCleanIff(Start(prompt), grow, limits);
    RunOne(Start(prompt), grow, limits);
  }

  // ----- Concrete runs

  /** A string listed later than the one that matched stays in front of the cut. */
  lemma {:induction false} LaterStopStringSurvives(prompt: seq<Token>)
    ensures var limits := Limits(["b", "a"], false, 0, None, |prompt| + 9, true, None, {});
            var steps := [Grow(1, map[1 := 0.0], "ab")];
            && Legal(Start(prompt), steps, limits)
            && var s := Run(Start(prompt), steps, limits).s;
            s.status.FinishedStopped? && s.stopReason == ByString("b") && s.text == "a"
  {
    var limits := Limits(["b", "a"], false, 0, None, |prompt| + 9, true, None, {});
    RunOne(Start(prompt), Grow(1, map[1 := 0.0], "ab"), limits);
    assert "" + "ab" == "ab" && "ab"[0..1] == "a" && "ab"[1..2] == "b";
  }

  /** A string generated below the minimum number of tokens stays when the length limit ends the sequence. */
  lemma {:induction false} EarlyStopStringSurvives(prompt: seq<Token>)
    ensures var limits := Limits(["a"], false, 2, Some(2), |prompt| + 9, true, None, {});
            var steps := [Grow(1, map[1 := 0.0], "a"), Grow(2, map[2 := 0.0], "x")];
            && Legal(Start(prompt), steps, limits)
            && var s := Run(Start(prompt), steps, limits).s;
            s.status.FinishedLengthCapped? && s.text == "ax"
  {
    var limits := Limits(["a"], false, 2, Some(2), |prompt| + 9, true, None, {});
    var a, b := Grow(1, map[1 := 0.0], "a"), Grow(2, map[2 := 0.0], "x");
    var st := Exec(Start(prompt), a, limits);
    assert st.s.text == "a" && "a" + "x" == "ax" && "ax"[1..2] == "x";
    RunTwo(Start(prompt), a, b, limits);
  }

  /** A missed stop string goes again when a later match begins before it. */
  lemma {:induction false} LaterMatchRemovesMissed(prompt: seq<Token>)
    ensures var limits := Limits(["b", "abc"], false, 2, None, |prompt| + 9, true, None, {});
            var steps := [Grow(1, map[1 := 0.0], "ab"), Grow(2, map[2 := 0.0], "c")];
            && Legal(Start(prompt), steps, limits) && Missed(Start(prompt).s, steps[0], limits)
            && var s := Run(Start(prompt), steps, limits).s;
            s.status.FinishedStopped? && s.text == ""
  {
    var limits := Limits(["b", "abc"], false, 2, None, |prompt| + 9, true, None, {});
    var a, b := Grow(1, map[1 := 0.0], "ab"), Grow(2, map[2 := 0.0], "c");
    assert EndsInLast("" + "ab", 2, limits.stop[0], 1);
    var st := Exec(Start(prompt), a, limits);
    assert st.s.text == "ab" && "ab" + "c" == "abc" && "abc"[2..3] == "c";
    RunTwo(Start(prompt), a, b, limits);
  }
}
