/** Runs of a parallel-sampling request in streaming mode: every interleaving of engine steps and reports. */
module ParallelStreaming {
  import opened Prelude
  import opened Streaming
  import opened Outputs
  import opened Parallel

  /** Each sequence with what has been handed out of it, the join, the lookup table, and for every output emitted
      so far whether it was marked finished. */
  datatype World = World(streams: seq<Stream>, join: Join, table: set<string>, flags: seq<bool>)

  /** An engine step on one sequence, the report of one sub-request, or the engine forgetting reported ones. */
  datatype Event = Act(i: nat, step: Step) | Reported(i: nat) | Forgotten(ids: set<string>)

  predicate AllDone(streams: seq<Stream>) {
    forall i :: 0 <= i < |streams| ==> streams[i].s.status.Finished()
  }

  predicate AllValid(streams: seq<Stream>) {
    forall i :: 0 <= i < |streams| ==> streams[i].s.Valid()
  }

  /** One sequence's chunk goes out. */
  function Emit(st: Stream, limits: Limits): Stream
    requires limits.Valid() && st.s.Valid()
  {
    var (c, s) := Chunk(st.s, Params(OnlyDeltas, limits.Buffer(), false), 0);
    Stream(s, st.text + c.text, st.tokens + c.tokens)
  }

  /** Reports are made for sub-requests that were not reported finished before. */
  predicate Enabled(w: World, e: Event) {
    && AllValid(w.streams) && |w.join.ids| == |w.streams|
    && match e
       case Act(i, step) =>
         i < |w.streams| && (step.Grow? || step.Preempt?) && Streaming.Enabled(w.streams[i], step)
       case Reported(i) => i < |w.streams| && w.join.ids[i] in w.join.remaining
       case Forgotten(ids) => MayForget(w.join, ids)
  }

  function Exec(w: World, e: Event, limits: Limits): World
    requires limits.Valid() && Enabled(w, e)
  {
    match e
    case Act(i, step) => w.(streams := w.streams[i := Streaming.Exec(w.streams[i], step, limits)])
    case Reported(i) =>
      var (outcome, join, table) := Report(w.join, w.table, w.join.ids[i], w.streams[i].s.status.Finished());
      if !outcome.Assembled? then w.(join := join, table := table)
      else World(seq(|w.streams|, k requires 0 <= k < |w.streams| => Emit(w.streams[k], limits)), join, table,
                 w.flags + [AllDone(w.streams)])
    case Forgotten(ids) => w.(table := w.table - ids)
  }

  predicate Legal(w: World, events: seq<Event>, limits: Limits)
    requires limits.Valid()
    decreases |events|
  {
    events == [] || (Enabled(w, events[0]) && Legal(Exec(w, events[0], limits), events[1..], limits))
  }

  function Run(w: World, events: seq<Event>, limits: Limits): World
    requires limits.Valid() && Legal(w, events, limits)
    decreases |events|
  {
    if events == [] then w else Run(Exec(w, events[0], limits), events[1..], limits)
  }

  function Start(request: string, n: nat, prompt: seq<Token>): World {
    World(seq(n, _ => Stream(NewSequence(prompt), "", [])), NewJoin(SubIds(request, n), true),
          set id | id in SubIds(request, n), [])
  }

  ghost predicate Complete(st: Stream) {
    st.s.status.Finished() && st.text == st.s.text && st.tokens == st.s.data.output
  }

  ghost predicate Inv(w: World, limits: Limits)
    requires limits.Valid()
  {
    && Partitioned(w.join, w.table) && w.join.streaming && |w.join.ids| == |w.streams|
    && (forall k :: 0 <= k < |w.streams| ==> Exact(w.streams[k], limits))
    && (forall k :: 0 <= k < |w.streams| ==> w.join.ids[k] in w.join.finished ==> w.streams[k].s.status.Finished())
    && (w.join.remaining == [] ==> forall k :: 0 <= k < |w.streams| ==> Complete(w.streams[k]))
    && (true in w.flags ==> AllDone(w.streams))
  }

  lemma EmitKeepsExact(st: Stream, limits: Limits)
    requires limits.Valid() && Exact(st, limits)
    ensures var st' := Emit(st, limits);
            && Exact(st', limits) && st.text <= st'.text && st.tokens <= st'.tokens
            && st'.s.status == st.s.status && (st.s.status.Finished() ==> Complete(st'))
  {
    ReadKeepsExact(st, limits);
    assert Emit(st, limits) == Streaming.Exec(st, ReadDelta, limits);
  }

  lemma ActKeepsInv(w: World, e: Event, limits: Limits)
    requires limits.Valid() && Inv(w, limits) && Enabled(w, e) && e.Act?
    ensures Inv(Exec(w, e, limits), limits)
  {
    StepKeepsExact(w.streams[e.i], e.step, limits);
  }

  lemma ForgetKeepsInv(w: World, e: Event, limits: Limits)
    requires limits.Valid() && Inv(w, limits) && Enabled(w, e) && e.Forgotten?
    ensures Inv(Exec(w, e, limits), limits)
  {
    ForgetKeepsPartition(w.join, w.table, e.ids);
  }

  /** The report of sub-request `i` when all those before it were reported finished. */
  predicate Lowest(j: Join, i: nat)
    requires i < |j.ids|
  {
    forall k :: 0 <= k < i ==> j.ids[k] in j.finished
  }

  /** Every sequence's chunk goes out with the report of the lowest sub-request not yet reported finished, and with no
      other. */
  lemma HandedOutIff(w: World, i: nat, limits: Limits)
    requires limits.Valid() && Inv(w, limits) && Enabled(w, Reported(i))
    ensures var w' := Exec(w, Reported(i), limits);
            && w'.flags == (if Lowest(w.join, i) then w.flags + [AllDone(w.streams)] else w.flags)
            && (AllDone(w.streams) <==> forall k :: 0 <= k < |w.streams| ==> w.streams[k].s.status.Finished())
            && |w'.streams| == |w.streams|
            && forall k :: 0 <= k < |w.streams| ==>
                             w'.streams[k] == if Lowest(w.join, i) then Emit(w.streams[k], limits) else w.streams[k]
  {
    ReportKeepsPartition(w.join, w.table, i, w.streams[i].s.status.Finished());
  }

  lemma ReportKeepsJoin(w: World, i: nat, limits: Limits)
    requires limits.Valid() && Inv(w, limits) && Enabled(w, Reported(i))
    ensures var w' := Exec(w, Reported(i), limits);
            && Partitioned(w'.join, w'.table) && w'.join.ids == w.join.ids && w'.join.streaming
            && (w'.join.remaining == [] ==> Lowest(w.join, i))
            && forall k :: 0 <= k < |w.streams| && w.join.ids[k] in w'.join.finished ==>
                             w.streams[k].s.status.Finished()
  {
    var w' := Exec(w, Reported(i), limits);
    ReportKeepsPartition(w.join, w.table, i, w.streams[i].s.status.Finished());
    forall k | 0 <= k < |w.streams| && w.join.ids[k] in w'.join.finished
      ensures w.streams[k].s.status.Finished()
    {
      assert w.join.ids[k] in w.join.finished || k == i;
    }
  }

  lemma ReportKeepsStreams(w: World, i: nat, limits: Limits)
    requires limits.Valid() && Inv(w, limits) && Enabled(w, Reported(i))
    ensures var w' := Exec(w, Reported(i), limits);
            && |w'.streams| == |w.streams|
            && (forall k :: 0 <= k < |w.streams| ==>
                              Exact(w'.streams[k], limits) && w'.streams[k].s.status == w.streams[k].s.status)
            && (Lowest(w.join, i) ==> forall k :: 0 <= k < |w.streams| ==>
                                                    w.streams[k].s.status.Finished() ==> Complete(w'.streams[k]))
  {
    HandedOutIff(w, i, limits);
    forall k | 0 <= k < |w.streams|
      ensures var st := Emit(w.streams[k], limits);
              && Exact(st, limits) && st.s.status == w.streams[k].s.status
              && (w.streams[k].s.status.Finished() ==> Complete(st))
    {
      EmitKeepsExact(w.streams[k], limits);
    }
  }

  /** `w'` has the same sequences with the same statuses; if `out`, the finished ones were handed out in full. */
  lemma InvAfter(w: World, w': World, out: bool, limits: Limits)
    requires limits.Valid() && Inv(w, limits) && Partitioned(w'.join, w'.table) && w'.join.streaming
    requires w'.join.ids == w.join.ids && |w'.streams| == |w.streams| && (w'.join.remaining == [] ==> out)
    requires forall k :: 0 <= k < |w.streams| && w.join.ids[k] in w'.join.finished ==> w.streams[k].s.status.Finished()
    requires forall k :: 0 <= k < |w.streams| ==>
                           Exact(w'.streams[k], limits) && w'.streams[k].s.status == w.streams[k].s.status
    requires out ==> forall k :: 0 <= k < |w.streams| ==> w.streams[k].s.status.Finished() ==> Complete(w'.streams[k])
    requires w'.flags == if out then w.flags + [AllDone(w.streams)] else w.flags
    ensures Inv(w', limits)
  {
    if w'.join.remaining == [] {
      forall k | 0 <= k < |w.streams|
        ensures Complete(w'.streams[k])
      {
        assert w.join.ids[k] in w'.join.finished;
      }
    }
  }

  lemma ReportKeepsInv(w: World, e: Event, limits: Limits)
    requires limits.Valid() && Inv(w, limits) && Enabled(w, e) && e.Reported?
    ensures Inv(Exec(w, e, limits), limits)
  {
    ReportKeepsJoin(w, e.i, limits);
    ReportKeepsStreams(w, e.i, limits);
    HandedOutIff(w, e.i, limits);
    InvAfter(w, Exec(w, e, limits), Lowest(w.join, e.i), limits);
  }

  lemma StepKeepsInv(w: World, e: Event, limits: Limits)
    requires limits.Valid() && Inv(w, limits) && Enabled(w, e)
    ensures Inv(Exec(w, e, limits), limits)
  {
    match e
    case Act(_, _) => ActKeepsInv(w, e, limits);
    case Reported(_) => ReportKeepsInv(w, e, limits);
    case Forgotten(_) => ForgetKeepsInv(w, e, limits);
  }

  /** Over every interleaving: unfinished and finished sub-requests partition all of them, what was handed out of each
      sequence is a prefix of it, and once the last sub-request is reported every sequence's text and tokens have
      been handed out in full and no sub-request id is left in the table. */
  lemma {:induction false} RunsKeepInv(w: World, events: seq<Event>, limits: Limits)
    requires limits.Valid() && Inv(w, limits) && Legal(w, events, limits)
    ensures Inv(Run(w, events, limits), limits)
    decreases |events|
  {
    if events != [] {
      StepKeepsInv(w, events[0], limits);
      RunsKeepInv(Exec(w, events[0], limits), events[1..], limits);
    }
  }

  // ----- How often an output is marked finished

  function CountTrue(flags: seq<bool>): nat {
    if flags == [] then 0 else CountTrue(flags[..|flags| - 1]) + if flags[|flags| - 1] then 1 else 0
  }

  /** The report of the lowest sub-request not yet reported finished, when all sequences are finished but others are
      still to be reported. */
  predicate MarksEarly(w: World, e: Event)
    requires Enabled(w, e)
  {
    e.Reported? && AllDone(w.streams) && |w.join.remaining| > 1 && Lowest(w.join, e.i)
  }

  function EarlyMarks(w: World, events: seq<Event>, limits: Limits): nat
    requires limits.Valid() && Legal(w, events, limits)
    decreases |events|
  {
    if events == [] then 0
    else (if MarksEarly(w, events[0]) then 1 else 0) + EarlyMarks(Exec(w, events[0], limits), events[1..], limits)
  }

  lemma StepMarks(w: World, e: Event, limits: Limits)
    requires limits.Valid() && Inv(w, limits) && Enabled(w, e)
    ensures var w' := Exec(w, e, limits);
            CountTrue(w'.flags) == CountTrue(w.flags) + (if MarksEarly(w, e) then 1 else 0)
                                   + (if w.join.remaining != [] && w'.join.remaining == [] then 1 else 0)
  {
    if e.Reported? {
      CountSnoc(w.flags, AllDone(w.streams));
      HandedOutIff(w, e.i, limits);
      ReportEnds(w, e.i, limits);
    }
  }

  lemma CountSnoc(flags: seq<bool>, b: bool)
    ensures CountTrue(flags + [b]) == CountTrue(flags) + if b then 1 else 0
  {
    assert (flags + [b])[..|flags|] == flags;
  }

  /** The report after which none remains is the last one's, when all sequences are finished. */
  lemma ReportEnds(w: World, i: nat, limits: Limits)
    requires limits.Valid() && Inv(w, limits) && Enabled(w, Reported(i))
    ensures var w' := Exec(w, Reported(i), limits);
            && |w.join.remaining| > 0
            && (w'.join.remaining == [] ==> |w.join.remaining| == 1 && Lowest(w.join, i) && AllDone(w.streams))
            && (w'.join.remaining != [] && AllDone(w.streams) ==> |w.join.remaining| > 1)
  {
    ReportKeepsPartition(w.join, w.table, i, w.streams[i].s.status.Finished());
    ReportKeepsJoin(w, i, limits);
    assert |w.join.remaining| == 1 ==> w.join.remaining == [w.join.ids[i]];
    if Exec(w, Reported(i), limits).join.remaining == [] {
      forall k | 0 <= k < |w.streams|
        ensures w.streams[k].s.status.Finished()
      {
        assert w.join.ids[k] in Exec(w, Reported(i), limits).join.finished;
      }
    }
  }

  /** Consumers see one output marked finished for the last report, plus one for every report of the lowest sub-request
      not yet reported finished that is made after all sequences finished while others are still to be reported:
      exactly one in all if and only if no report of that kind is made. */
  lemma {:induction false} FinishedMarks(w: World, events: seq<Event>, limits: Limits)
    requires limits.Valid() && Inv(w, limits) && Legal(w, events, limits)
    ensures var w' := Run(w, events, limits);
            CountTrue(w'.flags) == CountTrue(w.flags) + EarlyMarks(w, events, limits)
                                   + (if w.join.remaining != [] && w'.join.remaining == [] then 1 else 0)
    decreases |events|
  {
    if events != [] {
      var w1 := Exec(w, events[0], limits);
      StepMarks(w, events[0], limits);
      StepKeepsInv(w, events[0], limits);
      FinishedMarks(w1, events[1..], limits);
      if w1.join.remaining == [] {
        EmptyStays(w1, events[1..], limits);
      }
    }
  }

  lemma {:induction false} EmptyStays(w: World, events: seq<Event>, limits: Limits)
    requires limits.Valid() && Legal(w, events, limits) && w.join.remaining == []
    ensures Run(w, events, limits).join.remaining == []
    decreases |events|
  {
    if events != [] {
      EmptyStays(Exec(w, events[0], limits), events[1..], limits);
    }
  }

  lemma StartHolds(request: string, n: nat, prompt: seq<Token>, limits: Limits)
    requires n > 0 && limits.Valid()
    ensures Inv(Start(request, n, prompt), limits)
  {
    NewJoinPartitioned(request, n, true, Start(request, n, prompt).table);
  }

  lemma EveryRunDelivers(request: string, n: nat, prompt: seq<Token>, events: seq<Event>, limits: Limits)
    requires n > 0 && limits.Valid() && Legal(Start(request, n, prompt), events, limits)
    ensures var w := Run(Start(request, n, prompt), events, limits);
            && Partitioned(w.join, w.table) && |w.streams| == n
            && (w.join.remaining == [] ==>
                  && (forall k :: 0 <= k < n ==> Complete(w.streams[k]))
                  && (CountTrue(w.flags) == 1 <==> EarlyMarks(Start(request, n, prompt), events, limits) == 0))
  {
    var w0 := Start(request, n, prompt);
    StartHolds(request, n, prompt, limits);
    RunsKeepInv(w0, events, limits);
    FinishedMarks(w0, events, limits);
    SizeStays(w0, events, limits);
  }

  lemma {:induction false} SizeStays(w: World, events: seq<Event>, limits: Limits)
    requires limits.Valid() && Legal(w, events, limits)
    ensures |Run(w, events, limits).streams| == |w.streams|
    decreases |events|
  {
    if events != [] {
      SizeStays(Exec(w, events[0], limits), events[1..], limits);
    }
  }

  lemma RunCons(w: World, e: Event, rest: seq<Event>, limits: Limits)
    requires limits.Valid() && Enabled(w, e) && Legal(Exec(w, e, limits), rest, limits)
    ensures Legal(w, [e] + rest, limits) && Run(w, [e] + rest, limits) == Run(Exec(w, e, limits), rest, limits)
  {
  }

  lemma RunTwo(w: World, a: Event, b: Event, limits: Limits)
    requires limits.Valid() && Enabled(w, a) && Enabled(Exec(w, a, limits), b)
    ensures Legal(w, [a] + ([b] + []), limits)
    ensures Run(w, [a] + ([b] + []), limits) == Exec(Exec(w, a, limits), b, limits)
  {
    RunCons(Exec(w, a, limits), b, [], limits);
    RunCons(w, a, [b] + [], limits);
  }

  /** With all sequences finished, the lowest report is marked finished. */
  lemma MarksFinished(w: World, i: nat, limits: Limits) returns (w': World)
    requires limits.Valid() && Inv(w, limits) && Enabled(w, Reported(i)) && AllDone(w.streams) && Lowest(w.join, i)
    ensures w' == Exec(w, Reported(i), limits) && w'.flags == w.flags + [true] && Inv(w', limits)
    ensures |w'.streams| == |w.streams| && AllDone(w'.streams) && w'.join.ids == w.join.ids
    ensures w.join.ids[i] in w'.join.finished
  {
    w' := Exec(w, Reported(i), limits);
    ReportKeepsPartition(w.join, w.table, i, true);
    ReportKeepsStreams(w, i, limits);
    ReportKeepsInv(w, Reported(i), limits);
    HandedOutIff(w, i, limits);
  }

  lemma StaysEnabled(w: World, i: nat, k: nat, limits: Limits)
    requires limits.Valid() && Inv(w, limits) && k != i && Enabled(w, Reported(i)) && Enabled(w, Reported(k))
    ensures Enabled(Exec(w, Reported(i), limits), Reported(k))
  {
    ReportKeepsPartition(w.join, w.table, i, w.streams[i].s.status.Finished());
    ReportKeepsInv(w, Reported(i), limits);
  }

  /** After the first of two reports the second is enabled and the lowest. */
  lemma FirstOfTwo(w: World, limits: Limits) returns (w': World)
    requires limits.Valid() && Inv(w, limits) && |w.streams| == 2 && AllDone(w.streams)
    requires Enabled(w, Reported(0)) && Enabled(w, Reported(1))
    ensures w' == Exec(w, Reported(0), limits) && w'.flags == w.flags + [true] && Inv(w', limits) && AllDone(w'.streams)
    ensures Enabled(w', Reported(1)) && Lowest(w'.join, 1)
  {
    StaysEnabled(w, 0, 1, limits);
    w' := MarksFinished(w, 0, limits);
  }

  lemma BothReported(w: World, limits: Limits)
    requires limits.Valid() && Inv(w, limits) && |w.streams| == 2 && AllDone(w.streams) && w.flags == []
    requires Enabled(w, Reported(0)) && Enabled(w, Reported(1))
    ensures Legal(w, [Reported(0)] + ([Reported(1)] + []), limits)
    ensures Run(w, [Reported(0)] + ([Reported(1)] + []), limits).flags == [true, true]
  {
    var w1 := FirstOfTwo(w, limits);
    RunTwo(w, Reported(0), Reported(1), limits);
    var w2 := MarksFinished(w1, 1, limits);
  }

  /** A sequence without output reaches the length limit with one token. */
  lemma GrownToTheEnd(w: World, i: nat, grow: Step, limits: Limits) returns (w': World)
    requires limits.Valid() && limits.maxTokens == Some(1) && limits.minTokens <= 1
    requires Inv(w, limits) && Enabled(w, Act(i, grow)) && grow.Grow? && w.streams[i].s.data.output == []
    ensures w' == Exec(w, Act(i, grow), limits) && Inv(w', limits) && w'.streams[i].s.status.Finished()
    ensures w'.join == w.join && w'.flags == w.flags && |w'.streams| == |w.streams|
    ensures forall k :: 0 <= k < |w.streams| && k != i ==> w'.streams[k] == w.streams[k]
  {
    ActKeepsInv(w, Act(i, grow), limits);
    w' := Exec(w, Act(i, grow), limits);
  }

  /** Two sequences that reach the length limit in the same step give two outputs marked finished. */
  lemma TwoOutputsMarkedFinished(request: string, prompt: seq<Token>, token: Token, limits: Limits)
    requires limits.Valid() && limits.maxTokens == Some(1) && limits.minTokens <= 1
    ensures var grow := Grow(token, map[token := 0.0], "");
            var events := [Act(0, grow)] + ([Act(1, grow)] + ([Reported(0)] + ([Reported(1)] + [])));
            && Legal(Start(request, 2, prompt), events, limits)
            && Run(Start(request, 2, prompt), events, limits).flags == [true, true]
  {
    var grow := Grow(token, map[token := 0.0], "");
    var w0 := Start(request, 2, prompt);
    StartHolds(request, 2, prompt, limits);
    var w1 := GrownToTheEnd(w0, 0, grow, limits);
    var w2 := GrownToTheEnd(w1, 1, grow, limits);
    BothReported(w2, limits);
    RunCons(w1, Act(1, grow), [Reported(0)] + ([Reported(1)] + []), limits);
    RunCons(w0, Act(0, grow), [Act(1, grow)] + ([Reported(0)] + ([Reported(1)] + [])), limits);
  }
}
