/** Runs of a parallel-sampling request without streaming, and the choice of the best sequences (vllm/sequence.py). */
module BestOf {
  import opened Prelude
  import opened Streaming
  import opened Outputs
  import opened Parallel
  import opened Sampling
  import opened StableSort

  // ----- Picking the best

  /** Python's `xs[:n]`, where a negative `n` counts from the end. */
  function SliceTo<T>(xs: seq<T>, n: int): seq<T> {
    if n >= 0 then Take(xs, n) else if |xs| + n <= 0 then [] else xs[..|xs| + n]
  }

  predicate AtLeastAsGood(a: SeqState, b: SeqState) {
    a.data.logprob >= b.data.logprob
  }

  /** The sequences of the assembled output: all of them, or the best `_real_n or n`. */
  function Chosen(xs: seq<SeqState>, c: Config): seq<SeqState> {
    if c.realN.None? then xs
    else SliceTo(Sorted(xs, AtLeastAsGood), if c.realN.value != 0 then c.realN.value else c.n)
  }

  /** Of the given scores, those at `places` are the best, best first, and scores that are equal count in the order in
      which they are given. */
  ghost predicate BestFirst(scores: seq<real>, places: seq<nat>) {
    && Distinct(places) && (forall i :: 0 <= i < |places| ==> places[i] < |scores|)
    && (forall i, j :: 0 <= i < j < |places| ==>
                         scores[places[i]] > scores[places[j]]
                         || (scores[places[i]] == scores[places[j]] && places[i] < places[j]))
    && (forall i, k: nat :: 0 <= i < |places| && k < |scores| && k !in places ==>
                              scores[places[i]] > scores[k] || (scores[places[i]] == scores[k] && places[i] < k))
  }

  function Scores(xs: seq<SeqState>): (scores: seq<real>)
    ensures |scores| == |xs| && forall k :: 0 <= k < |xs| ==> scores[k] == xs[k].data.logprob
  {
    seq(|xs|, k requires 0 <= k < |xs| => xs[k].data.logprob)
  }

  /** The order of the sort, in terms of the scores. */
  lemma {:induction false} SortRanks(xs: seq<SeqState>) returns (all: seq<nat>)
    ensures |all| == |xs| && TakenFrom(xs, Sorted(xs, AtLeastAsGood), all) && BestFirst(Scores(xs), all)
    ensures forall k: nat :: k < |xs| ==> k in all
  {
    SortedIsSorted(xs, AtLeastAsGood);
    all := SortedIsStable(xs, AtLeastAsGood);
    var ys := Sorted(xs, AtLeastAsGood);
    assert forall i, j :: 0 <= i < j < |ys| ==> AtLeastAsGood(ys[i], ys[j]);
  }

  /** Whatever is not among the first comes behind them. */
  lemma {:induction false} BehindPrefix(all: seq<nat>, n: nat, k: nat) returns (j: nat)
    requires n <= |all| && k in all && k !in all[..n]
    ensures n <= j < |all| && all[j] == k
  {
    assert all == all[..n] + all[n..];
    var i: nat :| i < |all[n..]| && all[n..][i] == k;
    j := n + i;
  }

  lemma {:induction false} PrefixIsBest(scores: seq<real>, all: seq<nat>, n: nat)
    requires BestFirst(scores, all) && n <= |all| && forall k: nat :: k < |scores| ==> k in all
    ensures BestFirst(scores, all[..n])
  {
    forall i, k: nat | 0 <= i < n && k < |scores| && k !in all[..n]
      ensures scores[all[i]] > scores[k] || (scores[all[i]] == scores[k] && all[i] < k)
    {
      var j := BehindPrefix(all, n, k);
    }
  }

  /** With `best_of` given and accepted, the output holds the sequences at `places`, which are the best by cumulative
      logprob, best first and ties in the order of the sub-requests; there are as many as requested if and only if
      that number is positive. */
  lemma RequestedCountIff(c: Config, xs: seq<SeqState>) returns (places: seq<nat>)
    requires AsGiven(c) && FirstProblem(c).None? && c.bestOf.Some? && |xs| == Normalized(c).n
    ensures TakenFrom(xs, Chosen(xs, Normalized(c)), places)
    ensures BestFirst(Scores(xs), places)
    ensures |Chosen(xs, Normalized(c))| == c.n <==> c.n >= 1
  {
    var all := SortRanks(xs);
    var n := ChosenIsPrefix(c, xs);
    TakenPrefix(xs, Sorted(xs, AtLeastAsGood), all, n);
    PrefixIsBest(Scores(xs), all, n);
    places := all[..n];
  }

  lemma ChosenIsPrefix(c: Config, xs: seq<SeqState>) returns (n: nat)
    requires AsGiven(c) && FirstProblem(c).None? && c.bestOf.Some? && |xs| == Normalized(c).n
    ensures n <= |xs| == |Sorted(xs, AtLeastAsGood)| && Chosen(xs, Normalized(c)) == Sorted(xs, AtLeastAsGood)[..n]
    ensures n == c.n <==> c.n >= 1
  {
    SortedIsSorted(xs, AtLeastAsGood);
    n := |Chosen(xs, Normalized(c))|;
  }

  /** A count of zero returns every sequence, and one below it drops some from the end. */
  lemma CountsBelowOne(xs: seq<SeqState>, kind: OutputKind)
    requires |xs| == 2 && !kind.OnlyDeltas?
    ensures var zero := Config(0, Some(2), None, NoStop, false, true, kind, 0);
            && FirstProblem(zero).None? && |Chosen(xs, Normalized(zero))| == 2
            && FirstProblem(zero.(n := -1)).None? && |Chosen(xs, Normalized(zero.(n := -1)))| == 1
  {
    SortedIsSorted(xs, AtLeastAsGood);
  }

  // ----- The cumulative logprob is the sum over the tokens

  function SumOf(lps: seq<Logprobs>, tokens: seq<Token>): real
    requires |lps| == |tokens| && forall k :: 0 <= k < |tokens| ==> tokens[k] in lps[k]
  {
    if tokens == [] then 0.0
    else SumOf(lps[..|lps| - 1], tokens[..|tokens| - 1]) + lps[|lps| - 1][tokens[|tokens| - 1]]
  }

  ghost predicate Summed(s: SeqState) {
    && |s.logprobs| == |s.data.output|
    && (forall k :: 0 <= k < |s.data.output| ==> s.data.output[k] in s.logprobs[k])
    && s.data.logprob == SumOf(s.logprobs, s.data.output)
  }

  lemma StepKeepsSum(st: Stream, step: Step, limits: Limits)
    requires limits.Valid() && st.s.Valid() && Streaming.Enabled(st, step) && !step.ReadDelta? && Summed(st.s)
    ensures Summed(Streaming.Exec(st, step, limits).s)
  {
  }

  // ----- Runs

  /** The sequences, the join, the lookup table, and the assembled outputs produced so far. */
  datatype World = World(states: seq<SeqState>, join: Join, table: set<string>, outputs: seq<seq<SeqState>>)

  datatype Event = Act(i: nat, step: Step) | Reported(i: nat) | Forgotten(ids: set<string>)

  predicate Enabled(w: World, e: Event) {
    && (forall k :: 0 <= k < |w.states| ==> w.states[k].Valid())
    && |w.join.ids| == |w.states|
    && match e
       case Act(i, step) =>
         i < |w.states| && (step.Grow? || step.Preempt?) && Streaming.Enabled(Stream(w.states[i], "", []), step)
       case Reported(i) => i < |w.states| && w.join.ids[i] in w.join.remaining
       case Forgotten(ids) => MayForget(w.join, ids)
  }

  function Exec(w: World, e: Event, limits: Limits, c: Config): World
    requires limits.Valid() && Enabled(w, e)
  {
    match e
    case Act(i, step) =>
      w.(states := w.states[i := Streaming.Exec(Stream(w.states[i], "", []), step, limits).s])
    case Reported(i) =>
      var (outcome, join, table) := Report(w.join, w.table, w.join.ids[i], w.states[i].status.Finished());
      World(w.states, join, table, if outcome.Assembled? then w.outputs + [Chosen(w.states, c)] else w.outputs)
    case Forgotten(ids) => w.(table := w.table - ids)
  }

  predicate Legal(w: World, events: seq<Event>, limits: Limits, c: Config)
    requires limits.Valid()
    decreases |events|
  {
    events == [] || (Enabled(w, events[0]) && Legal(Exec(w, events[0], limits, c), events[1..], limits, c))
  }

  function Run(w: World, events: seq<Event>, limits: Limits, c: Config): World
    requires limits.Valid() && Legal(w, events, limits, c)
    decreases |events|
  {
    if events == [] then w else Run(Exec(w, events[0], limits, c), events[1..], limits, c)
  }

  function Start(request: string, n: nat, prompt: seq<Token>): World {
    World(seq(n, _ => NewSequence(prompt)), NewJoin(SubIds(request, n), false), set id | id in SubIds(request, n), [])
  }

  /** No output while a sub-request is unreported; then exactly one, chosen from the finished sequences. */
  ghost predicate Inv(w: World, c: Config) {
    && Partitioned(w.join, w.table) && !w.join.streaming && |w.join.ids| == |w.states|
    && (forall k :: 0 <= k < |w.states| ==> w.states[k].Valid() && Summed(w.states[k]))
    && (forall k :: 0 <= k < |w.states| ==> w.join.ids[k] in w.join.finished ==> w.states[k].status.Finished())
    && w.outputs == if w.join.remaining == [] then [Chosen(w.states, c)] else []
  }

  lemma ActKeepsInv(w: World, e: Event, limits: Limits, c: Config)
    requires limits.Valid() && Inv(w, c) && Enabled(w, e) && e.Act?
    ensures Inv(Exec(w, e, limits, c), c)
  {
    StepKeepsSum(Stream(w.states[e.i], "", []), e.step, limits);
    StepKeepsValid(Stream(w.states[e.i], "", []), e.step, limits);
  }

  lemma ReportKeepsInv(w: World, e: Event, limits: Limits, c: Config)
    requires limits.Valid() && Inv(w, c) && Enabled(w, e) && e.Reported?
    ensures Inv(Exec(w, e, limits, c), c)
  {
    var (id, done) := (w.join.ids[e.i], w.states[e.i].status.Finished());
    ReportKeepsPartition(w.join, w.table, e.i, done);
    forall k | 0 <= k < |w.states| && w.join.ids[k] in Report(w.join, w.table, id, done).1.finished
      ensures w.states[k].status.Finished()
    {
      assert w.join.ids[k] in w.join.finished || k == e.i;
    }
  }

  lemma StepKeepsInv(w: World, e: Event, limits: Limits, c: Config)
    requires limits.Valid() && Inv(w, c) && Enabled(w, e)
    ensures Inv(Exec(w, e, limits, c), c)
  {
    match e
    case Act(_, _) => ActKeepsInv(w, e, limits, c);
    case Reported(_) => ReportKeepsInv(w, e, limits, c);
    case Forgotten(ids) => ForgetKeepsPartition(w.join, w.table, ids);
  }

  lemma StepKeepsValid(st: Stream, step: Step, limits: Limits)
    requires limits.Valid() && st.s.Valid() && Streaming.Enabled(st, step)
    ensures Streaming.Exec(st, step, limits).s.Valid()
  {
  }

  /** For every order of finishing reports, with any unfinished reports and engine steps between them, the assembled
      output is produced exactly once, by the report that finishes the last sub-request. */
  lemma {:induction false} RunsKeepInv(w: World, events: seq<Event>, limits: Limits, c: Config)
    requires limits.Valid() && Inv(w, c) && Legal(w, events, limits, c)
    ensures Inv(Run(w, events, limits, c), c)
    decreases |events|
  {
    if events != [] {
      StepKeepsInv(w, events[0], limits, c);
      RunsKeepInv(Exec(w, events[0], limits, c), events[1..], limits, c);
    }
  }

  /** End to end: of the `best_of` sequences the requested number is returned, those at `places`: the best by the sum of
      their per-token logprobs, best first and ties in the order of the sub-requests. */
  lemma BestSequencesReturned(request: string, prompt: seq<Token>, events: seq<Event>, limits: Limits, c: Config)
    returns (sums: seq<real>, places: seq<nat>)
    requires AsGiven(c) && FirstProblem(c).None? && c.bestOf.Some? && c.n >= 1
    requires limits.Valid() && Legal(Start(request, Normalized(c).n, prompt), events, limits, Normalized(c))
    ensures var w := Run(Start(request, Normalized(c).n, prompt), events, limits, Normalized(c));
            if w.join.remaining != [] then w.outputs == []
            else
              && (forall k :: 0 <= k < |w.states| ==> w.states[k].status.Finished() && Summed(w.states[k]))
              && |sums| == |w.states|
              && (forall k :: 0 <= k < |w.states| ==> sums[k] == SumOf(w.states[k].logprobs, w.states[k].data.output))
              && |w.outputs| == 1 && |w.outputs[0]| == c.n
              && TakenFrom(w.states, w.outputs[0], places) && BestFirst(sums, places)
  {
    var w := RunsFromStart(request, prompt, events, limits, Normalized(c));
    places := RequestedCountIff(c, w.states);
    sums := Scores(w.states);
    EndsWell(w, Normalized(c));
  }

  /** What is known once every sub-request has been reported. */
  lemma EndsWell(w: World, c: Config)
    requires Inv(w, c)
    ensures w.join.remaining != [] ==> w.outputs == []
    ensures w.join.remaining == [] ==> w.outputs == [Chosen(w.states, c)]
    ensures forall k :: 0 <= k < |w.states| ==>
                          && Summed(w.states[k])
                          && Scores(w.states)[k] == SumOf(w.states[k].logprobs, w.states[k].data.output)
    ensures w.join.remaining == [] ==> forall k :: 0 <= k < |w.states| ==> w.states[k].status.Finished()
  {
    forall k | 0 <= k < |w.states| && w.join.remaining == []
      ensures w.states[k].status.Finished()
    {
      assert w.join.ids[k] in w.join.ids;
    }
  }

  lemma RunsFromStart(request: string, prompt: seq<Token>, events: seq<Event>, limits: Limits, c: Config)
    returns (w: World)
    requires c.n >= 1 && limits.Valid() && Legal(Start(request, c.n, prompt), events, limits, c)
    ensures w == Run(Start(request, c.n, prompt), events, limits, c) && Inv(w, c) && |w.states| == c.n
  {
    var w0 := Start(request, c.n, prompt);
    NewJoinPartitioned(request, c.n, false, w0.table);
    RunsKeepInv(w0, events, limits, c);
    SizeStays(w0, events, limits, c);
    w := Run(w0, events, limits, c);
  }

  lemma {:induction false} SizeStays(w: World, events: seq<Event>, limits: Limits, c: Config)
    requires limits.Valid() && Legal(w, events, limits, c)
    ensures |Run(w, events, limits, c).states| == |w.states|
    decreases |events|
  {
    if events != [] {
      SizeStays(Exec(w, events[0], limits, c), events[1..], limits, c);
    }
  }
}
