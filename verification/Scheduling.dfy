/** Runs of the scheduler over one sequence: send, compute a chunk, sample when all is computed, preempt. */
module Scheduling {
  import opened Prelude
  import opened TokenState
  import opened Replication

  /** `Schedule(k, ...)` computes the next `k` tokens; its token is used only if that completes the sequence. */
  datatype Step = Schedule(k: int, token: Token, logprob: real) | Preempt

  predicate FirstPrefill(d: Data) {
    d.stage.Prefill? && d.computed == 0
  }

  predicate Allowed(w: World, s: Step) {
    s.Schedule? ==> 1 <= s.k <= w.scheduler.NumNewTokens()
  }

  /** One scheduler step as replication events: the first prefill sends a snapshot, everything else a delta. */
  function Events(w: World, s: Step): seq<Event> {
    match s
    case Schedule(k, token, logprob) =>
      [if FirstPrefill(w.scheduler) then SendSnapshot else SendDelta, Advance(k)]
      + (if w.scheduler.computed + k < w.scheduler.Len() then [] else [Append(token, logprob)])
    case Preempt => [Reset]
  }

  predicate Permitted(w: World, steps: seq<Step>)
    decreases |steps|
  {
    steps == [] || (Allowed(w, steps[0]) && Permitted(Run(w, Events(w, steps[0])), steps[1..]))
  }

  function Drive(w: World, steps: seq<Step>): World
    decreases |steps|
  {
    if steps == [] then w else Drive(Run(w, Events(w, steps[0])), steps[1..])
  }

  /** What holds whenever the scheduler looks at the sequence. */
  ghost predicate Ready(w: World) {
    var d := w.scheduler;
    && 0 <= d.computed < d.Len()
    && (d.stage.Decode? ==> d.Uncomputed() == 1)
    && (FirstPrefill(d) ==> d.pending == [])
    && (w.sent == [] || w.lost != [] ==> FirstPrefill(d))
  }

  lemma RunCons(w: World, e: Event, rest: seq<Event>)
    ensures Run(w, [e] + rest) == Run(Exec(w, e), rest)
    ensures Disciplined(w, [e] + rest) == (Enabled(w, e) && Disciplined(Exec(w, e), rest))
  {
  }

  lemma StepKeepsReady(w: World, s: Step)
    requires Ready(w) && Allowed(w, s)
    ensures Disciplined(w, Events(w, s)) && Ready(Run(w, Events(w, s)))
    ensures s.Schedule? && Run(w, Events(w, s)).scheduler.stage.Prefill? ==>
              Run(w, Events(w, s)).scheduler.Uncomputed() == w.scheduler.Uncomputed() - s.k
  {
    if s.Schedule? {
      var send := if FirstPrefill(w.scheduler) then SendSnapshot else SendDelta;
      var rest := if w.scheduler.computed + s.k < w.scheduler.Len() then [] else [Append(s.token, s.logprob)];
      RunCons(Exec(w, send), Advance(s.k), rest);
    }
  }

  /** In every scheduler run from a nonempty prompt, with preemption at any point, the worker's copy matches
      at every delivery, and the decode shortcut `get_num_new_tokens` equals the uncomputed count. */
  lemma {:induction false} SchedulerRunsStaySynced(w: World, steps: seq<Step>)
    requires InSync(w) && Ready(w) && Permitted(w, steps)
    ensures var w' := Drive(w, steps);
            && InSync(w') && Ready(w')
            && w'.scheduler.NumNewTokens() == w'.scheduler.Uncomputed() > 0
    decreases |steps|
  {
    if steps != [] {
      var es := Events(w, steps[0]);
      StepKeepsReady(w, steps[0]);
      RunsStaySynced(w, es);
      SchedulerRunsStaySynced(Run(w, es), steps[1..]);
    }
  }

  lemma FromAnyNonemptyPrompt(prompt: seq<Token>, steps: seq<Step>)
    requires prompt != [] && Permitted(Start(prompt), steps)
    ensures var w := Drive(Start(prompt), steps);
            && EveryDeliveryMatches(w.sent, w.views)
            && w.scheduler.NumNewTokens() == w.scheduler.Uncomputed() > 0
  {
    SchedulerRunsStaySynced(Start(prompt), steps);
  }

  /** A step that computes sends one message and moves the counter. */
  lemma ScheduleIs(w: World, s: Step)
    requires s.Schedule?
    ensures var (d, w') := (w.scheduler, Run(w, Events(w, s)));
            && w'.sent == w.sent + [if FirstPrefill(d) then Snapshot(d) else Patch(d.CutDelta())]
            && w'.scheduler.computed == d.computed + s.k
  {
    var send := if FirstPrefill(w.scheduler) then SendSnapshot else SendDelta;
    var rest := if w.scheduler.computed + s.k < w.scheduler.Len() then [] else [Append(s.token, s.logprob)];
    assert Events(w, s) == [send] + ([Advance(s.k)] + rest);
    RunCons(w, send, [Advance(s.k)] + rest);
    RunCons(Exec(w, send), Advance(s.k), rest);
  }

  /** Whether the next message is a snapshot is decided by the last step: it is after a preemption, and it is not after
      a step that computed something. */
  lemma {:induction false} FreshAfter(w: World, steps: seq<Step>)
    requires Ready(w) && Permitted(w, steps) && steps != []
    ensures var w' := Drive(w, steps);
            Ready(w') && (FirstPrefill(w'.scheduler) <==> steps[|steps| - 1].Preempt?)
    decreases |steps|
  {
    StepKeepsReady(w, steps[0]);
    if |steps| == 1 {
      if steps[0].Schedule? {
        ScheduleIs(w, steps[0]);
      } else {
        RunCons(w, Reset, []);
        assert Events(w, steps[0]) == [Reset] + [];
      }
      assert Drive(w, steps) == Run(w, Events(w, steps[0]));
    } else {
      FreshAfter(Run(w, Events(w, steps[0])), steps[1..]);
    }
  }

  /** In every run a snapshot goes out with the first step and with the first one after each preemption, and a delta
      with every other. */
  lemma SnapshotIff(prompt: seq<Token>, steps: seq<Step>, next: Step)
    requires prompt != [] && Permitted(Start(prompt), steps) && next.Schedule?
    requires Allowed(Drive(Start(prompt), steps), next)
    ensures var (w, w') := (Drive(Start(prompt), steps), Drive(Start(prompt), steps + [next]));
            && |w'.sent| == |w.sent| + 1 && w'.sent[..|w.sent|] == w.sent
            && (w'.sent[|w.sent|].Snapshot? <==> steps == [] || steps[|steps| - 1].Preempt?)
  {
    var w := Drive(Start(prompt), steps);
    DriveSnoc(Start(prompt), steps, next);
    if steps != [] {
      FreshAfter(Start(prompt), steps);
    }
    ScheduleIs(w, next);
  }

  lemma {:induction false} DriveSnoc(w: World, steps: seq<Step>, next: Step)
    ensures Drive(w, steps + [next]) == Run(Drive(w, steps), Events(Drive(w, steps), next))
    decreases |steps|
  {
    if steps != [] {
      assert (steps + [next])[1..] == steps[1..] + [next];
      DriveSnoc(Run(w, Events(w, steps[0])), steps[1..], next);
    }
  }

  predicate StaysInPrefill(w: World, steps: seq<Step>)
    decreases |steps|
  {
    && w.scheduler.stage.Prefill?
    && (steps == [] || (steps[0].Schedule? && StaysInPrefill(Run(w, Events(w, steps[0])), steps[1..])))
  }

  /** A prefill phase that is not preempted lasts fewer steps than it had tokens to compute. */
  lemma {:induction false} PrefillTerminates(w: World, steps: seq<Step>)
    requires Ready(w) && Permitted(w, steps) && StaysInPrefill(w, steps)
    ensures |steps| < w.scheduler.Uncomputed()
    decreases |steps|
  {
    if steps != [] {
      StepKeepsReady(w, steps[0]);
      PrefillTerminates(Run(w, Events(w, steps[0])), steps[1..]);
    }
  }

  /** The scheduled data of several sequences: `SequenceGroupMetadataDelta`. Ids are the keys of a dictionary. */
  datatype GroupDelta = GroupDelta(requestId: string, seqDeltas: seq<(int, Delta)>,
                                   blockTables: map<int, seq<int>>, isPrompt: bool,
                                   doSample: bool, tokenChunkSize: Option<int>)

  /** The data of all sequences after the deltas, each applied to the sequence it names, up to the first that
      names none. */
  function Patched(data: map<int, Data>, deltas: seq<(int, Delta)>): (r: map<int, Data>)
    ensures r.Keys == data.Keys
    decreases |deltas|
  {
    if deltas == [] || deltas[0].0 !in data then data
    else
      var (id, d) := deltas[0];
      Patched(data[id := data[id].Apply(d)], deltas[1..])
  }

  lemma PatchedStep(data: map<int, Data>, deltas: seq<(int, Delta)>, n: nat)
    requires n < |deltas| && deltas[n].0 in data
    ensures var (id, d) := deltas[n];
            Patched(data, deltas[n..]) == Patched(data[id := data[id].Apply(d)], deltas[n + 1..])
  {
    assert deltas[n..][0] == deltas[n] && deltas[n..][1..] == deltas[n + 1..];
  }

  /** The deltas for one sequence, in order. */
  function Own(deltas: seq<(int, Delta)>, id: int): seq<Delta> {
    if deltas == [] then [] else (if deltas[0].0 == id then [deltas[0].1] else []) + Own(deltas[1..], id)
  }

  function AppliedInTurn(data: Data, deltas: seq<Delta>): Data
    decreases |deltas|
  {
    if deltas == [] then data else AppliedInTurn(data.Apply(deltas[0]), deltas[1..])
  }

  /** Every sequence takes exactly its own deltas, whatever the others take in between. */
  lemma {:induction false} TakesItsOwn(data: map<int, Data>, deltas: seq<(int, Delta)>, id: int)
    requires id in data && forall k :: 0 <= k < |deltas| ==> deltas[k].0 in data
    ensures Patched(data, deltas)[id] == AppliedInTurn(data[id], Own(deltas, id))
    decreases |deltas|
  {
    if deltas != [] {
      var (i, d) := deltas[0];
      var rest := Own(deltas[1..], id);
      assert deltas[0].0 in data && forall k :: 0 <= k < |deltas[1..]| ==> deltas[1..][k] == deltas[k + 1];
      TakesItsOwn(data[i := data[i].Apply(d)], deltas[1..], id);
      assert Own(deltas, id) == if i == id then [d] + rest else rest;
      assert ([d] + rest)[1..] == rest;
    }
  }

  /** Nothing is applied from the first unknown id on. */
  lemma {:induction false} StopsAtUnknown(data: map<int, Data>, deltas: seq<(int, Delta)>, n: nat)
    requires n < |deltas| && deltas[n].0 !in data && forall k :: 0 <= k < n ==> deltas[k].0 in data
    ensures Patched(data, deltas) == Patched(data, deltas[..n])
    decreases |deltas|
  {
    if n > 0 {
      var (id, d) := deltas[0];
      assert deltas[0].0 in data && deltas[..n][0] == deltas[0] && deltas[..n][1..] == deltas[1..][..n - 1];
      StopsAtUnknown(data[id := data[id].Apply(d)], deltas[1..], n - 1);
    }
  }

  ghost predicate AllDifferent(seqData: map<int, SequenceData>) {
    forall i, j :: i in seqData && j in seqData && i != j ==> seqData[i] != seqData[j]
  }

  /** The objects hold these data. */
  ghost predicate Hold(seqData: map<int, SequenceData>, data: map<int, Data>)
    reads seqData.Values
  {
    && seqData.Keys == data.Keys
    && forall id :: id in seqData ==> seqData[id].Value() == data[id] && data[id].CacheExact()
  }

  method ApplyOne(seqData: map<int, SequenceData>, id: int, d: Delta, ghost data: map<int, Data>)
    requires AllDifferent(seqData) && Hold(seqData, data) && id in seqData
    modifies seqData.Values
    ensures Hold(seqData, data[id := data[id].Apply(d)])
  {
    seqData[id].ApplyDelta(d);
    forall i | i in seqData && i != id
      ensures seqData[i].Value() == data[i]
    {
      assert seqData[i] != seqData[id] && old(seqData[i].Value()) == data[i];
    }
  }

  /** Applies the deltas in order up to the first that names no sequence. */
  method ApplyAll(seqData: map<int, SequenceData>, deltas: seq<(int, Delta)>, ghost data: map<int, Data>)
    returns (n: nat)
    requires AllDifferent(seqData) && Hold(seqData, data)
    modifies seqData.Values
    ensures n <= |deltas| && Hold(seqData, Patched(data, deltas))
    ensures n < |deltas| ==> deltas[n].0 !in seqData
    ensures forall j :: 0 <= j < n ==> deltas[j].0 in seqData
  {
    n := 0;
    ghost var now := data;
    while n < |deltas| && deltas[n].0 in seqData
      invariant n <= |deltas| && Hold(seqData, now) && Patched(now, deltas[n..]) == Patched(data, deltas)
      invariant forall j :: 0 <= j < n ==> deltas[j].0 in seqData
    {
      var (id, d) := deltas[n];
      ApplyOne(seqData, id, d, now);
      PatchedStep(now, deltas, n);
      now := now[id := now[id].Apply(d)];
      n := n + 1;
    }
  }

  datatype Outcome = Applied | MissingSequence(at: nat) | WrongRequest

  class SequenceGroupMetadata {
    const requestId: string
    const seqData: map<int, SequenceData>
    var blockTables: map<int, seq<int>>
    var isPrompt: bool
    var doSample: bool
    var tokenChunkSize: Option<int>

    /** Each sequence takes exactly its own deltas, in order, up to the first unknown id; the group fields
        change only when every id and the request id match. */
    method ApplyDelta(delta: GroupDelta, ghost data: map<int, Data>) returns (outcome: Outcome)
      requires AllDifferent(seqData) && Hold(seqData, data)
      modifies this, seqData.Values
      ensures var n := if outcome.MissingSequence? then outcome.at else |delta.seqDeltas|;
              && n <= |delta.seqDeltas| && Hold(seqData, Patched(data, delta.seqDeltas))
              && (forall j :: 0 <= j < n ==> delta.seqDeltas[j].0 in seqData)
              && (n < |delta.seqDeltas| ==> delta.seqDeltas[n].0 !in seqData)
      ensures outcome.Applied? ==>
                && requestId == delta.requestId && blockTables == delta.blockTables
                && isPrompt == delta.isPrompt && doSample == delta.doSample
                && tokenChunkSize == delta.tokenChunkSize
      ensures outcome.WrongRequest? ==> requestId != delta.requestId
      ensures !outcome.Applied? ==> unchanged(`blockTables, `isPrompt, `doSample, `tokenChunkSize)
    {
      var n := ApplyAll(seqData, delta.seqDeltas, data);
      if n < |delta.seqDeltas| {
        return MissingSequence(n);
      }
      if requestId != delta.requestId {
        return WrongRequest;
      }
      blockTables, tokenChunkSize := delta.blockTables, delta.tokenChunkSize;
      doSample, isPrompt := delta.doSample, delta.isPrompt;
      outcome := Applied;
    }
  }
}
