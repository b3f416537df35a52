/** How a worker's copy of a `SequenceData` follows the scheduler's through snapshots and deltas. */
module Replication {
  import opened Prelude
  import opened TokenState

  datatype Message = Snapshot(data: Data) | Patch(delta: Delta)

  datatype Event =
    | Append(token: Token, logprob: real)
    | Advance(k: int)
    | Reset
    | SendSnapshot
    | SendDelta

  /** The scheduler's data, every message sent so far, the scheduler's data at each send, and the unsent
      tokens that resets have thrown away since the last snapshot. */
  datatype World = World(scheduler: Data, sent: seq<Message>, views: seq<Data>, lost: seq<Token>)

  function Start(prompt: seq<Token>): World {
    World(FromPrompt(prompt), [], [], [])
  }

  /** The worker's cache entry: a snapshot replaces it, a delta is applied to it. */
  function Deliver(replica: Option<Data>, m: Message): Option<Data> {
    match m
    case Snapshot(data) => Some(data.Decoded())
    case Patch(delta) => if replica.Some? then Some(replica.value.Apply(delta)) else None
  }

  function Replay(sent: seq<Message>): Option<Data> {
    if sent == [] then None else Deliver(Replay(sent[..|sent| - 1]), sent[|sent| - 1])
  }

  /** Snapshots are taken with nothing pending; deltas are cut only while nothing has been lost. */
  predicate Enabled(w: World, e: Event) {
    match e
    case Append(_, _) => true
    case Advance(k) => k <= w.scheduler.Uncomputed()
    case Reset => true
    case SendSnapshot => w.scheduler.pending == []
    case SendDelta => w.sent != [] && w.lost == []
  }

  function Exec(w: World, e: Event): World {
    match e
    case Append(t, lp) => w.(scheduler := w.scheduler.Append(t, lp))
    case Advance(k) => w.(scheduler := w.scheduler.Advance(k))
    case Reset => w.(scheduler := w.scheduler.Reset(), lost := w.lost + w.scheduler.pending)
    case SendSnapshot =>
      w.(sent := w.sent + [Snapshot(w.scheduler)], views := w.views + [w.scheduler], lost := [])
    case SendDelta =>
      w.(scheduler := w.scheduler.AfterCut(), sent := w.sent + [Patch(w.scheduler.CutDelta())],
      views := w.views + [w.scheduler])
  }

  predicate Disciplined(w: World, events: seq<Event>)
    decreases |events|
  {
    events == [] || (Enabled(w, events[0]) && Disciplined(Exec(w, events[0]), events[1..]))
  }

  function Run(w: World, events: seq<Event>): World
    decreases |events|
  {
    if events == [] then w else Run(Exec(w, events[0]), events[1..])
  }

  /** After each message the worker holds what the scheduler held when it sent that message. */
  ghost predicate EveryDeliveryMatches(sent: seq<Message>, views: seq<Data>) {
    && |views| == |sent|
    && forall k :: 0 < k <= |sent| ==>
                     Replay(sent[..k]).Some? && SameView(Replay(sent[..k]).value, views[k - 1])
  }

  /** The output a worker has; none before the first snapshot. */
  function OutputOf(replica: Option<Data>): seq<Token> {
    if replica.Some? then replica.value.output else []
  }

  ghost predicate InSync(w: World) {
    && w.scheduler.CacheExact()
    && EveryDeliveryMatches(w.sent, w.views)
    && OutputOf(Replay(w.sent)) + w.lost + w.scheduler.pending == w.scheduler.output
    && (w.sent != [] ==>
          var r := Replay(w.sent);
          r.Some? && r.value.CacheExact() && r.value.prompt == w.scheduler.prompt)
  }

  lemma ReplayOne(sent: seq<Message>, m: Message)
    ensures Replay(sent + [m]) == Deliver(Replay(sent), m)
  {
    assert (sent + [m])[..|sent|] == sent;
  }

  lemma SendExtends(sent: seq<Message>, views: seq<Data>, m: Message, view: Data)
    requires EveryDeliveryMatches(sent, views)
    requires Deliver(Replay(sent), m).Some? && SameView(Deliver(Replay(sent), m).value, view)
    ensures EveryDeliveryMatches(sent + [m], views + [view])
    ensures Replay(sent + [m]) == Deliver(Replay(sent), m)
  {
    var sent' := sent + [m];
    forall k | 0 < k <= |sent'|
      ensures Replay(sent'[..k]).Some? && SameView(Replay(sent'[..k]).value, (views + [view])[k - 1])
    {
      assert sent'[..k] == if k == |sent'| then sent' else sent[..k];
    }
  }

  lemma AppendKeepsSync(w: World, e: Event)
    requires InSync(w) && e.Append?
    ensures InSync(Exec(w, e))
  {
    Regroup(OutputOf(Replay(w.sent)) + w.lost, w.scheduler.pending, [e.token]);
  }

  lemma ResetKeepsSync(w: World)
    requires InSync(w)
    ensures InSync(Exec(w, Reset))
  {
    Regroup(OutputOf(Replay(w.sent)), w.lost, w.scheduler.pending);
  }

  lemma Regroup<T>(a: seq<T>, b: seq<T>, c: seq<T>)
    ensures a + (b + c) == a + b + c && a + b + [] == a + b
  {
  }

  lemma SnapshotKeepsSync(w: World)
    requires InSync(w) && Enabled(w, SendSnapshot)
    ensures InSync(Exec(w, SendSnapshot))
  {
    SendExtends(w.sent, w.views, Snapshot(w.scheduler), w.scheduler);
  }

  lemma DeltaKeepsSync(w: World)
    requires InSync(w) && Enabled(w, SendDelta)
    ensures InSync(Exec(w, SendDelta))
  {
    var r := Replay(w.sent).value;
    assert r.allTokens + w.scheduler.pending == r.prompt + (r.output + w.scheduler.pending);
    SendExtends(w.sent, w.views, Patch(w.scheduler.CutDelta()), w.scheduler);
  }

  lemma StepKeepsSync(w: World, e: Event)
    requires InSync(w) && Enabled(w, e)
    ensures InSync(Exec(w, e))
  {
    match e
    case Append(_, _) => AppendKeepsSync(w, e);
    case SendSnapshot => SnapshotKeepsSync(w);
    case SendDelta => DeltaKeepsSync(w);
    case Reset => ResetKeepsSync(w);
    case Advance(_) =>
  }

  /** Over every disciplined run each delivery, in order, leaves the worker with the scheduler's output
      tokens, token cache, computed count, logprob and stage at the moment of the send. */
  lemma {:induction false} RunsStaySynced(w: World, events: seq<Event>)
    requires InSync(w) && Disciplined(w, events)
    ensures InSync(Run(w, events))
    decreases |events|
  {
    if events != [] {
      StepKeepsSync(w, events[0]);
      RunsStaySynced(Exec(w, events[0]), events[1..]);
    }
  }

  /** The output of a worker that has `have` once the messages still on the wire arrive: deltas extend it, a snapshot
      replaces it. */
  function Arriving(have: seq<Token>, wire: seq<Message>): seq<Token>
    decreases |wire|
  {
    if wire == [] then have
    else Arriving(if wire[0].Patch? then have + wire[0].delta.newTokens else wire[0].data.output, wire[1..])
  }

  lemma {:induction false} ReplayOverWire(before: seq<Message>, wire: seq<Message>)
    requires before == [] ==> wire == [] || wire[0].Snapshot?
    requires before != [] ==> Replay(before).Some?
    ensures OutputOf(Replay(before + wire)) == Arriving(OutputOf(Replay(before)), wire)
    decreases |wire|
  {
    if wire == [] {
      assert before + wire == before;
    } else {
      ReplayOne(before, wire[0]);
      assert before + [wire[0]] + wire[1..] == before + wire;
      ReplayOverWire(before + [wire[0]], wire[1..]);
    }
  }

  /** Conservation at any moment: what the worker has after `k` deliveries, brought up to date by the messages
      still on the wire, then the tokens thrown away by resets since the last snapshot, then the tokens not yet
      cut, is exactly the scheduler's output. */
  lemma NothingLostOrRepeated(prompt: seq<Token>, events: seq<Event>, k: nat)
    requires Disciplined(Start(prompt), events) && k <= |Run(Start(prompt), events).sent|
    ensures var w := Run(Start(prompt), events);
            Arriving(OutputOf(Replay(w.sent[..k])), w.sent[k..]) + w.lost + w.scheduler.pending == w.scheduler.output
  {
    var w := Run(Start(prompt), events);
    RunsStaySynced(Start(prompt), events);
    assert w.sent[..k] + w.sent[k..] == w.sent;
    assert k > 0 ==> Replay(w.sent[..k]).Some?;
    if k == 0 && w.sent != [] {
      assert Replay(w.sent[..1]).Some? && w.sent[..1][0] == w.sent[0];
    }
    ReplayOverWire(w.sent[..k], w.sent[k..]);
  }

  /** A delta brings a copy up to date exactly when the copy's output is what the delta leaves out. */
  lemma DeltaMatchesIff(r: Data, d: Data)
    requires r.CacheExact() && d.CacheExact() && r.prompt == d.prompt
    ensures SameView(r.Apply(d.CutDelta()), d) <==> r.output + d.pending == d.output
  {
    assert r.allTokens + d.pending == r.prompt + (r.output + d.pending);
  }

  lemma AddsNothingIff<T>(xs: seq<T>, ys: seq<T>)
    ensures xs + ys == xs <==> ys == []
  {
    assert |xs + ys| == |xs| + |ys|;
  }

  /** The discipline is needed: a delta cut after a reset, with no snapshot between, matches the scheduler
      exactly when the reset found nothing pending. */
  lemma DeltaAfterResetMatchesIff(w: World)
    requires InSync(w) && w.sent != [] && w.lost == []
    ensures var w' := Exec(Exec(w, Reset), SendDelta);
            && Replay(w'.sent).Some?
            && (SameView(Replay(w'.sent).value, w'.views[|w'.views| - 1]) <==> w.scheduler.pending == [])
  {
    var d := w.scheduler.Reset();
    ReplayOne(w.sent, Patch(d.CutDelta()));
    DeltaMatchesIff(Replay(w.sent).value, d);
    AddsNothingIff(Replay(w.sent).value.output, w.scheduler.pending);
    AddsNothingIff(Replay(w.sent).value.output, []);
  }

  /** Likewise a snapshot taken with tokens pending makes the next delta repeat them. */
  lemma DeltaAfterSnapshotMatchesIff(w: World)
    requires InSync(w)
    ensures var w' := Exec(Exec(w, SendSnapshot), SendDelta);
            && Replay(w'.sent).Some?
            && (SameView(Replay(w'.sent).value, w'.views[|w'.views| - 1]) <==> w.scheduler.pending == [])
  {
    var d := w.scheduler;
    ReplayOne(w.sent, Snapshot(d));
    ReplayOne(w.sent + [Snapshot(d)], Patch(d.CutDelta()));
    DeltaMatchesIff(d.Decoded(), d);
    AddsNothingIff(d.output, d.pending);
  }
}
