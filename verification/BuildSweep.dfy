/** The event sweep that assigns weighted durations (tools/report_build_time_ninja.py). */
module BuildSweep {
  import opened Prelude
  import opened StableSort
  import opened BuildTimes

  class Target {
    const start: real
    const end: real
    var weightedDuration: real

    constructor (start: real, end: real)
      ensures this.start == start && this.end == end && weightedDuration == 0.0
    {
      this.start, this.end, weightedDuration := start, end, 0.0;
    }

    function AsTask(): Task {
      Task(start, end)
    }
  }

  function TasksOf(entries: seq<Target>): (tasks: seq<Task>)
    ensures |tasks| == |entries| && forall i :: 0 <= i < |entries| ==> tasks[i] == entries[i].AsTask()
  {
    seq(|entries|, i requires 0 <= i < |entries| => entries[i].AsTask())
  }

  predicate NoNegativeTimes(entries: seq<Target>) {
    forall i :: 0 <= i < |entries| ==> 0.0 <= entries[i].start && 0.0 <= entries[i].end
  }

  /** Builds the event list and finds the span, which is right for times that are not negative: -1 marks "not set
      yet". */
  method CollectEvents(entries: seq<Target>) returns (events: seq<Event>, earliest: real, latest: real)
    ensures events == EventsUpTo(TasksOf(entries), |entries|)
    ensures entries != [] && NoNegativeTimes(entries) ==> Spans(TasksOf(entries), earliest, latest)
  {
    ghost var tasks := TasksOf(entries);
    events, earliest, latest := [], -1.0, 0.0;
    for n := 0 to |entries|
      invariant events == EventsUpTo(tasks, n)
      invariant NoNegativeTimes(entries) ==> SpanSoFar(tasks, n, earliest, latest)
    {
      var target := entries[n];
      assert target.AsTask() == tasks[n];
      if earliest < 0.0 || target.start < earliest {
        earliest := target.start;
      }
      if target.end > latest {
        latest := target.end;
      }
      events := events + [Event(target.start, false, n), Event(target.end, true, n)];
    }
    if entries != [] && NoNegativeTimes(entries) {
      SpanIs(tasks, earliest, latest);
    }
  }

  /** The first start and the last stop of the first `n` tasks; without tasks, -1 and 0. */
  ghost predicate SpanSoFar(tasks: seq<Task>, n: nat, earliest: real, latest: real)
    requires n <= |tasks|
  {
    && (if n == 0 then earliest == -1.0 else exists i :: 0 <= i < n && earliest == tasks[i].start)
    && 0.0 <= latest && (latest == 0.0 || exists i :: 0 <= i < n && latest == tasks[i].end)
    && (forall i :: 0 <= i < n ==> earliest <= tasks[i].start && tasks[i].end <= latest)
  }

  lemma SpanIs(tasks: seq<Task>, earliest: real, latest: real)
    requires tasks != [] && SpanSoFar(tasks, |tasks|, earliest, latest) && 0.0 <= tasks[0].end
    ensures Spans(tasks, earliest, latest)
  {
    if latest == 0.0 {
      assert tasks[0].end == latest;
    }
  }

  /** `ps` and `qs` hold the places of each task's start and stop event. */
  ghost predicate Positions(evs: seq<Event>, ps: seq<nat>, qs: seq<nat>) {
    && |ps| == |qs|
    && (forall i :: 0 <= i < |ps| ==> ps[i] < |evs| && qs[i] < |evs|)
    && (forall k :: 0 <= k < |evs| ==>
                      evs[k].task < |ps| && k == if evs[k].stop then qs[evs[k].task] else ps[evs[k].task])
    && (forall i :: 0 <= i < |ps| ==> evs[ps[i]].task == i && !evs[ps[i]].stop)
    && (forall i :: 0 <= i < |qs| ==> evs[qs[i]].task == i && evs[qs[i]].stop)
  }

  lemma {:induction false} PositionsAre(tasks: seq<Task>, evs: seq<Event>, ps: seq<nat>, qs: seq<nat>)
    requires IsTimeline(tasks, evs) && Distinct(evs) && |ps| == |qs| == |tasks|
    requires forall i :: 0 <= i < |tasks| ==> ps[i] == StartAt(tasks, evs, i) && qs[i] == StopAt(tasks, evs, i)
    ensures Positions(evs, ps, qs)
  {
  }

  /** Before event `k` the dictionary holds the open tasks, each with the running total `cum` at its start. */
  ghost predicate Open(running: map<nat, real>, ps: seq<nat>, qs: seq<nat>, cum: seq<real>, k: nat)
    requires |ps| == |qs|
  {
    && (forall i: nat :: i in running <==> i < |ps| && ps[i] < k <= qs[i])
    && (forall i: nat :: i in running ==> ps[i] < |cum| && running[i] == cum[ps[i]])
  }

  lemma {:induction false} StartStep(evs: seq<Event>, ps: seq<nat>, qs: seq<nat>, cum: seq<real>,
                                     running: map<nat, real>, k: nat)
    requires Positions(evs, ps, qs) && k < |evs| == |cum| && Open(running, ps, qs, cum, k) && !evs[k].stop
    requires k < qs[evs[k].task]
    ensures Open(running[evs[k].task := cum[k]], ps, qs, cum, k + 1)
  {
  }

  lemma {:induction false} StopStep(evs: seq<Event>, ps: seq<nat>, qs: seq<nat>, cum: seq<real>,
                                    running: map<nat, real>, k: nat)
    requires Positions(evs, ps, qs) && k < |evs| == |cum| && Open(running, ps, qs, cum, k) && evs[k].stop
    ensures Open(running - {evs[k].task}, ps, qs, cum, k + 1)
    ensures evs[k].task in running <==> ps[evs[k].task] < k
  {
  }

  ghost predicate PlacesOf(tasks: seq<Task>, evs: seq<Event>, ps: seq<nat>, qs: seq<nat>)
    requires IsTimeline(tasks, evs)
  {
    && |ps| == |qs| == |tasks|
    && forall i :: 0 <= i < |tasks| ==> ps[i] == StartAt(tasks, evs, i) && qs[i] == StopAt(tasks, evs, i)
  }

  /** The tasks started before event `k` and not stopped before it. */
  function OpenSet(ps: seq<nat>, qs: seq<nat>, k: nat): set<nat>
    requires |ps| == |qs|
  {
    set i | 0 <= i < |ps| && ps[i] < k <= qs[i]
  }

  lemma {:induction false} RateOfOpen(tasks: seq<Task>, evs: seq<Event>, ps: seq<nat>, qs: seq<nat>, j: nat)
    requires IsTimeline(tasks, evs) && j + 1 < |evs| && PlacesOf(tasks, evs, ps, qs)
    ensures Rate(tasks, evs, j) == Part(Gap(evs, j), |OpenSet(ps, qs, j + 1)|)
  {
    if evs[j].time < evs[j + 1].time {
      OpenIsRunning(tasks, evs, ps, qs, j);
    } else {
      PartOfNothing(|OpenSet(ps, qs, j + 1)|);
      PartOfNothing(|Running(tasks, evs, j)|);
    }
  }

  lemma {:induction false} OpenIsRunning(tasks: seq<Task>, evs: seq<Event>, ps: seq<nat>, qs: seq<nat>, j: nat)
    requires IsTimeline(tasks, evs) && j + 1 < |evs| && PlacesOf(tasks, evs, ps, qs) && evs[j].time < evs[j + 1].time
    ensures OpenSet(ps, qs, j + 1) == Running(tasks, evs, j)
  {
    OpenTasksAreRunning(tasks, evs, j + 1);
  }

  lemma PartOfNothing(n: nat)
    ensures Part(0.0, n) == 0.0
  {
  }

  /** At event `k` the running total has moved on by one part of the gap among the open tasks. */
  ghost predicate Tick(evs: seq<Event>, ps: seq<nat>, qs: seq<nat>, cum: seq<real>, k: nat) {
    0 < k < |evs| == |cum| && |ps| == |qs| && cum[k] == cum[k - 1] + Part(Gap(evs, k - 1), |OpenSet(ps, qs, k)|)
  }

  ghost predicate Clocked(evs: seq<Event>, ps: seq<nat>, qs: seq<nat>, cum: seq<real>) {
    && |evs| == |cum| > 0 && cum[0] == 0.0
    && forall k {:trigger Tick(evs, ps, qs, cum, k)} :: 0 < k < |evs| ==> Tick(evs, ps, qs, cum, k)
  }

  ghost function Totals(rs: seq<real>): (cum: seq<real>)
    ensures |cum| == |rs| + 1 && forall k :: 0 <= k <= |rs| ==> cum[k] == SumTo(rs, k)
  {
    seq(|rs| + 1, k requires 0 <= k <= |rs| => SumTo(rs, k))
  }

  /** Also in a gap of no length, where the number of open tasks may be off. */
  lemma {:induction false} TotalsTick(tasks: seq<Task>, evs: seq<Event>, ps: seq<nat>, qs: seq<nat>, k: nat)
    requires IsTimeline(tasks, evs) && PlacesOf(tasks, evs, ps, qs) && 0 < k < |evs|
    ensures Tick(evs, ps, qs, Totals(Rates(tasks, evs)), k)
  {
    RateOfOpen(tasks, evs, ps, qs, k - 1);
    TickBy(evs, ps, qs, Rates(tasks, evs), k);
  }

  lemma {:induction false} TickBy(evs: seq<Event>, ps: seq<nat>, qs: seq<nat>, rs: seq<real>, k: nat)
    requires 0 < k < |evs| == |rs| + 1 && |ps| == |qs|
    requires rs[k - 1] == Part(Gap(evs, k - 1), |OpenSet(ps, qs, k)|)
    ensures Tick(evs, ps, qs, Totals(rs), k)
  {
    TotalsStep(rs, k);
  }

  lemma {:induction false} TotalsStep(rs: seq<real>, k: nat)
    requires 0 < k <= |rs|
    ensures Totals(rs)[k] == Totals(rs)[k - 1] + rs[k - 1]
  {
  }

  lemma {:induction false} TotalsAreClocked(tasks: seq<Task>, evs: seq<Event>, ps: seq<nat>, qs: seq<nat>)
    requires IsTimeline(tasks, evs) && PlacesOf(tasks, evs, ps, qs) && evs != []
    ensures Clocked(evs, ps, qs, Totals(Rates(tasks, evs)))
  {
    forall k | 0 < k < |evs|
      ensures Tick(evs, ps, qs, Totals(Rates(tasks, evs)), k)
    {
      TotalsTick(tasks, evs, ps, qs, k);
    }
  }

  /** The weights of the tasks among the first `n` that have stopped before event `k`. */
  function DoneSum(ws: seq<real>, qs: seq<nat>, n: nat, k: nat): real
    requires n <= |qs| == |ws|
  {
    if n == 0 then 0.0 else DoneSum(ws, qs, n - 1, k) + if qs[n - 1] < k then ws[n - 1] else 0.0
  }

  lemma {:induction false} DoneSumStep(ws: seq<real>, qs: seq<nat>, n: nat, k: nat, t: int)
    requires n <= |qs| == |ws| && -1 <= t < |qs|
    requires forall i :: 0 <= i < |qs| ==> (qs[i] == k <==> i == t)
    ensures DoneSum(ws, qs, n, k + 1) == DoneSum(ws, qs, n, k) + if 0 <= t < n then ws[t] else 0.0
  {
    if n > 0 {
      DoneSumStep(ws, qs, n - 1, k, t);
    }
  }

  lemma {:induction false} StopAddsWeight(evs: seq<Event>, ps: seq<nat>, qs: seq<nat>, ws: seq<real>, k: nat)
    requires Positions(evs, ps, qs) && |ws| == |qs| && k < |evs|
    ensures DoneSum(ws, qs, |ws|, k + 1) == DoneSum(ws, qs, |ws|, k) + if evs[k].stop then ws[evs[k].task] else 0.0
    ensures !evs[k].stop ==> forall i :: 0 <= i < |qs| ==> qs[i] != k
  {
    DoneSumStep(ws, qs, |ws|, k, if evs[k].stop then evs[k].task else -1);
  }

  lemma {:induction false} DoneSumEnds(ws: seq<real>, qs: seq<nat>, n: nat, k: nat)
    requires n <= |qs| == |ws|
    ensures (forall i :: 0 <= i < n ==> qs[i] < k) ==> DoneSum(ws, qs, n, k) == SumTo(ws, n)
    ensures (forall i :: 0 <= i < n ==> qs[i] >= k) ==> DoneSum(ws, qs, n, k) == 0.0
  {
    if n > 0 {
      DoneSumEnds(ws, qs, n - 1, k);
    }
  }

  lemma {:induction false} WeightedSumIsSumTo(tasks: seq<Task>, ws: seq<real>, n: nat)
    requires n <= |tasks| == |ws| && forall i :: 0 <= i < |ws| ==> ws[i] == Weighted(tasks, i)
    ensures SumTo(ws, n) == WeightedSum(tasks, n)
  {
    if n > 0 {
      WeightedSumIsSumTo(tasks, ws, n - 1);
    }
  }

  /** A weight is the change of the running total between a start and its stop. */
  ghost predicate Weighs(ps: seq<nat>, qs: seq<nat>, cum: seq<real>, ws: seq<real>) {
    && |ws| == |ps| == |qs|
    && (forall i :: 0 <= i < |ps| ==> ps[i] < |cum| && qs[i] < |cum|)
    && (forall i :: 0 <= i < |ps| && ps[i] < qs[i] ==> ws[i] == cum[qs[i]] - cum[ps[i]])
  }

  /** The accumulated weighted time, brought up to event `k`. */
  method Advance(events: seq<Event>, k: nat, lastTime: real, lastWeightedTime: real, running: map<nat, real>,
                 ghost ps: seq<nat>, ghost qs: seq<nat>, ghost cum: seq<real>) returns (weightedTime: real)
    requires |ps| == |qs| && Clocked(events, ps, qs, cum) && k < |events| && Open(running, ps, qs, cum, k)
    requires var k' := if k == 0 then 0 else k - 1; lastTime == events[k'].time && lastWeightedTime == cum[k']
    ensures weightedTime == cum[k]
  {
    assert running.Keys == OpenSet(ps, qs, k);
    assert k > 0 ==> Tick(events, ps, qs, cum, k);
    assert k == 0 ==> running == map[];
    weightedTime := lastWeightedTime;
    var numRunning := |running|;
    if numRunning > 0 {
      weightedTime := weightedTime + (events[k].time - lastTime) / numRunning as real;
    }
  }

  /** The tasks stopped before event `k` had started, and their targets hold their weights. */
  ghost predicate Recorded(entries: seq<Target>, ps: seq<nat>, qs: seq<nat>, ws: seq<real>, k: nat)
    requires |entries| == |ps| == |qs| == |ws|
    reads entries
  {
    forall i :: 0 <= i < |ps| && qs[i] < k ==> ps[i] < qs[i] && entries[i].weightedDuration == ws[i]
  }

  /** A stop event of an open task: its weight is the change of the running total. */
  method StopTask(entries: seq<Target>, events: seq<Event>, k: nat, weightedTime: real, running: map<nat, real>,
                  ghost ps: seq<nat>, ghost qs: seq<nat>, ghost cum: seq<real>, ghost ws: seq<real>)
    returns (weightedDuration: real)
    requires Distinct(entries) && |entries| == |ps| && Positions(events, ps, qs) && Weighs(ps, qs, cum, ws)
    requires k < |events| == |cum| && events[k].stop && events[k].task in running
    requires Open(running, ps, qs, cum, k) && weightedTime == cum[k] && Recorded(entries, ps, qs, ws, k)
    modifies entries
    ensures weightedDuration == ws[events[k].task] && Recorded(entries, ps, qs, ws, k + 1)
  {
    var task := events[k].task;
    weightedDuration := weightedTime - running[task];
    entries[task].weightedDuration := weightedDuration;
  }

  /** What the sweep has computed before event `k`. */
  ghost predicate SweptTo(entries: seq<Target>, events: seq<Event>, running: map<nat, real>, lastTime: real,
                          lastWeightedTime: real, weightedTotal: real,
                          ps: seq<nat>, qs: seq<nat>, cum: seq<real>, ws: seq<real>, k: nat)
    requires |entries| == |ps| == |qs| == |ws| && 0 < |events| == |cum| && k <= |events|
    reads entries
  {
    && Open(running, ps, qs, cum, k) && Recorded(entries, ps, qs, ws, k)
    && lastTime == events[if k == 0 then 0 else k - 1].time
    && lastWeightedTime == cum[if k == 0 then 0 else k - 1]
    && weightedTotal == DoneSum(ws, qs, |ws|, k)
  }

  /** One event. It fails at a stop event whose task has not been started. */
  method SweepEvent(entries: seq<Target>, events: seq<Event>, k: nat, running: map<nat, real>, lastTime: real,
                    lastWeightedTime: real, weightedTotal: real,
                    ghost ps: seq<nat>, ghost qs: seq<nat>, ghost cum: seq<real>, ghost ws: seq<real>)
    returns (ok: bool, running': map<nat, real>, weightedTime: real, total: real)
    requires Distinct(entries) && |entries| == |ps| && k < |events|
    requires Positions(events, ps, qs) && Clocked(events, ps, qs, cum) && Weighs(ps, qs, cum, ws)
    requires SweptTo(entries, events, running, lastTime, lastWeightedTime, weightedTotal, ps, qs, cum, ws, k)
    modifies entries
    ensures !ok ==> events[k].stop && !(ps[events[k].task] < qs[events[k].task])
    ensures ok ==> SweptTo(entries, events, running', events[k].time, weightedTime, total, ps, qs, cum, ws, k + 1)
  {
    var Event(time, stop, task) := events[k];
    ok, running', total := true, running, weightedTotal;
    weightedTime := Advance(events, k, lastTime, lastWeightedTime, running, ps, qs, cum);
    StopAddsWeight(events, ps, qs, ws, k);
    if stop {
      StopStep(events, ps, qs, cum, running, k);
      if task !in running {
        ok := false;
        return;
      }
      var weightedDuration := StopTask(entries, events, k, weightedTime, running, ps, qs, cum, ws);
      total := weightedTotal + weightedDuration;
      running' := running - {task};
    } else {
      StartStep(events, ps, qs, cum, running, k);
      running' := running[task := weightedTime];
    }
  }

  lemma {:induction false} SweepBegins(entries: seq<Target>, events: seq<Event>,
                                       ps: seq<nat>, qs: seq<nat>, cum: seq<real>, ws: seq<real>)
    requires |entries| == |ps| == |qs| == |ws| && 0 < |events| == |cum| && cum[0] == 0.0
    ensures SweptTo(entries, events, map[], events[0].time, 0.0, 0.0, ps, qs, cum, ws, 0)
  {
    DoneSumEnds(ws, qs, |ws|, 0);
  }

  /** After the last event every task has been started and stopped, and none is left running. */
  lemma {:induction false} SweepEnds(entries: seq<Target>, events: seq<Event>, running: map<nat, real>, lastTime: real,
                                     lastWeightedTime: real, weightedTotal: real,
                                     ps: seq<nat>, qs: seq<nat>, cum: seq<real>, ws: seq<real>)
    requires |entries| == |ps| == |qs| == |ws| && 0 < |events| == |cum|
    requires forall i :: 0 <= i < |qs| ==> qs[i] < |events|
    requires SweptTo(entries, events, running, lastTime, lastWeightedTime, weightedTotal, ps, qs, cum, ws, |events|)
    ensures running == map[] && weightedTotal == SumTo(ws, |ws|)
    ensures forall i :: 0 <= i < |ps| ==> ps[i] < qs[i] && entries[i].weightedDuration == ws[i]
  {
    DoneSumEnds(ws, qs, |ws|, |events|);
  }

  /** The loop over the events, against any positions, rates and weights that fit together. */
  method SweepEvents(entries: seq<Target>, events: seq<Event>,
                     ghost ps: seq<nat>, ghost qs: seq<nat>, ghost cum: seq<real>, ghost ws: seq<real>)
    returns (ok: bool, weightedTotal: real)
    requires Distinct(entries) && |entries| == |ps| && events != []
    requires Positions(events, ps, qs) && Clocked(events, ps, qs, cum) && Weighs(ps, qs, cum, ws)
    modifies entries
    ensures ok <==> forall i :: 0 <= i < |ps| ==> ps[i] < qs[i]
    ensures ok ==> forall i :: 0 <= i < |ps| ==> entries[i].weightedDuration == ws[i]
    ensures ok ==> weightedTotal == SumTo(ws, |ws|)
  {
    var running: map<nat, real> := map[];
    var lastTime := events[0].time;
    var lastWeightedTime := 0.0;
    weightedTotal := 0.0;
    SweepBegins(entries, events, ps, qs, cum, ws);
    for k := 0 to |events|
      invariant SweptTo(entries, events, running, lastTime, lastWeightedTime, weightedTotal, ps, qs, cum, ws, k)
    {
      ok, running, lastWeightedTime, weightedTotal :=
        SweepEvent(entries, events, k, running, lastTime, lastWeightedTime, weightedTotal, ps, qs, cum, ws);
      if !ok {
        return;
      }
      lastTime := events[k].time;
    }
    SweepEnds(entries, events, running, lastTime, lastWeightedTime, weightedTotal, ps, qs, cum, ws);
    ok := |running| == 0;
  }

  lemma {:induction false} WeightedBetween(tasks: seq<Task>, evs: seq<Event>, ps: seq<nat>, qs: seq<nat>, i: nat)
    requires evs == Timeline(tasks) && IsTimeline(tasks, evs) && evs != [] && PlacesOf(tasks, evs, ps, qs)
    requires i < |tasks| && ps[i] < qs[i]
    ensures Weighted(tasks, i) == SumTo(Rates(tasks, evs), qs[i]) - SumTo(Rates(tasks, evs), ps[i])
  {
    WeightedIsDifference(tasks, i);
  }

  ghost function Starts(tasks: seq<Task>): (ps: seq<nat>)
    ensures |ps| == |tasks|
  {
    TimelineIs(tasks);
    seq(|tasks|, i requires 0 <= i < |tasks| => StartAt(tasks, Timeline(tasks), i))
  }

  ghost function Stops(tasks: seq<Task>): (qs: seq<nat>)
    ensures |qs| == |tasks|
  {
    TimelineIs(tasks);
    seq(|tasks|, i requires 0 <= i < |tasks| => StopAt(tasks, Timeline(tasks), i))
  }

  ghost function Weights(tasks: seq<Task>): (ws: seq<real>)
    ensures |ws| == |tasks| && forall i :: 0 <= i < |ws| ==> ws[i] == Weighted(tasks, i)
  {
    seq(|tasks|, i requires 0 <= i < |tasks| => Weighted(tasks, i))
  }

  lemma {:induction false} EmptyTimelineIff(tasks: seq<Task>)
    ensures Timeline(tasks) == [] <==> tasks == []
  {
  }

  lemma {:induction false} PlanPositions(tasks: seq<Task>)
    ensures Positions(Timeline(tasks), Starts(tasks), Stops(tasks))
  {
    TimelineIs(tasks);
    TimelineDistinct(tasks);
    PositionsAre(tasks, Timeline(tasks), Starts(tasks), Stops(tasks));
  }

  lemma {:induction false} PlanClock(tasks: seq<Task>)
    requires Timeline(tasks) != []
    ensures Clocked(Timeline(tasks), Starts(tasks), Stops(tasks), Totals(Rates(tasks, Timeline(tasks))))
  {
    TimelineIs(tasks);
    TotalsAreClocked(tasks, Timeline(tasks), Starts(tasks), Stops(tasks));
  }

  lemma {:induction false} WeightsWeigh(tasks: seq<Task>)
    requires Timeline(tasks) != []
    ensures Weighs(Starts(tasks), Stops(tasks), Totals(Rates(tasks, Timeline(tasks))), Weights(tasks))
  {
    TimelineIs(tasks);
    var evs, ps, qs := Timeline(tasks), Starts(tasks), Stops(tasks);
    forall i | 0 <= i < |ps| && ps[i] < qs[i]
      ensures Weights(tasks)[i] == SumTo(Rates(tasks, evs), qs[i]) - SumTo(Rates(tasks, evs), ps[i])
    {
      WeightedBetween(tasks, evs, ps, qs, i);
    }
  }

  lemma {:induction false} SoundIff(tasks: seq<Task>)
    ensures Sound(tasks) <==> forall i :: 0 <= i < |tasks| ==> Starts(tasks)[i] < Stops(tasks)[i]
  {
    TimelineIs(tasks);
    forall i | 0 <= i < |tasks|
      ensures Starts(tasks)[i] < Stops(tasks)[i] <==> tasks[i].start <= tasks[i].end
    {
      StartsFirstIff(tasks, Timeline(tasks), i);
    }
  }

  /** What the loop is measured against. */
  lemma {:induction false} SweepPlan(tasks: seq<Task>)
    returns (ps: seq<nat>, qs: seq<nat>, cum: seq<real>, ws: seq<real>)
    requires Timeline(tasks) != []
    ensures |ps| == |tasks| && Positions(Timeline(tasks), ps, qs)
    ensures Clocked(Timeline(tasks), ps, qs, cum) && Weighs(ps, qs, cum, ws)
    ensures Sound(tasks) <==> forall i :: 0 <= i < |ps| ==> ps[i] < qs[i]
    ensures forall i :: 0 <= i < |ws| ==> ws[i] == Weighted(tasks, i)
    ensures SumTo(ws, |ws|) == WeightedSum(tasks, |tasks|)
  {
    ps, qs := Starts(tasks), Stops(tasks);
    cum, ws := Totals(Rates(tasks, Timeline(tasks))), Weights(tasks);
    PlanPositions(tasks);
    PlanClock(tasks);
    WeightsWeigh(tasks);
    SoundIff(tasks);
    WeightedSumIsSumTo(tasks, ws, |tasks|);
  }

  /** The whole sweep. It fails, where the source looks up a task that is not running, exactly when there is no
      task or one that ends before it starts; otherwise every target gets its weighted duration. */
  method Sweep(entries: seq<Target>, events: seq<Event>) returns (ok: bool, weightedTotal: real)
    requires Distinct(entries) && events == Timeline(TasksOf(entries))
    modifies entries
    ensures ok <==> entries != [] && Sound(TasksOf(entries))
    ensures ok ==> forall i :: 0 <= i < |entries| ==> entries[i].weightedDuration == Weighted(TasksOf(entries), i)
    ensures ok ==> weightedTotal == WeightedSum(TasksOf(entries), |entries|)
  {
    ghost var tasks := TasksOf(entries);
    EmptyTimelineIff(tasks);
    if events == [] {
      return false, 0.0;
    }
    ghost var ps, qs, cum, ws := SweepPlan(tasks);
    ok, weightedTotal := SweepEvents(entries, events, ps, qs, cum, ws);
  }

  /** The report: each weighted duration is within the duration itself, and together they are the busy time. For
      times that are not negative it is at most the length of the build, and equal to it exactly when the build
      was never idle. */
  method Summarize(entries: seq<Target>) returns (ok: bool, length: real, weightedTotal: real)
    requires Distinct(entries)
    modifies entries
    ensures ok <==> entries != [] && Sound(TasksOf(entries))
    ensures ok ==> forall i :: 0 <= i < |entries| ==>
                                 0.0 <= entries[i].weightedDuration <= entries[i].end - entries[i].start
    ensures ok ==> weightedTotal == BusyTime(TasksOf(entries))
    ensures ok && NoNegativeTimes(entries) ==>
              && weightedTotal <= length
              && (weightedTotal == length <==> NeverIdle(TasksOf(entries), Timeline(TasksOf(entries))))
  {
    ghost var tasks := TasksOf(entries);
    var events, earliest, latest := CollectEvents(entries);
    length := latest - earliest;
    events := Sorted(events, Before);
    ok, weightedTotal := Sweep(entries, events);
    if ok {
      Conservation(tasks);
      if NoNegativeTimes(entries) {
        TotalAtMostLength(tasks, earliest, latest);
      }
      forall i | 0 <= i < |entries|
        ensures 0.0 <= entries[i].weightedDuration <= entries[i].end - entries[i].start
      {
        WeightedAtMostDuration(tasks, i);
      }
    }
  }
}
