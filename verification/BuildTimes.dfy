/** Sharing wall time among overlapping build steps (tools/report_build_time_ninja.py). */
module BuildTimes {
  import opened Prelude
  import opened StableSort

  datatype Task = Task(start: real, end: real)

  datatype Event = Event(time: real, stop: bool, task: nat)

  /** Events by time, starts before stops at the same time. */
  predicate Before(a: Event, b: Event) {
    a.time < b.time || (a.time == b.time && (!a.stop || b.stop))
  }

  function StartOf(tasks: seq<Task>, i: nat): Event
    requires i < |tasks|
  {
    Event(tasks[i].start, false, i)
  }

  function StopOf(tasks: seq<Task>, i: nat): Event
    requires i < |tasks|
  {
    Event(tasks[i].end, true, i)
  }

  function EventsUpTo(tasks: seq<Task>, n: nat): seq<Event>
    requires n <= |tasks|
  {
    if n == 0 then [] else EventsUpTo(tasks, n - 1) + [StartOf(tasks, n - 1), StopOf(tasks, n - 1)]
  }

  function Timeline(tasks: seq<Task>): seq<Event> {
    Sorted(EventsUpTo(tasks, |tasks|), Before)
  }

  // ----- What the weighted duration of a task is

  function Gap(evs: seq<Event>, j: nat): real
    requires j + 1 < |evs|
  {
    evs[j + 1].time - evs[j].time
  }

  /** The tasks that run throughout the gap after event `j`. */
  function Running(tasks: seq<Task>, evs: seq<Event>, j: nat): set<nat>
    requires j + 1 < |evs|
  {
    set i | 0 <= i < |tasks| && tasks[i].start <= evs[j].time && evs[j + 1].time <= tasks[i].end
  }

  /** One of `n` equal parts of `g`. */
  function Part(g: real, n: nat): real {
    if n == 0 then 0.0 else g / n as real
  }

  /** An equal share of the gap for each of them. */
  function Rate(tasks: seq<Task>, evs: seq<Event>, j: nat): real
    requires j + 1 < |evs|
  {
    Part(Gap(evs, j), |Running(tasks, evs, j)|)
  }

  /** The number of gaps between events. */
  function Gaps(evs: seq<Event>): nat {
    if evs == [] then 0 else |evs| - 1
  }

  function Rates(tasks: seq<Task>, evs: seq<Event>): (rs: seq<real>)
    ensures |rs| == Gaps(evs)
  {
    seq(Gaps(evs), j requires 0 <= j < Gaps(evs) => Rate(tasks, evs, j))
  }

  /** For each gap, whether task `i` runs throughout it. */
  function RunsThrough(tasks: seq<Task>, evs: seq<Event>, i: nat): (on: seq<bool>)
    ensures |on| == Gaps(evs)
  {
    seq(Gaps(evs), j requires 0 <= j < Gaps(evs) => i in Running(tasks, evs, j))
  }

  /** The sum of the chosen ones among the first `k` numbers. */
  function SumWhere(rs: seq<real>, on: seq<bool>, k: nat): real
    requires k <= |rs| == |on|
  {
    if k == 0 then 0.0 else SumWhere(rs, on, k - 1) + if on[k - 1] then rs[k - 1] else 0.0
  }

  /** A task's weighted duration: over all the gaps it runs through, its equal share of each. */
  function Weighted(tasks: seq<Task>, i: nat): real {
    var evs := Timeline(tasks);
    var rs := Rates(tasks, evs);
    SumWhere(rs, RunsThrough(tasks, evs, i), |rs|)
  }

  function WeightedSum(tasks: seq<Task>, n: nat): real {
    if n == 0 then 0.0 else WeightedSum(tasks, n - 1) + Weighted(tasks, n - 1)
  }

  /** Each gap in full if at least one task runs throughout it. */
  function BusyGaps(tasks: seq<Task>, evs: seq<Event>): (gaps: seq<real>)
    ensures |gaps| == Gaps(evs)
  {
    seq(Gaps(evs), j requires 0 <= j < Gaps(evs) => if Running(tasks, evs, j) != {} then Gap(evs, j) else 0.0)
  }

  function SumTo(rs: seq<real>, k: nat): real
    requires k <= |rs|
  {
    if k == 0 then 0.0 else SumTo(rs, k - 1) + rs[k - 1]
  }

  /** The time during which at least one task runs. */
  function BusyTime(tasks: seq<Task>): real {
    var gaps := BusyGaps(tasks, Timeline(tasks));
    SumTo(gaps, |gaps|)
  }

  // ----- The timeline

  lemma {:induction false} EventsAre(tasks: seq<Task>, n: nat)
    requires n <= |tasks|
    ensures |EventsUpTo(tasks, n)| == 2 * n
    ensures forall j :: 0 <= j < 2 * n ==>
                          EventsUpTo(tasks, n)[j] == if j % 2 == 0 then StartOf(tasks, j / 2) else StopOf(tasks, j / 2)
  {
    if n > 0 {
      EventsAre(tasks, n - 1);
    }
  }

  predicate IsEventOf(tasks: seq<Task>, e: Event) {
    e.task < |tasks| && e == if e.stop then StopOf(tasks, e.task) else StartOf(tasks, e.task)
  }

  /** Every task's two events, and nothing else, in order. */
  ghost predicate IsTimeline(tasks: seq<Task>, evs: seq<Event>) {
    && Ordered(evs, Before)
    && (forall i :: 0 <= i < |tasks| ==> StartOf(tasks, i) in evs)
    && (forall i :: 0 <= i < |tasks| ==> StopOf(tasks, i) in evs)
    && (forall k :: 0 <= k < |evs| ==> IsEventOf(tasks, evs[k]))
  }

  lemma {:induction false} EventIsThere(tasks: seq<Task>, i: nat)
    requires i < |tasks|
    ensures StartOf(tasks, i) in EventsUpTo(tasks, |tasks|) && StopOf(tasks, i) in EventsUpTo(tasks, |tasks|)
  {
    EventsAre(tasks, |tasks|);
    var es := EventsUpTo(tasks, |tasks|);
    assert es[2 * i] == StartOf(tasks, i) && es[2 * i + 1] == StopOf(tasks, i);
  }

  lemma {:induction false} OnlyEvents(tasks: seq<Task>, e: Event)
    requires e in EventsUpTo(tasks, |tasks|)
    ensures IsEventOf(tasks, e)
  {
    EventsAre(tasks, |tasks|);
  }

  lemma {:induction false} TimelineIs(tasks: seq<Task>)
    ensures IsTimeline(tasks, Timeline(tasks)) && |Timeline(tasks)| == 2 * |tasks|
  {
    var es, evs := EventsUpTo(tasks, |tasks|), Timeline(tasks);
    SortedIsSorted(es, Before);
    assert |es| == 2 * |tasks| by { EventsAre(tasks, |tasks|); }
    forall i | 0 <= i < |tasks|
      ensures StartOf(tasks, i) in evs && StopOf(tasks, i) in evs
    {
      EventIsThere(tasks, i);
      assert StartOf(tasks, i) in multiset(evs) && StopOf(tasks, i) in multiset(evs);
    }
    forall k | 0 <= k < |evs|
      ensures IsEventOf(tasks, evs[k])
    {
      assert evs[k] in multiset(es);
      OnlyEvents(tasks, evs[k]);
    }
  }

  lemma {:induction false} TimelineDistinct(tasks: seq<Task>)
    ensures Distinct(Timeline(tasks))
  {
    var es := EventsUpTo(tasks, |tasks|);
    EventsAre(tasks, |tasks|);
    SortedIsSorted(es, Before);
    PermutationDistinct(es, Timeline(tasks));
  }

  function StartAt(tasks: seq<Task>, evs: seq<Event>, i: nat): (k: nat)
    requires IsTimeline(tasks, evs) && i < |tasks|
    ensures k < |evs| && evs[k] == StartOf(tasks, i)
  {
    Position(evs, StartOf(tasks, i))
  }

  function StopAt(tasks: seq<Task>, evs: seq<Event>, i: nat): (k: nat)
    requires IsTimeline(tasks, evs) && i < |tasks|
    ensures k < |evs| && evs[k] == StopOf(tasks, i)
  {
    Position(evs, StopOf(tasks, i))
  }

  /** A task's start comes before its stop on the timeline exactly when it does not end before it starts. */
  lemma {:induction false} StartsFirstIff(tasks: seq<Task>, evs: seq<Event>, i: nat)
    requires IsTimeline(tasks, evs) && i < |tasks|
    ensures StartAt(tasks, evs, i) < StopAt(tasks, evs, i) <==> tasks[i].start <= tasks[i].end
  {
  }

  lemma {:induction false} TimesAscend(evs: seq<Event>, j: nat, k: nat)
    requires Ordered(evs, Before) && j <= k < |evs|
    ensures evs[j].time <= evs[k].time
  {
  }

  /** In a gap that takes time, the tasks started and not yet stopped are those that run throughout it. */
  lemma {:induction false} OpenTasksAreRunning(tasks: seq<Task>, evs: seq<Event>, k: nat)
    requires IsTimeline(tasks, evs) && 0 < k < |evs| && evs[k - 1].time < evs[k].time
    ensures Running(tasks, evs, k - 1)
            == set i | 0 <= i < |tasks| && StartAt(tasks, evs, i) < k <= StopAt(tasks, evs, i)
  {
  }

  // ----- The running total

  /** `n` times `r`. */
  function Times(n: nat, r: real): real {
    if n == 0 then 0.0 else Times(n - 1, r) + r
  }

  lemma {:induction false} TimesIs(n: nat, r: real)
    ensures Times(n, r) == r * n as real
  {
    if n > 0 {
      TimesIs(n - 1, r);
    }
  }

  lemma {:induction false} EqualShares(g: real, n: nat)
    requires g >= 0.0 && n > 0
    ensures 0.0 <= Part(g, n) <= g && Times(n, Part(g, n)) == g
  {
    var r := g / n as real;
    TimesIs(n, r);
  }

  lemma {:induction false} RateBounds(tasks: seq<Task>, evs: seq<Event>, j: nat)
    requires Ordered(evs, Before) && j + 1 < |evs|
    ensures 0.0 <= Rate(tasks, evs, j) <= Gap(evs, j)
    ensures Times(|Running(tasks, evs, j)|, Rate(tasks, evs, j))
            == if Running(tasks, evs, j) != {} then Gap(evs, j) else 0.0
  {
    if Running(tasks, evs, j) != {} {
      EqualShares(Gap(evs, j), |Running(tasks, evs, j)|);
    }
  }

  /** Outside the stretch between its two events a task runs only through gaps that take no time. */
  lemma {:induction false} NothingOutside(tasks: seq<Task>, evs: seq<Event>, i: nat, j: nat)
    requires IsTimeline(tasks, evs) && i < |tasks| && j + 1 < |evs|
    requires i in Running(tasks, evs, j)
    requires j < StartAt(tasks, evs, i) || StopAt(tasks, evs, i) <= j
    ensures Rate(tasks, evs, j) == 0.0
  {
  }

  lemma {:induction false} RunsInside(tasks: seq<Task>, evs: seq<Event>, i: nat, j: nat)
    requires IsTimeline(tasks, evs) && i < |tasks|
    requires StartAt(tasks, evs, i) <= j < StopAt(tasks, evs, i)
    ensures i in Running(tasks, evs, j)
  {
  }

  lemma {:induction false} SumWhereIsDifference(rs: seq<real>, on: seq<bool>, p: nat, q: nat, k: nat)
    requires p <= q <= |rs| == |on| && k <= |rs|
    requires forall j :: p <= j < q ==> on[j]
    requires forall j :: (0 <= j < p || q <= j < |rs|) && on[j] ==> rs[j] == 0.0
    ensures SumWhere(rs, on, k) == if k <= p then 0.0 else SumTo(rs, if k <= q then k else q) - SumTo(rs, p)
  {
    if k > 0 {
      SumWhereIsDifference(rs, on, p, q, k - 1);
    }
  }

  /** What the sweep assigns, the change of the running total between a task's start and its stop, is its share. */
  lemma {:induction false} WeightedIsDifference(tasks: seq<Task>, i: nat)
    requires i < |tasks| && tasks[i].start <= tasks[i].end
    ensures var evs := Timeline(tasks);
            IsTimeline(tasks, evs) && StartAt(tasks, evs, i) < StopAt(tasks, evs, i) <= |Rates(tasks, evs)|
    ensures var evs, rs := Timeline(tasks), Rates(tasks, Timeline(tasks));
            Weighted(tasks, i) == SumTo(rs, StopAt(tasks, evs, i)) - SumTo(rs, StartAt(tasks, evs, i))
  {
    var evs := Timeline(tasks);
    TimelineIs(tasks);
    StartsFirstIff(tasks, evs, i);
    var p, q := StartAt(tasks, evs, i), StopAt(tasks, evs, i);
    var rs, on := Rates(tasks, evs), RunsThrough(tasks, evs, i);
    forall j | p <= j < q
      ensures on[j]
    {
      RunsInside(tasks, evs, i, j);
    }
    forall j | (0 <= j < p || q <= j < |rs|) && on[j]
      ensures rs[j] == 0.0
    {
      NothingOutside(tasks, evs, i, j);
    }
    SumWhereIsDifference(rs, on, p, q, |rs|);
  }

  lemma {:induction false} SumGrowth(rs: seq<real>, evs: seq<Event>, p: nat, q: nat)
    requires p <= q < |evs| == |rs| + 1
    requires forall j :: 0 <= j < |rs| ==> 0.0 <= rs[j] <= Gap(evs, j)
    ensures 0.0 <= SumTo(rs, q) - SumTo(rs, p) <= evs[q].time - evs[p].time
  {
    if p < q {
      SumGrowth(rs, evs, p, q - 1);
    }
  }

  /** Every weighted duration lies between zero and the duration itself. */
  lemma {:induction false} WeightedAtMostDuration(tasks: seq<Task>, i: nat)
    requires i < |tasks| && tasks[i].start <= tasks[i].end
    ensures 0.0 <= Weighted(tasks, i) <= tasks[i].end - tasks[i].start
  {
    WeightedIsDifference(tasks, i);
    var evs := Timeline(tasks);
    var rs := Rates(tasks, evs);
    forall j | 0 <= j < |rs|
      ensures 0.0 <= rs[j] <= Gap(evs, j)
    {
      RateBounds(tasks, evs, j);
    }
    SumGrowth(rs, evs, StartAt(tasks, evs, i), StopAt(tasks, evs, i));
  }

  // ----- Conservation, by summing the other way round

  function SumRows(rs: seq<real>, rows: seq<seq<bool>>, n: nat, k: nat): real
    requires n <= |rows| && k <= |rs| && forall i :: 0 <= i < |rows| ==> |rows[i]| == |rs|
  {
    if n == 0 then 0.0 else SumRows(rs, rows, n - 1, k) + SumWhere(rs, rows[n - 1], k)
  }

  function CountColumn(rows: seq<seq<bool>>, n: nat, j: nat): nat
    requires n <= |rows| && forall i :: 0 <= i < |rows| ==> j < |rows[i]|
  {
    if n == 0 then 0 else CountColumn(rows, n - 1, j) + if rows[n - 1][j] then 1 else 0
  }

  lemma {:induction false} SumRowsStep(rs: seq<real>, rows: seq<seq<bool>>, n: nat, k: nat)
    requires n <= |rows| && 0 < k <= |rs| && forall i :: 0 <= i < |rows| ==> |rows[i]| == |rs|
    ensures SumRows(rs, rows, n, k) == SumRows(rs, rows, n, k - 1) + Times(CountColumn(rows, n, k - 1), rs[k - 1])
  {
    if n > 0 {
      SumRowsStep(rs, rows, n - 1, k);
    }
  }

  lemma {:induction false} SumRowsZero(rs: seq<real>, rows: seq<seq<bool>>, n: nat)
    requires n <= |rows| && forall i :: 0 <= i < |rows| ==> |rows[i]| == |rs|
    ensures SumRows(rs, rows, n, 0) == 0.0
  {
    if n > 0 {
      SumRowsZero(rs, rows, n - 1);
    }
  }

  function Rows(tasks: seq<Task>, evs: seq<Event>): (rows: seq<seq<bool>>)
    ensures |rows| == |tasks| && forall i :: 0 <= i < |rows| ==> |rows[i]| == Gaps(evs)
  {
    seq(|tasks|, i requires 0 <= i < |tasks| => RunsThrough(tasks, evs, i))
  }

  function Below(s: set<nat>, n: nat): set<nat> {
    set i | i in s && i < n
  }

  lemma {:induction false} ColumnCountsRunning(tasks: seq<Task>, evs: seq<Event>, n: nat, j: nat)
    requires n <= |tasks| && j + 1 < |evs|
    ensures CountColumn(Rows(tasks, evs), n, j) == |Below(Running(tasks, evs, j), n)|
  {
    var r := Running(tasks, evs, j);
    if n > 0 {
      ColumnCountsRunning(tasks, evs, n - 1, j);
      assert Below(r, n) == Below(r, n - 1) + if n - 1 in r then {n - 1} else {};
    }
  }

  lemma {:induction false} SumRowsIs(rs: seq<real>, rows: seq<seq<bool>>, columns: seq<real>, k: nat)
    requires k <= |rs| == |columns| && forall i :: 0 <= i < |rows| ==> |rows[i]| == |rs|
    requires forall j :: 0 <= j < |rs| ==> columns[j] == Times(CountColumn(rows, |rows|, j), rs[j])
    ensures SumRows(rs, rows, |rows|, k) == SumTo(columns, k)
  {
    if k == 0 {
      SumRowsZero(rs, rows, |rows|);
    } else {
      SumRowsIs(rs, rows, columns, k - 1);
      SumRowsStep(rs, rows, |rows|, k);
    }
  }

  /** In every gap the shares of the running tasks make up the whole gap. */
  ghost predicate SharesOut(tasks: seq<Task>, evs: seq<Event>, rs: seq<real>, gaps: seq<real>) {
    && |evs| == |rs| + 1 == |gaps| + 1
    && forall j :: 0 <= j < |rs| ==> gaps[j] == Times(|Running(tasks, evs, j)|, rs[j])
  }

  lemma {:induction false} RatesShareOut(tasks: seq<Task>, evs: seq<Event>)
    requires Ordered(evs, Before) && evs != []
    ensures SharesOut(tasks, evs, Rates(tasks, evs), BusyGaps(tasks, evs))
  {
    var rs, gaps := Rates(tasks, evs), BusyGaps(tasks, evs);
    forall j | 0 <= j < |rs|
      ensures gaps[j] == Times(|Running(tasks, evs, j)|, rs[j])
    {
      RateBounds(tasks, evs, j);
    }
  }

  lemma {:induction false} RowsFillGaps(tasks: seq<Task>, evs: seq<Event>, rs: seq<real>, gaps: seq<real>)
    requires SharesOut(tasks, evs, rs, gaps)
    ensures SumRows(rs, Rows(tasks, evs), |tasks|, |rs|) == SumTo(gaps, |gaps|)
  {
    var rows := Rows(tasks, evs);
    forall j | 0 <= j < |rs|
      ensures CountColumn(rows, |rows|, j) == |Running(tasks, evs, j)|
    {
      ColumnCountsRunning(tasks, evs, |tasks|, j);
      assert Below(Running(tasks, evs, j), |tasks|) == Running(tasks, evs, j);
    }
    SumRowsIs(rs, rows, gaps, |rs|);
  }

  lemma {:induction false} WeightedSumIs(tasks: seq<Task>, rs: seq<real>, n: nat)
    requires n <= |tasks| && rs == Rates(tasks, Timeline(tasks))
    ensures WeightedSum(tasks, n) == SumRows(rs, Rows(tasks, Timeline(tasks)), n, |rs|)
  {
    if n > 0 {
      WeightedSumIs(tasks, rs, n - 1);
    }
  }

  /** The weighted durations of all tasks add up to exactly the time during which some task ran. */
  lemma {:induction false} Conservation(tasks: seq<Task>)
    ensures WeightedSum(tasks, |tasks|) == BusyTime(tasks)
  {
    if tasks != [] {
      var evs := Timeline(tasks);
      TimelineIs(tasks);
      RatesShareOut(tasks, evs);
      RowsFillGaps(tasks, evs, Rates(tasks, evs), BusyGaps(tasks, evs));
      WeightedSumIs(tasks, Rates(tasks, evs), |tasks|);
    }
  }

  /** No gap that takes time is idle. */
  ghost predicate NeverIdle(tasks: seq<Task>, evs: seq<Event>) {
    forall j :: 0 <= j < |evs| - 1 ==> Gap(evs, j) <= 0.0 || Running(tasks, evs, j) != {}
  }

  lemma {:induction false} BusyAtMostElapsed(gaps: seq<real>, evs: seq<Event>, k: nat)
    requires k < |evs| == |gaps| + 1 && forall j :: 0 <= j < |gaps| ==> gaps[j] <= Gap(evs, j)
    ensures SumTo(gaps, k) <= evs[k].time - evs[0].time
    ensures SumTo(gaps, k) == evs[k].time - evs[0].time <==> forall j :: 0 <= j < k ==> gaps[j] == Gap(evs, j)
  {
    if k > 0 {
      BusyAtMostElapsed(gaps, evs, k - 1);
    }
  }

  ghost predicate Sound(tasks: seq<Task>) {
    forall i :: 0 <= i < |tasks| ==> tasks[i].start <= tasks[i].end
  }

  /** `earliest` and `latest` as the report computes them. */
  ghost predicate Spans(tasks: seq<Task>, earliest: real, latest: real) {
    && (forall i :: 0 <= i < |tasks| ==> earliest <= tasks[i].start && tasks[i].end <= latest)
    && (exists i :: 0 <= i < |tasks| && earliest == tasks[i].start)
    && (exists i :: 0 <= i < |tasks| && latest == tasks[i].end)
  }

  lemma {:induction false} TimelineStarts(tasks: seq<Task>, evs: seq<Event>, earliest: real, latest: real)
    requires IsTimeline(tasks, evs) && evs != [] && Sound(tasks) && Spans(tasks, earliest, latest)
    ensures evs[0].time == earliest
  {
    var i :| 0 <= i < |tasks| && earliest == tasks[i].start;
    TimesAscend(evs, 0, StartAt(tasks, evs, i));
  }

  lemma {:induction false} TimelineEnds(tasks: seq<Task>, evs: seq<Event>, earliest: real, latest: real)
    requires IsTimeline(tasks, evs) && evs != [] && Sound(tasks) && Spans(tasks, earliest, latest)
    ensures evs[|evs| - 1].time == latest
  {
    var i :| 0 <= i < |tasks| && latest == tasks[i].end;
    TimesAscend(evs, StopAt(tasks, evs, i), |evs| - 1);
  }

  lemma {:induction false} BusyVersusSpan(tasks: seq<Task>, evs: seq<Event>)
    requires Ordered(evs, Before) && evs != []
    ensures var gaps := BusyGaps(tasks, evs);
            && SumTo(gaps, |gaps|) <= evs[|evs| - 1].time - evs[0].time
            && (SumTo(gaps, |gaps|) == evs[|evs| - 1].time - evs[0].time <==> NeverIdle(tasks, evs))
  {
    var gaps := BusyGaps(tasks, evs);
    forall j | 0 <= j < |gaps|
      ensures gaps[j] <= Gap(evs, j)
      ensures gaps[j] == Gap(evs, j) <==> Gap(evs, j) <= 0.0 || Running(tasks, evs, j) != {}
    {
    }
    BusyAtMostElapsed(gaps, evs, |gaps|);
  }

  /** The total is at most the length of the build, and equal to it exactly when some task runs at all times. */
  lemma {:induction false} TotalAtMostLength(tasks: seq<Task>, earliest: real, latest: real)
    requires Sound(tasks) && Spans(tasks, earliest, latest)
    ensures WeightedSum(tasks, |tasks|) <= latest - earliest
    ensures WeightedSum(tasks, |tasks|) == latest - earliest <==> NeverIdle(tasks, Timeline(tasks))
  {
    var evs := Timeline(tasks);
    Conservation(tasks);
    TimelineIs(tasks);
    TimelineStarts(tasks, evs, earliest, latest);
    TimelineEnds(tasks, evs, earliest, latest);
    BusyVersusSpan(tasks, evs);
  }
}
