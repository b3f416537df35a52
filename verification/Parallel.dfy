/** `ParallelSampleSequenceGroup` (vllm/sequence.py) and its use by `RequestOutput.from_seq_group`
    (vllm/outputs.py): one request split into sub-requests whose outputs are joined again. */
module Parallel {
  import opened Prelude

  // ----- Sub-request ids

  function Decimal(n: nat): (s: string)
    ensures s != "" && forall c :: c in s ==> '0' <= c <= '9'
  {
    var digit := ['0' + (n % 10) as char];
    if n < 10 then digit else Decimal(n / 10) + digit
  }

  lemma {:induction false} DecimalInjective(m: nat, n: nat)
    requires Decimal(m) == Decimal(n)
    ensures m == n
  {
    var a, b := Decimal(m), Decimal(n);
    if m >= 10 {
      assert a[..|a| - 1] == Decimal(m / 10);
    }
    if m >= 10 && n >= 10 {
      DecimalInjective(m / 10, n / 10);
    }
  }

  function SubId(request: string, i: nat): string {
    request + "_parallel_sample_" + Decimal(i)
  }

  function SubIds(request: string, n: nat): (ids: seq<string>)
    ensures |ids| == n && forall i :: 0 <= i < n ==> ids[i] == SubId(request, i)
  {
    seq(n, i requires 0 <= i => SubId(request, i))
  }

  lemma SubIdsDistinct(request: string, n: nat)
    ensures Distinct(SubIds(request, n))
  {
    var prefix := request + "_parallel_sample_";
    forall i, j | 0 <= i < j < n
      ensures SubId(request, i) != SubId(request, j)
    {
      if SubId(request, i) == SubId(request, j) {
        assert Decimal(i) == SubId(request, i)[|prefix|..];
        DecimalInjective(i, j);
      }
    }
  }

  // ----- The join as a value

  /** The keys of `to_be_finished` and `finished_reqs` in insertion order, and whether the one output was produced. */
  datatype Join = Join(ids: seq<string>, remaining: seq<string>, finished: seq<string>, streaming: bool, produced: bool)

  datatype Outcome = Quiet | Assembled | Crashed

  function NewJoin(ids: seq<string>, streaming: bool): Join {
    Join(ids, ids, [], streaming, false)
  }

  /** `maybe_assemble_group`. */
  function Assemble(j: Join, id: string, done: bool): (Outcome, Join) {
    if j.streaming then
      (if j.remaining == [] then Crashed else if id == j.remaining[0] then Assembled else Quiet, j)
    else if |j.remaining| == 1 && id in j.remaining && done && !j.produced then (Assembled, j.(produced := true))
    else (Quiet, j)
  }

  /** The part of `from_seq_group` that handles a sub-request found in the lookup table. */
  function Report(j: Join, table: set<string>, id: string, done: bool): (Outcome, Join, set<string>) {
    var (outcome, j1) := Assemble(j, id, done);
    if outcome.Crashed? || (done && id !in j1.remaining) then (Crashed, j1, table)
    else
      var j2 := if done then j1.(remaining := Removed(j1.remaining, id), finished := j1.finished + [id]) else j1;
      if outcome.Quiet? || j2.remaining != [] then (outcome, j2, table)
      else (outcome, j2, table - set x | x in j2.ids)
  }

  class ParallelSampleGroup {
    const groupId: string
    const ids: seq<string>
    const streaming: bool
    var toBeFinished: seq<string>
    var finishedReqs: seq<string>
    var outputProduced: bool

    function Value(): Join
      reads this
    {
      Join(ids, toBeFinished, finishedReqs, streaming, outputProduced)
    }

    constructor (groupId: string, ids: seq<string>, streaming: bool)
      ensures this.groupId == groupId && Value() == NewJoin(ids, streaming)
    {
      this.groupId, this.ids, this.streaming := groupId, ids, streaming;
      toBeFinished, finishedReqs, outputProduced := ids, [], false;
    }

    method MaybeAssembleGroup(id: string, done: bool) returns (outcome: Outcome)
      modifies this`outputProduced
      ensures (outcome, Value()) == Assemble(old(Value()), id, done)
    {
      if streaming {
        if toBeFinished == [] {
          return Crashed;
        }
        var firstRemainingId := toBeFinished[0];
        return if id == firstRemainingId then Assembled else Quiet;
      }
      if |toBeFinished| == 1 && id in toBeFinished && done {
        if !outputProduced {
          outputProduced := true;
          return Assembled;
        }
      }
      outcome := Quiet;
    }

    method FinishSeq(id: string) returns (ok: bool)
      modifies this`toBeFinished, this`finishedReqs
      ensures ok == (id in old(toBeFinished))
      ensures !ok ==> Value() == old(Value())
      ensures ok ==> toBeFinished == Removed(old(toBeFinished), id) && finishedReqs == old(finishedReqs) + [id]
    {
      if id !in toBeFinished {
        return false;
      }
      toBeFinished := Removed(toBeFinished, id);
      finishedReqs := finishedReqs + [id];
      ok := true;
    }
  }

  /** The engine's lookup table from sub-request ids to their groups. */
  class Engine {
    var seqIdToSeqGroup: map<string, ParallelSampleGroup>

    method Register(ids: seq<string>, group: ParallelSampleGroup)
      modifies this
      ensures forall x :: x in seqIdToSeqGroup <==> x in old(seqIdToSeqGroup) || x in ids
      ensures forall x :: x in seqIdToSeqGroup ==>
                            seqIdToSeqGroup[x] == if x in ids then group else old(seqIdToSeqGroup)[x]
    {
      for i := 0 to |ids|
        invariant forall x :: x in seqIdToSeqGroup <==> x in old(seqIdToSeqGroup) || x in ids[..i]
        invariant forall x :: x in seqIdToSeqGroup ==>
                                seqIdToSeqGroup[x] == if x in ids[..i] then group else old(seqIdToSeqGroup)[x]
      {
        seqIdToSeqGroup := seqIdToSeqGroup[ids[i] := group];
        assert ids[..i + 1] == ids[..i] + [ids[i]];
      }
      assert ids[..|ids|] == ids;
    }

    method AddRequest(requestId: string, n: nat, streaming: bool) returns (group: ParallelSampleGroup)
      requires n > 0
      modifies this
      ensures fresh(group) && group.groupId == requestId
      ensures group.Value() == NewJoin(SubIds(requestId, n), streaming)
      ensures forall x :: x in seqIdToSeqGroup <==> x in old(seqIdToSeqGroup) || x in SubIds(requestId, n)
      ensures forall x :: x in seqIdToSeqGroup ==>
                            seqIdToSeqGroup[x] == if x in SubIds(requestId, n) then group else old(seqIdToSeqGroup)[x]
    {
      var ids := [];
      for i := 0 to n
        invariant ids == SubIds(requestId, i)
      {
        ids := ids + [SubId(requestId, i)];
      }
      group := new ParallelSampleGroup(requestId, ids, streaming);
      Register(ids, group);
    }

    /** The groups of other requests keep their entries. */
    method ReportSub(id: string, done: bool) returns (outcome: Outcome)
      requires id in seqIdToSeqGroup
      modifies this, seqIdToSeqGroup[id]
      ensures var group := old(seqIdToSeqGroup[id]);
              && (outcome, group.Value(), seqIdToSeqGroup.Keys)
                 == Report(old(group.Value()), old(seqIdToSeqGroup).Keys, id, done)
              && forall x :: x in seqIdToSeqGroup ==> seqIdToSeqGroup[x] == old(seqIdToSeqGroup)[x]
    {
      var group := seqIdToSeqGroup[id];
      outcome := group.MaybeAssembleGroup(id, done);
      if outcome.Crashed? {
        return;
      }
      if done {
        var ok := group.FinishSeq(id);
        if !ok {
          return Crashed;
        }
      }
      if outcome.Quiet? || group.toBeFinished != [] {
        return;
      }
      ghost var j := group.Value();
      for k := 0 to |group.ids|
        invariant group.Value() == j
        invariant seqIdToSeqGroup == old(seqIdToSeqGroup) - set x | x in group.ids[..k]
      {
        seqIdToSeqGroup := seqIdToSeqGroup - {group.ids[k]};
        assert group.ids[..k + 1] == group.ids[..k] + [group.ids[k]];
      }
      assert group.ids[..|group.ids|] == group.ids;
      assert seqIdToSeqGroup.Keys == old(seqIdToSeqGroup).Keys - set x | x in group.ids;
    }

    /** At the start of a step the entries of requests that have finished since are dropped. */
    method Forget(finished: seq<string>)
      modifies this
      ensures seqIdToSeqGroup == old(seqIdToSeqGroup) - set x | x in finished
    {
      for k := 0 to |finished|
        invariant seqIdToSeqGroup == old(seqIdToSeqGroup) - set x | x in finished[..k]
      {
        if finished[k] in seqIdToSeqGroup {
          seqIdToSeqGroup := seqIdToSeqGroup - {finished[k]};
        }
        assert finished[..k + 1] == finished[..k] + [finished[k]];
      }
      assert finished[..|finished|] == finished;
    }
  }

  // ----- What every report keeps

  /** `xs` names some of the ids, at ascending places. */
  ghost predicate InOrderOf(ids: seq<string>, xs: seq<string>) {
    && (forall a :: 0 <= a < |xs| ==> xs[a] in ids)
    && forall a, b :: 0 <= a < b < |xs| ==> Position(ids, xs[a]) < Position(ids, xs[b])
  }

  /** The sub-requests still running, in the order of their ids, and those reported finished partition all of them; the
      table knows those running, and none once the last has been reported. */
  ghost predicate Partitioned(j: Join, table: set<string>) {
    && Distinct(j.ids) && Distinct(j.remaining) && InOrderOf(j.ids, j.remaining)
    && (forall id :: id in j.ids <==> id in j.remaining || id in j.finished)
    && (forall id :: id in j.remaining ==> id !in j.finished)
    && (forall id :: id in j.remaining ==> id in table)
    && (j.remaining == [] ==> forall id :: id in j.ids ==> id !in table)
    && (!j.streaming ==> (j.produced <==> j.remaining == []))
  }

  lemma NewJoinPartitioned(request: string, n: nat, streaming: bool, table: set<string>)
    requires n > 0 && forall id :: id in SubIds(request, n) ==> id in table
    ensures Partitioned(NewJoin(SubIds(request, n), streaming), table)
  {
    SubIdsDistinct(request, n);
  }

  /** Entries may be dropped for sub-requests that were reported finished. */
  predicate MayForget(j: Join, ids: set<string>) {
    forall id :: id in ids && id in j.ids ==> id in j.finished
  }

  lemma ForgetKeepsPartition(j: Join, table: set<string>, ids: set<string>)
    requires Partitioned(j, table) && MayForget(j, ids)
    ensures Partitioned(j, table - ids)
  {
  }

  lemma PositionIs(ids: seq<string>, i: nat)
    requires Distinct(ids) && i < |ids|
    ensures Position(ids, ids[i]) == i
  {
  }

  lemma RemovedAt(xs: seq<string>, k: nat, a: nat)
    requires Distinct(xs) && k < |xs| && a < |xs| - 1
    ensures |Removed(xs, xs[k])| == |xs| - 1 && Removed(xs, xs[k])[a] == xs[if a < k then a else a + 1]
  {
    RemovedIs(xs, k);
  }

  /** Taking one out keeps the order of the others. */
  lemma RemovedInOrder(ids: seq<string>, xs: seq<string>, id: string)
    requires Distinct(xs) && InOrderOf(ids, xs) && id in xs
    ensures InOrderOf(ids, Removed(xs, id))
  {
    var k :| 0 <= k < |xs| && xs[k] == id;
    var rest := Removed(xs, id);
    InRemoved(xs, id);
    forall a | 0 <= a < |rest|
      ensures rest[a] in ids
    {
      RemovedAt(xs, k, a);
    }
    forall a, b | 0 <= a < b < |rest|
      ensures Position(ids, rest[a]) < Position(ids, rest[b])
    {
      RemovedAt(xs, k, a);
      RemovedAt(xs, k, b);
    }
  }

  /** What a finish does to the two dictionaries. */
  lemma FinishMoves(j: Join, table: set<string>, id: string)
    requires Partitioned(j, table) && id in j.remaining
    ensures var (remaining, finished) := (Removed(j.remaining, id), j.finished + [id]);
            && Distinct(remaining) && InOrderOf(j.ids, remaining) && (remaining == [] <==> j.remaining == [id])
            && (forall x :: x in j.ids <==> x in remaining || x in finished)
            && (forall x :: x in remaining ==> x !in finished && x in table)
  {
    InRemoved(j.remaining, id);
    RemovedInOrder(j.ids, j.remaining, id);
    assert |j.remaining| == 1 ==> j.remaining == [j.remaining[0]];
  }

  /** The first one still running is the one at the lowest place that was not reported finished. */
  lemma FirstIsLowest(j: Join, table: set<string>, i: nat)
    requires Partitioned(j, table) && i < |j.ids| && j.ids[i] in j.remaining
    ensures j.ids[i] == j.remaining[0] <==> forall k :: 0 <= k < i ==> j.ids[k] in j.finished
  {
    PositionIs(j.ids, i);
    var a :| 0 <= a < |j.remaining| && j.remaining[a] == j.ids[i];
    var first := Position(j.ids, j.remaining[0]);
    assert a > 0 ==> first < i;
    forall k | 0 <= k < i && j.ids[k] !in j.finished
      ensures j.remaining[0] != j.ids[i]
    {
      PositionIs(j.ids, k);
      var b :| 0 <= b < |j.remaining| && j.remaining[b] == j.ids[k];
      assert b != a && b < a;
    }
  }

  /** A report never fails for a sub-request not yet reported finished. It yields the assembled group, when streaming,
      exactly if all those before it were reported finished, and otherwise exactly when the last one finishes;
      in both modes the report that finishes the last one yields it and empties the table of all sub-request ids. */
  lemma ReportKeepsPartition(j: Join, table: set<string>, i: nat, done: bool)
    requires Partitioned(j, table) && i < |j.ids| && j.ids[i] in j.remaining
    ensures var id := j.ids[i];
            var (outcome, j', table') := Report(j, table, id, done);
            && Partitioned(j', table') && !outcome.Crashed?
            && (outcome.Assembled? <==>
                if j.streaming then forall k :: 0 <= k < i ==> j.ids[k] in j.finished else done && j.remaining == [id])
            && (j'.remaining == [] <==> done && j.remaining == [id])
            && (j'.remaining == [] ==> outcome.Assembled?)
            && (id in j'.finished <==> done)
            && (forall x :: x in j.finished ==> x in j'.finished)
            && (forall x :: x in j'.finished ==> x in j.finished || x == id)
            && j'.ids == j.ids && j'.streaming == j.streaming
            && forall x :: x !in j.ids ==> (x in table <==> x in table')
  {
    FirstIsLowest(j, table, i);
    FinishMoves(j, table, j.ids[i]);
    assert |j.remaining| == 1 ==> j.remaining == [j.remaining[0]];
  }
}
