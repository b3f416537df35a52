/** `HiddenStates` (vllm/sequence.py): rows passed from the target model to the proposer, one per sequence. */
module HiddenRows {
  import opened Prelude

  /** Rows in the order of the sequence ids; the second-last rows are kept only if they were given at the start. */
  datatype Rows<T> = Rows(ids: seq<int>, rows: seq<T>, second: Option<seq<T>>)
  {
    predicate Aligned() {
      |rows| == |ids| && (second.Some? ==> |second.value| == |ids|)
    }
  }

  /** Python's `ids.index(id)`. */
  function IndexOf(ids: seq<int>, id: int): (i: nat)
    requires id in ids
    ensures i < |ids| && ids[i] == id && id !in ids[..i]
  {
    if ids[0] == id then 0
    else
      var i := IndexOf(ids[1..], id);
      assert ids[..i + 1] == [ids[0]] + ids[1..][..i];
      1 + i
  }

  lemma {:induction false} IndexUnique(ids: seq<int>, i: nat)
    requires i < |ids| && ids[i] !in ids[..i]
    ensures IndexOf(ids, ids[i]) == i
  {
  }

  /** The rows of one sequence: its row, and its second-last row where those are kept. */
  function RowsOf<T>(s: Rows<T>, id: int): (T, Option<T>)
    requires s.Aligned() && id in s.ids
  {
    var i := IndexOf(s.ids, id);
    (s.rows[i], if s.second.Some? then Some(s.second.value[i]) else None)
  }

  // ----- Adding and removing sequences

  /** `Update` adds sequences with their rows; `Prune` keeps those it names. */
  datatype Op<T> = Update(ids: seq<int>, rows: seq<T>, second: Option<seq<T>>) | Prune(ids: seq<int>)
  {
    predicate Fits() {
      Update? ==> |rows| == |ids| && (second.Some? ==> |second.value| == |rows|)
    }
  }

  function Known(ids: seq<int>, known: seq<int>): (r: seq<int>)
    ensures forall k :: 0 <= k < |r| ==> r[k] in known
  {
    if ids == [] then []
    else (if ids[0] in known then [ids[0]] else []) + Known(ids[1..], known)
  }

  lemma {:induction false} KnownAre(ids: seq<int>, known: seq<int>, id: int)
    ensures id in Known(ids, known) <==> id in ids && id in known
    ensures Known([id], known) == if id in known then [id] else []
  {
    if ids != [] {
      KnownAre(ids[1..], known, id);
    }
  }

  lemma Together<T>(xs: seq<T>, ys: seq<T>, zs: seq<T>)
    ensures xs + (ys + zs) == xs + ys + zs
  {
  }

  /** The known ids come in the order in which they are given, each as often as it is given: what is kept of two lists
      put together is what is kept of the one and then of the other. */
  lemma {:induction false} KnownInOrder(a: seq<int>, b: seq<int>, known: seq<int>)
    ensures Known(a + b, known) == Known(a, known) + Known(b, known)
  {
    if a == [] {
      assert a + b == b;
    } else {
      KnownInOrder(a[1..], b, known);
      assert (a + b)[0] == a[0] && (a + b)[1..] == a[1..] + b;
      Together(if a[0] in known then [a[0]] else [], Known(a[1..], known), Known(b, known));
    }
  }

  /** The rows of the kept ids, found by their place among the old ids. */
  function Gather<T>(rows: seq<T>, ids: seq<int>, kept: seq<int>): (r: seq<T>)
    requires |rows| == |ids| && forall i :: 0 <= i < |kept| ==> kept[i] in ids
    ensures |r| == |kept| && forall i :: 0 <= i < |kept| ==> r[i] == rows[IndexOf(ids, kept[i])]
  {
    seq(|kept|, i requires 0 <= i < |kept| => rows[IndexOf(ids, kept[i])])
  }

  /** `zero` stands in for second-last rows that are not given. */
  function Apply<T>(s: Rows<T>, op: Op<T>, zero: T): (s': Rows<T>)
    requires s.Aligned() && op.Fits()
    ensures s'.Aligned()
  {
    match op
    case Update(ids, rows, second) =>
      Rows(s.ids + ids, s.rows + rows,
           if s.second.None? then None
           else Some(s.second.value + if second.Some? then second.value else seq(|rows|, _ => zero)))
    case Prune(ids) =>
      var kept := Known(ids, s.ids);
      if kept == s.ids then s
      else Rows(kept, Gather(s.rows, s.ids, kept),
                if s.second.None? then None else Some(Gather(s.second.value, s.ids, kept)))
  }

  /** The rows an update brings for a sequence. */
  function Given<T>(s: Rows<T>, op: Op<T>, id: int, zero: T): (T, Option<T>)
    requires op.Update? && op.Fits() && id in op.ids
  {
    var i := IndexOf(op.ids, id);
    (op.rows[i], if s.second.None? then None else if op.second.Some? then Some(op.second.value[i]) else Some(zero))
  }

  /** A retained sequence keeps its own rows, and one that enters has those it is given. */
  lemma {:induction false} UpdateKeepsRows<T>(s: Rows<T>, op: Op<T>, zero: T, id: int)
    requires s.Aligned() && op.Fits() && op.Update? && id in Apply(s, op, zero).ids
    ensures RowsOf(Apply(s, op, zero), id) == if id in s.ids then RowsOf(s, id) else Given(s, op, id, zero)
  {
    IndexInSum(s.ids, op.ids, id);
  }

  lemma {:induction false} IndexInSum(a: seq<int>, b: seq<int>, id: int)
    requires id in a + b
    ensures IndexOf(a + b, id) == if id in a then IndexOf(a, id) else |a| + IndexOf(b, id)
  {
    if id in a {
      var i := IndexOf(a, id);
      assert (a + b)[..i] == a[..i] && (a + b)[i] == id;
      IndexUnique(a + b, i);
    } else {
      var i := IndexOf(b, id);
      assert (a + b)[..|a| + i] == a + b[..i] && (a + b)[|a| + i] == id;
      IndexUnique(a + b, |a| + i);
    }
  }

  lemma {:induction false} PruneKeepsRows<T>(s: Rows<T>, op: Op<T>, zero: T, id: int)
    requires s.Aligned() && op.Fits() && op.Prune? && id in Apply(s, op, zero).ids
    ensures id in s.ids && RowsOf(Apply(s, op, zero), id) == RowsOf(s, id)
  {
  }

  // ----- Runs

  predicate AllFit<T>(ops: seq<Op<T>>) {
    forall k :: 0 <= k < |ops| ==> ops[k].Fits()
  }

  function Run<T>(s: Rows<T>, ops: seq<Op<T>>, zero: T): (s': Rows<T>)
    requires s.Aligned() && AllFit(ops)
    ensures s'.Aligned()
    decreases |ops|
  {
    if ops == [] then s else Run(Apply(s, ops[0], zero), ops[1..], zero)
  }

  /** The ledger holds the rows of every sequence in the batch. */
  ghost predicate Tracks<T>(s: Rows<T>, ledger: map<int, (T, Option<T>)>)
    requires s.Aligned()
  {
    forall id :: id in s.ids ==> id in ledger && ledger[id] == RowsOf(s, id)
  }

  /** An entry is written when a sequence enters, that is, when it is added while it is not in the batch. */
  ghost function Entered<T>(s: Rows<T>, op: Op<T>, zero: T, ledger: map<int, (T, Option<T>)>)
    : map<int, (T, Option<T>)>
    requires op.Fits()
  {
    if op.Prune? then ledger
    else ledger + map id | id in op.ids && id !in s.ids :: Given(s, op, id, zero)
  }

  ghost function Ledger<T>(s: Rows<T>, ops: seq<Op<T>>, zero: T, ledger: map<int, (T, Option<T>)>)
    : map<int, (T, Option<T>)>
    requires s.Aligned() && AllFit(ops)
    decreases |ops|
  {
    if ops == [] then ledger
    else Ledger(Apply(s, ops[0], zero), ops[1..], zero, Entered(s, ops[0], zero, ledger))
  }

  lemma {:induction false} StepTracks<T>(s: Rows<T>, op: Op<T>, zero: T, ledger: map<int, (T, Option<T>)>)
    requires s.Aligned() && op.Fits() && Tracks(s, ledger)
    ensures Tracks(Apply(s, op, zero), Entered(s, op, zero, ledger))
  {
    forall id | id in Apply(s, op, zero).ids
      ensures id in Entered(s, op, zero, ledger) && Entered(s, op, zero, ledger)[id] == RowsOf(Apply(s, op, zero), id)
    {
      if op.Update? {
        UpdateKeepsRows(s, op, zero, id);
      } else {
        PruneKeepsRows(s, op, zero, id);
      }
    }
  }

  /** After any updates and prunes every sequence in the batch has the rows it was given when it last entered. */
  lemma {:induction false} RunsTrack<T>(s: Rows<T>, ops: seq<Op<T>>, zero: T, ledger: map<int, (T, Option<T>)>)
    requires s.Aligned() && AllFit(ops) && Tracks(s, ledger)
    ensures Tracks(Run(s, ops, zero), Ledger(s, ops, zero, ledger))
    decreases |ops|
  {
    if ops != [] {
      StepTracks(s, ops[0], zero, ledger);
      RunsTrack(Apply(s, ops[0], zero), ops[1..], zero, Entered(s, ops[0], zero, ledger));
    }
  }

  /** A sequence added again while it is in the batch keeps the rows it has. */
  lemma {:induction false} AddedTwice()
    ensures var s := Rows([7], ["old"], None);
            RowsOf(Apply(s, Update([7], ["new"], None), ""), 7) == ("old", None)
  {
    UpdateKeepsRows(Rows([7], ["old"], None), Update([7], ["new"], None), "", 7);
  }

  // ----- Expanding for bonus tokens

  /** The rows of the expanded batch, sequence by sequence: the second-last row first where there is a bonus token. */
  function Expanded<T>(s: Rows<T>, bonus: set<int>, n: nat): seq<T>
    requires s.Aligned() && s.second.Some? && n <= |s.ids|
  {
    if n == 0 then []
    else
      var (row, second) := RowsOf(s, s.ids[n - 1]);
      Expanded(s, bonus, n - 1) + (if s.ids[n - 1] in bonus then [second.value] else []) + [row]
  }

  /** The places of the first `n` sequences that have a bonus token. */
  function WithBonus(ids: seq<int>, bonus: set<int>, n: nat): set<nat>
    requires n <= |ids|
  {
    set i | 0 <= i < n && ids[i] in bonus
  }

  lemma {:induction false} WithBonusStep(ids: seq<int>, bonus: set<int>, n: nat)
    requires n < |ids|
    ensures |WithBonus(ids, bonus, n + 1)| == |WithBonus(ids, bonus, n)| + if ids[n] in bonus then 1 else 0
  {
    assert WithBonus(ids, bonus, n + 1) == WithBonus(ids, bonus, n) + if ids[n] in bonus then {n} else {};
  }

  /** One row more for every sequence with a bonus token. */
  lemma {:induction false} ExpandedLength<T>(s: Rows<T>, bonus: set<int>, n: nat)
    requires s.Aligned() && s.second.Some? && n <= |s.ids|
    ensures |Expanded(s, bonus, n)| == n + |WithBonus(s.ids, bonus, n)|
  {
    if n > 0 {
      ExpandedLength(s, bonus, n - 1);
      WithBonusStep(s.ids, bonus, n - 1);
    }
  }

  function Pick<T>(rows: seq<T>, index: seq<nat>): (r: seq<T>)
    requires forall k :: 0 <= k < |index| ==> index[k] < |rows|
  {
    seq(|index|, k requires 0 <= k < |index| => rows[index[k]])
  }

  lemma {:induction false} PickAppend<T>(rows: seq<T>, index: seq<nat>, i: nat)
    requires i < |rows| && forall k :: 0 <= k < |index| ==> index[k] < |rows|
    ensures Pick(rows, index + [i]) == Pick(rows, index) + [rows[i]]
  {
  }

  /** Where the rows are: sequence `k`'s last row is followed by nothing of its own, and its second-last row comes
      directly before it exactly if it has a bonus token; rows of earlier sequences come first. */
  lemma {:induction false} ExpandedRows<T>(s: Rows<T>, bonus: set<int>, n: nat, k: nat)
    requires s.Aligned() && s.second.Some? && k < n <= |s.ids|
    ensures var (start, end) := (|Expanded(s, bonus, k)|, |Expanded(s, bonus, k + 1)|);
            && end == start + (if s.ids[k] in bonus then 2 else 1) <= |Expanded(s, bonus, n)|
            && Expanded(s, bonus, n)[end - 1] == RowsOf(s, s.ids[k]).0
            && (s.ids[k] in bonus ==> Expanded(s, bonus, n)[end - 2] == RowsOf(s, s.ids[k]).1.value)
    decreases n
  {
    if k + 1 < n {
      ExpandedRows(s, bonus, n - 1, k);
    }
  }

  /** The indices that the next sequence adds select its rows from the last and second-last rows put together. */
  lemma {:induction false} ExpandsBy<T>(s: Rows<T>, bonus: set<int>, n: nat, index: seq<nat>, index': seq<nat>)
    requires s.Aligned() && s.second.Some? && n < |s.ids|
    requires forall k :: 0 <= k < |index| ==> index[k] < |s.rows + s.second.value|
    requires Pick(s.rows + s.second.value, index) == Expanded(s, bonus, n)
    requires var i := IndexOf(s.ids, s.ids[n]);
             index' == index + (if s.ids[n] in bonus then [i + |s.ids|] else []) + [i]
    ensures forall k :: 0 <= k < |index'| ==> index'[k] < |s.rows + s.second.value|
    ensures Pick(s.rows + s.second.value, index') == Expanded(s, bonus, n + 1)
  {
    var all, i := s.rows + s.second.value, IndexOf(s.ids, s.ids[n]);
    var middle := index + if s.ids[n] in bonus then [i + |s.ids|] else [];
    if s.ids[n] in bonus {
      PickAppend(all, index, i + |s.ids|);
    }
    PickAppend(all, middle, i);
  }

  class HiddenStates<T> {
    var seqIds: seq<int>
    var hiddenStates: seq<T>
    var secondLast: Option<seq<T>>

    function Value(): Rows<T>
      reads this
    {
      Rows(seqIds, hiddenStates, secondLast)
    }

    constructor (ids: seq<int>, rows: seq<T>, second: Option<seq<T>>)
      ensures Value() == Rows(ids, rows, second)
    {
      seqIds, hiddenStates, secondLast := ids, rows, second;
    }

    /** New sequences are added with their rows, and those in the batch keep theirs. */
    method Update(ids: seq<int>, rows: seq<T>, second: Option<seq<T>>, zero: T)
      requires Value().Aligned() && Op.Update(ids, rows, second).Fits()
      modifies this
      ensures var op := Op.Update(ids, rows, second);
              && Value() == Apply(old(Value()), op, zero)
              && forall id :: id in seqIds ==>
                                RowsOf(Value(), id) == if id in old(seqIds) then RowsOf(old(Value()), id)
                                                       else Given(old(Value()), op, id, zero)
    {
      ghost var before, op := Value(), Op.Update(ids, rows, second);
      seqIds := seqIds + ids;
      hiddenStates := hiddenStates + rows;
      if secondLast.Some? {
        secondLast := Some(secondLast.value + if second.Some? then second.value else seq(|rows|, _ => zero));
      }
      forall id | id in seqIds
        ensures RowsOf(Value(), id) == if id in before.ids then RowsOf(before, id) else Given(before, op, id, zero)
      {
        UpdateKeepsRows(before, op, zero, id);
      }
    }

    /** Only the given sequences are kept, in the given order, each with its own rows; unknown ones are ignored. */
    method Prune(ids: seq<int>, ghost zero: T)
      requires Value().Aligned()
      modifies this
      ensures Value() == Apply(old(Value()), Op.Prune(ids), zero) && seqIds == Known(ids, old(seqIds))
      ensures forall id :: id in seqIds ==> RowsOf(Value(), id) == RowsOf(old(Value()), id)
    {
      ghost var before := Value();
      var kept := Known(ids, seqIds);
      if kept != seqIds {
        hiddenStates := Gather(hiddenStates, seqIds, kept);
        if secondLast.Some? {
          secondLast := Some(Gather(secondLast.value, seqIds, kept));
        }
        seqIds := kept;
      }
      forall id | id in seqIds
        ensures RowsOf(Value(), id) == RowsOf(before, id)
      {
        PruneKeepsRows(before, Op.Prune(ids), zero, id);
      }
    }

    /** Second-last rows are put before the last rows of the sequences with a bonus token. */
    method ExpandWithBonusTokens(bonus: set<int>)
      requires Value().Aligned()
      modifies this`hiddenStates
      ensures hiddenStates == if secondLast.None? || bonus == {} then old(hiddenStates)
                              else Expanded(old(Value()), bonus, |seqIds|)
    {
      if secondLast.None? || bonus == {} {
        return;
      }
      var all := hiddenStates + secondLast.value;
      var index: seq<nat> := [];
      ghost var before := Value();
      for n := 0 to |seqIds|
        invariant forall k :: 0 <= k < |index| ==> index[k] < |all|
        invariant Pick(all, index) == Expanded(before, bonus, n)
      {
        var i := IndexOf(seqIds, seqIds[n]);
        ghost var done := index;
        if seqIds[n] in bonus {
          index := index + [i + |seqIds|];
        }
        index := index + [i];
        assert index == done + (if seqIds[n] in bonus then [i + |seqIds|] else []) + [i];
        ExpandsBy(before, bonus, n, done, index);
      }
      hiddenStates := Pick(all, index);
    }
  }
}
