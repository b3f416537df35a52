/** Stop-string search (vllm/engine/output_processor/stop_checker.py) and the text held back for it
    (vllm/sampling_params.py). */
module StopStrings {
  import opened Prelude

  predicate EndsInLast(text: string, n: nat, s: string, p: int) {
    OccursAt(text, s, p) && |text| - n < p + |s|
  }

  ghost predicate Contains(text: string, s: string) {
    exists p :: OccursAt(text, s, p)
  }

  ghost predicate StopFree(text: string, stop: seq<string>) {
    forall j :: 0 <= j < |stop| ==> !Contains(text, stop[j])
  }

  predicate NonemptyStrings(stop: seq<string>) {
    forall j :: 0 <= j < |stop| ==> stop[j] != ""
  }

  function FindFrom(text: string, s: string, start: nat): (r: int)
    ensures r == -1 ==> forall p :: start <= p ==> !OccursAt(text, s, p)
    ensures r != -1 ==> start <= r && OccursAt(text, s, r) && forall p :: start <= p < r ==> !OccursAt(text, s, p)
    decreases |text| - start
  {
    if |text| < start + |s| then -1
    else if text[start..start + |s|] == s then start
    else FindFrom(text, s, start + 1)
  }

  /** Python's `text.find(s, start)`, where a negative start counts from the end. */
  function Find(text: string, s: string, start: int): int {
    FindFrom(text, s, if start >= 0 then start else if |text| + start < 0 then 0 else |text| + start)
  }

  /** The stop string that matched, and where to cut the text unless it already ends there. */
  datatype Match = Match(index: nat, truncateTo: Option<nat>)

  function MatchAt(text: string, stop: seq<string>, j: nat, p: nat, includeStop: bool): Match
    requires j < |stop|
  {
    if !includeStop then Match(j, Some(p))
    else if p + |stop[j]| >= |text| then Match(j, None)
    else Match(j, Some(p + |stop[j]|))
  }

  /** `check_stop_strings`: the first listed string found decides, searched only where it could be new. */
  function Check(text: string, n: nat, stop: seq<string>, includeStop: bool): (r: Option<Match>)
    ensures r.Some? ==> r.value.index < |stop| && (r.value.truncateTo.Some? ==> r.value.truncateTo.value <= |text|)
  {
    if n == 0 then None else CheckFrom(text, n, stop, includeStop, 0)
  }

  function CheckFrom(text: string, n: nat, stop: seq<string>, includeStop: bool, from: nat): (r: Option<Match>)
    requires from <= |stop|
    ensures r.Some? ==> r.value.index < |stop| && (r.value.truncateTo.Some? ==> r.value.truncateTo.value <= |text|)
    decreases |stop| - from
  {
    if from == |stop| then None
    else
      var p := Find(text, stop[from], 1 - n - |stop[from]|);
      if p == -1 then CheckFrom(text, n, stop, includeStop, from + 1)
      else Some(MatchAt(text, stop, from, p, includeStop))
  }

  ghost predicate FirstNew(text: string, n: nat, s: string, p: int) {
    EndsInLast(text, n, s, p) && forall q :: q < p ==> !EndsInLast(text, n, s, q)
  }

  lemma {:induction false} CheckFromFindsExactly(text: string, n: nat, stop: seq<string>, includeStop: bool, from: nat)
    requires n > 0 && NonemptyStrings(stop) && from <= |stop|
    ensures var r := CheckFrom(text, n, stop, includeStop, from);
            if r.None? then forall j, p :: from <= j < |stop| ==> !EndsInLast(text, n, stop[j], p)
            else
              var i := r.value.index;
              && from <= i < |stop|
              && (forall j, p :: from <= j < i ==> !EndsInLast(text, n, stop[j], p))
              && exists p :: FirstNew(text, n, stop[i], p) && r.value == MatchAt(text, stop, i, p, includeStop)
    decreases |stop| - from
  {
    if from < |stop| {
      if Find(text, stop[from], 1 - n - |stop[from]|) == -1 {
        CheckFromFindsExactly(text, n, stop, includeStop, from + 1);
      }
    }
  }

  /** Searching only the tail misses nothing: a match is reported exactly when some stop string ends in the last `n`
      characters; it is the first listed such string, at its first such place. */
  lemma CheckFindsExactly(text: string, n: nat, stop: seq<string>, includeStop: bool)
    requires NonemptyStrings(stop)
    ensures var r := Check(text, n, stop, includeStop);
            if r.None? then forall j, p :: 0 <= j < |stop| ==> !EndsInLast(text, n, stop[j], p)
            else
              var i := r.value.index;
              && i < |stop|
              && (forall j, p :: 0 <= j < i ==> !EndsInLast(text, n, stop[j], p))
              && exists p :: FirstNew(text, n, stop[i], p) && r.value == MatchAt(text, stop, i, p, includeStop)
  {
    if n > 0 {
      CheckFromFindsExactly(text, n, stop, includeStop, 0);
    }
  }

  method CheckStopStrings(text: string, n: nat, stop: seq<string>, includeStop: bool) returns (r: Option<Match>)
    ensures r == Check(text, n, stop, includeStop)
  {
    if n == 0 || stop == [] {
      return None;
    }
    for j := 0 to |stop|
      invariant CheckFrom(text, n, stop, includeStop, 0) == CheckFrom(text, n, stop, includeStop, j)
    {
      var stopIndex := Find(text, stop[j], 1 - n - |stop[j]|);
      if stopIndex == -1 {
        continue;
      }
      if includeStop {
        stopIndex := stopIndex + |stop[j]|;
        if stopIndex >= |text| {
          return Some(Match(j, None));
        }
      }
      return Some(Match(j, Some(stopIndex)));
    }
    r := None;
  }

  function MaxLen(stop: seq<string>): (m: nat)
    ensures forall j :: 0 <= j < |stop| ==> |stop[j]| <= m
    ensures stop != [] ==> exists j :: 0 <= j < |stop| && |stop[j]| == m
  {
    if stop == [] then 0
    else
      var m := MaxLen(stop[1..]);
      assert forall j :: 0 < j < |stop| ==> stop[j] == stop[1..][j - 1];
      if |stop[0]| > m || |stop| == 1 then |stop[0]| else
        assert exists j :: 0 <= j < |stop[1..]| && |stop[1..][j]| == m;
        m
  }

  /** `output_text_buffer_length`. */
  function HoldBack(stop: seq<string>, includeStop: bool): nat
    requires NonemptyStrings(stop)
  {
    if stop != [] && !includeStop then MaxLen(stop) - 1 else 0
  }

  /** Characters released from a text of the given length while generation continues. */
  function Released(length: nat, holdBack: nat): nat {
    if length > holdBack then length - holdBack else 0
  }

  /** Whatever was released before the last `n` characters arrived survives the cut a match asks for. */
  lemma HoldBackCoversEveryMatch(text: string, n: nat, stop: seq<string>, includeStop: bool)
    requires NonemptyStrings(stop) && n <= |text|
    requires Check(text, n, stop, includeStop).Some?
    requires Check(text, n, stop, includeStop).value.truncateTo.Some?
    ensures Released(|text| - n, HoldBack(stop, includeStop))
            <= Check(text, n, stop, includeStop).value.truncateTo.value <= |text|
  {
    CheckFindsExactly(text, n, stop, includeStop);
    var m := Check(text, n, stop, includeStop).value;
    var p :| FirstNew(text, n, stop[m.index], p) && m == MatchAt(text, stop, m.index, p, includeStop);
  }

  /** No text released while `holdBack` characters are kept back is covered by a stop string later: if the text so
      far is free of stop strings, every occurrence in any extension starts at or after what has been released. */
  ghost predicate Covers(stop: seq<string>, holdBack: nat) {
    forall text, more, j, p :: StopFree(text, stop) && 0 <= j < |stop| && OccursAt(text + more, stop[j], p) ==>
                                 Released(|text|, holdBack) <= p
  }

  lemma {:induction false} ContainsTail(text: string, from: nat, s: string)
    requires from <= |text|
    ensures Contains(text[from..], s) ==> Contains(text, s)
  {
    if Contains(text[from..], s) {
      var p :| OccursAt(text[from..], s, p);
      assert OccursAt(text, s, from + p);
    }
  }

  /** An occurrence that starts in the text lies in it, or the text ends in a prefix of it. */
  lemma {:induction false} StartsInside(text: string, more: string, s: string, p: int)
    requires OccursAt(text + more, s, p) && p < |text|
    ensures if |s| <= |text| - p then Contains(text, s) else s[..|text| - p] == text[p..]
  {
    if |s| <= |text| - p {
      assert OccursAt(text, s, p);
    }
  }

  /** Exactly the prefixes of stop strings that are themselves free of stop strings have to be held back. */
  lemma {:induction false} CoversIff(stop: seq<string>, holdBack: nat)
    requires NonemptyStrings(stop)
    ensures Covers(stop, holdBack) <==>
            forall j, k :: 0 <= j < |stop| && holdBack < k < |stop[j]| ==> !StopFree(stop[j][..k], stop)
  {
    forall text, more, j, p | StopFree(text, stop) && 0 <= j < |stop| && OccursAt(text + more, stop[j], p)
                              && p < Released(|text|, holdBack)
      ensures |text| - p < |stop[j]| && StopFree(stop[j][..|text| - p], stop)
    {
      StartsInside(text, more, stop[j], p);
      forall i | 0 <= i < |stop|
        ensures !Contains(text[p..], stop[i])
      {
        ContainsTail(text, p, stop[i]);
      }
    }
    forall j, k | 0 <= j < |stop| && holdBack < k < |stop[j]| && StopFree(stop[j][..k], stop)
      ensures !Covers(stop, holdBack)
    {
      assert stop[j][..k] + stop[j][k..] == stop[j];
      assert OccursAt(stop[j][..k] + stop[j][k..], stop[j], 0);
    }
  }

  /** Holding back the longest stop string less one character is always enough. One character less is not, if and
      only if the longest string, or one as long, is stop-free up to its last character. */
  lemma {:induction false} HoldBackIsTightIff(stop: seq<string>)
    requires NonemptyStrings(stop)
    ensures Covers(stop, HoldBack(stop, false))
    ensures HoldBack(stop, false) > 0 ==>
              (Covers(stop, HoldBack(stop, false) - 1) <==>
               forall j :: 0 <= j < |stop| && |stop[j]| == MaxLen(stop) ==> !StopFree(stop[j][..|stop[j]| - 1], stop))
  {
    CoversIff(stop, HoldBack(stop, false));
    if HoldBack(stop, false) > 0 {
      CoversIff(stop, HoldBack(stop, false) - 1);
    }
  }

  lemma {:induction false} OccurrencesStartAfterReleased(text: string, more: string, stop: seq<string>, j: nat, p: int)
    requires NonemptyStrings(stop) && StopFree(text, stop)
    requires j < |stop| && OccursAt(text + more, stop[j], p)
    ensures Released(|text|, HoldBack(stop, false)) <= p
  {
    HoldBackIsTightIff(stop);
  }

  /** A list for which nothing would have to be held back, although two characters are. */
  lemma {:induction false} HoldBackCanBeTooLong()
    ensures HoldBack(["abc", "a"], false) == 2 && Covers(["abc", "a"], 0)
  {
    var stop := ["abc", "a"];
    forall j, k | 0 <= j < |stop| && 0 < k < |stop[j]|
      ensures !StopFree(stop[j][..k], stop)
    {
      assert OccursAt("abc"[..k], stop[1], 0);
    }
    CoversIff(stop, 0);
  }

  // ----- What is left of the text after a stop

  /** Some stop string ends in the new text. */
  ghost predicate NewMatch(before: string, added: string, stop: seq<string>) {
    exists j, p :: 0 <= j < |stop| && EndsInLast(before + added, |added|, stop[j], p)
  }

  /** The stop string listed first among those that end in the new text first does so at `p`. */
  ghost predicate CutAt(before: string, added: string, stop: seq<string>, i: int, p: int) {
    && 0 <= i < |stop| && FirstNew(before + added, |added|, stop[i], p)
    && forall j, q :: 0 <= j < i ==> !EndsInLast(before + added, |added|, stop[j], q)
  }

  /** A stop string ends no later than the one listed first begins. */
  ghost predicate Overtaken(before: string, added: string, stop: seq<string>) {
    exists i, p, j, q :: CutAt(before, added, stop, i, p) && 0 <= j < |stop| && OccursAt(before + added, stop[j], q)
                         && q + |stop[j]| <= p
  }

  lemma {:induction false} StopFreeGrows(before: string, added: string, stop: seq<string>)
    requires NonemptyStrings(stop)
    ensures StopFree(before + added, stop) <==> StopFree(before, stop) && !NewMatch(before, added, stop)
  {
    forall j, p | 0 <= j < |stop|
      ensures OccursAt(before + added, stop[j], p) <==>
              OccursAt(before, stop[j], p) || EndsInLast(before + added, |added|, stop[j], p)
    {
      NewOrOld(before, added, stop[j], p);
    }
  }

  /** The documentation says that the returned text contains no stop string. A match is found exactly when a stop
      string ends in the new text, and the text before the cut is then free of stop strings if and only if none of
      them ends by the place where the one listed first begins. */
  lemma {:induction false} CutTextIsStopFreeIff(before: string, added: string, stop: seq<string>)
    requires NonemptyStrings(stop)
    ensures var r := Check(before + added, |added|, stop, false);
            && (r.Some? <==> NewMatch(before, added, stop))
            && (r.Some? ==> r.value.truncateTo.Some? && r.value.truncateTo.value <= |before + added|
                            && (StopFree((before + added)[..r.value.truncateTo.value], stop)
                                <==> !Overtaken(before, added, stop)))
  {
    var text := before + added;
    CheckFindsExactly(text, |added|, stop, false);
    var r := Check(text, |added|, stop, false);
    if r.Some? {
      var i := r.value.index;
      var p :| FirstNew(text, |added|, stop[i], p) && r.value == MatchAt(text, stop, i, p, false);
      assert CutAt(before, added, stop, i, p);
      CutIsUnique(before, added, stop, i, p);
      forall j, q | 0 <= j < |stop|
        ensures OccursAt(text[..p], stop[j], q) <==> OccursAt(text, stop[j], q) && q + |stop[j]| <= p
      {
      }
    }
  }

  lemma {:induction false} CutIsUnique(before: string, added: string, stop: seq<string>, i: int, p: int)
    requires CutAt(before, added, stop, i, p)
    ensures forall i', p' :: CutAt(before, added, stop, i', p') ==> i' == i && p' == p
  {
  }

  /** When no step adds more characters than the shortest stop string has, every cut is clean. */
  lemma {:induction false} ShortStepsCutClean(before: string, added: string, stop: seq<string>)
    requires StopFree(before, stop) && forall j :: 0 <= j < |stop| ==> |added| <= |stop[j]|
    ensures !Overtaken(before, added, stop)
  {
    forall j, q | 0 <= j < |stop| && OccursAt(before + added, stop[j], q)
      ensures q + |stop[j]| > |before|
    {
      if q + |stop[j]| <= |before| {
        assert OccursAt(before, stop[j], q);
      }
    }
  }

  /** Whatever the steps, every cut is clean if and only if every listed string contains the one listed first. */
  lemma {:induction false} EveryCutIsCleanIff(stop: seq<string>)
    requires NonemptyStrings(stop) && stop != []
    ensures (forall before, added :: StopFree(before, stop) ==> !Overtaken(before, added, stop))
            <==> forall j :: 0 <= j < |stop| ==> Contains(stop[j], stop[0])
  {
    if forall j :: 0 <= j < |stop| ==> Contains(stop[j], stop[0]) {
      forall before, added | StopFree(before, stop)
        ensures !Overtaken(before, added, stop)
      {
        FirstInAllCutsClean(before, added, stop);
      }
    }
    forall j | 0 <= j < |stop| && !Contains(stop[j], stop[0])
      ensures exists added :: StopFree("", stop) && Overtaken("", added, stop)
    {
      var added := FirstMissingOvertakes(stop, j);
    }
  }

  lemma {:induction false} FirstInAllCutsClean(before: string, added: string, stop: seq<string>)
    requires NonemptyStrings(stop) && stop != [] && StopFree(before, stop)
    requires forall j :: 0 <= j < |stop| ==> Contains(stop[j], stop[0])
    ensures !Overtaken(before, added, stop)
  {
    var text := before + added;
    forall i, p, j, q | CutAt(before, added, stop, i, p) && 0 <= j < |stop| && OccursAt(text, stop[j], q)
      ensures p < q + |stop[j]|
    {
      var k :| OccursAt(stop[j], stop[0], k);
      OccursInside(text, stop[j], q, stop[0], k);
      NewOrOld(before, added, stop[0], q + k);
      assert EndsInLast(text, |added|, stop[0], q + k);
    }
  }

  lemma {:induction false} OccursInside(text: string, s: string, p: int, t: string, q: int)
    requires OccursAt(text, s, p) && OccursAt(s, t, q)
    ensures OccursAt(text, t, p + q)
  {
    forall k | 0 <= k < |t|
      ensures text[p + q..p + q + |t|][k] == t[k]
    {
      assert t[k] == s[q..q + |t|][k] == s[q + k] == text[p..p + |s|][q + k];
    }
  }

  lemma {:induction false} NewOrOld(before: string, added: string, s: string, p: int)
    ensures OccursAt(before + added, s, p) <==> OccursAt(before, s, p) || EndsInLast(before + added, |added|, s, p)
  {
  }

  /** Characters other than the last one of `s` keep `s` from starting in `t`. */
  function Filler(s: string): (w: string)
    requires s != ""
    ensures |w| == |s| && forall k :: 0 <= k < |w| ==> w[k] != s[|s| - 1]
  {
    seq(|s|, _ => if s[|s| - 1] == 'a' then 'b' else 'a')
  }

  lemma {:induction false} FirstMissingOvertakes(stop: seq<string>, j: nat) returns (added: string)
    requires NonemptyStrings(stop) && j < |stop| && !Contains(stop[j], stop[0])
    ensures StopFree("", stop) && Overtaken("", added, stop)
  {
    var p := StartsAfter(stop[j], stop[0]);
    added := stop[j] + Filler(stop[0]) + stop[0];
    assert "" + added == added;
    assert CutAt("", added, stop, 0, p) && OccursAt("" + added, stop[j], 0);
  }

  /** In this text `t` comes first and `s` not before it has ended. */
  lemma {:induction false} StartsAfter(t: string, s: string) returns (p: int)
    requires s != "" && !Contains(t, s)
    ensures var text := t + Filler(s) + s;
            OccursAt(text, t, 0) && FirstNew(text, |text|, s, p) && |t| <= p
  {
    var text := t + Filler(s) + s;
    assert OccursAt(text, s, |t| + |s|);
    p := FindFrom(text, s, 0);
    assert text[p..p + |s|][|s| - 1] == text[p + |s| - 1];
    NewOrOld(t, Filler(s) + s, s, p);
    assert t + (Filler(s) + s) == text;
  }
}
