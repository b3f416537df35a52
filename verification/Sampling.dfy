/** `SamplingParams.__post_init__` (vllm/sampling_params.py): sequence counts, stop strings and output kind. */
module Sampling {
  import opened Prelude
  import opened StopStrings
  import opened Outputs

  datatype StopArgument = NoStop | OneStop(s: string) | Stops(list: seq<string>)
  {
    function List(): seq<string> {
      match this
      case NoStop => []
      case OneStop(s) => [s]
      case Stops(list) => list
    }
  }

  datatype Config = Config(n: int, bestOf: Option<int>, realN: Option<int>, stop: StopArgument, includeStop: bool,
                           detokenize: bool, kind: OutputKind, buffer: int)

  datatype Problem = BestOfBelowN | TooFewSequences | BestOfBelowOne | EmptyStop | StopNeedsText | DeltaNeedsAll

  /** Python's `not x` for an optional integer. */
  predicate Falsy(x: Option<int>) {
    x.None? || x.value == 0
  }

  function Normalized(c: Config): Config {
    var c1 := if !Falsy(c.bestOf) && Falsy(c.realN) then c.(realN := Some(c.n), n := c.bestOf.value) else c;
    var stops := c.stop.List();
    c1.(stop := Stops(stops), buffer := if stops != [] && !c.includeStop then MaxLen(stops) - 1 else c.buffer)
  }

  /** The first check of the arguments that fails, in the order of the source. */
  function FirstProblem(c: Config): Option<Problem> {
    var d := Normalized(c);
    if !Falsy(c.bestOf) && c.bestOf.value < c.n then Some(BestOfBelowN)
    else if d.n < 1 then Some(TooFewSequences)
    else if d.bestOf.Some? && d.bestOf.value < 1 then Some(BestOfBelowOne)
    else if d.bestOf.Some? && d.bestOf.value < d.n then Some(BestOfBelowN)
    else if !NonemptyStrings(d.stop.List()) then Some(EmptyStop)
    else if d.stop.List() != [] && !d.detokenize then Some(StopNeedsText)
    else if d.bestOf != d.realN && d.kind.OnlyDeltas? then Some(DeltaNeedsAll)
    else None
  }

  class SamplingParams {
    var n: int
    var bestOf: Option<int>
    var realN: Option<int>
    var stop: StopArgument
    var includeStopStrInOutput: bool
    var detokenize: bool
    var outputKind: OutputKind
    var outputTextBufferLength: int

    function Value(): Config
      reads this
    {
      Config(n, bestOf, realN, stop, includeStopStrInOutput, detokenize, outputKind, outputTextBufferLength)
    }

    method PostInit() returns (problem: Option<Problem>)
      modifies this
      ensures problem == FirstProblem(old(Value()))
      ensures problem.None? ==> Value() == Normalized(old(Value()))
    {
      if !Falsy(bestOf) {
        if bestOf.value < n {
          return Some(BestOfBelowN);
        }
        if Falsy(realN) {
          realN := Some(n);
          n := bestOf.value;
        }
      }
      var stops := stop.List();
      stop := Stops(stops);
      if stops != [] && !includeStopStrInOutput {
        outputTextBufferLength := MaxLen(stops) - 1;
      }
      problem := VerifyArgs();
    }

    method VerifyArgs() returns (problem: Option<Problem>)
      requires stop.Stops?
      ensures problem ==
              if n < 1 then Some(TooFewSequences)
              else if bestOf.Some? && bestOf.value < 1 then Some(BestOfBelowOne)
              else if bestOf.Some? && bestOf.value < n then Some(BestOfBelowN)
              else if !NonemptyStrings(stop.list) then Some(EmptyStop)
              else if stop.list != [] && !detokenize then Some(StopNeedsText)
              else if bestOf != realN && outputKind.OnlyDeltas? then Some(DeltaNeedsAll)
              else None
    {
      if n < 1 {
        return Some(TooFewSequences);
      }
      if bestOf.Some? {
        if bestOf.value < 1 {
          return Some(BestOfBelowOne);
        }
        if bestOf.value < n {
          return Some(BestOfBelowN);
        }
      }
      for j := 0 to |stop.list|
        invariant forall i :: 0 <= i < j ==> stop.list[i] != ""
      {
        if stop.list[j] == "" {
          return Some(EmptyStop);
        }
      }
      if stop.list != [] && !detokenize {
        return Some(StopNeedsText);
      }
      if bestOf != realN && outputKind.OnlyDeltas? {
        return Some(DeltaNeedsAll);
      }
      problem := None;
    }
  }

  /** Configurations as a caller writes them: the derived fields still at their defaults. */
  predicate AsGiven(c: Config) {
    c.realN.None? && c.buffer == 0
  }

  /** An accepted configuration holds back exactly what `HoldBack` says, streams only when every generated sequence is
      returned, and generates `best_of` sequences, or `n` when that is not given. */
  lemma AcceptedMeans(c: Config)
    requires AsGiven(c) && FirstProblem(c).None?
    ensures var d := Normalized(c);
            && NonemptyStrings(d.stop.List()) && d.buffer == HoldBack(d.stop.List(), d.includeStop)
            && d.n >= 1 && d.n == (if c.bestOf.Some? then c.bestOf.value else c.n)
            && (d.kind.OnlyDeltas? ==> d.realN.None? || (d.realN == Some(d.n) && c.n == d.n))
  {
  }

  /** What is wrong with a configuration as written, said without what `__post_init__` derives from it. A `best_of` of
      zero counts as not given where the number of sequences is decided. */
  predicate Violates(c: Config, p: Problem) {
    var stops := c.stop.List();
    match p
    case BestOfBelowN => c.bestOf.Some? && c.bestOf.value != 0 && c.bestOf.value < c.n
    case TooFewSequences => (if c.bestOf.Some? && c.bestOf.value != 0 then c.bestOf.value else c.n) < 1
    case BestOfBelowOne => c.bestOf.Some? && c.bestOf.value < 1
    case EmptyStop => exists j :: 0 <= j < |stops| && stops[j] == ""
    case StopNeedsText => stops != [] && !c.detokenize
    case DeltaNeedsAll => c.kind.OnlyDeltas? && c.bestOf.Some? && c.bestOf.value != c.n
  }

  /** The place of a check among the checks. */
  function Rank(p: Problem): nat {
    match p
    case BestOfBelowN => 0
    case TooFewSequences => 1
    case BestOfBelowOne => 2
    case EmptyStop => 3
    case StopNeedsText => 4
    case DeltaNeedsAll => 5
  }

  /** A configuration is accepted if and only if nothing is wrong with it, and otherwise the first of the things that
      are wrong is reported. */
  lemma AcceptedIff(c: Config)
    requires AsGiven(c)
    ensures FirstProblem(c).None? <==> forall p :: !Violates(c, p)
    ensures forall p :: FirstProblem(c) == Some(p)
                        <==> Violates(c, p) && forall q :: Violates(c, q) ==> Rank(p) <= Rank(q)
  {
    assert NonemptyStrings(c.stop.List()) <==> !Violates(c, EmptyStop);
    var first := FirstProblem(c);
    assert first.Some? ==> Violates(c, first.value);
    forall p | Violates(c, p)
      ensures first.Some? && Rank(first.value) <= Rank(p)
    {
      match p
      case BestOfBelowN =>
      case _ =>
    }
  }

  /** The "n must be at least 1" check sees the number after `best_of` has replaced it: where a count of one is
      accepted, a smaller one is too if and only if `best_of` is given and the output is not streamed. */
  lemma CountIsCheckedIff(c: Config)
    requires AsGiven(c) && FirstProblem(c.(n := 1)).None? && c.n <= 1
    ensures FirstProblem(c).None? <==> c.n == 1 || (c.bestOf.Some? && !c.kind.OnlyDeltas?)
  {
  }
}
