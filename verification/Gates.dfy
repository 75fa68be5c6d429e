/** evaluation/gates.py: stop conditions and the accept / reject / stop decision of one cycle. */
module Gates {
  import opened Prelude

  const REPEATED_CRASH_THRESHOLD := 3
  const RESOURCE_OVERUSE_THRESHOLD_PERCENT: real := 90.0
  const RESOURCE_OVERUSE_SAMPLE_COUNT := 3
  const LOG_SILENCE_THRESHOLD_SECONDS := 60

  datatype StopCode =
    | ForbiddenActionAttempt | ResourceOveruse | LogSilence | RepeatedCrashes | SyntaxFailure | RegressionScoreDrop

  /** What the formatted detail text is made from. */
  datatype StopDetail = Tools(ids: seq<string>) | Scores(score: real, baseline: real) | Fixed

  datatype StopCondition = StopCondition(code: StopCode, detail: StopDetail)

  datatype GateFailure = CycleExecution | RequiredTests

  datatype Decision = Accepted | Rejected | Stopped

  datatype CycleInput = CycleInput(cycleId: Text, requestedTools: seq<string>, syntaxOk: bool, testsOk: bool,
                                   crashed: bool, score: real, cpu: seq<real>, memory: seq<real>,
                                   limitBreached: bool, logSilence: int, heartbeatSilence: int)

  datatype Evaluation = Evaluation(decision: Decision, failedGates: seq<GateFailure>, stops: seq<StopCondition>)
  {
    predicate IsAccepted() {
      decision.Accepted?
    }
  }

  /** Three consecutive samples above the threshold, ending at index i. */
  predicate OverusedAt(samples: seq<real>, i: nat) {
    RESOURCE_OVERUSE_SAMPLE_COUNT - 1 <= i < |samples|
    && forall k :: i - RESOURCE_OVERUSE_SAMPLE_COUNT < k <= i ==> samples[k] > RESOURCE_OVERUSE_THRESHOLD_PERCENT
  }

  predicate SustainedOveruse(samples: seq<real>) {
    exists i :: 0 <= i < |samples| && OverusedAt(samples, i)
  }

  predicate Overuse(c: CycleInput) {
    c.limitBreached || SustainedOveruse(c.cpu) || SustainedOveruse(c.memory)
  }

  function Max(a: int, b: int): int {
    if a >= b then a else b
  }

  /** Whether the cycle shows the condition, given the baseline and the crash streak before it. */
  predicate Shows(code: StopCode, c: CycleInput, baseline: Option<real>, crashes: nat, forbidden: seq<string>) {
    match code
    case ForbiddenActionAttempt => forbidden != []
    case ResourceOveruse => Overuse(c)
    case LogSilence => Max(c.logSilence, c.heartbeatSilence) >= LOG_SILENCE_THRESHOLD_SECONDS
    case RepeatedCrashes => c.crashed && crashes + 1 >= REPEATED_CRASH_THRESHOLD
    case SyntaxFailure => !c.syntaxOk
    case RegressionScoreDrop => baseline.Some? && c.score < baseline.value
  }

  function DetailOf(code: StopCode, c: CycleInput, baseline: Option<real>, forbidden: seq<string>): StopDetail {
    if code.ForbiddenActionAttempt? then Tools(forbidden)
    else if code.RegressionScoreDrop? && baseline.Some? then Scores(c.score, baseline.value)
    else Fixed
  }

  const CODES: seq<StopCode> :=
    [ForbiddenActionAttempt, ResourceOveruse, LogSilence, RepeatedCrashes, SyntaxFailure, RegressionScoreDrop]

  /** The conditions that hold among the first n codes, in that order. */
  function StopsUpTo(n: nat, c: CycleInput, baseline: Option<real>, crashes: nat, forbidden: seq<string>):
    seq<StopCondition>
    requires n <= |CODES|
  {
    if n == 0 then []
    else
      var before := StopsUpTo(n - 1, c, baseline, crashes, forbidden);
      var code := CODES[n - 1];
      if Shows(code, c, baseline, crashes, forbidden)
      then before + [StopCondition(code, DetailOf(code, c, baseline, forbidden))] else before
  }

  function StopConditions(c: CycleInput, baseline: Option<real>, crashes: nat, forbidden: seq<string>):
    seq<StopCondition> {
    StopsUpTo(|CODES|, c, baseline, crashes, forbidden)
  }

  function FailedGates(c: CycleInput): seq<GateFailure> {
    (if c.crashed then [CycleExecution] else []) + (if c.testsOk then [] else [RequiredTests])
  }

  function Evaluate(c: CycleInput, baseline: Option<real>, crashes: nat, forbidden: seq<string>): Evaluation {
    var stops := StopConditions(c, baseline, crashes, forbidden);
    if stops != [] then Evaluation(Stopped, [], stops)
    else if FailedGates(c) != [] then Evaluation(Rejected, FailedGates(c), [])
    else Evaluation(Accepted, [], [])
  }

  lemma {:induction false} ReportedUpTo(n: nat, code: StopCode, c: CycleInput, baseline: Option<real>, crashes: nat,
                                        forbidden: seq<string>)
    requires n <= |CODES|
    ensures (exists s :: s in StopsUpTo(n, c, baseline, crashes, forbidden) && s.code == code)
            <==> code in CODES[..n] && Shows(code, c, baseline, crashes, forbidden)
  {
    if n > 0 {
      ReportedUpTo(n - 1, code, c, baseline, crashes, forbidden);
      assert CODES[..n] == CODES[..n - 1] + [CODES[n - 1]];
      var before, all := StopsUpTo(n - 1, c, baseline, crashes, forbidden),
        StopsUpTo(n, c, baseline, crashes, forbidden);
      if Shows(CODES[n - 1], c, baseline, crashes, forbidden) {
        assert all[|all| - 1] in all;
        assert forall s :: s in before ==> s in all;
      }
    }
  }

  /** A condition is reported exactly when the cycle shows it. */
  lemma ReportedIffShown(code: StopCode, c: CycleInput, baseline: Option<real>, crashes: nat, forbidden: seq<string>)
    ensures (exists s :: s in StopConditions(c, baseline, crashes, forbidden) && s.code == code)
            <==> Shows(code, c, baseline, crashes, forbidden)
  {
    ReportedUpTo(|CODES|, code, c, baseline, crashes, forbidden);
    assert CODES[..|CODES|] == CODES;
    assert CODES[0] == ForbiddenActionAttempt && CODES[1] == ResourceOveruse && CODES[2] == LogSilence
           && CODES[3] == RepeatedCrashes && CODES[4] == SyntaxFailure && CODES[5] == RegressionScoreDrop;
  }

  /** A cycle is accepted exactly when nothing at all is wrong with it. */
  lemma AcceptedIffClean(c: CycleInput, baseline: Option<real>, crashes: nat, forbidden: seq<string>)
    ensures Evaluate(c, baseline, crashes, forbidden).IsAccepted()
            <==> forbidden == [] && !Overuse(c) && Max(c.logSilence, c.heartbeatSilence) < LOG_SILENCE_THRESHOLD_SECONDS
                 && !c.crashed && c.syntaxOk && c.testsOk && (baseline.None? || c.score >= baseline.value)
  {
    var stops := StopConditions(c, baseline, crashes, forbidden);
    forall code: StopCode { ReportedIffShown(code, c, baseline, crashes, forbidden); }
    if stops != [] {
      assert stops[0] in stops;
      assert Shows(stops[0].code, c, baseline, crashes, forbidden);
    }
    assert forall code :: Shows(code, c, baseline, crashes, forbidden) ==> stops != [];
    assert forbidden == [] <==> !Shows(ForbiddenActionAttempt, c, baseline, crashes, forbidden);
    assert Overuse(c) <==> Shows(ResourceOveruse, c, baseline, crashes, forbidden);
    assert c.syntaxOk <==> !Shows(SyntaxFailure, c, baseline, crashes, forbidden);
    assert Max(c.logSilence, c.heartbeatSilence) >= LOG_SILENCE_THRESHOLD_SECONDS
      <==> Shows(LogSilence, c, baseline, crashes, forbidden);
    assert baseline.Some? && c.score < baseline.value <==> Shows(RegressionScoreDrop, c, baseline, crashes, forbidden);
  }

  /** Place in the order in which conditions are reported. */
  function Rank(code: StopCode): nat {
    match code
    case ForbiddenActionAttempt => 0
    case ResourceOveruse => 1
    case LogSilence => 2
    case RepeatedCrashes => 3
    case SyntaxFailure => 4
    case RegressionScoreDrop => 5
  }

  lemma CodesRanked(i: nat)
    requires i < |CODES|
    ensures Rank(CODES[i]) == i
  {
    assert CODES[0] == ForbiddenActionAttempt && CODES[1] == ResourceOveruse && CODES[2] == LogSilence
           && CODES[3] == RepeatedCrashes && CODES[4] == SyntaxFailure && CODES[5] == RegressionScoreDrop;
  }

  /** Stops come in order, one per condition. */
  ghost predicate InRankOrder(stops: seq<StopCondition>) {
    forall i, j :: 0 <= i < j < |stops| ==> Rank(stops[i].code) < Rank(stops[j].code)
  }

  lemma {:induction false} StopsInOrder(n: nat, c: CycleInput, baseline: Option<real>, crashes: nat,
                                        forbidden: seq<string>)
    requires n <= |CODES|
    ensures var stops := StopsUpTo(n, c, baseline, crashes, forbidden);
            && InRankOrder(stops)
            && (forall i :: 0 <= i < |stops| ==>
                  && Rank(stops[i].code) < n
                  && stops[i].detail == DetailOf(stops[i].code, c, baseline, forbidden))
  {
    if n > 0 {
      StopsInOrder(n - 1, c, baseline, crashes, forbidden);
      CodesRanked(n - 1);
    }
  }

  class GateEvaluator {
    constructor () { }

    /** _has_sustained_overuse */
    method HasSustainedOveruse(samples: seq<real>) returns (overused: bool)
      ensures overused <==> SustainedOveruse(samples)
    {
      var sustained := 0;
      for i := 0 to |samples|
        invariant 0 <= sustained < RESOURCE_OVERUSE_SAMPLE_COUNT && sustained <= i
        invariant forall k :: i - sustained <= k < i ==> samples[k] > RESOURCE_OVERUSE_THRESHOLD_PERCENT
        invariant sustained < i && sustained < RESOURCE_OVERUSE_SAMPLE_COUNT
                  ==> samples[i - sustained - 1] <= RESOURCE_OVERUSE_THRESHOLD_PERCENT
        invariant forall k :: 0 <= k < i ==> !OverusedAt(samples, k)
      {
        if samples[i] > RESOURCE_OVERUSE_THRESHOLD_PERCENT {
          sustained := sustained + 1;
          if sustained >= RESOURCE_OVERUSE_SAMPLE_COUNT {
            assert OverusedAt(samples, i);
            return true;
          }
        } else {
          sustained := 0;
        }
      }
      return false;
    }

    /** _detect_stop_conditions */
    method DetectStopConditions(c: CycleInput, baseline: Option<real>, crashes: nat, forbidden: seq<string>)
      returns (stops: seq<StopCondition>)
      ensures stops == StopConditions(c, baseline, crashes, forbidden)
    {
      stops := [];
      if forbidden != [] {
        stops := stops + [StopCondition(ForbiddenActionAttempt, Tools(forbidden))];
      }
      assert stops == StopsUpTo(1, c, baseline, crashes, forbidden);
      var cpu := HasSustainedOveruse(c.cpu);
      var memory := HasSustainedOveruse(c.memory);
      if c.limitBreached || cpu || memory {
        stops := stops + [StopCondition(ResourceOveruse, Fixed)];
      }
      assert stops == StopsUpTo(2, c, baseline, crashes, forbidden);
      if Max(c.logSilence, c.heartbeatSilence) >= LOG_SILENCE_THRESHOLD_SECONDS {
        stops := stops + [StopCondition(LogSilence, Fixed)];
      }
      assert stops == StopsUpTo(3, c, baseline, crashes, forbidden);
      if c.crashed && crashes + 1 >= REPEATED_CRASH_THRESHOLD {
        stops := stops + [StopCondition(RepeatedCrashes, Fixed)];
      }
      assert stops == StopsUpTo(4, c, baseline, crashes, forbidden);
      if !c.syntaxOk {
        stops := stops + [StopCondition(SyntaxFailure, Fixed)];
      }
      assert stops == StopsUpTo(5, c, baseline, crashes, forbidden);
      if baseline.Some? && c.score < baseline.value {
        stops := stops + [StopCondition(RegressionScoreDrop, Scores(c.score, baseline.value))];
      }
    }

    method EvaluateCycle(c: CycleInput, baseline: Option<real>, crashes: nat, forbidden: seq<string>)
      returns (e: Evaluation)
      ensures e == Evaluate(c, baseline, crashes, forbidden)
    {
      var stops := DetectStopConditions(c, baseline, crashes, forbidden);
      if stops != [] {
        return Evaluation(Stopped, [], stops);
      }
      var failed: seq<GateFailure> := [];
      if c.crashed {
        failed := failed + [CycleExecution];
      }
      if !c.testsOk {
        failed := failed + [RequiredTests];
      }
      if failed != [] {
        return Evaluation(Rejected, failed, []);
      }
      return Evaluation(Accepted, [], []);
    }
  }
}
