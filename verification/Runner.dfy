/** agent/runner.py: a run is a fold of cycles over a context. */
module Runner {
  import opened Prelude
  import opened Gates

  datatype PersistedStop = PersistedStop(cycleId: Text, code: StopCode, detail: StopDetail)

  datatype RunnerContext = RunnerContext(allowedTools: set<string>, baseline: Option<real>, crashes: nat,
                                         stableCount: nat, stableTarget: nat, persisted: seq<PersistedStop>)

  datatype RunnerResult = RunnerResult(evaluation: Evaluation, milestoneReached: bool, next: RunnerContext)

  /** The requested tools that are not allowed, in order. */
  function ForbiddenTools(requested: seq<string>, allowed: set<string>): seq<string> {
    if requested == [] then []
    else (if requested[0] in allowed then [] else [requested[0]]) + ForbiddenTools(requested[1..], allowed)
  }

  function Persist(cycleId: Text, stops: seq<StopCondition>): (r: seq<PersistedStop>)
    ensures |r| == |stops|
  {
    seq(|stops|, i requires 0 <= i < |stops| => PersistedStop(cycleId, stops[i].code, stops[i].detail))
  }

  /** _build_next_context */
  function NextContext(c: CycleInput, ctx: RunnerContext, e: Evaluation): RunnerContext {
    ctx.(baseline := if e.IsAccepted() then Some(c.score) else ctx.baseline,
         crashes := if c.crashed then ctx.crashes + 1 else 0,
         stableCount := ctx.stableCount + (if e.IsAccepted() then 1 else 0),
         persisted := ctx.persisted + Persist(c.cycleId, e.stops))
  }

  function RunCycle(c: CycleInput, ctx: RunnerContext): RunnerResult {
    var e := Evaluate(c, ctx.baseline, ctx.crashes, ForbiddenTools(c.requestedTools, ctx.allowedTools));
    var next := NextContext(c, ctx, e);
    RunnerResult(e, next.stableCount >= next.stableTarget, next)
  }

  /** The context after a sequence of cycles. */
  function RunCycles(ctx: RunnerContext, cycles: seq<CycleInput>): RunnerContext {
    if cycles == [] then ctx
    else RunCycle(cycles[|cycles| - 1], RunCycles(ctx, cycles[..|cycles| - 1])).next
  }

  /** The result of the last cycle of a nonempty sequence. */
  function LastResult(ctx: RunnerContext, cycles: seq<CycleInput>): RunnerResult
    requires cycles != []
  {
    RunCycle(cycles[|cycles| - 1], RunCycles(ctx, cycles[..|cycles| - 1]))
  }

  /** The scores of the accepted cycles, in order. */
  function AcceptedScores(ctx: RunnerContext, cycles: seq<CycleInput>): seq<real> {
    if cycles == [] then []
    else
      var before := AcceptedScores(ctx, cycles[..|cycles| - 1]);
      if LastResult(ctx, cycles).evaluation.IsAccepted() then before + [cycles[|cycles| - 1].score] else before
  }

  /** Every cycle's stops, in order. */
  function AllStops(ctx: RunnerContext, cycles: seq<CycleInput>): seq<PersistedStop> {
    if cycles == [] then []
    else
      AllStops(ctx, cycles[..|cycles| - 1])
      + Persist(cycles[|cycles| - 1].cycleId, LastResult(ctx, cycles).evaluation.stops)
  }

  /** How many cycles at the end crashed one after the other. */
  function TrailingCrashes(cycles: seq<CycleInput>): nat {
    if cycles == [] || !cycles[|cycles| - 1].crashed then 0 else 1 + TrailingCrashes(cycles[..|cycles| - 1])
  }

  /** m is the largest of the initial baseline, if any, and the scores. */
  ghost predicate IsMaximum(m: Option<real>, initial: Option<real>, scores: seq<real>) {
    && (m.None? <==> initial.None? && scores == [])
    && (m.Some? ==>
          && (initial == m || m.value in scores)
          && (initial.Some? ==> initial.value <= m.value)
          && (forall s :: s in scores ==> s <= m.value))
  }

  /* ---- one cycle, in plain terms ---- */

  /** How many of the first n requested tools are not allowed. */
  function NotAllowed<T(==)>(requested: seq<T>, allowed: set<T>, n: nat): (r: nat)
    requires n <= |requested|
    ensures r <= n
  {
    if n == 0 then 0
    else NotAllowed(requested, allowed, n - 1) + if requested[n - 1] in allowed then 0 else 1
  }

  /** ids are the requested tools that are not allowed, in the order of the request: each stands behind just those that
      were requested before it. */
  ghost predicate ListsForbidden<T>(ids: seq<T>, requested: seq<T>, allowed: set<T>) {
    && |ids| == NotAllowed(requested, allowed, |requested|)
    && (forall i :: 0 <= i < |requested| && requested[i] !in allowed ==>
          NotAllowed(requested, allowed, i) < |ids| && ids[NotAllowed(requested, allowed, i)] == requested[i])
  }

  lemma {:induction false} NotAllowedPrefix<T>(requested: seq<T>, all: seq<T>, allowed: set<T>, n: nat)
    requires n <= |requested| <= |all| && forall i :: 0 <= i < |requested| ==> all[i] == requested[i]
    ensures NotAllowed(all, allowed, n) == NotAllowed(requested, allowed, n)
  {
    if n > 0 { NotAllowedPrefix(requested, all, allowed, n - 1); }
  }

  lemma {:induction false} ForbiddenToolsStep(requested: seq<string>, tool: string, allowed: set<string>)
    ensures ForbiddenTools(requested + [tool], allowed)
            == ForbiddenTools(requested, allowed) + (if tool in allowed then [] else [tool])
    decreases |requested|
  {
    if requested == [] {
      assert [tool][1..] == [] && [] + [tool] == [tool];
    } else {
      var last: seq<string> := if tool in allowed then [] else [tool];
      ForbiddenToolsStep(requested[1..], tool, allowed);
      assert (requested + [tool])[1..] == requested[1..] + [tool];
      var first: seq<string> := if requested[0] in allowed then [] else [requested[0]];
      var rest := ForbiddenTools(requested[1..], allowed);
      assert first + (rest + last) == first + rest + last;
    }
  }

  lemma {:induction false} ForbiddenToolsListed(requested: seq<string>, allowed: set<string>)
    ensures ListsForbidden(ForbiddenTools(requested, allowed), requested, allowed)
    ensures ForbiddenTools(requested, allowed) == [] <==> forall tool :: tool in requested ==> tool in allowed
    decreases |requested|
  {
    hide ListsForbidden;
    if requested == [] {
      NothingForbidden(allowed);
    } else {
      var front, last := requested[..|requested| - 1], requested[|requested| - 1];
      assert requested == front + [last];
      ForbiddenToolsListed(front, allowed);
      ForbiddenToolsStep(front, last, allowed);
      OneMoreTool(ForbiddenTools(front, allowed), front, last, allowed);
    }
  }

  lemma NothingForbidden<T>(allowed: set<T>)
    ensures ListsForbidden([], [], allowed)
  {
  }

  lemma OneMoreTool<T>(ids: seq<T>, requested: seq<T>, tool: T, allowed: set<T>)
    requires ListsForbidden(ids, requested, allowed)
    ensures ListsForbidden(ids + (if tool in allowed then [] else [tool]), requested + [tool], allowed)
  {
    hide ListsForbidden, NotAllowed;
    if tool in allowed {
      assert ids + [] == ids;
      ToolListed(ids, ids, requested, requested + [tool], allowed);
    } else {
      ToolListed(ids, ids + [tool], requested, requested + [tool], allowed);
    }
  }

  lemma ToolListed<T>(ids: seq<T>, more: seq<T>, requested: seq<T>, all: seq<T>, allowed: set<T>)
    requires ListsForbidden(ids, requested, allowed)
    requires |all| == |requested| + 1 && forall i :: 0 <= i < |requested| ==> all[i] == requested[i]
    requires |more| == |ids| + (if all[|requested|] in allowed then 0 else 1)
    requires forall k :: 0 <= k < |ids| ==> more[k] == ids[k]
    requires all[|requested|] !in allowed ==> more[|ids|] == all[|requested|]
    ensures ListsForbidden(more, all, allowed)
  {
    hide NotAllowed;
    var n := |requested|;
    LastNotAllowed(all, allowed, n);
    NotAllowedPrefix(requested, all, allowed, n);
    forall i | 0 <= i < n && all[i] !in allowed
      ensures NotAllowed(all, allowed, i) < |ids| && more[NotAllowed(all, allowed, i)] == all[i]
    {
      NotAllowedPrefix(requested, all, allowed, i);
    }
  }

  lemma LastNotAllowed<T>(requested: seq<T>, allowed: set<T>, n: nat)
    requires n < |requested|
    ensures NotAllowed(requested, allowed, n + 1)
            == NotAllowed(requested, allowed, n) + if requested[n] in allowed then 0 else 1
  {
  }

  /** Three samples in a row above ninety. */
  predicate Overloaded(samples: seq<real>) {
    exists i :: 0 <= i < |samples| - 2 && samples[i] > 90.0 && samples[i + 1] > 90.0 && samples[i + 2] > 90.0
  }

  lemma OverloadedIsOveruse(samples: seq<real>)
    ensures SustainedOveruse(samples) <==> Overloaded(samples)
  {
    if SustainedOveruse(samples) {
      var i :| 0 <= i < |samples| && OverusedAt(samples, i);
      assert samples[i - 2] > 90.0 && samples[i - 2 + 1] > 90.0 && samples[i - 2 + 2] > 90.0;
    }
    if Overloaded(samples) {
      var i :| 0 <= i < |samples| - 2 && samples[i] > 90.0 && samples[i + 1] > 90.0 && samples[i + 2] > 90.0;
      assert OverusedAt(samples, i + 2);
    }
  }

  /** What stops a cycle. */
  ghost predicate Stops(code: StopCode, c: CycleInput, ctx: RunnerContext) {
    match code
    case ForbiddenActionAttempt => exists tool :: tool in c.requestedTools && tool !in ctx.allowedTools
    case ResourceOveruse => c.limitBreached || Overloaded(c.cpu) || Overloaded(c.memory)
    case LogSilence => c.logSilence >= 60 || c.heartbeatSilence >= 60
    case RepeatedCrashes => c.crashed && ctx.crashes >= 2
    case SyntaxFailure => !c.syntaxOk
    case RegressionScoreDrop => ctx.baseline.Some? && c.score < ctx.baseline.value
  }

  lemma ShowsIffStops(code: StopCode, c: CycleInput, ctx: RunnerContext)
    ensures Shows(code, c, ctx.baseline, ctx.crashes, ForbiddenTools(c.requestedTools, ctx.allowedTools))
            <==> Stops(code, c, ctx)
  {
    ForbiddenToolsListed(c.requestedTools, ctx.allowedTools);
    OverloadedIsOveruse(c.cpu);
    OverloadedIsOveruse(c.memory);
  }

  /** One cycle is stopped exactly when one of the six conditions holds, each reported once, in a fixed order, the
      forbidden tools by name and a drop by its scores; otherwise it is rejected exactly when it crashed or failed its
      tests, and names which; otherwise it is accepted. */
  lemma RunCycleExact(c: CycleInput, ctx: RunnerContext)
    ensures var e := RunCycle(c, ctx).evaluation;
            && (forall code :: (exists s :: s in e.stops && s.code == code) <==> Stops(code, c, ctx))
            && InRankOrder(e.stops)
            && (forall s :: s in e.stops ==>
                  match s.code
                  case ForbiddenActionAttempt =>
                    s.detail.Tools? && ListsForbidden(s.detail.ids, c.requestedTools, ctx.allowedTools)
                  case RegressionScoreDrop => ctx.baseline.Some? && s.detail == Scores(c.score, ctx.baseline.value)
                  case _ => s.detail == Fixed)
            && (e.decision == if exists code :: Stops(code, c, ctx) then Stopped
                              else if c.crashed || !c.testsOk then Rejected else Accepted)
            && (e.failedGates == if !e.decision.Rejected? then []
                                 else if !c.crashed then [RequiredTests]
                                 else if c.testsOk then [CycleExecution] else [CycleExecution, RequiredTests])
  {
    hide ForbiddenTools, StopsUpTo, Shows, Stops, ListsForbidden, InRankOrder;
    var forbidden := ForbiddenTools(c.requestedTools, ctx.allowedTools);
    var stops := StopConditions(c, ctx.baseline, ctx.crashes, forbidden);
    ForbiddenToolsListed(c.requestedTools, ctx.allowedTools);
    StopsInOrder(|CODES|, c, ctx.baseline, ctx.crashes, forbidden);
    forall code: StopCode ensures (exists s :: s in stops && s.code == code) <==> Stops(code, c, ctx) {
      ReportedIffShown(code, c, ctx.baseline, ctx.crashes, forbidden);
      ShowsIffStops(code, c, ctx);
    }
    forall s | s in stops && s.code.RegressionScoreDrop? ensures ctx.baseline.Some? {
      assert Stops(RegressionScoreDrop, c, ctx);
      DropHasBaseline(c, ctx);
    }
    if stops != [] {
      assert stops[0] in stops;
      assert Stops(stops[0].code, c, ctx);
    }
  }

  lemma DropHasBaseline(c: CycleInput, ctx: RunnerContext)
    requires Stops(RegressionScoreDrop, c, ctx)
    ensures ctx.baseline.Some?
  {
  }

  /** A cycle is accepted exactly when every tool it asks for is allowed and nothing else is wrong with it. What it
      leaves: an accepted score becomes the baseline and counts as stable, a crash is counted, its stops are persisted
      under its id, and the milestone is reached exactly when the stable cycles, it included, reach the target. */
  lemma CycleAcceptedExactly(c: CycleInput, ctx: RunnerContext)
    ensures var r := RunCycle(c, ctx);
            var accepted := r.evaluation.IsAccepted();
            && (accepted <==>
                  && (forall tool :: tool in c.requestedTools ==> tool in ctx.allowedTools)
                  && !c.limitBreached && !Overloaded(c.cpu) && !Overloaded(c.memory)
                  && c.logSilence < 60 && c.heartbeatSilence < 60
                  && c.syntaxOk && c.testsOk && !c.crashed
                  && (ctx.baseline.Some? ==> c.score >= ctx.baseline.value))
            && r.next.baseline == (if accepted then Some(c.score) else ctx.baseline)
            && r.next.stableCount == (if accepted then ctx.stableCount + 1 else ctx.stableCount)
            && r.next.crashes == (if c.crashed then ctx.crashes + 1 else 0)
            && (r.milestoneReached <==> r.next.stableCount >= ctx.stableTarget)
            && ctx.persisted <= r.next.persisted
            && |r.next.persisted| == |ctx.persisted| + |r.evaluation.stops|
            && (forall i :: 0 <= i < |r.evaluation.stops| ==>
                  r.next.persisted[|ctx.persisted| + i]
                  == PersistedStop(c.cycleId, r.evaluation.stops[i].code, r.evaluation.stops[i].detail))
            && r.next.allowedTools == ctx.allowedTools && r.next.stableTarget == ctx.stableTarget
  {
    hide Evaluate, ForbiddenTools;
    RunCycleExact(c, ctx);
    assert Stops(ForbiddenActionAttempt, c, ctx)
      <==> !(forall tool :: tool in c.requestedTools ==> tool in ctx.allowedTools);
    assert Stops(ResourceOveruse, c, ctx) <==> c.limitBreached || Overloaded(c.cpu) || Overloaded(c.memory);
    assert Stops(LogSilence, c, ctx) <==> c.logSilence >= 60 || c.heartbeatSilence >= 60;
    assert Stops(SyntaxFailure, c, ctx) <==> !c.syntaxOk;
    assert Stops(RegressionScoreDrop, c, ctx) <==> ctx.baseline.Some? && c.score < ctx.baseline.value;
    assert Stops(RepeatedCrashes, c, ctx) ==> c.crashed;
  }

  /* ---- many cycles ---- */

  /** Over any sequence of cycles the baseline is the last accepted score and at the same time the
      maximum of the initial baseline and every accepted score; the stable count counts the accepted
      cycles; the persisted stops are every cycle's stops, in order. */
  lemma {:induction false} RunCyclesExact(ctx: RunnerContext, cycles: seq<CycleInput>)
    ensures var final := RunCycles(ctx, cycles);
            var scores := AcceptedScores(ctx, cycles);
            && final.baseline == (if scores == [] then ctx.baseline else Some(scores[|scores| - 1]))
            && IsMaximum(final.baseline, ctx.baseline, scores)
            && final.stableCount == ctx.stableCount + |scores|
            && final.persisted == ctx.persisted + AllStops(ctx, cycles)
            && final.allowedTools == ctx.allowedTools && final.stableTarget == ctx.stableTarget
  {
    if cycles == [] {
      assert ctx.persisted + [] == ctx.persisted;
    } else {
      var front, c := cycles[..|cycles| - 1], cycles[|cycles| - 1];
      RunCyclesExact(ctx, front);
      var before := RunCycles(ctx, front);
      AcceptedIffClean(c, before.baseline, before.crashes, ForbiddenTools(c.requestedTools, before.allowedTools));
      assert ctx.persisted + AllStops(ctx, cycles)
          == ctx.persisted + AllStops(ctx, front) + Persist(c.cycleId, LastResult(ctx, cycles).evaluation.stops);
      hide Evaluate;
    }
  }

  /** Running on from a prefix. */
  lemma {:induction false} RunCyclesAppend(ctx: RunnerContext, a: seq<CycleInput>, b: seq<CycleInput>)
    ensures RunCycles(ctx, a + b) == RunCycles(RunCycles(ctx, a), b)
    decreases |b|
  {
    if b == [] {
      assert a + b == a;
    } else {
      assert (a + b)[..|a + b| - 1] == a + b[..|b| - 1];
      RunCyclesAppend(ctx, a, b[..|b| - 1]);
    }
  }

  /** As cycles are added the baseline never falls, the stable count never falls, a reached milestone stays
      reached, and recorded stops stay recorded. */
  lemma ProgressIsKept(ctx: RunnerContext, a: seq<CycleInput>, b: seq<CycleInput>)
    ensures var mid, final := RunCycles(ctx, a), RunCycles(ctx, a + b);
            && (mid.baseline.Some? ==> final.baseline.Some? && mid.baseline.value <= final.baseline.value)
            && mid.stableCount <= final.stableCount
            && (mid.stableCount >= mid.stableTarget ==> final.stableCount >= final.stableTarget)
            && mid.persisted <= final.persisted
  {
    RunCyclesAppend(ctx, a, b);
    RunCyclesExact(RunCycles(ctx, a), b);
  }

  /** From a zero counter, the crash counter is the length of the trailing block of crashed cycles. */
  lemma {:induction false} CrashCounterIsTrailingBlock(ctx: RunnerContext, cycles: seq<CycleInput>)
    requires ctx.crashes == 0
    ensures RunCycles(ctx, cycles).crashes == TrailingCrashes(cycles)
  {
    if cycles != [] {
      CrashCounterIsTrailingBlock(ctx, cycles[..|cycles| - 1]);
    }
  }

  /** Repeated crashes are reported for a cycle exactly when it ends at least three crashes in a row. */
  lemma RepeatedCrashesExact(ctx: RunnerContext, cycles: seq<CycleInput>)
    requires ctx.crashes == 0 && cycles != []
    ensures (exists s :: s in LastResult(ctx, cycles).evaluation.stops && s.code == RepeatedCrashes)
            <==> TrailingCrashes(cycles) >= REPEATED_CRASH_THRESHOLD
  {
    var front, c := cycles[..|cycles| - 1], cycles[|cycles| - 1];
    var before := RunCycles(ctx, front);
    CrashCounterIsTrailingBlock(ctx, front);
    ReportedIffShown(RepeatedCrashes, c, before.baseline, before.crashes,
                     ForbiddenTools(c.requestedTools, before.allowedTools));
  }
}
