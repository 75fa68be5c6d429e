/** Whole runs of the control plane: what every reachable state satisfies. */
module ControlRuns {
  import opened Prelude
  import opened StoragePaths
  import opened Commands
  import opened AuditChain
  import opened Ledger
  import opened Dispatcher
  import opened Approvals
  import opened Orchestrator
  import opened ControlSteps
  import R = Runtime

  /** Registration, commands, and the direct facade calls the recovery flows make. */
  datatype Step =
    | RegisterRun(registration: R.Registration)
    | Submit(request: Request)
    | Direct(run: RunScope, transition: R.Transition)
    | DirectClone(run: RunScope, clone: RunScope)

  const EMPTY: Control := Control(map[], map[], Desk(map[], map[], 0))

  function Next(c: Control, s: Step): Control {
    match s
    case RegisterRun(registration) => c.(sessions := R.RegisterRun(c.sessions, registration).0)
    case Submit(request) => Execute(c, request).0
    case Direct(run, transition) => c.(sessions := R.Apply(c.sessions, run, transition).0)
    case DirectClone(run, clone) => c.(sessions := R.CloneRun(c.sessions, run, clone).0)
  }

  function RunAll(c: Control, steps: seq<Step>): Control
    decreases |steps|
  {
    if steps == [] then c else RunAll(Next(c, steps[0]), steps[1..])
  }

  /** The direct mode_switch facade is not part of any flow. */
  predicate Sanctioned(s: Step) {
    !(s.Direct? && s.transition.ToMode?)
  }

  predicate IsCommandStep(s: Step) {
    s.RegisterRun? || s.Submit?
  }

  /** Whether the request gets as far as the gate. */
  predicate Accepted(c: Control, r: Request) {
    RunOf(r.command.scope).Some? && RunOf(r.command.scope).value in c.sessions
  }

  /* ---- one step concerns one run ---- */

  /** The run a step is about. */
  function Subject(s: Step): Option<RunScope> {
    match s
    case RegisterRun(registration) => Some(registration.run)
    case Submit(request) => RunOf(request.command.scope)
    case Direct(run, _) => Some(run)
    case DirectClone(run, _) => Some(run)
  }

  /** A clone starts locked, live and without a rollback target, whatever state its source is in. */
  predicate FreshClone(s: R.Session, run: RunScope, source: Option<RunScope>) {
    && s.registration.run == run && s.mode == OBSERVATION_ONLY && s.lifecycle.Live?
    && s.targetCycle.None? && s.snapshot.None? && s.cloneSource == source
  }

  /** Runs other than the subject keep session, receipt and ledger; the one exception is a session that
      did not exist and is now a fresh clone in observation-only mode. */
  lemma StepIsolation(c: Control, s: Step, other: RunScope)
    requires Subject(s) != Some(other)
    ensures var c' := Next(c, s);
            && c'.LedgerOf(other) == c.LedgerOf(other)
            && (other in c'.receipts <==> other in c.receipts)
            && (other in c.receipts ==> c'.receipts[other] == c.receipts[other])
            && (other in c.sessions ==> other in c'.sessions && c'.sessions[other] == c.sessions[other])
            && (other in c'.sessions && other !in c.sessions ==>
                  FreshClone(c'.sessions[other], other, Subject(s)))
  {
    if s.Submit? {
      SubmitIsolation(c, s.request, other);
      hide Execute;
    }
  }

  lemma SubmitIsolation(c: Control, r: Request, other: RunScope)
    requires RunOf(r.command.scope) != Some(other)
    ensures var c' := Execute(c, r).0;
            && c'.LedgerOf(other) == c.LedgerOf(other)
            && (other in c'.receipts <==> other in c.receipts)
            && (other in c.receipts ==> c'.receipts[other] == c.receipts[other])
            && (other in c.sessions ==> other in c'.sessions && c'.sessions[other] == c.sessions[other])
            && (other in c'.sessions && other !in c.sessions ==>
                  FreshClone(c'.sessions[other], other, RunOf(r.command.scope)))
  {
    hide Execute, ApplyRuntime, AddedEvents;
    if Accepted(c, r) {
      ExecuteClosed(c, r, RunOf(r.command.scope).value);
      RuntimeIsolation(c.sessions, RunOf(r.command.scope).value, r.command, other);
    } else {
      UnacceptedChangesNothing(c, r);
    }
  }

  lemma RuntimeIsolation(ss: R.Sessions, run: RunScope, c: Command, other: RunScope)
    requires other != run
    ensures var ss' := ApplyRuntime(ss, run, c).0;
            && (other in ss ==> other in ss' && ss'[other] == ss[other])
            && (other in ss' && other !in ss ==>
                  FreshClone(ss'[other], other, Some(run)))
  {
  }

  /* ---- the gate ---- */

  /** The runtime obeys only an open gate: a sensitive command changes a session only if the run held an
      active receipt for its scope, mode and mode context. A denied command leaves sessions, receipts and
      approvals alone and records exactly a request and a failure. */
  lemma GateGuardsRuntime(c: Control, r: Request)
    requires IsControl(r.command.action) && Accepted(c, r)
    ensures var run := RunOf(r.command.scope).value;
            var (c', out) := Execute(c, r);
            && (c'.sessions != c.sessions ==> Unlocked(c, run, r.modeContext))
            && (out == Ok(Denied(r.command.action)) <==> !Unlocked(c, run, r.modeContext))
            && (!Unlocked(c, run, r.modeContext) ==>
                  && c'.sessions == c.sessions && c'.receipts == c.receipts && c'.desk.records == c.desk.records
                  && |c'.LedgerOf(run)| == |c.LedgerOf(run)| + 2
                  && c'.LedgerOf(run)[..|c.LedgerOf(run)|] == c.LedgerOf(run)
                  && c'.LedgerOf(run)[|c.LedgerOf(run)|].kind.EvRequested?
                  && c'.LedgerOf(run)[|c.LedgerOf(run)| + 1].kind.EvFailed?)
  {
    ExecuteClosed(c, r, RunOf(r.command.scope).value);
    hide Execute;
  }

  /* ---- the mode is held by a receipt ---- */

  /** A run outside observation-only mode holds the active receipt that put it there. */
  ghost predicate ModeHeldByReceipt(c: Control) {
    forall run :: HeldAt(c, run)
  }

  predicate HeldAt(c: Control, run: RunScope) {
    run in c.sessions ==>
      && c.sessions[run].registration.run == run
      && (c.sessions[run].mode != OBSERVATION_ONLY ==> HoldsReceipt(c, run))
  }

  predicate HoldsReceipt(c: Control, run: RunScope)
    requires run in c.sessions
  {
    && run in c.receipts
    && c.receipts[run].status.Active?
    && c.receipts[run].scope == ScopeOf(run)
    && c.receipts[run].targetMode == c.sessions[run].mode
  }

  lemma AppliedMode(ss: R.Sessions, run: RunScope, c: Command)
    requires run in ss && ss[run].registration.run == run
    ensures var (ss', applied) := ApplyRuntime(ss, run, c);
            && run in ss' && ss'[run].registration.run == run
            && (applied.Ok? ==> applied.value.mode == ss'[run].mode)
            && (c.action.ModeSwitch? ==> applied.Ok? && ss'[run].mode == c.targetMode.value)
            && (!c.action.ModeSwitch? ==> ss'[run].mode == OBSERVATION_ONLY || ss'[run].mode == ss[run].mode)
  {
  }

  lemma SubmitHeldAt(c: Control, r: Request, run: RunScope)
    requires HeldAt(c, run) && RunOf(r.command.scope) == Some(run) && run in c.sessions
    ensures HeldAt(Execute(c, r).0, run)
  {
    hide Execute, ApplyRuntime, AddedEvents;
    ExecuteClosed(c, r, run);
    ScopeOfRun(r.command.scope, run);
    AppliedMode(c.sessions, run, r.command);
  }

  lemma OtherHeldAt(c: Control, s: Step, run: RunScope)
    requires HeldAt(c, run) && Subject(s) != Some(run)
    ensures HeldAt(Next(c, s), run)
  {
    hide Next;
    StepIsolation(c, s, run);
  }

  lemma DirectHeldAt(c: Control, s: Step, run: RunScope)
    requires HeldAt(c, run) && Sanctioned(s) && !s.Submit? && Subject(s) == Some(run)
    ensures HeldAt(Next(c, s), run)
  {
  }

  lemma StepKeepsModeHeld(c: Control, s: Step)
    requires ModeHeldByReceipt(c) && Sanctioned(s)
    ensures ModeHeldByReceipt(Next(c, s))
  {
    forall run ensures HeldAt(Next(c, s), run) {
      hide Execute, HeldAt;
      assert HeldAt(c, run);
      if Subject(s) != Some(run) {
        OtherHeldAt(c, s, run);
      } else if !s.Submit? {
        DirectHeldAt(c, s, run);
      } else if Accepted(c, s.request) {
        SubmitHeldAt(c, s.request, run);
      } else {
        UnacceptedChangesNothing(c, s.request);
      }
    }
  }

  lemma {:induction false} AlwaysModeHeld(c: Control, steps: seq<Step>)
    requires ModeHeldByReceipt(c) && forall i :: 0 <= i < |steps| ==> Sanctioned(steps[i])
    ensures ModeHeldByReceipt(RunAll(c, steps))
    decreases |steps|
  {
    if steps != [] {
      StepKeepsModeHeld(c, steps[0]);
      AlwaysModeHeld(Next(c, steps[0]), steps[1..]);
    }
  }

  /** In every reachable state control is unlocked exactly outside observation-only mode and in the mode
      context the run's receipt was issued for. */
  lemma UnlockedExactly(steps: seq<Step>, run: RunScope, modeContext: Text)
    requires forall i :: 0 <= i < |steps| ==> Sanctioned(steps[i])
    ensures UnlockedIffHeld(RunAll(EMPTY, steps), run, modeContext)
  {
    hide RunAll;
    AlwaysModeHeld(EMPTY, steps);
    UnlockedIffModeHeld(RunAll(EMPTY, steps), run, modeContext);
  }

  predicate UnlockedIffHeld(c: Control, run: RunScope, modeContext: Text) {
    run in c.sessions ==>
      (Unlocked(c, run, modeContext) <==>
         c.sessions[run].mode != OBSERVATION_ONLY && run in c.receipts && c.receipts[run].modeContext == modeContext)
  }

  lemma UnlockedIffModeHeld(c: Control, run: RunScope, modeContext: Text)
    requires ModeHeldByReceipt(c)
    ensures UnlockedIffHeld(c, run, modeContext)
  {
    assert HeldAt(c, run);
  }

  lemma {:induction false} RunAllOneMore(c: Control, steps: seq<Step>, s: Step)
    ensures RunAll(c, steps + [s]) == Next(RunAll(c, steps), s)
    decreases |steps|
  {
    hide Next;
    if steps == [] {
      assert RunAll(c, [s]) == RunAll(Next(c, s), []);
    } else {
      RunAllOneMore(Next(c, steps[0]), steps[1..], s);
      assert (steps + [s])[1..] == steps[1..] + [s];
    }
  }

  /** In every run, wherever a sensitive command changed a session, its run was outside observation-only mode and
      held the active receipt for its scope, that mode and the command's mode context. */
  lemma EveryChangeWasUnlocked(steps: seq<Step>, i: nat)
    requires forall k :: 0 <= k < |steps| ==> Sanctioned(steps[k])
    requires i < |steps| && steps[i].Submit? && IsControl(steps[i].request.command.action)
    ensures var c, r := RunAll(EMPTY, steps[..i]), steps[i].request;
            RunAll(EMPTY, steps[..i + 1]).sessions != c.sessions ==>
              && Accepted(c, r)
              && var run := RunOf(r.command.scope).value;
                 c.sessions[run].mode != OBSERVATION_ONLY && HoldsReceipt(c, run)
                   && c.receipts[run].modeContext == r.modeContext
  {
    hide RunAll, Execute;
    var c, r := RunAll(EMPTY, steps[..i]), steps[i].request;
    assert steps[..i + 1] == steps[..i] + [steps[i]];
    RunAllOneMore(EMPTY, steps[..i], steps[i]);
    if Accepted(c, r) {
      var run := RunOf(r.command.scope).value;
      GateGuardsRuntime(c, r);
      AlwaysModeHeld(EMPTY, steps[..i]);
      assert HeldAt(c, run);
    } else {
      UnacceptedChangesNothing(c, r);
    }
  }

  /* ---- locked until a new mode switch ---- */

  predicate SwitchesMode(s: Step, run: RunScope) {
    s.Submit? && s.request.command.action.ModeSwitch? && RunOf(s.request.command.scope) == Some(run)
  }

  predicate Locked(c: Control, run: RunScope) {
    run in c.sessions && c.sessions[run].mode == OBSERVATION_ONLY
  }

  lemma StepKeepsLocked(c: Control, s: Step, run: RunScope)
    requires Locked(c, run) && Sanctioned(s) && !SwitchesMode(s, run)
    ensures Locked(Next(c, s), run)
  {
    if Subject(s) != Some(run) {
      StepIsolation(c, s, run);
    } else if s.Submit? {
      ExecuteClosed(c, s.request, run);
      hide Execute;
    }
  }

  /** A locked run stays locked, and every sensitive command on it is denied in any mode context, through
      any sequence of steps without a new mode switch of that run. */
  lemma {:induction false} LockedUntilModeSwitch(c: Control, steps: seq<Step>, run: RunScope)
    requires Locked(c, run)
    requires forall i :: 0 <= i < |steps| ==> Sanctioned(steps[i]) && !SwitchesMode(steps[i], run)
    ensures var c' := RunAll(c, steps);
            && Locked(c', run)
            && (forall modeContext :: !Unlocked(c', run, modeContext))
            && (forall r: Request :: IsControl(r.command.action) && RunOf(r.command.scope) == Some(run)
                  ==> Execute(c', r).1 == Ok(Denied(r.command.action)))
    decreases |steps|
  {
    if steps == [] {
      forall r: Request | IsControl(r.command.action) && RunOf(r.command.scope) == Some(run)
        ensures Execute(c, r).1 == Ok(Denied(r.command.action))
      {
        GateGuardsRuntime(c, r);
      }
    } else {
      StepKeepsLocked(c, steps[0], run);
      LockedUntilModeSwitch(Next(c, steps[0]), steps[1..], run);
    }
  }

  /* ---- the ledger grammar ---- */

  predicate HasKinds(b: seq<AuditEvent>, kinds: seq<EventType>) {
    |b| == |kinds| && forall i :: 0 <= i < |b| ==> b[i].kind == kinds[i]
  }

  predicate OneCommand(b: seq<AuditEvent>, run: RunScope) {
    && b != []
    && forall i :: 0 <= i < |b| ==> b[i].commandId == b[0].commandId && b[i].action == b[0].action && b[i].run == run
  }

  /** The complete record of one command: denied, executed, failed, or an approved mode switch. */
  predicate IsBlock(b: seq<AuditEvent>, run: RunScope) {
    && OneCommand(b, run)
    && var a := b[0].action;
       || (HasKinds(b, [EvRequested, EvFailed]) && IsControl(a))
       || (HasKinds(b, [EvRequested, EvStarted, EvCompleted]) && IsControl(a) && !a.Branch?)
       || (HasKinds(b, [EvRequested, EvStarted, EvFailed]) && (a.Observe? || a.Branch? || a.Clone? || a.Rollback?))
       || (HasKinds(b, [EvRequested, EvApprovalRequested, EvApproved, EvStarted, EvCompleted]) && a.ModeSwitch?)
  }

  /** A concatenation of blocks. */
  ghost predicate IsBlocks(events: seq<AuditEvent>, run: RunScope)
    decreases |events|
  {
    events == [] || exists k :: 0 <= k < |events| && IsBlock(events[k..], run) && IsBlocks(events[..k], run)
  }

  lemma AddBlock(events: seq<AuditEvent>, b: seq<AuditEvent>, run: RunScope)
    requires IsBlocks(events, run) && IsBlock(b, run)
    ensures IsBlocks(events + b, run)
  {
    var es := events + b;
    assert es[|events|..] == b && es[..|events|] == events;
  }

  lemma RuntimeRefusals(ss: R.Sessions, run: RunScope, c: Command)
    requires run in ss
    ensures ApplyRuntime(ss, run, c).1.Err? ==>
              c.action.Observe? || c.action.Branch? || c.action.Clone? || c.action.Rollback?
    ensures ApplyRuntime(ss, run, c).1.Ok? ==> !c.action.Observe? && !c.action.Branch?
  {
  }

  lemma AddedIsBlock(c: Control, r: Request, run: RunScope)
    requires RunOf(r.command.scope) == Some(run) && run in c.sessions
    ensures IsBlock(AddedEvents(c, r, run), run)
  {
    hide DeniedEvents, PlainEvents, SwitchEvents, ApplyRuntime, IsBlock;
    RuntimeRefusals(c.sessions, run, r.command);
    var n, applied := c.desk.nextId, ApplyRuntime(c.sessions, run, r.command).1;
    if IsDenied(c, r, run) {
      DeniedIsBlock(n, r, run);
    } else if r.command.action.ModeSwitch? {
      SwitchIsBlock(n, r, run, applied.value);
    } else {
      PlainIsBlock(n, r, run, applied);
    }
  }

  lemma DeniedIsBlock(n: nat, r: Request, run: RunScope)
    requires IsControl(r.command.action)
    ensures IsBlock(DeniedEvents(n, r, run), run)
  {
    hide DenyDetails, DispatchDetails, WithReason;
  }

  lemma PlainIsBlock(n: nat, r: Request, run: RunScope, applied: Result<R.LifecycleReceipt, Error>)
    requires !r.command.action.ModeSwitch?
    requires var a := r.command.action;
             if applied.Ok? then IsControl(a) && !a.Branch? else a.Observe? || a.Branch? || a.Clone? || a.Rollback?
    ensures IsBlock(PlainEvents(n, r, run, applied), run)
  {
    hide CompletedDetails, FailedDetails, DispatchDetails, StartedDetails, WithReason;
  }

  lemma SwitchIsBlock(n: nat, r: Request, run: RunScope, lr: R.LifecycleReceipt)
    requires r.command.action.ModeSwitch?
    ensures IsBlock(SwitchEvents(n, r, run, lr), run)
  {
    hide CompletedDetails, DispatchDetails, StartedDetails, WithReason;
  }

  lemma StepKeepsBlocks(c: Control, s: Step, run: RunScope)
    requires IsBlocks(c.LedgerOf(run), run)
    ensures IsBlocks(Next(c, s).LedgerOf(run), run)
  {
    if s.Submit? && Accepted(c, s.request) && Subject(s) == Some(run) {
      ExecuteClosed(c, s.request, run);
      AddedIsBlock(c, s.request, run);
      AddBlock(c.LedgerOf(run), AddedEvents(c, s.request, run), run);
    } else if s.Submit? {
      if Accepted(c, s.request) { StepIsolation(c, s, run); } else { UnacceptedChangesNothing(c, s.request); }
    }
  }

  /** In every run, whatever is interleaved, each ledger is a sequence of complete command records. */
  lemma {:induction false} LedgerGrammar(c: Control, steps: seq<Step>, run: RunScope)
    requires IsBlocks(c.LedgerOf(run), run)
    ensures IsBlocks(RunAll(c, steps).LedgerOf(run), run)
    decreases |steps|
  {
    if steps != [] {
      StepKeepsBlocks(c, steps[0], run);
      LedgerGrammar(Next(c, steps[0]), steps[1..], run);
    }
  }
}
