/** What commands do, in plain terms: to the session, to the receipts, to the ledger, and what they return. */
module ControlEffects {
  import opened Prelude
  import opened StoragePaths
  import opened Commands
  import opened AuditChain
  import opened Ledger
  import opened Approvals
  import opened Resolutions
  import opened Orchestrator
  import opened ControlSteps
  import opened ControlRuns
  import R = Runtime

  /** The gate lets the command through to its run. */
  predicate GoesThrough(c: Control, r: Request, run: RunScope) {
    && r.command.scope == CommandScope(run.projectId, run.glassboxId, Some(run.experimentId), Some(run.runId))
    && run in c.sessions
    && (r.command.action in {Observe, ModeSwitch}
        || (c.sessions[run].mode != "observation-only"
            && run in c.receipts && c.receipts[run].status == Active && c.receipts[run].scope == r.command.scope
            && c.receipts[run].modeContext == r.modeContext && c.receipts[run].targetMode == c.sessions[run].mode))
  }

  /** The run a clone command asks for, if its id is valid and names no session. */
  function CloneTarget(c: Control, r: Request, run: RunScope): Option<RunScope> {
    var id := r.command.cloneRunId;
    if id.Some? && IsSegment(id.value)
       && RunScope(run.projectId, run.glassboxId, run.experimentId, id.value) !in c.sessions
    then Some(RunScope(run.projectId, run.glassboxId, run.experimentId, id.value)) else None
  }

  /** The command succeeds once it has got through the gate. */
  predicate Succeeds(c: Control, r: Request, run: RunScope) {
    match r.command.action
    case Observe => false
    case Branch => false
    case Clone => CloneTarget(c, r, run).Some?
    case Rollback => r.command.targetCycleId.Some?
    case _ => true
  }

  /** A freshly made session: live and locked, with nothing behind it. */
  function Fresh(registration: R.Registration, action: Option<R.LifecycleAction>, source: Option<RunScope>): R.Session {
    R.Session(registration, R.Live, "observation-only", action, None, source, None, None)
  }

  /** Its own session after a command that succeeds: a pause pauses and a resume resumes, and nothing else about the
      session changes; a mode switch changes the mode alone; a reset and a rollback make it live and lock it, the one
      with no target and the other with the target that was given; a clone leaves it as it is. */
  function SessionAfter(s: R.Session, c: Command): R.Session {
    var noted := s.(lastAction := Some(R.ByCommand(c.action)), reason := None);
    match c.action
    case Pause => noted.(lifecycle := R.Paused)
    case Resume => noted.(lifecycle := R.Live)
    case ModeSwitch => noted.(mode := c.targetMode.value)
    case Reset => noted.(lifecycle := R.Live, mode := "observation-only", targetCycle := None, snapshot := None)
    case Rollback =>
      noted.(lifecycle := R.Live, mode := "observation-only", targetCycle := c.targetCycleId, snapshot := None)
    case _ => noted
  }

  /** A command that gets through the gate succeeds exactly when its action is one the runtime knows and its target is
      there: a cycle for a rollback, a new run with a valid id for a clone. Then the sessions change as the action says,
      a clone adding one fresh session; otherwise they do not change. */
  lemma CommandEffect(c: Control, r: Request, run: RunScope)
    requires GoesThrough(c, r, run)
    ensures var (c', out) := Execute(c, r);
            var (s, clone) := (c.sessions[run], CloneTarget(c, r, run));
            && (out.Ok? <==> Succeeds(c, r, run))
            && (out.Ok? ==> out.value.Executed?)
            && (out.Err? ==>
                  && out.error == (if r.command.action == Clone && r.command.cloneRunId.Some?
                                      && IsSegment(r.command.cloneRunId.value) then SessionExists else InvalidValue)
                  && c'.sessions == c.sessions && c'.receipts == c.receipts)
            && (out.Ok? && r.command.action != Clone ==>
                  c'.sessions == c.sessions[run := SessionAfter(s, r.command)])
            && (out.Ok? && r.command.action == Clone ==>
                  c'.sessions == c.sessions[clone.value := Fresh(s.registration.(run := clone.value),
                                                                 Some(R.ByCommand(Clone)), Some(run))]
                                           [run := SessionAfter(s, r.command)])
  {
    hide Perform, Deny, AddedEvents;
    ThroughIsAllowed(c, r, run);
    ExecuteClosed(c, r, run);
    if Execute(c, r).1.Err? { ErrorPassedOn(c, r, run); } else { ExecutedNotDenied(c, r, run); }
    hide Execute;
  }

  lemma ThroughIsAllowed(c: Control, r: Request, run: RunScope)
    requires GoesThrough(c, r, run)
    ensures RunOf(r.command.scope) == Some(run) && run in c.sessions && !IsDenied(c, r, run)
  {
  }

  lemma ExecutedNotDenied(c: Control, r: Request, run: RunScope)
    requires GoesThrough(c, r, run) && Execute(c, r).1.Ok?
    ensures Execute(c, r).1.value.Executed?
  {
    hide Authorize, LifecycleEvent, ApplyRuntime;
    ThroughIsAllowed(c, r, run);
  }

  lemma ErrorPassedOn(c: Control, r: Request, run: RunScope)
    requires GoesThrough(c, r, run) && Execute(c, r).1.Err?
    ensures ApplyRuntime(c.sessions, run, r.command).1.Err?
    ensures Execute(c, r).1.error == ApplyRuntime(c.sessions, run, r.command).1.error
  {
    hide Perform, ApplyRuntime;
    ThroughIsAllowed(c, r, run);
    if r.command.action == ModeSwitch {
      SwitchClosed(c, r, run);
    } else {
      PlainClosed(c, r, run);
    }
  }

  lemma AppliedAsSaid(c: Control, r: Request, run: RunScope)
    requires RunOf(r.command.scope) == Some(run) && run in c.sessions
    ensures var applied := ApplyRuntime(c.sessions, run, r.command).1;
            && (applied.Ok? <==> Succeeds(c, r, run))
            && (applied.Ok? ==>
                  applied.value == R.ReceiptFor(SessionAfter(c.sessions[run], r.command),
                                                if r.command.action == Clone then CloneTarget(c, r, run) else None))
  {
  }

  /** What it returns: the session as it stands afterwards, under the name of the action; with the clone's run for a
      clone, and the granted approval for a mode switch. The active receipt of the run is then the one granted, and is
      gone exactly when the run is locked. */
  lemma CommandReceipt(c: Control, r: Request, run: RunScope)
    requires GoesThrough(c, r, run) && Execute(c, r).1.Ok?
    ensures var (c', out) := Execute(c, r);
            run in c'.sessions && out.value.Executed? &&
            var (s, lr) := (c'.sessions[run], out.value.receipt);
            && lr == R.LifecycleReceipt(R.ByCommand(r.command.action), s.registration.run, s.lifecycle, s.mode,
                                        s.reason, if r.command.action == Clone then CloneTarget(c, r, run) else None,
                                        s.targetCycle, s.snapshot)
            && out.value.approval == (if r.command.action == ModeSwitch then Some(GrantedFor(c, r)) else None)
            && c'.receipts == (if r.command.action == ModeSwitch
                               then c.receipts[run := ReceiptGranted(c, r)]
                               else if s.mode == "observation-only" then c.receipts - {run} else c.receipts)
  {
    hide Perform, Deny, AddedEvents, ApplyRuntime, Execute, GoesThrough, Succeeds, CloneTarget, SessionAfter;
    ThroughIsAllowed(c, r, run);
    AppliedAsSaid(c, r, run);
    CommandEffect(c, r, run);
    OwnSession(c, r, run);
    NotedSession(c.sessions[run], r.command);
    ExecutedAsPerformed(c, r, run);
    if r.command.action == ModeSwitch { SwitchClosed(c, r, run); } else { PlainClosed(c, r, run); }
  }

  lemma OwnSession(c: Control, r: Request, run: RunScope)
    requires GoesThrough(c, r, run) && Execute(c, r).1.Ok?
    ensures run in Execute(c, r).0.sessions && Execute(c, r).0.sessions[run] == SessionAfter(c.sessions[run], r.command)
  {
    hide Execute, SessionAfter, CloneTarget;
    CommandEffect(c, r, run);
  }

  lemma NotedSession(s: R.Session, c: Command)
    ensures SessionAfter(s, c).lastAction == Some(R.ByCommand(c.action))
    ensures SessionAfter(s, c).registration == s.registration
  {
  }

  lemma ExecutedAsPerformed(c: Control, r: Request, run: RunScope)
    requires GoesThrough(c, r, run)
    ensures Execute(c, r) == Perform(c, r, run)
  {
    hide Perform;
  }

  /** The receipt a mode switch is granted. */
  function ReceiptGranted(c: Control, r: Request): ModeSwitchReceipt
    requires r.command.action == ModeSwitch
  {
    ModeSwitchReceipt(c.desk.nextId + 3, r.command.scope, r.modeContext, r.command.targetMode.value, Active)
  }

  /** The approval behind it: asked for by the actor, granted by the approver if one is named. */
  function GrantedFor(c: Control, r: Request): ApprovalRecord
    requires r.command.action == ModeSwitch
  {
    ApprovalRecord(c.desk.nextId + 1, r.command, Granted, r.stamp, r.modeContext,
                   if r.approvalReason.Some? then r.approvalReason else r.reason, Some(Approver(r)),
                   Some(ReceiptGranted(c, r)))
  }

  /** Who approves, and when: the actor and the time of the request unless others are given. */
  function Approver(r: Request): Stamp {
    Stamp(if r.approvalActorId.Some? then r.approvalActorId.value else r.stamp.actorId,
          if r.approvalActorRole.Some? then r.approvalActorRole.value else r.stamp.actorRole,
          if r.approvalAt.Some? then r.approvalAt.value else r.stamp.at)
  }

  /** The actor, at the time of the approval. */
  function Actor(r: Request): Stamp {
    Stamp(r.stamp.actorId, r.stamp.actorRole, if r.approvalAt.Some? then r.approvalAt.value else r.stamp.at)
  }

  /* ---- what is recorded ---- */

  function NameOf(a: Action): string {
    match a
    case Observe => "observe"
    case ModeSwitch => "mode switch"
    case Pause => "pause"
    case Resume => "resume"
    case Branch => "branch"
    case Clone => "clone"
    case Reset => "reset"
    case Rollback => "rollback"
  }

  function Event(id: nat, r: Request, run: RunScope, kind: EventType, stamp: Stamp, approvalId: Option<nat>,
                 receiptId: Option<nat>, details: Details): AuditEvent {
    AuditEvent(id, r.command.id, r.command.action, kind, stamp, run, r.cycleId, approvalId, receiptId, details)
  }

  function Asked(id: nat, r: Request, run: RunScope, status: string): AuditEvent {
    Event(id, r, run, EvRequested, r.stamp, None, None,
          map[DispatchStatus := status] + Note(Surface, r.command.surface) + Note(Reason, r.reason)
          + map[ModeContext := r.modeContext])
  }

  function DeniedRecord(n: nat, r: Request, run: RunScope): seq<AuditEvent> {
    [Asked(n, r, run, "denied"),
     Event(n + 1, r, run, EvFailed, r.stamp, None, None,
           map[Denial := NameOf(r.command.action)
                         + " requires an active mode-switch receipt for the same scope and mode context"]
           + Note(Surface, r.command.surface))]
  }

  /** Where a session stands, as the ledger puts it. */
  function Standing(s: R.Session, surface: Option<Text>, clone: Option<RunScope>): Details {
    map[CurrentMode := s.mode, LifecycleState := if s.lifecycle.Paused? then "paused" else "active"]
    + Note(Surface, surface) + Note(Reason, s.reason)
    + Note(TargetCycleId, s.targetCycle) + Note(SnapshotId, s.snapshot)
    + Note(CloneRunId, if clone.Some? then Some(clone.value.runId) else None)
  }

  /** The end of a command: completed, with where its session stands now, or failed. */
  function Ended(id: nat, c: Control, r: Request, run: RunScope, approvalId: Option<nat>, receiptId: Option<nat>):
    AuditEvent
    requires run in c.sessions
  {
    var clone := if r.command.action == Clone then CloneTarget(c, r, run) else None;
    if Succeeds(c, r, run)
    then Event(id, r, run, EvCompleted, Actor(r), approvalId, receiptId,
               Standing(SessionAfter(c.sessions[run], r.command), r.command.surface, clone))
    else Event(id, r, run, EvFailed, Actor(r), approvalId, receiptId,
               map[Reason := "error"] + Note(Surface, r.command.surface))
  }

  function PlainRecord(c: Control, r: Request, run: RunScope): seq<AuditEvent>
    requires run in c.sessions
  {
    var n := c.desk.nextId;
    [Asked(n, r, run, "allowed"),
     Event(n + 1, r, run, EvStarted, Actor(r), None, None, Note(Surface, r.command.surface)),
     Ended(n + 2, c, r, run, None, None)]
  }

  function SwitchRecord(c: Control, r: Request, run: RunScope): seq<AuditEvent>
    requires run in c.sessions
  {
    var n, context := c.desk.nextId, map[ModeContext := r.modeContext];
    var (approval, receipt) := (Some(n + 1), Some(n + 3));
    [Asked(n, r, run, "allowed"),
     Event(n + 2, r, run, EvApprovalRequested, r.stamp, approval, None, context + Note(Reason, r.reason)),
     Event(n + 4, r, run, EvApproved, Approver(r), approval, receipt,
           context + Note(Reason, r.approvalReason)).(cycleId := None),
     Event(n + 5, r, run, EvStarted, Actor(r), approval, receipt, Note(Surface, r.command.surface)),
     Ended(n + 6, c, r, run, approval, receipt)]
  }

  /** Every accepted command is recorded in its run's ledger alone: a denied one as requested and failed, with the
      reason; any other as requested, started, and completed with where its session then stands, or failed; and a mode
      switch with its approval in between. */
  lemma CommandIsRecorded(c: Control, r: Request, run: RunScope)
    requires RunOf(r.command.scope) == Some(run) && run in c.sessions
    ensures Execute(c, r).0.desk.log
            == c.desk.log[run := c.LedgerOf(run)
                                 + if !GoesThrough(c, r, run) then DeniedRecord(c.desk.nextId, r, run)
                                   else if r.command.action == ModeSwitch then SwitchRecord(c, r, run)
                                   else PlainRecord(c, r, run)]
  {
    hide Execute, DeniedEvents, PlainEvents, SwitchEvents, ApplyRuntime, DeniedRecord, SwitchRecord, PlainRecord;
    ScopeOfRun(r.command.scope, run);
    ExecuteClosed(c, r, run);
    if !GoesThrough(c, r, run) {
      DeniedAsRecorded(c, r, run);
    } else {
      ThroughIsAllowed(c, r, run);
      if r.command.action == ModeSwitch { SwitchAsRecorded(c, r, run); } else { PlainAsRecorded(c, r, run); }
    }
  }

  lemma DeniedAsRecorded(c: Control, r: Request, run: RunScope)
    requires RunOf(r.command.scope) == Some(run) && run in c.sessions && !GoesThrough(c, r, run)
    ensures IsDenied(c, r, run) && DeniedEvents(c.desk.nextId, r, run) == DeniedRecord(c.desk.nextId, r, run)
  {
    ScopeOfRun(r.command.scope, run);
    DetailsAsNoted(r);
  }

  lemma DetailsAsNoted(r: Request)
    ensures forall status :: WithReason(DispatchDetails(r.command, status), r.reason)[ModeContext := r.modeContext]
                             == map[DispatchStatus := status] + Note(Surface, r.command.surface)
                                + Note(Reason, r.reason) + map[ModeContext := r.modeContext]
    ensures DenyDetails(r.command)
            == map[Denial := NameOf(r.command.action)
                             + " requires an active mode-switch receipt for the same scope and mode context"]
               + Note(Surface, r.command.surface)
    ensures StartedDetails(r) == Note(Surface, r.command.surface)
    ensures FailedDetails(r.command) == map[Reason := "error"] + Note(Surface, r.command.surface)
  {
  }

  lemma StandingAsDetailed(c: Command, s: R.Session, clone: Option<RunScope>)
    requires s.lastAction.Some?
    ensures CompletedDetails(c, R.ReceiptFor(s, clone)) == Standing(s, c.surface, clone)
  {
    hide WithText, Note;
    var d0 := map[CurrentMode := s.mode, LifecycleState := LifecycleName(s.lifecycle)];
    var d1 := d0 + Note(Surface, c.surface);
    var d2 := d1 + Note(Reason, s.reason);
    var d3 := d2 + Note(TargetCycleId, s.targetCycle);
    Noted(d0, Surface, c.surface);
    Noted(d1, Reason, s.reason);
    Noted(d2, TargetCycleId, s.targetCycle);
    Noted(d3, SnapshotId, s.snapshot);
    Noted(d3 + Note(SnapshotId, s.snapshot), CloneRunId, if clone.Some? then Some(clone.value.runId) else None);
  }

  lemma Noted(d: Details, key: DetailKey, value: Option<string>)
    ensures WithText(d, key, value) == d + Note(key, value)
  {
  }

  lemma PlainAsRecorded(c: Control, r: Request, run: RunScope)
    requires RunOf(r.command.scope) == Some(run) && run in c.sessions && r.command.action != ModeSwitch
    ensures PlainEvents(c.desk.nextId, r, run, ApplyRuntime(c.sessions, run, r.command).1) == PlainRecord(c, r, run)
  {
    hide ApplyRuntime, CompletedDetails, Standing, R.ReceiptFor, WithReason, DispatchDetails, FailedDetails, Note,
         Succeeds, CloneTarget, StartedDetails;
    DetailsAsNoted(r);
    AppliedAsSaid(c, r, run);
    StandingAsDetailed(r.command, SessionAfter(c.sessions[run], r.command),
                       if r.command.action == Clone then CloneTarget(c, r, run) else None);
  }

  lemma SwitchAsRecorded(c: Control, r: Request, run: RunScope)
    requires RunOf(r.command.scope) == Some(run) && run in c.sessions && r.command.action == ModeSwitch
    ensures var applied := ApplyRuntime(c.sessions, run, r.command).1;
            applied.Ok? && SwitchEvents(c.desk.nextId, r, run, applied.value) == SwitchRecord(c, r, run)
  {
    hide ApplyRuntime, CompletedDetails, Standing, R.ReceiptFor, WithReason, DispatchDetails, Note, CloneTarget,
         StartedDetails;
    DetailsAsNoted(r);
    NotedReason(map[ModeContext := r.modeContext], r.reason);
    NotedReason(map[ModeContext := r.modeContext], r.approvalReason);
    AppliedAsSaid(c, r, run);
    StandingAsDetailed(r.command, SessionAfter(c.sessions[run], r.command), None);
  }
  /* ---- registration and direct calls ---- */

  /** A run is registered once: live, locked, with nothing behind it. */
  lemma RegistrationExact(ss: R.Sessions, registration: R.Registration)
    ensures R.RegisterRun(ss, registration)
            == if registration.run in ss then (ss, Err(SessionExists))
               else (ss[registration.run := Fresh(registration, None, None)], Ok(Fresh(registration, None, None)))
  {
  }

  /** What a direct call makes of a session. */
  function SessionCalled(s: R.Session, t: R.Transition): R.Session {
    match t
    case ToMode(mode) => s.(mode := mode, lastAction := Some(R.ByCommand(ModeSwitch)), reason := None)
    case ToPaused => s.(lifecycle := R.Paused, lastAction := Some(R.ByCommand(Pause)), reason := None)
    case ToLive => s.(lifecycle := R.Live, lastAction := Some(R.ByCommand(Resume)), reason := None)
    case ToReset(why) =>
      R.Session(s.registration, R.Live, "observation-only", Some(R.ByCommand(Reset)), why, s.cloneSource, None, None)
    case ToCycle(target) =>
      R.Session(s.registration, R.Live, "observation-only", Some(R.ByCommand(Rollback)), None, s.cloneSource,
                Some(target), None)
    case ToSnapshot(id) =>
      R.Session(s.registration, R.Live, "observation-only", Some(R.RestoreAction), None, s.cloneSource, None, Some(id))
  }

  /** A direct call changes the session it is made on as its name says, and returns it as it then stands. */
  lemma DirectCallExact(ss: R.Sessions, run: RunScope, t: R.Transition)
    ensures if run !in ss then R.Apply(ss, run, t) == (ss, Err(UnknownSession))
            else
              var s := SessionCalled(ss[run], t);
              s.lastAction.Some? &&
              R.Apply(ss, run, t)
              == (ss[run := s], Ok(R.LifecycleReceipt(s.lastAction.value, s.registration.run, s.lifecycle, s.mode,
                                                      s.reason, None, s.targetCycle, s.snapshot)))
  {
  }

  /** A clone made directly, as by a command. */
  lemma DirectCloneExact(ss: R.Sessions, run: RunScope, clone: RunScope)
    ensures R.CloneRun(ss, run, clone)
            == if run !in ss then (ss, Err(UnknownSession))
               else if clone in ss then (ss, Err(SessionExists))
               else
                 var s := ss[run].(lastAction := Some(R.ByCommand(Clone)), reason := None);
                 (ss[clone := Fresh(s.registration.(run := clone), Some(R.ByCommand(Clone)), Some(run))][run := s],
                  Ok(R.LifecycleReceipt(R.ByCommand(Clone), s.registration.run, s.lifecycle, s.mode, None, Some(clone),
                                        s.targetCycle, s.snapshot)))
  {
  }
}
