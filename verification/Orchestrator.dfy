/** orchestrator/service.py: one command path through gate, approval, audit and runtime. */
module Orchestrator {
  import opened Prelude
  import opened StoragePaths
  import opened Commands
  import opened AuditChain
  import opened Ledger
  import opened Dispatcher
  import opened Approvals
  import R = Runtime

  const APPROVAL_REQUIRED: set<Action> := {ModeSwitch}

  datatype Control = Control(sessions: R.Sessions, receipts: map<RunScope, ModeSwitchReceipt>, desk: Desk)
  {
    function LedgerOf(run: RunScope): seq<AuditEvent> {
      EventsOf(desk.log, run)
    }

    function Context(run: RunScope, modeContext: Text): DispatchContext
      requires run in sessions
    {
      DispatchContext(sessions[run].mode, modeContext, if run in receipts then Some(receipts[run]) else None)
    }
  }

  datatype Request = Request(command: Command, stamp: Stamp, modeContext: Text, cycleId: Option<Text>,
                             reason: Option<Text>,
                             approvalActorId: Option<Text>, approvalActorRole: Option<Text>, approvalAt: Option<int>,
                             approvalReason: Option<Text>)
  {
    function ApprovalStamp(): Stamp {
      Stamp(if approvalActorId.Some? then approvalActorId.value else stamp.actorId,
            if approvalActorRole.Some? then approvalActorRole.value else stamp.actorRole,
            LifecycleStamp().at)
    }

    function LifecycleStamp(): Stamp {
      stamp.(at := if approvalAt.Some? then approvalAt.value else stamp.at)
    }
  }

  /** What execute_command returns; exceptions are the error side of the Result around it. */
  datatype ExecutionReceipt =
    | Denied(action: Action)
    | Executed(approval: Option<ApprovalRecord>, receipt: R.LifecycleReceipt)

  function ActionName(a: Action): string {
    match a
    case Observe => "observe"
    case ModeSwitch => "mode switch"
    case Pause => "pause"
    case Resume => "resume"
    case Branch => "branch"
    case Clone => "clone"
    case Reset => "reset"
    case Rollback => "rollback"
  }

  function LifecycleName(s: R.Lifecycle): string {
    if s.Live? then "active" else "paused"
  }

  function WithText(d: Details, key: DetailKey, value: Option<string>): Details {
    if value.Some? then d[key := value.value] else d
  }

  function DispatchDetails(c: Command, status: string): Details {
    WithText(map[DispatchStatus := status], Surface, c.surface)
  }

  function DenyDetails(c: Command): Details {
    WithText(map[Denial := ActionName(c.action) + NEEDS_RECEIPT], Surface, c.surface)
  }

  const NEEDS_RECEIPT := " requires an active mode-switch receipt for the same scope and mode context"

  /** _lifecycle_details */
  function CompletedDetails(c: Command, lr: R.LifecycleReceipt): Details {
    var d0 := WithText(map[CurrentMode := lr.mode, LifecycleState := LifecycleName(lr.lifecycle)], Surface, c.surface);
    var d1 := WithText(WithText(d0, Reason, lr.reason), TargetCycleId, lr.targetCycle);
    WithText(WithText(d1, SnapshotId, lr.snapshot), CloneRunId,
             if lr.cloneRun.Some? then Some(lr.cloneRun.value.runId) else None)
  }

  function FailedDetails(c: Command): Details {
    WithText(map[Reason := "error"], Surface, c.surface)
  }

  /** _apply_runtime_command */
  function ApplyRuntime(ss: R.Sessions, run: RunScope, c: Command): (R.Sessions, Result<R.LifecycleReceipt, Error>) {
    match c.action
    case ModeSwitch => R.Apply(ss, run, R.ToMode(c.targetMode.value))
    case Pause => R.Apply(ss, run, R.ToPaused)
    case Resume => R.Apply(ss, run, R.ToLive)
    case Reset => R.Apply(ss, run, R.ToReset(None))
    case Clone =>
      if c.cloneRunId.Some? && IsSegment(c.cloneRunId.value)
      then R.CloneRun(ss, run, run.(runId := c.cloneRunId.value))
      else (ss, Err(InvalidValue))
    case Rollback =>
      if c.targetCycleId.Some? then R.Apply(ss, run, R.ToCycle(c.targetCycleId.value)) else (ss, Err(InvalidValue))
    case Observe => (ss, Err(InvalidValue))
    case Branch => (ss, Err(InvalidValue))
  }

  /** _remember_control_receipt */
  function Remembered(receipts: map<RunScope, ModeSwitchReceipt>, run: RunScope, c: Command,
                      approval: Option<ApprovalRecord>, lr: R.LifecycleReceipt): map<RunScope, ModeSwitchReceipt> {
    if c.action.ModeSwitch? && approval.Some? && approval.value.receipt.Some?
      then receipts[run := approval.value.receipt.value]
    else if lr.mode == OBSERVATION_ONLY then receipts - {run}
    else receipts
  }

  function RequestEvents(d: Desk, r: Request, status: string): (Desk, Result<Option<ApprovalRecord>, Error>) {
    RecordRequest(d, APPROVAL_REQUIRED, r.command, r.stamp, r.modeContext, r.reason, r.cycleId,
                  DispatchDetails(r.command, status))
  }

  /** A denied command: a request and a failure are recorded, and nothing else happens. */
  function Deny(d: Desk, r: Request): Desk {
    var d1 := RequestEvents(d, r, "denied").0;
    RecordLifecycle(d1, APPROVAL_REQUIRED, EvFailed, r.command, r.stamp, None, r.cycleId, DenyDetails(r.command)).0
  }

  /** The request and, for a gated action, its approval. */
  function Authorize(d: Desk, r: Request): (Desk, Result<Option<ApprovalRecord>, Error>) {
    var (d1, requested) := RequestEvents(d, r, "allowed");
    if requested.Err? || requested.value.None? then (d1, requested)
    else
      var (d2, granted) := Approve(d1, requested.value.value.id, r.ApprovalStamp(), r.modeContext, r.approvalReason);
      (d2, if granted.Err? then Err(granted.error) else Ok(Some(granted.value)))
  }

  function LifecycleEvent(d: Desk, r: Request, kind: EventType, approval: Option<ApprovalRecord>, details: Details):
    (Desk, Result<(), Error>)
    requires IsLifecycle(kind)
  {
    RecordLifecycle(d, APPROVAL_REQUIRED, kind, r.command, r.LifecycleStamp(),
                    if approval.Some? then Some(approval.value.id) else None, r.cycleId, details)
  }

  /** _execute_allowed_command */
  function Perform(c: Control, r: Request, run: RunScope): (Control, Result<ExecutionReceipt, Error>) {
    var (d1, authorized) := Authorize(c.desk, r);
    if authorized.Err? then (c.(desk := d1), Err(authorized.error))
    else
      var approval := authorized.value;
      var (d2, started) := LifecycleEvent(d1, r, EvStarted, approval, WithText(map[], Surface, r.command.surface));
      if started.Err? then (c.(desk := d2), Err(started.error))
      else
        var (ss, applied) := ApplyRuntime(c.sessions, run, r.command);
        if applied.Err? then
          (c.(desk := LifecycleEvent(d2, r, EvFailed, approval, FailedDetails(r.command)).0), Err(applied.error))
        else
          var lr := applied.value;
          var (d3, completed) := LifecycleEvent(d2, r, EvCompleted, approval, CompletedDetails(r.command, lr));
          (Control(ss, Remembered(c.receipts, run, r.command, approval, lr), d3),
           if completed.Err? then Err(completed.error) else Ok(Executed(approval, lr)))
  }

  function Execute(c: Control, r: Request): (Control, Result<ExecutionReceipt, Error>) {
    match RunOf(r.command.scope)
    case None => (c, Err(InvalidValue))
    case Some(run) =>
      if run !in c.sessions then (c, Err(UnknownSession))
      else if DenyReason(r.command, c.Context(run, r.modeContext)).Some?
      then (c.(desk := Deny(c.desk, r)), Ok(Denied(r.command.action)))
      else Perform(c, r, run)
  }

  class HostOrchestratorService {
    const runtime: R.InMemoryRuntime
    const approvals: ApprovalService
    var receipts: map<RunScope, ModeSwitchReceipt>

    ghost predicate Valid()
      reads this, approvals, approvals.ledger, approvals.ledger.fs
    {
      approvals.ledger.Valid() && approvals.required == APPROVAL_REQUIRED
    }

    ghost function State(): Control
      reads this, runtime, approvals, approvals.ledger
    {
      Control(runtime.sessions, receipts, approvals.State())
    }

    constructor (runtime: R.InMemoryRuntime, approvals: ApprovalService)
      requires approvals.ledger.Valid() && approvals.required == APPROVAL_REQUIRED
      ensures this.runtime == runtime && this.approvals == approvals && receipts == map[]
      ensures Valid()
    {
      this.runtime, this.approvals, receipts := runtime, approvals, map[];
    }

    method RegisterRun(registration: R.Registration) returns (r: Result<R.Session, Error>)
      requires Valid()
      modifies runtime
      ensures Valid()
      ensures (runtime.sessions, r) == R.RegisterRun(old(runtime.sessions), registration)
    {
      r := runtime.Register(registration);
    }

    method ExecuteCommand(r: Request) returns (out: Result<ExecutionReceipt, Error>)
      requires Valid()
      modifies this, runtime, approvals, approvals.ledger, approvals.ledger.fs
      ensures Valid()
      ensures (State(), out) == Execute(old(State()), r)
    {
      hide Perform, RecordRequest, RecordLifecycle, DenyReason, AuditLedger.Valid;
      var scope := RunOf(r.command.scope);
      if scope.None? {
        return Err(InvalidValue);
      }
      var run := scope.value;
      var session := runtime.DescribeRun(run);
      if session.Err? {
        return Err(session.error);
      }
      var context := DispatchContext(session.value.mode, r.modeContext,
                                     if run in receipts then Some(receipts[run]) else None);
      var denied := DenyReason(r.command, context);
      if denied.Some? {
        var requested := approvals.Request(r.command, r.stamp, r.modeContext, r.reason, r.cycleId,
                                           DispatchDetails(r.command, "denied"));
        var failed := approvals.Lifecycle(EvFailed, r.command, r.stamp, None, r.cycleId, DenyDetails(r.command));
        return Ok(Denied(r.command.action));
      }
      out := ExecuteAllowed(r, run);
    }

    method AuthorizeCommand(r: Request) returns (authorized: Result<Option<ApprovalRecord>, Error>)
      requires Valid()
      modifies approvals, approvals.ledger, approvals.ledger.fs
      ensures Valid()
      ensures (approvals.State(), authorized) == Authorize(old(approvals.State()), r)
    {
      hide RecordRequest, Approve, AuditLedger.Valid;
      authorized := approvals.Request(r.command, r.stamp, r.modeContext, r.reason, r.cycleId,
                                      DispatchDetails(r.command, "allowed"));
      if authorized.Ok? && authorized.value.Some? {
        var granted := approvals.Grant(authorized.value.value.id, r.ApprovalStamp(), r.modeContext, r.approvalReason);
        authorized := if granted.Err? then Err(granted.error) else Ok(Some(granted.value));
      }
    }

    method ExecuteAllowed(r: Request, run: RunScope) returns (out: Result<ExecutionReceipt, Error>)
      requires Valid()
      modifies this, runtime, approvals, approvals.ledger, approvals.ledger.fs
      ensures Valid()
      ensures (State(), out) == Perform(old(State()), r, run)
    {
      hide Authorize, RecordLifecycle, ApplyRuntime, Remembered, AuditLedger.Valid;
      var authorized := AuthorizeCommand(r);
      if authorized.Err? {
        return Err(authorized.error);
      }
      var approval := authorized.value;
      var approvalId := if approval.Some? then Some(approval.value.id) else None;
      var started := approvals.Lifecycle(EvStarted, r.command, r.LifecycleStamp(), approvalId, r.cycleId,
                                         WithText(map[], Surface, r.command.surface));
      if started.Err? {
        return Err(started.error);
      }
      var applied := ApplyRuntimeCommand(run, r.command);
      if applied.Err? {
        var failed := approvals.Lifecycle(EvFailed, r.command, r.LifecycleStamp(), approvalId, r.cycleId,
                                          FailedDetails(r.command));
        return Err(applied.error);
      }
      receipts := Remembered(receipts, run, r.command, approval, applied.value);
      var completed := approvals.Lifecycle(EvCompleted, r.command, r.LifecycleStamp(), approvalId, r.cycleId,
                                           CompletedDetails(r.command, applied.value));
      if completed.Err? {
        return Err(completed.error);
      }
      return Ok(Executed(approval, applied.value));
    }

    method ApplyRuntimeCommand(run: RunScope, c: Command) returns (r: Result<R.LifecycleReceipt, Error>)
      modifies runtime
      ensures (runtime.sessions, r) == ApplyRuntime(old(runtime.sessions), run, c)
      ensures r.Err? ==> runtime.sessions == old(runtime.sessions)
    {
      match c.action {
        case ModeSwitch => r := runtime.Update(run, R.ToMode(c.targetMode.value));
        case Pause => r := runtime.Update(run, R.ToPaused);
        case Resume => r := runtime.Update(run, R.ToLive);
        case Reset => r := runtime.Update(run, R.ToReset(None));
        case Clone =>
          if c.cloneRunId.Some? && IsSegment(c.cloneRunId.value) {
            r := runtime.CloneSession(run, run.(runId := c.cloneRunId.value));
          } else {
            r := Err(InvalidValue);
          }
        case Rollback =>
          if c.targetCycleId.Some? {
            r := runtime.Update(run, R.ToCycle(c.targetCycleId.value));
          } else {
            r := Err(InvalidValue);
          }
        case Observe => r := Err(InvalidValue);
        case Branch => r := Err(InvalidValue);
      }
    }

    /** pause, rollback and restore called directly, as the recovery flows do: no audit, no receipts. */
    method Transition(run: RunScope, t: R.Transition) returns (r: Result<R.LifecycleReceipt, Error>)
      requires Valid()
      modifies runtime
      ensures Valid()
      ensures (runtime.sessions, r) == R.Apply(old(runtime.sessions), run, t)
    {
      r := runtime.Update(run, t);
    }
  }
}
