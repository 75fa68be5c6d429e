/** What one command does, in closed form: the events it adds to its run's ledger and the state it
    leaves. The theorems about whole runs rest on this. */
module ControlSteps {
  import opened Prelude
  import opened StoragePaths
  import opened Commands
  import opened AuditChain
  import opened Ledger
  import opened Dispatcher
  import opened Approvals
  import opened Orchestrator
  import R = Runtime

  /** The gate is open to this run in this mode context. */
  predicate Unlocked(c: Control, run: RunScope, modeContext: Text) {
    run in c.sessions && c.Context(run, modeContext).ControlIsUnlockedFor(ScopeOf(run))
  }

  predicate IsDenied(c: Control, r: Request, run: RunScope) {
    IsControl(r.command.action) && !Unlocked(c, run, r.modeContext)
  }

  function NewEvent(id: nat, r: Request, run: RunScope, kind: EventType, stamp: Stamp, approvalId: Option<nat>,
                    receiptId: Option<nat>, details: Details): AuditEvent {
    AuditEvent(id, r.command.id, r.command.action, kind, stamp, run, if kind.EvApproved? then None else r.cycleId,
               approvalId, receiptId, details)
  }

  function RequestedEvent(id: nat, r: Request, run: RunScope, status: string): AuditEvent {
    NewEvent(id, r, run, EvRequested, r.stamp, None, None,
             WithReason(DispatchDetails(r.command, status), r.reason)[ModeContext := r.modeContext])
  }

  function LifecycleEventAt(id: nat, r: Request, run: RunScope, kind: EventType, approvalId: Option<nat>,
                            receiptId: Option<nat>, details: Details): AuditEvent {
    NewEvent(id, r, run, kind, r.LifecycleStamp(), approvalId, receiptId, details)
  }

  function StartedDetails(r: Request): Details {
    WithText(map[], Surface, r.command.surface)
  }

  function DeniedEvents(n: nat, r: Request, run: RunScope): seq<AuditEvent> {
    [RequestedEvent(n, r, run, "denied"),
     NewEvent(n + 1, r, run, EvFailed, r.stamp, None, None, DenyDetails(r.command))]
  }

  /** An allowed command that needs no approval. */
  function PlainEvents(n: nat, r: Request, run: RunScope, applied: Result<R.LifecycleReceipt, Error>): seq<AuditEvent> {
    [RequestedEvent(n, r, run, "allowed"),
     LifecycleEventAt(n + 1, r, run, EvStarted, None, None, StartedDetails(r)),
     if applied.Ok?
     then LifecycleEventAt(n + 2, r, run, EvCompleted, None, None, CompletedDetails(r.command, applied.value))
     else LifecycleEventAt(n + 2, r, run, EvFailed, None, None, FailedDetails(r.command))]
  }

  /** A mode switch: n + 1 is its approval id and n + 3 its receipt id. */
  function SwitchEvents(n: nat, r: Request, run: RunScope, lr: R.LifecycleReceipt): (es: seq<AuditEvent>)
    ensures |es| == 5
  {
    [RequestedEvent(n, r, run, "allowed"),
     NewEvent(n + 2, r, run, EvApprovalRequested, r.stamp, Some(n + 1), None,
              WithReason(map[ModeContext := r.modeContext], r.reason)),
     NewEvent(n + 4, r, run, EvApproved, r.ApprovalStamp(), Some(n + 1), Some(n + 3),
              WithReason(map[ModeContext := r.modeContext], r.approvalReason)),
     LifecycleEventAt(n + 5, r, run, EvStarted, Some(n + 1), Some(n + 3), StartedDetails(r)),
     LifecycleEventAt(n + 6, r, run, EvCompleted, Some(n + 1), Some(n + 3), CompletedDetails(r.command, lr))]
  }

  function IssuedReceipt(n: nat, r: Request): ModeSwitchReceipt
    requires r.command.action.ModeSwitch?
  {
    ModeSwitchReceipt(n + 3, r.command.scope, r.modeContext, r.command.targetMode.value, Active)
  }

  /** c' is c with the events appended to the run's ledger and the id supply advanced. */
  ghost predicate Logged(d: Desk, d': Desk, run: RunScope, events: seq<AuditEvent>, ids: nat) {
    d'.log == d.log[run := EventsOf(d.log, run) + events] && d'.nextId == d.nextId + ids
  }

  lemma LoggedOne(d: Desk, run: RunScope, e: AuditEvent)
    requires e.run == run
    ensures Logged(d, Desk(d.records, Recorded(d.log, e), d.nextId + 1), run, [e], 1)
  {
  }

  lemma LoggedMore(d0: Desk, d1: Desk, d2: Desk, run: RunScope, a: seq<AuditEvent>, i: nat, b: seq<AuditEvent>, j: nat)
    requires Logged(d0, d1, run, a, i) && Logged(d1, d2, run, b, j)
    ensures Logged(d0, d2, run, a + b, i + j)
  {
    assert EventsOf(d0.log, run) + (a + b) == EventsOf(d0.log, run) + a + b;
  }

  lemma ScopeOfRun(scope: CommandScope, run: RunScope)
    requires RunOf(scope) == Some(run)
    ensures scope == ScopeOf(run)
  {
  }

  lemma DenyClosed(d: Desk, r: Request, run: RunScope)
    requires RunOf(r.command.scope) == Some(run) && IsControl(r.command.action)
    ensures Logged(d, Deny(d, r), run, DeniedEvents(d.nextId, r, run), 2)
    ensures Deny(d, r).records == d.records
  {
    var es := DeniedEvents(d.nextId, r, run);
    LoggedOne(d, run, es[0]);
    var d1 := Desk(d.records, Recorded(d.log, es[0]), d.nextId + 1);
    LoggedOne(d1, run, es[1]);
    LoggedMore(d, d1, Deny(d, r), run, [es[0]], 1, [es[1]], 1);
    assert [es[0]] + [es[1]] == es;
  }

  lemma PlainAuthorize(d: Desk, r: Request, run: RunScope)
    requires RunOf(r.command.scope) == Some(run) && !r.command.action.ModeSwitch?
    ensures var log := Recorded(d.log, RequestedEvent(d.nextId, r, run, "allowed"));
            Authorize(d, r) == (Desk(d.records, log, d.nextId + 1), Ok(None))
  {
  }

  lemma PlainClosed(c: Control, r: Request, run: RunScope)
    requires RunOf(r.command.scope) == Some(run) && !r.command.action.ModeSwitch?
    ensures var (c', out) := Perform(c, r, run);
            var (ss, applied) := ApplyRuntime(c.sessions, run, r.command);
            && Logged(c.desk, c'.desk, run, PlainEvents(c.desk.nextId, r, run, applied), 3)
            && c'.desk.records == c.desk.records
            && c'.sessions == (if applied.Ok? then ss else c.sessions)
            && c'.receipts == (if applied.Ok? && applied.value.mode == OBSERVATION_ONLY then c.receipts - {run}
                               else c.receipts)
            && out == (if applied.Ok? then Ok(Executed(None, applied.value)) else Err(applied.error))
  {
    hide ApplyRuntime, CompletedDetails, FailedDetails, Authorize;
    var d := c.desk;
    var applied := ApplyRuntime(c.sessions, run, r.command).1;
    var es := PlainEvents(d.nextId, r, run, applied);
    PlainAuthorize(d, r, run);
    var d1 := Desk(d.records, Recorded(d.log, es[0]), d.nextId + 1);
    var d2 := Desk(d.records, Recorded(d1.log, es[1]), d.nextId + 2);
    LoggedOne(d, run, es[0]);
    LoggedOne(d1, run, es[1]);
    LoggedOne(d2, run, es[2]);
    LoggedMore(d, d1, d2, run, [es[0]], 1, [es[1]], 1);
    LoggedMore(d, d2, Desk(d.records, Recorded(d2.log, es[2]), d.nextId + 3), run, [es[0]] + [es[1]], 2, [es[2]], 1);
    assert [es[0]] + [es[1]] + [es[2]] == es;
  }

  function GrantedRecord(n: nat, r: Request): ApprovalRecord
    requires r.command.action.ModeSwitch?
  {
    ApprovalRecord(n + 1, r.command, Granted, r.stamp, r.modeContext, OrElse(r.approvalReason, r.reason),
                   Some(r.ApprovalStamp()), Some(IssuedReceipt(n, r)))
  }

  function PendingRecord(n: nat, r: Request): ApprovalRecord {
    ApprovalRecord(n + 1, r.command, Pending, r.stamp, r.modeContext, r.reason, None, None)
  }

  /** Asking for a mode switch records two events and leaves the approval pending. */
  lemma SwitchRequested(d: Desk, r: Request, run: RunScope, lr: R.LifecycleReceipt)
    requires RunOf(r.command.scope) == Some(run) && r.command.action.ModeSwitch?
    ensures var (d', requested) := RequestEvents(d, r, "allowed");
            && requested == Ok(Some(PendingRecord(d.nextId, r)))
            && d'.records == d.records[d.nextId + 1 := PendingRecord(d.nextId, r)]
            && Logged(d, d', run, SwitchEvents(d.nextId, r, run, lr)[..2], 3)
  {
    hide CompletedDetails;
    var n, es := d.nextId, SwitchEvents(d.nextId, r, run, lr);
    var d1 := Desk(d.records, Recorded(d.log, es[0]), n + 1);
    var d2 := Desk(d.records[n + 1 := PendingRecord(n, r)], Recorded(d1.log, es[1]), n + 3);
    assert RequestEvents(d, r, "allowed") == (d2, Ok(Some(PendingRecord(n, r))));
    LoggedOne(d, run, es[0]);
    assert Logged(d1, d2, run, [es[1]], 2);
    LoggedMore(d, d1, d2, run, [es[0]], 1, [es[1]], 2);
    assert es[..2] == [es[0]] + [es[1]];
  }

  /** Granting it records a third and issues the receipt. */
  lemma SwitchGranted(d: Desk, n: nat, r: Request, run: RunScope, lr: R.LifecycleReceipt)
    requires RunOf(r.command.scope) == Some(run) && r.command.action.ModeSwitch?
    requires d.nextId == n + 3 && n + 1 in d.records && d.records[n + 1] == PendingRecord(n, r)
    ensures var (d', granted) := Approve(d, n + 1, r.ApprovalStamp(), r.modeContext, r.approvalReason);
            && granted == Ok(GrantedRecord(n, r))
            && d'.records == d.records[n + 1 := GrantedRecord(n, r)]
            && Logged(d, d', run, [SwitchEvents(n, r, run, lr)[2]], 2)
  {
    hide CompletedDetails;
    var e := SwitchEvents(n, r, run, lr)[2];
    var d' := Desk(d.records[n + 1 := GrantedRecord(n, r)], Recorded(d.log, e), n + 5);
    assert Approve(d, n + 1, r.ApprovalStamp(), r.modeContext, r.approvalReason) == (d', Ok(GrantedRecord(n, r)));
  }

  lemma SwitchAuthorize(d: Desk, r: Request, run: RunScope, lr: R.LifecycleReceipt)
    requires RunOf(r.command.scope) == Some(run) && r.command.action.ModeSwitch?
    ensures var (d', authorized) := Authorize(d, r);
            && authorized == Ok(Some(GrantedRecord(d.nextId, r)))
            && d'.records == d.records[d.nextId + 1 := GrantedRecord(d.nextId, r)]
            && Logged(d, d', run, SwitchEvents(d.nextId, r, run, lr)[..3], 5)
  {
    hide RequestEvents, Approve, SwitchEvents, Logged, GrantedRecord;
    var n, es := d.nextId, SwitchEvents(d.nextId, r, run, lr);
    SwitchRequested(d, r, run, lr);
    var d2 := RequestEvents(d, r, "allowed").0;
    assert d2.nextId == n + 3 by { LoggedIds(d, d2, run, es[..2], 3); }
    SwitchGranted(d2, n, r, run, lr);
    LoggedMore(d, d2, Authorize(d, r).0, run, es[..2], 3, [es[2]], 2);
    assert es[..3] == es[..2] + [es[2]];
    assert d2.records[n + 1 := GrantedRecord(n, r)] == d.records[n + 1 := GrantedRecord(n, r)];
  }

  lemma LoggedIds(d: Desk, d': Desk, run: RunScope, events: seq<AuditEvent>, ids: nat)
    requires Logged(d, d', run, events, ids)
    ensures d'.nextId == d.nextId + ids
  {
  }

  /** With the approval granted, a start or completion of the switch carries its approval and receipt ids. */
  lemma SwitchLifecycle(d: Desk, n: nat, r: Request, run: RunScope, kind: EventType, details: Details)
    requires RunOf(r.command.scope) == Some(run) && r.command.action.ModeSwitch? && IsLifecycle(kind)
    requires n + 1 in d.records && d.records[n + 1] == GrantedRecord(n, r)
    ensures var e := LifecycleEventAt(d.nextId, r, run, kind, Some(n + 1), Some(n + 3), details);
            LifecycleEvent(d, r, kind, Some(GrantedRecord(n, r)), details)
            == (Desk(d.records, Recorded(d.log, e), d.nextId + 1), Ok(()))
  {
  }

  /** The desk after the start and the completion. */
  function SwitchCompleted(d: Desk, n: nat, r: Request, run: RunScope, lr: R.LifecycleReceipt): Desk {
    var es := SwitchEvents(n, r, run, lr);
    Desk(d.records, Recorded(Recorded(d.log, es[3]), es[4]), n + 7)
  }

  lemma SwitchPerformed(c: Control, r: Request, run: RunScope, n: nat)
    requires RunOf(r.command.scope) == Some(run) && r.command.action.ModeSwitch? && run in c.sessions
    requires var (d1, authorized) := Authorize(c.desk, r);
             && authorized == Ok(Some(GrantedRecord(n, r))) && d1.nextId == n + 5
             && n + 1 in d1.records && d1.records[n + 1] == GrantedRecord(n, r)
    ensures var (ss, applied) := R.Apply(c.sessions, run, R.ToMode(r.command.targetMode.value));
            && applied.Ok?
            && Perform(c, r, run) == (Control(ss, c.receipts[run := IssuedReceipt(n, r)],
                                              SwitchCompleted(Authorize(c.desk, r).0, n, r, run, applied.value)),
                                      Ok(Executed(Some(GrantedRecord(n, r)), applied.value)))
  {
    hide Authorize, CompletedDetails, R.Apply, LifecycleEvent, DispatchDetails, WithReason;
    SwitchApplies(c.sessions, run, r.command.targetMode.value);
    var lr := R.Apply(c.sessions, run, R.ToMode(r.command.targetMode.value)).1.value;
    var d1, es := Authorize(c.desk, r).0, SwitchEvents(n, r, run, lr);
    var d2 := Desk(d1.records, Recorded(d1.log, es[3]), n + 6);
    SwitchLifecycle(d1, n, r, run, EvStarted, StartedDetails(r));
    SwitchLifecycle(d2, n, r, run, EvCompleted, CompletedDetails(r.command, lr));
  }

  lemma SwitchCompletedLogs(d: Desk, d1: Desk, r: Request, run: RunScope, lr: R.LifecycleReceipt)
    requires r.command.action.ModeSwitch? && Logged(d, d1, run, SwitchEvents(d.nextId, r, run, lr)[..3], 5)
    ensures Logged(d, SwitchCompleted(d1, d.nextId, r, run, lr), run, SwitchEvents(d.nextId, r, run, lr), 7)
  {
    hide CompletedDetails, StartedDetails, WithReason, DispatchDetails;
    var n, es := d.nextId, SwitchEvents(d.nextId, r, run, lr);
    assert es[3].run == run && es[4].run == run;
    hide SwitchEvents;
    var d2 := Desk(d1.records, Recorded(d1.log, es[3]), n + 6);
    LoggedOne(d1, run, es[3]);
    LoggedOne(d2, run, es[4]);
    LoggedMore(d1, d2, SwitchCompleted(d1, n, r, run, lr), run, [es[3]], 1, [es[4]], 1);
    LoggedMore(d, d1, SwitchCompleted(d1, n, r, run, lr), run, es[..3], 5, [es[3]] + [es[4]], 2);
    assert es == es[..3] + ([es[3]] + [es[4]]);
  }

  lemma SwitchClosed(c: Control, r: Request, run: RunScope)
    requires RunOf(r.command.scope) == Some(run) && r.command.action.ModeSwitch? && run in c.sessions
    ensures var (c', out) := Perform(c, r, run);
            var (ss, applied) := R.Apply(c.sessions, run, R.ToMode(r.command.targetMode.value));
            && applied.Ok?
            && Logged(c.desk, c'.desk, run, SwitchEvents(c.desk.nextId, r, run, applied.value), 7)
            && c'.desk.records == c.desk.records[c.desk.nextId + 1 := GrantedRecord(c.desk.nextId, r)]
            && c'.sessions == ss
            && c'.receipts == c.receipts[run := IssuedReceipt(c.desk.nextId, r)]
            && out == Ok(Executed(Some(GrantedRecord(c.desk.nextId, r)), applied.value))
  {
    hide Authorize, Perform, R.Apply, SwitchCompleted, SwitchEvents, Logged, GrantedRecord, IssuedReceipt;
    SwitchApplies(c.sessions, run, r.command.targetMode.value);
    var lr := R.Apply(c.sessions, run, R.ToMode(r.command.targetMode.value)).1.value;
    var d, d1 := c.desk, Authorize(c.desk, r).0;
    SwitchAuthorize(d, r, run, lr);
    LoggedIds(d, d1, run, SwitchEvents(d.nextId, r, run, lr)[..3], 5);
    SwitchPerformed(c, r, run, d.nextId);
    SwitchCompletedLogs(d, d1, r, run, lr);
    CompletedKeepsRecords(d1, d.nextId, r, run, lr);
  }

  lemma CompletedKeepsRecords(d: Desk, n: nat, r: Request, run: RunScope, lr: R.LifecycleReceipt)
    ensures SwitchCompleted(d, n, r, run, lr).records == d.records
  {
  }

  lemma SwitchApplies(ss: R.Sessions, run: RunScope, mode: Text)
    requires run in ss
    ensures R.Apply(ss, run, R.ToMode(mode)).1.Ok?
  {
  }

  /** The events an accepted request adds to its run's ledger. */
  function AddedEvents(c: Control, r: Request, run: RunScope): seq<AuditEvent> {
    var applied := ApplyRuntime(c.sessions, run, r.command).1;
    if IsDenied(c, r, run) then DeniedEvents(c.desk.nextId, r, run)
    else if r.command.action.ModeSwitch? && applied.Ok? then SwitchEvents(c.desk.nextId, r, run, applied.value)
    else PlainEvents(c.desk.nextId, r, run, applied)
  }

  /** The active receipts after an accepted request. */
  function NextReceipts(c: Control, r: Request, run: RunScope): map<RunScope, ModeSwitchReceipt> {
    var applied := ApplyRuntime(c.sessions, run, r.command).1;
    if IsDenied(c, r, run) || applied.Err? then c.receipts
    else if r.command.action.ModeSwitch? then c.receipts[run := IssuedReceipt(c.desk.nextId, r)]
    else if applied.value.mode == OBSERVATION_ONLY then c.receipts - {run}
    else c.receipts
  }

  lemma RejectedRuntimeUnchanged(ss: R.Sessions, run: RunScope, c: Command)
    ensures ApplyRuntime(ss, run, c).1.Err? ==> ApplyRuntime(ss, run, c).0 == ss
  {
  }

  /** Everything one accepted request does. */
  lemma ExecuteClosed(c: Control, r: Request, run: RunScope)
    requires RunOf(r.command.scope) == Some(run) && run in c.sessions
    ensures var (c', out) := Execute(c, r);
            var (ss, applied) := ApplyRuntime(c.sessions, run, r.command);
            && c'.desk.log == c.desk.log[run := c.LedgerOf(run) + AddedEvents(c, r, run)]
            && c'.desk.nextId >= c.desk.nextId + 2
            && c'.sessions == (if IsDenied(c, r, run) then c.sessions else ss)
            && c'.receipts == NextReceipts(c, r, run)
            && (r.command.action.ModeSwitch? ==> c'.desk.nextId > c.desk.nextId + 3)
            && (!r.command.action.ModeSwitch? ==> c'.desk.records == c.desk.records)
            && (out == Ok(Denied(r.command.action)) <==> IsDenied(c, r, run))
            && (out.Err? <==> !IsDenied(c, r, run) && applied.Err?)
  {
    hide Perform, Deny, DeniedEvents, PlainEvents, SwitchEvents, ApplyRuntime;
    ScopeOfRun(r.command.scope, run);
    RejectedRuntimeUnchanged(c.sessions, run, r.command);
    if IsDenied(c, r, run) {
      DenyClosed(c.desk, r, run);
    } else if r.command.action.ModeSwitch? {
      SwitchClosed(c, r, run);
      SwitchIsToMode(c.sessions, run, r.command);
    } else {
      PlainClosed(c, r, run);
    }
  }

  lemma SwitchIsToMode(ss: R.Sessions, run: RunScope, c: Command)
    requires c.action.ModeSwitch?
    ensures ApplyRuntime(ss, run, c) == R.Apply(ss, run, R.ToMode(c.targetMode.value))
  {
  }

  /** A request that never reaches the gate changes nothing. */
  lemma UnacceptedChangesNothing(c: Control, r: Request)
    requires RunOf(r.command.scope).None? || RunOf(r.command.scope).value !in c.sessions
    ensures Execute(c, r).0 == c && Execute(c, r).1.Err?
  {
  }
}
