/** control/approval.py: approval records and the guarded lifecycle events they permit. */
module Approvals {
  import opened Prelude
  import opened FileTree
  import opened StoragePaths
  import opened Commands
  import opened AuditChain
  import opened Records
  import opened HostFilesystem
  import opened StorageLayout
  import opened Ledger

  datatype ApprovalStatus = Pending | Granted | Refused

  datatype ApprovalRecord = ApprovalRecord(id: nat, command: Command, status: ApprovalStatus, requested: Stamp,
                                           requestedContext: Text, reason: Option<Text>,
                                           resolved: Option<Stamp>, receipt: Option<ModeSwitchReceipt>)

  /** The approval desk: its records, the ledgers it writes, and the supply of fresh ids. */
  datatype Desk = Desk(records: map<nat, ApprovalRecord>, log: EventLog, nextId: nat)

  function WithReason(d: Details, reason: Option<Text>): Details {
    if reason.Some? then d[Reason := reason.value] else d
  }

  /** _record_event; the event takes the next fresh id. */
  function RecordEvent(d: Desk, run: RunScope, c: Command, kind: EventType, stamp: Stamp, cycleId: Option<Text>,
                       approvalId: Option<nat>, receiptId: Option<nat>, details: Details): Desk {
    var event := AuditEvent(d.nextId, c.id, c.action, kind, stamp, run, cycleId, approvalId, receiptId, details);
    d.(log := Recorded(d.log, event), nextId := d.nextId + 1)
  }

  function RecordRequest(d: Desk, required: set<Action>, c: Command, stamp: Stamp, context: Text, reason: Option<Text>,
                         cycleId: Option<Text>, details: Details): (Desk, Result<Option<ApprovalRecord>, Error>) {
    match RunOf(c.scope)
    case None => (d, Err(InvalidValue))
    case Some(run) =>
      var d1 := RecordEvent(d, run, c, EvRequested, stamp, cycleId, None, None,
                            WithReason(details, reason)[ModeContext := context]);
      if c.action !in required then (d1, Ok(None))
      else
        var record := ApprovalRecord(d1.nextId, c, Pending, stamp, context, reason, None, None);
        var d2 := d1.(records := d1.records[record.id := record], nextId := d1.nextId + 1);
        (RecordEvent(d2, run, c, EvApprovalRequested, stamp, cycleId, Some(record.id), None,
                     WithReason(map[ModeContext := context], reason)),
         Ok(Some(record)))
  }

  /** _receipt_for_approval */
  function ReceiptFor(record: ApprovalRecord, context: Text, id: nat): Option<ModeSwitchReceipt> {
    if !record.command.action.ModeSwitch? then None
    else Some(ModeSwitchReceipt(id, record.command.scope, context, record.command.targetMode.value, Active))
  }

  function OrElse<T>(a: Option<T>, b: Option<T>): Option<T> {
    if a.Some? then a else b
  }

  function ReceiptId(receipt: Option<ModeSwitchReceipt>): Option<nat> {
    if receipt.Some? then Some(receipt.value.id) else None
  }

  function Approve(d: Desk, id: nat, stamp: Stamp, context: Text, reason: Option<Text>):
    (Desk, Result<ApprovalRecord, Error>) {
    if id !in d.records then (d, Err(UnknownApproval))
    else if d.records[id].status != Pending then (d, Err(AlreadyResolved))
    else
      var pending := d.records[id];
      var receipt := ReceiptFor(pending, context, d.nextId);
      var granted := pending.(status := Granted, resolved := Some(stamp), reason := OrElse(reason, pending.reason),
                              receipt := receipt);
      var d1 := d.(records := d.records[id := granted], nextId := d.nextId + 1);
      match RunOf(granted.command.scope)
      case None => (d1, Err(InvalidValue))
      case Some(run) =>
        (RecordEvent(d1, run, granted.command, EvApproved, stamp, None, Some(id), ReceiptId(receipt),
                     WithReason(map[ModeContext := context], reason)),
         Ok(granted))
  }

  function Reject(d: Desk, id: nat, stamp: Stamp, reason: Option<Text>): (Desk, Result<ApprovalRecord, Error>) {
    if id !in d.records then (d, Err(UnknownApproval))
    else if d.records[id].status != Pending then (d, Err(AlreadyResolved))
    else
      var pending := d.records[id];
      var refused := pending.(status := Refused, resolved := Some(stamp), reason := OrElse(reason, pending.reason));
      var d1 := d.(records := d.records[id := refused]);
      match RunOf(refused.command.scope)
      case None => (d1, Err(InvalidValue))
      case Some(run) =>
        (RecordEvent(d1, run, refused.command, EvRejected, stamp, None, Some(id), None,
                     WithReason(map[], refused.reason)),
         Ok(refused))
  }

  /** _require_approved_record */
  function RequireApproved(d: Desk, required: set<Action>, c: Command, approvalId: Option<nat>):
    Result<Option<ApprovalRecord>, Error> {
    if c.action !in required then Ok(None)
    else if approvalId.None? then Err(PermissionDenied)
    else if approvalId.value !in d.records then Err(UnknownApproval)
    else
      var record := d.records[approvalId.value];
      if record.command.id != c.id || record.status != Granted then Err(PermissionDenied) else Ok(Some(record))
  }

  predicate IsLifecycle(kind: EventType) {
    kind.EvStarted? || kind.EvCompleted? || kind.EvFailed?
  }

  /** record_started, record_completed and record_failed. */
  function RecordLifecycle(d: Desk, required: set<Action>, kind: EventType, c: Command, stamp: Stamp,
                           approvalId: Option<nat>, cycleId: Option<Text>, details: Details): (Desk, Result<(), Error>)
    requires IsLifecycle(kind)
  {
    match RequireApproved(d, required, c, approvalId)
    case Err(e) => (d, Err(e))
    case Ok(record) =>
      match RunOf(c.scope)
      case None => (d, Err(InvalidValue))
      case Some(run) =>
        (RecordEvent(d, run, c, kind, stamp, cycleId, approvalId,
                     if record.Some? then ReceiptId(record.value.receipt) else None, details),
         Ok(()))
  }

  /* ---- any interleaving of approval calls ---- */

  datatype DeskCall =
    | CallRequest(c: Command, stamp: Stamp, context: Text, reason: Option<Text>, cycleId: Option<Text>,
                  details: Details)
    | CallApprove(id: nat, stamp: Stamp, context: Text, reason: Option<Text>)
    | CallReject(id: nat, stamp: Stamp, reason: Option<Text>)
    | CallLifecycle(kind: EventType, c: Command, stamp: Stamp, approvalId: Option<nat>, cycleId: Option<Text>,
                    details: Details)

  function DeskStep(required: set<Action>, d: Desk, call: DeskCall): Desk {
    match call
    case CallRequest(c, stamp, context, reason, cycleId, details) =>
      RecordRequest(d, required, c, stamp, context, reason, cycleId, details).0
    case CallApprove(id, stamp, context, reason) => Approve(d, id, stamp, context, reason).0
    case CallReject(id, stamp, reason) => Reject(d, id, stamp, reason).0
    case CallLifecycle(kind, c, stamp, approvalId, cycleId, details) =>
      if !IsLifecycle(kind) then d
      else RecordLifecycle(d, required, kind, c, stamp, approvalId, cycleId, details).0
  }

  function DeskRun(required: set<Action>, d: Desk, calls: seq<DeskCall>): Desk
    decreases |calls|
  {
    if calls == [] then d else DeskRun(required, DeskStep(required, d, calls[0]), calls[1..])
  }

  /** The ledgers hold an approval of the command whose event has a smaller id. Ids are handed out in order. */
  ghost predicate ApprovedEarlier(log: EventLog, before: nat, commandId: nat) {
    exists run, i :: 0 <= i < |EventsOf(log, run)| && Approves(EventsOf(log, run)[i], before, commandId)
  }

  predicate Approves(e: AuditEvent, before: nat, commandId: nat) {
    e.kind.EvApproved? && e.commandId == commandId && e.id < before
  }

  predicate IsGated(required: set<Action>, e: AuditEvent) {
    IsLifecycle(e.kind) && e.action in required
  }

  /** Each start, completion or failure of a gated action has an earlier approval of its own command. */
  ghost predicate GatedEventsApproved(required: set<Action>, log: EventLog) {
    forall run, j :: 0 <= j < |EventsOf(log, run)| && IsGated(required, EventsOf(log, run)[j])
      ==> ApprovedEarlier(log, EventsOf(log, run)[j].id, EventsOf(log, run)[j].commandId)
  }

  /** Ids grow along every ledger, and are below the supply. */
  ghost predicate IdsInOrder(log: EventLog, nextId: nat) {
    && (forall run, i :: 0 <= i < |EventsOf(log, run)| ==> EventsOf(log, run)[i].id < nextId)
    && (forall run, i, j :: 0 <= i < j < |EventsOf(log, run)| ==> EventsOf(log, run)[i].id < EventsOf(log, run)[j].id)
  }

  /** A record is filed under its own id and belongs to a run; a granted one has its approval in a ledger. */
  ghost predicate RecordSound(d: Desk, record: ApprovalRecord) {
    && RunOf(record.command.scope).Some?
    && (record.status.Granted? ==> ApprovedEarlier(d.log, d.nextId, record.command.id))
  }

  ghost predicate DeskInv(required: set<Action>, d: Desk) {
    && (forall id :: id in d.records ==> d.records[id].id == id && RecordSound(d, d.records[id]))
    && GatedEventsApproved(required, d.log)
    && IdsInOrder(d.log, d.nextId)
  }

  /** Recording one event extends one ledger and leaves the rest alone. */
  lemma RecordedEvents(log: EventLog, event: AuditEvent)
    ensures EventsOf(Recorded(log, event), event.run) == EventsOf(log, event.run) + [event]
    ensures forall run :: run != event.run ==> EventsOf(Recorded(log, event), run) == EventsOf(log, run)
  {
  }

  lemma EarlierStays(log: EventLog, event: AuditEvent, before: nat, more: nat, commandId: nat)
    requires ApprovedEarlier(log, before, commandId) && before <= more
    ensures ApprovedEarlier(Recorded(log, event), more, commandId)
  {
    RecordedEvents(log, event);
    var run, i :| 0 <= i < |EventsOf(log, run)| && Approves(EventsOf(log, run)[i], before, commandId);
    assert EventsOf(Recorded(log, event), run)[i] == EventsOf(log, run)[i];
  }

  lemma GatedKept(required: set<Action>, log: EventLog, event: AuditEvent)
    requires GatedEventsApproved(required, log)
    requires IsGated(required, event) ==> ApprovedEarlier(log, event.id, event.commandId)
    ensures GatedEventsApproved(required, Recorded(log, event))
  {
    var log' := Recorded(log, event);
    RecordedEvents(log, event);
    forall run, j | 0 <= j < |EventsOf(log', run)| && IsGated(required, EventsOf(log', run)[j])
      ensures ApprovedEarlier(log', EventsOf(log', run)[j].id, EventsOf(log', run)[j].commandId)
    {
      var e := EventsOf(log', run)[j];
      if j < |EventsOf(log, run)| { assert e == EventsOf(log, run)[j]; } else { assert e == event; }
      EarlierStays(log, event, e.id, e.id, e.commandId);
    }
  }

  lemma IdsKept(log: EventLog, event: AuditEvent)
    requires IdsInOrder(log, event.id)
    ensures IdsInOrder(Recorded(log, event), event.id + 1)
  {
    RecordedEvents(log, event);
  }

  /** One more event keeps the invariant if it is not gated, or is already approved. */
  lemma EventKeepsInv(required: set<Action>, d: Desk, run: RunScope, c: Command, kind: EventType, stamp: Stamp,
                      cycleId: Option<Text>, approvalId: Option<nat>, receiptId: Option<nat>, details: Details)
    requires DeskInv(required, d)
    requires IsLifecycle(kind) && c.action in required ==> ApprovedEarlier(d.log, d.nextId, c.id)
    ensures var d' := RecordEvent(d, run, c, kind, stamp, cycleId, approvalId, receiptId, details);
            DeskInv(required, d') && (kind.EvApproved? ==> ApprovedEarlier(d'.log, d'.nextId, c.id))
  {
    hide GatedEventsApproved, IdsInOrder, ApprovedEarlier, Recorded;
    var event := AuditEvent(d.nextId, c.id, c.action, kind, stamp, run, cycleId, approvalId, receiptId, details);
    GatedKept(required, d.log, event);
    IdsKept(d.log, event);
    if kind.EvApproved? { JustApproved(d.log, event); }
    forall id | id in d.records && d.records[id].status.Granted?
      ensures ApprovedEarlier(Recorded(d.log, event), d.nextId + 1, d.records[id].command.id)
    {
      assert RecordSound(d, d.records[id]);
      EarlierStays(d.log, event, d.nextId, d.nextId + 1, d.records[id].command.id);
    }
  }

  lemma JustApproved(log: EventLog, event: AuditEvent)
    requires event.kind.EvApproved?
    ensures ApprovedEarlier(Recorded(log, event), event.id + 1, event.commandId)
  {
    RecordedEvents(log, event);
    assert EventsOf(Recorded(log, event), event.run)[|EventsOf(log, event.run)|] == event;
  }

  /** A record may be replaced, granted ones only once their approval is in a ledger. */
  lemma RecordKeepsInv(required: set<Action>, d: Desk, record: ApprovalRecord)
    requires DeskInv(required, d) && RecordSound(d, record)
    ensures DeskInv(required, d.(records := d.records[record.id := record]))
  {
    hide GatedEventsApproved, IdsInOrder, ApprovedEarlier;
  }

  /** Ids may be skipped. */
  lemma SupplyKeepsInv(required: set<Action>, d: Desk, nextId: nat)
    requires DeskInv(required, d) && d.nextId <= nextId
    ensures DeskInv(required, d.(nextId := nextId))
    ensures forall id :: id in d.records ==> d.records[id].id == id && RecordSound(d, d.records[id])
  {
    hide GatedEventsApproved;
    forall id | id in d.records ensures RecordSound(d.(nextId := nextId), d.records[id]) {
      assert RecordSound(d, d.records[id]);
      if d.records[id].status.Granted? { EarlierLater(d.log, d.nextId, nextId, d.records[id].command.id); }
    }
  }

  lemma EarlierLater(log: EventLog, before: nat, more: nat, commandId: nat)
    requires ApprovedEarlier(log, before, commandId) && before <= more
    ensures ApprovedEarlier(log, more, commandId)
  {
    var run, i :| 0 <= i < |EventsOf(log, run)| && Approves(EventsOf(log, run)[i], before, commandId);
    assert Approves(EventsOf(log, run)[i], more, commandId);
  }

  lemma ApproveKeepsInv(required: set<Action>, d: Desk, id: nat, stamp: Stamp, context: Text, reason: Option<Text>)
    requires DeskInv(required, d)
    ensures DeskInv(required, Approve(d, id, stamp, context, reason).0)
  {
    hide DeskInv, ApprovedEarlier, WithReason, OrElse, ReceiptFor, RunOf;
    if id in d.records && d.records[id].status.Pending? {
      var d1 := d.(nextId := d.nextId + 1);
      SupplyKeepsInv(required, d, d.nextId + 1);
      assert RecordSound(d, d.records[id]);
      var granted := Approve(d, id, stamp, context, reason).0.records[id];
      var run := RunOf(granted.command.scope).value;
      var details := WithReason(map[ModeContext := context], reason);
      EventKeepsInv(required, d1, run, granted.command, EvApproved, stamp, None, Some(id), ReceiptId(granted.receipt),
                    details);
      RecordKeepsInv(required,
                     RecordEvent(d1, run, granted.command, EvApproved, stamp, None, Some(id),
                                 ReceiptId(granted.receipt), details),
                     granted);
    }
  }

  lemma RequestKeepsInv(required: set<Action>, d: Desk, c: Command, stamp: Stamp, context: Text, reason: Option<Text>,
                        cycleId: Option<Text>, details: Details)
    requires DeskInv(required, d)
    ensures DeskInv(required, RecordRequest(d, required, c, stamp, context, reason, cycleId, details).0)
  {
    hide DeskInv, ApprovedEarlier, WithReason, RecordEvent, RunOf;
    if RunOf(c.scope).Some? {
      var run := RunOf(c.scope).value;
      var asked := WithReason(details, reason)[ModeContext := context];
      EventKeepsInv(required, d, run, c, EvRequested, stamp, cycleId, None, None, asked);
      if c.action in required {
        var d1 := RecordEvent(d, run, c, EvRequested, stamp, cycleId, None, None, asked);
        var record := ApprovalRecord(d1.nextId, c, Pending, stamp, context, reason, None, None);
        RecordKeepsInv(required, d1, record);
        var d2 := d1.(records := d1.records[record.id := record], nextId := d1.nextId + 1);
        SupplyKeepsInv(required, d1.(records := d2.records), d2.nextId);
        EventKeepsInv(required, d2, run, c, EvApprovalRequested, stamp, cycleId, Some(record.id), None,
                      WithReason(map[ModeContext := context], reason));
      }
    }
  }

  lemma RejectKeepsInv(required: set<Action>, d: Desk, id: nat, stamp: Stamp, reason: Option<Text>)
    requires DeskInv(required, d)
    ensures DeskInv(required, Reject(d, id, stamp, reason).0)
  {
    hide DeskInv, ApprovedEarlier, WithReason, OrElse, RecordEvent, RunOf;
    if id in d.records && d.records[id].status.Pending? {
      SupplyKeepsInv(required, d, d.nextId);
      var pending := d.records[id];
      assert RecordSound(d, pending);
      var refused := pending.(status := Refused, resolved := Some(stamp), reason := OrElse(reason, pending.reason));
      RecordKeepsInv(required, d, refused);
      EventKeepsInv(required, d.(records := d.records[id := refused]), RunOf(refused.command.scope).value,
                    refused.command, EvRejected, stamp, None, Some(id), None, WithReason(map[], refused.reason));
    }
  }

  lemma LifecycleKeepsInv(required: set<Action>, d: Desk, kind: EventType, c: Command, stamp: Stamp,
                          approvalId: Option<nat>, cycleId: Option<Text>, details: Details)
    requires DeskInv(required, d) && IsLifecycle(kind)
    ensures DeskInv(required, RecordLifecycle(d, required, kind, c, stamp, approvalId, cycleId, details).0)
  {
    hide GatedEventsApproved, IdsInOrder, ApprovedEarlier, RecordEvent;
    var record := RequireApproved(d, required, c, approvalId);
    if RunOf(c.scope).Some? && record.Ok? {
      if c.action in required { assert RecordSound(d, d.records[approvalId.value]); }
      EventKeepsInv(required, d, RunOf(c.scope).value, c, kind, stamp, cycleId, approvalId,
                    if record.value.Some? then ReceiptId(record.value.value.receipt) else None, details);
    }
  }

  lemma StepKeepsInv(required: set<Action>, d: Desk, call: DeskCall)
    requires DeskInv(required, d)
    ensures DeskInv(required, DeskStep(required, d, call))
  {
    hide DeskInv, RecordRequest, Approve, Reject, RecordLifecycle;
    match call {
      case CallRequest(c, stamp, context, reason, cycleId, details) =>
        RequestKeepsInv(required, d, c, stamp, context, reason, cycleId, details);
      case CallApprove(id, stamp, context, reason) =>
        ApproveKeepsInv(required, d, id, stamp, context, reason);
      case CallReject(id, stamp, reason) =>
        RejectKeepsInv(required, d, id, stamp, reason);
      case CallLifecycle(kind, c, stamp, approvalId, cycleId, details) =>
        if IsLifecycle(kind) {
          LifecycleKeepsInv(required, d, kind, c, stamp, approvalId, cycleId, details);
        }
    }
  }

  lemma {:induction false} RunKeepsInv(required: set<Action>, d: Desk, calls: seq<DeskCall>)
    requires DeskInv(required, d)
    ensures DeskInv(required, DeskRun(required, d, calls))
    decreases |calls|
  {
    hide DeskInv, DeskStep;
    if calls != [] {
      StepKeepsInv(required, d, calls[0]);
      RunKeepsInv(required, DeskStep(required, d, calls[0]), calls[1..]);
    }
  }

  const NO_CALLS: Desk := Desk(map[], map[], 0)

  /** Under any interleaving of approval calls from an empty desk, no gated start, completion or failure is recorded
      without an approval of the same command recorded before it. */
  lemma NoUnapprovedLifecycle(required: set<Action>, calls: seq<DeskCall>)
    ensures GatedEventsApproved(required, DeskRun(required, NO_CALLS, calls).log)
  {
    hide DeskRun;
    RunKeepsInv(required, NO_CALLS, calls);
  }

  /* ---- in the same ledger ---- */

  /** The run a call addresses is the one its command id stands for. */
  predicate Identified(home: nat -> Option<RunScope>, call: DeskCall) {
    (call.CallRequest? || call.CallLifecycle?) ==> home(call.c.id) == RunOf(call.c.scope)
  }

  /** Events and records are kept at the run their command id stands for. */
  ghost predicate AtHome(home: nat -> Option<RunScope>, d: Desk) {
    && (forall run, i :: 0 <= i < |EventsOf(d.log, run)| ==> home(EventsOf(d.log, run)[i].commandId) == Some(run))
    && (forall id :: id in d.records ==> home(d.records[id].command.id) == RunOf(d.records[id].command.scope))
  }

  lemma EventKeepsHome(home: nat -> Option<RunScope>, d: Desk, run: RunScope, c: Command, kind: EventType, stamp: Stamp,
                       cycleId: Option<Text>, approvalId: Option<nat>, receiptId: Option<nat>, details: Details)
    requires AtHome(home, d) && home(c.id) == Some(run)
    ensures AtHome(home, RecordEvent(d, run, c, kind, stamp, cycleId, approvalId, receiptId, details))
  {
    RecordedEvents(d.log,
                   AuditEvent(d.nextId, c.id, c.action, kind, stamp, run, cycleId, approvalId, receiptId, details));
  }

  lemma StepKeepsHome(home: nat -> Option<RunScope>, required: set<Action>, d: Desk, call: DeskCall)
    requires AtHome(home, d) && Identified(home, call)
    ensures AtHome(home, DeskStep(required, d, call))
  {
    match call {
      case CallRequest(c, stamp, context, reason, cycleId, details) =>
        RequestKeepsHome(home, d, required, c, stamp, context, reason, cycleId, details);
      case CallApprove(id, stamp, context, reason) => ApproveKeepsHome(home, d, id, stamp, context, reason);
      case CallReject(id, stamp, reason) => RejectKeepsHome(home, d, id, stamp, reason);
      case CallLifecycle(kind, c, stamp, approvalId, cycleId, details) =>
        if IsLifecycle(kind) { LifecycleKeepsHome(home, d, required, kind, c, stamp, approvalId, cycleId, details); }
    }
  }

  lemma FiledAtHome(home: nat -> Option<RunScope>, d: Desk, record: ApprovalRecord, id: nat, nextId: nat)
    requires AtHome(home, d) && home(record.command.id) == RunOf(record.command.scope)
    ensures AtHome(home, Desk(d.records[id := record], d.log, nextId))
  {
  }

  lemma RequestKeepsHome(home: nat -> Option<RunScope>, d: Desk, required: set<Action>, c: Command, stamp: Stamp,
                         context: Text, reason: Option<Text>, cycleId: Option<Text>, details: Details)
    requires AtHome(home, d) && home(c.id) == RunOf(c.scope)
    ensures AtHome(home, RecordRequest(d, required, c, stamp, context, reason, cycleId, details).0)
  {
    hide AtHome, RecordEvent, WithReason;
    if RunOf(c.scope).Some? {
      var run := RunOf(c.scope).value;
      var asked := WithReason(details, reason)[ModeContext := context];
      EventKeepsHome(home, d, run, c, EvRequested, stamp, cycleId, None, None, asked);
      if c.action in required {
        var d1 := RecordEvent(d, run, c, EvRequested, stamp, cycleId, None, None, asked);
        var record := ApprovalRecord(d1.nextId, c, Pending, stamp, context, reason, None, None);
        FiledAtHome(home, d1, record, record.id, d1.nextId + 1);
        EventKeepsHome(home, Desk(d1.records[record.id := record], d1.log, d1.nextId + 1), run, c, EvApprovalRequested,
                       stamp, cycleId, Some(record.id), None, WithReason(map[ModeContext := context], reason));
      }
    }
  }

  lemma RecordsAtHome(home: nat -> Option<RunScope>, d: Desk, id: nat)
    requires AtHome(home, d) && id in d.records
    ensures home(d.records[id].command.id) == RunOf(d.records[id].command.scope)
  {
  }

  lemma ApproveKeepsHome(home: nat -> Option<RunScope>, d: Desk, id: nat, stamp: Stamp, context: Text,
                         reason: Option<Text>)
    requires AtHome(home, d)
    ensures AtHome(home, Approve(d, id, stamp, context, reason).0)
  {
    hide AtHome, RecordEvent, WithReason, OrElse, ReceiptFor;
    if id in d.records && d.records[id].status.Pending? {
      RecordsAtHome(home, d, id);
      var pending := d.records[id];
      var granted := pending.(status := Granted, resolved := Some(stamp), reason := OrElse(reason, pending.reason),
                              receipt := ReceiptFor(pending, context, d.nextId));
      FiledAtHome(home, d, granted, id, d.nextId + 1);
      if RunOf(granted.command.scope).Some? {
        EventKeepsHome(home, Desk(d.records[id := granted], d.log, d.nextId + 1), RunOf(granted.command.scope).value,
                       granted.command, EvApproved, stamp, None, Some(id), ReceiptId(granted.receipt),
                       WithReason(map[ModeContext := context], reason));
      }
    }
  }

  lemma RejectKeepsHome(home: nat -> Option<RunScope>, d: Desk, id: nat, stamp: Stamp, reason: Option<Text>)
    requires AtHome(home, d)
    ensures AtHome(home, Reject(d, id, stamp, reason).0)
  {
    hide AtHome, RecordEvent, WithReason, OrElse;
    if id in d.records && d.records[id].status.Pending? {
      RecordsAtHome(home, d, id);
      var pending := d.records[id];
      var refused := pending.(status := Refused, resolved := Some(stamp), reason := OrElse(reason, pending.reason));
      FiledAtHome(home, d, refused, id, d.nextId);
      if RunOf(refused.command.scope).Some? {
        EventKeepsHome(home, Desk(d.records[id := refused], d.log, d.nextId), RunOf(refused.command.scope).value,
                       refused.command, EvRejected, stamp, None, Some(id), None, WithReason(map[], refused.reason));
      }
    }
  }

  lemma LifecycleKeepsHome(home: nat -> Option<RunScope>, d: Desk, required: set<Action>, kind: EventType, c: Command,
                           stamp: Stamp, approvalId: Option<nat>, cycleId: Option<Text>, details: Details)
    requires AtHome(home, d) && home(c.id) == RunOf(c.scope) && IsLifecycle(kind)
    ensures AtHome(home, RecordLifecycle(d, required, kind, c, stamp, approvalId, cycleId, details).0)
  {
    hide AtHome, RecordEvent;
    var record := RequireApproved(d, required, c, approvalId);
    if RunOf(c.scope).Some? && record.Ok? {
      EventKeepsHome(home, d, RunOf(c.scope).value, c, kind, stamp, cycleId, approvalId,
                     if record.value.Some? then ReceiptId(record.value.value.receipt) else None, details);
    }
  }

  lemma {:induction false} RunKeepsHome(home: nat -> Option<RunScope>, required: set<Action>, d: Desk,
                                        calls: seq<DeskCall>)
    requires AtHome(home, d) && forall i :: 0 <= i < |calls| ==> Identified(home, calls[i])
    ensures AtHome(home, DeskRun(required, d, calls))
    decreases |calls|
  {
    hide AtHome, DeskStep;
    if calls != [] {
      StepKeepsHome(home, required, d, calls[0]);
      RunKeepsHome(home, required, DeskStep(required, d, calls[0]), calls[1..]);
    }
  }

  ghost predicate ApprovedBefore(events: seq<AuditEvent>, n: nat, commandId: nat)
    requires n <= |events|
  {
    exists i :: 0 <= i < n && events[i].kind.EvApproved? && events[i].commandId == commandId
  }

  /** If every command id stands for one run, the approval precedes the event in the same ledger. */
  lemma ApprovedInSameLedger(home: nat -> Option<RunScope>, required: set<Action>, calls: seq<DeskCall>, run: RunScope,
                             j: nat)
    requires forall i :: 0 <= i < |calls| ==> Identified(home, calls[i])
    requires var events := EventsOf(DeskRun(required, NO_CALLS, calls).log, run);
             j < |events| && IsGated(required, events[j])
    ensures var events := EventsOf(DeskRun(required, NO_CALLS, calls).log, run);
            ApprovedBefore(events, j, events[j].commandId)
  {
    hide DeskRun;
    var d := DeskRun(required, NO_CALLS, calls);
    RunKeepsInv(required, NO_CALLS, calls);
    RunKeepsHome(home, required, NO_CALLS, calls);
    var e := EventsOf(d.log, run)[j];
    assert ApprovedEarlier(d.log, e.id, e.commandId);
    var other, i :| 0 <= i < |EventsOf(d.log, other)| && Approves(EventsOf(d.log, other)[i], e.id, e.commandId);
    assert other == run;
    assert i < j;
  }

  /* ---- the service ---- */

  class ApprovalService {
    const ledger: AuditLedger
    const required: set<Action>
    var records: map<nat, ApprovalRecord>
    var nextId: nat

    constructor (ledger: AuditLedger, required: set<Action>)
      ensures this.ledger == ledger && this.required == required
      ensures records == map[] && nextId == 0
    {
      this.ledger, this.required, records, nextId := ledger, required, map[], 0;
    }

    ghost function State(): Desk
      reads this, ledger
    {
      Desk(records, ledger.log, nextId)
    }

    method FreshId() returns (id: nat)
      modifies this`nextId
      ensures id == old(nextId) && nextId == id + 1
    {
      id := nextId;
      nextId := nextId + 1;
    }

    method Record(run: RunScope, c: Command, kind: EventType, stamp: Stamp, cycleId: Option<Text>,
                  approvalId: Option<nat>, receiptId: Option<nat>, details: Details)
      requires ledger.Valid()
      modifies this, ledger, ledger.fs
      ensures ledger.Valid()
      ensures State() == RecordEvent(old(State()), run, c, kind, stamp, cycleId, approvalId, receiptId, details)
    {
      hide AuditLedger.Valid, AppendEntry;
      var id := FreshId();
      var entry := ledger.Append(AuditEvent(id, c.id, c.action, kind, stamp, run, cycleId, approvalId, receiptId,
                                            details));
    }

    method Request(c: Command, stamp: Stamp, context: Text, reason: Option<Text>, cycleId: Option<Text>,
                   details: Details)
      returns (r: Result<Option<ApprovalRecord>, Error>)
      requires ledger.Valid()
      modifies this, ledger, ledger.fs
      ensures ledger.Valid()
      ensures (State(), r) == RecordRequest(old(State()), required, c, stamp, context, reason, cycleId, details)
    {
      hide RecordEvent, AuditLedger.Valid;
      if RunOf(c.scope).None? {
        return Err(InvalidValue);
      }
      var run := RunOf(c.scope).value;
      Record(run, c, EvRequested, stamp, cycleId, None, None, WithReason(details, reason)[ModeContext := context]);
      if c.action !in required {
        return Ok(None);
      }
      var id := FreshId();
      var record := ApprovalRecord(id, c, Pending, stamp, context, reason, None, None);
      records := records[id := record];
      Record(run, c, EvApprovalRequested, stamp, cycleId, Some(id), None,
             WithReason(map[ModeContext := context], reason));
      return Ok(Some(record));
    }

    method Grant(id: nat, stamp: Stamp, context: Text, reason: Option<Text>) returns (r: Result<ApprovalRecord, Error>)
      requires ledger.Valid()
      modifies this, ledger, ledger.fs
      ensures ledger.Valid()
      ensures (State(), r) == Approve(old(State()), id, stamp, context, reason)
    {
      if id !in records {
        return Err(UnknownApproval);
      }
      var pending := records[id];
      if pending.status != Pending {
        return Err(AlreadyResolved);
      }
      var receiptId := FreshId();
      var receipt := ReceiptFor(pending, context, receiptId);
      var granted := pending.(status := Granted, resolved := Some(stamp), reason := OrElse(reason, pending.reason),
                              receipt := receipt);
      records := records[id := granted];
      if RunOf(granted.command.scope).None? {
        return Err(InvalidValue);
      }
      Record(RunOf(granted.command.scope).value, granted.command, EvApproved, stamp, None, Some(id), ReceiptId(receipt),
             WithReason(map[ModeContext := context], reason));
      return Ok(granted);
    }

    method Refuse(id: nat, stamp: Stamp, reason: Option<Text>) returns (r: Result<ApprovalRecord, Error>)
      requires ledger.Valid()
      modifies this, ledger, ledger.fs
      ensures ledger.Valid()
      ensures (State(), r) == Reject(old(State()), id, stamp, reason)
    {
      if id !in records {
        return Err(UnknownApproval);
      }
      var pending := records[id];
      if pending.status != Pending {
        return Err(AlreadyResolved);
      }
      var refused := pending.(status := Refused, resolved := Some(stamp), reason := OrElse(reason, pending.reason));
      records := records[id := refused];
      if RunOf(refused.command.scope).None? {
        return Err(InvalidValue);
      }
      Record(RunOf(refused.command.scope).value, refused.command, EvRejected, stamp, None, Some(id), None,
             WithReason(map[], refused.reason));
      return Ok(refused);
    }

    method RequireApprovedRecord(c: Command, approvalId: Option<nat>) returns (r: Result<Option<ApprovalRecord>, Error>)
      ensures r == RequireApproved(State(), required, c, approvalId)
    {
      if c.action !in required {
        return Ok(None);
      }
      if approvalId.None? {
        return Err(PermissionDenied);
      }
      if approvalId.value !in records {
        return Err(UnknownApproval);
      }
      var record := records[approvalId.value];
      if record.command.id != c.id || record.status != Granted {
        return Err(PermissionDenied);
      }
      return Ok(Some(record));
    }

    method Lifecycle(kind: EventType, c: Command, stamp: Stamp, approvalId: Option<nat>, cycleId: Option<Text>,
                     details: Details) returns (r: Result<(), Error>)
      requires ledger.Valid() && IsLifecycle(kind)
      modifies this, ledger, ledger.fs
      ensures ledger.Valid()
      ensures (State(), r) == RecordLifecycle(old(State()), required, kind, c, stamp, approvalId, cycleId, details)
    {
      hide RecordEvent, RequireApproved, AuditLedger.Valid;
      var record := RequireApprovedRecord(c, approvalId);
      if record.Err? {
        return Err(record.error);
      }
      if RunOf(c.scope).None? {
        return Err(InvalidValue);
      }
      Record(RunOf(c.scope).value, c, kind, stamp, cycleId, approvalId,
             if record.value.Some? then ReceiptId(record.value.value.receipt) else None, details);
      return Ok(());
    }
  }
}
