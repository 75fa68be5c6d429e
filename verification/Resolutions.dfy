/** The life of an approval: it is asked for once, resolved once, and then stands. */
module Resolutions {
  import opened Prelude
  import opened StoragePaths
  import opened Commands
  import opened AuditChain
  import opened Ledger
  import opened Approvals

  predicate Resolves(call: DeskCall, id: nat) {
    (call.CallApprove? || call.CallReject?) && call.id == id
  }

  /** An optional detail. */
  function Note(key: DetailKey, value: Option<string>): Details {
    if value.Some? then map[key := value.value] else map[]
  }

  /* ---- asking ---- */

  /** A request is recorded with its reason and mode context; if the action needs an approval, a pending record with
      everything that was asked is filed under a fresh id, and that is recorded too. Nothing else changes. */
  lemma RequestExact(required: set<Action>, d: Desk, c: Command, stamp: Stamp, context: Text, reason: Option<Text>,
                     cycleId: Option<Text>, details: Details)
    requires RunOf(c.scope).Some?
    ensures var run, id := RunOf(c.scope).value, d.nextId + 1;
            var (d', r) := RecordRequest(d, required, c, stamp, context, reason, cycleId, details);
            var asked := AuditEvent(d.nextId, c.id, c.action, EvRequested, stamp, run, cycleId, None, None,
                                    details + Note(Reason, reason) + map[ModeContext := context]);
            if c.action in required then
              && r == Ok(Some(ApprovalRecord(id, c, Pending, stamp, context, reason, None, None)))
              && d'.records == d.records[id := r.value.value] && d'.nextId > id
              && d'.log == d.log[run := EventsOf(d.log, run) + [asked]
                                        + [AuditEvent(id + 1, c.id, c.action, EvApprovalRequested, stamp, run, cycleId,
                                                      Some(id), None,
                                                      map[ModeContext := context] + Note(Reason, reason))]]
            else
              && r == Ok(None) && d'.records == d.records && d'.nextId > d.nextId
              && d'.log == d.log[run := EventsOf(d.log, run) + [asked]]
  {
    hide WithReason, Note, RecordEvent;
    NotedReason(details, reason);
    NotedReason(map[ModeContext := context], reason);
    var run, asked := RunOf(c.scope).value, WithReason(details, reason)[ModeContext := context];
    assert asked == WithReason(details, reason) + map[ModeContext := context];
    OneRecorded(d, run, c, EvRequested, stamp, cycleId, None, None, asked);
    if c.action in required {
      var d1 := RecordEvent(d, run, c, EvRequested, stamp, cycleId, None, None, asked);
      var record := ApprovalRecord(d1.nextId, c, Pending, stamp, context, reason, None, None);
      OneRecorded(d1.(records := d1.records[record.id := record], nextId := d1.nextId + 1), run, c, EvApprovalRequested,
                  stamp, cycleId, Some(record.id), None, WithReason(map[ModeContext := context], reason));
    }
  }

  lemma OneRecorded(d: Desk, run: RunScope, c: Command, kind: EventType, stamp: Stamp, cycleId: Option<Text>,
                    approvalId: Option<nat>, receiptId: Option<nat>, details: Details)
    ensures var event := AuditEvent(d.nextId, c.id, c.action, kind, stamp, run, cycleId, approvalId, receiptId,
                                    details);
            RecordEvent(d, run, c, kind, stamp, cycleId, approvalId, receiptId, details)
            == Desk(d.records, d.log[run := EventsOf(d.log, run) + [event]], d.nextId + 1)
  {
  }

  lemma NotedReason(d: Details, reason: Option<Text>)
    ensures WithReason(d, reason) == d + Note(Reason, reason)
    ensures WithReason(map[], reason) == Note(Reason, reason)
  {
  }

  /* ---- resolving ---- */

  /** What a record becomes when it is resolved; a granted mode switch gets an active receipt under the given id. */
  function Resolution(record: ApprovalRecord, call: DeskCall, receiptId: nat): ApprovalRecord
    requires call.CallApprove? || call.CallReject?
  {
    var c := record.command;
    ApprovalRecord(record.id, c, if call.CallApprove? then Granted else Refused, record.requested,
                   record.requestedContext, if call.reason.None? then record.reason else call.reason, Some(call.stamp),
                   if call.CallReject? then record.receipt
                   else if c.action == ModeSwitch
                   then Some(ModeSwitchReceipt(receiptId, c.scope, call.context, c.targetMode.value, Active))
                   else None)
  }

  /** A pending record is resolved as asked, and that is recorded in its run's ledger alone. */
  lemma ResolveExact(required: set<Action>, d: Desk, call: DeskCall, id: nat)
    requires Resolves(call, id) && id in d.records && d.records[id].status == Pending
    requires RunOf(d.records[id].command.scope).Some?
    ensures var record := d.records[id];
            var (c, run) := (record.command, RunOf(record.command.scope).value);
            var (d', r) := if call.CallApprove? then Approve(d, id, call.stamp, call.context, call.reason)
                           else Reject(d, id, call.stamp, call.reason);
            && d' == DeskStep(required, d, call)
            && r == Ok(Resolution(record, call, d.nextId)) && d'.records == d.records[id := r.value]
            && d'.nextId == (if call.CallApprove? then d.nextId + 2 else d.nextId + 1)
            && d'.log == d.log[run := EventsOf(d.log, run) + [
                 if call.CallApprove?
                 then AuditEvent(d.nextId + 1, c.id, c.action, EvApproved, call.stamp, run, None, Some(id),
                                 if c.action == ModeSwitch then Some(d.nextId) else None,
                                 map[ModeContext := call.context] + Note(Reason, call.reason))
                 else AuditEvent(d.nextId, c.id, c.action, EvRejected, call.stamp, run, None, Some(id), None,
                                 Note(Reason, r.value.reason))]]
  {
    hide WithReason, Note;
    NotedReason(map[], if call.reason.None? then d.records[id].reason else call.reason);
    if call.CallApprove? { NotedReason(map[ModeContext := call.context], call.reason); }
  }

  /** A record that is resolved, or not there, is not resolved again, and nothing changes. */
  lemma ResolveRefused(d: Desk, call: DeskCall, id: nat)
    requires Resolves(call, id) && (id in d.records ==> d.records[id].status != Pending)
    ensures var error := if id in d.records then AlreadyResolved else UnknownApproval;
            (if call.CallApprove? then Approve(d, id, call.stamp, call.context, call.reason)
             else Reject(d, id, call.stamp, call.reason)) == (d, Err(error))
  {
  }

  /* ---- using ---- */

  /** A start, completion or failure is recorded as given, under the approval and its receipt: always for an action that
      needs no approval, and otherwise exactly with the id of a granted record of the same command. A refused one
      changes nothing. */
  lemma LifecycleExact(required: set<Action>, d: Desk, kind: EventType, c: Command, stamp: Stamp,
                       approvalId: Option<nat>, cycleId: Option<Text>, details: Details)
    requires kind in {EvStarted, EvCompleted, EvFailed} && RunOf(c.scope).Some?
    ensures var run := RunOf(c.scope).value;
            var known := approvalId.Some? && approvalId.value in d.records;
            var (d', r) := RecordLifecycle(d, required, kind, c, stamp, approvalId, cycleId, details);
            && (r.Ok? <==> c.action !in required
                           || (known && d.records[approvalId.value].status == Granted
                               && d.records[approvalId.value].command.id == c.id))
            && (r.Err? ==> d' == d && r.error == if approvalId.Some? && !known then UnknownApproval
                                                 else PermissionDenied)
            && (r.Ok? ==>
                  && d'.records == d.records
                  && d'.log == d.log[run := EventsOf(d.log, run) + [
                       AuditEvent(d.nextId, c.id, c.action, kind, stamp, run, cycleId, approvalId,
                                  if c.action in required && d.records[approvalId.value].receipt.Some?
                                  then Some(d.records[approvalId.value].receipt.value.id) else None, details)]])
  {
  }

  /* ---- over any later calls ---- */

  lemma StepKeepsRecord(required: set<Action>, d: Desk, call: DeskCall, id: nat)
    requires id in d.records && id < d.nextId && (Resolves(call, id) ==> d.records[id].status != Pending)
    ensures var d' := DeskStep(required, d, call);
            id in d'.records && d'.records[id] == d.records[id] && id < d'.nextId
  {
    hide Recorded;
  }

  /** A record stays as it is through any calls that do not resolve it, and for good once it is resolved. */
  lemma {:induction false} RecordStands(required: set<Action>, d: Desk, calls: seq<DeskCall>, id: nat)
    requires id in d.records && id < d.nextId
    requires d.records[id].status != Pending || forall i :: 0 <= i < |calls| ==> !Resolves(calls[i], id)
    ensures var d' := DeskRun(required, d, calls);
            id in d'.records && d'.records[id] == d.records[id] && id < d'.nextId
    decreases |calls|
  {
    hide DeskStep;
    if calls != [] {
      StepKeepsRecord(required, d, calls[0], id);
      RecordStands(required, DeskStep(required, d, calls[0]), calls[1..], id);
    }
  }

  /** A resolution is final: through any later calls the record stays granted or refused as it is, every later attempt
      to resolve it raises and changes nothing, and starts, completions and failures of a gated command get by with it
      exactly if it is granted and of that command. */
  lemma ResolutionIsFinal(required: set<Action>, d: Desk, calls: seq<DeskCall>, id: nat)
    requires id in d.records && id < d.nextId && d.records[id].status != Pending
    ensures var record, later := d.records[id], DeskRun(required, d, calls);
            && id in later.records && later.records[id] == record
            && (forall stamp, context, reason ::
                  Approve(later, id, stamp, context, reason) == (later, Err(AlreadyResolved)))
            && (forall stamp, reason :: Reject(later, id, stamp, reason) == (later, Err(AlreadyResolved)))
            && (forall kind, c: Command, stamp, cycleId, details ::
                  kind in {EvStarted, EvCompleted, EvFailed} && c.action in required && RunOf(c.scope).Some? ==>
                    var (d', r) := RecordLifecycle(later, required, kind, c, stamp, Some(id), cycleId, details);
                    if record.status == Granted && record.command.id == c.id then r == Ok(())
                    else d' == later && r == Err(PermissionDenied))
  {
    hide DeskRun, Approve, Reject, RecordLifecycle;
    RecordStands(required, d, calls, id);
    var later := DeskRun(required, d, calls);
    forall stamp, context, reason
      ensures Approve(later, id, stamp, context, reason) == (later, Err(AlreadyResolved))
    {
      ResolveRefused(later, CallApprove(id, stamp, context, reason), id);
    }
    forall stamp, reason ensures Reject(later, id, stamp, reason) == (later, Err(AlreadyResolved)) {
      ResolveRefused(later, CallReject(id, stamp, reason), id);
    }
    forall kind, c: Command, stamp, cycleId, details
      | kind in {EvStarted, EvCompleted, EvFailed} && c.action in required && RunOf(c.scope).Some?
      ensures var (d', r) := RecordLifecycle(later, required, kind, c, stamp, Some(id), cycleId, details);
              if d.records[id].status == Granted && d.records[id].command.id == c.id then r == Ok(())
              else d' == later && r == Err(PermissionDenied)
    {
      LifecycleWith(required, later, id, kind, c, stamp, cycleId, details);
    }
  }

  lemma LifecycleWith(required: set<Action>, d: Desk, id: nat, kind: EventType, c: Command, stamp: Stamp,
                      cycleId: Option<Text>, details: Details)
    requires kind in {EvStarted, EvCompleted, EvFailed} && c.action in required && RunOf(c.scope).Some?
    requires id in d.records
    ensures var (d', r) := RecordLifecycle(d, required, kind, c, stamp, Some(id), cycleId, details);
            if d.records[id].status == Granted && d.records[id].command.id == c.id then r == Ok(())
            else d' == d && r == Err(PermissionDenied)
  {
    LifecycleExact(required, d, kind, c, stamp, Some(id), cycleId, details);
  }

  lemma {:induction false} DeskRunAppend(required: set<Action>, d: Desk, a: seq<DeskCall>, b: seq<DeskCall>)
    ensures DeskRun(required, d, a + b) == DeskRun(required, DeskRun(required, d, a), b)
    decreases |a|
  {
    hide DeskStep;
    if a == [] {
      assert a + b == b;
    } else {
      DeskRunAppend(required, DeskStep(required, d, a[0]), a[1..], b);
      assert (a + b)[1..] == a[1..] + b;
    }
  }

  /** From the request on, the first call that resolves an approval decides it for good: whatever comes between and
      after, the record is what was asked, resolved by that call - refused without a receipt, or granted, with an active
      receipt for the scope, the target mode and the context of the grant if it is a mode switch. */
  lemma FirstResolutionDecides(required: set<Action>, d: Desk, c: Command, stamp: Stamp, context: Text,
                               reason: Option<Text>, cycleId: Option<Text>, details: Details, before: seq<DeskCall>,
                               call: DeskCall, after: seq<DeskCall>)
    requires RunOf(c.scope).Some? && c.action in required && Resolves(call, d.nextId + 1)
    requires forall i :: 0 <= i < |before| ==> !Resolves(before[i], d.nextId + 1)
    ensures var id := d.nextId + 1;
            var (d1, r) := RecordRequest(d, required, c, stamp, context, reason, cycleId, details);
            var d2 := DeskRun(required, d1, before + [call] + after);
            && r.Ok? && r.value.Some? && r.value.value.id == id && id in d2.records
            && exists receiptId ::
                 d2.records[id]
                 == Resolution(ApprovalRecord(id, c, Pending, stamp, context, reason, None, None), call, receiptId)
  {
    hide RecordRequest, DeskRun, DeskStep, Resolution, Resolves;
    var id := d.nextId + 1;
    RequestExact(required, d, c, stamp, context, reason, cycleId, details);
    var d1 := RecordRequest(d, required, c, stamp, context, reason, cycleId, details).0;
    RecordStands(required, d1, before, id);
    var d2 := DeskRun(required, d1, before);
    Resolved(required, d2, call, id);
    var d3 := DeskStep(required, d2, call);
    RecordStands(required, d3, after, id);
    DeskRunAppend(required, d1, before + [call], after);
    DeskRunAppend(required, d1, before, [call]);
    OneCall(required, d2, call);
  }

  lemma OneCall(required: set<Action>, d: Desk, call: DeskCall)
    ensures DeskRun(required, d, [call]) == DeskStep(required, d, call)
  {
    assert [call][1..] == [];
    assert DeskRun(required, d, [call]) == DeskRun(required, DeskStep(required, d, call), []);
  }

  lemma Resolved(required: set<Action>, d: Desk, call: DeskCall, id: nat)
    requires Resolves(call, id) && id in d.records && id < d.nextId && d.records[id].status == Pending
    requires RunOf(d.records[id].command.scope).Some?
    ensures var d' := DeskStep(required, d, call);
            && id in d'.records && id < d'.nextId && d'.records[id] == Resolution(d.records[id], call, d.nextId)
            && d'.records[id].status != Pending
  {
    hide Approve, Reject;
    ResolveExact(required, d, call, id);
  }
}
