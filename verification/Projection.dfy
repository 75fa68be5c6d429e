/** The read model against the gate, over every run of the control plane. */
module Projection {
  import opened Prelude
  import opened StoragePaths
  import opened Commands
  import opened AuditChain
  import opened Ledger
  import opened Dispatcher
  import opened Approvals
  import opened Orchestrator
  import opened ControlSteps
  import opened ControlRuns
  import opened Query
  import opened Switchings
  import R = Runtime

  lemma {:induction false} SelectAppend(a: seq<AuditEvent>, b: seq<AuditEvent>)
    ensures Select(a + b) == Select(a) + Select(b)
    decreases |b|
  {
    if b == [] {
      assert a + b == a;
    } else {
      var n := |b| - 1;
      assert (a + b)[..|a + b| - 1] == a + b[..n];
      SelectAppend(a, b[..n]);
    }
  }

  lemma {:induction false} SelectsNothing(b: seq<AuditEvent>)
    requires forall i :: 0 <= i < |b| ==> !Concerns(b[i])
    ensures Select(b) == []
  {
    if b != [] { SelectsNothing(b[..|b| - 1]); }
  }

  lemma {:induction false} SelectsAll(b: seq<AuditEvent>)
    requires forall i :: 0 <= i < |b| ==> Concerns(b[i])
    ensures Select(b) == b
  {
    if b != [] {
      var n := |b| - 1;
      SelectsAll(b[..n]);
      assert Select(b) == Select(b[..n]) + [b[n]];
      assert b == b[..n] + [b[n]];
    }
  }

  /* ---- what a ledger tells about its mode switches ---- */

  /** The mode-switch events of the run's ledger are the switches ts. */
  ghost predicate Switched(c: Control, run: RunScope, ts: seq<Switching>) {
    && Switches(ts) && Select(c.LedgerOf(run)) == Flatten(ts)
    && (forall i :: 0 <= i < |ts| ==> ts[i].Id() < c.desk.nextId)
  }

  /** And outside observation-only mode the live receipt is the newest one's. */
  ghost predicate SwitchesOf(c: Control, run: RunScope, ts: seq<Switching>) {
    && Switched(c, run, ts)
    && (run in c.sessions && c.sessions[run].mode != OBSERVATION_ONLY ==>
          ts != [] && LiveReceiptIs(c, run, ts[|ts| - 1]))
  }

  predicate LiveReceiptIs(c: Control, run: RunScope, t: Switching)
    requires t.Sound()
  {
    run in c.receipts && c.receipts[run].id == t.Id() && c.receipts[run].modeContext == t.Context()
  }

  ghost predicate Tracked(c: Control, run: RunScope) {
    exists ts :: SwitchesOf(c, run, ts)
  }

  function SwitchingAt(n: nat, r: Request, run: RunScope, lr: R.LifecycleReceipt): Switching {
    var b := SwitchEvents(n, r, run, lr);
    Switching(b[2], b[3], b[4])
  }

  lemma SwitchingIsSound(n: nat, r: Request, run: RunScope, lr: R.LifecycleReceipt)
    requires r.command.action.ModeSwitch?
    ensures var t := SwitchingAt(n, r, run, lr);
            && t.Sound() && t.Id() == n + 3 && t.Context() == r.modeContext && t.At() == r.LifecycleStamp().at
            && t.Events() == SwitchEvents(n, r, run, lr)[2..]
  {
    hide CompletedDetails;
    CompletedDetailsSilent(r.command, lr);
  }

  lemma CompletedDetailsSilent(c: Command, lr: R.LifecycleReceipt)
    ensures TargetMode !in CompletedDetails(c, lr) && ModeContext !in CompletedDetails(c, lr)
  {
  }

  lemma SwitchSelected(n: nat, r: Request, run: RunScope, lr: R.LifecycleReceipt)
    requires r.command.action.ModeSwitch?
    ensures Select(SwitchEvents(n, r, run, lr)) == SwitchingAt(n, r, run, lr).Events()
  {
    hide CompletedDetails, Select;
    var b := SwitchEvents(n, r, run, lr);
    SelectAppend(b[..2], b[2..]);
    assert b == b[..2] + b[2..];
    SelectsNothing(b[..2]);
    SelectsAll(b[2..]);
    SwitchingIsSound(n, r, run, lr);
  }

  lemma SubmitTracked(c: Control, r: Request, run: RunScope)
    requires Tracked(c, run) && RunOf(r.command.scope) == Some(run) && run in c.sessions && HeldAt(c, run)
    ensures Tracked(Execute(c, r).0, run)
  {
    hide Switched, LiveReceiptIs, Execute;
    var ts: seq<Switching> :| SwitchesOf(c, run, ts);
    if r.command.action.ModeSwitch? { SwitchTracked(c, r, run, ts); } else { PlainTracked(c, r, run, ts); }
  }

  lemma SwitchTracked(c: Control, r: Request, run: RunScope, ts: seq<Switching>)
    requires Switched(c, run, ts) && RunOf(r.command.scope) == Some(run) && run in c.sessions && HeldAt(c, run)
    requires r.command.action.ModeSwitch?
    ensures var lr := ApplyRuntime(c.sessions, run, r.command).1;
            lr.Ok? && SwitchesOf(Execute(c, r).0, run, ts + [SwitchingAt(c.desk.nextId, r, run, lr.value)])
  {
    hide Execute, ApplyRuntime, SwitchEvents, SwitchingAt, Select;
    ExecuteClosed(c, r, run);
    AppliedMode(c.sessions, run, r.command);
    var (l, n) := (c.LedgerOf(run), c.desk.nextId);
    var lr := ApplyRuntime(c.sessions, run, r.command).1.value;
    SelectAppend(l, SwitchEvents(n, r, run, lr));
    SwitchSelected(n, r, run, lr);
    SwitchingIsSound(n, r, run, lr);
    FlattenStep(ts, SwitchingAt(n, r, run, lr));
  }

  lemma PlainTracked(c: Control, r: Request, run: RunScope, ts: seq<Switching>)
    requires SwitchesOf(c, run, ts) && RunOf(r.command.scope) == Some(run) && run in c.sessions && HeldAt(c, run)
    requires !r.command.action.ModeSwitch?
    ensures SwitchesOf(Execute(c, r).0, run, ts)
  {
    hide Execute, ApplyRuntime, CompletedDetails, SwitchEvents, Select, Switches, Flatten;
    ExecuteClosed(c, r, run);
    AppliedMode(c.sessions, run, r.command);
    SelectAppend(c.LedgerOf(run), AddedEvents(c, r, run));
    SelectsNothing(AddedEvents(c, r, run));
    assert Select(Execute(c, r).0.LedgerOf(run)) == Select(c.LedgerOf(run));
  }

  lemma StepTracked(c: Control, s: Step, run: RunScope)
    requires Tracked(c, run) && HeldAt(c, run) && Sanctioned(s)
    ensures Tracked(Next(c, s), run)
  {
    hide SwitchesOf;
    if Subject(s) != Some(run) || !s.Submit? {
      OtherTracked(c, s, run);
    } else {
      hide Execute;
      if run in c.sessions { SubmitTracked(c, s.request, run); } else { UnacceptedChangesNothing(c, s.request); }
    }
  }

  /** Steps on other runs, and steps that submit no command, add no event to this ledger. */
  lemma OtherTracked(c: Control, s: Step, run: RunScope)
    requires Tracked(c, run) && Sanctioned(s) && (Subject(s) != Some(run) || !s.Submit?)
    ensures Tracked(Next(c, s), run)
  {
    hide Switches, Flatten, Select;
    var ts: seq<Switching> :| SwitchesOf(c, run, ts);
    if Subject(s) != Some(run) {
      hide Next;
      StepIsolation(c, s, run);
      IdsOnlyGrow(c, s);
    }
    assert SwitchesOf(Next(c, s), run, ts);
  }

  lemma IdsOnlyGrow(c: Control, s: Step)
    ensures Next(c, s).desk.nextId >= c.desk.nextId
  {
    if s.Submit? {
      hide Execute;
      if Accepted(c, s.request) {
        ExecuteClosed(c, s.request, RunOf(s.request.command.scope).value);
      } else {
        UnacceptedChangesNothing(c, s.request);
      }
    }
  }

  lemma {:induction false} RunsTracked(c: Control, steps: seq<Step>, run: RunScope)
    requires Tracked(c, run) && ModeHeldByReceipt(c)
    requires forall i :: 0 <= i < |steps| ==> Sanctioned(steps[i])
    ensures Tracked(RunAll(c, steps), run) && ModeHeldByReceipt(RunAll(c, steps))
    decreases |steps|
  {
    if steps != [] {
      hide Tracked, Next, HeldAt;
      assert HeldAt(c, run);
      StepTracked(c, steps[0], run);
      StepKeepsModeHeld(c, steps[0]);
      RunsTracked(Next(c, steps[0]), steps[1..], run);
    }
  }

  lemma ReachableTracked(steps: seq<Step>, run: RunScope)
    requires forall i :: 0 <= i < |steps| ==> Sanctioned(steps[i])
    ensures Tracked(RunAll(EMPTY, steps), run) && ModeHeldByReceipt(RunAll(EMPTY, steps))
  {
    hide RunAll, Tracked;
    NothingTracked(run);
    RunsTracked(EMPTY, steps, run);
  }

  lemma NothingTracked(run: RunScope)
    ensures Tracked(EMPTY, run)
  {
    hide Switches;
    NothingFlattened();
    assert Switches([]) by { NoSwitches(); }
    assert SwitchesOf(EMPTY, run, []);
  }

  lemma NoSwitches()
    ensures Switches([])
  {
  }

  /* ---- the read model against the gate ---- */

  /** The receipt the gate would honour, as a view. */
  function GateReceipt(c: Control, run: RunScope): Option<ReceiptView>
    requires run in c.sessions
  {
    if run in c.receipts && Unlocked(c, run, c.receipts[run].modeContext)
    then Some(ReceiptView(c.receipts[run].id, c.receipts[run].targetMode, c.receipts[run].modeContext))
    else None
  }

  /** Some mode switch of this run was approved. */
  predicate EverSwitched(c: Control, run: RunScope) {
    Select(c.LedgerOf(run)) != []
  }

  /** No earlier mode switch of the run has a later time than the newest one. */
  predicate NewestSwitchIsLatest(c: Control, run: RunScope) {
    var es := Select(c.LedgerOf(run));
    es != [] ==> forall e | e in es :: e.stamp.at <= es[|es| - 1].stamp.at
  }

  function Projected(c: Control, run: RunScope): Option<ReceiptView>
    requires run in c.sessions
  {
    ActiveReceipt(c.LedgerOf(run), c.sessions[run].mode)
  }

  lemma ProjectionExact(c: Control, run: RunScope)
    requires Tracked(c, run) && ModeHeldByReceipt(c) && run in c.sessions
    ensures Projected(c, run).Some? <==> EverSwitched(c, run)
    ensures AgreementExact(c, run)
  {
    hide Select, Flatten, ActiveReceipt, Latest;
    assert HeldAt(c, run);
    var ts: seq<Switching> :| SwitchesOf(c, run, ts);
    LatestIsProjected(c.LedgerOf(run), ts, c.sessions[run].mode);
    if ts == [] {
      assert Flatten(ts) == [] by { NothingFlattened(); }
    } else {
      NewestIsLatest(ts);
      FlattenedTimes(ts, ts[|ts| - 1].At());
    }
  }

  lemma NothingFlattened()
    ensures Flatten([]) == []
  {
  }

  /** Whatever the timestamps, the read model shows exactly the receipt the gate honours - same id, target mode and
      mode context, or none - if and only if the run never switched mode, or is outside observation-only mode and no
      earlier switch of it has a later time than the newest. (After a reset or rollback it still shows a receipt the
      gate ignores.) Recovery's direct calls are among the steps. */
  lemma ProjectionAgreesWithGate(steps: seq<Step>, run: RunScope)
    requires forall i :: 0 <= i < |steps| ==> Sanctioned(steps[i])
    ensures AgreementExact(RunAll(EMPTY, steps), run)
  {
    hide RunAll, Tracked, AgreementExact, ModeHeldByReceipt;
    ReachableTracked(steps, run);
    var c := RunAll(EMPTY, steps);
    if run in c.sessions { ProjectionExact(c, run); } else { NoSessionNoClaim(c, run); }
  }

  predicate AgreementExact(c: Control, run: RunScope) {
    run in c.sessions ==>
      (Projected(c, run) == GateReceipt(c, run) <==>
         !EverSwitched(c, run) || (c.sessions[run].mode != OBSERVATION_ONLY && NewestSwitchIsLatest(c, run)))
  }

  lemma NoSessionNoClaim(c: Control, run: RunScope)
    requires run !in c.sessions
    ensures AgreementExact(c, run)
  {
  }

  /** Whatever the timestamps, what the gate would allow the read model offers; and it offers control exactly when
      some mode switch of the run was approved. */
  lemma OfferedActionsCoverGate(steps: seq<Step>, run: RunScope, modeContext: Text, action: Action)
    requires forall i :: 0 <= i < |steps| ==> Sanctioned(steps[i])
    ensures OfferExact(RunAll(EMPTY, steps), run, modeContext, action)
  {
    hide RunAll, Tracked;
    ReachableTracked(steps, run);
    var c := RunAll(EMPTY, steps);
    if run in c.sessions { OfferHolds(c, run, modeContext, action); }
  }

  lemma OfferHolds(c: Control, run: RunScope, modeContext: Text, action: Action)
    requires Tracked(c, run) && ModeHeldByReceipt(c) && run in c.sessions
    ensures OfferExact(c, run, modeContext, action)
  {
    hide Tracked, ModeHeldByReceipt, Projected, EverSwitched, GateReceipt, AgreementExact;
    ProjectionExact(c, run);
    UnlockedIffModeHeld(c, run, modeContext);
    if !EverSwitched(c, run) { NeverSwitchedIsLocked(c, run); }
  }

  predicate OfferExact(c: Control, run: RunScope, modeContext: Text, action: Action) {
    run in c.sessions ==>
      var offered := AvailableActions(Projected(c, run));
      && (Unlocked(c, run, modeContext) ==> action in offered)
      && (action in offered <==> !IsControl(action) || EverSwitched(c, run))
  }

  lemma NeverSwitchedIsLocked(c: Control, run: RunScope)
    requires Tracked(c, run) && run in c.sessions && !EverSwitched(c, run)
    ensures c.sessions[run].mode == OBSERVATION_ONLY
  {
    hide Select;
    var ts: seq<Switching> :| SwitchesOf(c, run, ts);
    if ts != [] { FlattenedTimes(ts, 0); }
  }

  /* ---- where they part ---- */

  predicate SwitchOf(r: Request, run: RunScope) {
    r.command.action.ModeSwitch? && RunOf(r.command.scope) == Some(run)
  }

  /** The order of timestamps matters: after a second mode switch stamped before the first one, the read
      model still shows the first receipt while the gate honours the second. */
  lemma BackdatedSwitchMisleads(c: Control, r1: Request, r2: Request, run: RunScope)
    requires ModeHeldByReceipt(c) && run in c.sessions && c.LedgerOf(run) == []
    requires SwitchOf(r1, run) && SwitchOf(r2, run) && r2.LifecycleStamp().at < r1.LifecycleStamp().at
    requires r2.command.targetMode != Some(OBSERVATION_ONLY)
    ensures var c2 := Execute(Execute(c, r1).0, r2).0;
            && run in c2.sessions
            && Projected(c2, run).Some? && Projected(c2, run).value.receiptId == c.desk.nextId + 3
            && GateReceipt(c2, run).Some? && GateReceipt(c2, run).value.receiptId > c.desk.nextId + 3
  {
    hide Execute, ActiveReceipt, Switched, Latest;
    var c1 := Execute(c, r1).0;
    var c2 := Execute(c1, r2).0;
    assert HeldAt(c, run);
    NothingSwitched(c, run);
    var t1 := SwitchMade(c, r1, run, []);
    var t2 := SwitchMade(c1, r2, run, [] + [t1]);
    assert [] + [t1] + [t2] == [t1, t2];
    LatestOfTwo(t1, t2);
    SwitchedProjects(c2, run, [t1, t2]);
  }

  lemma NothingSwitched(c: Control, run: RunScope)
    requires c.LedgerOf(run) == []
    ensures Switched(c, run, [])
  {
    NothingFlattened();
  }

  lemma SwitchedProjects(c: Control, run: RunScope, ts: seq<Switching>)
    requires Switched(c, run, ts) && ts != [] && run in c.sessions
    ensures Latest(ts).Sound() && Projected(c, run) ==
            Some(ReceiptView(Latest(ts).Id(), c.sessions[run].mode, Latest(ts).Context()))
  {
    hide Select, Flatten, Latest, ActiveReceipt;
    LatestIsProjected(c.LedgerOf(run), ts, c.sessions[run].mode);
  }

  /** One accepted mode switch, and what it adds to the ledger. */
  lemma SwitchMade(c: Control, r: Request, run: RunScope, ts: seq<Switching>) returns (t: Switching)
    requires Switched(c, run, ts) && SwitchOf(r, run) && run in c.sessions && HeldAt(c, run)
    ensures var c' := Execute(c, r).0;
            && Switched(c', run, ts + [t]) && SwitchesOf(c', run, ts + [t])
            && t.Sound() && t.Id() == c.desk.nextId + 3 && t.At() == r.LifecycleStamp().at
            && c'.desk.nextId > c.desk.nextId
            && run in c'.sessions && HeldAt(c', run) && c'.sessions[run].mode == r.command.targetMode.value
            && run in c'.receipts && c'.receipts[run] == IssuedReceipt(c.desk.nextId, r)
  {
    hide Execute, ApplyRuntime, SwitchingAt, Switched;
    SwitchTracked(c, r, run, ts);
    SwitchHeld(c, r, run);
    var lr := ApplyRuntime(c.sessions, run, r.command).1.value;
    SwitchingIsSound(c.desk.nextId, r, run, lr);
    t := SwitchingAt(c.desk.nextId, r, run, lr);
  }

  /** One accepted mode switch. */
  lemma SwitchHeld(c: Control, r: Request, run: RunScope)
    requires SwitchOf(r, run) && run in c.sessions && HeldAt(c, run)
    ensures var c' := Execute(c, r).0;
            && c'.desk.nextId > c.desk.nextId
            && run in c'.sessions && HeldAt(c', run) && c'.sessions[run].mode == r.command.targetMode.value
            && run in c'.receipts && c'.receipts[run] == IssuedReceipt(c.desk.nextId, r)
  {
    hide Execute, ApplyRuntime, SwitchEvents;
    ExecuteClosed(c, r, run);
    AppliedMode(c.sessions, run, r.command);
    ScopeOfRun(r.command.scope, run);
  }

  /** A reset or rollback under the active receipt is carried out, and locks the run. */
  lemma BackLocks(c: Control, r: Request, run: RunScope)
    requires RunOf(r.command.scope) == Some(run) && Unlocked(c, run, r.modeContext)
    requires r.command.action.Reset? || (r.command.action.Rollback? && r.command.targetCycleId.Some?)
    ensures Locked(Execute(c, r).0, run)
  {
    hide Execute, AddedEvents, ApplyRuntime, NextReceipts;
    ExecuteClosed(c, r, run);
    ScopeOfRun(r.command.scope, run);
    BackApplied(c.sessions, run, r.command);
  }

  lemma BackApplied(ss: R.Sessions, run: RunScope, c: Command)
    requires run in ss && (c.action.Reset? || (c.action.Rollback? && c.targetCycleId.Some?))
    ensures run in ApplyRuntime(ss, run, c).0 && ApplyRuntime(ss, run, c).0[run].mode == OBSERVATION_ONLY
  {
  }

  /** A reset or a rollback leaves the receipt behind: from a registered run, one mode switch and one reset or
      rollback under it, the read model shows the receipt and offers pausing, while the gate honours none and
      denies it. */
  lemma StaleReceiptIsShown(registration: R.Registration, switch: Request, back: Request, pause: Request)
    requires SwitchOf(switch, registration.run) && switch.command.targetMode != Some(OBSERVATION_ONLY)
    requires RunOf(back.command.scope) == Some(registration.run) && back.modeContext == switch.modeContext
    requires back.command.action.Reset? || (back.command.action.Rollback? && back.command.targetCycleId.Some?)
    requires RunOf(pause.command.scope) == Some(registration.run) && pause.command.action.Pause?
    ensures var c := RunAll(EMPTY, [RegisterRun(registration), Submit(switch), Submit(back)]);
            && registration.run in c.sessions
            && Projected(c, registration.run).Some? && GateReceipt(c, registration.run) == None
            && Pause in AvailableActions(Projected(c, registration.run))
            && Execute(c, pause).1 == Ok(Denied(Pause))
  {
    hide Execute, ActiveReceipt, Switched, Select;
    var run := registration.run;
    var c0 := Next(EMPTY, RegisterRun(registration));
    var c1 := Execute(c0, switch).0;
    var c2 := Execute(c1, back).0;
    var steps := [RegisterRun(registration), Submit(switch), Submit(back)];
    StepKeepsModeHeld(EMPTY, RegisterRun(registration));
    assert HeldAt(c0, run);
    NothingSwitched(c0, run);
    var t := SwitchMade(c0, switch, run, []);
    StepKeepsModeHeld(c0, Submit(switch));
    StepKeepsModeHeld(c1, Submit(back));
    BackLocks(c1, back, run);
    PlainTracked(c1, back, run, [] + [t]);
    SwitchedProjects(c2, run, [] + [t]);
    assert steps[1..] == [Submit(switch), Submit(back)] && steps[1..][1..] == [Submit(back)]
      && steps[1..][1..][1..] == [];
    assert RunAll(EMPTY, steps) == RunAll(c0, steps[1..]) == RunAll(c1, steps[1..][1..]) == RunAll(c2, []);
    ProjectionExact(c2, run);
    GateGuardsRuntime(c2, pause);
  }
}
