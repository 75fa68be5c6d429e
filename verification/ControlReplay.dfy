/** The audit ledger determines the runtime: replaying a run's own ledger gives its session back. */
module ControlReplay {
  import opened Prelude
  import opened StoragePaths
  import opened Commands
  import opened AuditChain
  import opened Ledger
  import opened Orchestrator
  import opened ControlSteps
  import opened ControlRuns
  import R = Runtime

  /** What an operator can see of a session, in the ledger's own words. */
  datatype View = View(mode: Option<string>, lifecycle: Option<string>, targetCycle: Option<string>,
                       snapshot: Option<string>)

  function Detail(d: Details, key: DetailKey): Option<string> {
    if key in d then Some(d[key]) else None
  }

  function ViewOf(s: R.Session): View {
    View(Some(s.mode), Some(LifecycleName(s.lifecycle)), s.targetCycle, s.snapshot)
  }

  function Reported(d: Details): View {
    View(Detail(d, CurrentMode), Detail(d, LifecycleState), Detail(d, TargetCycleId), Detail(d, SnapshotId))
  }

  /** Fold a ledger: the last completed command says where the session stands. */
  function Replay(events: seq<AuditEvent>): View
    decreases |events|
  {
    if events == [] then View(Some(OBSERVATION_ONLY), Some("active"), None, None)
    else
      var last := events[|events| - 1];
      if last.kind.EvCompleted? then Reported(last.details) else Replay(events[..|events| - 1])
  }

  lemma {:induction false} ReplayExtended(events: seq<AuditEvent>, b: seq<AuditEvent>)
    requires forall i :: 0 <= i < |b| ==> !b[i].kind.EvCompleted?
    ensures Replay(events + b) == Replay(events)
    decreases |b|
  {
    if b == [] {
      assert events + b == events;
    } else {
      var n := |b| - 1;
      assert (events + b)[..|events + b| - 1] == events + b[..n];
      ReplayExtended(events, b[..n]);
    }
  }

  lemma CompletedDetailsSay(c: Command, s: R.Session, clone: Option<RunScope>)
    requires s.lastAction.Some?
    ensures Reported(CompletedDetails(c, R.ReceiptFor(s, clone))) == ViewOf(s)
  {
  }

  lemma RuntimeReceipt(ss: R.Sessions, run: RunScope, c: Command)
    requires run in ss
    ensures var (ss', applied) := ApplyRuntime(ss, run, c);
            run in ss' &&
            (applied.Ok? ==>
               ss'[run].lastAction.Some? && exists clone :: applied.value == R.ReceiptFor(ss'[run], clone))
  {
    var (ss', applied) := ApplyRuntime(ss, run, c);
    if applied.Ok? {
      assert applied.value == R.ReceiptFor(ss'[run], applied.value.cloneRun);
    }
  }

  /** The ledger of a run explains its session; a run without a session has no ledger. */
  predicate Explained(c: Control, run: RunScope) {
    if run in c.sessions then ViewOf(c.sessions[run]) == Replay(c.LedgerOf(run)) else c.LedgerOf(run) == []
  }

  /* ---- calls the ledger does not see ---- */

  /** What a direct call does to the view of a session. */
  function ViewAfter(v: View, t: R.Transition): View {
    match t
    case ToMode(mode) => v.(mode := Some(mode))
    case ToPaused => v.(lifecycle := Some("paused"))
    case ToLive => v.(lifecycle := Some("active"))
    case ToReset(_) => View(Some(OBSERVATION_ONLY), Some("active"), None, None)
    case ToCycle(target) => View(Some(OBSERVATION_ONLY), Some("active"), Some(target), None)
    case ToSnapshot(id) => View(Some(OBSERVATION_ONLY), Some("active"), None, Some(id))
  }

  function ViewsAfter(v: View, ts: seq<R.Transition>): View {
    if ts == [] then v else ViewAfter(ViewsAfter(v, ts[..|ts| - 1]), ts[|ts| - 1])
  }

  lemma ViewAfterIsView(s: R.Session, t: R.Transition)
    ensures ViewAfter(ViewOf(s), t) == ViewOf(R.After(s, t))
  {
  }

  /** The step completes a command of the run, or the run does not exist before it: its session starts afresh or is
      recorded as it stands. */
  predicate Settles(c: Control, s: Step, run: RunScope) {
    || run !in c.sessions
    || (s.Submit? && RunOf(s.request.command.scope) == Some(run)
        && Execute(c, s.request).1.Ok? && Execute(c, s.request).1.value.Executed?)
  }

  /** The direct calls made on the run since its last completed command, or since it was created. */
  function Pending(c: Control, steps: seq<Step>, run: RunScope): seq<R.Transition>
    decreases |steps|
  {
    if steps == [] then []
    else
      var n := |steps| - 1;
      var s, before := steps[n], Pending(c, steps[..n], run);
      if Settles(RunAll(c, steps[..n]), s, run) then []
      else if s.Direct? && s.run == run then before + [s.transition]
      else before
  }

  /** The session is what its ledger replays to, followed by the pending calls. */
  predicate ExplainedWith(c: Control, run: RunScope, pending: seq<R.Transition>) {
    if run in c.sessions then ViewOf(c.sessions[run]) == ViewsAfter(Replay(c.LedgerOf(run)), pending)
    else c.LedgerOf(run) == []
  }

  lemma SubmitExplained(c: Control, r: Request, run: RunScope, pending: seq<R.Transition>)
    requires ExplainedWith(c, run, pending) && RunOf(r.command.scope) == Some(run) && run in c.sessions
    ensures ExplainedWith(Execute(c, r).0, run, if Settles(c, Submit(r), run) then [] else pending)
  {
    hide Execute, ApplyRuntime, CompletedDetails, FailedDetails, R.ReceiptFor;
    ExecuteClosed(c, r, run);
    ExecutedIff(c, r, run);
    var (ss, applied) := ApplyRuntime(c.sessions, run, r.command);
    var b := AddedEvents(c, r, run);
    RuntimeReceipt(c.sessions, run, r.command);
    if !IsDenied(c, r, run) && applied.Ok? {
      var clone :| applied.value == R.ReceiptFor(ss[run], clone);
      CompletedDetailsSay(r.command, ss[run], clone);
      var es := c.LedgerOf(run) + b;
      assert es[|es| - 1] == b[|b| - 1];
    } else {
      RejectedRuntimeUnchanged(c.sessions, run, r.command);
      RuntimeRefusals(c.sessions, run, r.command);
      ReplayExtended(c.LedgerOf(run), b);
    }
  }

  lemma ExecutedIff(c: Control, r: Request, run: RunScope)
    requires RunOf(r.command.scope) == Some(run) && run in c.sessions
    ensures Settles(c, Submit(r), run) <==> !IsDenied(c, r, run) && ApplyRuntime(c.sessions, run, r.command).1.Ok?
  {
    hide Perform, Deny, ApplyRuntime;
    ScopeOfRun(r.command.scope, run);
    if !IsDenied(c, r, run) {
      if r.command.action.ModeSwitch? { SwitchClosed(c, r, run); } else { PlainClosed(c, r, run); }
      if r.command.action.ModeSwitch? { SwitchIsToMode(c.sessions, run, r.command); }
    }
  }

  lemma OtherExplained(c: Control, s: Step, run: RunScope, pending: seq<R.Transition>)
    requires ExplainedWith(c, run, pending) && Subject(s) != Some(run)
    ensures ExplainedWith(Next(c, s), run, if Settles(c, s, run) then [] else pending)
  {
    hide Next, Execute;
    StepIsolation(c, s, run);
  }

  lemma DirectExplained(c: Control, s: Step, run: RunScope, pending: seq<R.Transition>)
    requires ExplainedWith(c, run, pending) && Subject(s) == Some(run) && !s.Submit?
    ensures ExplainedWith(Next(c, s), run,
                          if Settles(c, s, run) then [] else if s.Direct? then pending + [s.transition] else pending)
  {
    if run in c.sessions && s.Direct? {
      ViewAfterIsView(c.sessions[run], s.transition);
      assert (pending + [s.transition])[..|pending|] == pending;
    }
  }

  lemma StepExplained(c: Control, s: Step, run: RunScope, pending: seq<R.Transition>)
    requires ExplainedWith(c, run, pending)
    ensures ExplainedWith(Next(c, s), run,
                          if Settles(c, s, run) then []
                          else if s.Direct? && s.run == run then pending + [s.transition] else pending)
  {
    hide ExplainedWith, Execute, Settles;
    if Subject(s) != Some(run) {
      OtherExplained(c, s, run, pending);
    } else if !s.Submit? {
      DirectExplained(c, s, run, pending);
    } else if run in c.sessions {
      SubmitExplained(c, s.request, run, pending);
    } else {
      UnacceptedChangesNothing(c, s.request);
      NothingToExplain(c, s, run, pending);
    }
  }

  lemma NothingToExplain(c: Control, s: Step, run: RunScope, pending: seq<R.Transition>)
    requires ExplainedWith(c, run, pending) && run !in c.sessions
    ensures Settles(c, s, run) && ExplainedWith(c, run, [])
  {
  }

  lemma {:induction false} RunsExplained(c: Control, steps: seq<Step>, run: RunScope)
    requires ExplainedWith(c, run, [])
    ensures ExplainedWith(RunAll(c, steps), run, Pending(c, steps, run))
    decreases |steps|
  {
    hide ExplainedWith, Settles, Next;
    if steps != [] {
      var n := |steps| - 1;
      RunsExplained(c, steps[..n], run);
      StepExplained(RunAll(c, steps[..n]), steps[n], run, Pending(c, steps[..n], run));
      RunAllOneMore(c, steps[..n], steps[n]);
      assert steps[..n] + [steps[n]] == steps;
    }
  }

  /** In every state reached from an empty system, by any commands, registrations and direct calls, every session - a
      cloned one included - is what its own ledger replays to, followed by the direct calls since its last completed
      command. So the ledger alone gives it back exactly when those calls leave the view as it was. */
  lemma LedgerReplaysRuntime(steps: seq<Step>, run: RunScope)
    ensures var c, pending := RunAll(EMPTY, steps), Pending(EMPTY, steps, run);
            && (run in c.sessions ==>
                  && ViewOf(c.sessions[run]) == ViewsAfter(Replay(c.LedgerOf(run)), pending)
                  && (Explained(c, run) <==> ViewsAfter(Replay(c.LedgerOf(run)), pending) == Replay(c.LedgerOf(run))))
            && (run !in c.sessions ==> c.LedgerOf(run) == [])
  {
    hide RunAll, Pending, Replay;
    RunsExplained(EMPTY, steps, run);
  }

  /** No call is pending for a run nobody calls directly. */
  lemma {:induction false} NothingPending(c: Control, steps: seq<Step>, run: RunScope)
    requires forall i :: 0 <= i < |steps| ==> !(steps[i].Direct? && steps[i].run == run)
    ensures Pending(c, steps, run) == []
    decreases |steps|
  {
    hide Settles;
    if steps != [] { NothingPending(c, steps[..|steps| - 1], run); }
  }

  /** Through any registrations and commands every session is exactly what its own ledger replays to. */
  lemma CommandsAreReplayed(steps: seq<Step>, run: RunScope)
    requires forall i :: 0 <= i < |steps| ==> IsCommandStep(steps[i])
    ensures Explained(RunAll(EMPTY, steps), run)
  {
    hide RunAll, Replay;
    NothingPending(EMPTY, steps, run);
    LedgerReplaysRuntime(steps, run);
  }

  /** One direct call leaves an explained session explained exactly when it leaves its view as it was. */
  lemma DirectCallUnexplained(c: Control, run: RunScope, t: R.Transition)
    requires run in c.sessions && Explained(c, run)
    ensures Explained(Next(c, Direct(run, t)), run) <==> ViewOf(R.After(c.sessions[run], t)) == ViewOf(c.sessions[run])
  {
    hide Replay;
  }
}
