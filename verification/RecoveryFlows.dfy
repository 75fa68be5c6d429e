/** What holds however a recovery flow ends: what it stores, what it calls, and what it leaves alone. */
module RecoveryFlows {
  import opened Prelude
  import opened FileTree
  import opened StoragePaths
  import opened AuditChain
  import opened Records
  import opened HostFilesystem
  import opened StorageLayout
  import opened Workspaces
  import opened Snapshots
  import opened Branches
  import opened Commands
  import opened Ledger
  import opened Orchestrator
  import opened ControlRuns
  import opened HostSteps
  import opened HostRuns
  import opened Recovery
  import R = Runtime

  /* ---- each flow, one stage at a time ---- */

  /** The artifacts the two captures may write. */
  function Captures(f: Failure): set<Artifact> {
    {CycleFiles(f.Run(), f.cycle.cycleId), CycleManifest(f.Run(), f.cycle.cycleId)}
    + (if IsSegment(FullSnapshotId(f.incidentId))
       then {FullFiles(f.Run(), FullSnapshotId(f.incidentId)), FullManifest(f.Run(), FullSnapshotId(f.incidentId))}
         else {})
  }

  /** The artifacts a flow may write; no audit ledger is among them. */
  function Written(f: Failure): set<Artifact> {
    Captures(f) + {BranchEvidence(f.Run())}
    + (if IsSegment(f.incidentId) then {IncidentReport(f.Run(), f.incidentId), Incident(f.Run(), f.incidentId)} else {})
  }

  /** Both failing snapshots are stored. */
  ghost predicate BothRecoverable(host: HostTree, f: Failure, F: map<Path, Bytes>) {
    && IsSegment(FullSnapshotId(f.incidentId))
    && Recoverable(host, f.CycleSnapshot(), F)
    && Recoverable(host, f.FullSnapshot(), F)
  }

  /** Neither failing snapshot is stored yet, even in part. */
  ghost predicate Securable(host: HostTree, f: Failure, files: map<Path, Bytes>) {
    && Uncaptured(host, f.CycleSnapshot(), files)
    && IsSegment(FullSnapshotId(f.incidentId))
    && Uncaptured(host, f.FullSnapshot(), files)
  }

  /** The incident has neither report nor record yet. */
  predicate Reportable(host: HostTree, f: Failure) {
    && IsSegment(f.incidentId)
    && Free(host, IncidentReport(f.Run(), f.incidentId).Root())
    && Free(host, Incident(f.Run(), f.incidentId).Root())
  }

  lemma CaptureWithin(t: HostTree, target: SnapshotTarget, names: seq<Path>, files: map<Path, Bytes>,
                      arts: set<Artifact>)
    requires t.WellFormed() && Holdable(files) && IsListing(names, files.Keys, ByPosix)
    requires {target.Files(), target.Manifest()} <= arts
    ensures var (t', r) := Capture(t, target, names, files);
            && t'.WellFormed() && Effect(t, t', arts) && OnlyGrows(t, t')
            && (r.Ok? <==> Uncaptured(t, target, files))
            && (r.Ok? ==> Recoverable(t', target, files) && r.value == CaptureOf(target, files))
  {
    hide Effect, OnlyGrows, Uncaptured, Recoverable, Capture, Represents, ContentAt, Holdable;
    CaptureExact(t, target, names, files);
    if Capture(t, target, names, files).1.Ok? { CaptureReturns(t, target, names, files); }
    EffectWiden(t, Capture(t, target, names, files).0, {target.Files(), target.Manifest()}, arts);
    EffectGrows(t, Capture(t, target, names, files).0, arts);
  }

  /** Both captures succeed exactly when neither snapshot is stored; then both represent the workspace. The first
      stays, whatever becomes of the second. */
  lemma CaptureFailureExact(host: HostTree, f: Failure, walks: Walks, files: map<Path, Bytes>)
    requires host.WellFormed() && Holdable(files) && walks.List(files)
    ensures var (host', r) := CaptureFailure(host, f, walks, files);
            && host'.WellFormed() && Effect(host, host', Captures(f))
            && (r.Ok? <==> Securable(host, f, files))
            && (r.Ok? ==> BothRecoverable(host', f, files)
                          && r.value == (CaptureOf(f.CycleSnapshot(), files), CaptureOf(f.FullSnapshot(), files)))
            && (Uncaptured(host, f.CycleSnapshot(), files) ==> Recoverable(host', f.CycleSnapshot(), files))
  {
    hide Capture, Effect, OnlyGrows, Uncaptured, Holdable, Recoverable, IsListing;
    var first := f.CycleSnapshot();
    CaptureWithin(host, first, walks.first, files, Captures(f));
    CaptureWithin(host, first, walks.first, files, {first.Files(), first.Manifest()});
    var (h1, r1) := Capture(host, first, walks.first, files);
    if r1.Ok? && IsSegment(FullSnapshotId(f.incidentId)) {
      var second := f.FullSnapshot();
      UncapturedFrame(host, h1, {first.Files(), first.Manifest()}, second, files);
      CaptureWithin(h1, second, walks.second, files, Captures(f));
      var h2 := Capture(h1, second, walks.second, files).0;
      EffectTransitive(host, h1, h2, Captures(f));
      RecoverableKept(h1, h2, first, files);
    }
  }

  /** What pausing a session returns. */
  function PauseReceipt(s: R.Session): R.LifecycleReceipt {
    R.LifecycleReceipt(R.ByCommand(Pause), s.registration.run, R.Paused, s.mode, None, None, s.targetCycle, s.snapshot)
  }

  lemma SecureStages(w: World, f: Failure, walks: Walks)
    requires walks.Within(w.ws.files)
    ensures var (w', r) := Secure(w, f, walks);
            var (host, captured) := CaptureFailure(w.host, f, walks, w.ws.files);
            && w'.ws == w.ws && w'.control == Next(w.control, Direct(f.Run(), R.ToPaused))
            && w'.host == (if f.Run() in w.control.sessions then host else w.host)
            && (r.Ok? <==> f.Run() in w.control.sessions && captured.Ok?)
            && (r.Ok? ==>
                  && r.value.paused == R.Apply(w.control.sessions, f.Run(), R.ToPaused).1.value
                  && r.value.cycleSnapshot == captured.value.0 && r.value.fullSnapshot == captured.value.1)
  {
    hide CaptureFailure, Next;
    var (w1, paused) := Facade(w, f.Run(), R.ToPaused);
    assert w1.host == w.host && w1.ws == w.ws;
    assert paused.Ok? <==> f.Run() in w.control.sessions;
    var (host, captured) := CaptureFailure(w.host, f, walks, w.ws.files);
    assert captured.Ok? ==> paused.Ok? ==> Secure(w, f, walks).1.Ok?;
    assert captured.Err? ==> Secure(w, f, walks).1.Err?;
  }

  lemma SecureExact(w: World, f: Failure, walks: Walks)
    requires w.host.WellFormed() && w.ws.WellFormed() && walks.List(w.ws.files)
    ensures var (w', r) := Secure(w, f, walks);
            && w'.host.WellFormed() && Effect(w.host, w'.host, Captures(f))
            && w'.ws == w.ws && w'.control == Next(w.control, Direct(f.Run(), R.ToPaused))
            && (r.Ok? <==> f.Run() in w.control.sessions && Securable(w.host, f, w.ws.files))
            && (r.Ok? ==>
                  && BothRecoverable(w'.host, f, w.ws.files)
                  && r.value == Secured(PauseReceipt(w.control.sessions[f.Run()]),
                                        CaptureOf(f.CycleSnapshot(), w.ws.files),
                                        CaptureOf(f.FullSnapshot(), w.ws.files)))
            && (f.Run() in w.control.sessions && Uncaptured(w.host, f.CycleSnapshot(), w.ws.files) ==>
                  Recoverable(w'.host, f.CycleSnapshot(), w.ws.files))
  {
    hide Effect, Securable, BothRecoverable, Uncaptured, Recoverable, CaptureFailure, Secure, Next;
    HoldableFiles(w.ws);
    SecureStages(w, f, walks);
    CaptureFailureExact(w.host, f, walks, w.ws.files);
    EffectReflexive(w.host, Captures(f));
  }

  lemma DocumentWithin(t: HostTree, a: Artifact, doc: Record, arts: set<Artifact>)
    requires t.WellFormed() && !a.IsDirectory() && a in arts
    ensures var (t', e) := WriteFile(t, a.Root(), [doc], false);
            t'.WellFormed() && Effect(t, t', arts) && (e.None? <==> Free(t, a.Root()))
  {
    hide Effect, WriteFile, Free;
    DocumentStored(t, a, doc);
    EffectWiden(t, WriteFile(t, a.Root(), [doc], false).0, {a}, arts);
  }

  lemma WriteIncidentExact(host: HostTree, f: Failure, d: IncidentDocument)
    requires host.WellFormed() && d.cycle == f.cycle && d.incidentId == f.incidentId
    ensures var (host', e) := WriteIncident(host, d);
            host'.WellFormed() && Effect(host, host', Written(f)) && (e.None? <==> Reportable(host, f))
  {
    hide Effect, WriteFile, Free;
    var report, record := IncidentReport(f.Run(), d.incidentId), Incident(f.Run(), d.incidentId);
    DocumentWithin(host, report, ReportDoc(d), Written(f));
    DocumentWithin(host, report, ReportDoc(d), {report});
    var (h1, e) := WriteFile(host, report.Root(), [ReportDoc(d)], false);
    if e.None? {
      assert record.Owns(record.Root());
      FreeFrame(host, h1, {report}, record, record.Root());
      DocumentWithin(h1, record, IncidentDoc(d), Written(f));
      EffectTransitive(host, h1, WriteFile(h1, record.Root(), [IncidentDoc(d)], false).0, Written(f));
    }
  }

  lemma ReportExact(w: World, f: Failure, s: Secured, steps: seq<RecoveryStep>, branch: Option<Path>,
                    target: Option<Segment>, restored: Option<Path>)
    requires w.host.WellFormed()
    ensures var (w', r) := Report(w, f, s, steps, branch, target, restored);
            && w'.host.WellFormed() && Effect(w.host, w'.host, Written(f))
            && w'.ws == w.ws && w'.control == w.control
            && (r.Ok? <==> Reportable(w.host, f))
  {
    hide Effect, WriteIncident;
    if IsSegment(f.incidentId) {
      var d := Document(f, s, steps, branch, target, restored);
      WriteIncidentExact(w.host, f, d);
      var (host, e) := WriteIncident(w.host, d);
      assert Report(w, f, s, steps, branch, target, restored)
          == (w.(host := host), if e.Some? then Err(e.value) else Ok(d));
    } else {
      EffectReflexive(w.host, Written(f));
    }
  }

  lemma ReportableFrame(t: HostTree, t': HostTree, arts: set<Artifact>, f: Failure)
    requires Effect(t, t', arts) && forall a :: a in arts ==> !a.Incident? && !a.IncidentReport?
    ensures Reportable(t', f) <==> Reportable(t, f)
  {
    hide Effect, Free;
    if IsSegment(f.incidentId) {
      var report, record := IncidentReport(f.Run(), f.incidentId), Incident(f.Run(), f.incidentId);
      assert report.Owns(report.Root()) && record.Owns(record.Root());
      FreeFrame(t, t', arts, report, report.Root());
      FreeFrame(t, t', arts, record, record.Root());
    }
  }

  /** Whatever is restored, the host only grows and the workspace stays a tree. */
  lemma RestoreAndReportSound(w: World, f: Failure, s: Secured, receipt: R.LifecycleReceipt,
                              steps: seq<RecoveryStep>, target: Option<Segment>, manifest: Path)
    requires w.host.WellFormed() && w.ws.WellFormed()
    ensures var w' := RestoreAndReport(w, f, s, receipt, steps, target, manifest).0;
            && w'.host.WellFormed() && Effect(w.host, w'.host, Written(f))
            && w'.control == w.control && w'.ws == Restore(w.ws, manifest, w.host).0 && w'.ws.WellFormed()
  {
    hide Effect, Restore, Report, Written;
    RestoreWellFormed(w.ws, manifest, w.host);
    var (ws, plan) := Restore(w.ws, manifest, w.host);
    if plan.Ok? {
      ReportExact(w.(ws := ws), f, s, steps, None, target, Some(manifest));
    } else {
      EffectReflexive(w.host, Written(f));
    }
  }

  lemma RestoreAndReportExact(w: World, f: Failure, s: Secured, receipt: R.LifecycleReceipt,
                              steps: seq<RecoveryStep>, target: Option<Segment>, manifest: Path, F: map<Path, Bytes>)
    requires w.host.WellFormed() && w.ws.WellFormed() && Holdable(F) && Represents(w.host, manifest, F)
    ensures var (w', r) := RestoreAndReport(w, f, s, receipt, steps, target, manifest);
            && (r.Ok? <==> w.ws.dirs !! F.Keys && Reportable(w.host, f))
            && (w.ws.dirs !! F.Keys ==> w'.ws == TreeOf(F))
            && (r.Ok? ==> r.value.secured == s && r.value.runtimeReceipt == Some(receipt)
                          && r.value.restorePlan == Some(ReconstructRestore(w.host, manifest).value))
  {
    hide Effect, Report, Reportable, Written, RestoreEntries, EntriesSound, Holdable, RemoveStrays, Prune,
         Represents, TreeOf;
    RestoreExact(w.ws, manifest, w.host, F);
    var (ws, plan) := Restore(w.ws, manifest, w.host);
    if plan.Ok? {
      var w0 := w.(ws := ws);
      ReportExact(w0, f, s, steps, None, target, Some(manifest));
      var (w1, reported) := Report(w0, f, s, steps, None, target, Some(manifest));
      assert reported.Ok? <==> Reportable(w.host, f);
    }
  }

  /** The state between rolling back the runtime and restoring the workspace. */
  lemma RolledBackSession(w: World, run: RunScope, t: R.Transition)
    requires run in w.control.sessions && (t.ToCycle? || t.ToSnapshot?)
    ensures var (w', r) := Facade(w, run, t);
            && r.Ok? && w'.host == w.host && w'.ws == w.ws
            && Locked(w'.control, run) && w'.control.sessions[run].lifecycle.Live?
            && w'.control.sessions[run].targetCycle == (if t.ToCycle? then Some(t.target) else None)
            && w'.control.sessions[run].snapshot == (if t.ToSnapshot? then Some(t.id) else None)
            && w'.control.receipts == w.control.receipts && w'.control.desk == w.control.desk
            && r.value.targetCycle == w'.control.sessions[run].targetCycle
            && r.value.snapshot == w'.control.sessions[run].snapshot
  {
  }

  lemma SecuredIsWritten(t: HostTree, t': HostTree, f: Failure)
    requires Effect(t, t', Captures(f))
    ensures Effect(t, t', Written(f)) && OnlyGrows(t, t')
    ensures Reportable(t', f) <==> Reportable(t, f)
  {
    hide Effect, OnlyGrows;
    EffectGrows(t, t', Captures(f));
    EffectWiden(t, t', Captures(f), Written(f));
    ReportableFrame(t, t', Captures(f), f);
  }

  lemma BothRecoverableKept(t: HostTree, t': HostTree, f: Failure, F: map<Path, Bytes>)
    requires OnlyGrows(t, t') && BothRecoverable(t, f, F)
    ensures BothRecoverable(t', f, F)
  {
    hide OnlyGrows, Recoverable;
    RecoverableKept(t, t', f.CycleSnapshot(), F);
    RecoverableKept(t, t', f.FullSnapshot(), F);
  }

  /* ---- what holds however a flow ends ---- */

  /** The run is stopped: paused, or in observation-only mode. */
  predicate Stopped(c: Control, run: RunScope) {
    run in c.sessions ==> c.sessions[run].lifecycle.Paused? || c.sessions[run].mode == OBSERVATION_ONLY
  }

  /** The direct calls a flow makes, as far as it gets. */
  function Calls(w: World, f: Failure, flow: Flow, walks: Walks): seq<Step>
    requires walks.Within(w.ws.files)
  {
    var secured := Secure(w, f, walks).1;
    [Direct(f.Run(), R.ToPaused)]
    + (if secured.Err? then []
       else match flow
            case RollbackTo(last) => [Direct(f.Run(), R.ToCycle(last))]
            case RestoreFrom(_) => [Direct(f.Run(), R.ToSnapshot(secured.value.fullSnapshot.snapshotId))]
            case BranchInto(_) => [])
  }

  /** The control plane has made just these calls, sanctioned and on the run alone, and the run is stopped. */
  ghost predicate Contained(c: Control, c': Control, run: RunScope, calls: seq<Step>) {
    Stopped(c', run) && DirectCalls(calls, run) && c' == RunAll(c, calls)
  }

  ghost predicate DirectCalls(steps: seq<Step>, run: RunScope) {
    forall i :: 0 <= i < |steps| ==> steps[i].Direct? && steps[i].run == run && Sanctioned(steps[i])
  }

  lemma PausedIsContained(c: Control, run: RunScope)
    ensures Contained(c, Next(c, Direct(run, R.ToPaused)), run, [Direct(run, R.ToPaused)])
  {
    var steps := [Direct(run, R.ToPaused)];
    assert RunAll(c, steps) == RunAll(Next(c, steps[0]), steps[1..]);
  }

  lemma PausedThenLockedIsContained(c: Control, run: RunScope, t: R.Transition)
    requires t.ToCycle? || t.ToSnapshot?
    ensures Contained(c, Next(Next(c, Direct(run, R.ToPaused)), Direct(run, t)), run,
                      [Direct(run, R.ToPaused)] + [Direct(run, t)])
  {
    var steps := [Direct(run, R.ToPaused)] + [Direct(run, t)];
    var c1 := Next(c, steps[0]);
    assert steps[1..] == [Direct(run, t)] && steps[1..][1..] == [];
    assert RunAll(c, steps) == RunAll(c1, steps[1..]) == RunAll(Next(c1, steps[1]), []);
  }

  lemma ReportKeepsControl(w: World, f: Failure, s: Secured, steps: seq<RecoveryStep>, branch: Option<Path>,
                           target: Option<Segment>, restored: Option<Path>)
    ensures var w' := Report(w, f, s, steps, branch, target, restored).0; w'.control == w.control && w'.ws == w.ws
  {
  }

  lemma SecureKeepsWorkspace(w: World, f: Failure, walks: Walks)
    requires walks.Within(w.ws.files)
    ensures var (w', r) := Secure(w, f, walks);
            && w'.ws == w.ws && w'.control == Next(w.control, Direct(f.Run(), R.ToPaused))
            && (r.Ok? ==> f.Run() in w.control.sessions)
  {
    hide CaptureFailure;
  }

  /** Whatever a flow runs into, it has made only its direct calls, and the run is stopped. */
  lemma EveryFlowIsContained(w: World, f: Failure, flow: Flow, walks: Walks)
    requires walks.Within(w.ws.files)
    ensures var w' := Recover(w, f, flow, walks).0;
            Contained(w.control, w'.control, f.Run(), Calls(w, f, flow, walks)) && (flow.BranchInto? ==> w'.ws == w.ws)
  {
    hide Secure, Report, Restore, WriteBranch, Contained, Next;
    var run := f.Run();
    SecureKeepsWorkspace(w, f, walks);
    PausedIsContained(w.control, run);
    var (w1, secured) := Secure(w, f, walks);
    assert [Direct(run, R.ToPaused)] + [] == [Direct(run, R.ToPaused)];
    if secured.Ok? {
      match flow {
        case RollbackTo(last) =>
          PausedThenLockedIsContained(w.control, run, R.ToCycle(last));
          if IsSegment(last) {
            var w2 := Facade(w1, run, R.ToCycle(last)).0;
            ReportKeepsControl(w2.(ws := Restore(w2.ws, CycleManifest(run, last).Root(), w2.host).0), f, secured.value,
                               [StepPause, StepSnapshot, StepRollback, StepReport], None, Some(last),
                               Some(CycleManifest(run, last).Root()));
          }
        case RestoreFrom(manifest) =>
          var t := R.ToSnapshot(secured.value.fullSnapshot.snapshotId);
          PausedThenLockedIsContained(w.control, run, t);
          var w2 := Facade(w1, run, t).0;
          ReportKeepsControl(w2.(ws := Restore(w2.ws, manifest, w2.host).0), f, secured.value,
                             [StepPause, StepSnapshot, StepRestore, StepReport], None, None, Some(manifest));
        case BranchInto(name) =>
          var doc := BranchDoc(name, f.cycle, secured.value.Refs());
          ReportKeepsControl(w1.(host := WriteBranch(w1.host, run, name, doc).0), f, secured.value,
                             [StepPause, StepSnapshot, StepBranch, StepReport], BranchFile(run, name), None, None);
      }
    }
  }

  lemma {:induction false} DirectCallsContained(c: Control, steps: seq<Step>, run: RunScope)
    requires DirectCalls(steps, run)
    ensures var c' := RunAll(c, steps);
            && c'.receipts == c.receipts && c'.desk == c.desk
            && (forall other :: other != run ==> (other in c'.sessions <==> other in c.sessions)
                                                 && (other in c.sessions ==> c'.sessions[other] == c.sessions[other]))
            && (ModeHeldByReceipt(c) ==> ModeHeldByReceipt(c'))
    decreases |steps|
  {
    hide ModeHeldByReceipt, R.After;
    if steps != [] {
      if ModeHeldByReceipt(c) { StepKeepsModeHeld(c, steps[0]); }
      assert DirectCalls(steps[1..], run);
      DirectCallsContained(Next(c, steps[0]), steps[1..], run);
    }
  }

  /* ---- the storage of a flow ---- */

  /** One of the storage operations a flow makes. */
  predicate IsFlowStep(s: HostStep, f: Failure, flow: Flow, walks: Walks, files: map<Path, Bytes>) {
    match s
    case CaptureStep(target, names, captured) =>
      && (target == f.CycleSnapshot() || (IsSegment(FullSnapshotId(f.incidentId)) && target == f.FullSnapshot()))
      && (names == walks.first || names == walks.second) && captured == files
    case ReportStep(d) => d.cycle == f.cycle && d.incidentId == f.incidentId
    case IncidentStep(d) => d.cycle == f.cycle && d.incidentId == f.incidentId
    case BranchStep(run, name, _, _) => run == f.Run() && flow == BranchInto(name)
    case _ => false
  }

  predicate AllFlowSteps(steps: seq<HostStep>, f: Failure, flow: Flow, walks: Walks, files: map<Path, Bytes>) {
    forall i :: 0 <= i < |steps| ==> IsFlowStep(steps[i], f, flow, walks, files)
  }

  /** The second tree comes from the first by storage operations of the flow. */
  ghost predicate ByFlow(h: Hasher, t: HostTree, t': HostTree, f: Failure, flow: Flow, walks: Walks,
                         files: map<Path, Bytes>) {
    exists steps: seq<HostStep> :: AllFlowSteps(steps, f, flow, walks, files) && t' == ApplySteps(h, t, steps)
  }

  lemma ByNoStep(h: Hasher, t: HostTree, f: Failure, flow: Flow, walks: Walks, files: map<Path, Bytes>)
    ensures ByFlow(h, t, t, f, flow, walks, files)
  {
    assert AllFlowSteps([], f, flow, walks, files) && ApplySteps(h, t, []) == t;
  }

  lemma ByOneStep(h: Hasher, t: HostTree, s: HostStep, f: Failure, flow: Flow, walks: Walks, files: map<Path, Bytes>)
    requires IsFlowStep(s, f, flow, walks, files)
    ensures ByFlow(h, t, ApplyStep(h, t, s), f, flow, walks, files)
  {
    hide ApplyStep, IsFlowStep;
    assert [s][1..] == [];
    assert ApplySteps(h, t, [s]) == ApplySteps(h, ApplyStep(h, t, s), []);
    assert AllFlowSteps([s], f, flow, walks, files);
  }

  lemma {:induction false} ApplyStepsAppend(h: Hasher, t: HostTree, a: seq<HostStep>, b: seq<HostStep>)
    ensures ApplySteps(h, t, a + b) == ApplySteps(h, ApplySteps(h, t, a), b)
    decreases |a|
  {
    hide ApplyStep;
    if a == [] {
      assert a + b == b;
    } else {
      ApplyStepsAppend(h, ApplyStep(h, t, a[0]), a[1..], b);
      assert (a + b)[1..] == a[1..] + b;
    }
  }

  lemma ByFlowTransitive(h: Hasher, t0: HostTree, t1: HostTree, t2: HostTree, f: Failure, flow: Flow, walks: Walks,
                         files: map<Path, Bytes>)
    requires ByFlow(h, t0, t1, f, flow, walks, files) && ByFlow(h, t1, t2, f, flow, walks, files)
    ensures ByFlow(h, t0, t2, f, flow, walks, files)
  {
    hide IsFlowStep, ApplySteps;
    var a: seq<HostStep> :| AllFlowSteps(a, f, flow, walks, files) && t1 == ApplySteps(h, t0, a);
    var b: seq<HostStep> :| AllFlowSteps(b, f, flow, walks, files) && t2 == ApplySteps(h, t1, b);
    ApplyStepsAppend(h, t0, a, b);
    assert AllFlowSteps(a + b, f, flow, walks, files);
  }

  lemma CaptureFailureIsStorage(h: Hasher, host: HostTree, f: Failure, flow: Flow, walks: Walks,
                                files: map<Path, Bytes>)
    requires walks.Within(files)
    ensures ByFlow(h, host, CaptureFailure(host, f, walks, files).0, f, flow, walks, files)
  {
    hide Capture, ByFlow, ApplyStep;
    CaptureIsStep(h, host, f.CycleSnapshot(), walks.first, files);
    ByOneStep(h, host, CaptureStep(f.CycleSnapshot(), walks.first, files), f, flow, walks, files);
    var (h1, first) := Capture(host, f.CycleSnapshot(), walks.first, files);
    if first.Ok? && IsSegment(FullSnapshotId(f.incidentId)) {
      CaptureIsStep(h, h1, f.FullSnapshot(), walks.second, files);
      ByOneStep(h, h1, CaptureStep(f.FullSnapshot(), walks.second, files), f, flow, walks, files);
      ByFlowTransitive(h, host, h1, Capture(h1, f.FullSnapshot(), walks.second, files).0, f, flow, walks, files);
    }
  }

  lemma SecureIsStorage(h: Hasher, w: World, f: Failure, flow: Flow, walks: Walks)
    requires walks.Within(w.ws.files)
    ensures ByFlow(h, w.host, Secure(w, f, walks).0.host, f, flow, walks, w.ws.files)
  {
    hide CaptureFailure, ByFlow, Next;
    ByNoStep(h, w.host, f, flow, walks, w.ws.files);
    CaptureFailureIsStorage(h, w.host, f, flow, walks, w.ws.files);
  }

  lemma ReportIsStorage(h: Hasher, w: World, f: Failure, flow: Flow, walks: Walks, files: map<Path, Bytes>, s: Secured,
                        steps: seq<RecoveryStep>, branch: Option<Path>, target: Option<Segment>,
                        restored: Option<Path>)
    ensures ByFlow(h, w.host, Report(w, f, s, steps, branch, target, restored).0.host, f, flow, walks, files)
  {
    hide ByFlow, WriteFile;
    ByNoStep(h, w.host, f, flow, walks, files);
    if IsSegment(f.incidentId) {
      var d := Document(f, s, steps, branch, target, restored);
      var report := IncidentReport(d.cycle.run, d.incidentId).Root();
      var record := Incident(d.cycle.run, d.incidentId).Root();
      ByOneStep(h, w.host, ReportStep(d), f, flow, walks, files);
      var (h1, e) := WriteFile(w.host, report, [ReportDoc(d)], false);
      if e.None? {
        ByOneStep(h, h1, IncidentStep(d), f, flow, walks, files);
        ByFlowTransitive(h, w.host, h1, WriteFile(h1, record, [IncidentDoc(d)], false).0, f, flow, walks, files);
      }
    }
  }

  lemma RestoreAndReportIsStorage(h: Hasher, w: World, f: Failure, flow: Flow, walks: Walks, files: map<Path, Bytes>,
                                  s: Secured, receipt: R.LifecycleReceipt, steps: seq<RecoveryStep>,
                                  target: Option<Segment>, manifest: Path)
    ensures ByFlow(h, w.host, RestoreAndReport(w, f, s, receipt, steps, target, manifest).0.host, f, flow, walks, files)
  {
    hide Restore, Report, ByFlow;
    ByNoStep(h, w.host, f, flow, walks, files);
    ReportIsStorage(h, w.(ws := Restore(w.ws, manifest, w.host).0), f, flow, walks, files, s, steps, None, target,
                    Some(manifest));
  }

  lemma RestIsStorage(h: Hasher, w: World, f: Failure, flow: Flow, walks: Walks)
    requires walks.Within(w.ws.files)
    ensures ByFlow(h, Secure(w, f, walks).0.host, Recover(w, f, flow, walks).0.host, f, flow, walks, w.ws.files)
  {
    hide Secure, Report, RestoreAndReport, WriteBranch, ByFlow, Next;
    var run, files := f.Run(), w.ws.files;
    var (w1, secured) := Secure(w, f, walks);
    ByNoStep(h, w1.host, f, flow, walks, files);
    if secured.Ok? {
      match flow {
        case RollbackTo(last) =>
          var (w2, receipt) := Facade(w1, run, R.ToCycle(last));
          if receipt.Ok? && IsSegment(last) {
            RestoreAndReportIsStorage(h, w2, f, flow, walks, files, secured.value, receipt.value,
                                      [StepPause, StepSnapshot, StepRollback, StepReport], Some(last),
                                      CycleManifest(run, last).Root());
          }
        case RestoreFrom(manifest) =>
          var (w2, receipt) := Facade(w1, run, R.ToSnapshot(secured.value.fullSnapshot.snapshotId));
          if receipt.Ok? {
            RestoreAndReportIsStorage(h, w2, f, flow, walks, files, secured.value, receipt.value,
                                      [StepPause, StepSnapshot, StepRestore, StepReport], None, manifest);
          }
        case BranchInto(name) => BranchRestIsStorage(h, w, f, name, walks);
      }
    }
  }

  lemma BranchRestIsStorage(h: Hasher, w: World, f: Failure, name: string, walks: Walks)
    requires walks.Within(w.ws.files) && Secure(w, f, walks).1.Ok?
    ensures ByFlow(h, Secure(w, f, walks).0.host, BranchAndContinue(w, f, name, walks).0.host, f, BranchInto(name),
                   walks, w.ws.files)
  {
    hide Secure, Report, WriteBranch, ByFlow, BranchFile;
    var flow, files := BranchInto(name), w.ws.files;
    var (w1, s) := Secure(w, f, walks);
    var refs := s.value.Refs();
    ByOneStep(h, w1.host, BranchStep(f.Run(), name, f.cycle, refs), f, flow, walks, files);
    var (host, e) := WriteBranch(w1.host, f.Run(), name, BranchDoc(name, f.cycle, refs));
    if e.None? {
      var w2, steps := w1.(host := host), [StepPause, StepSnapshot, StepBranch, StepReport];
      ReportIsStorage(h, w2, f, flow, walks, files, s.value, steps, BranchFile(f.Run(), name), None, None);
      var w3 := Report(w2, f, s.value, steps, BranchFile(f.Run(), name), None, None).0;
      ByFlowTransitive(h, w1.host, host, w3.host, f, flow, walks, files);
    }
  }

  /** The storage of a flow is a run of storage operations: captures of the workspace, a branch, a report, a record. */
  lemma EveryFlowIsStorageRun(h: Hasher, w: World, f: Failure, flow: Flow, walks: Walks)
    requires walks.Within(w.ws.files)
    ensures ByFlow(h, w.host, Recover(w, f, flow, walks).0.host, f, flow, walks, w.ws.files)
  {
    hide ByFlow, Secure, Recover;
    SecureIsStorage(h, w, f, flow, walks);
    RestIsStorage(h, w, f, flow, walks);
    ByFlowTransitive(h, w.host, Secure(w, f, walks).0.host, Recover(w, f, flow, walks).0.host, f, flow, walks,
                     w.ws.files);
  }

  lemma FlowGrows(h: Hasher, t: HostTree, t': HostTree, f: Failure, flow: Flow, walks: Walks, files: map<Path, Bytes>)
    requires t.WellFormed() && ByFlow(h, t, t', f, flow, walks, files)
    ensures t'.WellFormed() && OnlyGrows(t, t')
  {
    hide ApplySteps, OnlyGrows, AllFlowSteps;
    var steps: seq<HostStep> :| AllFlowSteps(steps, f, flow, walks, files) && t' == ApplySteps(h, t, steps);
    EveryRunOnlyGrows(h, t, steps);
  }

  /** Whatever is stored, and whatever the caller names, a flow loses nothing that was on the host. */
  lemma EveryFlowLosesNothing(w: World, f: Failure, flow: Flow, walks: Walks)
    requires w.host.WellFormed() && walks.Within(w.ws.files)
    ensures OnlyGrows(w.host, Recover(w, f, flow, walks).0.host)
  {
    hide OnlyGrows, Recover, ByFlow;
    var h: Hasher := (e, p) => "";
    EveryFlowIsStorageRun(h, w, f, flow, walks);
    FlowGrows(h, w.host, Recover(w, f, flow, walks).0.host, f, flow, walks, w.ws.files);
  }

  lemma FlowStepsAreProper(steps: seq<HostStep>, f: Failure, flow: Flow, walks: Walks, ws: WorkspaceTree)
    requires AllFlowSteps(steps, f, flow, walks, ws.files) && ws.WellFormed() && walks.List(ws.files)
    ensures AllProper(steps)
    ensures (flow.BranchInto? ==> Confined(f.Run(), flow.name)) ==> AllLegit(steps)
  {
    hide IsListing, Holdable, Confined;
    HoldableFiles(ws);
  }

  lemma FlowKeepsSound(h: Hasher, t: HostTree, t': HostTree, f: Failure, flow: Flow, walks: Walks, ws: WorkspaceTree)
    requires HostSound(h, t) && ByFlow(h, t, t', f, flow, walks, ws.files) && ws.WellFormed() && walks.List(ws.files)
    ensures HostSound(h, t')
  {
    hide HostSound, ApplySteps, AllFlowSteps, IsListing, AllProper, AllLegit;
    var steps: seq<HostStep> :| AllFlowSteps(steps, f, flow, walks, ws.files) && t' == ApplySteps(h, t, steps);
    FlowStepsAreProper(steps, f, flow, walks, ws);
    EveryRunKeepsSound(h, t, steps);
  }

  /** Files of artifacts that are not the flow's own are as they were, absent ones absent. */
  ghost predicate LeavesOthers(t: HostTree, t': HostTree, f: Failure, flow: Flow) {
    forall b: Artifact, p: Path ::
      b.Owns(p) && b !in Written(f) && !(flow.BranchInto? && BranchFile(f.Run(), flow.name) == Some(p))
      ==> (p in t'.files <==> p in t.files) && ContentAt(t', p) == ContentAt(t, p)
  }

  lemma FlowStepTouches(s: HostStep, f: Failure, flow: Flow, walks: Walks, files: map<Path, Bytes>)
    requires IsFlowStep(s, f, flow, walks, files)
    ensures Touched(s) <= Written(f)
    ensures s.BranchStep? ==> flow.BranchInto? && s.run == f.Run() && s.name == flow.name
  {
  }

  lemma {:induction false} FlowStepsLeaveOthers(h: Hasher, t: HostTree, steps: seq<HostStep>, f: Failure, flow: Flow,
                                                walks: Walks, files: map<Path, Bytes>)
    requires t.WellFormed() && AllFlowSteps(steps, f, flow, walks, files)
    ensures LeavesOthers(t, ApplySteps(h, t, steps), f, flow)
    decreases |steps|
  {
    hide IsFlowStep, ApplyStep, Written, Touched, BranchFile, ContentAt;
    if steps != [] {
      var t1 := ApplyStep(h, t, steps[0]);
      StepGrows(h, t, steps[0]);
      FlowStepTouches(steps[0], f, flow, walks, files);
      FlowStepsLeaveOthers(h, t1, steps[1..], f, flow, walks, files);
      forall b: Artifact, p: Path | b.Owns(p) && b !in Written(f)
                                    && !(flow.BranchInto? && BranchFile(f.Run(), flow.name) == Some(p))
        ensures (p in t1.files <==> p in t.files) && ContentAt(t1, p) == ContentAt(t, p)
      {
        StepLeaves(h, t, steps[0], b, p);
      }
    }
  }

  lemma FlowLeavesOthers(h: Hasher, t: HostTree, t': HostTree, f: Failure, flow: Flow, walks: Walks,
                         files: map<Path, Bytes>)
    requires t.WellFormed() && ByFlow(h, t, t', f, flow, walks, files)
    ensures LeavesOthers(t, t', f, flow)
  {
    hide ApplySteps, AllFlowSteps, LeavesOthers;
    var steps: seq<HostStep> :| AllFlowSteps(steps, f, flow, walks, files) && t' == ApplySteps(h, t, steps);
    FlowStepsLeaveOthers(h, t, steps, f, flow, walks, files);
  }

  /** No flow writes to an audit ledger. */
  lemma LeavesLedgers(t: HostTree, t': HostTree, f: Failure, flow: Flow, run: RunScope)
    requires LeavesOthers(t, t', f, flow)
    ensures ContentAt(t', LedgerFile(run)) == ContentAt(t, LedgerFile(run))
  {
    hide BranchFile, ContentAt;
    var b := AuditLog(run);
    assert b.Owns(b.Root()) && b !in Written(f);
    if flow.BranchInto? { BranchFileIsNotJsonl(f.Run(), flow.name, b); }
  }

  lemma {:induction false} TouchedByFlow(steps: seq<HostStep>, f: Failure, flow: Flow, walks: Walks,
                                         files: map<Path, Bytes>)
    requires AllFlowSteps(steps, f, flow, walks, files)
    ensures TouchedAll(steps) <= Written(f)
    decreases |steps|
  {
    hide IsFlowStep, Written, Touched;
    if steps != [] {
      FlowStepTouches(steps[0], f, flow, walks, files);
      TouchedByFlow(steps[1..], f, flow, walks, files);
    }
  }

  lemma FlowEffect(h: Hasher, t: HostTree, t': HostTree, f: Failure, flow: Flow, walks: Walks, ws: WorkspaceTree)
    requires t.WellFormed() && ByFlow(h, t, t', f, flow, walks, ws.files) && ws.WellFormed() && walks.List(ws.files)
    requires flow.BranchInto? ==> Confined(f.Run(), flow.name)
    ensures Effect(t, t', Written(f)) && (HostInv(h, t) ==> HostInv(h, t'))
  {
    hide HostInv, Effect, ApplySteps, AllFlowSteps, IsListing, AllProper, AllLegit, Confined, Written;
    var steps: seq<HostStep> :| AllFlowSteps(steps, f, flow, walks, ws.files) && t' == ApplySteps(h, t, steps);
    FlowStepsAreProper(steps, f, flow, walks, ws);
    RunIsAppendOnly(h, t, steps);
    TouchedByFlow(steps, f, flow, walks, ws.files);
    EffectWiden(t, t', TouchedAll(steps), Written(f));
  }

  /** A flow blocks a ledger only by the name of its branch. */
  lemma FlowBlocksByName(h: Hasher, w: World, f: Failure, flow: Flow, walks: Walks, run: RunScope)
    requires w.host.WellFormed() && w.ws.WellFormed() && walks.List(w.ws.files)
    requires LedgerBlocked(Recover(w, f, flow, walks).0.host, run)
    requires !(flow.BranchInto? && LedgerFile(run) in Visited([], BranchDirs(f.Run(), flow.name)))
    ensures LedgerBlocked(w.host, run)
  {
    hide Recover, AllFlowSteps, IsListing, ApplySteps, LedgerBlocked, Visited, BranchDirs, AllProper;
    EveryFlowIsStorageRun(h, w, f, flow, walks);
    var steps: seq<HostStep> :| AllFlowSteps(steps, f, flow, walks, w.ws.files)
                                && Recover(w, f, flow, walks).0.host == ApplySteps(h, w.host, steps);
    FlowStepsAreProper(steps, f, flow, walks, w.ws);
    FlowStepsBlockByName(h, w.host, steps, f, flow, walks, w.ws.files, run);
  }

  lemma {:induction false} FlowStepsBlockByName(h: Hasher, t: HostTree, steps: seq<HostStep>, f: Failure, flow: Flow,
                                                walks: Walks, files: map<Path, Bytes>, run: RunScope)
    requires t.WellFormed() && AllFlowSteps(steps, f, flow, walks, files) && AllProper(steps)
    requires LedgerBlocked(ApplySteps(h, t, steps), run)
    requires !(flow.BranchInto? && LedgerFile(run) in Visited([], BranchDirs(f.Run(), flow.name)))
    ensures LedgerBlocked(t, run)
    decreases |steps|
  {
    hide IsFlowStep, ApplyStep, LedgerBlocked, Visited, BranchDirs, Proper, Written, Touched;
    if steps != [] {
      StepGrows(h, t, steps[0]);
      FlowStepTouches(steps[0], f, flow, walks, files);
      FlowStepsBlockByName(h, ApplyStep(h, t, steps[0]), steps[1..], f, flow, walks, files, run);
      StepBlocksByName(h, t, steps[0], run);
    }
  }

  /* ---- what every flow guarantees ---- */

  /** Once the captures have succeeded both snapshots stay recoverable to the end of the flow. */
  lemma SecuredThroughout(h: Hasher, w: World, f: Failure, flow: Flow, walks: Walks)
    requires w.host.WellFormed() && w.ws.WellFormed() && walks.List(w.ws.files) && Secure(w, f, walks).1.Ok?
    ensures BothRecoverable(Recover(w, f, flow, walks).0.host, f, w.ws.files)
  {
    hide Secure, Recover, ByFlow, OnlyGrows, BothRecoverable, Securable, Effect, IsListing, Uncaptured, Recoverable;
    SecureExact(w, f, walks);
    RestIsStorage(h, w, f, flow, walks);
    FlowGrows(h, Secure(w, f, walks).0.host, Recover(w, f, flow, walks).0.host, f, flow, walks, w.ws.files);
    BothRecoverableKept(Secure(w, f, walks).0.host, Recover(w, f, flow, walks).0.host, f, w.ws.files);
  }

  /** A flow that cannot capture ends there. */
  lemma UnsecuredEnds(w: World, f: Failure, flow: Flow, walks: Walks)
    requires walks.Within(w.ws.files) && Secure(w, f, walks).1.Err?
    ensures Recover(w, f, flow, walks).0 == Secure(w, f, walks).0 && Recover(w, f, flow, walks).1.Err?
    ensures Recover(w, f, flow, walks).0.ws == w.ws
  {
    hide Secure;
    SecureKeepsWorkspace(w, f, walks);
  }

  lemma FlowKeepsTree(w: World, f: Failure, flow: Flow, walks: Walks)
    requires walks.Within(w.ws.files) && w.ws.WellFormed()
    ensures Recover(w, f, flow, walks).0.ws.WellFormed()
  {
    hide Secure, Report, Restore, WriteBranch, Next;
    SecureKeepsWorkspace(w, f, walks);
    EveryFlowIsContained(w, f, flow, walks);
    if !flow.BranchInto? {
      var (w1, s) := Secure(w, f, walks);
      if s.Ok? {
        var t := if flow.RollbackTo? then R.ToCycle(flow.lastAccepted)
                 else R.ToSnapshot(s.value.fullSnapshot.snapshotId);
        var (w2, receipt) := Facade(w1, f.Run(), t);
        if flow.RestoreFrom? {
          RestoreKeepsTree(w2, f, s.value, receipt, flow.manifest, None,
                           [StepPause, StepSnapshot, StepRestore, StepReport]);
        } else if IsSegment(flow.lastAccepted) {
          RestoreKeepsTree(w2, f, s.value, receipt, CycleManifest(f.Run(), flow.lastAccepted).Root(),
                           Some(flow.lastAccepted), [StepPause, StepSnapshot, StepRollback, StepReport]);
        }
      }
    }
  }

  lemma RestoreKeepsTree(w: World, f: Failure, s: Secured, receipt: Result<R.LifecycleReceipt, Error>, manifest: Path,
                         target: Option<Segment>, steps: seq<RecoveryStep>)
    requires w.ws.WellFormed()
    ensures receipt.Ok? ==> RestoreAndReport(w, f, s, receipt.value, steps, target, manifest).0.ws.WellFormed()
  {
    hide Restore, Report;
    RestoreWellFormed(w.ws, manifest, w.host);
    ReportKeepsControl(w.(ws := Restore(w.ws, manifest, w.host).0), f, s, steps, None, target, Some(manifest));
  }

  /** Whatever a recovery flow runs into, at whatever stage, whatever is stored and however a branch is named: nothing
      stored is lost or altered, no artifact but the flow's own is touched and so no ledger, the workspace is only
      rewritten once both snapshots of it are stored, and the run ends up paused or locked, by direct calls on that run
      alone. Unless the branch name leaves the branch directory, nothing is created outside the flow's own artifacts,
      and a store the services wrote keeps its layout. */
  lemma EveryFlowIsCareful(h: Hasher, w: World, f: Failure, flow: Flow, walks: Walks)
    requires w.host.WellFormed() && w.ws.WellFormed() && walks.List(w.ws.files)
    ensures var (w', r) := Recover(w, f, flow, walks);
            && w'.host.WellFormed() && w'.ws.WellFormed()
            && OnlyGrows(w.host, w'.host) && LeavesOthers(w.host, w'.host, f, flow)
            && (forall run :: ContentAt(w'.host, LedgerFile(run)) == ContentAt(w.host, LedgerFile(run)))
            && (w'.ws != w.ws || r.Ok? ==> BothRecoverable(w'.host, f, w.ws.files))
            && (flow.BranchInto? ==> w'.ws == w.ws)
            && Contained(w.control, w'.control, f.Run(), Calls(w, f, flow, walks))
            && (HostSound(h, w.host) ==> HostSound(h, w'.host))
            && ((flow.BranchInto? ==> Confined(f.Run(), flow.name)) ==>
                  Effect(w.host, w'.host, Written(f)) && (HostInv(h, w.host) ==> HostInv(h, w'.host)))
  {
    hide Recover, Secure, ByFlow, OnlyGrows, BothRecoverable, LeavesOthers, Contained, Calls, HostSound, HostInv,
         Effect, Confined, IsListing, Written, ContentAt;
    var w' := Recover(w, f, flow, walks).0;
    EveryFlowIsStorageRun(h, w, f, flow, walks);
    FlowGrows(h, w.host, w'.host, f, flow, walks, w.ws.files);
    FlowLeavesOthers(h, w.host, w'.host, f, flow, walks, w.ws.files);
    forall run ensures ContentAt(w'.host, LedgerFile(run)) == ContentAt(w.host, LedgerFile(run)) {
      LeavesLedgers(w.host, w'.host, f, flow, run);
    }
    FlowKeepsTree(w, f, flow, walks);
    EveryFlowIsContained(w, f, flow, walks);
    if Secure(w, f, walks).1.Ok? { SecuredThroughout(h, w, f, flow, walks); } else { UnsecuredEnds(w, f, flow, walks); }
    if HostSound(h, w.host) { FlowKeepsSound(h, w.host, w'.host, f, flow, walks, w.ws); }
    if flow.BranchInto? ==> Confined(f.Run(), flow.name) { FlowEffect(h, w.host, w'.host, f, flow, walks, w.ws); }
  }

  /* ---- branching, exactly ---- */

  /** For a name that keeps to its directory, branching succeeds exactly when both snapshots and the incident are new
      and nothing is in the way of the evidence; it only pauses the run. */
  lemma BranchIsCareful(w: World, f: Failure, name: string, walks: Walks)
    requires w.host.WellFormed() && w.ws.WellFormed() && walks.List(w.ws.files) && Confined(f.Run(), name)
    ensures var (w', r) := BranchAndContinue(w, f, name, walks);
            && w'.host.WellFormed() && Effect(w.host, w'.host, Written(f))
            && w'.ws == w.ws && w'.control == Next(w.control, Direct(f.Run(), R.ToPaused))
            && (r.Ok? <==>
                  && f.Run() in w.control.sessions
                  && Securable(w.host, f, w.ws.files) && Reportable(w.host, f)
                  && BranchFree(w.host, f.Run(), name))
  {
    hide Effect, Securable, Secure, BothRecoverable, Captures, Written, IsListing, WriteBranch, Confined, BranchFree,
         Report, Reportable, Next, BranchFile, OnlyGrows, Uncaptured, Recoverable;
    SecureExact(w, f, walks);
    var (w1, s) := Secure(w, f, walks);
    SecuredIsWritten(w.host, w1.host, f);
    if s.Ok? {
      var path, doc := BranchFile(f.Run(), name), BranchDoc(name, f.cycle, s.value.Refs());
      BranchStepExact(w.host, w1.host, f, name, doc);
      var (host, e) := WriteBranch(w1.host, f.Run(), name, doc);
      EffectTransitive(w.host, w1.host, host, Written(f));
      if e.None? {
        var w2, steps := w1.(host := host), [StepPause, StepSnapshot, StepBranch, StepReport];
        ReportExact(w2, f, s.value, steps, path, None, None);
        var (w3, reported) := Report(w2, f, s.value, steps, path, None, None);
        assert reported.Ok? <==> Reportable(w.host, f);
        EffectTransitive(w.host, host, w3.host, Written(f));
      }
    }
  }

  lemma BranchApart(f: Failure)
    ensures BranchEvidence(f.Run()) !in Captures(f) && {BranchEvidence(f.Run())} <= Written(f)
    ensures forall a :: a in Captures(f) ==> !a.Incident? && !a.IncidentReport?
  {
  }

  lemma BranchStepExact(t0: HostTree, t: HostTree, f: Failure, name: string, doc: Record)
    requires t.WellFormed() && Effect(t0, t, Captures(f)) && doc.BranchDoc? && Confined(f.Run(), name)
    ensures var (t', e) := WriteBranch(t, f.Run(), name, doc);
            && t'.WellFormed() && Effect(t, t', Written(f))
            && (e.None? <==> BranchFree(t0, f.Run(), name))
            && (Reportable(t', f) <==> Reportable(t0, f))
  {
    hide Effect, WriteBranch, BranchFree, Confined, Reportable, Captures, Written, Visited;
    BranchApart(f);
    var run, b := f.Run(), BranchEvidence(f.Run());
    var t' := WriteBranch(t, run, name, doc).0;
    WriteBranchExact(t, run, name, doc);
    ConfinedEffect(t, run, name, doc);
    EffectWiden(t, t', {b}, Written(f));
    BranchFreeFrame(t0, t, Captures(f), run, name);
    ReportableFrame(t0, t, Captures(f), f);
    ReportableFrame(t, t', {b}, f);
  }
}
