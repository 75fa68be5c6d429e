/** When a recovery flow succeeds, and what it then gives. */
module RecoveryOutcomes {
  import opened Prelude
  import opened FileTree
  import opened StoragePaths
  import opened AuditChain
  import opened Records
  import opened HostFilesystem
  import opened StorageLayout
  import opened Workspaces
  import opened Snapshots
  import opened Branches
  import opened Commands
  import opened Ledger
  import opened Orchestrator
  import opened ControlRuns
  import opened HostSteps
  import opened HostRuns
  import opened Recovery
  import opened RecoveryFlows
  import R = Runtime

  /* ---- restoring flows, exactly ---- */

  /** One of the two snapshots the flow takes itself. */
  predicate IsOwn(f: Failure, target: SnapshotTarget) {
    target.Manifest() in Captures(f)
  }

  /** What a flow finds in a target once it has captured: the failing files if it captured them itself, and otherwise
      what was stored before. */
  ghost predicate Targets(w: World, f: Failure, target: SnapshotTarget, F: map<Path, Bytes>) {
    if IsOwn(f, target) then F == w.ws.files else Recoverable(w.host, target, F)
  }

  lemma OwnIsRecoverable(host: HostTree, f: Failure, target: SnapshotTarget, F: map<Path, Bytes>)
    requires BothRecoverable(host, f, F) && IsOwn(f, target)
    ensures Recoverable(host, target, F)
  {
    hide Recoverable;
    if target.Manifest() == f.CycleSnapshot().Manifest() {
      SameManifestSameSnapshot(host, f.CycleSnapshot(), target, F);
    } else {
      SameManifestSameSnapshot(host, f.FullSnapshot(), target, F);
    }
  }

  /** The second half of a restoring flow, once both snapshots are stored. */
  lemma SecuredRestoreExact(w: World, f: Failure, walks: Walks, t: R.Transition, steps: seq<RecoveryStep>,
                            accepted: Option<Segment>, target: SnapshotTarget, F: map<Path, Bytes>)
    requires w.host.WellFormed() && w.ws.WellFormed() && walks.List(w.ws.files) && Secure(w, f, walks).1.Ok?
    requires (t.ToCycle? || t.ToSnapshot?) && Holdable(F) && Targets(w, f, target, F)
    ensures var (w1, s) := Secure(w, f, walks);
            var (w2, receipt) := Facade(w1, f.Run(), t);
            receipt.Ok? &&
            var (w3, r) := RestoreAndReport(w2, f, s.value, receipt.value, steps, accepted, target.Manifest().Root());
            && (r.Ok? <==> Reportable(w.host, f) && w.ws.dirs !! F.Keys)
            && (w.ws.dirs !! F.Keys ==> w3.ws == TreeOf(F))
            && w3.control == w2.control && BothRecoverable(w3.host, f, w.ws.files)
            && (r.Ok? ==>
                  && r.value.runtimeReceipt == Some(receipt.value) && r.value.restorePlan.Some?
                  && Ok(r.value.restorePlan.value) == ReconstructRestore(w3.host, target.Manifest().Root())
                  && r.value.restorePlan.value.snapshotId == target.Id())
  {
    hide Effect, OnlyGrows, Securable, Secure, RestoreAndReport, Recoverable, Holdable, Reportable, TreeOf, R.After,
         Captures, Written, IsListing, IsOwn, BothRecoverable;
    SecureExact(w, f, walks);
    var (w1, s) := Secure(w, f, walks);
    SecuredIsWritten(w.host, w1.host, f);
    RolledBackSession(w1, f.Run(), t);
    var (w2, receipt) := Facade(w1, f.Run(), t);
    if IsOwn(f, target) {
      OwnIsRecoverable(w1.host, f, target, F);
    } else {
      RecoverableKept(w.host, w1.host, target, F);
    }
    RecoverableRepresents(w1.host, target, F);
    var manifest := target.Manifest().Root();
    RestoreAndReportSound(w2, f, s.value, receipt.value, steps, accepted, manifest);
    RestoreAndReportExact(w2, f, s.value, receipt.value, steps, accepted, manifest, F);
    var w3 := RestoreAndReport(w2, f, s.value, receipt.value, steps, accepted, manifest).0;
    EffectGrows(w2.host, w3.host, Written(f));
    RecoverableKept(w2.host, w3.host, target, F);
    BothRecoverableKept(w2.host, w3.host, f, w.ws.files);
  }

  lemma RecoverableRepresents(host: HostTree, target: SnapshotTarget, F: map<Path, Bytes>)
    requires Recoverable(host, target, F)
    ensures Represents(host, target.Manifest().Root(), F)
    ensures ReconstructRestore(host, target.Manifest().Root()).value.snapshotId == target.Id()
  {
  }

  /** Manual rollback succeeds exactly when the run is registered, nothing is stored yet under the failing
      cycle, the snapshot id and the incident id, and no accepted file is a directory now. It then leaves the
      accepted files and nothing else, the failing files doubly recoverable, and the run locked. Rolling back to the
      failing cycle itself gives the failing files back. */
  lemma ManualRollbackExact(w: World, f: Failure, last: Segment, walks: Walks, accepted: map<Path, Bytes>)
    requires w.host.WellFormed() && w.ws.WellFormed() && walks.List(w.ws.files)
    requires Holdable(accepted) && Targets(w, f, CycleTarget(CycleScope(f.Run(), last)), accepted)
    ensures var (w', r) := ManualRollback(w, f, last, walks);
            && (r.Ok? <==>
                  && f.Run() in w.control.sessions
                  && Securable(w.host, f, w.ws.files) && Reportable(w.host, f)
                  && w.ws.dirs !! accepted.Keys)
            && (r.Ok? ==>
                  && w'.ws == TreeOf(accepted)
                  && BothRecoverable(w'.host, f, w.ws.files)
                  && Locked(w'.control, f.Run())
                  && w'.control.sessions[f.Run()].lifecycle.Live?
                  && w'.control.sessions[f.Run()].targetCycle == Some(last)
                  && w'.control.receipts == w.control.receipts && w'.control.desk == w.control.desk)
  {
    hide Securable, Secure, RestoreAndReport, Targets, Holdable, Reportable, TreeOf, Locked, R.After, IsListing,
         BothRecoverable, Effect, Uncaptured, Recoverable;
    SecureExact(w, f, walks);
    if Secure(w, f, walks).1.Ok? {
      SecuredRestoreExact(w, f, walks, R.ToCycle(last), [StepPause, StepSnapshot, StepRollback, StepReport], Some(last),
                          CycleTarget(CycleScope(f.Run(), last)), accepted);
      RolledBackSession(Secure(w, f, walks).0, f.Run(), R.ToCycle(last));
    }
  }

  /** Kill-and-restore from a snapshot, stored or taken by the flow itself: the same guarantees, for its files. */
  lemma KillAndRestoreExact(w: World, f: Failure, source: SnapshotTarget, walks: Walks, good: map<Path, Bytes>)
    requires w.host.WellFormed() && w.ws.WellFormed() && walks.List(w.ws.files)
    requires Holdable(good) && Targets(w, f, source, good)
    ensures var (w', r) := KillAndRestore(w, f, source.Manifest().Root(), walks);
            && (r.Ok? <==>
                  && f.Run() in w.control.sessions
                  && Securable(w.host, f, w.ws.files) && Reportable(w.host, f)
                  && w.ws.dirs !! good.Keys)
            && (r.Ok? ==>
                  && w'.ws == TreeOf(good)
                  && BothRecoverable(w'.host, f, w.ws.files)
                  && Locked(w'.control, f.Run())
                  && r.value.runtimeReceipt.Some? && r.value.restorePlan.Some?
                  && r.value.runtimeReceipt.value.snapshot == Some(FullSnapshotId(f.incidentId))
                  && Ok(r.value.restorePlan.value) == ReconstructRestore(w'.host, source.Manifest().Root())
                  && r.value.restorePlan.value.snapshotId == source.Id())
  {
    hide Securable, Secure, RestoreAndReport, Targets, Holdable, Reportable, TreeOf, Locked, R.After, IsListing,
         BothRecoverable, Effect, Uncaptured, Recoverable, ReconstructRestore;
    SecureExact(w, f, walks);
    var (w1, s) := Secure(w, f, walks);
    if s.Ok? {
      var t := R.ToSnapshot(s.value.fullSnapshot.snapshotId);
      SecuredRestoreExact(w, f, walks, t, [StepPause, StepSnapshot, StepRestore, StepReport], None, source, good);
      RolledBackSession(w1, f.Run(), t);
    }
  }

  /** A stored snapshot that can be restored into the workspace. */
  ghost predicate RestoresInto(host: HostTree, target: SnapshotTarget, ws: WorkspaceTree) {
    var m := ReconstructRestore(host, target.Manifest().Root());
    m.Ok? && ws.dirs !! Expected(m.value.entries)
  }

  /** The workspace holds just what the stored target restores. */
  ghost predicate HoldsTarget(ws: WorkspaceTree, host: HostTree, target: SnapshotTarget) {
    exists F: map<Path, Bytes> :: Holdable(F) && Recoverable(host, target, F) && ws == TreeOf(F)
  }

  lemma UnreadableTargetFails(w: World, f: Failure, walks: Walks, t: R.Transition, steps: seq<RecoveryStep>,
                              accepted: Option<Segment>, target: SnapshotTarget)
    requires w.host.WellFormed() && w.ws.WellFormed() && walks.List(w.ws.files) && Secure(w, f, walks).1.Ok?
    requires (t.ToCycle? || t.ToSnapshot?) && !IsOwn(f, target)
    requires ReconstructRestore(w.host, target.Manifest().Root()).Err?
    ensures var (w1, s) := Secure(w, f, walks);
            var (w2, receipt) := Facade(w1, f.Run(), t);
            receipt.Ok? &&
            RestoreAndReport(w2, f, s.value, receipt.value, steps, accepted, target.Manifest().Root()).1.Err?
  {
    hide Effect, Securable, Secure, Recoverable, R.After, Captures, IsListing, BothRecoverable, Uncaptured, ContentAt,
         ReconstructRestore, RestoreAndReport, IsOwn;
    SecureExact(w, f, walks);
    var w1 := Secure(w, f, walks).0;
    RolledBackSession(w1, f.Run(), t);
    SamePlanned(w.host, w1.host, f, target);
    var (w2, receipt) := Facade(w1, f.Run(), t);
    UnreadableEnds(w2, f, Secure(w, f, walks).1.value, receipt.value, steps, accepted, target.Manifest().Root());
  }

  lemma UnreadableEnds(w: World, f: Failure, s: Secured, receipt: R.LifecycleReceipt, steps: seq<RecoveryStep>,
                       accepted: Option<Segment>, manifest: Path)
    requires ReconstructRestore(w.host, manifest).Err?
    ensures RestoreAndReport(w, f, s, receipt, steps, accepted, manifest).1.Err?
  {
    hide Report, ReconstructRestore;
  }

  /** Capturing the failing files leaves every other manifest as readable as it was. */
  lemma SamePlanned(t: HostTree, t': HostTree, f: Failure, target: SnapshotTarget)
    requires Effect(t, t', Captures(f)) && !IsOwn(f, target)
    ensures var manifest := target.Manifest().Root();
            ReconstructRestore(t', manifest).Ok? <==> ReconstructRestore(t, manifest).Ok?
  {
    hide Effect;
    EffectFrame(t, t', Captures(f), target.Manifest(), target.Manifest().Root());
  }

  /** Some files the target will turn out to hold, if it can be read at all. */
  lemma TargetFiles(w: World, f: Failure, target: SnapshotTarget) returns (F: map<Path, Bytes>)
    requires w.ws.WellFormed() && SnapshotsSound(w.host)
    requires IsOwn(f, target) || ReconstructRestore(w.host, target.Manifest().Root()).Ok?
    ensures Holdable(F) && Targets(w, f, target, F) && (IsOwn(f, target) ==> F == w.ws.files)
    ensures w.ws.dirs !! F.Keys <==> IsOwn(f, target) || RestoresInto(w.host, target, w.ws)
  {
    hide Holdable, IsOwn;
    if IsOwn(f, target) {
      F := w.ws.files;
      HoldableFiles(w.ws);
    } else {
      assert Restorable(w.host, target);
      F :| Holdable(F) && Recoverable(w.host, target, F);
    }
  }

  lemma HeldTarget(w: World, w': World, f: Failure, target: SnapshotTarget, F: map<Path, Bytes>)
    requires Holdable(F) && Targets(w, f, target, F) && OnlyGrows(w.host, w'.host) && w'.ws == TreeOf(F)
    requires BothRecoverable(w'.host, f, w.ws.files)
    ensures HoldsTarget(w'.ws, w'.host, target)
  {
    hide OnlyGrows, IsOwn, Recoverable, Holdable, TreeOf, BothRecoverable;
    if IsOwn(f, target) {
      OwnIsRecoverable(w'.host, f, target, F);
    } else {
      RecoverableKept(w.host, w'.host, target, F);
    }
  }

  lemma OwnCycle(f: Failure, last: Segment)
    ensures IsOwn(f, CycleTarget(CycleScope(f.Run(), last))) <==> last == f.cycle.cycleId
  {
  }

  /** Wherever every readable snapshot restores some workspace - on every reachable host - a rollback to any cycle
      succeeds exactly when the run is registered, nothing is stored yet under the failing ids, and the cycle is the
      failing one itself or a stored one no file of which is a directory now. The workspace then holds just what that
      cycle's stored manifest restores. */
  lemma RollbackSucceedsExactly(w: World, f: Failure, last: Text, walks: Walks)
    requires w.host.WellFormed() && SnapshotsSound(w.host) && w.ws.WellFormed() && walks.List(w.ws.files)
    ensures var (w', r) := ManualRollback(w, f, last, walks);
            && (r.Ok? <==>
                  && f.Run() in w.control.sessions
                  && Securable(w.host, f, w.ws.files) && Reportable(w.host, f) && IsSegment(last)
                  && (last == f.cycle.cycleId
                      || RestoresInto(w.host, CycleTarget(CycleScope(f.Run(), last)), w.ws)))
            && (r.Ok? ==>
                  && HoldsTarget(w'.ws, w'.host, CycleTarget(CycleScope(f.Run(), last)))
                  && (last == f.cycle.cycleId ==> w'.ws == TreeOf(w.ws.files)))
  {
    hide Securable, Targets, Holdable, Reportable, TreeOf, Locked, IsListing, BothRecoverable, Recoverable, IsOwn,
         ManualRollback, OnlyGrows, SnapshotsSound, HoldsTarget, ReconstructRestore, Expected;
    if IsSegment(last) {
      var target := CycleTarget(CycleScope(f.Run(), last));
      OwnCycle(f, last);
      if IsOwn(f, target) || ReconstructRestore(w.host, target.Manifest().Root()).Ok? {
        var F := TargetFiles(w, f, target);
        ManualRollbackExact(w, f, last, walks, F);
        EveryFlowLosesNothing(w, f, RollbackTo(last), walks);
        if ManualRollback(w, f, last, walks).1.Ok? { HeldTarget(w, ManualRollback(w, f, last, walks).0, f, target, F); }
      } else {
        UnreadableRollbackFails(w, f, last, walks);
      }
    } else {
      BadCycleFails(w, f, last, walks);
    }
  }

  lemma BadCycleFails(w: World, f: Failure, last: Text, walks: Walks)
    requires walks.Within(w.ws.files) && !IsSegment(last)
    ensures ManualRollback(w, f, last, walks).1.Err?
  {
    hide Secure;
  }

  lemma UnreadableRollbackFails(w: World, f: Failure, last: Segment, walks: Walks)
    requires w.host.WellFormed() && w.ws.WellFormed() && walks.List(w.ws.files) && last != f.cycle.cycleId
    requires ReconstructRestore(w.host, CycleTarget(CycleScope(f.Run(), last)).Manifest().Root()).Err?
    ensures ManualRollback(w, f, last, walks).1.Err?
  {
    hide Secure, RestoreAndReport, ReconstructRestore, IsListing, IsOwn;
    OwnCycle(f, last);
    if Secure(w, f, walks).1.Ok? {
      UnreadableTargetFails(w, f, walks, R.ToCycle(last), [StepPause, StepSnapshot, StepRollback, StepReport],
                            Some(last), CycleTarget(CycleScope(f.Run(), last)));
    }
  }

  /** The same for kill-and-restore and any snapshot, the two the flow takes itself included. */
  lemma RestoreSucceedsExactly(w: World, f: Failure, source: SnapshotTarget, walks: Walks)
    requires w.host.WellFormed() && SnapshotsSound(w.host) && w.ws.WellFormed() && walks.List(w.ws.files)
    ensures var (w', r) := KillAndRestore(w, f, source.Manifest().Root(), walks);
            && (r.Ok? <==>
                  && f.Run() in w.control.sessions
                  && Securable(w.host, f, w.ws.files) && Reportable(w.host, f)
                  && (IsOwn(f, source) || RestoresInto(w.host, source, w.ws)))
            && (r.Ok? ==>
                  && HoldsTarget(w'.ws, w'.host, source)
                  && (IsOwn(f, source) ==> w'.ws == TreeOf(w.ws.files)))
  {
    hide Securable, Targets, Holdable, Reportable, TreeOf, Locked, IsListing, BothRecoverable, Recoverable, IsOwn,
         KillAndRestore, OnlyGrows, SnapshotsSound, HoldsTarget, ReconstructRestore, Expected;
    if IsOwn(f, source) || ReconstructRestore(w.host, source.Manifest().Root()).Ok? {
      var F := TargetFiles(w, f, source);
      KillAndRestoreExact(w, f, source, walks, F);
      EveryFlowLosesNothing(w, f, RestoreFrom(source.Manifest().Root()), walks);
      var (w', r) := KillAndRestore(w, f, source.Manifest().Root(), walks);
      if r.Ok? { HeldTarget(w, w', f, source, F); }
    } else {
      UnreadableRestoreFails(w, f, source, walks);
    }
  }

  lemma UnreadableRestoreFails(w: World, f: Failure, source: SnapshotTarget, walks: Walks)
    requires w.host.WellFormed() && w.ws.WellFormed() && walks.List(w.ws.files) && !IsOwn(f, source)
    requires ReconstructRestore(w.host, source.Manifest().Root()).Err?
    ensures KillAndRestore(w, f, source.Manifest().Root(), walks).1.Err?
  {
    hide Secure, RestoreAndReport, ReconstructRestore, IsListing, IsOwn;
    var s := Secure(w, f, walks).1;
    if s.Ok? {
      UnreadableTargetFails(w, f, walks, R.ToSnapshot(s.value.fullSnapshot.snapshotId),
                            [StepPause, StepSnapshot, StepRestore, StepReport], None, source);
    }
  }

  /* ---- the id the runtime is told ---- */

  lemma CaptureFailureIds(host: HostTree, f: Failure, walks: Walks, files: map<Path, Bytes>)
    requires walks.Within(files) && CaptureFailure(host, f, walks, files).1.Ok?
    ensures CaptureFailure(host, f, walks, files).1.value.1.snapshotId == FullSnapshotId(f.incidentId)
  {
    hide CaptureFiles, WriteFile;
  }

  /** Whatever is restored, from whatever is stored, the runtime is told the id of the full snapshot the flow has just
      taken; so it learns the id of the restored one exactly when the two are the same. */
  lemma RestoredIdIsReportedExactly(w: World, f: Failure, manifest: Path, walks: Walks)
    requires walks.Within(w.ws.files) && KillAndRestore(w, f, manifest, walks).1.Ok?
    ensures var outcome := KillAndRestore(w, f, manifest, walks).1.value;
            && outcome.runtimeReceipt.Some? && outcome.restorePlan.Some?
            && outcome.runtimeReceipt.value.snapshot == Some(FullSnapshotId(f.incidentId))
            && (outcome.runtimeReceipt.value.snapshot == Some(outcome.restorePlan.value.snapshotId)
                <==> outcome.restorePlan.value.snapshotId == FullSnapshotId(f.incidentId))
  {
    hide CaptureFailure, Report, Restore, FullSnapshotId;
    CaptureFailureIds(w.host, f, walks, w.ws.files);
  }

  /** For a full snapshot of the same run that was stored before, the two never are. */
  lemma RestoredIdIsNotReported(w: World, f: Failure, source: SnapshotTarget, walks: Walks)
    requires w.host.WellFormed() && SnapshotsSound(w.host) && w.ws.WellFormed() && walks.List(w.ws.files)
    requires source.FullTarget? && source.run == f.Run() && source.Manifest().Root() in w.host.files
    requires KillAndRestore(w, f, source.Manifest().Root(), walks).1.Ok?
    ensures var outcome := KillAndRestore(w, f, source.Manifest().Root(), walks).1.value;
            && outcome.runtimeReceipt.Some? && outcome.restorePlan.Some?
            && outcome.restorePlan.value.snapshotId == source.Id()
            && outcome.runtimeReceipt.value.snapshot != Some(source.Id())
  {
    hide KillAndRestore, IsListing, Holdable, TreeOf, BothRecoverable, Locked, Reportable, Targets, FullSnapshotId,
         SnapshotsSound, Recoverable;
    RestoreSucceedsExactly(w, f, source, walks);
    StoredIsNotOwn(w.host, f, source, w.ws.files);
    var F := TargetFiles(w, f, source);
    KillAndRestoreExact(w, f, source, walks, F);
  }

  /** A flow that can take its snapshots finds neither stored. */
  lemma StoredIsNotOwn(host: HostTree, f: Failure, source: SnapshotTarget, files: map<Path, Bytes>)
    requires Securable(host, f, files) && source.Manifest().Root() in host.files
    ensures !IsOwn(f, source)
  {
  }

  /** For the full snapshot the flow takes itself the two are the same: naming it before it exists works, and puts the
      failing files back. */
  lemma OwnSnapshotIsReported(w: World, f: Failure, walks: Walks)
    requires w.host.WellFormed() && w.ws.WellFormed() && walks.List(w.ws.files) && IsSegment(f.incidentId)
    ensures IsSegment(FullSnapshotId(f.incidentId)) &&
            var (w', r) := KillAndRestore(w, f, f.FullSnapshot().Manifest().Root(), walks);
            && (r.Ok? <==>
                  f.Run() in w.control.sessions && Securable(w.host, f, w.ws.files) && Reportable(w.host, f))
            && (r.Ok? ==>
                  && r.value.runtimeReceipt.Some? && r.value.restorePlan.Some?
                  && r.value.runtimeReceipt.value.snapshot == Some(r.value.restorePlan.value.snapshotId)
                  && w'.ws == TreeOf(w.ws.files))
  {
    hide KillAndRestore, IsListing, Holdable, TreeOf, BothRecoverable, Locked, Reportable, FullSnapshotId, Securable,
         Recoverable;
    FullSnapshotIdIsSegment(f.incidentId);
    HoldableFiles(w.ws);
    KillAndRestoreExact(w, f, f.FullSnapshot(), walks, w.ws.files);
  }

  /* ---- what a completed flow reports ---- */

  /** A report that is made is stored twice, as the report and as the record, and says what happened. */
  lemma ReportStores(w: World, f: Failure, s: Secured, steps: seq<RecoveryStep>, branch: Option<Path>,
                     target: Option<Segment>, restored: Option<Path>)
    requires w.host.WellFormed() && Report(w, f, s, steps, branch, target, restored).1.Ok?
    ensures IsSegment(f.incidentId)
    ensures var (w', r) := Report(w, f, s, steps, branch, target, restored);
            && r.value == IncidentDocument(f.incidentId, f.cycle, steps, s.cycleSnapshot.manifestPath,
                                           s.fullSnapshot.manifestPath, branch, target, restored)
            && StoredIncident(w'.host, r.value)
            && OnlyGrows(w.host, w'.host)
  {
    hide WriteFile, OnlyGrows, Effect, Free;
    var d := Document(f, s, steps, branch, target, restored);
    var report, record := IncidentReport(f.Run(), f.incidentId), Incident(f.Run(), f.incidentId);
    DocumentStored(w.host, report, ReportDoc(d));
    var (h1, e1) := WriteFile(w.host, report.Root(), [ReportDoc(d)], false);
    DocumentStored(h1, record, IncidentDoc(d));
    var (h2, e2) := WriteFile(h1, record.Root(), [IncidentDoc(d)], false);
    assert e1.None? && e2.None?;
    EffectGrows(w.host, h1, {report});
    EffectGrows(h1, h2, {record});
    OnlyGrowsTransitive(w.host, h1, h2);
    FrozenByGrowth(h1, h2, report, report.Root());
  }

  /** Report and record of an incident are stored with this document. */
  predicate StoredIncident(host: HostTree, d: IncidentDocument) {
    var report, record := IncidentReport(d.cycle.run, d.incidentId).Root(), Incident(d.cycle.run, d.incidentId).Root();
    && report in host.files && host.files[report] == [ReportDoc(d)]
    && record in host.files && host.files[record] == [IncidentDoc(d)]
  }

  lemma RestoreAndReportStores(w: World, f: Failure, s: Secured, receipt: R.LifecycleReceipt, steps: seq<RecoveryStep>,
                               target: Option<Segment>, manifest: Path)
    requires w.host.WellFormed() && RestoreAndReport(w, f, s, receipt, steps, target, manifest).1.Ok?
    ensures IsSegment(f.incidentId)
    ensures var (w', r) := RestoreAndReport(w, f, s, receipt, steps, target, manifest);
            && ReconstructRestore(w.host, manifest).Ok?
            && r.value == RecoveryOutcome(s, Document(f, s, steps, None, target, Some(manifest)), Some(receipt),
                                          Some(ReconstructRestore(w.host, manifest).value))
            && StoredIncident(w'.host, r.value.incident)
  {
    hide Restore, Report, OnlyGrows, StoredIncident;
    RestorePlanned(w.ws, manifest, w.host);
    ReportStores(w.(ws := Restore(w.ws, manifest, w.host).0), f, s, steps, None, target, Some(manifest));
  }

  lemma RestorePlanned(ws: WorkspaceTree, manifest: Path, host: HostTree)
    ensures Restore(ws, manifest, host).1.Ok? ==> Restore(ws, manifest, host).1 == ReconstructRestore(host, manifest)
  {
    hide RestoreEntries, RemoveStrays, Prune;
  }

  /** The steps a flow reports. */
  function StepsOf(flow: Flow): seq<RecoveryStep> {
    [StepPause, StepSnapshot,
     match flow case RollbackTo(_) => StepRollback case RestoreFrom(_) => StepRestore case BranchInto(_) => StepBranch,
     StepReport]
  }

  /** What a completed flow was told to go back to, if anything. */
  function ManifestOf(f: Failure, flow: Flow): Option<Path> {
    match flow
    case RollbackTo(last) => if IsSegment(last) then Some(CycleManifest(f.Run(), last).Root()) else None
    case RestoreFrom(manifest) => Some(manifest)
    case BranchInto(_) => None
  }

  /** What the runtime reports once it has been told where the session stands: live, locked, and at the accepted cycle
      or the new snapshot. A branch tells it nothing. */
  function RuntimeReceipt(s: R.Session, f: Failure, flow: Flow): Option<R.LifecycleReceipt>
    requires FullSnapshotId(f.incidentId) != ""
  {
    match flow
    case RollbackTo(last) =>
      Some(R.LifecycleReceipt(R.ByCommand(Rollback), s.registration.run, R.Live, "observation-only", None, None,
                              Some(last), None))
    case RestoreFrom(_) =>
      Some(R.LifecycleReceipt(R.RestoreAction, s.registration.run, R.Live, "observation-only", None, None, None,
                              Some(FullSnapshotId(f.incidentId))))
    case BranchInto(_) => None
  }

  /** The document and the receipts of a completed flow, given what was captured first. */
  ghost predicate ReportsAsDone(w: World, f: Failure, flow: Flow, s: Secured, w1: World, w': World,
                                out: RecoveryOutcome)
    requires f.Run() in w.control.sessions && IsSegment(f.incidentId) && FullSnapshotId(f.incidentId) != ""
  {
    var manifest := ManifestOf(f, flow);
    && out.secured == s
    && out.incident
       == IncidentDocument(f.incidentId, f.cycle, StepsOf(flow), s.cycleSnapshot.manifestPath,
                           s.fullSnapshot.manifestPath,
                           if flow.BranchInto? then BranchFile(f.Run(), flow.name) else None,
                           if flow.RollbackTo? && IsSegment(flow.lastAccepted) then Some(flow.lastAccepted) else None,
                           manifest)
    && StoredIncident(w'.host, out.incident)
    && out.runtimeReceipt == RuntimeReceipt(w.control.sessions[f.Run()], f, flow)
    && (manifest.Some? <==> out.restorePlan.Some?)
    && (manifest.Some? ==> Ok(out.restorePlan.value) == ReconstructRestore(w1.host, manifest.value))
  }

  /** A completed flow returns, and stores under the incident, just what it did: the receipts of the pause and of the
      runtime, the captures of both failing snapshots, the manifest it went back to with the plan read from it, the file
      of the branch; and the branch evidence names the branch, the failing cycle and both snapshots. */
  lemma FlowOutcomeExact(w: World, f: Failure, flow: Flow, walks: Walks)
    requires w.host.WellFormed() && w.ws.WellFormed() && walks.List(w.ws.files) && Recover(w, f, flow, walks).1.Ok?
    ensures f.Run() in w.control.sessions && IsSegment(f.incidentId) && IsSegment(FullSnapshotId(f.incidentId))
    ensures var (w', r) := Recover(w, f, flow, walks);
            var s := Secured(PauseReceipt(w.control.sessions[f.Run()]), CaptureOf(f.CycleSnapshot(), w.ws.files),
                             CaptureOf(f.FullSnapshot(), w.ws.files));
            && ReportsAsDone(w, f, flow, s, Secure(w, f, walks).0, w', r.value)
            && (flow.BranchInto? ==>
                  var branch := BranchFile(f.Run(), flow.name);
                  && branch.Some? && branch.value in w'.host.files
                  && w'.host.files[branch.value]
                     == [BranchDoc(flow.name, f.cycle,
                                   BranchRefs(s.fullSnapshot.manifestPath, s.cycleSnapshot.manifestPath))])
  {
    hide Secure, Recover, Securable, BothRecoverable, Effect, IsListing, Uncaptured, Recoverable, StoredIncident,
         ReconstructRestore, FullSnapshotId, BranchFile, ReportsAsDone, PauseReceipt;
    SecureExact(w, f, walks);
    if Secure(w, f, walks).1.Err? { UnsecuredEnds(w, f, flow, walks); }
    SecuredSession(w, f, walks);
    if flow.BranchInto? {
      BranchOutcome(w, f, flow.name, walks);
    } else {
      RestoringOutcome(w, f, flow, walks);
    }
  }

  lemma RestoringOutcome(w: World, f: Failure, flow: Flow, walks: Walks)
    requires walks.Within(w.ws.files) && !flow.BranchInto? && Recover(w, f, flow, walks).1.Ok?
    requires var (w1, s) := Secure(w, f, walks);
             && s.Ok? && w1.host.WellFormed() && f.Run() in w.control.sessions && f.Run() in w1.control.sessions
             && w1.control.sessions[f.Run()] == R.After(w.control.sessions[f.Run()], R.ToPaused)
             && IsSegment(FullSnapshotId(f.incidentId))
             && s.value.fullSnapshot.snapshotId == FullSnapshotId(f.incidentId)
    ensures IsSegment(f.incidentId)
    ensures var (w', r) := Recover(w, f, flow, walks);
            ReportsAsDone(w, f, flow, Secure(w, f, walks).1.value, Secure(w, f, walks).0, w', r.value)
  {
    hide Secure, Report, RestoreAndReport, StoredIncident, ReconstructRestore, FullSnapshotId, BranchFile;
    var (w1, secured) := Secure(w, f, walks);
    var s := secured.value;
    match flow {
      case RollbackTo(last) =>
        var (w2, receipt) := Facade(w1, f.Run(), R.ToCycle(last));
        RestoreAndReportStores(w2, f, s, receipt.value, StepsOf(flow), Some(last),
                               CycleManifest(f.Run(), last).Root());
      case RestoreFrom(manifest) =>
        var (w2, receipt) := Facade(w1, f.Run(), R.ToSnapshot(s.fullSnapshot.snapshotId));
        RestoreAndReportStores(w2, f, s, receipt.value, StepsOf(flow), None, manifest);
    }
  }

  lemma BranchOutcome(w: World, f: Failure, name: string, walks: Walks)
    requires walks.Within(w.ws.files) && Recover(w, f, BranchInto(name), walks).1.Ok?
    requires Secure(w, f, walks).1.Ok? && Secure(w, f, walks).0.host.WellFormed() && f.Run() in w.control.sessions
    requires FullSnapshotId(f.incidentId) != ""
    ensures IsSegment(f.incidentId)
    ensures var (w', r) := Recover(w, f, BranchInto(name), walks);
            var (w1, s) := Secure(w, f, walks);
            && ReportsAsDone(w, f, BranchInto(name), s.value, w1, w', r.value)
            && BranchFile(f.Run(), name).Some? && BranchFile(f.Run(), name).value in w'.host.files
            && w'.host.files[BranchFile(f.Run(), name).value]
               == [BranchDoc(name, f.cycle,
                             BranchRefs(s.value.fullSnapshot.manifestPath, s.value.cycleSnapshot.manifestPath))]
  {
    hide Secure, Report, WriteBranch, StoredIncident, ReconstructRestore, FullSnapshotId, BranchFile;
    var (w1, secured) := Secure(w, f, walks);
    BranchStores(w1, f, name, secured.value);
    var (host, e) := WriteBranch(w1.host, f.Run(), name, BranchDoc(name, f.cycle, secured.value.Refs()));
    assert e.None?;
    var reported := Report(w1.(host := host), f, secured.value, [StepPause, StepSnapshot, StepBranch, StepReport],
                           BranchFile(f.Run(), name), None, None);
    assert reported.1.Ok?;
  }

  lemma SecuredSession(w: World, f: Failure, walks: Walks)
    requires walks.Within(w.ws.files) && Secure(w, f, walks).1.Ok?
    ensures f.Run() in w.control.sessions && f.Run() in Secure(w, f, walks).0.control.sessions
    ensures Secure(w, f, walks).0.control.sessions[f.Run()] == R.After(w.control.sessions[f.Run()], R.ToPaused)
  {
    hide CaptureFailure;
  }

  lemma BranchStores(w: World, f: Failure, name: string, s: Secured)
    requires w.host.WellFormed()
    ensures var doc := BranchDoc(name, f.cycle, BranchRefs(s.fullSnapshot.manifestPath, s.cycleSnapshot.manifestPath));
            var (host, e) := WriteBranch(w.host, f.Run(), name, doc);
            var (w', r) := Report(w.(host := host), f, s, StepsOf(BranchInto(name)), BranchFile(f.Run(), name), None,
                                  None);
            e.None? && r.Ok? ==>
              && IsSegment(f.incidentId)
              && r.value == IncidentDocument(f.incidentId, f.cycle, StepsOf(BranchInto(name)),
                                             s.cycleSnapshot.manifestPath, s.fullSnapshot.manifestPath,
                                             BranchFile(f.Run(), name), None, None)
              && StoredIncident(w'.host, r.value)
              && BranchFile(f.Run(), name).Some? && BranchFile(f.Run(), name).value in w'.host.files
              && w'.host.files[BranchFile(f.Run(), name).value] == [doc]
  {
    hide WriteBranch, Report, BranchFile, BranchFree, StoredIncident, Visited, BranchDirs;
    var doc := BranchDoc(name, f.cycle, BranchRefs(s.fullSnapshot.manifestPath, s.cycleSnapshot.manifestPath));
    var (host, e) := WriteBranch(w.host, f.Run(), name, doc);
    WriteBranchExact(w.host, f.Run(), name, doc);
    var steps := StepsOf(BranchInto(name));
    if e.None? && Report(w.(host := host), f, s, steps, BranchFile(f.Run(), name), None, None).1.Ok? {
      EvidencePlaced(w.host, f.Run(), name, doc);
      ReportStores(w.(host := host), f, s, steps, BranchFile(f.Run(), name), None, None);
      EvidenceFrozen(host, Report(w.(host := host), f, s, steps, BranchFile(f.Run(), name), None, None).0.host, f.Run(),
                     name);
    }
  }

  lemma EvidencePlaced(t: HostTree, run: RunScope, name: string, doc: Record)
    requires t.WellFormed() && WriteBranch(t, run, name, doc).1.None?
    ensures BranchFile(run, name).Some? && BranchFile(run, name).value in WriteBranch(t, run, name, doc).0.files
    ensures WriteBranch(t, run, name, doc).0.files[BranchFile(run, name).value] == [doc]
  {
    hide WriteBranch, BranchFile, Visited, BranchDirs;
    WriteBranchExact(t, run, name, doc);
  }

  /** Branch evidence never changes. */
  lemma EvidenceFrozen(t: HostTree, t': HostTree, run: RunScope, name: string)
    requires OnlyGrows(t, t') && BranchFile(run, name).Some? && BranchFile(run, name).value in t.files
    ensures var p := BranchFile(run, name).value; p in t'.files && t'.files[p] == t.files[p]
  {
    hide BranchFile;
    forall a: Artifact | a.IsJsonl() ensures a.Root() != BranchFile(run, name).value {
      BranchFileIsNotJsonl(run, name, a);
    }
  }

  /* ---- what a flow raises ---- */

  /** Why a flow ends in an error: its run is unknown; the incident names no snapshot, once the failing cycle is
      captured; the accepted cycle is none; the restore fails, with its error; or the branch has no place. */
  lemma FlowRaises(w: World, f: Failure, flow: Flow, walks: Walks)
    requires w.host.WellFormed() && w.ws.WellFormed() && walks.List(w.ws.files)
    ensures var (r, (w1, s), manifest) := (Recover(w, f, flow, walks).1, Secure(w, f, walks), ManifestOf(f, flow));
            && (f.Run() !in w.control.sessions ==> r == Err(UnknownSession))
            && (f.Run() in w.control.sessions && Uncaptured(w.host, f.CycleSnapshot(), w.ws.files)
                  && !IsSegment(FullSnapshotId(f.incidentId)) ==>
                  r == Err(InvalidValue))
            && (s.Ok? && flow.RollbackTo? && !IsSegment(flow.lastAccepted) ==> r == Err(InvalidValue))
            && (s.Ok? && manifest.Some? && Restore(w.ws, manifest.value, w1.host).1.Err? ==>
                  r == Err(Restore(w.ws, manifest.value, w1.host).1.error))
            && (s.Ok? && flow.BranchInto? && BranchFile(f.Run(), flow.name).None? ==> r == Err(InvalidValue))
  {
    hide Secure, Report, Restore, WriteBranch, Uncaptured, IsListing, FullSnapshotId, BranchFile, BranchFree, Visited,
         BranchDirs, Captures;
    SecureRaises(w, f, walks);
    SecureKeepsWorkspace(w, f, walks);
    var w1 := Secure(w, f, walks).0;
    if Secure(w, f, walks).1.Ok? {
      SecuredSession(w, f, walks);
      SecuredIsTree(w, f, walks);
      if flow.BranchInto? {
        var doc := BranchDoc(flow.name, f.cycle, Secure(w, f, walks).1.value.Refs());
        WriteBranchExact(w1.host, f.Run(), flow.name, doc);
      }
    }
  }

  lemma SecuredIsTree(w: World, f: Failure, walks: Walks)
    requires w.host.WellFormed() && w.ws.WellFormed() && walks.List(w.ws.files)
    ensures Secure(w, f, walks).0.host.WellFormed()
  {
    hide Secure, Effect, Securable, BothRecoverable, IsListing, Uncaptured, Recoverable, Captures;
    SecureExact(w, f, walks);
  }

  lemma SecureRaises(w: World, f: Failure, walks: Walks)
    requires w.host.WellFormed() && w.ws.WellFormed() && walks.List(w.ws.files)
    ensures var r := Secure(w, f, walks).1;
            && (f.Run() !in w.control.sessions ==> r == Err(UnknownSession))
            && (f.Run() in w.control.sessions && Uncaptured(w.host, f.CycleSnapshot(), w.ws.files)
                  && !IsSegment(FullSnapshotId(f.incidentId)) ==>
                  r == Err(InvalidValue))
  {
    hide Capture, Uncaptured, IsListing, FullSnapshotId, Effect, Recoverable, Holdable;
    HoldableFiles(w.ws);
    CaptureExact(w.host, f.CycleSnapshot(), walks.first, w.ws.files);
  }

  /* ---- the failing snapshots ---- */

  /** Both failing snapshots are stored under their own names: the one as the cycle's, the other as a full snapshot of
      its run, after the incident, taken for a stop condition. */
  predicate NamedForFailure(host: HostTree, f: Failure)
    requires IsSegment(FullSnapshotId(f.incidentId))
  {
    var id := FullSnapshotId(f.incidentId);
    var cycle := ReconstructRestore(host, CycleManifest(f.cycle.run, f.cycle.cycleId).Root());
    var full := ReconstructRestore(host, FullManifest(f.cycle.run, id).Root());
    && cycle.Ok? && full.Ok?
    && cycle.value.(entries := [])
       == SnapshotManifest(f.cycle.cycleId, CycleSnapshot, f.cycle.run, Some(f.cycle.cycleId), "per-cycle", [])
    && full.value.(entries := []) == SnapshotManifest(id, FullSnapshot, f.cycle.run, None, "stop condition", [])
  }

  /** However a flow ends, once it has captured, and ever after. */
  lemma FailingSnapshotsAreNamed(h: Hasher, w: World, f: Failure, flow: Flow, walks: Walks, later: seq<HostStep>)
    requires w.host.WellFormed() && w.ws.WellFormed() && walks.List(w.ws.files) && Secure(w, f, walks).1.Ok?
    ensures IsSegment(FullSnapshotId(f.incidentId))
    ensures NamedForFailure(ApplySteps(h, Recover(w, f, flow, walks).0.host, later), f)
  {
    hide Secure, Recover, Securable, BothRecoverable, Effect, IsListing, Uncaptured, Recoverable, FullSnapshotId,
         NamedForFailure, OnlyGrows, ApplySteps, ByFlow, CaptureFailure, Holdable;
    HoldableFiles(w.ws);
    SecureExact(w, f, walks);
    SecureStages(w, f, walks);
    var t1, t2 := Secure(w, f, walks).0.host, Recover(w, f, flow, walks).0.host;
    CapturedUnderNames(w.host, f, walks, w.ws.files);
    RestIsStorage(h, w, f, flow, walks);
    FlowGrows(h, t1, t2, f, flow, walks, w.ws.files);
    EveryRunOnlyGrows(h, t2, later);
    OnlyGrowsTransitive(t1, t2, ApplySteps(h, t2, later));
    NamesStay(t1, ApplySteps(h, t2, later), f);
  }

  lemma NamesStay(t: HostTree, t': HostTree, f: Failure)
    requires OnlyGrows(t, t') && IsSegment(FullSnapshotId(f.incidentId)) && NamedForFailure(t, f)
    ensures NamedForFailure(t', f)
  {
    hide OnlyGrows, FullSnapshotId;
    var cycle := CycleManifest(f.cycle.run, f.cycle.cycleId);
    var full := FullManifest(f.cycle.run, FullSnapshotId(f.incidentId));
    FrozenByGrowth(t, t', cycle, cycle.Root());
    FrozenByGrowth(t, t', full, full.Root());
  }

  lemma CapturedUnderNames(host: HostTree, f: Failure, walks: Walks, files: map<Path, Bytes>)
    requires host.WellFormed() && Holdable(files) && walks.List(files) && CaptureFailure(host, f, walks, files).1.Ok?
    ensures IsSegment(FullSnapshotId(f.incidentId))
    ensures NamedForFailure(CaptureFailure(host, f, walks, files).0, f)
  {
    hide Capture, Effect, OnlyGrows, Uncaptured, Holdable, Recoverable, IsListing, FullSnapshotId, NamedAs, Captures;
    var first, second := f.CycleSnapshot(), f.FullSnapshot();
    CapturedUnderName(host, first, walks.first, files);
    var h1 := Capture(host, first, walks.first, files).0;
    CapturedUnderName(h1, second, walks.second, files);
    NameStays(h1, Capture(h1, second, walks.second, files).0, first);
    BothNamed(Capture(h1, second, walks.second, files).0, f);
  }

  predicate NamedAs(host: HostTree, target: SnapshotTarget) {
    var r := ReconstructRestore(host, target.Manifest().Root());
    r.Ok? && r.value.(entries := []) == target.Document([])
  }

  lemma NameStays(t: HostTree, t': HostTree, target: SnapshotTarget)
    requires OnlyGrows(t, t') && NamedAs(t, target)
    ensures NamedAs(t', target)
  {
    hide OnlyGrows;
    FrozenByGrowth(t, t', target.Manifest(), target.Manifest().Root());
  }

  lemma BothNamed(host: HostTree, f: Failure)
    requires IsSegment(FullSnapshotId(f.incidentId))
    requires NamedAs(host, f.CycleSnapshot()) && NamedAs(host, f.FullSnapshot())
    ensures NamedForFailure(host, f)
  {
    hide FullSnapshotId, ReconstructRestore;
  }

  lemma CapturedUnderName(t: HostTree, target: SnapshotTarget, names: seq<Path>, files: map<Path, Bytes>)
    requires t.WellFormed() && Holdable(files) && IsListing(names, files.Keys, ByPosix)
    requires Capture(t, target, names, files).1.Ok?
    ensures var t' := Capture(t, target, names, files).0; t'.WellFormed() && OnlyGrows(t, t') && NamedAs(t', target)
  {
    hide Capture, Effect, OnlyGrows, Uncaptured, Holdable, Recoverable, Represents, IsListing;
    CaptureWithin(t, target, names, files, {target.Files(), target.Manifest()});
    CaptureReturns(t, target, names, files);
  }

  /* ---- the incident record ---- */

  /** The bundle is written report first: a report whose place is taken ends it with nothing changed, and a record whose
      place is taken leaves the report. */
  lemma WriteIncidentStops(host: HostTree, d: IncidentDocument)
    requires host.WellFormed()
    ensures var (host', e) := WriteIncident(host, d);
            var report := IncidentReport(d.cycle.run, d.incidentId).Root();
            var record := Incident(d.cycle.run, d.incidentId).Root();
            && (if Free(host, report) then report in host'.files && host'.files[report] == [ReportDoc(d)]
                else host'.files == host.files)
            && (if e.None? then record in host'.files && host'.files[record] == [IncidentDoc(d)]
                else SameAt(host, host', record))
  {
    hide WriteFile, OnlyGrows, Free;
    var report, record := IncidentReport(d.cycle.run, d.incidentId), Incident(d.cycle.run, d.incidentId);
    DocumentStored(host, report, ReportDoc(d));
    WriteIsAppendOnly(host, report.Root(), [ReportDoc(d)], false);
    var (h1, e1) := WriteFile(host, report.Root(), [ReportDoc(d)], false);
    if report.Root() == record.Root() { RootsIncomparable(report, record); }
    if e1.None? {
      DocumentStored(h1, record, IncidentDoc(d));
      WriteIsAppendOnly(h1, record.Root(), [IncidentDoc(d)], false);
      var h2 := WriteFile(h1, record.Root(), [IncidentDoc(d)], false).0;
      assert ContentAt(h2, report.Root()) == ContentAt(h1, report.Root());
    }
  }

  /** The path is as it was: absent, or there with the same content. */
  predicate SameAt(t: HostTree, t': HostTree, p: Path) {
    (p in t'.files <==> p in t.files) && (p in t.files ==> p in t'.files && t'.files[p] == t.files[p])
  }

  /** The record is new and holds the document, or nothing was recorded. */
  predicate RecordedIff(t: HostTree, t': HostTree, record: Path, d: Option<IncidentDocument>) {
    match d
    case Some(incident) => record !in t.files && record in t'.files && t'.files[record] == [IncidentDoc(incident)]
    case None => SameAt(t, t', record)
  }

  function Reported(r: Result<RecoveryOutcome, Error>): Option<IncidentDocument> {
    if r.Ok? then Some(r.value.incident) else None
  }

  function Documented(r: Result<IncidentDocument, Error>): Option<IncidentDocument> {
    if r.Ok? then Some(r.value) else None
  }

  lemma RecordedLater(t: HostTree, t1: HostTree, t2: HostTree, record: Path, d: Option<IncidentDocument>)
    requires SameAt(t, t1, record) && RecordedIff(t1, t2, record, d)
    ensures RecordedIff(t, t2, record, d)
  {
  }

  /** An incident is recorded by a flow exactly if it completes: one that ends in an error leaves the record as it was,
      whatever it had done by then. */
  lemma RecordedIffCompleted(w: World, f: Failure, flow: Flow, walks: Walks)
    requires w.host.WellFormed() && w.ws.WellFormed() && walks.List(w.ws.files) && IsSegment(f.incidentId)
    requires flow.BranchInto? ==> BranchFile(f.Run(), flow.name) != Some(Incident(f.Run(), f.incidentId).Root())
    ensures var (w', r) := Recover(w, f, flow, walks);
            RecordedIff(w.host, w'.host, Incident(f.Run(), f.incidentId).Root(), Reported(r))
  {
    hide Secure, Recover, Securable, BothRecoverable, Effect, IsListing, Uncaptured, Recoverable, Captures, SameAt,
         RecordedIff, Next;
    SecureExact(w, f, walks);
    SecureLeavesRecord(w, f, walks);
    var record, w1 := Incident(f.Run(), f.incidentId).Root(), Secure(w, f, walks).0;
    if Secure(w, f, walks).1.Err? {
      UnsecuredEnds(w, f, flow, walks);
      UnsecuredUnrecorded(w, f, flow, walks);
    } else {
      SecuredSession(w, f, walks);
      if flow.BranchInto? {
        BranchRecords(w, f, flow.name, walks);
      } else {
        RestoringRecords(w, f, flow, walks);
      }
      RecordedLater(w.host, w1.host, Recover(w, f, flow, walks).0.host, record, Reported(Recover(w, f, flow, walks).1));
    }
  }

  lemma SecureLeavesRecord(w: World, f: Failure, walks: Walks)
    requires w.host.WellFormed() && w.ws.WellFormed() && walks.List(w.ws.files) && IsSegment(f.incidentId)
    ensures SameAt(w.host, Secure(w, f, walks).0.host, Incident(f.Run(), f.incidentId).Root())
  {
    hide Secure, Securable, BothRecoverable, Effect, IsListing, Uncaptured, Recoverable, Captures;
    var record := Incident(f.Run(), f.incidentId);
    SecureExact(w, f, walks);
    BranchApart(f);
    EffectFrame(w.host, Secure(w, f, walks).0.host, Captures(f), record, record.Root());
  }

  lemma UnsecuredUnrecorded(w: World, f: Failure, flow: Flow, walks: Walks)
    requires walks.Within(w.ws.files) && IsSegment(f.incidentId) && Recover(w, f, flow, walks).1.Err?
    requires Recover(w, f, flow, walks).0 == Secure(w, f, walks).0
    requires SameAt(w.host, Secure(w, f, walks).0.host, Incident(f.Run(), f.incidentId).Root())
    ensures var (w', r) := Recover(w, f, flow, walks);
            RecordedIff(w.host, w'.host, Incident(f.Run(), f.incidentId).Root(), Reported(r))
  {
    hide Secure, Recover, SameAt;
  }

  lemma RestoringRecords(w: World, f: Failure, flow: Flow, walks: Walks)
    requires walks.Within(w.ws.files) && !flow.BranchInto? && IsSegment(f.incidentId)
    requires Secure(w, f, walks).1.Ok? && Secure(w, f, walks).0.host.WellFormed()
    ensures var (w', r) := Recover(w, f, flow, walks);
            RecordedIff(Secure(w, f, walks).0.host, w'.host, Incident(f.Run(), f.incidentId).Root(), Reported(r))
  {
    hide Secure, RestoreAndReport, FullSnapshotId, RecordedIff;
    var (w1, s) := Secure(w, f, walks);
    NothingRecorded(w1.host, Incident(f.Run(), f.incidentId).Root());
    match flow {
      case RollbackTo(last) =>
        var (w2, receipt) := Facade(w1, f.Run(), R.ToCycle(last));
        if IsSegment(last) && receipt.Ok? {
          RestoreRecords(w2, f, s.value, receipt.value, StepsOf(flow), Some(last), CycleManifest(f.Run(), last).Root());
        }
      case RestoreFrom(manifest) =>
        var (w2, receipt) := Facade(w1, f.Run(), R.ToSnapshot(s.value.fullSnapshot.snapshotId));
        if receipt.Ok? {
          RestoreRecords(w2, f, s.value, receipt.value, StepsOf(flow), None, manifest);
        }
    }
  }

  lemma RestoreRecords(w: World, f: Failure, s: Secured, receipt: R.LifecycleReceipt, steps: seq<RecoveryStep>,
                       target: Option<Segment>, manifest: Path)
    requires w.host.WellFormed() && IsSegment(f.incidentId)
    ensures var (w', r) := RestoreAndReport(w, f, s, receipt, steps, target, manifest);
            RecordedIff(w.host, w'.host, Incident(f.Run(), f.incidentId).Root(), Reported(r))
  {
    hide Restore, Report, RecordedIff;
    NothingRecorded(w.host, Incident(f.Run(), f.incidentId).Root());
    var (ws, plan) := Restore(w.ws, manifest, w.host);
    ReportRecords(w.(ws := ws), f, s, steps, None, target, Some(manifest));
    var (w1, reported) := Report(w.(ws := ws), f, s, steps, None, target, Some(manifest));
    assert plan.Ok? ==> Reported(RestoreAndReport(w, f, s, receipt, steps, target, manifest).1) == Documented(reported);
  }

  lemma NothingRecorded(t: HostTree, record: Path)
    ensures RecordedIff(t, t, record, None)
  {
  }

  lemma BranchRecords(w: World, f: Failure, name: string, walks: Walks)
    requires walks.Within(w.ws.files) && IsSegment(f.incidentId)
    requires Secure(w, f, walks).1.Ok? && Secure(w, f, walks).0.host.WellFormed()
    requires BranchFile(f.Run(), name) != Some(Incident(f.Run(), f.incidentId).Root())
    ensures var (w', r) := Recover(w, f, BranchInto(name), walks);
            RecordedIff(Secure(w, f, walks).0.host, w'.host, Incident(f.Run(), f.incidentId).Root(), Reported(r))
  {
    hide Secure, Report, WriteBranch, BranchFile, RecordedIff, SameAt, BranchFree, Visited, BranchDirs;
    var (w1, s) := Secure(w, f, walks);
    var record, doc := Incident(f.Run(), f.incidentId).Root(), BranchDoc(name, f.cycle, s.value.Refs());
    var (host, e) := WriteBranch(w1.host, f.Run(), name, doc);
    WriteBranchExact(w1.host, f.Run(), name, doc);
    BranchLeavesRecord(w1.host, f, name, doc);
    if e.Some? {
      Unrecorded(w1.host, host, record);
    } else {
      ReportRecords(w1.(host := host), f, s.value, StepsOf(BranchInto(name)), BranchFile(f.Run(), name), None, None);
      var (w2, r) := Report(w1.(host := host), f, s.value, StepsOf(BranchInto(name)), BranchFile(f.Run(), name), None,
                            None);
      RecordedLater(w1.host, host, w2.host, record, Documented(r));
    }
  }

  lemma Unrecorded(t: HostTree, t': HostTree, record: Path)
    requires SameAt(t, t', record)
    ensures RecordedIff(t, t', record, None)
  {
  }

  lemma BranchLeavesRecord(t: HostTree, f: Failure, name: string, doc: Record)
    requires t.WellFormed() && IsSegment(f.incidentId)
    requires BranchFile(f.Run(), name) != Some(Incident(f.Run(), f.incidentId).Root())
    ensures SameAt(t, WriteBranch(t, f.Run(), name, doc).0, Incident(f.Run(), f.incidentId).Root())
  {
    hide WriteBranch, BranchFile, Visited, BranchDirs;
    WriteBranchExact(t, f.Run(), name, doc);
  }

  lemma ReportRecords(w: World, f: Failure, s: Secured, steps: seq<RecoveryStep>, branch: Option<Path>,
                      target: Option<Segment>, restored: Option<Path>)
    requires w.host.WellFormed() && IsSegment(f.incidentId)
    ensures var (w', r) := Report(w, f, s, steps, branch, target, restored);
            RecordedIff(w.host, w'.host, Incident(f.Run(), f.incidentId).Root(), Documented(r))
  {
    hide WriteIncident, ContentAt, OnlyGrows, Effect, Written, SameAt;
    var d := Document(f, s, steps, branch, target, restored);
    WriteIncidentStops(w.host, d);
    WriteIncidentExact(w.host, f, d);
    var (host, e) := WriteIncident(w.host, d);
    assert Report(w, f, s, steps, branch, target, restored)
        == (w.(host := host), if e.Some? then Err(e.value) else Ok(d));
    if e.None? {
      assert Free(w.host, Incident(f.Run(), f.incidentId).Root());
    }
  }

  /* ---- two incidents for one snapshot ---- */

  /** Once the full snapshot of an incident is stored, no flow of a colliding incident of the run can complete: it
      pauses the run, stores the failing cycle if that is new, and ends there, with the workspace, the record and the
      report untouched. */
  lemma TakenSnapshotStopsFlow(w: World, g: Failure, flow: Flow, walks: Walks)
    requires w.host.WellFormed() && w.ws.WellFormed() && walks.List(w.ws.files) && IsSegment(g.incidentId)
    requires IsSegment(FullSnapshotId(g.incidentId)) && g.FullSnapshot().Manifest().Root() in w.host.files
    ensures var (w', r) := Recover(w, g, flow, walks);
            && r.Err? && w'.ws == w.ws
            && (g.Run() in w.control.sessions && Uncaptured(w.host, g.CycleSnapshot(), w.ws.files) ==>
                  Recoverable(w'.host, g.CycleSnapshot(), w.ws.files))
            && (forall a :: a in {Incident(g.Run(), g.incidentId), IncidentReport(g.Run(), g.incidentId)} ==>
                  (a.Root() in w'.host.files <==> a.Root() in w.host.files))
  {
    hide Secure, Recover, Effect, IsListing, Recoverable, BothRecoverable, Captures;
    SecureExact(w, g, walks);
    assert !Securable(w.host, g, w.ws.files);
    UnsecuredEnds(w, g, flow, walks);
    BranchApart(g);
    forall a | a in {Incident(g.Run(), g.incidentId), IncidentReport(g.Run(), g.incidentId)}
      ensures a.Root() in Secure(w, g, walks).0.host.files <==> a.Root() in w.host.files
    {
      EffectFrame(w.host, Secure(w, g, walks).0.host, Captures(g), a, a.Root());
    }
  }

  /* ---- the promises of the flows ---- */

  /** A completed restoring flow leaves its run locked. */
  lemma CompletedIsLocked(w: World, f: Failure, flow: Flow, walks: Walks)
    requires walks.Within(w.ws.files) && !flow.BranchInto? && Recover(w, f, flow, walks).1.Ok?
    ensures Locked(Recover(w, f, flow, walks).0.control, f.Run())
  {
    hide Secure, Report, Restore, Next;
    SecureKeepsWorkspace(w, f, walks);
    var (w1, s) := Secure(w, f, walks);
    var t := if flow.RollbackTo? then R.ToCycle(flow.lastAccepted)
             else R.ToSnapshot(s.value.fullSnapshot.snapshotId);
    assert f.Run() in w1.control.sessions by { PausedStays(w.control, f.Run()); }
    RolledBackSession(w1, f.Run(), t);
    EveryFlowIsContained(w, f, flow, walks);
    CallsEndWith(w, f, flow, walks, t);
  }

  lemma PausedStays(c: Control, run: RunScope)
    requires run in c.sessions
    ensures run in Next(c, Direct(run, R.ToPaused)).sessions
  {
  }

  lemma CallsEndWith(w: World, f: Failure, flow: Flow, walks: Walks, t: R.Transition)
    requires walks.Within(w.ws.files) && Secure(w, f, walks).1.Ok?
    requires Calls(w, f, flow, walks) == [Direct(f.Run(), R.ToPaused)] + [Direct(f.Run(), t)]
    ensures RunAll(w.control, Calls(w, f, flow, walks))
            == Next(Next(w.control, Direct(f.Run(), R.ToPaused)), Direct(f.Run(), t))
  {
    hide Secure, Next, Calls;
    var c, calls := w.control, Calls(w, f, flow, walks);
    var c1 := Next(c, calls[0]);
    assert calls[1..] == [Direct(f.Run(), t)] && calls[1..][1..] == [];
    assert RunAll(c, calls) == RunAll(c1, calls[1..]) == RunAll(Next(c1, calls[1]), []);
  }

  /** Manual rollback can be undone and locks the run: after any completed one the failing files come back exactly from
      either new snapshot, into any workspace without a clash and after any storage activity, and every sensitive
      command is denied, in any mode context, until the run's next mode switch. */
  lemma ManualRollbackIsReversibleAndLocked(h: Hasher, w: World, f: Failure, last: Text, walks: Walks,
                                            later: seq<HostStep>, steps: seq<Step>, ws: WorkspaceTree)
    requires w.host.WellFormed() && w.ws.WellFormed() && walks.List(w.ws.files)
    requires ManualRollback(w, f, last, walks).1.Ok?
    requires ws.WellFormed()
    requires forall i :: 0 <= i < |steps| ==> Sanctioned(steps[i]) && !SwitchesMode(steps[i], f.Run())
    ensures var w' := ManualRollback(w, f, last, walks).0;
            var host, c := ApplySteps(h, w'.host, later), RunAll(w'.control, steps);
            && IsSegment(FullSnapshotId(f.incidentId))
            && UndoneBy(ws, f.CycleSnapshot(), host, w.ws.files)
            && UndoneBy(ws, f.FullSnapshot(), host, w.ws.files)
            && (forall r: Request :: IsControl(r.command.action) && RunOf(r.command.scope) == Some(f.Run())
                  ==> Execute(c, r).1 == Ok(Denied(r.command.action)))
  {
    hide Recoverable, ApplySteps, ManualRollback, RunAll, IsListing, Execute, Locked, UndoneBy, OnlyGrows, HostSound,
         HostInv, LeavesOthers, Contained, Effect, Holdable;
    var flow := RollbackTo(last);
    var w' := Recover(w, f, flow, walks).0;
    EveryFlowIsCareful(h, w, f, flow, walks);
    HoldableFiles(w.ws);
    EveryRunOnlyGrows(h, w'.host, later);
    RecoverableRestores(w'.host, ApplySteps(h, w'.host, later), f.CycleSnapshot(), w.ws.files, ws);
    RecoverableRestores(w'.host, ApplySteps(h, w'.host, later), f.FullSnapshot(), w.ws.files, ws);
    CompletedIsLocked(w, f, flow, walks);
    LockedUntilModeSwitch(w'.control, steps, f.Run());
  }
}
