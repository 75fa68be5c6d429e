/** recovery/recovery.py: pause, capture the failing workspace, then roll back, restore or branch, and report. */
module Recovery {
  import opened Prelude
  import opened FileTree
  import opened StoragePaths
  import opened AuditChain
  import opened Records
  import opened HostFilesystem
  import opened StorageLayout
  import opened Workspaces
  import opened Snapshots
  import opened Branches
  import opened Commands
  import opened Ledger
  import opened Orchestrator
  import opened ControlRuns
  import R = Runtime

  /** Everything the recovery flows act on: the control plane, the host storage and the agent workspace. */
  datatype World = World(control: Control, host: HostTree, ws: WorkspaceTree)

  /** A failing cycle, and the incident id it is recorded under, as the caller typed it. */
  datatype Failure = Failure(cycle: CycleScope, incidentId: Text)
  {
    function Run(): RunScope {
      cycle.run
    }

    function CycleSnapshot(): SnapshotTarget {
      CycleTarget(cycle)
    }

    function FullSnapshot(): SnapshotTarget
      requires IsSegment(FullSnapshotId(incidentId))
    {
      FullTarget(Run(), FullSnapshotId(incidentId), "stop condition")
    }
  }

  datatype Secured = Secured(paused: R.LifecycleReceipt, cycleSnapshot: SnapshotCapture, fullSnapshot: SnapshotCapture)
  {
    function Refs(): BranchRefs {
      BranchRefs(fullSnapshot.manifestPath, cycleSnapshot.manifestPath)
    }
  }

  datatype RecoveryOutcome = RecoveryOutcome(secured: Secured, incident: IncidentDocument,
                                             runtimeReceipt: Option<R.LifecycleReceipt>,
                                             restorePlan: Option<SnapshotManifest>)

  /** The two directory walks a flow makes; both list the same files. */
  datatype Walks = Walks(first: seq<Path>, second: seq<Path>)
  {
    predicate Within(files: map<Path, Bytes>) {
      (forall n :: n in first ==> n in files) && (forall n :: n in second ==> n in files)
    }

    ghost predicate List(files: map<Path, Bytes>)
      ensures List(files) ==> Within(files)
    {
      IsListing(first, files.Keys, ByPosix) && IsListing(second, files.Keys, ByPosix)
    }
  }

  /* ---- the id of the full snapshot ---- */

  const INCIDENT_PREFIX := "incident-"
  const SNAPSHOT_PREFIX := "snapshot-"

  /** The incident id without one leading prefix, if it has one. */
  function WithoutPrefix(id: string): string {
    if INCIDENT_PREFIX <= id then id[|INCIDENT_PREFIX|..] else id
  }

  /** _full_snapshot_id */
  function FullSnapshotId(incidentId: string): string {
    var normalized := if INCIDENT_PREFIX <= incidentId then incidentId else INCIDENT_PREFIX + incidentId;
    SNAPSHOT_PREFIX + normalized[|INCIDENT_PREFIX|..]
  }

  lemma FullSnapshotIdParts(id: string)
    ensures FullSnapshotId(id) == SNAPSHOT_PREFIX + WithoutPrefix(id)
  {
    assert (INCIDENT_PREFIX + id)[|INCIDENT_PREFIX|..] == id;
  }

  /** What follows a hyphen in a readable id is a readable id. */
  lemma ReadableSuffix(s: string, k: nat)
    requires ReadableId(s) && 0 < k <= |s| && s[k - 1] == '-'
    ensures ReadableId(s[k..])
  {
    var r := s[k..];
    assert forall i :: 0 <= i < |r| ==> r[i] == s[k + i];
    assert k < |s|;
  }

  lemma SnapshotOfReadable(r: string)
    requires ReadableId(r)
    ensures IsSegment(SNAPSHOT_PREFIX + r)
  {
    var s := SNAPSHOT_PREFIX + r;
    assert forall i :: 9 <= i < |s| ==> s[i] == r[i - 9];
    assert forall i :: 0 <= i < 9 ==> IdChar(s[i]);
    assert s !in RESERVED_NAMES by { assert |s| > 9; }
  }

  /** Every valid incident id gives a valid snapshot id. */
  lemma FullSnapshotIdIsSegment(id: Segment)
    ensures IsSegment(FullSnapshotId(id))
  {
    hide ReadableId, FullSnapshotId;
    FullSnapshotIdParts(id);
    if INCIDENT_PREFIX <= id {
      assert id[8] == INCIDENT_PREFIX[8];
      ReadableSuffix(id, 9);
    }
    SnapshotOfReadable(WithoutPrefix(id));
  }

  /** The snapshot is called after the incident, with one prefix in place of the other, whether or not the caller
      spelled that out. */
  lemma FullSnapshotIdExact(id: string)
    ensures FullSnapshotId("incident-" + id) == "snapshot-" + id
    ensures !("incident-" <= id) ==> FullSnapshotId(id) == "snapshot-" + id
  {
    assert ("incident-" + id)[9..] == id;
  }

  /** Two incidents of one run compete for the same full snapshot exactly when one id is the other with
      the prefix spelled out. */
  lemma FullSnapshotIdCollision(a: string, b: string)
    ensures FullSnapshotId(a) == FullSnapshotId(b)
            <==> a == b
                 || (a == INCIDENT_PREFIX + b && !(INCIDENT_PREFIX <= b))
                 || (b == INCIDENT_PREFIX + a && !(INCIDENT_PREFIX <= a))
  {
    FullSnapshotIdParts(a);
    FullSnapshotIdParts(b);
    assert FullSnapshotId(a)[9..] == WithoutPrefix(a) && FullSnapshotId(b)[9..] == WithoutPrefix(b);
    assert INCIDENT_PREFIX <= a ==> a == INCIDENT_PREFIX + WithoutPrefix(a);
    assert INCIDENT_PREFIX <= b ==> b == INCIDENT_PREFIX + WithoutPrefix(b);
    assert INCIDENT_PREFIX <= INCIDENT_PREFIX + a && INCIDENT_PREFIX <= INCIDENT_PREFIX + b;
  }

  /* ---- the flows ---- */

  /** A direct call of the lifecycle facade. */
  function Facade(w: World, run: RunScope, t: R.Transition): (World, Result<R.LifecycleReceipt, Error>) {
    (w.(control := Next(w.control, Direct(run, t))), R.Apply(w.control.sessions, run, t).1)
  }

  /** _capture_failure_snapshots */
  function CaptureFailure(host: HostTree, f: Failure, walks: Walks, files: map<Path, Bytes>):
    (HostTree, Result<(SnapshotCapture, SnapshotCapture), Error>)
    requires walks.Within(files)
  {
    var (h1, first) := Capture(host, f.CycleSnapshot(), walks.first, files);
    if first.Err? then (h1, Err(first.error))
    else if !IsSegment(FullSnapshotId(f.incidentId)) then (h1, Err(InvalidValue))
    else
      var (h2, second) := Capture(h1, f.FullSnapshot(), walks.second, files);
      (h2, if second.Err? then Err(second.error) else Ok((first.value, second.value)))
  }

  /** What every flow does first: pause, then capture. */
  function Secure(w: World, f: Failure, walks: Walks): (World, Result<Secured, Error>)
    requires walks.Within(w.ws.files)
  {
    var (w1, paused) := Facade(w, f.Run(), R.ToPaused);
    if paused.Err? then (w1, Err(paused.error))
    else
      var (host, captured) := CaptureFailure(w1.host, f, walks, w1.ws.files);
      (w1.(host := host),
       if captured.Err? then Err(captured.error) else Ok(Secured(paused.value, captured.value.0, captured.value.1)))
  }

  function Document(f: Failure, s: Secured, steps: seq<RecoveryStep>, branch: Option<Path>, target: Option<Segment>,
                    restored: Option<Path>): IncidentDocument
    requires IsSegment(f.incidentId)
  {
    IncidentDocument(f.incidentId, f.cycle, steps, s.cycleSnapshot.manifestPath, s.fullSnapshot.manifestPath, branch,
                     target, restored)
  }

  /** The two writes of _write_incident_bundle: first the report, then the record that refers to it. */
  function WriteIncident(host: HostTree, d: IncidentDocument): (HostTree, Option<Error>) {
    var (h1, e) := WriteFile(host, IncidentReport(d.cycle.run, d.incidentId).Root(), [ReportDoc(d)], false);
    if e.Some? then (h1, e) else WriteFile(h1, Incident(d.cycle.run, d.incidentId).Root(), [IncidentDoc(d)], false)
  }

  function Report(w: World, f: Failure, s: Secured, steps: seq<RecoveryStep>, branch: Option<Path>,
                  target: Option<Segment>, restored: Option<Path>): (World, Result<IncidentDocument, Error>) {
    if !IsSegment(f.incidentId) then (w, Err(InvalidValue))
    else
      var d := Document(f, s, steps, branch, target, restored);
      var (host, e) := WriteIncident(w.host, d);
      (w.(host := host), if e.Some? then Err(e.value) else Ok(d))
  }

  /** The end of both restoring flows: rewrite the workspace, then report. */
  function RestoreAndReport(w: World, f: Failure, s: Secured, receipt: R.LifecycleReceipt, steps: seq<RecoveryStep>,
                            target: Option<Segment>, manifest: Path): (World, Result<RecoveryOutcome, Error>) {
    var (ws, plan) := Restore(w.ws, manifest, w.host);
    if plan.Err? then (w.(ws := ws), Err(plan.error))
    else
      var (w1, reported) := Report(w.(ws := ws), f, s, steps, None, target, Some(manifest));
      (w1, if reported.Err? then Err(reported.error)
       else Ok(RecoveryOutcome(s, reported.value, Some(receipt), Some(plan.value))))
  }

  /** manual_rollback: the last accepted cycle id is only validated once the runtime has been rolled back. */
  function ManualRollback(w: World, f: Failure, lastAccepted: Text, walks: Walks):
    (World, Result<RecoveryOutcome, Error>)
    requires walks.Within(w.ws.files)
  {
    var (w1, secured) := Secure(w, f, walks);
    if secured.Err? then (w1, Err(secured.error))
    else
      var (w2, rolledBack) := Facade(w1, f.Run(), R.ToCycle(lastAccepted));
      if rolledBack.Err? then (w2, Err(rolledBack.error))
      else if !IsSegment(lastAccepted) then (w2, Err(InvalidValue))
      else RestoreAndReport(w2, f, secured.value, rolledBack.value, [StepPause, StepSnapshot, StepRollback, StepReport],
                            Some(lastAccepted), CycleManifest(f.Run(), lastAccepted).Root())
  }

  /** kill_and_restore: the runtime is told the id of the snapshot just taken. */
  function KillAndRestore(w: World, f: Failure, manifest: Path, walks: Walks): (World, Result<RecoveryOutcome, Error>)
    requires walks.Within(w.ws.files)
  {
    var (w1, secured) := Secure(w, f, walks);
    if secured.Err? then (w1, Err(secured.error))
    else
      var (w2, restored) := Facade(w1, f.Run(), R.ToSnapshot(secured.value.fullSnapshot.snapshotId));
      if restored.Err? then (w2, Err(restored.error))
      else RestoreAndReport(w2, f, secured.value, restored.value, [StepPause, StepSnapshot, StepRestore, StepReport],
                            None, manifest)
  }

  /** branch_and_continue: the workspace and the mode stay as they are. */
  function BranchAndContinue(w: World, f: Failure, name: string, walks: Walks): (World, Result<RecoveryOutcome, Error>)
    requires walks.Within(w.ws.files)
  {
    var (w1, secured) := Secure(w, f, walks);
    if secured.Err? then (w1, Err(secured.error))
    else
      var doc := BranchDoc(name, f.cycle, secured.value.Refs());
      var (host, e) := WriteBranch(w1.host, f.Run(), name, doc);
      if e.Some? then (w1.(host := host), Err(e.value))
      else
        var (w2, reported) := Report(w1.(host := host), f, secured.value,
                                     [StepPause, StepSnapshot, StepBranch, StepReport],
                                     BranchFile(f.Run(), name), None, None);
        (w2, if reported.Err? then Err(reported.error)
         else Ok(RecoveryOutcome(secured.value, reported.value, None, None)))
  }

  datatype Flow = RollbackTo(lastAccepted: Text) | RestoreFrom(manifest: Path) | BranchInto(name: string)

  function Recover(w: World, f: Failure, flow: Flow, walks: Walks): (World, Result<RecoveryOutcome, Error>)
    requires walks.Within(w.ws.files)
  {
    match flow
    case RollbackTo(last) => ManualRollback(w, f, last, walks)
    case RestoreFrom(manifest) => KillAndRestore(w, f, manifest, walks)
    case BranchInto(name) => BranchAndContinue(w, f, name, walks)
  }

  /* ---- the controller ---- */

  /** Captures leave every ledger alone. */
  lemma CaptureKeepsLedgers(h: Hasher, t: HostTree, target: SnapshotTarget, names: seq<Path>, files: map<Path, Bytes>,
                            log: EventLog)
    requires LaidOut(t) && Mirrors(h, t, log) && Holdable(files) && IsListing(names, files.Keys, ByPosix)
    ensures var t' := Capture(t, target, names, files).0; LaidOut(t') && Mirrors(h, t', log)
  {
    hide Capture, LaidOut, Mirrors, Effect, Uncaptured, Recoverable, Holdable, ContentAt;
    LaidOutIsWellFormed(t);
    CaptureExact(t, target, names, files);
    CaptureKeepsLayout(t, target, names, files);
    MirrorsFrame(h, t, Capture(t, target, names, files).0, {target.Files(), target.Manifest()}, log);
  }

  class RecoveryController {
    const orchestrator: HostOrchestratorService
    const snapshots: SnapshotService
    const fs: HostStore

    /** One host storage behind the ledger, the snapshots and the reports. */
    ghost predicate Valid()
      reads orchestrator, orchestrator.approvals, orchestrator.approvals.ledger, orchestrator.approvals.ledger.fs
    {
      orchestrator.Valid() && snapshots.fs == fs && orchestrator.approvals.ledger.fs == fs
    }

    ghost function State(ws: Workspace): World
      reads ws, fs, orchestrator, orchestrator.runtime, orchestrator.approvals, orchestrator.approvals.ledger
    {
      World(orchestrator.State(), fs.Tree(), ws.Tree())
    }

    constructor (orchestrator: HostOrchestratorService, snapshots: SnapshotService)
      requires orchestrator.Valid() && orchestrator.approvals.ledger.fs == snapshots.fs
      ensures this.orchestrator == orchestrator && this.snapshots == snapshots && fs == snapshots.fs && Valid()
    {
      this.orchestrator, this.snapshots, fs := orchestrator, snapshots, snapshots.fs;
    }

    method CaptureFailureSnapshots(f: Failure, ws: Workspace)
      returns (r: Result<(SnapshotCapture, SnapshotCapture), Error>, ghost walks: Walks)
      requires Valid() && ws.Tree().WellFormed()
      modifies fs
      ensures Valid() && walks.List(ws.files)
      ensures (fs.Tree(), r) == CaptureFailure(old(fs.Tree()), f, walks, ws.files)
    {
      hide Capture, LaidOut, Mirrors, IsListing, Holdable;
      ghost var ledger, t0 := orchestrator.approvals.ledger, fs.Tree();
      HoldableFiles(ws.Tree());
      var first, walk := snapshots.CaptureSnapshot(f.CycleSnapshot(), ws);
      walks := Walks(walk, walk);
      CaptureKeepsLedgers(ledger.hash, t0, f.CycleSnapshot(), walk, ws.files, ledger.log);
      if first.Err? {
        return Err(first.error), walks;
      }
      if !IsSegment(FullSnapshotId(f.incidentId)) {
        return Err(InvalidValue), walks;
      }
      ghost var t1 := fs.Tree();
      var second, again := snapshots.CaptureSnapshot(f.FullSnapshot(), ws);
      walks := Walks(walk, again);
      CaptureKeepsLedgers(ledger.hash, t1, f.FullSnapshot(), again, ws.files, ledger.log);
      return if second.Err? then Err(second.error) else Ok((first.value, second.value)), walks;
    }

    /** The workspace is only walked for a registered run. */
    ghost predicate Listed(walks: Walks, f: Failure, files: map<Path, Bytes>)
      reads orchestrator.runtime
    {
      walks.Within(files) && (f.Run() in orchestrator.runtime.sessions ==> walks.List(files))
    }

    method PauseAndCapture(f: Failure, ws: Workspace) returns (r: Result<Secured, Error>, ghost walks: Walks)
      requires Valid() && ws.Tree().WellFormed()
      modifies orchestrator.runtime, fs
      ensures Valid() && Listed(walks, f, ws.files)
      ensures (State(ws), r) == Secure(old(State(ws)), f, walks)
    {
      hide CaptureFailure;
      var paused := orchestrator.Transition(f.Run(), R.ToPaused);
      if paused.Err? {
        return Err(paused.error), Walks([], []);
      }
      var captured;
      captured, walks := CaptureFailureSnapshots(f, ws);
      return if captured.Err? then Err(captured.error)
             else Ok(Secured(paused.value, captured.value.0, captured.value.1)), walks;
    }

    method WriteIncidentBundle(f: Failure, s: Secured, steps: seq<RecoveryStep>, branch: Option<Path>,
                               target: Option<Segment>,
                               restored: Option<Path>, ws: Workspace) returns (r: Result<IncidentDocument, Error>)
      modifies fs
      ensures old(Valid()) ==> Valid()
      ensures (State(ws), r) == Report(old(State(ws)), f, s, steps, branch, target, restored)
    {
      hide LaidOut, Mirrors;
      if !IsSegment(f.incidentId) {
        return Err(InvalidValue);
      }
      var d := Document(f, s, steps, branch, target, restored);
      var report, record := IncidentReport(f.Run(), f.incidentId), Incident(f.Run(), f.incidentId);
      var e := WriteDoc(report, ReportDoc(d));
      if e.None? {
        e := WriteDoc(record, IncidentDoc(d));
      }
      return if e.Some? then Err(e.value) else Ok(d);
    }

    /** Writing a document of one's own leaves every ledger alone. */
    method WriteDoc(a: Artifact, doc: Record) returns (error: Option<Error>)
      requires !a.IsDirectory() && !a.AuditLog? && Fits(a, [doc])
      modifies fs
      ensures old(Valid()) ==> Valid()
      ensures (fs.Tree(), error) == WriteFile(old(fs.Tree()), a.Root(), [doc], false)
    {
      hide LaidOut, Mirrors;
      ghost var ledger, t0 := orchestrator.approvals.ledger, fs.Tree();
      error := fs.Write(a.Root(), [doc]);
      if old(Valid()) {
        WriteDocument(t0, a, doc);
        MirrorsFrame(ledger.hash, t0, fs.Tree(), {a}, ledger.log);
      }
    }

    method WriteBranchEvidence(f: Failure, name: string, s: Secured) returns (error: Option<Error>)
      requires Valid()
      modifies fs
      ensures Confined(f.Run(), name) ==> Valid()
      ensures (fs.Tree(), error)
              == WriteBranch(old(fs.Tree()), f.Run(), name, BranchDoc(name, f.cycle, s.Refs()))
    {
      hide LaidOut, Mirrors, Confined;
      ghost var ledger, t0 := orchestrator.approvals.ledger, fs.Tree();
      var doc := BranchDoc(name, f.cycle, s.Refs());
      if IsAbsolute(name) {
        error := Some(InvalidValue);
      } else {
        error := fs.WriteUnresolved(BranchDirs(f.Run(), name), BranchLeaf(name), [doc]);
      }
      if Confined(f.Run(), name) {
        LaidOutIsWellFormed(t0);
        ConfinedEffect(t0, f.Run(), name, doc);
        ConfinedKeepsLayout(t0, f.Run(), name, doc);
        MirrorsFrame(ledger.hash, t0, fs.Tree(), {BranchEvidence(f.Run())}, ledger.log);
      }
    }

    method RestoreThenReport(f: Failure, s: Secured, receipt: R.LifecycleReceipt, steps: seq<RecoveryStep>,
                             target: Option<Segment>, manifest: Path, ws: Workspace)
      returns (r: Result<RecoveryOutcome, Error>)
      requires Valid() && ws.Tree().WellFormed()
      modifies fs, ws
      ensures Valid()
      ensures (State(ws), r) == RestoreAndReport(old(State(ws)), f, s, receipt, steps, target, manifest)
    {
      hide Restore, Report, LaidOut, Mirrors;
      var plan := snapshots.RestoreSnapshot(manifest, ws);
      if plan.Err? {
        return Err(plan.error);
      }
      var reported := WriteIncidentBundle(f, s, steps, None, target, Some(manifest), ws);
      return if reported.Err? then Err(reported.error)
             else Ok(RecoveryOutcome(s, reported.value, Some(receipt), Some(plan.value)));
    }

    method ManualRollback(f: Failure, lastAccepted: Text, ws: Workspace)
      returns (r: Result<RecoveryOutcome, Error>, ghost walks: Walks)
      requires Valid() && ws.Tree().WellFormed()
      modifies orchestrator.runtime, fs, ws
      ensures Valid() && Listed(walks, f, old(ws.files))
      ensures (State(ws), r) == Recover(old(State(ws)), f, RollbackTo(lastAccepted), walks)
    {
      hide Secure, RestoreAndReport, LaidOut, Mirrors, IsListing;
      var secured;
      secured, walks := PauseAndCapture(f, ws);
      if secured.Err? {
        return Err(secured.error), walks;
      }
      var rolledBack := orchestrator.Transition(f.Run(), R.ToCycle(lastAccepted));
      if rolledBack.Err? {
        return Err(rolledBack.error), walks;
      }
      if !IsSegment(lastAccepted) {
        return Err(InvalidValue), walks;
      }
      r := RestoreThenReport(f, secured.value, rolledBack.value, [StepPause, StepSnapshot, StepRollback, StepReport],
                             Some(lastAccepted), CycleManifest(f.Run(), lastAccepted).Root(), ws);
    }

    method KillAndRestore(f: Failure, manifest: Path, ws: Workspace)
      returns (r: Result<RecoveryOutcome, Error>, ghost walks: Walks)
      requires Valid() && ws.Tree().WellFormed()
      modifies orchestrator.runtime, fs, ws
      ensures Valid() && Listed(walks, f, old(ws.files))
      ensures (State(ws), r) == Recover(old(State(ws)), f, RestoreFrom(manifest), walks)
    {
      hide Secure, RestoreAndReport, LaidOut, Mirrors, IsListing;
      var secured;
      secured, walks := PauseAndCapture(f, ws);
      if secured.Err? {
        return Err(secured.error), walks;
      }
      var restored := orchestrator.Transition(f.Run(), R.ToSnapshot(secured.value.fullSnapshot.snapshotId));
      if restored.Err? {
        return Err(restored.error), walks;
      }
      r := RestoreThenReport(f, secured.value, restored.value, [StepPause, StepSnapshot, StepRestore, StepReport],
                             None, manifest, ws);
    }

    method BranchAndContinue(f: Failure, name: string, ws: Workspace)
      returns (r: Result<RecoveryOutcome, Error>, ghost walks: Walks)
      requires Valid() && ws.Tree().WellFormed()
      modifies orchestrator.runtime, fs
      ensures (Confined(f.Run(), name) ==> Valid()) && Listed(walks, f, ws.files)
      ensures (State(ws), r) == Recover(old(State(ws)), f, BranchInto(name), walks)
    {
      hide Secure, Report, LaidOut, Mirrors, IsListing, WriteBranch, BranchFile, Confined;
      var secured;
      secured, walks := PauseAndCapture(f, ws);
      if secured.Err? {
        return Err(secured.error), walks;
      }
      var e := WriteBranchEvidence(f, name, secured.value);
      if e.Some? {
        return Err(e.value), walks;
      }
      var reported := WriteIncidentBundle(f, secured.value, [StepPause, StepSnapshot, StepBranch, StepReport],
                                          BranchFile(f.Run(), name), None, None, ws);
      return if reported.Err? then Err(reported.error)
             else Ok(RecoveryOutcome(secured.value, reported.value, None, None)), walks;
    }
  }
}
