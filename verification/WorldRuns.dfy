/** Whole runs of the whole host side: commands, storage services, snapshots, restores, recovery flows and
    an agent that edits its workspace at will, in any order. */
module WorldRuns {
  import opened Prelude
  import opened FileTree
  import opened StoragePaths
  import opened Commands
  import opened AuditChain
  import opened Records
  import opened HostFilesystem
  import opened StorageLayout
  import opened Workspaces
  import opened Snapshots
  import opened Branches
  import opened Ledger
  import opened Orchestrator
  import opened ControlSteps
  import opened ControlRuns
  import opened ControlReplay
  import opened HostSteps
  import opened HostRuns
  import opened Projection
  import opened Recovery
  import opened RecoveryFlows
  import opened RecoveryOutcomes
  import R = Runtime

  datatype WorldStep =
    | ControlNow(step: Step)
    | Store(storage: HostStep)
    | CaptureNow(target: SnapshotTarget, names: seq<Path>)
    | RestoreNow(manifest: Path)
    | Edit(ws: WorkspaceTree)
    | RecoverNow(failure: Failure, flow: Flow, walks: Walks)

  /** Append the events to the stored ledgers, one after the other. */
  function Persist(h: Hasher, t: HostTree, events: seq<AuditEvent>): HostTree
    decreases |events|
  {
    if events == [] then t else Persist(h, AppendEntry(h, t, events[0]).0, events[1..])
  }

  /** The events a control step records. */
  function NewEvents(c: Control, s: Step): seq<AuditEvent> {
    if s.Submit? && Accepted(c, s.request) then AddedEvents(c, s.request, RunOf(s.request.command.scope).value) else []
  }

  /** A command first records its request; if its run's ledger cannot be written it raises right there. */
  predicate Halts(w: World, s: Step) {
    s.Submit? && Accepted(w.control, s.request) && LedgerBlocked(w.host, RunOf(s.request.command.scope).value)
  }

  function After(h: Hasher, w: World, s: WorldStep): World {
    match s
    case ControlNow(step) =>
      if Halts(w, step) then w
      else w.(control := Next(w.control, step), host := Persist(h, w.host, NewEvents(w.control, step)))
    case Store(storage) => w.(host := ApplyStep(h, w.host, storage))
    case CaptureNow(target, names) => w.(host := ApplyStep(h, w.host, CaptureStep(target, names, w.ws.files)))
    case RestoreNow(manifest) => w.(ws := Restore(w.ws, manifest, w.host).0)
    case Edit(ws) => w.(ws := ws)
    case RecoverNow(f, flow, walks) => if walks.Within(w.ws.files) then Recover(w, f, flow, walks).0 else w
  }

  function AfterAll(h: Hasher, w: World, steps: seq<WorldStep>): World
    decreases |steps|
  {
    if steps == [] then w else AfterAll(h, After(h, w, steps[0]), steps[1..])
  }

  /** Ledgers are written by commands alone, captures and flows list the workspace as it is, and the agent leaves a
      directory tree. Branches may be named anything. */
  ghost predicate Allowed(w: World, s: WorldStep) {
    match s
    case ControlNow(step) => Sanctioned(step)
    case Store(storage) => !storage.AuditStep? && !storage.CaptureStep?
    case CaptureNow(_, names) => IsListing(names, w.ws.files.Keys, ByPosix)
    case RestoreNow(_) => true
    case Edit(ws) => ws.WellFormed()
    case RecoverNow(_, _, walks) => walks.List(w.ws.files)
  }

  ghost predicate AllAllowed(h: Hasher, w: World, steps: seq<WorldStep>)
    decreases |steps|
  {
    steps == [] || (Allowed(w, steps[0]) && AllAllowed(h, After(h, w, steps[0]), steps[1..]))
  }

  /** Storage is sound, the stored ledgers are the recorded events, every unlocked run holds its receipt, and
      the workspace is a tree. */
  ghost predicate WorldInv(h: Hasher, w: World) {
    && HostSound(h, w.host)
    && Mirrors(h, w.host, w.control.desk.log)
    && ModeHeldByReceipt(w.control)
    && w.ws.WellFormed()
  }

  const START: World := World(EMPTY, Tree(map[], {}), Tree(map[], {}))

  lemma StartIsSound(h: Hasher)
    ensures WorldInv(h, START)
  {
    EmptyIsSound(h);
  }

  /* ---- commands ---- */

  function RecordedAll(log: EventLog, events: seq<AuditEvent>): EventLog
    decreases |events|
  {
    if events == [] then log else RecordedAll(Recorded(log, events[0]), events[1..])
  }

  lemma AppendSound(h: Hasher, t: HostTree, log: EventLog, event: AuditEvent)
    requires HostSound(h, t) && Mirrors(h, t, log) && !LedgerBlocked(t, event.run)
    ensures var t' := AppendEntry(h, t, event).0;
            && HostSound(h, t') && OnlyGrows(t, t') && Mirrors(h, t', Recorded(log, event))
            && (forall run :: LedgerBlocked(t', run) ==> LedgerBlocked(t, run))
  {
    hide LedgerSound, LogsSound, LinksReadable, ExportsListed, SnapshotsSound, Effect, OnlyGrows, Mirrors, AppendEntry,
         LedgerBlocked, ApplyStep;
    AppendMirrors(h, t, log, event);
    AuditIsStep(h, t, event);
    StepGrows(h, t, AuditStep(event));
    StepKeepsSound(h, t, AuditStep(event));
    forall run | LedgerBlocked(AppendEntry(h, t, event).0, run) ensures LedgerBlocked(t, run) {
      StepBlocksByName(h, t, AuditStep(event), run);
    }
  }

  lemma {:induction false} PersistMirrors(h: Hasher, t: HostTree, log: EventLog, events: seq<AuditEvent>)
    requires HostSound(h, t) && Mirrors(h, t, log)
    requires forall i :: 0 <= i < |events| ==> !LedgerBlocked(t, events[i].run)
    ensures var t' := Persist(h, t, events);
            && HostSound(h, t') && OnlyGrows(t, t') && Mirrors(h, t', RecordedAll(log, events))
            && (forall other :: LedgerBlocked(t', other) ==> LedgerBlocked(t, other))
    decreases |events|
  {
    hide HostSound, OnlyGrows, Mirrors, AppendEntry, LedgerBlocked;
    if events == [] {
      GrowthReflexive(t, iset{});
    } else {
      var e := events[0];
      var t1 := AppendEntry(h, t, e).0;
      AppendSound(h, t, log, e);
      PersistMirrors(h, t1, Recorded(log, e), events[1..]);
      OnlyGrowsTransitive(t, t1, Persist(h, t1, events[1..]));
    }
  }

  lemma {:induction false} RecordedAllOf(log: EventLog, events: seq<AuditEvent>, run: RunScope, other: RunScope)
    requires forall i :: 0 <= i < |events| ==> events[i].run == run
    ensures EventsOf(RecordedAll(log, events), other) == EventsOf(log, other) + (if other == run then events else [])
    decreases |events|
  {
    hide EventsOf, Recorded;
    if events != [] {
      RecordedOf(log, events[0], other);
      RecordedAllOf(Recorded(log, events[0]), events[1..], run, other);
      assert EventsOf(log, other) + [events[0]] + events[1..] == EventsOf(log, other) + events;
    }
  }

  lemma RecordedOf(log: EventLog, event: AuditEvent, other: RunScope)
    ensures EventsOf(Recorded(log, event), other)
            == (if other == event.run then EventsOf(log, other) + [event] else EventsOf(log, other))
  {
  }

  /** The stored ledgers follow the events a command records. */
  lemma CommandMirrors(h: Hasher, w: World, s: Step)
    requires HostSound(h, w.host) && Mirrors(h, w.host, w.control.desk.log)
    ensures var w' := After(h, w, ControlNow(s));
            && HostSound(h, w'.host) && OnlyGrows(w.host, w'.host) && Mirrors(h, w'.host, w'.control.desk.log)
            && (forall run :: LedgerBlocked(w'.host, run) ==> LedgerBlocked(w.host, run))
  {
    hide HostSound, OnlyGrows, Persist, Next, AddedEvents, Accepted, LedgerBlocked;
    var c, events := w.control, NewEvents(w.control, s);
    if Halts(w, s) {
      GrowthReflexive(w.host, iset{});
    } else {
      NewEventsOfOneRun(c, s);
      PersistMirrors(h, w.host, c.desk.log, events);
      forall other ensures EventsOf(Next(c, s).desk.log, other) == EventsOf(RecordedAll(c.desk.log, events), other) {
        NewEventsAreRecorded(c, s, other);
      }
    }
  }

  lemma NewEventsOfOneRun(c: Control, s: Step)
    ensures s.Submit? && Accepted(c, s.request) ==>
              forall i :: 0 <= i < |NewEvents(c, s)| ==> NewEvents(c, s)[i].run == RunOf(s.request.command.scope).value
    ensures !(s.Submit? && Accepted(c, s.request)) ==> NewEvents(c, s) == []
  {
    hide AddedEvents;
    if s.Submit? && Accepted(c, s.request) {
      AddedIsBlock(c, s.request, RunOf(s.request.command.scope).value);
    }
  }

  lemma NewEventsAreRecorded(c: Control, s: Step, other: RunScope)
    ensures EventsOf(Next(c, s).desk.log, other) == EventsOf(RecordedAll(c.desk.log, NewEvents(c, s)), other)
  {
    hide Execute, AddedEvents;
    if s.Submit? {
      if Accepted(c, s.request) {
        var run := RunOf(s.request.command.scope).value;
        ExecuteClosed(c, s.request, run);
        AddedIsBlock(c, s.request, run);
        RecordedAllOf(c.desk.log, NewEvents(c, s), run, other);
      } else {
        UnacceptedChangesNothing(c, s.request);
      }
    }
  }

  /* ---- every step ---- */

  lemma MirrorsSame(h: Hasher, t: HostTree, t': HostTree, log: EventLog)
    requires Mirrors(h, t, log)
    requires forall run :: ContentAt(t', LedgerFile(run)) == ContentAt(t, LedgerFile(run))
    ensures Mirrors(h, t', log)
  {
  }

  lemma StoreSound(h: Hasher, w: World, s: HostStep)
    requires WorldInv(h, w) && Proper(s) && !s.AuditStep?
    ensures var t' := ApplyStep(h, w.host, s);
            HostSound(h, t') && OnlyGrows(w.host, t') && Mirrors(h, t', w.control.desk.log)
  {
    hide HostSound, OnlyGrows, ApplyStep, ModeHeldByReceipt, Mirrors, ContentAt, Proper;
    var t' := ApplyStep(h, w.host, s);
    SoundIsTree(h, w.host);
    StepGrows(h, w.host, s);
    StepKeepsSound(h, w.host, s);
    forall run ensures ContentAt(t', LedgerFile(run)) == ContentAt(w.host, LedgerFile(run)) {
      StepLeavesJsonl(h, w.host, s, AuditLog(run));
    }
    MirrorsSame(h, w.host, t', w.control.desk.log);
  }

  lemma SoundIsTree(h: Hasher, t: HostTree)
    requires HostSound(h, t)
    ensures t.WellFormed() && SnapshotsSound(t)
  {
  }

  lemma RecoverSound(h: Hasher, w: World, f: Failure, flow: Flow, walks: Walks)
    requires WorldInv(h, w) && walks.List(w.ws.files)
    ensures var w' := Recover(w, f, flow, walks).0;
            WorldInv(h, w') && OnlyGrows(w.host, w'.host)
  {
    hide HostSound, HostInv, Effect, OnlyGrows, ModeHeldByReceipt, Mirrors, Recover, BothRecoverable, Confined, Calls,
         Contained, LeavesOthers, ContentAt;
    SoundIsTree(h, w.host);
    EveryFlowIsCareful(h, w, f, flow, walks);
    var w' := Recover(w, f, flow, walks).0;
    MirrorsSame(h, w.host, w'.host, w.control.desk.log);
    ContainedSound(w.control, w'.control, f.Run(), Calls(w, f, flow, walks));
  }

  lemma ContainedSound(c: Control, c': Control, run: RunScope, calls: seq<Step>)
    requires Contained(c, c', run, calls)
    ensures c'.desk == c.desk && c'.receipts == c.receipts
    ensures ModeHeldByReceipt(c) ==> ModeHeldByReceipt(c')
    ensures forall other | other != run :: (other in c'.sessions <==> other in c.sessions)
                                           && (other in c.sessions ==> c'.sessions[other] == c.sessions[other])
  {
    hide ModeHeldByReceipt, RunAll;
    DirectCallsContained(c, calls, run);
  }

  lemma CaptureIsProper(target: SnapshotTarget, names: seq<Path>, ws: WorkspaceTree)
    requires ws.WellFormed() && IsListing(names, ws.files.Keys, ByPosix)
    ensures Proper(CaptureStep(target, names, ws.files))
  {
    HoldableFiles(ws);
  }

  lemma WorldStepSound(h: Hasher, w: World, s: WorldStep)
    requires WorldInv(h, w) && Allowed(w, s)
    ensures WorldInv(h, After(h, w, s)) && OnlyGrows(w.host, After(h, w, s).host)
  {
    hide HostSound, ModeHeldByReceipt, Mirrors, Recover, Restore, ApplyStep, Persist, Next, NewEvents, OnlyGrows,
         IsListing, Sanctioned, Halts;
    GrowthReflexive(w.host, iset{});
    match s {
      case ControlNow(step) =>
        CommandMirrors(h, w, step);
        StepKeepsModeHeld(w.control, step);
      case Store(storage) => StoreSound(h, w, storage);
      case CaptureNow(target, names) =>
        CaptureIsProper(target, names, w.ws);
        StoreSound(h, w, CaptureStep(target, names, w.ws.files));
      case RestoreNow(manifest) => RestoreWellFormed(w.ws, manifest, w.host);
      case Edit(ws) =>
      case RecoverNow(f, flow, walks) => RecoverSound(h, w, f, flow, walks);
    }
  }

  /** In every run of the whole system, however branches are named, every invariant holds throughout and storage only
      grows. */
  lemma {:induction false} EveryRunIsSound(h: Hasher, w: World, steps: seq<WorldStep>)
    requires WorldInv(h, w) && AllAllowed(h, w, steps)
    ensures WorldInv(h, AfterAll(h, w, steps)) && OnlyGrows(w.host, AfterAll(h, w, steps).host)
    decreases |steps|
  {
    hide WorldInv, Allowed, After, OnlyGrows;
    if steps == [] {
      GrowthReflexive(w.host, iset{});
    } else {
      var w1 := After(h, w, steps[0]);
      WorldStepSound(h, w, steps[0]);
      EveryRunIsSound(h, w1, steps[1..]);
      OnlyGrowsTransitive(w.host, w1.host, AfterAll(h, w1, steps[1..]).host);
    }
  }

  /* ---- the promises over whole runs ---- */

  /** Capture the workspace at any moment of any run. Whatever happens afterwards - commands, edits, further
      captures under any id that succeed or fail halfway, restores, recoveries, branches of any name - restoring
      from the manifest path it returned into the workspace as it then is gives the captured files and only their
      directories, unless a captured file has become a directory. */
  lemma EveryCaptureIsForever(h: Hasher, before: seq<WorldStep>, target: SnapshotTarget, names: seq<Path>,
                              after: seq<WorldStep>)
    requires AllAllowed(h, START, before)
    requires var w := AfterAll(h, START, before);
             && IsListing(names, w.ws.files.Keys, ByPosix)
             && Capture(w.host, target, names, w.ws.files).1.Ok?
             && AllAllowed(h, After(h, w, CaptureNow(target, names)), after)
    ensures var captured := AfterAll(h, START, before).ws;
            var path := Capture(AfterAll(h, START, before).host, target, names, captured.files).1.value.manifestPath;
            var w := AfterAll(h, After(h, AfterAll(h, START, before), CaptureNow(target, names)), after);
            var (ws, r) := Restore(w.ws, path, w.host);
            && (r.Ok? <==> w.ws.dirs !! captured.files.Keys)
            && (r.Ok? ==> ws == TreeOf(captured.files) && ws.dirs <= captured.dirs)
  {
    hide WorldInv, Restore, Capture, IsListing, AfterAll, AllAllowed, OnlyGrows, Recoverable, Holdable, After, TreeOf;
    StartIsSound(h);
    EveryRunIsSound(h, START, before);
    var w0 := AfterAll(h, START, before);
    var w1 := After(h, w0, CaptureNow(target, names));
    WorldStepSound(h, w0, CaptureNow(target, names));
    CapturedIsRecoverable(h, w0, target, names);
    EveryRunIsSound(h, w1, after);
    var w2 := AfterAll(h, w1, after);
    WorldIsTree(h, w0);
    WorldIsTree(h, w2);
    HoldableFiles(w0.ws);
    CapturePath(w0.host, target, names, w0.ws.files);
    RecoverableRestores(w1.host, w2.host, target, w0.ws.files, w2.ws);
    OnlyTheirDirectories(w0.ws);
  }

  lemma CapturePath(t: HostTree, target: SnapshotTarget, names: seq<Path>, files: map<Path, Bytes>)
    requires t.WellFormed() && Holdable(files) && IsListing(names, files.Keys, ByPosix)
    requires Capture(t, target, names, files).1.Ok?
    ensures Capture(t, target, names, files).1.value.manifestPath == target.Manifest().Root()
  {
    hide Capture, ContentAt, Represents, IsListing, Holdable;
    CaptureReturns(t, target, names, files);
  }

  lemma OnlyTheirDirectories(ws: WorkspaceTree)
    requires ws.WellFormed()
    ensures TreeOf(ws.files).dirs <= ws.dirs
  {
  }

  lemma WorldIsTree(h: Hasher, w: World)
    requires WorldInv(h, w)
    ensures w.ws.WellFormed() && w.host.WellFormed() && SnapshotsSound(w.host)
  {
    hide SnapshotsSound;
  }

  lemma CapturedIsRecoverable(h: Hasher, w: World, target: SnapshotTarget, names: seq<Path>)
    requires WorldInv(h, w) && IsListing(names, w.ws.files.Keys, ByPosix)
             && Capture(w.host, target, names, w.ws.files).1.Ok?
    ensures Recoverable(After(h, w, CaptureNow(target, names)).host, target, w.ws.files)
  {
    hide ModeHeldByReceipt, Mirrors, Capture, Recoverable, Effect, Uncaptured, SnapshotsSound, LedgerSound, LogsSound,
         LinksReadable, ExportsListed, ContentAt;
    HoldableFiles(w.ws);
    CaptureExact(w.host, target, names, w.ws.files);
  }

  /** At any moment of any run, whatever snapshot can be read restores the files of one workspace exactly: into any
      workspace, unless one of them is a directory there. Those a recovery flow has taken are no exception. */
  lemma StoredSnapshotsRestore(h: Hasher, steps: seq<WorldStep>, target: SnapshotTarget)
    requires AllAllowed(h, START, steps)
    ensures var host := AfterAll(h, START, steps).host;
            ReconstructRestore(host, target.Manifest().Root()).Ok? ==>
              exists F: map<Path, Bytes> ::
                && Holdable(F) && Recoverable(host, target, F)
                && forall ws: WorkspaceTree :: ws.WellFormed() ==> UndoneBy(ws, target, host, F)
  {
    hide WorldInv, AfterAll, AllAllowed, OnlyGrows, Recoverable, Holdable, ReconstructRestore, UndoneBy;
    StartIsSound(h);
    EveryRunIsSound(h, START, steps);
    var w := AfterAll(h, START, steps);
    WorldIsTree(h, w);
    if ReconstructRestore(w.host, target.Manifest().Root()).Ok? {
      assert Restorable(w.host, target);
      var F: map<Path, Bytes> :| Holdable(F) && Recoverable(w.host, target, F);
      GrowthReflexive(w.host, iset{});
      forall ws: WorkspaceTree | ws.WellFormed() ensures UndoneBy(ws, target, w.host, F) {
        RecoverableRestores(w.host, w.host, target, F, ws);
      }
    }
  }

  /* ---- ledgers on disk ---- */

  /** A branch whose name passes through the run's ledger, made directly or by a flow. */
  predicate NamesLedger(s: WorldStep, run: RunScope) {
    || (s.Store? && PassesThrough(s.storage, run))
    || (s.RecoverNow? && s.flow.BranchInto? && LedgerFile(run) in Visited([], BranchDirs(s.failure.Run(), s.flow.name)))
  }

  lemma WorldStepBlocksByName(h: Hasher, w: World, s: WorldStep, run: RunScope)
    requires WorldInv(h, w) && Allowed(w, s) && LedgerBlocked(After(h, w, s).host, run) && !NamesLedger(s, run)
    ensures LedgerBlocked(w.host, run)
  {
    hide HostSound, ModeHeldByReceipt, Mirrors, Recover, Restore, ApplyStep, Persist, Next, NewEvents, OnlyGrows,
         IsListing, Sanctioned, Halts, LedgerBlocked, PassesThrough, Visited, BranchDirs;
    SoundIsTree(h, w.host);
    match s {
      case ControlNow(step) => CommandMirrors(h, w, step);
      case Store(storage) => StepBlocksByName(h, w.host, storage, run);
      case CaptureNow(target, names) =>
        CaptureIsProper(target, names, w.ws);
        CaptureNamesNothing(target, names, w.ws.files, run);
        StepBlocksByName(h, w.host, CaptureStep(target, names, w.ws.files), run);
      case RestoreNow(manifest) =>
      case Edit(ws) =>
      case RecoverNow(f, flow, walks) => FlowBlocksByName(h, w, f, flow, walks, run);
    }
  }

  lemma CaptureNamesNothing(target: SnapshotTarget, names: seq<Path>, files: map<Path, Bytes>, run: RunScope)
    ensures !PassesThrough(CaptureStep(target, names, files), run)
  {
  }

  /** A ledger that is blocked at some moment of some run was named by a branch. */
  lemma {:induction false} BlockedByName(h: Hasher, w: World, steps: seq<WorldStep>, run: RunScope)
    requires WorldInv(h, w) && AllAllowed(h, w, steps) && LedgerBlocked(AfterAll(h, w, steps).host, run)
    requires !LedgerBlocked(w.host, run)
    ensures exists i :: 0 <= i < |steps| && NamesLedger(steps[i], run)
    decreases |steps|
  {
    hide WorldInv, Allowed, After, OnlyGrows, LedgerBlocked, NamesLedger;
    var w1 := After(h, w, steps[0]);
    WorldStepSound(h, w, steps[0]);
    if LedgerBlocked(w1.host, run) {
      if !NamesLedger(steps[0], run) { WorldStepBlocksByName(h, w, steps[0], run); }
    } else {
      BlockedByName(h, w1, steps[1..], run);
      var i :| 0 <= i < |steps| - 1 && NamesLedger(steps[1..][i], run);
      assert steps[1..][i] == steps[i + 1];
    }
  }

  /** No event was ever recorded in a ledger that is blocked. */
  lemma BlockedIsEmpty(h: Hasher, w: World, run: RunScope)
    requires WorldInv(h, w) && LedgerBlocked(w.host, run)
    ensures w.control.LedgerOf(run) == []
  {
    hide ModeHeldByReceipt, SnapshotsSound, LedgerSound, LogsSound, LinksReadable, ExportsListed;
    var events := w.control.LedgerOf(run);
    assert ContentAt(w.host, LedgerFile(run)) == [];
    assert |LedgerLines(Chain(h, events))| == |Chain(h, events)|;
  }

  /** At any moment of any run, each run's stored ledger verifies and holds exactly the recorded events, unless it is a
      directory; then nothing was ever recorded for the run, and some branch was named through it. */
  lemma StoredLedgersVerify(h: Hasher, steps: seq<WorldStep>, run: RunScope)
    requires AllAllowed(h, START, steps)
    ensures var w := AfterAll(h, START, steps);
            var stored := StoredLedger(w.host, run);
            && (stored.Ok? <==> !w.host.IsDir(LedgerFile(run)))
            && (stored.Ok? ==> Verified(h, stored.value) && Events(stored.value) == w.control.LedgerOf(run))
            && (stored.Err? ==> w.control.LedgerOf(run) == []
                                && exists i :: 0 <= i < |steps| && NamesLedger(steps[i], run))
  {
    hide HostSound, ModeHeldByReceipt, AfterAll, AllAllowed, Verified, OnlyGrows, NamesLedger, Mirrors;
    StartIsSound(h);
    EveryRunIsSound(h, START, steps);
    var w := AfterAll(h, START, steps);
    var events := w.control.LedgerOf(run);
    MirroredLedger(h, w.host, w.control.desk.log, run);
    ChainVerified(h, events);
    ChainEvents(h, events);
    if StoredLedger(w.host, run).Err? {
      BlockedIsEmpty(h, w, run);
      StartUnblocked(run);
      BlockedByName(h, START, steps, run);
    }
  }

  lemma StartUnblocked(run: RunScope)
    ensures !LedgerBlocked(START.host, run)
  {
    RootParts(AuditLog(run));
  }

  lemma MirroredLedger(h: Hasher, t: HostTree, log: EventLog, run: RunScope)
    requires Mirrors(h, t, log)
    ensures StoredLedger(t, run) == if t.IsDir(LedgerFile(run)) then Err(IsADirectory)
                                    else Ok(Chain(h, EventsOf(log, run)))
  {
    hide Chain;
    LedgerLinesRead(Chain(h, EventsOf(log, run)));
  }

  /** Once a run's ledger is blocked it stays blocked: no event of the run is ever recorded, and every command on it
      raises and changes nothing, at any later moment. */
  lemma BlockedRunIsStuck(h: Hasher, before: seq<WorldStep>, after: seq<WorldStep>, run: RunScope)
    requires AllAllowed(h, START, before) && LedgerBlocked(AfterAll(h, START, before).host, run)
    requires AllAllowed(h, AfterAll(h, START, before), after)
    ensures var w := AfterAll(h, AfterAll(h, START, before), after);
            && w.control.LedgerOf(run) == []
            && (forall r: Request :: Accepted(w.control, r) && RunOf(r.command.scope) == Some(run)
                  ==> After(h, w, ControlNow(Submit(r))) == w)
  {
    hide WorldInv, AfterAll, AllAllowed, OnlyGrows, LedgerBlocked, Accepted;
    StartIsSound(h);
    EveryRunIsSound(h, START, before);
    var w1 := AfterAll(h, START, before);
    EveryRunIsSound(h, w1, after);
    StillBlocked(w1.host, AfterAll(h, w1, after).host, run);
    BlockedIsEmpty(h, AfterAll(h, w1, after), run);
  }

  lemma StillBlocked(t: HostTree, t': HostTree, run: RunScope)
    requires LedgerBlocked(t, run) && OnlyGrows(t, t')
    ensures LedgerBlocked(t', run)
  {
    RootParts(AuditLog(run));
  }

  /* ---- the control plane of a world run ---- */

  /** The steps a world step makes on the control plane. */
  function ControlStepsOf(w: World, s: WorldStep): seq<Step> {
    match s
    case ControlNow(step) => if Halts(w, step) then [] else [step]
    case RecoverNow(f, flow, walks) => if walks.Within(w.ws.files) then Calls(w, f, flow, walks) else []
    case _ => []
  }

  function Trace(h: Hasher, w: World, steps: seq<WorldStep>): seq<Step>
    decreases |steps|
  {
    if steps == [] then [] else ControlStepsOf(w, steps[0]) + Trace(h, After(h, w, steps[0]), steps[1..])
  }

  lemma {:induction false} RunAllAppend(c: Control, a: seq<Step>, b: seq<Step>)
    ensures RunAll(c, a + b) == RunAll(RunAll(c, a), b)
    decreases |a|
  {
    hide Next;
    if a == [] {
      assert a + b == b;
    } else {
      RunAllAppend(Next(c, a[0]), a[1..], b);
      assert (a + b)[1..] == a[1..] + b;
    }
  }

  lemma StepTraced(h: Hasher, w: World, s: WorldStep)
    ensures After(h, w, s).control == RunAll(w.control, ControlStepsOf(w, s))
    ensures forall step :: step in ControlStepsOf(w, s) ==>
              (s.ControlNow? && step == s.step)
                || (s.RecoverNow? && step.Direct? && step.run == s.failure.Run() && Sanctioned(step))
  {
    hide Recover, Calls, Next, Persist, ApplyStep, Restore, Halts;
    match s {
      case ControlNow(step) =>
        assert [step][1..] == [];
        assert RunAll(w.control, [step]) == RunAll(Next(w.control, step), []);
      case RecoverNow(f, flow, walks) =>
        if walks.Within(w.ws.files) { EveryFlowIsContained(w, f, flow, walks); }
      case _ =>
    }
  }

  /** The control plane of a world run is a run of the control plane: of its commands and registrations and the direct
      calls its recovery flows make. Commands that raise at a blocked ledger leave no trace. */
  lemma {:induction false} WorldRunIsControlRun(h: Hasher, w: World, steps: seq<WorldStep>)
    ensures AfterAll(h, w, steps).control == RunAll(w.control, Trace(h, w, steps))
    decreases |steps|
  {
    hide After, ControlStepsOf;
    if steps != [] {
      var w1 := After(h, w, steps[0]);
      StepTraced(h, w, steps[0]);
      WorldRunIsControlRun(h, w1, steps[1..]);
      RunAllAppend(w.control, ControlStepsOf(w, steps[0]), Trace(h, w1, steps[1..]));
    }
  }

  /** Every step of the trace is a control step of the run, or a sanctioned direct call of one of its flows. */
  lemma {:induction false} TraceSteps(h: Hasher, w: World, steps: seq<WorldStep>, step: Step)
    requires step in Trace(h, w, steps)
    ensures exists i :: 0 <= i < |steps| &&
              ((steps[i].ControlNow? && step == steps[i].step)
               || (steps[i].RecoverNow? && step.Direct? && step.run == steps[i].failure.Run() && Sanctioned(step)))
    decreases |steps|
  {
    hide After, ControlStepsOf, Sanctioned;
    StepTraced(h, w, steps[0]);
    if step in ControlStepsOf(w, steps[0]) {
    } else {
      TraceSteps(h, After(h, w, steps[0]), steps[1..], step);
      var i :| 0 <= i < |steps| - 1 &&
               ((steps[1..][i].ControlNow? && step == steps[1..][i].step)
                || (steps[1..][i].RecoverNow? && step.Direct? && step.run == steps[1..][i].failure.Run()
                    && Sanctioned(step)));
      assert steps[1..][i] == steps[i + 1];
    }
  }

  lemma TraceIsSanctioned(h: Hasher, w: World, steps: seq<WorldStep>)
    requires forall i :: 0 <= i < |steps| ==> steps[i].ControlNow? ==> Sanctioned(steps[i].step)
    ensures forall i :: 0 <= i < |Trace(h, w, steps)| ==> Sanctioned(Trace(h, w, steps)[i])
  {
    hide Trace, Sanctioned;
    forall i | 0 <= i < |Trace(h, w, steps)| ensures Sanctioned(Trace(h, w, steps)[i]) {
      TraceSteps(h, w, steps, Trace(h, w, steps)[i]);
    }
  }

  lemma {:induction false} AllowedIsSanctioned(h: Hasher, w: World, steps: seq<WorldStep>)
    requires AllAllowed(h, w, steps)
    ensures forall i :: 0 <= i < |steps| ==> steps[i].ControlNow? ==> Sanctioned(steps[i].step)
    decreases |steps|
  {
    hide After, Sanctioned;
    if steps != [] {
      AllowedIsSanctioned(h, After(h, w, steps[0]), steps[1..]);
      forall i | 0 <= i < |steps| && steps[i].ControlNow? ensures Sanctioned(steps[i].step) {
        if i > 0 { assert steps[1..][i - 1] == steps[i]; }
      }
    }
  }

  /** At any moment of any run every session can be read back from disk: it is what its stored, verified ledger replays
      to, followed by the direct calls its recovery flows have made since its last completed command. The ledger alone
      gives it back exactly when those calls leave the view as it was - in particular when there are none. Only a ledger
      that is a directory cannot be read; it replays as an empty one. */
  lemma StoredLedgerReplaysRuntime(h: Hasher, steps: seq<WorldStep>, run: RunScope)
    requires AllAllowed(h, START, steps)
    ensures var w, pending := AfterAll(h, START, steps), Pending(EMPTY, Trace(h, START, steps), run);
            var stored := StoredLedger(w.host, run);
            && (stored.Ok? <==> !w.host.IsDir(LedgerFile(run)))
            && (run in w.control.sessions ==>
                  var recorded := if stored.Ok? then Events(stored.value) else [];
                  var session, replayed := ViewOf(w.control.sessions[run]), Replay(recorded);
                  session == ViewsAfter(replayed, pending)
                    && (session == replayed <==> ViewsAfter(replayed, pending) == replayed))
            && ((forall i :: 0 <= i < |steps| ==> !Unaudited(steps[i], run)) ==> pending == [])
  {
    hide AfterAll, AllAllowed, Replay, Unaudited, Verified, Trace, Pending, RunAll, NamesLedger, StoredLedger;
    StoredLedgersVerify(h, steps, run);
    WorldRunIsControlRun(h, START, steps);
    LedgerReplaysRuntime(Trace(h, START, steps), run);
    if forall i :: 0 <= i < |steps| ==> !Unaudited(steps[i], run) { NoUnauditedSteps(h, steps, run); }
  }

  /** Steps that move the run's session past its ledger: direct calls and recovery flows. */
  predicate Unaudited(s: WorldStep, run: RunScope) {
    (s.ControlNow? && s.step.Direct? && s.step.run == run) || (s.RecoverNow? && s.failure.Run() == run)
  }

  lemma NoUnauditedSteps(h: Hasher, steps: seq<WorldStep>, run: RunScope)
    requires forall i :: 0 <= i < |steps| ==> !Unaudited(steps[i], run)
    ensures Pending(EMPTY, Trace(h, START, steps), run) == []
  {
    hide Trace, Pending;
    var trace := Trace(h, START, steps);
    forall i | 0 <= i < |trace| ensures !(trace[i].Direct? && trace[i].run == run) {
      TraceSteps(h, START, steps, trace[i]);
    }
    NothingPending(EMPTY, trace, run);
  }

  /** At any moment of any run, whatever the timestamps, the read model agrees with the gate and offers what it allows,
      under the exact conditions of the projection theorems. */
  lemma ReadModelInWorld(h: Hasher, steps: seq<WorldStep>, run: RunScope, modeContext: Text, action: Action)
    requires AllAllowed(h, START, steps)
    ensures var c := AfterAll(h, START, steps).control;
            AgreementExact(c, run) && OfferExact(c, run, modeContext, action)
  {
    hide AfterAll, AllAllowed, AgreementExact, OfferExact, Trace, RunAll;
    WorldRunIsControlRun(h, START, steps);
    AllowedIsSanctioned(h, START, steps);
    TraceIsSanctioned(h, START, steps);
    ProjectionAgreesWithGate(Trace(h, START, steps), run);
    OfferedActionsCoverGate(Trace(h, START, steps), run, modeContext, action);
  }

  /* ---- recovery in a world run ---- */

  /** The command is turned down: no session moves, and it is denied or raises at a blocked ledger. */
  predicate TurnedDown(h: Hasher, w: World, r: Request) {
    && After(h, w, ControlNow(Submit(r))).control.sessions == w.control.sessions
    && (Halts(w, Submit(r)) || Execute(w.control, r).1 == Ok(Denied(r.command.action)))
  }

  /** Any recovery flow completed at any moment of any run can be undone at any later one: either new snapshot gives
      the failing files back exactly in the workspace as it then is, unless a failing file has become a directory. If
      it restored, no sensitive command on the run gets through - short of a new mode switch of that run. */
  lemma RecoveryIsReversibleAndLocked(h: Hasher, before: seq<WorldStep>, f: Failure, flow: Flow, walks: Walks,
                                      after: seq<WorldStep>)
    requires AllAllowed(h, START, before)
    requires var w := AfterAll(h, START, before);
             && walks.List(w.ws.files) && Recover(w, f, flow, walks).1.Ok?
             && AllAllowed(h, After(h, w, RecoverNow(f, flow, walks)), after)
    requires forall i :: 0 <= i < |after| ==> after[i].ControlNow? ==> !SwitchesMode(after[i].step, f.Run())
    ensures var w := AfterAll(h, START, before);
            var later := AfterAll(h, After(h, w, RecoverNow(f, flow, walks)), after);
            && IsSegment(FullSnapshotId(f.incidentId))
            && UndoneBy(later.ws, f.CycleSnapshot(), later.host, w.ws.files)
            && UndoneBy(later.ws, f.FullSnapshot(), later.host, w.ws.files)
            && (!flow.BranchInto? ==>
                  forall r: Request :: IsControl(r.command.action) && RunOf(r.command.scope) == Some(f.Run())
                    ==> TurnedDown(h, later, r))
  {
    hide WorldInv, AfterAll, AllAllowed, Recover, IsListing, Recoverable, UndoneBy, TurnedDown, OnlyGrows, Locked,
         Holdable;
    StartIsSound(h);
    EveryRunIsSound(h, START, before);
    var w := AfterAll(h, START, before);
    var w1 := After(h, w, RecoverNow(f, flow, walks));
    WorldIsTree(h, w);
    WorldStepSound(h, w, RecoverNow(f, flow, walks));
    EveryRunIsSound(h, w1, after);
    var w2 := AfterAll(h, w1, after);
    WorldIsTree(h, w2);
    CompletedIsSecured(h, w, f, flow, walks);
    HoldableFiles(w.ws);
    RecoverableRestores(w1.host, w2.host, f.CycleSnapshot(), w.ws.files, w2.ws);
    RecoverableRestores(w1.host, w2.host, f.FullSnapshot(), w.ws.files, w2.ws);
    if !flow.BranchInto? {
      CompletedIsLocked(w, f, flow, walks);
      LockedThroughout(h, w1, after, f.Run());
    }
  }

  lemma CompletedIsSecured(h: Hasher, w: World, f: Failure, flow: Flow, walks: Walks)
    requires w.host.WellFormed() && w.ws.WellFormed() && walks.List(w.ws.files) && Recover(w, f, flow, walks).1.Ok?
    ensures BothRecoverable(Recover(w, f, flow, walks).0.host, f, w.ws.files)
  {
    hide Recover, Secure, BothRecoverable, IsListing;
    if Secure(w, f, walks).1.Ok? { SecuredThroughout(h, w, f, flow, walks); } else { UnsecuredEnds(w, f, flow, walks); }
  }

  lemma LockedThroughout(h: Hasher, w: World, after: seq<WorldStep>, run: RunScope)
    requires Locked(w.control, run) && AllAllowed(h, w, after)
    requires forall i :: 0 <= i < |after| ==> after[i].ControlNow? ==> !SwitchesMode(after[i].step, run)
    ensures forall r: Request :: IsControl(r.command.action) && RunOf(r.command.scope) == Some(run)
              ==> TurnedDown(h, AfterAll(h, w, after), r)
  {
    hide AfterAll, AllAllowed, Trace, RunAll, Execute, Locked, TurnedDown;
    var trace, later := Trace(h, w, after), AfterAll(h, w, after);
    WorldRunIsControlRun(h, w, after);
    AllowedIsSanctioned(h, w, after);
    TraceIsSanctioned(h, w, after);
    forall i | 0 <= i < |trace| ensures !SwitchesMode(trace[i], run) {
      TraceSteps(h, w, after, trace[i]);
    }
    LockedUntilModeSwitch(w.control, trace, run);
    forall r: Request | IsControl(r.command.action) && RunOf(r.command.scope) == Some(run)
      ensures TurnedDown(h, later, r)
    {
      DeniedIsTurnedDown(h, later, r, run);
    }
  }

  lemma DeniedIsTurnedDown(h: Hasher, w: World, r: Request, run: RunScope)
    requires IsControl(r.command.action) && RunOf(r.command.scope) == Some(run) && Locked(w.control, run)
    requires Execute(w.control, r).1 == Ok(Denied(r.command.action)) && forall m :: !Unlocked(w.control, run, m)
    ensures TurnedDown(h, w, r)
  {
    hide Execute, Persist, NewEvents, Halts, Unlocked;
    GateGuardsRuntime(w.control, r);
  }

  lemma RolledBackHere(h: Hasher, w: World, f: Failure, last: Text, walks: Walks)
    requires WorldInv(h, w) && walks.List(w.ws.files) && ManualRollback(w, f, last, walks).1.Ok?
    ensures var rolledBack := After(h, w, RecoverNow(f, RollbackTo(last), walks));
            && IsSegment(last)
            && HoldsTarget(rolledBack.ws, rolledBack.host, CycleTarget(CycleScope(f.Run(), last)))
            && (last == f.cycle.cycleId ==> rolledBack.ws == TreeOf(w.ws.files))
  {
    hide WorldInv, ManualRollback, IsListing, HoldsTarget, Securable, Reportable, RestoresInto, TreeOf;
    WorldIsTree(h, w);
    RollbackSucceedsExactly(w, f, last, walks);
  }

  /** Roll back at any moment of any run, to an accepted cycle or to the failing one itself. The workspace then holds
      just what the cycle's stored manifest restores; and whatever happens afterwards, the rollback can be undone and
      the run stays locked, as after any restoring flow. */
  lemma RollbackIsReversibleAndLocked(h: Hasher, before: seq<WorldStep>, f: Failure, last: Text, walks: Walks,
                                      after: seq<WorldStep>)
    requires AllAllowed(h, START, before)
    requires var w := AfterAll(h, START, before);
             && walks.List(w.ws.files) && ManualRollback(w, f, last, walks).1.Ok?
             && AllAllowed(h, After(h, w, RecoverNow(f, RollbackTo(last), walks)), after)
    requires forall i :: 0 <= i < |after| ==> after[i].ControlNow? ==> !SwitchesMode(after[i].step, f.Run())
    ensures var w := AfterAll(h, START, before);
            var rolledBack := After(h, w, RecoverNow(f, RollbackTo(last), walks));
            var later := AfterAll(h, rolledBack, after);
            && IsSegment(last) && IsSegment(FullSnapshotId(f.incidentId))
            && HoldsTarget(rolledBack.ws, rolledBack.host, CycleTarget(CycleScope(f.Run(), last)))
            && (last == f.cycle.cycleId ==> rolledBack.ws == TreeOf(w.ws.files))
            && UndoneBy(later.ws, f.CycleSnapshot(), later.host, w.ws.files)
            && UndoneBy(later.ws, f.FullSnapshot(), later.host, w.ws.files)
            && (forall r: Request :: IsControl(r.command.action) && RunOf(r.command.scope) == Some(f.Run())
                  ==> TurnedDown(h, later, r))
  {
    hide WorldInv, AfterAll, AllAllowed, After, ManualRollback, IsListing, UndoneBy, TurnedDown, OnlyGrows, HoldsTarget,
         TreeOf;
    StartIsSound(h);
    EveryRunIsSound(h, START, before);
    RolledBackHere(h, AfterAll(h, START, before), f, last, walks);
    RecoveryIsReversibleAndLocked(h, before, f, RollbackTo(last), walks, after);
  }

  /** After any completed flow, at any later moment, no flow of an incident of the run that goes by the same snapshot id
      can complete - a repetition included. It leaves the workspace, the report and the record as they were, and the
      failing cycle stored if nothing of it was. */
  lemma CollidingIncidentFails(h: Hasher, before: seq<WorldStep>, f: Failure, flow: Flow, walks: Walks,
                               after: seq<WorldStep>, g: Failure, other: Flow, again: Walks)
    requires AllAllowed(h, START, before)
    requires var w := AfterAll(h, START, before);
             && walks.List(w.ws.files) && Recover(w, f, flow, walks).1.Ok?
             && AllAllowed(h, After(h, w, RecoverNow(f, flow, walks)), after)
             && again.List(AfterAll(h, After(h, w, RecoverNow(f, flow, walks)), after).ws.files)
    requires g.Run() == f.Run() && FullSnapshotId(g.incidentId) == FullSnapshotId(f.incidentId)
    requires IsSegment(g.incidentId)
    ensures var w := AfterAll(h, After(h, AfterAll(h, START, before), RecoverNow(f, flow, walks)), after);
            var (w', r) := Recover(w, g, other, again);
            && r.Err? && w'.ws == w.ws
            && (g.Run() in w.control.sessions && Uncaptured(w.host, g.CycleSnapshot(), w.ws.files) ==>
                  Recoverable(w'.host, g.CycleSnapshot(), w.ws.files))
            && (forall a :: a in {Incident(g.Run(), g.incidentId), IncidentReport(g.Run(), g.incidentId)} ==>
                  (a.Root() in w'.host.files <==> a.Root() in w.host.files))
  {
    hide WorldInv, AfterAll, AllAllowed, Recover, IsListing, Recoverable, OnlyGrows, Uncaptured;
    StartIsSound(h);
    EveryRunIsSound(h, START, before);
    var w := AfterAll(h, START, before);
    var w1 := After(h, w, RecoverNow(f, flow, walks));
    WorldIsTree(h, w);
    WorldStepSound(h, w, RecoverNow(f, flow, walks));
    EveryRunIsSound(h, w1, after);
    var w2 := AfterAll(h, w1, after);
    WorldIsTree(h, w2);
    CompletedIsSecured(h, w, f, flow, walks);
    StillStored(w1.host, w2.host, f.FullSnapshot(), w.ws.files);
    TakenSnapshotStopsFlow(w2, g, other, again);
  }

  lemma StillStored(t: HostTree, t': HostTree, target: SnapshotTarget, F: map<Path, Bytes>)
    requires OnlyGrows(t, t') && Recoverable(t, target, F)
    ensures target.Manifest().Root() in t'.files
  {
  }

  /** Where a completed flow leaves the view of its run's session. */
  function LeftAt(f: Failure, flow: Flow, v: View): View {
    match flow
    case RollbackTo(last) => View(Some(OBSERVATION_ONLY), Some("active"), Some(last), None)
    case RestoreFrom(_) => View(Some(OBSERVATION_ONLY), Some("active"), None, Some(FullSnapshotId(f.incidentId)))
    case BranchInto(_) => v.(lifecycle := Some("paused"))
  }

  /** A completed flow moves an explained session past its ledger, unless the session already was where the flow puts
      it: rolled back or restored just so, or paused. */
  lemma FlowLeavesLedgerBehind(w: World, f: Failure, flow: Flow, walks: Walks)
    requires walks.Within(w.ws.files) && Recover(w, f, flow, walks).1.Ok? && Explained(w.control, f.Run())
    ensures f.Run() in w.control.sessions
    ensures var v, c := ViewOf(w.control.sessions[f.Run()]), Recover(w, f, flow, walks).0.control;
            && f.Run() in c.sessions && ViewOf(c.sessions[f.Run()]) == LeftAt(f, flow, v)
            && (Explained(c, f.Run()) <==> LeftAt(f, flow, v) == v)
  {
    hide Secure, RestoreAndReport, Recover, Replay, FullSnapshotId, CaptureFailure, DirectCalls;
    var run, c := f.Run(), w.control;
    CompletedIsCalled(w, f, flow, walks);
    var c1 := Next(c, Direct(run, R.ToPaused));
    if !flow.BranchInto? {
      var t := if flow.RollbackTo? then R.ToCycle(flow.lastAccepted) else R.ToSnapshot(FullSnapshotId(f.incidentId));
      assert Next(c1, Direct(run, t)).sessions[run] == R.After(R.After(c.sessions[run], R.ToPaused), t);
    } else {
      assert c1.sessions[run] == R.After(c.sessions[run], R.ToPaused);
    }
  }

  /** The direct calls of a completed flow, and nothing else, have moved the control plane. */
  lemma CompletedIsCalled(w: World, f: Failure, flow: Flow, walks: Walks)
    requires walks.Within(w.ws.files) && Recover(w, f, flow, walks).1.Ok?
    ensures f.Run() in w.control.sessions && FullSnapshotId(f.incidentId) != ""
    ensures var c1 := Next(w.control, Direct(f.Run(), R.ToPaused));
            Recover(w, f, flow, walks).0.control
            == match flow
               case RollbackTo(last) => Next(c1, Direct(f.Run(), R.ToCycle(last)))
               case RestoreFrom(_) => Next(c1, Direct(f.Run(), R.ToSnapshot(FullSnapshotId(f.incidentId))))
               case BranchInto(_) => c1
  {
    hide Secure, Recover, Next, DirectCalls, FullSnapshotId, CaptureFailure;
    SecureKeepsWorkspace(w, f, walks);
    EveryFlowIsContained(w, f, flow, walks);
    if Secure(w, f, walks).1.Err? {
      UnsecuredEnds(w, f, flow, walks);
    } else {
      SecureStages(w, f, walks);
      CaptureFailureIds(w.host, f, walks, w.ws.files);
      var run, c := f.Run(), w.control;
      var s := Secure(w, f, walks).1.value;
      match flow {
        case RollbackTo(last) => CallsEndWith(w, f, flow, walks, R.ToCycle(last));
        case RestoreFrom(_) => CallsEndWith(w, f, flow, walks, R.ToSnapshot(s.fullSnapshot.snapshotId));
        case BranchInto(_) =>
          assert Calls(w, f, flow, walks) == [Direct(run, R.ToPaused)];
          assert RunAll(c, [Direct(run, R.ToPaused)]) == RunAll(Next(c, Direct(run, R.ToPaused)), []);
      }
    }
  }

  /* ---- from nothing ---- */

  /** From nothing: register a run, let the agent produce a good workspace, capture it as an accepted cycle, let the
      agent go wrong, and roll back. It works the first time, whatever the two workspaces hold, unless the agent has
      made a directory of a good file. The run's ledger, empty before and after, then no longer gives its session. */
  lemma FirstRollbackSucceeds(h: Hasher, registration: R.Registration, good: WorkspaceTree, bad: WorkspaceTree,
                              last: Segment, names: seq<Path>, f: Failure, walks: Walks)
    requires good.WellFormed() && bad.WellFormed()
    requires IsListing(names, good.files.Keys, ByPosix) && walks.List(bad.files)
    requires f.Run() == registration.run && f.cycle.cycleId != last && IsSegment(f.incidentId)
    ensures var w := AfterAll(h, START,
                              Prologue(registration, good, bad, CycleTarget(CycleScope(f.Run(), last)), names));
            w.ws == bad && walks.Within(w.ws.files) && Explained(w.control, f.Run()) &&
            var (w', r) := ManualRollback(w, f, last, walks);
            && (r.Ok? <==> bad.dirs !! good.files.Keys)
            && (r.Ok? ==>
                  && w'.ws == TreeOf(good.files) && BothRecoverable(w'.host, f, bad.files)
                  && Locked(w'.control, f.Run()) && !Explained(w'.control, f.Run()))
  {
    hide Capture, ManualRollback, Recoverable, Securable, Reportable, BothRecoverable, TreeOf, Locked, IsListing,
         Holdable, Next, Explained;
    var source := CycleTarget(CycleScope(f.Run(), last));
    PrologueState(h, registration, good, bad, source, names);
    PrologueIsReady(registration, good, bad, source, names, f);
    var w := AfterAll(h, START, Prologue(registration, good, bad, source, names));
    ManualRollbackExact(w, f, last, walks, good.files);
    if ManualRollback(w, f, last, walks).1.Ok? {
      FlowLeavesLedgerBehind(w, f, RollbackTo(last), walks);
      FreshView(registration);
    }
  }

  lemma FreshView(registration: R.Registration)
    ensures ViewOf(R.FreshSession(registration)).targetCycle == None
  {
  }

  /** The same, restoring any one snapshot of the good workspace: the runtime is told its id exactly when that is what
      the failing snapshot is called. */
  lemma FirstRestoreReportsExactly(h: Hasher, registration: R.Registration, good: WorkspaceTree, bad: WorkspaceTree,
                                   source: SnapshotTarget, names: seq<Path>, f: Failure, walks: Walks)
    requires good.WellFormed() && bad.WellFormed()
    requires IsListing(names, good.files.Keys, ByPosix) && walks.List(bad.files)
    requires f.Run() == registration.run && IsSegment(f.incidentId)
    requires source.Files() !in Captures(f) && source.Manifest() !in Captures(f)
    ensures var w := AfterAll(h, START, Prologue(registration, good, bad, source, names));
            w.ws == bad && walks.Within(w.ws.files) &&
            var (w', r) := KillAndRestore(w, f, source.Manifest().Root(), walks);
            && (r.Ok? <==> bad.dirs !! good.files.Keys)
            && (r.Ok? ==>
                  && w'.ws == TreeOf(good.files)
                  && r.value.runtimeReceipt.Some?
                  && (r.value.runtimeReceipt.value.snapshot == Some(source.Id())
                      <==> source.Id() == FullSnapshotId(f.incidentId)))
  {
    hide Capture, KillAndRestore, Recoverable, Securable, Reportable, BothRecoverable, TreeOf, Locked, IsListing,
         Holdable, Next, FullSnapshotId;
    PrologueState(h, registration, good, bad, source, names);
    PrologueIsReady(registration, good, bad, source, names, f);
    var w := AfterAll(h, START, Prologue(registration, good, bad, source, names));
    KillAndRestoreExact(w, f, source, walks, good.files);
  }

  /** An accepted cycle can be called what the failing snapshot is called: then the two ids agree. */
  lemma RestoredIdCanBeReported(h: Hasher, registration: R.Registration, ws: WorkspaceTree, names: seq<Path>,
                                f: Failure, walks: Walks)
    requires ws.WellFormed() && IsListing(names, ws.files.Keys, ByPosix) && walks.List(ws.files)
    requires f.Run() == registration.run && IsSegment(f.incidentId) && f.cycle.cycleId != FullSnapshotId(f.incidentId)
    ensures IsSegment(FullSnapshotId(f.incidentId)) &&
            var source := CycleTarget(CycleScope(f.Run(), FullSnapshotId(f.incidentId)));
            var w := AfterAll(h, START, Prologue(registration, ws, ws, source, names));
            walks.Within(w.ws.files) &&
            var r := KillAndRestore(w, f, source.Manifest().Root(), walks).1;
            r.Ok? && r.value.runtimeReceipt.Some? && r.value.runtimeReceipt.value.snapshot == Some(source.Id())
  {
    hide KillAndRestore, AfterAll, IsListing, FullSnapshotId;
    FullSnapshotIdIsSegment(f.incidentId);
    FirstRestoreReportsExactly(h, registration, ws, ws, CycleTarget(CycleScope(f.Run(), FullSnapshotId(f.incidentId))),
                               names, f, walks);
  }

  /** The half-failed restore, from nothing: a workspace with one file is captured, the agent puts a directory in its
      place, and restoring the snapshot deletes what the directory holds and fails. */
  lemma FirstRestoreClash(h: Hasher, registration: R.Registration, target: SnapshotTarget, mine: Bytes, theirs: Bytes)
    ensures var good, bad := Tree(map[["a"] := theirs], {}), Tree(map[["a", "b"] := mine], {["a"]});
            var steps := Prologue(registration, good, bad, target, [["a"]]);
            && AllAllowed(h, START, steps)
            && After(h, AfterAll(h, START, steps), RestoreNow(target.Manifest().Root())).ws == Tree(map[], {["a"]})
            && Restore(AfterAll(h, START, steps).ws, target.Manifest().Root(), AfterAll(h, START, steps).host).1
               == Err(IsADirectory)
  {
    hide Capture, Next, Restore, Represents, SourcesInside, Effect, Uncaptured, ContentAt;
    var good: WorkspaceTree := Tree(map[["a"] := theirs], {});
    var bad: WorkspaceTree := Tree(map[["a", "b"] := mine], {["a"]});
    var t0: HostTree, names := Tree(map[], {}), [["a"]];
    assert IsListing(names, good.files.Keys, ByPosix);
    ClashingTrees(mine, theirs);
    HoldableFiles(good);
    PrologueState(h, registration, good, bad, target, names);
    PrologueAllowed(h, registration, good, bad, target, names);
    NothingTaken(target, good.files);
    CaptureExact(t0, target, names, good.files);
    RestoreClash(target.Manifest().Root(), Capture(t0, target, names, good.files).0, mine, theirs);
  }

  lemma ClashingTrees(mine: Bytes, theirs: Bytes)
    ensures (Tree<Bytes>.Tree(map[["a"] := theirs], {})).WellFormed()
    ensures (Tree<Bytes>.Tree(map[["a", "b"] := mine], {["a"]})).WellFormed()
  {
    var a: Path, b: Path := ["a"], ["a", "b"];
    assert |a| == 1 && |b| == 2;
    forall q | Above(q, b) ensures q == a { assert |q| == 1 && q[0] == b[0]; }
  }

  function Prologue(registration: R.Registration, good: WorkspaceTree, bad: WorkspaceTree, source: SnapshotTarget,
                    names: seq<Path>): seq<WorldStep>
  {
    [ControlNow(RegisterRun(registration)), Edit(good), CaptureNow(source, names), Edit(bad)]
  }

  lemma ListingInside(names: seq<Path>, files: map<Path, Bytes>)
    requires IsListing(names, files.Keys, ByPosix)
    ensures forall n :: n in names ==> n in files
  {
  }

  lemma RegisteredFirst(h: Hasher, registration: R.Registration)
    ensures After(h, START, ControlNow(RegisterRun(registration)))
            == World(Next(EMPTY, RegisterRun(registration)), Tree(map[], {}), Tree(map[], {}))
    ensures var c := Next(EMPTY, RegisterRun(registration));
            && registration.run in c.sessions && c.sessions[registration.run] == R.FreshSession(registration)
            && Explained(c, registration.run)
  {
  }

  lemma PrologueState(h: Hasher, registration: R.Registration, good: WorkspaceTree, bad: WorkspaceTree,
                      source: SnapshotTarget, names: seq<Path>)
    requires IsListing(names, good.files.Keys, ByPosix)
    ensures forall n :: n in names ==> n in good.files
    ensures AfterAll(h, START, Prologue(registration, good, bad, source, names))
            == World(Next(EMPTY, RegisterRun(registration)), Capture(Tree(map[], {}), source, names, good.files).0, bad)
    ensures var c := Next(EMPTY, RegisterRun(registration));
            && registration.run in c.sessions && c.sessions[registration.run] == R.FreshSession(registration)
            && Explained(c, registration.run)
  {
    hide Capture, Next, Persist, IsListing, Explained;
    ListingInside(names, good.files);
    var steps := Prologue(registration, good, bad, source, names);
    var w1 := After(h, START, steps[0]);
    RegisteredFirst(h, registration);
    var w2 := After(h, w1, steps[1]);
    var w3 := After(h, w2, steps[2]);
    assert steps[1..][1..][1..] == [steps[3]];
    assert AfterAll(h, w3, [steps[3]]) == After(h, w3, steps[3]);
    assert AfterAll(h, START, steps) == AfterAll(h, w1, steps[1..]) == AfterAll(h, w2, steps[1..][1..]);
    assert AfterAll(h, w2, steps[1..][1..]) == AfterAll(h, w3, [steps[3]]);
  }

  lemma PrologueAllowed(h: Hasher, registration: R.Registration, good: WorkspaceTree, bad: WorkspaceTree,
                        source: SnapshotTarget, names: seq<Path>)
    requires good.WellFormed() && bad.WellFormed() && IsListing(names, good.files.Keys, ByPosix)
    ensures AllAllowed(h, START, Prologue(registration, good, bad, source, names))
  {
    hide Capture, Next, Persist, IsListing, ApplyStep;
    var steps := Prologue(registration, good, bad, source, names);
    var w1 := After(h, START, steps[0]);
    var w2 := After(h, w1, steps[1]);
    var w3 := After(h, w2, steps[2]);
    assert steps[1..][1..][1..] == [steps[3]] && [steps[3]][1..] == [];
    assert AllAllowed(h, w3, [steps[3]]);
    assert AllAllowed(h, w2, steps[1..][1..]);
    assert AllAllowed(h, w1, steps[1..]);
  }

  /** One snapshot on the host, and nothing in the way of any other. */
  lemma PrologueIsReady(registration: R.Registration, good: WorkspaceTree, bad: WorkspaceTree, source: SnapshotTarget,
                        names: seq<Path>, f: Failure)
    requires good.WellFormed() && bad.WellFormed() && IsListing(names, good.files.Keys, ByPosix)
             && IsSegment(f.incidentId)
    requires forall n :: n in names ==> n in good.files
    requires source.Files() !in Captures(f) && source.Manifest() !in Captures(f)
    ensures var host := Capture(Tree(map[], {}), source, names, good.files).0;
            && host.WellFormed() && Recoverable(host, source, good.files) && Holdable(good.files) && !IsOwn(f, source)
            && Securable(host, f, bad.files) && Reportable(host, f)
  {
    hide Capture, Effect, Recoverable, Reportable, IsListing, Holdable, Uncaptured, ContentAt;
    var t0: HostTree := Tree(map[], {});
    var t1 := Capture(t0, source, names, good.files).0;
    HoldableFiles(good);
    HoldableFiles(bad);
    FullSnapshotIdIsSegment(f.incidentId);
    NothingTaken(source, good.files);
    NothingTaken(f.CycleSnapshot(), bad.files);
    NothingTaken(f.FullSnapshot(), bad.files);
    var arts := {source.Files(), source.Manifest()};
    CaptureExact(t0, source, names, good.files);
    UncapturedFrame(t0, t1, arts, f.CycleSnapshot(), bad.files);
    UncapturedFrame(t0, t1, arts, f.FullSnapshot(), bad.files);
    ReportableFrame(t0, t1, arts, f);
    assert Reportable(t0, f) by { NothingReported(f); }
  }

  lemma NothingTaken(target: SnapshotTarget, files: map<Path, Bytes>)
    requires Holdable(files)
    ensures Uncaptured(Tree(map[], {}), target, files)
  {
    RootParts(target.Files());
    RootParts(target.Manifest());
    forall n | n in files ensures target.Files().Root() + n != [] { }
  }

  lemma NothingReported(f: Failure)
    requires IsSegment(f.incidentId)
    ensures Reportable(Tree(map[], {}), f)
  {
    RootParts(IncidentReport(f.Run(), f.incidentId));
    RootParts(Incident(f.Run(), f.incidentId));
  }
}
