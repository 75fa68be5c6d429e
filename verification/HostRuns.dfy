/** Whole runs of the host storage: every service writing to one tree, in any order. */
module HostRuns {
  import opened Prelude
  import opened FileTree
  import opened StoragePaths
  import opened AuditChain
  import opened Records
  import opened HostFilesystem
  import opened StorageLayout
  import opened Workspaces
  import opened Snapshots
  import opened Branches
  import opened Ledger
  import opened LogCapture
  import opened Exports
  import opened Evidence
  import opened HostSteps

  function ApplySteps(h: Hasher, t: HostTree, steps: seq<HostStep>): HostTree
    decreases |steps|
  {
    if steps == [] then t else ApplySteps(h, ApplyStep(h, t, steps[0]), steps[1..])
  }

  ghost predicate AllProper(steps: seq<HostStep>) {
    forall i :: 0 <= i < |steps| ==> Proper(steps[i])
  }

  /* ---- whatever is stored and however branches are named ---- */

  /** Over any run on any tree, whatever fails in it, every file stays as it was or, if it is a JSON-lines file, is
      extended, and every directory stays. */
  lemma {:induction false} EveryRunOnlyGrows(h: Hasher, t: HostTree, steps: seq<HostStep>)
    requires t.WellFormed()
    ensures ApplySteps(h, t, steps).WellFormed() && OnlyGrows(t, ApplySteps(h, t, steps))
    decreases |steps|
  {
    hide OnlyGrows, ApplyStep;
    if steps == [] {
      GrowthReflexive(t, iset{});
    } else {
      var t1 := ApplyStep(h, t, steps[0]);
      StepGrows(h, t, steps[0]);
      EveryRunOnlyGrows(h, t1, steps[1..]);
      OnlyGrowsTransitive(t, t1, ApplySteps(h, t1, steps[1..]));
    }
  }

  lemma {:induction false} EveryRunKeepsSound(h: Hasher, t: HostTree, steps: seq<HostStep>)
    requires HostSound(h, t) && AllProper(steps)
    ensures HostSound(h, ApplySteps(h, t, steps))
    decreases |steps|
  {
    hide HostSound, ApplyStep, Proper;
    if steps != [] {
      StepKeepsSound(h, t, steps[0]);
      EveryRunKeepsSound(h, ApplyStep(h, t, steps[0]), steps[1..]);
    }
  }

  /** A capture once made restores, from the manifest path it returned, exactly what it captured, from any workspace
      without a clash, after any later operations - including re-captures under the same id that fail halfway, and
      branches of any name. */
  lemma SnapshotSurvives(h: Hasher, t: HostTree, target: SnapshotTarget, names: seq<Path>, files: map<Path, Bytes>,
                         later: seq<HostStep>, ws: WorkspaceTree)
    requires t.WellFormed() && Proper(CaptureStep(target, names, files)) && Capture(t, target, names, files).1.Ok?
    requires ws.WellFormed()
    ensures var (t', captured) := Capture(t, target, names, files);
            var (w, r) := Restore(ws, captured.value.manifestPath, ApplySteps(h, t', later));
            && (r.Ok? <==> ws.dirs !! files.Keys)
            && (r.Ok? ==> w == TreeOf(files))
  {
    hide SourcesInside, EntriesFor;
    CaptureReturns(t, target, names, files);
    hide Effect, Capture, Restore, ApplySteps, Recoverable, Holdable, OnlyGrows, Uncaptured, TreeOf;
    CaptureExact(t, target, names, files);
    var t1 := Capture(t, target, names, files).0;
    EveryRunOnlyGrows(h, t1, later);
    RecoverableRestores(t1, ApplySteps(h, t1, later), target, files, ws);
  }

  /** Whatever a workspace held, capturing it and restoring it later - over any storage activity, into any
      clash-free workspace - gives that workspace's files back and only their directories. */
  lemma CaptureRestoreRoundTrip(h: Hasher, t: HostTree, target: SnapshotTarget, names: seq<Path>,
                                captured: WorkspaceTree, later: seq<HostStep>, ws: WorkspaceTree)
    requires t.WellFormed() && captured.WellFormed() && IsListing(names, captured.files.Keys, ByPosix)
    requires Capture(t, target, names, captured.files).1.Ok?
    requires ws.WellFormed() && ws.dirs !! captured.files.Keys
    ensures var (t', r) := Capture(t, target, names, captured.files);
            var w := Restore(ws, r.value.manifestPath, ApplySteps(h, t', later)).0;
            w.files == captured.files && w.dirs <= captured.dirs
  {
    hide Capture, Restore, ApplySteps;
    FilesFormAntichain(captured);
    SnapshotSurvives(h, t, target, names, captured.files, later, ws);
  }

  /** A run keeps a verified ledger verified and only adds entries to it. */
  lemma {:induction false} RunExtendsLedger(h: Hasher, t: HostTree, steps: seq<HostStep>, run: RunScope)
    requires t.WellFormed()
    ensures LedgerExtended(h, t, ApplySteps(h, t, steps), run)
    decreases |steps|
  {
    hide ApplyStep, Verified, StoredLedger;
    if steps != [] {
      StepKeepsLedger(h, t, steps[0], run);
      StepGrows(h, t, steps[0]);
      RunExtendsLedger(h, ApplyStep(h, t, steps[0]), steps[1..], run);
    }
  }

  /** Proof evidence never decays: a lookup that succeeds succeeds with the same result after any run. */
  lemma EvidenceNeverDecays(h: Hasher, t: HostTree, steps: seq<HostStep>, cycle: CycleScope)
    requires t.WellFormed() && EvidenceComplete(h, t, cycle)
    ensures var t' := ApplySteps(h, t, steps);
            && EvidenceComplete(h, t', cycle)
            && ReadRunManifest(t', cycle.run) == ReadRunManifest(t, cycle.run)
            && ReadCycleLink(t', cycle) == ReadCycleLink(t, cycle)
  {
    hide ApplySteps, RefsVerified, OnlyGrows, LedgerExtended, ReadRunManifest;
    var t' := ApplySteps(h, t, steps);
    EveryRunOnlyGrows(h, t, steps);
    RunExtendsLedger(h, t, steps, cycle.run);
    ReadableStays(t, t', cycle);
    RefsStayVerified(h, t, t', cycle.run, ReadCycleLink(t, cycle).value.auditRefs);
    PathsKept(t, t');
  }

  lemma PathsKept(t: HostTree, t': HostTree)
    requires OnlyGrows(t, t')
    ensures forall p :: t.Exists(p) ==> t'.Exists(p)
  {
  }

  /** The window a step hands out on one run's log, if any. */
  function NewWindow(t: HostTree, s: HostStep, run: RunScope): seq<(int, int)> {
    if s.LogStep? && s.run == run && AppendEntries(t, run, s.id, s.entries).1.Ok?
    then
      var r := AppendEntries(t, run, s.id, s.entries).1.value;
      [(r.firstSequence, r.lastSequence)]
    else []
  }

  /** The windows a run of appends returns for one run's log. */
  function LogWindows(h: Hasher, t: HostTree, steps: seq<HostStep>, run: RunScope): seq<(int, int)>
    decreases |steps|
  {
    if steps == [] then []
    else NewWindow(t, steps[0], run) + LogWindows(h, ApplyStep(h, t, steps[0]), steps[1..], run)
  }

  /** The windows follow one another without gap or overlap, from just after lo up to hi. */
  ghost predicate Tiles(windows: seq<(int, int)>, lo: int, hi: int)
    decreases |windows|
  {
    if windows == [] then lo == hi
    else windows[0].0 == lo + 1 && windows[0].1 >= windows[0].0 && Tiles(windows[1..], windows[0].1, hi)
  }

  /** One step's window starts right after the stored log and reaches to its new end. */
  lemma NewWindowTiles(h: Hasher, t: HostTree, s: HostStep, run: RunScope)
    requires t.WellFormed() && LogsSound(t, run)
    ensures Tiles(NewWindow(t, s, run), |ContentAt(t, BundlePath(run))|,
                  |ContentAt(ApplyStep(h, t, s), BundlePath(run))|)
  {
    hide AppendEntries, ContentAt, LogsSound, ApplyStep, Numbered;
    if s.LogStep? && s.run == run {
      LogIsStep(h, t, run, s.id, s.entries);
      AppendEntriesKeeps(t, run, s.id, s.entries);
    } else {
      StepLeavesJsonl(h, t, s, LogBundle(run));
    }
  }

  lemma TilesAppend(a: seq<(int, int)>, b: seq<(int, int)>, lo: int, mid: int, hi: int)
    requires Tiles(a, lo, mid) && Tiles(b, mid, hi)
    ensures Tiles(a + b, lo, hi)
    decreases |a|
  {
    if a == [] {
      assert a + b == b;
    } else {
      TilesAppend(a[1..], b, a[0].1, mid, hi);
      assert (a + b)[1..] == a[1..] + b;
    }
  }

  /** Over any run the windows returned to the writers tile the stored log, in order. */
  lemma {:induction false} LogWindowsTile(h: Hasher, t: HostTree, steps: seq<HostStep>, run: RunScope)
    requires t.WellFormed() && LogsSound(t, run)
    ensures Tiles(LogWindows(h, t, steps, run), |ContentAt(t, BundlePath(run))|,
                  |ContentAt(ApplySteps(h, t, steps), BundlePath(run))|)
    decreases |steps|
  {
    hide NewWindow, ApplyStep, ContentAt, LogsSound;
    if steps != [] {
      var t1 := ApplyStep(h, t, steps[0]);
      StepKeepsLogs(h, t, steps[0], run);
      StepGrows(h, t, steps[0]);
      NewWindowTiles(h, t, steps[0], run);
      LogWindowsTile(h, t1, steps[1..], run);
      TilesAppend(NewWindow(t, steps[0], run), LogWindows(h, t1, steps[1..], run), |ContentAt(t, BundlePath(run))|,
                  |ContentAt(t1, BundlePath(run))|, |ContentAt(ApplySteps(h, t1, steps[1..]), BundlePath(run))|);
    }
  }

  /** Every append to a run's log refers to one and the same bundle. */
  lemma LogBundleIsOne(h: Hasher, t: HostTree, run: RunScope, id: nat, entries: seq<LogEntryInput>,
                       later: seq<HostStep>, otherId: nat, more: seq<LogEntryInput>)
    requires t.WellFormed() && AppendEntries(t, run, id, entries).1.Ok?
    requires AppendEntries(ApplySteps(h, AppendEntries(t, run, id, entries).0, later), run, otherId, more).1.Ok?
    ensures var (t1, first) := AppendEntries(t, run, id, entries);
            AppendEntries(ApplySteps(h, t1, later), run, otherId, more).1.value.bundleRef == first.value.bundleRef
  {
    hide AppendEntries, ApplySteps, OnlyGrows;
    var t1 := AppendEntries(t, run, id, entries).0;
    var t2 := ApplySteps(h, t1, later);
    var t3 := AppendEntries(t2, run, otherId, more).0;
    AppendReturns(t, run, id, entries);
    LogIsStep(h, t, run, id, entries);
    StepGrows(h, t, LogStep(run, id, entries));
    EveryRunOnlyGrows(h, t1, later);
    AppendReturns(t2, run, otherId, more);
    LogIsStep(h, t2, run, otherId, more);
    StepGrows(h, t2, LogStep(run, otherId, more));
    OnlyGrowsTransitive(t1, t2, t3);
    FrozenByGrowth(t1, t3, LogMetadata(run), MetadataPath(run));
  }

  /** The manifest line a step adds to a run's export manifest, if any. */
  function NewExport(t: HostTree, s: HostStep, run: RunScope): Content {
    if s.ExportStep? && s.run == run && ExportBytes(t, run, s.exportId, s.sandboxPath, s.payload).1.Ok?
    then [ExportLine(s.exportId, s.sandboxPath)]
    else []
  }

  /** The manifest lines of the exports of one run that succeed, in order. */
  function SuccessfulExports(h: Hasher, t: HostTree, steps: seq<HostStep>, run: RunScope): Content
    decreases |steps|
  {
    if steps == [] then []
    else NewExport(t, steps[0], run) + SuccessfulExports(h, ApplyStep(h, t, steps[0]), steps[1..], run)
  }

  lemma NewExportIsAppended(h: Hasher, t: HostTree, s: HostStep, run: RunScope)
    requires t.WellFormed()
    ensures ContentAt(ApplyStep(h, t, s), ManifestPath(run)) == ContentAt(t, ManifestPath(run)) + NewExport(t, s, run)
  {
    hide ExportBytes, ApplyStep, ContentAt;
    if s.ExportStep? && s.run == run {
      ExportIsStep(h, t, run, s.exportId, s.sandboxPath, s.payload);
      ExportKeeps(t, run, s.exportId, s.sandboxPath, s.payload);
    } else {
      StepLeavesJsonl(h, t, s, ExportManifest(run));
    }
  }

  /** Over any run the export manifest grows by exactly the successful exports, in their order. */
  lemma {:induction false} ExportsInOrder(h: Hasher, t: HostTree, steps: seq<HostStep>, run: RunScope)
    requires t.WellFormed()
    ensures ContentAt(ApplySteps(h, t, steps), ManifestPath(run))
            == ContentAt(t, ManifestPath(run)) + SuccessfulExports(h, t, steps, run)
    decreases |steps|
  {
    hide NewExport, ApplyStep, ContentAt;
    if steps != [] {
      var t1 := ApplyStep(h, t, steps[0]);
      StepGrows(h, t, steps[0]);
      NewExportIsAppended(h, t, steps[0], run);
      ExportsInOrder(h, t1, steps[1..], run);
    }
  }

  /** An exported payload is still there, byte for byte, after any run. */
  lemma PayloadSurvives(h: Hasher, t: HostTree, run: RunScope, id: Segment, sandboxPath: Path, payload: Bytes,
                        later: seq<HostStep>)
    requires t.WellFormed() && ExportBytes(t, run, id, sandboxPath, payload).1.Ok?
    ensures var t' := ApplySteps(h, ExportBytes(t, run, id, sandboxPath, payload).0, later);
            && ContentAt(t', ItemFile(run, id, sandboxPath)) == [Blob(payload)]
            && (forall other: Path, p: Bytes :: ExportBytes(t', run, id, other, p).1.Err?)
  {
    hide ExportBytes, ApplySteps, OnlyGrows, Exported;
    ExportKeeps(t, run, id, sandboxPath, payload);
    var t1 := ExportBytes(t, run, id, sandboxPath, payload).0;
    ExportIsStep(h, t, run, id, sandboxPath, payload);
    StepGrows(h, t, ExportStep(run, id, sandboxPath, payload));
    EveryRunOnlyGrows(h, t1, later);
    var t' := ApplySteps(h, t1, later);
    ItemFileOwned(run, id, sandboxPath);
    FrozenByGrowth(t1, t', ExportItem(run, id), ItemFile(run, id, sandboxPath));
    ExportedStays(t1, t', run, id);
    forall other: Path, p: Bytes ensures ExportBytes(t', run, id, other, p).1.Err? {
      ExportedIsRefused(t', run, id, other, p);
    }
  }

  lemma ExportedIsRefused(t: HostTree, run: RunScope, id: Segment, sandboxPath: Path, payload: Bytes)
    requires Exported(t, run, id)
    ensures ExportBytes(t, run, id, sandboxPath, payload).1.Err?
  {
  }

  /* ---- stores the services wrote, with branch names that keep to their directory ---- */

  ghost predicate AllLegit(steps: seq<HostStep>) {
    forall i :: 0 <= i < |steps| ==> Legit(steps[i])
  }

  ghost predicate Listed(c: Content, id: Segment) {
    exists i :: 0 <= i < |c| && c[i].ExportLine? && c[i].artifactId == id
  }

  /** The export manifest leaves no exported item out. */
  ghost predicate ExportsComplete(t: HostTree, run: RunScope) {
    forall id: Segment :: Exported(t, run, id) ==> Listed(ContentAt(t, ManifestPath(run)), id)
  }

  ghost predicate HostInv(h: Hasher, t: HostTree) {
    LaidOut(t) && HostSound(h, t) && forall run :: ExportsComplete(t, run)
  }

  lemma EmptyHost(h: Hasher)
    ensures HostInv(h, Tree(map[], {}))
  {
    hide LaidOut, HostSound;
    EmptyIsLaidOut();
    EmptyIsSound(h);
  }

  lemma ManifestExact(t: HostTree, m: RunStartManifest)
    requires LaidOut(t)
    ensures var (t', e) := CreateRunManifest(t, m);
            && LaidOut(t') && Effect(t, t', {RunManifest(m.run)})
            && (e.None? <==> RunManifest(m.run).Root() !in t.files)
            && (e.None? ==> ReadRunManifest(t', m.run) == Ok(m))
            && (e.Some? ==> t'.files == t.files)
  {
    hide LaidOut, Effect;
    WriteDocument(t, RunManifest(m.run), RunManifestDoc(m));
  }

  lemma LinkCycleExact(t: HostTree, link: CycleAuditLink)
    requires LaidOut(t)
    ensures var (t', e) := LinkCycle(t, link);
            && LaidOut(t') && Effect(t, t', {CycleLink(link.cycle.run, link.cycle.cycleId)})
            && (e.None? <==>
                  && RunManifest(link.cycle.run).Root() in t.files
                  && link.auditRefs != [] && 1 <= link.sequenceStart <= link.sequenceEnd
                  && CycleLink(link.cycle.run, link.cycle.cycleId).Root() !in t.files)
            && (e.None? ==> ReadCycleLink(t', link.cycle) == Ok(link))
            && (e.Some? ==> t'.files == t.files)
  {
    hide LaidOut, Effect;
    var a := CycleLink(link.cycle.run, link.cycle.cycleId);
    EffectReflexive(t, {a});
    StoredManifestReads(t, link.cycle.run);
    WriteDocument(t, a, CycleLinkDoc(link));
  }

  lemma StoredManifestReads(t: HostTree, run: RunScope)
    requires LaidOut(t)
    ensures ReadRunManifest(t, run).Ok? <==> ManifestFile(run) in t.files
  {
    var a := RunManifest(run);
    assert a.Owns(ManifestFile(run));
    if ManifestFile(run) in t.files { assert Fits(a, t.files[ManifestFile(run)]); }
  }

  /** Such a step keeps a store's layout. */
  lemma StepKeepsLayout(h: Hasher, t: HostTree, s: HostStep)
    requires LaidOut(t) && Legit(s) && (s.LogStep? ==> LogsSound(t, s.run))
    ensures LaidOut(ApplyStep(h, t, s))
  {
    hide LaidOut, Effect, Capture, AppendEntry, LinkCycle, AppendEntries, ExportBytes, WriteFile, WriteBranch, Confined,
         Holdable, Sequenced, ContentAt, Numbered, Exported, ItemFile, ReadCycleLink;
    match s {
      case CaptureStep(target, names, files) => CaptureKeepsLayout(t, target, names, files);
      case AuditStep(event) => AppendEntryKeepsLayout(h, t, event);
      case ManifestStep(m) => DocumentKeepsLayout(t, RunManifest(m.run), RunManifestDoc(m));
      case LinkStep(link) => LinkCycleExact(t, link);
      case LogStep(run, id, entries) => AppendEntriesExact(t, run, id, entries);
      case ExportStep(run, id, path, payload) => ExportExact(t, run, id, path, payload);
      case ReportStep(d) => DocumentKeepsLayout(t, IncidentReport(d.cycle.run, d.incidentId), ReportDoc(d));
      case IncidentStep(d) => DocumentKeepsLayout(t, Incident(d.cycle.run, d.incidentId), IncidentDoc(d));
      case BranchStep(run, name, cycle, refs) =>
        ConfinedKeepsLayout(t, run, name, BranchDoc(name, cycle, refs));
    }
  }

  lemma DocumentKeepsLayout(t: HostTree, a: Artifact, doc: Record)
    requires LaidOut(t) && !a.IsDirectory() && Fits(a, [doc])
    ensures LaidOut(WriteFile(t, a.Root(), [doc], false).0)
  {
    hide LaidOut, Effect, WriteFile;
    WriteDocument(t, a, doc);
  }

  lemma ListedAfter(c: Content, line: Record, id: Segment)
    requires line.ExportLine?
    ensures Listed(c, id) || line.artifactId == id ==> Listed(c + [line], id)
  {
    var c' := c + [line];
    assert c'[|c|] == line;
    if Listed(c, id) {
      var i :| 0 <= i < |c| && c[i].ExportLine? && c[i].artifactId == id;
      assert c'[i] == c[i];
    }
  }

  lemma StepKeepsExportsComplete(h: Hasher, t: HostTree, s: HostStep, run: RunScope)
    requires HostInv(h, t) && Legit(s)
    ensures ExportsComplete(ApplyStep(h, t, s), run)
  {
    hide LaidOut, Effect, HostSound, ExportBytes, ApplyStep, Listed, Exported, ContentAt, Legit;
    assert ExportsComplete(t, run);
    LaidOutIsWellFormed(t);
    StepEffect(h, t, s);
    var t', c := ApplyStep(h, t, s), ContentAt(t, ManifestPath(run));
    forall id: Segment | Exported(t', run, id) ensures Listed(ContentAt(t', ManifestPath(run)), id) {
      if s.ExportStep? && s.run == run {
        ExportIsStep(h, t, run, s.exportId, s.sandboxPath, s.payload);
        ExportExact(t, run, s.exportId, s.sandboxPath, s.payload);
        ListedAfter(c, ExportLine(s.exportId, s.sandboxPath), id);
        if id != s.exportId { SameExported(t, t', Touched(s), run, id); }
      } else {
        EffectFrame(t, t', Touched(s), ExportManifest(run), ManifestPath(run));
        SameExported(t, t', Touched(s), run, id);
      }
    }
  }

  lemma SameExported(t: HostTree, t': HostTree, arts: set<Artifact>, run: RunScope, id: Segment)
    requires Effect(t, t', arts) && ExportItem(run, id) !in arts
    ensures Exported(t', run, id) <==> Exported(t, run, id)
  {
    EffectFrameDirectory(t, t', arts, ExportItem(run, id));
  }

  lemma StepKeepsInv(h: Hasher, t: HostTree, s: HostStep)
    requires HostInv(h, t) && Legit(s)
    ensures HostInv(h, ApplyStep(h, t, s))
  {
    hide LaidOut, Effect, ExportsComplete, ApplyStep, Proper, Confined, LedgerSound, LogsSound, LinksReadable,
         ExportsListed, SnapshotsSound;
    StepKeepsLayout(h, t, s);
    StepKeepsSound(h, t, s);
    forall run ensures ExportsComplete(ApplyStep(h, t, s), run) { StepKeepsExportsComplete(h, t, s, run); }
  }

  function TouchedAll(steps: seq<HostStep>): set<Artifact>
    decreases |steps|
  {
    if steps == [] then {} else Touched(steps[0]) + TouchedAll(steps[1..])
  }

  /** As long as branch names keep to their directory, whatever is stored and whatever fails, new files appear in the
      artifacts concerned alone; and a store the services wrote keeps its layout throughout. */
  lemma {:induction false} RunIsAppendOnly(h: Hasher, t: HostTree, steps: seq<HostStep>)
    requires t.WellFormed() && AllLegit(steps)
    ensures Effect(t, ApplySteps(h, t, steps), TouchedAll(steps))
    ensures HostInv(h, t) ==> HostInv(h, ApplySteps(h, t, steps))
    decreases |steps|
  {
    hide HostInv, Effect, ApplyStep, Legit;
    if steps == [] {
      EffectReflexive(t, {});
    } else {
      var t1 := ApplyStep(h, t, steps[0]);
      var t2 := ApplySteps(h, t1, steps[1..]);
      StepGrows(h, t, steps[0]);
      StepEffect(h, t, steps[0]);
      if HostInv(h, t) { StepKeepsInv(h, t, steps[0]); }
      RunIsAppendOnly(h, t1, steps[1..]);
      EffectWiden(t, t1, Touched(steps[0]), TouchedAll(steps));
      EffectWiden(t1, t2, TouchedAll(steps[1..]), TouchedAll(steps));
      EffectTransitive(t, t1, t2, TouchedAll(steps));
    }
  }

  /** From an empty host, after any run: every ledger's entries verify, every log is numbered without gaps, every
      readable link has its manifest, every readable snapshot restores the files of some workspace, and every export
      manifest lists items that are there, once each. With names that keep to their directory it lists them all. */
  lemma ReachableHostsAreSound(h: Hasher, steps: seq<HostStep>)
    requires AllProper(steps)
    ensures HostSound(h, ApplySteps(h, Tree(map[], {}), steps))
    ensures AllLegit(steps) ==> HostInv(h, ApplySteps(h, Tree(map[], {}), steps))
  {
    hide HostSound, ApplySteps;
    EmptyHost(h);
    EveryRunKeepsSound(h, Tree(map[], {}), steps);
    if AllLegit(steps) { RunIsAppendOnly(h, Tree(map[], {}), steps); }
  }
}
