/** The storage operations, on any host tree at all: whatever is stored and however branches are named, each of them
    only grows the tree, and what the services themselves wrote keeps its meaning. */
module HostSteps {
  import opened Prelude
  import opened FileTree
  import opened StoragePaths
  import opened AuditChain
  import opened Records
  import opened HostFilesystem
  import opened StorageLayout
  import opened Workspaces
  import opened Snapshots
  import opened Branches
  import opened Ledger
  import opened LogCapture
  import opened Exports
  import opened Evidence

  datatype HostStep =
    | CaptureStep(target: SnapshotTarget, names: seq<Path>, files: map<Path, Bytes>)
    | AuditStep(event: AuditEvent)
    | ManifestStep(manifest: RunStartManifest)
    | LinkStep(link: CycleAuditLink)
    | LogStep(run: RunScope, id: nat, entries: seq<LogEntryInput>)
    | ExportStep(run: RunScope, exportId: Segment, sandboxPath: Path, payload: Bytes)
    | ReportStep(document: IncidentDocument)
    | IncidentStep(document: IncidentDocument)
    | BranchStep(run: RunScope, name: string, cycle: CycleScope, refs: BranchRefs)

  /** One storage operation; a refused one may still have written part of its files. */
  function ApplyStep(h: Hasher, t: HostTree, s: HostStep): HostTree {
    match s
    case CaptureStep(target, names, files) =>
      if forall n :: n in names ==> n in files then Capture(t, target, names, files).0 else t
    case AuditStep(event) => AppendEntry(h, t, event).0
    case ManifestStep(m) => CreateRunManifest(t, m).0
    case LinkStep(link) => LinkCycle(t, link).0
    case LogStep(run, id, entries) => AppendEntries(t, run, id, entries).0
    case ExportStep(run, id, path, payload) => ExportBytes(t, run, id, path, payload).0
    case ReportStep(d) => WriteFile(t, IncidentReport(d.cycle.run, d.incidentId).Root(), [ReportDoc(d)], false).0
    case IncidentStep(d) => WriteFile(t, Incident(d.cycle.run, d.incidentId).Root(), [IncidentDoc(d)], false).0
    case BranchStep(run, name, cycle, refs) => WriteBranch(t, run, name, BranchDoc(name, cycle, refs)).0
  }

  /** A capture lists the files of a workspace, in order. */
  ghost predicate Proper(s: HostStep) {
    s.CaptureStep? ==> Holdable(s.files) && IsListing(s.names, s.files.Keys, ByPosix)
  }

  /** A proper capture, and a branch name that keeps to its directory. */
  ghost predicate Legit(s: HostStep) {
    Proper(s) && (s.BranchStep? ==> Confined(s.run, s.name))
  }

  /** The artifacts a step may touch. */
  function Touched(s: HostStep): set<Artifact> {
    match s
    case CaptureStep(target, _, _) => {target.Files(), target.Manifest()}
    case AuditStep(event) => {AuditLog(event.run)}
    case ManifestStep(m) => {RunManifest(m.run)}
    case LinkStep(link) => {CycleLink(link.cycle.run, link.cycle.cycleId)}
    case LogStep(run, _, _) => {LogMetadata(run), LogBundle(run)}
    case ExportStep(run, id, _, _) => {ExportItem(run, id), ExportManifest(run)}
    case ReportStep(d) => {IncidentReport(d.cycle.run, d.incidentId)}
    case IncidentStep(d) => {Incident(d.cycle.run, d.incidentId)}
    case BranchStep(run, _, _, _) => {BranchEvidence(run)}
  }

  /** Whether a step may write the file at p. */
  ghost predicate MayWrite(s: HostStep, p: Path) {
    if s.BranchStep? then BranchFile(s.run, s.name) == Some(p)
    else exists a :: a in Touched(s) && (p == a.Root() || a.Owns(p))
  }

  ghost function Places(s: HostStep): iset<Path> {
    iset p | MayWrite(s, p)
  }

  /* ---- every step only grows the tree ---- */

  lemma {:induction false} CaptureFilesGrow(t: HostTree, dir: Path, names: seq<Path>, files: map<Path, Bytes>,
                                            places: iset<Path>)
    requires t.WellFormed() && (forall n :: n in names ==> n in files) && forall n :: n in names ==> dir + n in places
    ensures var t' := CaptureFiles(t, dir, names, files).0; t'.WellFormed() && GrowsWithin(t, t', places)
    decreases |names|
  {
    hide WriteFile, GrowsWithin;
    if names == [] {
      GrowthReflexive(t, places);
    } else {
      WriteGrows(t, dir + names[0], [Blob(files[names[0]])], places);
      var (t1, e) := WriteFile(t, dir + names[0], [Blob(files[names[0]])], false);
      if e.None? {
        CaptureFilesGrow(t1, dir, names[1..], files, places);
        GrowthTransitive(t, t1, CaptureFiles(t1, dir, names[1..], files).0, places);
      }
    }
  }

  lemma CaptureGrows(t: HostTree, target: SnapshotTarget, names: seq<Path>, files: map<Path, Bytes>, places: iset<Path>)
    requires t.WellFormed() && forall n :: n in names ==> n in files
    requires target.Manifest().Root() in places && forall n :: n in names ==> target.Files().Root() + n in places
    ensures var t' := Capture(t, target, names, files).0; t'.WellFormed() && GrowsWithin(t, t', places)
  {
    hide WriteFile, CaptureFiles, GrowsWithin;
    var dir := target.Files().Root();
    CaptureFilesGrow(t, dir, names, files, places);
    var (t1, e) := CaptureFiles(t, dir, names, files);
    if e.None? {
      var doc := [SnapshotDoc(target.Document(EntriesFor(dir, names, files)))];
      WriteGrows(t1, target.Manifest().Root(), doc, places);
      GrowthTransitive(t, t1, WriteFile(t1, target.Manifest().Root(), doc, false).0, places);
    }
  }

  lemma BundleGrows(t: HostTree, run: RunScope, id: nat, createdAt: int, places: iset<Path>)
    requires t.WellFormed() && MetadataPath(run) in places
    ensures var t' := EnsureBundle(t, run, id, createdAt).0; t'.WellFormed() && GrowsWithin(t, t', places)
  {
    hide WriteFile, GrowsWithin;
    GrowthReflexive(t, places);
    WriteGrows(t, MetadataPath(run), [BundleDoc(BundleMetadata(id, run, createdAt, BundlePath(run)))], places);
  }

  lemma LogGrows(t: HostTree, run: RunScope, id: nat, entries: seq<LogEntryInput>, places: iset<Path>)
    requires t.WellFormed() && MetadataPath(run) in places && BundlePath(run) in places
    ensures var t' := AppendEntries(t, run, id, entries).0; t'.WellFormed() && GrowsWithin(t, t', places)
  {
    hide EnsureBundle, AppendLines, GrowsWithin;
    GrowthReflexive(t, places);
    if entries != [] {
      BundleGrows(t, run, id, entries[0].at, places);
      var (t1, bundle) := EnsureBundle(t, run, id, entries[0].at);
      var first := NextSequence(ContentAt(t1, BundlePath(run)));
      if bundle.Ok? && first.Ok? {
        assert LogBundle(run).IsJsonl();
        AppendGrows(t1, BundlePath(run), Numbered(entries, first.value), places);
        GrowthTransitive(t, t1, AppendLines(t1, BundlePath(run), Numbered(entries, first.value)).0, places);
      }
    }
  }

  lemma ExportGrows(t: HostTree, run: RunScope, id: Segment, sandboxPath: Path, payload: Bytes, places: iset<Path>)
    requires t.WellFormed() && ManifestPath(run) in places
    requires sandboxPath != [] ==> ItemFile(run, id, sandboxPath) in places
    ensures var t' := ExportBytes(t, run, id, sandboxPath, payload).0; t'.WellFormed() && GrowsWithin(t, t', places)
  {
    hide WriteFile, AppendLines, EnsureDirectory, GrowsWithin;
    GrowthReflexive(t, places);
    if IsExportTarget(sandboxPath) {
      var dir, p, line := ItemDir(run, id), ItemFile(run, id, sandboxPath), [ExportLine(id, sandboxPath)];
      EnsureDirectoryGrows(t, dir, places);
      var t1 := EnsureDirectory(t, dir).0;
      WriteGrows(t1, p, [Blob(payload)], places);
      var t2 := WriteFile(t1, p, [Blob(payload)], false).0;
      assert ExportManifest(run).IsJsonl();
      AppendGrows(t2, ManifestPath(run), line, places);
      GrowthTransitive(t, t1, t2, places);
      GrowthTransitive(t, t2, AppendLines(t2, ManifestPath(run), line).0, places);
    }
  }

  lemma AuditGrows(h: Hasher, t: HostTree, event: AuditEvent, places: iset<Path>)
    requires t.WellFormed() && LedgerFile(event.run) in places
    ensures var t' := AppendEntry(h, t, event).0; t'.WellFormed() && GrowsWithin(t, t', places)
  {
    hide AppendLines, GrowsWithin;
    GrowthReflexive(t, places);
    var es := LedgerEntries(ContentAt(t, LedgerFile(event.run)));
    if es.Some? {
      assert AuditLog(event.run).IsJsonl();
      AppendGrows(t, LedgerFile(event.run), [LedgerLine(NextEntry(h, es.value, event))], places);
    }
  }

  lemma LinkGrows(t: HostTree, link: CycleAuditLink, places: iset<Path>)
    requires t.WellFormed() && LinkFile(link.cycle) in places
    ensures var t' := LinkCycle(t, link).0; t'.WellFormed() && GrowsWithin(t, t', places)
  {
    hide WriteFile, GrowsWithin;
    GrowthReflexive(t, places);
    WriteGrows(t, LinkFile(link.cycle), [CycleLinkDoc(link)], places);
  }

  lemma PlaceOfRoot(s: HostStep, a: Artifact)
    requires !s.BranchStep? && a in Touched(s)
    ensures a.Root() in Places(s)
  {
  }

  lemma PlaceInside(s: HostStep, a: Artifact, name: Path)
    requires !s.BranchStep? && a in Touched(s) && a.IsDirectory()
    ensures a.Root() + name in Places(s)
  {
    if name == [] { assert a.Root() + name == a.Root(); } else { DirOwns(a, name); }
  }

  /** Any step on any stored tree, branch names that climb included, changes no file but by extending a JSON-lines
      file, removes nothing, and writes nothing outside its own places. */
  lemma StepGrows(h: Hasher, t: HostTree, s: HostStep)
    requires t.WellFormed()
    ensures ApplyStep(h, t, s).WellFormed() && GrowsWithin(t, ApplyStep(h, t, s), Places(s))
  {
    hide GrowsWithin, Places, WriteFile, Capture, AppendEntry, AppendEntries, ExportBytes, LinkCycle, WriteBranch;
    var at := Places(s);
    GrowthReflexive(t, at);
    match s {
      case CaptureStep(target, names, files) =>
        if forall n :: n in names ==> n in files {
          PlaceOfRoot(s, target.Manifest());
          forall n | n in names ensures target.Files().Root() + n in at { PlaceInside(s, target.Files(), n); }
          CaptureGrows(t, target, names, files, at);
        }
      case AuditStep(event) =>
        PlaceOfRoot(s, AuditLog(event.run));
        AuditGrows(h, t, event, at);
      case ManifestStep(m) =>
        PlaceOfRoot(s, RunManifest(m.run));
        WriteGrows(t, ManifestFile(m.run), [RunManifestDoc(m)], at);
      case LinkStep(link) =>
        PlaceOfRoot(s, CycleLink(link.cycle.run, link.cycle.cycleId));
        LinkGrows(t, link, at);
      case LogStep(run, id, entries) =>
        PlaceOfRoot(s, LogMetadata(run));
        PlaceOfRoot(s, LogBundle(run));
        LogGrows(t, run, id, entries, at);
      case ExportStep(run, id, path, payload) =>
        PlaceOfRoot(s, ExportManifest(run));
        if path != [] { PlaceInside(s, ExportItem(run, id), [path[|path| - 1]]); }
        ExportGrows(t, run, id, path, payload, at);
      case ReportStep(d) =>
        PlaceOfRoot(s, IncidentReport(d.cycle.run, d.incidentId));
        WriteGrows(t, IncidentReport(d.cycle.run, d.incidentId).Root(), [ReportDoc(d)], at);
      case IncidentStep(d) =>
        PlaceOfRoot(s, Incident(d.cycle.run, d.incidentId));
        WriteGrows(t, Incident(d.cycle.run, d.incidentId).Root(), [IncidentDoc(d)], at);
      case BranchStep(run, name, cycle, refs) =>
        BranchPlace(s);
        WriteBranchGrows(t, run, name, BranchDoc(name, cycle, refs), at);
    }
  }

  lemma BranchPlace(s: HostStep)
    requires s.BranchStep?
    ensures BranchFile(s.run, s.name).Some? ==> BranchFile(s.run, s.name).value in Places(s)
  {
  }

  /** A file of an artifact a step does not touch is as it was, unless it is the evidence of a branch. */
  lemma StepLeaves(h: Hasher, t: HostTree, s: HostStep, b: Artifact, p: Path)
    requires t.WellFormed() && b.Owns(p) && (s.BranchStep? || b !in Touched(s))
    requires s.BranchStep? ==> BranchFile(s.run, s.name) != Some(p)
    ensures p in ApplyStep(h, t, s).files <==> p in t.files
    ensures ContentAt(ApplyStep(h, t, s), p) == ContentAt(t, p)
  {
    hide ApplyStep, OnlyGrows, Touched, Places, BranchFile, ContentAt;
    StepGrows(h, t, s);
    NotItsPlace(s, b, p);
  }

  lemma NotItsPlace(s: HostStep, b: Artifact, p: Path)
    requires b.Owns(p) && (s.BranchStep? || b !in Touched(s))
    requires s.BranchStep? ==> BranchFile(s.run, s.name) != Some(p)
    ensures p !in Places(s)
  {
    hide Touched, BranchFile;
    if !s.BranchStep? && MayWrite(s, p) {
      var a :| a in Touched(s) && (p == a.Root() || a.Owns(p));
      RootInside(a, b, p);
    }
  }

  lemma RootInside(a: Artifact, b: Artifact, p: Path)
    requires b.Owns(p) && (p == a.Root() || a.Owns(p))
    ensures a == b
  {
    if a.Owns(p) {
      OwnershipExclusive(a, b, p, p);
    } else if b.IsDirectory() {
      RootsIncomparable(b, a);
    } else {
      RootsIncomparable(a, b);
    }
  }

  /** In particular every JSON-lines file is extended by its own service alone. */
  lemma StepLeavesJsonl(h: Hasher, t: HostTree, s: HostStep, b: Artifact)
    requires t.WellFormed() && b.IsJsonl() && b !in Touched(s)
    ensures ContentAt(ApplyStep(h, t, s), b.Root()) == ContentAt(t, b.Root())
  {
    hide ApplyStep, ContentAt;
    if s.BranchStep? { BranchFileIsNotJsonl(s.run, s.name, b); }
    StepLeaves(h, t, s, b, b.Root());
  }

  /* ---- where a step may create ---- */

  lemma LogEffect(t: HostTree, run: RunScope, id: nat, entries: seq<LogEntryInput>)
    requires t.WellFormed()
    ensures Effect(t, AppendEntries(t, run, id, entries).0, {LogMetadata(run), LogBundle(run)})
  {
    hide AppendLines, WriteFile, Effect, NextSequence, Numbered;
    var arts := {LogMetadata(run), LogBundle(run)};
    EffectReflexive(t, arts);
    if entries != [] {
      var bundle := BundleDoc(BundleMetadata(id, run, entries[0].at, BundlePath(run)));
      DocumentStored(t, LogMetadata(run), bundle);
      EffectWiden(t, WriteFile(t, MetadataPath(run), [bundle], false).0, {LogMetadata(run)}, arts);
      var (t1, r) := EnsureBundle(t, run, id, entries[0].at);
      assert t1.WellFormed() && Effect(t, t1, arts);
      var first := NextSequence(ContentAt(t1, BundlePath(run)));
      if r.Ok? && first.Ok? {
        var lines := Numbered(entries, first.value);
        AppendEffect(t1, LogBundle(run), lines);
        EffectWiden(t1, AppendLines(t1, BundlePath(run), lines).0, {LogBundle(run)}, arts);
        EffectTransitive(t, t1, AppendLines(t1, BundlePath(run), lines).0, arts);
      }
    }
  }

  lemma EnsureDirectoryEffect(t: HostTree, a: Artifact)
    requires t.WellFormed() && a.IsDirectory()
    ensures Effect(t, EnsureDirectory(t, a.Root()).0, {a})
  {
    var t' := EnsureDirectory(t, a.Root()).0;
    forall d | d in t'.dirs && d !in t.dirs ensures PlacedAmong({a}, d) { assert PlacedBy(a, d); }
  }

  lemma ExportEffect(t: HostTree, run: RunScope, id: Segment, sandboxPath: Path, payload: Bytes)
    requires t.WellFormed()
    ensures Effect(t, ExportBytes(t, run, id, sandboxPath, payload).0, {ExportItem(run, id), ExportManifest(run)})
  {
    hide WriteFile, AppendLines, EnsureDirectory, Effect;
    var item, arts := ExportItem(run, id), {ExportItem(run, id), ExportManifest(run)};
    EffectReflexive(t, arts);
    if IsExportTarget(sandboxPath) {
      var p, line := ItemFile(run, id, sandboxPath), [ExportLine(id, sandboxPath)];
      EnsureDirectoryIsAppendOnly(t, item.Root());
      EnsureDirectoryEffect(t, item);
      var t1 := EnsureDirectory(t, item.Root()).0;
      ItemFileOwned(run, id, sandboxPath);
      WriteIsAppendOnly(t1, p, [Blob(payload)], false);
      WriteEffect(t1, item, p, [Blob(payload)]);
      var t2 := WriteFile(t1, p, [Blob(payload)], false).0;
      AppendEffect(t2, ExportManifest(run), line);
      var t3 := AppendLines(t2, ManifestPath(run), line).0;
      EffectWiden(t, t1, {item}, arts);
      EffectWiden(t1, t2, {item}, arts);
      EffectWiden(t2, t3, {ExportManifest(run)}, arts);
      EffectTransitive(t, t1, t2, arts);
      EffectTransitive(t, t2, t3, arts);
    }
  }

  lemma AuditEffect(h: Hasher, t: HostTree, event: AuditEvent)
    requires t.WellFormed()
    ensures Effect(t, AppendEntry(h, t, event).0, {AuditLog(event.run)})
  {
    hide Effect, AppendLines;
    EffectReflexive(t, {AuditLog(event.run)});
    var es := StoredLedger(t, event.run);
    if es.Ok? { AppendEffect(t, AuditLog(event.run), [LedgerLine(NextEntry(h, es.value, event))]); }
  }

  /** On any stored tree, every storage step whose branch name keeps to its directory, successful or refused, is
      append-only and creates files and directories in its own artifacts alone. */
  lemma StepEffect(h: Hasher, t: HostTree, s: HostStep)
    requires t.WellFormed() && Legit(s)
    ensures Effect(t, ApplyStep(h, t, s), Touched(s))
  {
    hide Effect, Capture, AppendEntry, AppendEntries, ExportBytes, WriteFile, WriteBranch, Confined, Recoverable,
         Uncaptured, ContentAt;
    EffectReflexive(t, Touched(s));
    match s {
      case CaptureStep(target, names, files) => CaptureExact(t, target, names, files);
      case AuditStep(event) => AuditEffect(h, t, event);
      case ManifestStep(m) => DocumentStored(t, RunManifest(m.run), RunManifestDoc(m));
      case LinkStep(link) => DocumentStored(t, CycleLink(link.cycle.run, link.cycle.cycleId), CycleLinkDoc(link));
      case LogStep(run, id, entries) => LogEffect(t, run, id, entries);
      case ExportStep(run, id, path, payload) => ExportEffect(t, run, id, path, payload);
      case ReportStep(d) => DocumentStored(t, IncidentReport(d.cycle.run, d.incidentId), ReportDoc(d));
      case IncidentStep(d) => DocumentStored(t, Incident(d.cycle.run, d.incidentId), IncidentDoc(d));
      case BranchStep(run, name, cycle, refs) =>
        ConfinedEffect(t, run, name, BranchDoc(name, cycle, refs));
    }
  }

  /** Whatever stays in artifacts gets in no ledger's way. */
  lemma EffectNeverBlocks(t: HostTree, t': HostTree, arts: set<Artifact>, run: RunScope)
    requires Effect(t, t', arts) && LedgerBlocked(t', run)
    ensures LedgerBlocked(t, run)
  {
    var b, p := AuditLog(run), LedgerFile(run);
    RootParts(b);
    if p in t'.dirs && p !in t.dirs {
      var a :| a in arts && PlacedBy(a, p);
      if Above(p, a.Root()) { RootsIncomparable(b, a); } else { RootsIncomparable(a, b); }
    }
    forall q | q in t'.files && q !in t.files ensures !Above(q, p) {
      var a :| a in arts && a.Owns(q);
      if Above(q, p) { OwnershipExclusive(a, b, q, p); }
    }
  }

  /** A branch whose name passes through the run's ledger. */
  predicate PassesThrough(s: HostStep, run: RunScope) {
    s.BranchStep? && LedgerFile(run) in Visited([], BranchDirs(s.run, s.name))
  }

  /** Nothing else ever blocks a ledger. */
  lemma StepBlocksByName(h: Hasher, t: HostTree, s: HostStep, run: RunScope)
    requires t.WellFormed() && Proper(s) && LedgerBlocked(ApplyStep(h, t, s), run) && !PassesThrough(s, run)
    ensures LedgerBlocked(t, run)
  {
    hide Proper, Effect, Visited, BranchDirs, WriteBranch;
    if s.BranchStep? {
      hide LedgerBlocked;
      BranchBlocksByName(t, s.run, s.name, BranchDoc(s.name, s.cycle, s.refs), run);
    } else {
      hide ApplyStep;
      StepEffect(h, t, s);
      EffectNeverBlocks(t, ApplyStep(h, t, s), Touched(s), run);
    }
  }

  lemma BranchBlocksByName(t: HostTree, run: RunScope, name: string, doc: Record, other: RunScope)
    requires t.WellFormed() && LedgerBlocked(WriteBranch(t, run, name, doc).0, other)
    requires LedgerFile(other) !in Visited([], BranchDirs(run, name))
    ensures LedgerBlocked(t, other)
  {
    hide WriteBranch, Visited, BranchDirs, BranchFile;
    WriteBranchExact(t, run, name, doc);
    RootParts(AuditLog(other));
    if BranchFile(run, name).Some? { BranchFileIsNotAboveLedger(run, name, other); }
  }

  /* ---- what the services wrote keeps its meaning ---- */

  ghost predicate LedgerSound(h: Hasher, t: HostTree, run: RunScope) {
    var es := LedgerEntries(ContentAt(t, LedgerFile(run)));
    es.Some? && Verified(h, es.value)
  }

  ghost predicate LogsSound(t: HostTree, run: RunScope) {
    Sequenced(ContentAt(t, BundlePath(run)))
  }

  /** Every readable cycle link has its run's readable manifest. */
  ghost predicate LinksReadable(t: HostTree, run: RunScope) {
    forall id: Segment :: ReadCycleLink(t, CycleScope(run, id)).Ok? ==> ReadRunManifest(t, run).Ok?
  }

  /** The export manifest lists each id once, and each listed item has its directory and its payload. */
  ghost predicate ExportsListed(t: HostTree, run: RunScope) {
    var c := ContentAt(t, ManifestPath(run));
    && (forall i :: 0 <= i < |c| ==>
          c[i].ExportLine? && HoldsPayload(t, run, c[i]) && Exported(t, run, c[i].artifactId))
    && (forall i, j :: 0 <= i < j < |c| ==> c[i].artifactId != c[j].artifactId)
  }

  ghost predicate HoldsPayload(t: HostTree, run: RunScope, line: Record)
    requires line.ExportLine?
  {
    line.sandboxPath != [] && ReadBlob(t, ItemFile(run, line.artifactId, line.sandboxPath)).Some?
  }

  /** Whatever snapshot can be read restores the files of some workspace. */
  ghost predicate SnapshotsSound(t: HostTree) {
    forall target: SnapshotTarget :: ReconstructRestore(t, target.Manifest().Root()).Ok? ==> Restorable(t, target)
  }

  ghost predicate Restorable(t: HostTree, target: SnapshotTarget) {
    exists F: map<Path, Bytes> :: Holdable(F) && Recoverable(t, target, F)
  }

  ghost predicate HostSound(h: Hasher, t: HostTree) {
    && t.WellFormed() && SnapshotsSound(t)
    && forall run :: LedgerSound(h, t, run) && LogsSound(t, run) && LinksReadable(t, run) && ExportsListed(t, run)
  }

  lemma EmptyIsSound(h: Hasher)
    ensures HostSound(h, Tree(map[], {}))
  {
    hide LedgerSound, LogsSound, LinksReadable, ExportsListed;
    forall run
      ensures LedgerSound(h, Tree(map[], {}), run) && LogsSound(Tree(map[], {}), run)
      ensures LinksReadable(Tree(map[], {}), run) && ExportsListed(Tree(map[], {}), run)
    {
      EmptyRunIsSound(h, run);
    }
  }

  lemma EmptyRunIsSound(h: Hasher, run: RunScope)
    ensures LedgerSound(h, Tree(map[], {}), run) && LogsSound(Tree(map[], {}), run)
    ensures LinksReadable(Tree(map[], {}), run) && ExportsListed(Tree(map[], {}), run)
  {
    forall id: Segment ensures LinkFile(CycleScope(run, id)) != [] { RootParts(CycleLink(run, id)); }
  }

  /** One more entry, or none; a verified ledger stays verified. */
  lemma AppendEntryKeeps(h: Hasher, t: HostTree, event: AuditEvent)
    requires t.WellFormed()
    ensures var t' := AppendEntry(h, t, event).0;
            && (LedgerSound(h, t, event.run) ==> LedgerSound(h, t', event.run))
            && LedgerExtended(h, t, t', event.run)
  {
    hide AppendLines;
    var c := ContentAt(t, LedgerFile(event.run));
    var es := StoredLedger(t, event.run);
    if es.Ok? {
      var line := [LedgerLine(NextEntry(h, es.value, event))];
      AppendIsAppendOnly(t, LedgerFile(event.run), line);
      assert c + [] == c;
      assert LedgerEntries(c + line).value == es.value + [NextEntry(h, es.value, event)];
      if Verified(h, es.value) { AppendKeepsVerified(h, es.value, event); }
      if c != [] { NonemptyIsFile(AppendEntry(h, t, event).0, event.run); }
    }
  }

  /** A ledger with an entry is a file. */
  lemma NonemptyIsFile(t: HostTree, run: RunScope)
    requires t.WellFormed() && ContentAt(t, LedgerFile(run)) != []
    ensures !t.IsDir(LedgerFile(run))
  {
  }

  lemma StepKeepsLedger(h: Hasher, t: HostTree, s: HostStep, run: RunScope)
    requires t.WellFormed()
    ensures LedgerSound(h, t, run) ==> LedgerSound(h, ApplyStep(h, t, s), run)
    ensures LedgerExtended(h, t, ApplyStep(h, t, s), run)
  {
    hide AppendEntry, ApplyStep, ContentAt, Verified, LedgerEntries;
    if s.AuditStep? && s.event.run == run {
      AuditIsStep(h, t, s.event);
      AppendEntryKeeps(h, t, s.event);
    } else {
      StepLeavesJsonl(h, t, s, AuditLog(run));
      StepGrows(h, t, s);
      SameLedgerExtended(h, t, ApplyStep(h, t, s), run);
    }
  }

  lemma SameLedgerExtended(h: Hasher, t: HostTree, t': HostTree, run: RunScope)
    requires t'.WellFormed() && ContentAt(t', LedgerFile(run)) == ContentAt(t, LedgerFile(run))
    ensures LedgerExtended(h, t, t', run)
  {
  }

  lemma AuditIsStep(h: Hasher, t: HostTree, event: AuditEvent)
    ensures ApplyStep(h, t, AuditStep(event)) == AppendEntry(h, t, event).0
  {
  }

  lemma LogIsStep(h: Hasher, t: HostTree, run: RunScope, id: nat, entries: seq<LogEntryInput>)
    ensures ApplyStep(h, t, LogStep(run, id, entries)) == AppendEntries(t, run, id, entries).0
  {
  }

  lemma ExportIsStep(h: Hasher, t: HostTree, run: RunScope, id: Segment, sandboxPath: Path, payload: Bytes)
    ensures ApplyStep(h, t, ExportStep(run, id, sandboxPath, payload))
            == ExportBytes(t, run, id, sandboxPath, payload).0
  {
  }

  /** An append to a numbered log that succeeds continues the numbers; one that fails leaves the log as it was. */
  lemma AppendEntriesKeeps(t: HostTree, run: RunScope, id: nat, entries: seq<LogEntryInput>)
    requires t.WellFormed() && LogsSound(t, run)
    ensures var (t', r) := AppendEntries(t, run, id, entries);
            var before, after := ContentAt(t, BundlePath(run)), ContentAt(t', BundlePath(run));
            && LogsSound(t', run)
            && (r.Err? ==> after == before)
            && (r.Ok? ==> entries != [] && r.value.firstSequence == |before| + 1 && r.value.lastSequence == |after|
                          && after == before + Numbered(entries, |before| + 1))
  {
    hide EnsureBundle, AppendLines, NextSequence, ContentAt, Sequenced, Numbered;
    if entries != [] {
      var (t1, bundle) := EnsureBundle(t, run, id, entries[0].at);
      BundleLeavesLog(t, run, id, entries[0].at);
      var before := ContentAt(t, BundlePath(run));
      NextOfSequenced(before);
      StillSequenced(before, entries);
      if bundle.Ok? {
        var lines := Numbered(entries, |before| + 1);
        AppendIsAppendOnly(t1, BundlePath(run), lines);
        assert before + [] == before;
        var (t2, e2) := AppendLines(t1, BundlePath(run), lines);
        if e2.None? {
          assert ContentAt(t2, BundlePath(run)) == before + lines;
          assert |ContentAt(t2, BundlePath(run))| == |before| + |entries|;
          assert AppendEntries(t, run, id, entries).0 == t2;
          assert AppendEntries(t, run, id, entries).1.value.lastSequence == |before| + |entries|;
        }
      }
    }
  }

  lemma BundleLeavesLog(t: HostTree, run: RunScope, id: nat, createdAt: int)
    requires t.WellFormed()
    ensures var t' := EnsureBundle(t, run, id, createdAt).0;
            t'.WellFormed() && ContentAt(t', BundlePath(run)) == ContentAt(t, BundlePath(run))
  {
    hide EnsureBundle, ContentAt;
    BundleGrows(t, run, id, createdAt, iset{MetadataPath(run)});
    if MetadataPath(run) == BundlePath(run) { RootsIncomparable(LogMetadata(run), LogBundle(run)); }
  }

  lemma StepKeepsLogs(h: Hasher, t: HostTree, s: HostStep, run: RunScope)
    requires t.WellFormed() && LogsSound(t, run)
    ensures LogsSound(ApplyStep(h, t, s), run)
  {
    hide AppendEntries, ApplyStep, ContentAt, Sequenced;
    if s.LogStep? && s.run == run {
      LogIsStep(h, t, run, s.id, s.entries);
      AppendEntriesKeeps(t, run, s.id, s.entries);
    } else {
      StepLeavesJsonl(h, t, s, LogBundle(run));
    }
  }

  /** A readable run manifest or cycle link reads the same after any growth. */
  lemma ReadableStays(t: HostTree, t': HostTree, cycle: CycleScope)
    requires OnlyGrows(t, t')
    ensures ReadRunManifest(t, cycle.run).Ok? ==> ReadRunManifest(t', cycle.run) == ReadRunManifest(t, cycle.run)
    ensures ReadCycleLink(t, cycle).Ok? ==> ReadCycleLink(t', cycle) == ReadCycleLink(t, cycle)
  {
    if ReadRunManifest(t, cycle.run).Ok? { FrozenByGrowth(t, t', RunManifest(cycle.run), ManifestFile(cycle.run)); }
    if ReadCycleLink(t, cycle).Ok? {
      FrozenByGrowth(t, t', CycleLink(cycle.run, cycle.cycleId), LinkFile(cycle));
    }
  }

  /** A link becomes readable only by being linked, or it was readable before. */
  lemma NewlyReadable(h: Hasher, t: HostTree, s: HostStep, cycle: CycleScope)
    requires t.WellFormed() && ReadCycleLink(ApplyStep(h, t, s), cycle).Ok?
    ensures ReadCycleLink(t, cycle).Ok? || (s.LinkStep? && s.link.cycle == cycle)
  {
    var b, p := CycleLink(cycle.run, cycle.cycleId), LinkFile(cycle);
    if s.BranchStep? && BranchFile(s.run, s.name) == Some(p) {
      WriteBranchExact(t, s.run, s.name, BranchDoc(s.name, s.cycle, s.refs));
    } else if !(s.LinkStep? && s.link.cycle == cycle) {
      StepLeaves(h, t, s, b, p);
    }
  }

  lemma StepKeepsLinks(h: Hasher, t: HostTree, s: HostStep, run: RunScope)
    requires t.WellFormed() && LinksReadable(t, run)
    ensures LinksReadable(ApplyStep(h, t, s), run)
  {
    hide ApplyStep, ReadCycleLink, ReadRunManifest, OnlyGrows;
    StepGrows(h, t, s);
    forall id: Segment | ReadCycleLink(ApplyStep(h, t, s), CycleScope(run, id)).Ok?
      ensures ReadRunManifest(ApplyStep(h, t, s), run).Ok?
    {
      var cycle := CycleScope(run, id);
      NewlyReadable(h, t, s, cycle);
      ReadableStays(t, ApplyStep(h, t, s), cycle);
      if s.LinkStep? && s.link.cycle == cycle && ReadRunManifest(t, run).Err? {
        RefusedLink(h, t, s.link);
      }
    }
  }

  lemma RefusedLink(h: Hasher, t: HostTree, link: CycleAuditLink)
    requires ReadRunManifest(t, link.cycle.run).Err?
    ensures ApplyStep(h, t, LinkStep(link)) == t
  {
  }

  lemma PayloadKept(t: HostTree, t': HostTree, run: RunScope, line: Record)
    requires OnlyGrows(t, t') && line.ExportLine? && HoldsPayload(t, run, line)
    ensures HoldsPayload(t', run, line)
    ensures var p := ItemFile(run, line.artifactId, line.sandboxPath); ReadBlob(t', p) == ReadBlob(t, p)
  {
    var p := ItemFile(run, line.artifactId, line.sandboxPath);
    ItemFileOwned(run, line.artifactId, line.sandboxPath);
    FrozenByGrowth(t, t', ExportItem(run, line.artifactId), p);
  }

  /** What an export leaves, whatever was stored: one more line and its payload, or the manifest as it was. */
  lemma ExportKeeps(t: HostTree, run: RunScope, id: Segment, sandboxPath: Path, payload: Bytes)
    requires t.WellFormed()
    ensures var (t', r) := ExportBytes(t, run, id, sandboxPath, payload);
            var before, after := ContentAt(t, ManifestPath(run)), ContentAt(t', ManifestPath(run));
            && (r.Err? ==> after == before)
            && (r.Ok? ==>
                  && IsExportTarget(sandboxPath) && !Exported(t, run, id) && Exported(t', run, id)
                  && after == before + [ExportLine(id, sandboxPath)]
                  && ContentAt(t', ItemFile(run, id, sandboxPath)) == [Blob(payload)])
  {
    hide WriteFile, AppendLines, EnsureDirectory, ContentAt;
    if IsExportTarget(sandboxPath) && !t.Exists(ItemDir(run, id)) {
      var dir, p, m := ItemDir(run, id), ItemFile(run, id, sandboxPath), ManifestPath(run);
      var line := [ExportLine(id, sandboxPath)];
      ItemFileOwned(run, id, sandboxPath);
      if p == m { OwnershipExclusive(ExportItem(run, id), ExportManifest(run), p, m); }
      EnsureDirectoryIsAppendOnly(t, dir);
      var (t1, e1) := EnsureDirectory(t, dir);
      SameFilesSameContent(t, t1, m);
      WriteIsAppendOnly(t1, p, [Blob(payload)], false);
      var (t2, e2) := WriteFile(t1, p, [Blob(payload)], false);
      assert ContentAt(t2, m) == ContentAt(t, m);
      WrittenContent(t1, p, [Blob(payload)]);
      AppendIsAppendOnly(t2, m, line);
      var (t3, e3) := AppendLines(t2, m, line);
      if e1.None? && e2.None? && e3.None? {
        assert ContentAt(t3, m) == ContentAt(t, m) + line;
        assert ExportBytes(t, run, id, sandboxPath, payload).0 == t3;
      }
      assert ContentAt(t, m) + [] == ContentAt(t, m);
    }
  }

  lemma SameFilesSameContent(t: HostTree, t': HostTree, p: Path)
    requires t'.files == t.files
    ensures ContentAt(t', p) == ContentAt(t, p)
  {
  }

  lemma WrittenContent(t: HostTree, p: Path, content: Content)
    requires t.WellFormed()
    ensures WriteFile(t, p, content, false).1.None? ==> ContentAt(WriteFile(t, p, content, false).0, p) == content
  {
  }

  lemma ListedStay(t: HostTree, t': HostTree, run: RunScope)
    requires OnlyGrows(t, t') && ExportsListed(t, run)
    ensures var c := ContentAt(t, ManifestPath(run));
            forall i :: 0 <= i < |c| ==> HoldsPayload(t', run, c[i]) && Exported(t', run, c[i].artifactId)
  {
    hide OnlyGrows, ContentAt, HoldsPayload, Exported;
    var c := ContentAt(t, ManifestPath(run));
    forall i | 0 <= i < |c| ensures HoldsPayload(t', run, c[i]) && Exported(t', run, c[i].artifactId) {
      PayloadKept(t, t', run, c[i]);
      ExportedStays(t, t', run, c[i].artifactId);
    }
  }

  lemma OneMoreListed(t: HostTree, t': HostTree, run: RunScope, line: Record)
    requires OnlyGrows(t, t') && ExportsListed(t, run)
    requires line.ExportLine? && !Exported(t, run, line.artifactId)
    requires HoldsPayload(t', run, line) && Exported(t', run, line.artifactId)
    requires ContentAt(t', ManifestPath(run)) == ContentAt(t, ManifestPath(run)) + [line]
    ensures ExportsListed(t', run)
  {
    hide OnlyGrows, ContentAt, HoldsPayload, Exported;
    ListedStay(t, t', run);
  }

  lemma NoMoreListed(t: HostTree, t': HostTree, run: RunScope)
    requires OnlyGrows(t, t') && ExportsListed(t, run)
    requires ContentAt(t', ManifestPath(run)) == ContentAt(t, ManifestPath(run))
    ensures ExportsListed(t', run)
  {
    hide OnlyGrows, ContentAt, HoldsPayload, Exported;
    ListedStay(t, t', run);
  }

  lemma StepKeepsExports(h: Hasher, t: HostTree, s: HostStep, run: RunScope)
    requires t.WellFormed() && ExportsListed(t, run)
    ensures ExportsListed(ApplyStep(h, t, s), run)
  {
    hide ApplyStep, ExportBytes, OnlyGrows, ContentAt, HoldsPayload, Exported, ExportsListed, ItemFile;
    StepGrows(h, t, s);
    var t' := ApplyStep(h, t, s);
    if s.ExportStep? && s.run == run {
      ExportIsStep(h, t, run, s.exportId, s.sandboxPath, s.payload);
      ExportKeeps(t, run, s.exportId, s.sandboxPath, s.payload);
      if ExportBytes(t, run, s.exportId, s.sandboxPath, s.payload).1.Ok? {
        PayloadStored(t', run, s.exportId, s.sandboxPath, s.payload);
        OneMoreListed(t, t', run, ExportLine(s.exportId, s.sandboxPath));
      } else {
        NoMoreListed(t, t', run);
      }
    } else {
      StepLeavesJsonl(h, t, s, ExportManifest(run));
      NoMoreListed(t, t', run);
    }
  }

  lemma PayloadStored(t: HostTree, run: RunScope, id: Segment, sandboxPath: Path, payload: Bytes)
    requires IsExportTarget(sandboxPath) && ContentAt(t, ItemFile(run, id, sandboxPath)) == [Blob(payload)]
    ensures HoldsPayload(t, run, ExportLine(id, sandboxPath))
  {
  }

  lemma ExportedStays(t: HostTree, t': HostTree, run: RunScope, id: Segment)
    requires OnlyGrows(t, t') && Exported(t, run, id)
    ensures Exported(t', run, id)
  {
  }

  /** A snapshot becomes readable only by being captured; or it was readable before. */
  lemma NewlyCaptured(h: Hasher, t: HostTree, s: HostStep, target: SnapshotTarget)
    requires t.WellFormed() && ReconstructRestore(ApplyStep(h, t, s), target.Manifest().Root()).Ok?
    ensures ReconstructRestore(t, target.Manifest().Root()).Ok?
            || (s.CaptureStep? && s.target.Manifest() == target.Manifest())
  {
    hide ApplyStep, BranchFile;
    var b, p := target.Manifest(), target.Manifest().Root();
    if s.BranchStep? && BranchFile(s.run, s.name) == Some(p) {
      EvidenceIsNoManifest(h, t, s, p);
    } else if s.BranchStep? || b !in Touched(s) {
      StepLeaves(h, t, s, b, p);
    }
  }

  lemma EvidenceIsNoManifest(h: Hasher, t: HostTree, s: HostStep, p: Path)
    requires t.WellFormed() && s.BranchStep? && BranchFile(s.run, s.name) == Some(p)
    requires ReconstructRestore(ApplyStep(h, t, s), p).Ok?
    ensures ReconstructRestore(t, p).Ok?
  {
    hide WriteBranch, Visited, BranchDirs, BranchFile, BranchFree;
    WriteBranchExact(t, s.run, s.name, BranchDoc(s.name, s.cycle, s.refs));
  }

  lemma CaptureIsStep(h: Hasher, t: HostTree, target: SnapshotTarget, names: seq<Path>, files: map<Path, Bytes>)
    requires forall n :: n in names ==> n in files
    ensures ApplyStep(h, t, CaptureStep(target, names, files)) == Capture(t, target, names, files).0
  {
  }

  lemma SameManifestSameSnapshot(t: HostTree, a: SnapshotTarget, b: SnapshotTarget, F: map<Path, Bytes>)
    requires a.Manifest() == b.Manifest() && Recoverable(t, a, F)
    ensures Recoverable(t, b, F)
  {
  }

  lemma CaptureKeepsSnapshot(h: Hasher, t: HostTree, s: HostStep, target: SnapshotTarget)
    requires t.WellFormed() && s.CaptureStep? && Proper(s) && s.target.Manifest() == target.Manifest()
    requires ReconstructRestore(t, target.Manifest().Root()).Err?
    requires ReconstructRestore(ApplyStep(h, t, s), target.Manifest().Root()).Ok?
    ensures Restorable(ApplyStep(h, t, s), target)
  {
    hide Capture, Effect, Uncaptured, Recoverable, Holdable, ApplyStep;
    CaptureIsStep(h, t, s.target, s.names, s.files);
    CaptureExact(t, s.target, s.names, s.files);
    if Capture(t, s.target, s.names, s.files).1.Ok? {
      SameManifestSameSnapshot(ApplyStep(h, t, s), s.target, target, s.files);
    }
  }

  lemma StepKeepsSnapshots(h: Hasher, t: HostTree, s: HostStep)
    requires t.WellFormed() && SnapshotsSound(t) && Proper(s)
    ensures SnapshotsSound(ApplyStep(h, t, s))
  {
    hide ApplyStep, OnlyGrows, Recoverable, Holdable, ReconstructRestore, Proper;
    StepGrows(h, t, s);
    var t' := ApplyStep(h, t, s);
    forall target: SnapshotTarget | ReconstructRestore(t', target.Manifest().Root()).Ok?
      ensures Restorable(t', target)
    {
      NewlyCaptured(h, t, s, target);
      if ReconstructRestore(t, target.Manifest().Root()).Ok? {
        var F: map<Path, Bytes> :| Holdable(F) && Recoverable(t, target, F);
        RecoverableKept(t, t', target, F);
      } else {
        CaptureKeepsSnapshot(h, t, s, target);
      }
    }
  }

  lemma StepKeepsSound(h: Hasher, t: HostTree, s: HostStep)
    requires HostSound(h, t) && Proper(s)
    ensures HostSound(h, ApplyStep(h, t, s))
  {
    hide LedgerSound, LogsSound, LinksReadable, ExportsListed, ApplyStep, GrowsWithin, SnapshotsSound, Proper;
    StepGrows(h, t, s);
    StepKeepsSnapshots(h, t, s);
    forall run
      ensures LedgerSound(h, ApplyStep(h, t, s), run) && LogsSound(ApplyStep(h, t, s), run)
      ensures LinksReadable(ApplyStep(h, t, s), run) && ExportsListed(ApplyStep(h, t, s), run)
    {
      StepKeepsLedger(h, t, s, run);
      StepKeepsLogs(h, t, s, run);
      StepKeepsLinks(h, t, s, run);
      StepKeepsExports(h, t, s, run);
    }
  }
}
