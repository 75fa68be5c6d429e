/** The layout every service respects: each host file belongs to exactly one artifact and holds
    records of that artifact's kind. */
module StorageLayout {
  import opened Prelude
  import opened FileTree
  import opened StoragePaths
  import opened Records
  import opened HostFilesystem
  import Workspaces

  /** The directory of a run in each area of the store. */
  function RunDirectory(area: string, run: RunScope): string {
    area + "/" + "projects" + "/" + run.projectId + "/" + "glassboxes" + "/" + run.glassboxId + "/"
    + "experiments" + "/" + run.experimentId + "/" + "runs" + "/" + run.runId + "/"
  }

  lemma PosixStep(front: string, part: string, rest: Path)
    requires rest != []
    ensures front + Workspaces.Posix([part] + rest) == front + part + "/" + Workspaces.Posix(rest)
  {
    assert ([part] + rest)[1..] == rest;
    var last := Workspaces.Posix(rest);
    assert front + (part + "/" + last) == front + part + "/" + last;
  }

  lemma PosixPair(front: string, a: string, b: string, rest: Path)
    requires rest != []
    ensures front + Workspaces.Posix([a, b] + rest) == front + a + "/" + b + "/" + Workspaces.Posix(rest)
  {
    hide Workspaces.Posix;
    assert [a, b] + rest == [a] + ([b] + rest);
    PosixStep(front, a, [b] + rest);
    PosixStep(front + a + "/", b, rest);
  }

  lemma PosixOfRun(area: string, run: RunScope, tail: Path)
    requires tail != []
    ensures Workspaces.Posix([area] + RunSegments(run) + tail) == RunDirectory(area, run) + Workspaces.Posix(tail)
  {
    hide Workspaces.Posix;
    var fromRun := ["runs", run.runId] + tail;
    var fromExperiment := ["experiments", run.experimentId] + fromRun;
    var fromGlassbox := ["glassboxes", run.glassboxId] + fromExperiment;
    var all := ["projects", run.projectId] + fromGlassbox;
    assert [area] + RunSegments(run) + tail == [area] + all;
    PosixStep("", area, all);
    assert "" + Workspaces.Posix([area] + all) == Workspaces.Posix([area] + all) && "" + area == area;
    PosixPair(area + "/", "projects", run.projectId, fromGlassbox);
    var front := area + "/" + "projects" + "/" + run.projectId + "/";
    PosixPair(front, "glassboxes", run.glassboxId, fromExperiment);
    front := front + "glassboxes" + "/" + run.glassboxId + "/";
    PosixPair(front, "experiments", run.experimentId, fromRun);
    PosixPair(front + "experiments" + "/" + run.experimentId + "/", "runs", run.runId, tail);
  }

  /** Where every artifact is, as a path below the state root. */
  lemma LocatorExact(a: Artifact)
    ensures Workspaces.Posix(a.Root())
            == match a
               case RunManifest(run) => RunDirectory("manifests", run) + "run-start-reproducibility.json"
               case CycleLink(run, id) => RunDirectory("evidence", run) + "cycles" + "/" + (id + "-audit-link.json")
               case CycleFiles(run, id) => RunDirectory("snapshots", run) + "cycles" + "/" + id + "/" + "files"
               case CycleManifest(run, id) =>
                 RunDirectory("snapshots", run) + "cycles" + "/" + id + "/" + "manifest.json"
               case FullFiles(run, id) => RunDirectory("snapshots", run) + "full" + "/" + id + "/" + "files"
               case FullManifest(run, id) => RunDirectory("snapshots", run) + "full" + "/" + id + "/" + "manifest.json"
               case AuditLog(run) => RunDirectory("audit", run) + "ledger.jsonl"
               case LogBundle(run) => RunDirectory("logs", run) + "brokered" + "/" + "full-log-bundle.jsonl"
               case LogMetadata(run) => RunDirectory("logs", run) + "brokered" + "/" + "full-log-bundle.json"
               case ExportManifest(run) => RunDirectory("exports", run) + "items" + "/" + "manifest.jsonl"
               case ExportItem(run, id) => RunDirectory("exports", run) + "items" + "/" + id
               case Incident(run, id) => RunDirectory("incidents", run) + (id + ".json")
               case IncidentReport(run, id) => RunDirectory("incidents", run) + id + "/" + "report.json"
               case BranchEvidence(run) => RunDirectory("mirrors", run) + "git" + "/" + "branches"
  {
    hide RunDirectory, Workspaces.Posix, RunSegments;
    var front, tail := RunDirectory(a.Area(), a.run), a.Tail();
    PosixOfRun(a.Area(), a.run, tail);
    if |tail| == 3 {
      assert tail == [tail[0], tail[1]] + [tail[2]];
      PosixPair(front, tail[0], tail[1], [tail[2]]);
      PosixOne(tail[2]);
    } else if |tail| == 2 {
      assert tail == [tail[0]] + [tail[1]];
      PosixStep(front, tail[0], [tail[1]]);
      PosixOne(tail[1]);
    } else {
      assert tail == [tail[0]];
      PosixOne(tail[0]);
    }
  }

  lemma PosixOne(part: string)
    ensures Workspaces.Posix([part]) == part
  {
  }

  /** The records an artifact's file may hold. */
  predicate Fits(a: Artifact, c: Content) {
    if a.AuditLog? then forall r | r in c :: r.LedgerLine?
    else if a.LogBundle? then forall r | r in c :: r.LogLine?
    else if a.ExportManifest? then forall r | r in c :: r.ExportLine?
    else
      && |c| == 1
      && (a.RunManifest? ==> c[0].RunManifestDoc? && c[0].manifest.run == a.run)
      && (a.CycleLink? ==> c[0].CycleLinkDoc? && c[0].link.cycle == CycleScope(a.run, a.id))
      && (a.CycleManifest? || a.FullManifest? ==> c[0].SnapshotDoc?)
      && (a.CycleFiles? || a.FullFiles? || a.ExportItem? ==> c[0].Blob?)
      && (a.LogMetadata? ==> c[0].BundleDoc?)
      && (a.Incident? ==> c[0].IncidentDoc?)
      && (a.IncidentReport? ==> c[0].ReportDoc?)
      && (a.BranchEvidence? ==> c[0].BranchDoc?)
  }

  ghost predicate Owned(p: Path) {
    exists a: Artifact :: a.Owns(p)
  }

  /** d lies above some artifact's root, or inside a directory artifact. */
  ghost predicate PlacedBy(a: Artifact, d: Path) {
    Above(d, a.Root()) || (a.IsDirectory() && (d == a.Root() || Above(a.Root(), d)))
  }

  ghost predicate LaidOut(t: HostTree) {
    && t.WellFormed()
    && AllPlaced(t)
    && Typed(t)
  }

  ghost predicate AllPlaced(t: HostTree) {
    && (forall p :: p in t.files ==> Owned(p))
    && (forall d :: d in t.dirs ==> exists a :: PlacedBy(a, d))
  }

  ghost predicate Typed(t: HostTree) {
    forall a: Artifact, p :: p in t.files && a.Owns(p) ==> Fits(a, t.files[p])
  }

  lemma LaidOutIsWellFormed(t: HostTree)
    requires LaidOut(t)
    ensures t.WellFormed()
  {
  }

  lemma EmptyIsLaidOut()
    ensures LaidOut(Tree(map[], {}))
  {
  }

  /** The one way a laid-out store can refuse a single-file artifact is that it is already there. */
  lemma FileArtifactsAreNeverBlocked(t: HostTree, a: Artifact)
    requires LaidOut(t) && !a.IsDirectory()
    ensures !t.BlockedAbove(a.Root()) && !t.IsDir(a.Root())
  {
    var p := a.Root();
    RootParts(a);
    forall q | q in t.files && Above(q, p) ensures false {
      var b: Artifact :| b.Owns(q);
      OwnershipExclusive(b, a, q, p);
    }
    if p in t.dirs {
      var b :| PlacedBy(b, p);
      if Above(p, b.Root()) { RootsIncomparable(a, b); } else { RootsIncomparable(b, a); }
    }
  }

  /** The ancestors of an artifact's file are placed. */
  lemma AncestorsPlaced(a: Artifact, p: Path, d: Path)
    requires a.Owns(p) && Above(d, p)
    ensures PlacedBy(a, d)
  {
    RootParts(a);
    if a.IsDirectory() {
      if |d| < |a.Root()| {
        AboveComparable(d, a.Root(), p);
      } else if |a.Root()| < |d| {
        AboveComparable(a.Root(), d, p);
      }
    }
  }

  lemma MkdirKeepsLayout(t: HostTree, a: Artifact, p: Path)
    requires LaidOut(t) && a.Owns(p) && !t.BlockedAbove(p)
    ensures LaidOut(t.(dirs := t.dirs + Ancestors(p)))
  {
    var t1 := t.(dirs := t.dirs + Ancestors(p));
    assert t.MkdirParents(p) == Ok(t1);
    forall d | d in t1.dirs ensures exists b :: PlacedBy(b, d) {
      if d !in t.dirs { AncestorsPlaced(a, p, d); assert PlacedBy(a, d); }
    }
  }

  /** A file of an artifact's own kind can be added or replaced without disturbing the layout. */
  lemma PutKeepsLayout(t: HostTree, a: Artifact, p: Path, content: Content)
    requires LaidOut(t) && a.Owns(p) && Fits(a, content)
    requires !t.IsDir(p) && forall q :: Above(q, p) ==> q in t.dirs
    ensures LaidOut(t.(files := t.files[p := content]))
  {
    var t' := t.(files := t.files[p := content]);
    assert t'.WellFormed();
    assert AllPlaced(t') by { assert Owned(p); }
    PutKeepsTyped(t, a, p, content);
  }

  lemma PutKeepsTyped(t: HostTree, a: Artifact, p: Path, content: Content)
    requires Typed(t) && a.Owns(p) && Fits(a, content)
    ensures Typed(t.(files := t.files[p := content]))
  {
    forall b: Artifact | b.Owns(p) ensures b == a { OwnershipExclusive(a, b, p, p); }
  }

  lemma WriteKeepsLayout(t: HostTree, a: Artifact, p: Path, content: Content)
    requires LaidOut(t) && a.Owns(p) && Fits(a, content)
    ensures LaidOut(WriteFile(t, p, content, false).0)
  {
    if !t.BlockedAbove(p) {
      MkdirKeepsLayout(t, a, p);
      var t1 := t.(dirs := t.dirs + Ancestors(p));
      if !t1.Exists(p) { PutKeepsLayout(t1, a, p, content); }
    }
  }

  lemma AppendKeepsLayout(t: HostTree, a: Artifact, lines: Content)
    requires LaidOut(t) && a.IsJsonl() && Fits(a, lines)
    ensures LaidOut(AppendLines(t, a.Root(), lines).0)
    ensures AppendLines(t, a.Root(), lines).1 == None
  {
    var p := a.Root();
    FileArtifactsAreNeverBlocked(t, a);
    MkdirKeepsLayout(t, a, p);
    var t1 := t.(dirs := t.dirs + Ancestors(p));
    FileArtifactsAreNeverBlocked(t1, a);
    assert p in t.files ==> Fits(a, t.files[p]);
    PutKeepsLayout(t1, a, p, ContentAt(t, p) + lines);
  }

  /* ---- what a storage step may do ---- */

  /** Every existing file is unchanged or, if a JSON-lines file of arts, extended; every new file
      and new directory belongs to one of arts; no directory goes away. */
  ghost predicate Effect(t: HostTree, t': HostTree, arts: set<Artifact>) {
    && t.dirs <= t'.dirs
    && (forall p :: p in t.files ==> p in t'.files)
    && (forall p :: p in t.files && t'.files[p] != t.files[p] ==> t.files[p] <= t'.files[p] && JsonlOf(arts, p))
    && (forall p :: p in t'.files && p !in t.files ==> OwnedBy(arts, p))
    && (forall d :: d in t'.dirs && d !in t.dirs ==> PlacedAmong(arts, d))
  }

  ghost predicate PlacedAmong(arts: set<Artifact>, d: Path) {
    exists a :: a in arts && PlacedBy(a, d)
  }

  ghost predicate OwnedBy(arts: set<Artifact>, p: Path) {
    exists a :: a in arts && a.Owns(p)
  }

  ghost predicate JsonlOf(arts: set<Artifact>, p: Path) {
    exists a :: a in arts && a.IsJsonl() && a.Owns(p)
  }

  lemma EffectReflexive(t: HostTree, arts: set<Artifact>)
    ensures Effect(t, t, arts)
  {
  }

  lemma EffectTransitive(t0: HostTree, t1: HostTree, t2: HostTree, arts: set<Artifact>)
    requires Effect(t0, t1, arts) && Effect(t1, t2, arts)
    ensures Effect(t0, t2, arts)
  {
  }

  lemma EffectWiden(t: HostTree, t': HostTree, arts: set<Artifact>, more: set<Artifact>)
    requires Effect(t, t', arts) && arts <= more
    ensures Effect(t, t', more)
  {
    forall p | OwnedBy(arts, p) ensures OwnedBy(more, p) { }
    forall p | JsonlOf(arts, p) ensures JsonlOf(more, p) { }
    forall d | PlacedAmong(arts, d) ensures PlacedAmong(more, d) { }
  }

  lemma EffectGrows(t: HostTree, t': HostTree, arts: set<Artifact>)
    requires Effect(t, t', arts)
    ensures OnlyGrows(t, t')
  {
    forall p | JsonlOf(arts, p) ensures IsJsonlFile(p) {
      var a: Artifact :| a in arts && a.IsJsonl() && a.Owns(p);
      assert a.Root() == p;
    }
  }

  /** Anything of an artifact the step does not concern is exactly as it was. */
  lemma EffectFrame(t: HostTree, t': HostTree, arts: set<Artifact>, b: Artifact, p: Path)
    requires Effect(t, t', arts) && b !in arts && b.Owns(p)
    ensures p in t.files <==> p in t'.files
    ensures ContentAt(t, p) == ContentAt(t', p)
  {
    forall a: Artifact | a in arts && a.Owns(p) ensures false { OwnershipExclusive(a, b, p, p); }
  }

  /** A stored file that is not a JSON-lines file never changes. */
  lemma EffectFrozen(t: HostTree, t': HostTree, arts: set<Artifact>, b: Artifact, p: Path)
    requires Effect(t, t', arts) && !b.IsJsonl() && b.Owns(p) && p in t.files
    ensures p in t'.files && t'.files[p] == t.files[p]
  {
    forall a: Artifact | a in arts && a.IsJsonl() && a.Owns(p) ensures false { OwnershipExclusive(a, b, p, p); }
  }

  lemma WriteEffect(t: HostTree, a: Artifact, p: Path, content: Content)
    requires t.WellFormed() && a.Owns(p)
    ensures Effect(t, WriteFile(t, p, content, false).0, {a})
  {
    assert OwnedBy({a}, p);
    NewDirsPlaced(a, p);
  }

  lemma NewDirsPlaced(a: Artifact, p: Path)
    requires a.Owns(p)
    ensures forall d :: d in Ancestors(p) ==> PlacedAmong({a}, d)
  {
    forall d | d in Ancestors(p) ensures PlacedAmong({a}, d) { AncestorsPlaced(a, p, d); }
  }

  /** A directory artifact the step does not concern is there after it exactly if it was before. */
  lemma EffectFrameDirectory(t: HostTree, t': HostTree, arts: set<Artifact>, b: Artifact)
    requires Effect(t, t', arts) && b !in arts
    ensures b.Root() in t.dirs <==> b.Root() in t'.dirs
  {
    if b.Root() in t'.dirs && b.Root() !in t.dirs {
      var a :| a in arts && PlacedBy(a, b.Root());
      if Above(b.Root(), a.Root()) { RootsIncomparable(b, a); } else { RootsIncomparable(a, b); }
    }
  }

  lemma AppendEffect(t: HostTree, a: Artifact, lines: Content)
    requires t.WellFormed() && a.IsJsonl()
    ensures Effect(t, AppendLines(t, a.Root(), lines).0, {a})
  {
    assert OwnedBy({a}, a.Root());
    assert JsonlOf({a}, a.Root());
    NewDirsPlaced(a, a.Root());
  }

  /** Writing a document: refused exactly when it is already stored. */
  lemma WriteDocument(t: HostTree, a: Artifact, doc: Record)
    requires LaidOut(t) && !a.IsDirectory() && Fits(a, [doc])
    ensures var (t', e) := WriteFile(t, a.Root(), [doc], false);
            && LaidOut(t') && Effect(t, t', {a})
            && e == (if a.Root() in t.files then Some(FileExists) else None)
            && (e.Some? ==> t'.files == t.files)
            && (e.None? ==> a.Root() in t'.files && t'.files[a.Root()] == [doc])
  {
    FileArtifactsAreNeverBlocked(t, a);
    WriteKeepsLayout(t, a, a.Root(), [doc]);
    WriteEffect(t, a, a.Root(), [doc]);
    MkdirKeepsLayout(t, a, a.Root());
    FileArtifactsAreNeverBlocked(t.(dirs := t.dirs + Ancestors(a.Root())), a);
  }
}
