/** recovery/snapshots.py: capturing a workspace into append-only storage and restoring it. */
module Snapshots {
  import opened Prelude
  import opened FileTree
  import opened StoragePaths
  import opened Records
  import opened HostFilesystem
  import opened StorageLayout
  import opened Workspaces

  /** What is being captured, and under which identity. */
  datatype SnapshotTarget =
    | CycleTarget(cycle: CycleScope)
    | FullTarget(run: RunScope, snapshotId: Segment, reason: string)
  {
    function Run(): RunScope {
      if CycleTarget? then cycle.run else run
    }

    function Id(): Segment {
      if CycleTarget? then cycle.cycleId else snapshotId
    }

    function Files(): Artifact {
      if CycleTarget? then CycleFiles(Run(), Id()) else FullFiles(Run(), Id())
    }

    function Manifest(): Artifact {
      if CycleTarget? then CycleManifest(Run(), Id()) else FullManifest(Run(), Id())
    }

    function Document(entries: seq<ManifestEntry>): SnapshotManifest {
      if CycleTarget?
      then SnapshotManifest(Id(), CycleSnapshot, Run(), Some(Id()), "per-cycle", entries)
      else SnapshotManifest(Id(), FullSnapshot, Run(), None, reason, entries)
    }
  }

  datatype SnapshotCapture = SnapshotCapture(snapshotId: Segment, kind: SnapshotKind, manifestPath: Path,
                                             filesDir: Path, fileCount: nat)

  /* ---- capture ---- */

  function EntryFor(filesDir: Path, name: Path, bytes: Bytes): ManifestEntry {
    ManifestEntry(name, |bytes|, filesDir + name)
  }

  function EntriesFor(filesDir: Path, names: seq<Path>, files: map<Path, Bytes>): (es: seq<ManifestEntry>)
    requires forall n :: n in names ==> n in files
    ensures |es| == |names|
    ensures forall i :: 0 <= i < |names| ==> es[i] == EntryFor(filesDir, names[i], files[names[i]])
  {
    seq(|names|, i requires 0 <= i < |names| => EntryFor(filesDir, names[i], files[names[i]]))
  }

  /** Write the named files one after the other, stopping at the first refusal. */
  function CaptureFiles(t: HostTree, filesDir: Path, names: seq<Path>, files: map<Path, Bytes>):
    (HostTree, Option<Error>)
    requires forall n :: n in names ==> n in files
    decreases |names|
  {
    if names == [] then (t, None)
    else
      var (t1, e) := WriteFile(t, filesDir + names[0], [Blob(files[names[0]])], false);
      if e.Some? then (t1, e) else CaptureFiles(t1, filesDir, names[1..], files)
  }

  function Capture(t: HostTree, target: SnapshotTarget, names: seq<Path>, files: map<Path, Bytes>):
    (HostTree, Result<SnapshotCapture, Error>)
    requires forall n :: n in names ==> n in files
  {
    var dir, manifest := target.Files().Root(), target.Manifest().Root();
    var (t1, e) := CaptureFiles(t, dir, names, files);
    if e.Some? then (t1, Err(e.value))
    else
      var doc := target.Document(EntriesFor(dir, names, files));
      var (t2, e2) := WriteFile(t1, manifest, [SnapshotDoc(doc)], false);
      if e2.Some? then (t2, Err(e2.value))
      else (t2, Ok(SnapshotCapture(target.Id(), doc.kind, manifest, dir, |names|)))
  }

  /* ---- restore ---- */

  function ReadBlob(t: HostTree, p: Path): Option<Bytes> {
    if p in t.files && |t.files[p]| == 1 && t.files[p][0].Blob? then Some(t.files[p][0].bytes) else None
  }

  /** reconstruct_restore */
  function ReconstructRestore(t: HostTree, manifest: Path): Result<SnapshotManifest, Error> {
    if manifest !in t.files then Err(ReadError(t, manifest))
    else if |t.files[manifest]| == 1 && t.files[manifest][0].SnapshotDoc? then Ok(t.files[manifest][0].snapshot)
    else Err(Malformed)
  }

  function Expected(es: seq<ManifestEntry>): (r: set<Path>)
    ensures forall p :: p in r <==> exists i :: 0 <= i < |es| && es[i].relativePath == p
  {
    set i | 0 <= i < |es| :: es[i].relativePath
  }

  function RemoveStrays(ws: WorkspaceTree, expected: set<Path>): WorkspaceTree {
    ws.(files := map p | p in ws.files && p in expected :: ws.files[p])
  }

  function RestoreEntry(ws: WorkspaceTree, e: ManifestEntry, host: HostTree): (WorkspaceTree, Option<Error>) {
    match ws.MkdirParents(e.relativePath)
    case Err(error) => (ws, Some(error))
    case Ok(w) =>
      var bytes := ReadBlob(host, e.source);
      if bytes.None? then (w, Some(NotFound))
      else if w.IsDir(e.relativePath) then (w, Some(IsADirectory))
      else (w.(files := w.files[e.relativePath := bytes.value]), None)
  }

  function RestoreEntries(ws: WorkspaceTree, es: seq<ManifestEntry>, host: HostTree): (WorkspaceTree, Option<Error>)
    decreases |es|
  {
    if es == [] then (ws, None)
    else
      var (w, e) := RestoreEntry(ws, es[0], host);
      if e.Some? then (w, e) else RestoreEntries(w, es[1..], host)
  }

  /** Drop every directory that has no file below it. */
  function Prune(ws: WorkspaceTree): WorkspaceTree {
    ws.(dirs := ws.dirs * AncestorsOf(ws.files.Keys))
  }

  function Restore(ws: WorkspaceTree, manifest: Path, host: HostTree):
    (WorkspaceTree, Result<SnapshotManifest, Error>) {
    match ReconstructRestore(host, manifest)
    case Err(e) => (ws, Err(e))
    case Ok(m) =>
      var (w, e) := RestoreEntries(RemoveStrays(ws, Expected(m.entries)), m.entries, host);
      if e.Some? then (w, Err(e.value)) else (Prune(w), Ok(m))
  }

  /* ---- what a stored manifest means ---- */

  /** The stored manifest lists exactly the files of F, and every listed source still holds F's bytes. */
  ghost predicate Represents(host: HostTree, manifest: Path, F: map<Path, Bytes>) {
    match ReconstructRestore(host, manifest)
    case Err(_) => false
    case Ok(m) => EntriesSound(host, m.entries, F) && Expected(m.entries) == F.Keys
  }

  ghost predicate EntriesSound(host: HostTree, es: seq<ManifestEntry>, F: map<Path, Bytes>) {
    forall i :: 0 <= i < |es| ==> es[i].relativePath in F && ReadBlob(host, es[i].source) == Some(F[es[i].relativePath])
  }

  /** A file map some directory tree can hold. */
  ghost predicate Holdable(F: map<Path, Bytes>) {
    [] !in F && Antichain(F.Keys)
  }

  /** The tree that holds F and nothing else. */
  function TreeOf(F: map<Path, Bytes>): WorkspaceTree {
    Tree(F, AncestorsOf(F.Keys))
  }

  function Overlay(ws: map<Path, Bytes>, es: seq<ManifestEntry>, F: map<Path, Bytes>): map<Path, Bytes> {
    ws + map p | p in Expected(es) && p in F :: F[p]
  }

  lemma ExpectedCons(es: seq<ManifestEntry>)
    requires es != []
    ensures Expected(es) == {es[0].relativePath} + Expected(es[1..])
  {
    forall i | 0 <= i < |es| - 1 ensures es[1..][i].relativePath in Expected(es) {
      assert es[i + 1].relativePath in Expected(es);
    }
    forall i | 0 < i < |es| ensures es[i].relativePath in Expected(es[1..]) {
      assert es[1..][i - 1] == es[i];
    }
  }

  lemma AncestorsOfUnion(a: set<Path>, b: set<Path>)
    ensures AncestorsOf(a + b) == AncestorsOf(a) + AncestorsOf(b)
  {
  }

  lemma NothingExpected(ws: WorkspaceTree, F: map<Path, Bytes>)
    ensures Expected([]) == {} && AncestorsOf({}) == {} && Overlay(ws.files, [], F) == ws.files
  {
    assert Expected([]) == {};
  }

  lemma OverlayCons(ws: WorkspaceTree, es: seq<ManifestEntry>, F: map<Path, Bytes>)
    requires es != [] && es[0].relativePath in F
    ensures var p := es[0].relativePath;
            && Overlay(ws.files[p := F[p]], es[1..], F) == Overlay(ws.files, es, F)
            && ws.dirs + Ancestors(p) + AncestorsOf(Expected(es[1..])) == ws.dirs + AncestorsOf(Expected(es))
  {
    hide Expected, AncestorsOf, Ancestors, Overlay;
    ExpectedCons(es);
    OverlayOne(ws.files, es, F);
    AncestorsCons(es[0].relativePath, Expected(es[1..]));
  }

  lemma OverlayOne(files: map<Path, Bytes>, es: seq<ManifestEntry>, F: map<Path, Bytes>)
    requires es != [] && es[0].relativePath in F
    requires Expected(es) == {es[0].relativePath} + Expected(es[1..])
    ensures Overlay(files[es[0].relativePath := F[es[0].relativePath]], es[1..], F) == Overlay(files, es, F)
  {
    hide Expected;
  }

  lemma AncestorsCons(p: Path, ps: set<Path>)
    ensures AncestorsOf({p} + ps) == Ancestors(p) + AncestorsOf(ps)
  {
    AncestorsOfUnion({p}, ps);
    assert AncestorsOf({p}) == Ancestors(p);
  }

  lemma RestoreEntryFits(ws: WorkspaceTree, e: ManifestEntry, host: HostTree, F: map<Path, Bytes>)
    requires ws.WellFormed() && Holdable(F) && ws.files.Keys <= F.Keys
    requires e.relativePath in F && ReadBlob(host, e.source) == Some(F[e.relativePath])
    ensures var (w, error) := RestoreEntry(ws, e, host);
            && w.dirs == ws.dirs + Ancestors(e.relativePath)
            && error == (if e.relativePath in ws.dirs then Some(IsADirectory) else None)
            && (error.None? ==> w.WellFormed() && w.files == ws.files[e.relativePath := F[e.relativePath]])
            && (error.Some? ==> w.files == ws.files)
            && (forall q :: q in F ==> (q in w.dirs <==> q in ws.dirs))
  {
    assert !ws.BlockedAbove(e.relativePath);
    forall q | q in Ancestors(e.relativePath) ensures q !in F { }
  }

  /** The writing loop: it fails exactly when some wanted file is a directory now, and otherwise lays
      the listed files over the workspace. */
  lemma {:induction false} RestoreEntriesExact(ws: WorkspaceTree, es: seq<ManifestEntry>, host: HostTree,
                                               F: map<Path, Bytes>)
    requires ws.WellFormed() && Holdable(F) && ws.files.Keys <= F.Keys && EntriesSound(host, es, F)
    ensures var (w, error) := RestoreEntries(ws, es, host);
            && error == (if ws.dirs !! Expected(es) then None else Some(IsADirectory))
            && (error.None? ==>
                  && w.WellFormed()
                  && w.files == Overlay(ws.files, es, F)
                  && w.dirs == ws.dirs + AncestorsOf(Expected(es)))
    decreases |es|
  {
    hide RestoreEntry, Holdable, AncestorsOf, Expected, Overlay, Ancestors;
    NothingExpected(ws, F);
    if es != [] {
      var p := es[0].relativePath;
      var (w, error) := RestoreEntry(ws, es[0], host);
      RestoreEntryFits(ws, es[0], host, F);
      ExpectedCons(es);
      if error.None? {
        assert EntriesSound(host, es[1..], F);
        RestoreEntriesExact(w, es[1..], host, F);
        OverlayCons(ws, es, F);
        forall q | q in Expected(es[1..]) ensures q in F { }
      }
    }
  }

  /** Restore succeeds exactly when no file of the snapshot is a directory in the workspace, and then
      leaves the snapshot's files, their parent directories, and nothing else. */
  lemma RestoreExact(ws: WorkspaceTree, manifest: Path, host: HostTree, F: map<Path, Bytes>)
    requires ws.WellFormed() && Holdable(F) && Represents(host, manifest, F)
    ensures var (w, r) := Restore(ws, manifest, host);
            && (r.Ok? <==> ws.dirs !! F.Keys)
            && (r.Ok? ==> w == TreeOf(F) && w.WellFormed())
            && (r.Err? ==> r.error == IsADirectory)
  {
    hide EntriesSound, Holdable, AncestorsOf, Expected, RestoreEntries, Overlay;
    var es := ReconstructRestore(host, manifest).value.entries;
    var w0 := RemoveStrays(ws, F.Keys);
    StraysRemoved(ws, F.Keys);
    RestoreEntriesExact(w0, es, host, F);
    if ws.dirs !! F.Keys {
      OverlayAll(w0.files, es, F);
      TreeOfWellFormed(F);
    }
  }

  lemma StraysRemoved(ws: WorkspaceTree, expected: set<Path>)
    requires ws.WellFormed()
    ensures RemoveStrays(ws, expected).WellFormed() && RemoveStrays(ws, expected).files.Keys <= expected
  {
  }

  lemma OverlayAll(kept: map<Path, Bytes>, es: seq<ManifestEntry>, F: map<Path, Bytes>)
    requires kept.Keys <= F.Keys && Expected(es) == F.Keys
    ensures Overlay(kept, es, F) == F
  {
  }

  lemma TreeOfWellFormed(F: map<Path, Bytes>)
    requires Holdable(F)
    ensures TreeOf(F).WellFormed()
  {
    forall d, q | d in AncestorsOf(F.Keys) && Above(q, d) ensures q in AncestorsOf(F.Keys) {
      var p :| p in F.Keys && Above(d, p);
      AboveTransitive(q, d, p);
    }
  }

  /** Without a readable manifest a restore changes nothing. */
  lemma UnreadableRestore(ws: WorkspaceTree, manifest: Path, host: HostTree)
    requires ReconstructRestore(host, manifest).Err?
    ensures Restore(ws, manifest, host)
            == (ws, Err(if manifest in host.files then Malformed
                        else if exists q :: q in host.files && Above(q, manifest) then NotADirectory
                        else if manifest == [] || manifest in host.dirs then IsADirectory else NotFound))
  {
  }

  /** A restore whose first copy is gone ends there, directory in the way or not: the strays are deleted, the parents
      made, and every listed file is as it was. */
  lemma MissingCopyStops(ws: WorkspaceTree, manifest: Path, host: HostTree, m: SnapshotManifest)
    requires ws.WellFormed() && ReconstructRestore(host, manifest) == Ok(m)
    requires m.entries != [] && ReadBlob(host, m.entries[0].source).None?
    requires forall q :: q in ws.files && q in Expected(m.entries) ==> !Above(q, m.entries[0].relativePath)
    ensures var (w, r) := Restore(ws, manifest, host);
            && r == Err(NotFound) && w.dirs == ws.dirs + Ancestors(m.entries[0].relativePath)
            && (forall p :: p in w.files <==> p in ws.files && p in Expected(m.entries))
            && (forall p :: p in w.files ==> w.files[p] == ws.files[p])
  {
    hide Expected;
    var w0 := RemoveStrays(ws, Expected(m.entries));
    assert RestoreEntry(w0, m.entries[0], host).1 == Some(NotFound);
  }

  /** The place of the first listed file that is a directory in the workspace. */
  ghost predicate ClashesFirstAt(ws: WorkspaceTree, es: seq<ManifestEntry>, k: nat) {
    && k < |es| && es[k].relativePath in ws.dirs
    && forall i :: 0 <= i < k ==> es[i].relativePath !in ws.dirs
  }

  /** The writing loop ends at the first clash with the earlier files written, and the parents of the clashing one. */
  lemma {:induction false} RestoreEntriesStop(ws: WorkspaceTree, es: seq<ManifestEntry>, host: HostTree,
                                              F: map<Path, Bytes>, k: nat)
    requires ws.WellFormed() && Holdable(F) && ws.files.Keys <= F.Keys && EntriesSound(host, es, F)
    requires ClashesFirstAt(ws, es, k)
    ensures var (w, error) := RestoreEntries(ws, es, host);
            && error == Some(IsADirectory)
            && w.files == Overlay(ws.files, es[..k], F) && w.dirs == ws.dirs + AncestorsOf(Expected(es[..k + 1]))
    decreases |es|
  {
    hide RestoreEntry, Holdable, AncestorsOf, Expected, Overlay, Ancestors;
    var p := es[0].relativePath;
    var (w, error) := RestoreEntry(ws, es[0], host);
    RestoreEntryFits(ws, es[0], host, F);
    assert es[..k + 1][0] == es[0] && es[..k + 1][1..] == es[1..][..k];
    if k == 0 {
      NothingExpected(ws, F);
      assert es[..0] == [] && es[..1] == [es[0]] && [es[0]][1..] == [];
      ExpectedCons([es[0]]);
      AncestorsCons(p, {});
      assert Ancestors(p) + {} == Ancestors(p);
    } else {
      assert error.None?;
      assert EntriesSound(host, es[1..], F);
      assert ClashesFirstAt(w, es[1..], k - 1) by { LaterClash(ws, w, es, k, F); }
      RestoreEntriesStop(w, es[1..], host, F, k - 1);
      assert es[..k][0] == es[0] && es[..k][1..] == es[1..][..k - 1];
      OverlayCons(ws, es[..k], F);
      OverlayCons(ws, es[..k + 1], F);
    }
  }

  lemma LaterClash(ws: WorkspaceTree, w: WorkspaceTree, es: seq<ManifestEntry>, k: nat, F: map<Path, Bytes>)
    requires ClashesFirstAt(ws, es, k) && k > 0 && (forall i :: 0 <= i < |es| ==> es[i].relativePath in F)
    requires forall q :: q in F ==> (q in w.dirs <==> q in ws.dirs)
    ensures ClashesFirstAt(w, es[1..], k - 1)
  {
  }

  /** A restore that fails has deleted every file the snapshot does not list, written the listed ones before the first
      that is a directory, and left the rest, and every directory, as they were. */
  lemma FailedRestoreExact(ws: WorkspaceTree, manifest: Path, host: HostTree, F: map<Path, Bytes>, k: nat)
    requires ws.WellFormed() && Holdable(F) && Represents(host, manifest, F)
    requires ClashesFirstAt(ws, ReconstructRestore(host, manifest).value.entries, k)
    ensures var es, (w, r) := ReconstructRestore(host, manifest).value.entries, Restore(ws, manifest, host);
            && r == Err(IsADirectory)
            && (forall p :: p in w.files <==> p in F && (p in ws.files || p in Expected(es[..k])))
            && (forall p :: p in w.files ==> w.files[p] == if p in Expected(es[..k]) then F[p] else ws.files[p])
            && w.dirs == ws.dirs + AncestorsOf(Expected(es[..k + 1]))
  {
    hide EntriesSound, Holdable, AncestorsOf, RestoreEntries;
    var es := ReconstructRestore(host, manifest).value.entries;
    StraysRemoved(ws, F.Keys);
    RestoreEntriesStop(RemoveStrays(ws, F.Keys), es, host, F, k);
    forall p | p in Expected(es[..k]) ensures p in F { assert p in Expected(es); }
  }

  /** Restoring twice is restoring once. */
  lemma RestoreIdempotent(ws: WorkspaceTree, manifest: Path, host: HostTree, F: map<Path, Bytes>)
    requires ws.WellFormed() && Holdable(F) && Represents(host, manifest, F)
    requires Restore(ws, manifest, host).1.Ok?
    ensures Restore(Restore(ws, manifest, host).0, manifest, host) == Restore(ws, manifest, host)
  {
    RestoreExact(ws, manifest, host, F);
    RestoreExact(TreeOf(F), manifest, host, F);
  }

  /** A restore can lose work: the agent has made a directory where the snapshot has a file, so the restore
      deletes what the directory held and then fails, leaving neither the old files nor the snapshot's. */
  lemma RestoreClash(manifest: Path, host: HostTree, mine: Bytes, theirs: Bytes)
    requires Represents(host, manifest, map[["a"] := theirs])
    ensures var ws := Tree(map[["a", "b"] := mine], {["a"]});
            ws.WellFormed() && Restore(ws, manifest, host) == (Tree(map[], {["a"]}), Err(IsADirectory))
  {
    hide EntriesSound;
    var ws := Tree(map[["a", "b"] := mine], {["a"]});
    var es := ReconstructRestore(host, manifest).value.entries;
    assert Expected(es) == {["a"]};
    assert ["a"] != ["a", "b"] by { assert |["a"]| != |["a", "b"]|; }
    var w0 := RemoveStrays(ws, {["a"]});
    assert w0 == Tree(map[], {["a"]});
    FirstEntryClashes(es, host, theirs);
  }

  lemma FirstEntryClashes(es: seq<ManifestEntry>, host: HostTree, theirs: Bytes)
    requires EntriesSound(host, es, map[["a"] := theirs]) && Expected(es) == {["a"]}
    ensures RestoreEntries(Tree(map[], {["a"]}), es, host) == (Tree(map[], {["a"]}), Some(IsADirectory))
  {
    var w0: WorkspaceTree := Tree(map[], {["a"]});
    assert ["a"] in Expected(es);
    assert es[0].relativePath == ["a"];
    assert Ancestors(["a"]) == {};
    assert w0.dirs + {} == w0.dirs;
    assert RestoreEntry(w0, es[0], host) == (w0, Some(IsADirectory));
  }

  /* ---- capturing represents the workspace ---- */

  /** Nothing is at p and no file is in the way of creating it. */
  predicate Free(t: HostTree, p: Path) {
    !t.Exists(p) && !t.BlockedAbove(p)
  }

  lemma AboveUnder(dir: Path, a: Path, b: Path)
    requires a != []
    ensures Above(dir + a, dir + b) <==> Above(a, b)
  {
    if |a| < |b| {
      assert (dir + b)[..|dir + a|] == dir + b[..|a|];
      assert (dir + a)[|dir|..] == a && (dir + b[..|a|])[|dir|..] == b[..|a|];
    }
  }

  lemma DirOwns(a: Artifact, name: Path)
    requires a.IsDirectory() && name != []
    ensures a.Owns(a.Root() + name)
  {
    RootParts(a);
    assert (a.Root() + name)[..|a.Root()|] == a.Root();
  }

  /** One captured file: written exactly when its destination is free. */
  lemma CaptureOne(t: HostTree, a: Artifact, n: Path, bytes: Bytes)
    requires t.WellFormed() && a.IsDirectory() && n != []
    ensures var (t', e) := WriteFile(t, a.Root() + n, [Blob(bytes)], false);
            && t'.WellFormed() && Effect(t, t', {a})
            && (e.None? <==> Free(t, a.Root() + n))
            && (e.None? ==> ContentAt(t', a.Root() + n) == [Blob(bytes)])
  {
    DirOwns(a, n);
    WriteEffect(t, a, a.Root() + n, [Blob(bytes)]);
  }

  lemma FreeAfterSibling(t: HostTree, t': HostTree, dir: Path, n: Path, m: Path, bytes: Bytes)
    requires n != [] && m != [] && n != m && !Above(n, m) && !Above(m, n)
    requires (t', None) == WriteFile(t, dir + n, [Blob(bytes)], false)
    ensures Free(t', dir + m) <==> Free(t, dir + m)
  {
    AboveUnder(dir, n, m);
    AboveUnder(dir, m, n);
    assert dir + n != dir + m by {
      assert (dir + n)[|dir|..] == n && (dir + m)[|dir|..] == m;
    }
  }

  lemma {:induction false} CaptureFilesExact(t: HostTree, a: Artifact, names: seq<Path>, files: map<Path, Bytes>)
    requires t.WellFormed() && a.IsDirectory() && Holdable(files)
    requires forall n :: n in names ==> n in files
    requires forall i, j :: 0 <= i < j < |names| ==> names[i] != names[j]
    ensures var (t', e) := CaptureFiles(t, a.Root(), names, files);
            && t'.WellFormed() && Effect(t, t', {a})
            && (e.None? <==> forall n :: n in names ==> Free(t, a.Root() + n))
            && (e.None? ==> forall n :: n in names ==> ContentAt(t', a.Root() + n) == [Blob(files[n])])
    decreases |names|
  {
    hide LaidOut, Effect, Free, WriteFile;
    if names == [] {
      EffectReflexive(t, {a});
    } else {
      var n, rest := names[0], names[1..];
      CaptureOne(t, a, n, files[n]);
      var (t1, e) := WriteFile(t, a.Root() + n, [Blob(files[n])], false);
      if e.None? {
        CaptureFilesExact(t1, a, rest, files);
        var t' := CaptureFiles(t1, a.Root(), rest, files).0;
        EffectTransitive(t, t1, t', {a});
        DirOwns(a, n);
        EffectFrozen(t1, t', {a}, a, a.Root() + n);
        forall m | m in rest ensures Free(t1, a.Root() + m) <==> Free(t, a.Root() + m) {
          FreeAfterSibling(t, t1, a.Root(), n, m, files[n]);
        }
      } else {
        assert n in names;
      }
    }
  }

  /** The copying loop ends at the first destination that is not free, with the earlier files stored and nothing else
      changed. */
  lemma {:induction false} CaptureFilesStop(t: HostTree, a: Artifact, names: seq<Path>, files: map<Path, Bytes>, k: nat)
    requires t.WellFormed() && a.IsDirectory() && Holdable(files)
    requires forall n :: n in names ==> n in files
    requires forall i, j :: 0 <= i < j < |names| ==> names[i] != names[j]
    requires k < |names| && !Free(t, a.Root() + names[k]) && forall i :: 0 <= i < k ==> Free(t, a.Root() + names[i])
    ensures var (t', e) := CaptureFiles(t, a.Root(), names, files);
            && e.Some?
            && (forall i :: 0 <= i < k ==> ContentAt(t', a.Root() + names[i]) == [Blob(files[names[i]])])
            && (forall p :: (forall i :: 0 <= i < k ==> p != a.Root() + names[i]) ==>
                  (p in t'.files <==> p in t.files) && ContentAt(t', p) == ContentAt(t, p))
    decreases |names|
  {
    hide Effect, Free, WriteFile, ContentAt;
    var n, rest := names[0], names[1..];
    assert n in names;
    CaptureOne(t, a, n, files[n]);
    WriteIsAppendOnly(t, a.Root() + n, [Blob(files[n])], false);
    var (t1, e) := WriteFile(t, a.Root() + n, [Blob(files[n])], false);
    if k > 0 {
      forall i | 0 < i < |names| ensures Free(t1, a.Root() + names[i]) <==> Free(t, a.Root() + names[i]) {
        assert names[i] in names;
        FreeAfterSibling(t, t1, a.Root(), n, names[i], files[n]);
      }
      CaptureFilesStop(t1, a, rest, files, k - 1);
      var t' := CaptureFiles(t1, a.Root(), rest, files).0;
      forall i | 0 <= i < k - 1 ensures a.Root() + n != a.Root() + rest[i] {
        assert (a.Root() + n)[|a.Root()|..] == n && (a.Root() + rest[i])[|a.Root()|..] == rest[i];
      }
      forall p | forall i :: 0 <= i < k ==> p != a.Root() + names[i]
        ensures (p in t'.files <==> p in t.files) && ContentAt(t', p) == ContentAt(t, p)
      {
        assert p != a.Root() + names[0];
        forall i | 0 <= i < k - 1 ensures p != a.Root() + rest[i] { assert rest[i] == names[i + 1]; }
      }
    } else {
      SameFilesAfterRefusal(t, t1);
    }
  }

  lemma SameFilesAfterRefusal(t: HostTree, t': HostTree)
    requires t'.files == t.files
    ensures forall p :: ContentAt(t', p) == ContentAt(t, p)
  {
  }

  /** Neither the manifest nor the destination of any file is taken, and nothing is in their way. */
  ghost predicate Uncaptured(t: HostTree, target: SnapshotTarget, files: map<Path, Bytes>) {
    Free(t, target.Manifest().Root()) && forall n :: n in files ==> Free(t, target.Files().Root() + n)
  }

  /** Steps that concern other artifacts neither take nor release a destination. */
  lemma UncapturedFrame(t: HostTree, t': HostTree, arts: set<Artifact>, target: SnapshotTarget, files: map<Path, Bytes>)
    requires Effect(t, t', arts) && target.Files() !in arts && target.Manifest() !in arts && Holdable(files)
    ensures Uncaptured(t, target, files) <==> Uncaptured(t', target, files)
  {
    hide Effect, Free;
    var b, m := target.Files(), target.Manifest();
    FreeFrame(t, t', arts, m, m.Root());
    forall n | n in files ensures Free(t, b.Root() + n) <==> Free(t', b.Root() + n) {
      DirOwns(b, n);
      FreeFrame(t, t', arts, b, b.Root() + n);
    }
  }

  lemma FreeFrame(t: HostTree, t': HostTree, arts: set<Artifact>, b: Artifact, p: Path)
    requires Effect(t, t', arts) && b !in arts && b.Owns(p)
    ensures Free(t, p) <==> Free(t', p)
  {
    ExistsFrame(t, t', arts, b, p);
    forall q | q in t'.files && q !in t.files ensures !Above(q, p) {
      var a :| a in arts && a.Owns(q);
      if Above(q, p) { OwnershipExclusive(a, b, q, p); }
    }
  }

  /** A place of an artifact the step does not concern is taken after it exactly if it was before. */
  lemma ExistsFrame(t: HostTree, t': HostTree, arts: set<Artifact>, b: Artifact, p: Path)
    requires Effect(t, t', arts) && b !in arts && b.Owns(p)
    ensures t.Exists(p) <==> t'.Exists(p)
  {
    EffectFrame(t, t', arts, b, p);
    if p in t'.dirs && p !in t.dirs {
      var a :| a in arts && PlacedBy(a, p);
      if Above(p, a.Root()) {
        if b.IsDirectory() { AboveTransitive(b.Root(), p, a.Root()); }
        RootsIncomparable(b, a);
      } else if p == a.Root() {
        if b.IsDirectory() { RootsIncomparable(b, a); } else { RootsIncomparable(a, b); }
      } else {
        OwnershipExclusive(a, b, p, p);
      }
    }
  }

  /** A capture succeeds exactly when its manifest and all its destinations are free; then the workspace can be
      recovered from it. It never disturbs anything already stored, and one that fails leaves no manifest. */
  lemma CaptureExact(t: HostTree, target: SnapshotTarget, names: seq<Path>, files: map<Path, Bytes>)
    requires t.WellFormed() && Holdable(files) && IsListing(names, files.Keys, ByPosix)
    ensures var (t', r) := Capture(t, target, names, files);
            && t'.WellFormed() && Effect(t, t', {target.Files(), target.Manifest()})
            && (r.Ok? <==> Uncaptured(t, target, files))
            && (r.Ok? ==> Recoverable(t', target, files))
            && (r.Err? ==> ContentAt(t', target.Manifest().Root()) == ContentAt(t, target.Manifest().Root()))
  {
    hide Effect, EntriesSound, WriteFile, CaptureFiles, Free, Expected, ContentAt, Recoverable;
    var a, m := target.Files(), target.Manifest();
    var both := {a, m};
    CaptureFilesExact(t, a, names, files);
    var (t1, e) := CaptureFiles(t, a.Root(), names, files);
    EffectWiden(t, t1, {a}, both);
    EffectFrame(t, t1, {a}, m, m.Root());
    FreeFrame(t, t1, {a}, m, m.Root());
    if e.None? {
      var es := EntriesFor(a.Root(), names, files);
      var doc := SnapshotDoc(target.Document(es));
      DocumentStored(t1, m, doc);
      var (t2, e2) := WriteFile(t1, m.Root(), [doc], false);
      EffectWiden(t1, t2, {m}, both);
      EffectTransitive(t, t1, t2, both);
      CapturedEntriesSound(t1, t2, a, m, names, files);
      CapturedInside(a, names, files);
      if e2.None? { ManifestRecovers(t2, target, es, files); }
    }
  }

  /** The receipt of a capture of some files. */
  function CaptureOf(target: SnapshotTarget, files: map<Path, Bytes>): SnapshotCapture {
    SnapshotCapture(target.Id(), if target.CycleTarget? then CycleSnapshot else FullSnapshot, target.Manifest().Root(),
                    target.Files().Root(), |files|)
  }

  /** What a capture hands back can be used: its manifest path is where the snapshot is restored from, its directory
      holds every captured file under its own name, and its count is theirs. The manifest stored there names the
      target, and lists each file once, in order, with its size and its copy. */
  lemma CaptureReturns(t: HostTree, target: SnapshotTarget, names: seq<Path>, files: map<Path, Bytes>)
    requires t.WellFormed() && Holdable(files) && IsListing(names, files.Keys, ByPosix)
    requires Capture(t, target, names, files).1.Ok?
    ensures var (t', r) := Capture(t, target, names, files);
            && r.value == CaptureOf(target, files)
            && Represents(t', r.value.manifestPath, files)
            && (forall n :: n in files ==> ContentAt(t', r.value.filesDir + n) == [Blob(files[n])])
            && r.value.fileCount == |files| == |names|
            && exists es :: ContentAt(t', r.value.manifestPath) == [SnapshotDoc(
                   if target.CycleTarget?
                   then SnapshotManifest(target.cycle.cycleId, CycleSnapshot, target.cycle.run,
                                         Some(target.cycle.cycleId), "per-cycle", es)
                   else SnapshotManifest(target.snapshotId, FullSnapshot, target.run, None, target.reason, es))]
                 && |es| == |names|
                 && forall i :: 0 <= i < |es| ==>
                      es[i] == ManifestEntry(names[i], |files[names[i]]|, r.value.filesDir + names[i])
  {
    hide Effect, WriteFile, CaptureFiles, Uncaptured, Capture, ContentAt, Represents, SourcesInside, EntriesFor;
    CaptureExact(t, target, names, files);
    CaptureStores(t, target, names, files);
    ListingLength(names, files.Keys);
    assert |files| == |files.Keys|;
    var es := EntriesFor(target.Files().Root(), names, files);
    assert forall i :: 0 <= i < |es| ==>
        es[i] == ManifestEntry(names[i], |files[names[i]]|, target.Files().Root() + names[i]);
  }

  lemma CaptureStores(t: HostTree, target: SnapshotTarget, names: seq<Path>, files: map<Path, Bytes>)
    requires t.WellFormed() && Holdable(files) && IsListing(names, files.Keys, ByPosix)
    requires Capture(t, target, names, files).1.Ok?
    ensures var (t', r) := Capture(t, target, names, files);
            var (dir, manifest) := (target.Files().Root(), target.Manifest().Root());
            && r.value == SnapshotCapture(target.Id(), if target.CycleTarget? then CycleSnapshot else FullSnapshot,
                                          manifest, dir, |names|)
            && ContentAt(t', manifest) == [SnapshotDoc(target.Document(EntriesFor(dir, names, files)))]
            && (forall n :: n in files ==> ContentAt(t', dir + n) == [Blob(files[n])])
  {
    hide Effect, EntriesSound, WriteFile, CaptureFiles, Free, Expected, ContentAt;
    var a, m := target.Files(), target.Manifest();
    CaptureFilesExact(t, a, names, files);
    var (t1, e) := CaptureFiles(t, a.Root(), names, files);
    var doc := SnapshotDoc(target.Document(EntriesFor(a.Root(), names, files)));
    DocumentStored(t1, m, doc);
    var (t2, e2) := WriteFile(t1, m.Root(), [doc], false);
    assert e.None? && e2.None? && Capture(t, target, names, files).0 == t2;
    StoredContent(t2, m.Root(), [doc]);
    forall n | n in files ensures ContentAt(t2, a.Root() + n) == [Blob(files[n])] {
      DirOwns(a, n);
      EffectFrame(t1, t2, {m}, a, a.Root() + n);
    }
  }

  lemma StoredContent(t: HostTree, p: Path, content: Content)
    requires p in t.files && t.files[p] == content
    ensures ContentAt(t, p) == content
  {
  }

  lemma {:induction false} ListingLength(names: seq<Path>, s: set<Path>)
    requires forall p :: p in names <==> p in s
    requires forall i, j :: 0 <= i < j < |names| ==> names[i] != names[j]
    ensures |names| == |s|
    decreases |names|
  {
    if names == [] {
      assert s == {};
    } else {
      var rest := s - {names[0]};
      assert |s| == |rest| + 1;
      forall p | p in names[1..] ensures p in rest { }
      forall p | p in rest ensures p in names[1..] { assert p in names; }
      ListingLength(names[1..], rest);
    }
  }

  lemma ManifestRecovers(t: HostTree, target: SnapshotTarget, es: seq<ManifestEntry>, F: map<Path, Bytes>)
    requires target.Manifest().Root() in t.files
             && t.files[target.Manifest().Root()] == [SnapshotDoc(target.Document(es))]
    requires EntriesSound(t, es, F) && Expected(es) == F.Keys
    requires forall i :: 0 <= i < |es| ==> target.Files().Owns(es[i].source)
    ensures Recoverable(t, target, F)
  {
  }

  /** A single file of its own is written exactly when its place is free. */
  lemma DocumentStored(t: HostTree, a: Artifact, doc: Record)
    requires t.WellFormed() && !a.IsDirectory()
    ensures var (t', e) := WriteFile(t, a.Root(), [doc], false);
            && t'.WellFormed() && Effect(t, t', {a})
            && (e.None? <==> Free(t, a.Root()))
            && (e.None? ==> a.Root() in t'.files && t'.files[a.Root()] == [doc])
            && (e.Some? ==> ContentAt(t', a.Root()) == ContentAt(t, a.Root()))
  {
    WriteEffect(t, a, a.Root(), [doc]);
    RootParts(a);
  }

  /** Capturing into a store the services wrote keeps its layout. */
  lemma CaptureKeepsLayout(t: HostTree, target: SnapshotTarget, names: seq<Path>, files: map<Path, Bytes>)
    requires LaidOut(t) && Holdable(files) && forall n :: n in names ==> n in files
    ensures LaidOut(Capture(t, target, names, files).0)
  {
    hide LaidOut, WriteFile, CaptureFiles;
    var a, m := target.Files(), target.Manifest();
    CaptureFilesKeepLayout(t, a, names, files);
    var (t1, e) := CaptureFiles(t, a.Root(), names, files);
    if e.None? {
      WriteKeepsLayout(t1, m, m.Root(), [SnapshotDoc(target.Document(EntriesFor(a.Root(), names, files)))]);
    }
  }

  lemma {:induction false} CaptureFilesKeepLayout(t: HostTree, a: Artifact, names: seq<Path>, files: map<Path, Bytes>)
    requires LaidOut(t) && (a.CycleFiles? || a.FullFiles?) && Holdable(files) && forall n :: n in names ==> n in files
    ensures LaidOut(CaptureFiles(t, a.Root(), names, files).0)
    decreases |names|
  {
    hide LaidOut, WriteFile;
    if names != [] {
      DirOwns(a, names[0]);
      WriteKeepsLayout(t, a, a.Root() + names[0], [Blob(files[names[0]])]);
      var (t1, e) := WriteFile(t, a.Root() + names[0], [Blob(files[names[0]])], false);
      if e.None? { CaptureFilesKeepLayout(t1, a, names[1..], files); }
    }
  }

  lemma CapturedInside(a: Artifact, names: seq<Path>, files: map<Path, Bytes>)
    requires a.IsDirectory() && Holdable(files) && forall n :: n in names ==> n in files
    ensures forall i :: 0 <= i < |names| ==> a.Owns(EntriesFor(a.Root(), names, files)[i].source)
  {
    forall i | 0 <= i < |names| ensures a.Owns(EntriesFor(a.Root(), names, files)[i].source) {
      assert names[i] in names;
      DirOwns(a, names[i]);
    }
  }

  lemma CapturedEntriesSound(t1: HostTree, t2: HostTree, a: Artifact, m: Artifact, names: seq<Path>,
                             files: map<Path, Bytes>)
    requires a.IsDirectory() && Holdable(files) && Effect(t1, t2, {m}) && a != m
    requires IsListing(names, files.Keys, ByPosix)
    requires forall n :: n in names ==> ContentAt(t1, a.Root() + n) == [Blob(files[n])]
    ensures EntriesSound(t2, EntriesFor(a.Root(), names, files), files)
    ensures Expected(EntriesFor(a.Root(), names, files)) == files.Keys
  {
    var es := EntriesFor(a.Root(), names, files);
    forall i | 0 <= i < |es| ensures ReadBlob(t2, es[i].source) == Some(files[names[i]]) {
      DirOwns(a, names[i]);
      EffectFrame(t1, t2, {m}, a, a.Root() + names[i]);
      assert names[i] in names;
    }
    forall n | n in files ensures n in Expected(es) {
      var i :| 0 <= i < |names| && names[i] == n;
      assert es[i].relativePath == n;
    }
  }

  /** The manifest's sources lie in the snapshot's own files directory. */
  ghost predicate SourcesInside(t: HostTree, target: SnapshotTarget) {
    var r := ReconstructRestore(t, target.Manifest().Root());
    r.Ok? ==> forall i :: 0 <= i < |r.value.entries| ==> target.Files().Owns(r.value.entries[i].source)
  }

  /** The stored manifest of a target is its own, and restores exactly F from its own files. */
  ghost predicate Recoverable(host: HostTree, target: SnapshotTarget, F: map<Path, Bytes>) {
    && Represents(host, target.Manifest().Root(), F) && SourcesInside(host, target)
    && ReconstructRestore(host, target.Manifest().Root()).value.snapshotId == target.Id()
  }

  /** A manifest keeps its meaning however the host grows. */
  lemma RepresentsKept(t: HostTree, t': HostTree, target: SnapshotTarget, F: map<Path, Bytes>)
    requires OnlyGrows(t, t')
    requires Represents(t, target.Manifest().Root(), F) && SourcesInside(t, target)
    ensures Represents(t', target.Manifest().Root(), F)
    ensures ReconstructRestore(t', target.Manifest().Root()) == ReconstructRestore(t, target.Manifest().Root())
  {
    hide OnlyGrows;
    var m := target.Manifest();
    FrozenByGrowth(t, t', m, m.Root());
    var es := ReconstructRestore(t, m.Root()).value.entries;
    forall i | 0 <= i < |es| ensures ReadBlob(t', es[i].source) == ReadBlob(t, es[i].source) {
      FrozenByGrowth(t, t', target.Files(), es[i].source);
    }
  }

  lemma RecoverableKept(t: HostTree, t': HostTree, target: SnapshotTarget, F: map<Path, Bytes>)
    requires OnlyGrows(t, t') && Recoverable(t, target, F)
    ensures Recoverable(t', target, F)
    ensures ReconstructRestore(t', target.Manifest().Root()) == ReconstructRestore(t, target.Manifest().Root())
  {
    hide OnlyGrows, Represents;
    RepresentsKept(t, t', target, F);
  }

  /** Restoring a recoverable snapshot into any workspace, after any growth of the host. */
  lemma RecoverableRestores(t: HostTree, t': HostTree, target: SnapshotTarget, F: map<Path, Bytes>, ws: WorkspaceTree)
    requires OnlyGrows(t, t') && Recoverable(t, target, F) && Holdable(F) && ws.WellFormed()
    ensures Recoverable(t', target, F) && UndoneBy(ws, target, t', F)
  {
    hide OnlyGrows, Represents, SourcesInside, Holdable, Restore, TreeOf;
    RecoverableKept(t, t', target, F);
    RestoreExact(ws, target.Manifest().Root(), t', F);
  }

  /** Restoring the target gives F back exactly, unless a file of F is a directory in the workspace. */
  ghost predicate UndoneBy(ws: WorkspaceTree, target: SnapshotTarget, host: HostTree, F: map<Path, Bytes>) {
    var (ws', r) := Restore(ws, target.Manifest().Root(), host);
    (r.Ok? <==> ws.dirs !! F.Keys) && (r.Ok? ==> ws' == TreeOf(F))
  }

  lemma HoldableFiles(ws: WorkspaceTree)
    requires ws.WellFormed()
    ensures Holdable(ws.files)
  {
    FilesFormAntichain(ws);
  }

  /* ---- the service ---- */

  lemma RestoreEntriesWellFormed(ws: WorkspaceTree, es: seq<ManifestEntry>, host: HostTree)
    requires ws.WellFormed()
    ensures RestoreEntries(ws, es, host).0.WellFormed()
    decreases |es|
  {
    if es != [] {
      var (w, e) := RestoreEntry(ws, es[0], host);
      assert w.WellFormed();
      if e.None? { RestoreEntriesWellFormed(w, es[1..], host); }
    }
  }

  /** Whatever a restore manages to do, it leaves a proper directory tree. */
  lemma RestoreWellFormed(ws: WorkspaceTree, manifest: Path, host: HostTree)
    requires ws.WellFormed()
    ensures Restore(ws, manifest, host).0.WellFormed()
  {
    hide RestoreEntries;
    var plan := ReconstructRestore(host, manifest);
    if plan.Ok? {
      var es := plan.value.entries;
      var w0 := RemoveStrays(ws, Expected(es));
      RestoreEntriesWellFormed(w0, es, host);
      var (w, e) := RestoreEntries(w0, es, host);
      if e.None? { PruneWellFormed(w); }
    }
  }

  lemma PruneWellFormed(t: WorkspaceTree)
    requires t.WellFormed()
    ensures Prune(t).WellFormed()
  {
    forall p, q | Prune(t).Exists(p) && Above(q, p) ensures q in Prune(t).dirs {
      if p !in t.files {
        var f :| f in t.files.Keys && Above(p, f);
        AboveTransitive(q, p, f);
      }
    }
  }

  lemma NotEmptyAbove(t: WorkspaceTree, d: Path, p: Path)
    requires t.WellFormed() && t.Exists(p) && Above(d, p)
    ensures !t.IsEmptyDir(d)
  {
    var child := p[..|d| + 1];
    assert child[..|d|] == d;
    assert child == p || Above(child, p);
    assert child in t.files.Keys + t.dirs;
  }

  /** In a tree whose deeper superfluous directories are gone, a directory is empty exactly when no
      file lies below it. */
  lemma EmptyIffNoFileBelow(t: WorkspaceTree, d: Path)
    requires t.WellFormed() && d in t.dirs
    requires forall c :: c in t.dirs && |c| > |d| ==> c in AncestorsOf(t.files.Keys)
    ensures t.IsEmptyDir(d) <==> d !in AncestorsOf(t.files.Keys)
  {
    if d in AncestorsOf(t.files.Keys) {
      var p :| p in t.files.Keys && Above(d, p);
      NotEmptyAbove(t, d, p);
    }
    if !t.IsEmptyDir(d) {
      var q :| q in t.files.Keys + t.dirs && |q| == |d| + 1 && q[..|d|] == d;
      assert Above(d, q);
      if q in t.dirs {
        var p :| p in t.files.Keys && Above(q, p);
        AboveTransitive(d, q, p);
      }
    }
  }

  /** Removing an empty directory leaves a tree. */
  lemma RmdirWellFormed(t: WorkspaceTree, d: Path)
    requires t.WellFormed() && d in t.dirs && t.IsEmptyDir(d)
    ensures t.(dirs := t.dirs - {d}).WellFormed()
  {
    forall p | t.Exists(p) ensures !Above(d, p) {
      if Above(d, p) { NotEmptyAbove(t, d, p); }
    }
  }

  /** The loop over strays has dealt with the first n names: what it removed is not expected. */
  ghost predicate StraysUpTo(names: seq<Path>, n: nat, before: map<Path, Bytes>, after: map<Path, Bytes>,
                             expected: set<Path>)
    requires n <= |names|
  {
    && after.Keys <= before.Keys && (forall p :: p in after ==> after[p] == before[p])
    && (forall p :: p in before ==> (p in after <==> p in expected || p in names[n..]))
  }

  lemma StrayStep(names: seq<Path>, n: nat, before: map<Path, Bytes>, after: map<Path, Bytes>, expected: set<Path>)
    requires n < |names| && StraysUpTo(names, n, before, after, expected)
    requires names[n] in before && names[n] !in names[n + 1..]
    ensures names[n] in after
    ensures StraysUpTo(names, n + 1, before, if names[n] in expected then after else after - {names[n]}, expected)
  {
    assert names[n..] == [names[n]] + names[n + 1..];
  }

  lemma StraysStart(names: seq<Path>, files: map<Path, Bytes>, expected: set<Path>)
    requires forall p :: p in files ==> p in names
    ensures StraysUpTo(names, 0, files, files, expected)
  {
    assert names[0..] == names;
  }

  lemma StraysGone(names: seq<Path>, before: WorkspaceTree, after: WorkspaceTree, expected: set<Path>)
    requires before.WellFormed() && after.dirs == before.dirs
    requires StraysUpTo(names, |names|, before.files, after.files, expected)
    ensures after == RemoveStrays(before, expected) && after.WellFormed()
  {
    assert after.files == RemoveStrays(before, expected).files;
  }

  /** The pruning loop has dealt with the first n names: what it removed is not needed. */
  ghost predicate PrunedUpTo(names: seq<Path>, n: nat, before: set<Path>, after: set<Path>, needed: set<Path>)
    requires n <= |names|
  {
    after <= before && forall d :: d in before ==> (d in after <==> d in needed || d in names[n..])
  }

  lemma PruneStart(names: seq<Path>, dirs: set<Path>, needed: set<Path>)
    requires IsListing(names, dirs, DeepestFirst)
    ensures PrunedUpTo(names, 0, dirs, dirs, needed)
  {
    assert names[0..] == names;
  }

  lemma PruneStep(names: seq<Path>, n: nat, before: set<Path>, after: set<Path>, needed: set<Path>)
    requires n < |names| && PrunedUpTo(names, n, before, after, needed) && IsListing(names, before, DeepestFirst)
    ensures names[n] in after && forall c :: c in after && |c| > |names[n]| ==> c in needed
    ensures PrunedUpTo(names, n + 1, before, if names[n] in needed then after else after - {names[n]}, needed)
  {
    assert names[n..] == [names[n]] + names[n + 1..];
    forall j | n < j < |names| ensures |names[j]| <= |names[n]| {
      assert DeepestFirst(names[n], names[j]);
    }
    forall c | c in names[n + 1..] ensures |c| <= |names[n]| { }
  }

  lemma ListedOnce(names: seq<Path>, s: set<Path>, leq: Order)
    requires IsListing(names, s, leq)
    ensures forall p :: p in names <==> p in s
    ensures forall i :: 0 <= i < |names| ==> names[i] in s && names[i] !in names[i + 1..]
  {
  }

  class SnapshotService {
    const fs: HostStore

    constructor (fs: HostStore)
      ensures this.fs == fs
    {
      this.fs := fs;
    }

    method CaptureSnapshot(target: SnapshotTarget, ws: Workspace)
      returns (r: Result<SnapshotCapture, Error>, ghost names: seq<Path>)
      modifies fs
      ensures IsListing(names, ws.files.Keys, ByPosix)
      ensures (fs.Tree(), r) == Capture(old(fs.Tree()), target, names, ws.files)
    {
      hide IsPreorder;
      OrdersArePreorders();
      var files := ws.files;
      var listing := Sorted(files.Keys, ByPosix);
      names := listing;
      var dir := target.Files().Root();
      var e, entries := WriteListed(dir, listing, files);
      if e.Some? {
        return Err(e.value), names;
      }
      var doc := target.Document(entries);
      e := fs.Write(target.Manifest().Root(), [SnapshotDoc(doc)]);
      if e.Some? {
        return Err(e.value), names;
      }
      return Ok(SnapshotCapture(target.Id(), doc.kind, target.Manifest().Root(), dir, |entries|)), names;
    }

    method WriteListed(dir: Path, listing: seq<Path>, files: map<Path, Bytes>)
      returns (error: Option<Error>, entries: seq<ManifestEntry>)
      requires forall n :: n in listing ==> n in files
      modifies fs
      ensures (fs.Tree(), error) == CaptureFiles(old(fs.Tree()), dir, listing, files)
      ensures error.None? ==> entries == EntriesFor(dir, listing, files)
    {
      hide WriteFile, EntryFor;
      entries := [];
      for i := 0 to |listing|
        invariant CaptureFiles(fs.Tree(), dir, listing[i..], files) == CaptureFiles(old(fs.Tree()), dir, listing, files)
        invariant |entries| == i
        invariant forall j :: 0 <= j < i ==> entries[j] == EntryFor(dir, listing[j], files[listing[j]])
      {
        var payload := files[listing[i]];
        error := fs.Write(dir + listing[i], [Blob(payload)]);
        if error.Some? {
          return;
        }
        entries := entries + [EntryFor(dir, listing[i], payload)];
        assert listing[i..][1..] == listing[i + 1..];
      }
      return None, entries;
    }

    method RestoreSnapshot(manifest: Path, ws: Workspace) returns (r: Result<SnapshotManifest, Error>)
      requires ws.Tree().WellFormed()
      modifies ws
      ensures (ws.Tree(), r) == Restore(old(ws.Tree()), manifest, fs.Tree())
    {
      r := ReconstructRestore(fs.Tree(), manifest);
      if r.Err? {
        return;
      }
      var entries := r.value.entries;
      DeleteStrays(Expected(entries), ws);
      var e := WriteEntries(entries, ws);
      if e.Some? {
        return Err(e.value);
      }
      PruneDirectories(ws);
    }

    method DeleteStrays(expected: set<Path>, ws: Workspace)
      requires ws.Tree().WellFormed()
      modifies ws
      ensures ws.Tree() == RemoveStrays(old(ws.Tree()), expected) && ws.Tree().WellFormed()
    {
      hide RemoveStrays, StraysUpTo, IsListing, IsPreorder;
      OrdersArePreorders();
      var names := Sorted(ws.files.Keys, ByPosixReversed);
      ListedOnce(names, ws.files.Keys, ByPosixReversed);
      StraysStart(names, ws.files, expected);
      for i := 0 to |names|
        invariant ws.dirs == old(ws.dirs)
        invariant StraysUpTo(names, i, old(ws.files), ws.files, expected)
      {
        StrayStep(names, i, old(ws.files), ws.files, expected);
        if names[i] !in expected {
          ws.Unlink(names[i]);
        }
      }
      StraysGone(names, old(ws.Tree()), ws.Tree(), expected);
    }

    method WriteEntries(entries: seq<ManifestEntry>, ws: Workspace) returns (error: Option<Error>)
      requires ws.Tree().WellFormed()
      modifies ws
      ensures (ws.Tree(), error) == RestoreEntries(old(ws.Tree()), entries, fs.Tree())
      ensures ws.Tree().WellFormed()
    {
      RestoreEntriesWellFormed(ws.Tree(), entries, fs.Tree());
      for i := 0 to |entries|
        invariant RestoreEntries(ws.Tree(), entries[i..], fs.Tree())
                  == RestoreEntries(old(ws.Tree()), entries, fs.Tree())
      {
        var entry := entries[i];
        error := ws.MkdirParents(entry.relativePath);
        if error.Some? {
          return;
        }
        var payload := ReadBlob(fs.Tree(), entry.source);
        if payload.None? {
          return Some(NotFound);
        }
        error := ws.WriteBytes(entry.relativePath, payload.value);
        if error.Some? {
          return;
        }
        assert entries[i..][1..] == entries[i + 1..];
      }
      return None;
    }

    /** One deepest-first pass leaves no empty directory. */
    method PruneDirectories(ws: Workspace)
      requires ws.Tree().WellFormed()
      modifies ws
      ensures ws.Tree() == Prune(old(ws.Tree()))
    {
      hide PrunedUpTo, IsListing, IsPreorder, AncestorsOf, Tree<Bytes>.WellFormed, Tree<Bytes>.IsEmptyDir;
      OrdersArePreorders();
      var names := Sorted(ws.dirs, DeepestFirst);
      ghost var needed := AncestorsOf(ws.files.Keys);
      PruneStart(names, ws.dirs, needed);
      for i := 0 to |names|
        invariant ws.files == old(ws.files) && ws.Tree().WellFormed()
        invariant PrunedUpTo(names, i, old(ws.dirs), ws.dirs, needed)
      {
        var d := names[i];
        PruneStep(names, i, old(ws.dirs), ws.dirs, needed);
        EmptyIffNoFileBelow(ws.Tree(), d);
        if ws.Tree().IsEmptyDir(d) {
          RmdirWellFormed(ws.Tree(), d);
          ws.Rmdir(d);
        }
      }
      PruneEnd(names, old(ws.dirs), ws.dirs, needed);
    }
  }

  lemma PruneEnd(names: seq<Path>, before: set<Path>, after: set<Path>, needed: set<Path>)
    requires PrunedUpTo(names, |names|, before, after, needed)
    ensures after == before * needed
  {
  }
}
