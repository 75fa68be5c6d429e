/** storage/exports.py: artifacts leave the sandbox once each, listed in a per-run manifest. */
module Exports {
  import opened Prelude
  import opened FileTree
  import opened StoragePaths
  import opened Records
  import opened HostFilesystem
  import opened StorageLayout

  const OUTBOX: Path := ["workspace", ".gb", "outbox"]

  /** A path strictly below the sanctioned outbox, given by its parts. */
  predicate IsExportTarget(p: Path) {
    Above(OUTBOX, p) && ".." !in p
  }

  datatype ExportReceipt = ExportReceipt(artifactId: Segment, sandboxPath: Path, exportDir: Path, artifactPath: Path,
                                         manifestPath: Path)

  function ManifestPath(run: RunScope): Path { ExportManifest(run).Root() }

  function ItemDir(run: RunScope, id: Segment): Path { ExportItem(run, id).Root() }

  function ItemFile(run: RunScope, id: Segment, sandboxPath: Path): Path
    requires sandboxPath != []
  {
    ItemDir(run, id) + [sandboxPath[|sandboxPath| - 1]]
  }

  function ExportBytes(t: HostTree, run: RunScope, id: Segment, sandboxPath: Path, payload: Bytes):
    (HostTree, Result<ExportReceipt, Error>) {
    if !IsExportTarget(sandboxPath) then (t, Err(InvalidValue))
    else if t.Exists(ItemDir(run, id)) then (t, Err(FileExists))
    else
      var (t1, e1) := EnsureDirectory(t, ItemDir(run, id));
      if e1.Some? then (t1, Err(e1.value))
      else
        var (t2, e2) := WriteFile(t1, ItemFile(run, id, sandboxPath), [Blob(payload)], false);
        if e2.Some? then (t2, Err(e2.value))
        else
          var (t3, e3) := AppendLines(t2, ManifestPath(run), [ExportLine(id, sandboxPath)]);
          if e3.Some? then (t3, Err(e3.value))
          else (t3, Ok(ExportReceipt(id, sandboxPath, ItemDir(run, id), ItemFile(run, id, sandboxPath),
                                     ManifestPath(run))))
  }

  /** Whether this export id was used. */
  predicate Exported(t: HostTree, run: RunScope, id: Segment) {
    ItemDir(run, id) in t.dirs
  }

  lemma ItemIsFree(t: HostTree, run: RunScope, id: Segment, name: string)
    requires LaidOut(t) && !Exported(t, run, id)
    ensures !t.Exists(ItemDir(run, id)) && !t.BlockedAbove(ItemDir(run, id))
    ensures !t.Exists(ItemDir(run, id) + [name])
  {
    var a := ExportItem(run, id);
    RootParts(a);
    var p := ItemDir(run, id) + [name];
    assert p[..|ItemDir(run, id)|] == ItemDir(run, id);
    assert Above(ItemDir(run, id), p);
    forall q | q in t.files && (q == a.Root() || Above(q, a.Root())) ensures false {
      var b: Artifact :| b.Owns(q);
      RootParts(b);
      if b.IsDirectory() {
        if q != a.Root() { AboveTransitive(b.Root(), q, a.Root()); }
        RootsIncomparable(b, a);
      } else {
        RootsIncomparable(b, a);
      }
    }
  }

  lemma MakeItemDir(t: HostTree, run: RunScope, id: Segment)
    requires LaidOut(t) && !Exported(t, run, id)
    ensures var (t', e) := EnsureDirectory(t, ItemDir(run, id));
            && e == None && LaidOut(t') && Effect(t, t', {ExportItem(run, id)}) && Exported(t', run, id)
            && t'.files == t.files
            && forall p :: Above(ItemDir(run, id), p) ==>
                 (t'.Exists(p) <==> t.Exists(p)) && (t'.BlockedAbove(p) <==> t.BlockedAbove(p))
  {
    var a := ExportItem(run, id);
    RootParts(a);
    ItemIsFree(t, run, id, "");
    EnsureDirectoryIsAppendOnly(t, a.Root());
    var t' := EnsureDirectory(t, a.Root()).0;
    assert t'.dirs == t.dirs + Ancestors(a.Root()) + {a.Root()};
    forall d | d in t'.dirs && d !in t.dirs ensures PlacedBy(a, d) { }
    assert forall d :: PlacedBy(a, d) ==> PlacedAmong({a}, d);
  }

  /** Nothing of an export item can exist, or be blocked, before the item does. */
  lemma NothingInside(t: HostTree, run: RunScope, id: Segment, p: Path)
    requires LaidOut(t) && !Exported(t, run, id) && Above(ItemDir(run, id), p)
    ensures !t.Exists(p) && !t.BlockedAbove(p)
  {
    ItemIsFree(t, run, id, "");
    forall q | q in t.files && Above(q, p) ensures false {
      if |q| < |ItemDir(run, id)| {
        AboveComparable(q, ItemDir(run, id), p);
      } else if |ItemDir(run, id)| < |q| {
        AboveComparable(ItemDir(run, id), q, p);
      }
    }
  }

  /** An export succeeds exactly when its target is sanctioned and its id is new; then the payload and one
      manifest line are added. A refused export changes nothing. */
  lemma ExportExact(t: HostTree, run: RunScope, id: Segment, sandboxPath: Path, payload: Bytes)
    requires LaidOut(t)
    ensures var (t', r) := ExportBytes(t, run, id, sandboxPath, payload);
            && LaidOut(t') && Effect(t, t', {ExportItem(run, id), ExportManifest(run)})
            && (r.Ok? <==> IsExportTarget(sandboxPath) && !Exported(t, run, id))
            && (r.Err? ==> t' == t)
            && (r.Ok? ==>
                  && Exported(t', run, id)
                  && ContentAt(t', ManifestPath(run)) == ContentAt(t, ManifestPath(run)) + [ExportLine(id, sandboxPath)]
                  && ContentAt(t', ItemFile(run, id, sandboxPath)) == [Blob(payload)])
  {
    hide LaidOut, Effect, EnsureDirectory, WriteFile, AppendLines;
    var item, manifest := ExportItem(run, id), ExportManifest(run);
    var arts := {item, manifest};
    EffectReflexive(t, arts);
    if IsExportTarget(sandboxPath) && !Exported(t, run, id) {
      ItemIsFree(t, run, id, "");
      MakeItemDir(t, run, id);
      var t1 := EnsureDirectory(t, ItemDir(run, id)).0;
      var p := ItemFile(run, id, sandboxPath);
      ItemFileOwned(run, id, sandboxPath);
      NothingInside(t, run, id, p);
      WritePayload(t1, item, p, payload);
      var t2 := WriteFile(t1, p, [Blob(payload)], false).0;
      var line := [ExportLine(id, sandboxPath)];
      LaidOutIsWellFormed(t2);
      AppendKeepsLayout(t2, manifest, line);
      AppendEffect(t2, manifest, line);
      AppendIsAppendOnly(t2, manifest.Root(), line);
      var t3 := AppendLines(t2, manifest.Root(), line).0;
      EffectWiden(t, t1, {item}, arts);
      EffectWiden(t1, t2, {item}, arts);
      EffectWiden(t2, t3, {manifest}, arts);
      EffectTransitive(t, t1, t2, arts);
      EffectTransitive(t, t2, t3, arts);
      EffectFrame(t1, t2, {item}, manifest, manifest.Root());
      EffectFrozen(t2, t3, {manifest}, item, p);
      DirsKept(t1, t2, {item}, ItemDir(run, id));
      DirsKept(t2, t3, {manifest}, ItemDir(run, id));
    } else if IsExportTarget(sandboxPath) {
      assert t.Exists(ItemDir(run, id));
    }
  }

  /** What an export that succeeds hands back: the payload lies at the artifact path, under the name it had in the
      outbox and in a directory of its own, and the manifest at the manifest path ends with its line. Only paths below
      the outbox that do not climb are exported. */
  lemma ExportReturns(t: HostTree, run: RunScope, id: Segment, sandboxPath: Path, payload: Bytes)
    requires t.WellFormed() && ExportBytes(t, run, id, sandboxPath, payload).1.Ok?
    ensures |sandboxPath| > 3 && sandboxPath[..3] == ["workspace", ".gb", "outbox"] && ".." !in sandboxPath
    ensures var (t', r) := ExportBytes(t, run, id, sandboxPath, payload);
            && r.value.artifactId == id && r.value.sandboxPath == sandboxPath
            && r.value.exportDir == ExportItem(run, id).Root() && t'.IsDir(r.value.exportDir)
            && r.value.artifactPath == r.value.exportDir + [sandboxPath[|sandboxPath| - 1]]
            && ContentAt(t', r.value.artifactPath) == [Blob(payload)]
            && r.value.manifestPath == ExportManifest(run).Root()
            && ContentAt(t', r.value.manifestPath)
               == ContentAt(t, r.value.manifestPath) + [ExportLine(id, sandboxPath)]
  {
    hide EnsureDirectory, WriteFile, AppendLines, ContentAt;
    var item, manifest := ItemDir(run, id), ManifestPath(run);
    var p, line := ItemFile(run, id, sandboxPath), [ExportLine(id, sandboxPath)];
    ItemFileOwned(run, id, sandboxPath);
    if p == manifest { OwnershipExclusive(ExportItem(run, id), ExportManifest(run), p, manifest); }
    EnsureDirectoryIsAppendOnly(t, item);
    var t1 := EnsureDirectory(t, item).0;
    SameFilesSameLines(t, t1);
    WriteIsAppendOnly(t1, p, [Blob(payload)], false);
    var t2 := WriteFile(t1, p, [Blob(payload)], false).0;
    PutContent(t2, p, [Blob(payload)]);
    assert ContentAt(t2, manifest) == ContentAt(t, manifest);
    AppendIsAppendOnly(t2, manifest, line);
    var (t3, e3) := AppendLines(t2, manifest, line);
    assert e3.None? && ExportBytes(t, run, id, sandboxPath, payload).0 == t3;
    assert ContentAt(t3, manifest) == ContentAt(t, manifest) + line && ContentAt(t3, p) == ContentAt(t2, p);
    assert t1.IsDir(item) && Keeps(t2, t3);
    KeptDirectory(t1, t2, p, [Blob(payload)], item);
  }

  lemma KeptDirectory(t: HostTree, t': HostTree, p: Path, content: Content, d: Path)
    requires t.WellFormed() && t' == WriteFile(t, p, content, false).0 && t.IsDir(d)
    ensures t'.IsDir(d)
  {
  }

  lemma SameFilesSameLines(t: HostTree, t': HostTree)
    requires t'.files == t.files
    ensures forall p :: ContentAt(t', p) == ContentAt(t, p)
  {
  }

  lemma PutContent(t: HostTree, p: Path, content: Content)
    requires p in t.files && t.files[p] == content
    ensures ContentAt(t, p) == content
  {
  }

  lemma DirsKept(t: HostTree, t': HostTree, arts: set<Artifact>, d: Path)
    requires Effect(t, t', arts) && d in t.dirs
    ensures d in t'.dirs
  {
  }

  lemma ItemFileOwned(run: RunScope, id: Segment, sandboxPath: Path)
    requires sandboxPath != []
    ensures ExportItem(run, id).Owns(ItemFile(run, id, sandboxPath))
  {
    RootParts(ExportItem(run, id));
    var p := ItemFile(run, id, sandboxPath);
    assert p[..|ItemDir(run, id)|] == ItemDir(run, id);
  }

  lemma WritePayload(t: HostTree, a: Artifact, p: Path, payload: Bytes)
    requires LaidOut(t) && a.ExportItem? && a.Owns(p) && !t.Exists(p) && !t.BlockedAbove(p)
    ensures var (t', e) := WriteFile(t, p, [Blob(payload)], false);
            && e == None && LaidOut(t') && Effect(t, t', {a}) && p in t'.files && t'.files[p] == [Blob(payload)]
  {
    WriteKeepsLayout(t, a, p, [Blob(payload)]);
    WriteEffect(t, a, p, [Blob(payload)]);
  }

  class AppendOnlyExportWriter {
    const fs: HostStore

    constructor (fs: HostStore)
      ensures this.fs == fs
    {
      this.fs := fs;
    }

    method Export(run: RunScope, id: Segment, sandboxPath: Path, payload: Bytes)
      returns (r: Result<ExportReceipt, Error>)
      modifies fs
      ensures (fs.Tree(), r) == ExportBytes(old(fs.Tree()), run, id, sandboxPath, payload)
    {
      if !IsExportTarget(sandboxPath) {
        return Err(InvalidValue);
      }
      var dir := ItemDir(run, id);
      if fs.Tree().Exists(dir) {
        return Err(FileExists);
      }
      var e := fs.EnsureDir(dir);
      if e.Some? {
        return Err(e.value);
      }
      e := fs.Write(ItemFile(run, id, sandboxPath), [Blob(payload)]);
      if e.Some? {
        return Err(e.value);
      }
      e := fs.AppendJsonl(ManifestPath(run), [ExportLine(id, sandboxPath)]);
      if e.Some? {
        return Err(e.value);
      }
      return Ok(ExportReceipt(id, sandboxPath, dir, ItemFile(run, id, sandboxPath), ManifestPath(run)));
    }
  }
}
