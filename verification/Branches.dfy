/** recovery/recovery.py, the branch evidence: a file named by the caller below the run's branch directory. The name
    is joined to that directory as a path, so it may have parts, and parts that climb. */
module Branches {
  import opened Prelude
  import opened FileTree
  import opened StoragePaths
  import opened Records
  import opened HostFilesystem
  import opened StorageLayout
  import opened Workspaces
  import opened Snapshots
  import opened AuditChain
  import opened Ledger

  function Split(s: string): (r: seq<string>)
    ensures r != []
  {
    if s == "" then [""]
    else
      var rest := Split(s[1..]);
      if s[0] == '/' then [""] + rest else [[s[0]] + rest[0]] + rest[1..]
  }

  /** The parts a path keeps: neither empty nor ".". */
  function Meaningful(parts: seq<string>): (r: Path)
    ensures forall p :: p in r <==> p in parts && p != "" && p != "."
  {
    if parts == [] then []
    else (if parts[0] == "" || parts[0] == "." then [] else [parts[0]]) + Meaningful(parts[1..])
  }

  predicate IsAbsolute(name: string) {
    name != "" && name[0] == '/'
  }

  /** The directories of the evidence file, unresolved. */
  function BranchDirs(run: RunScope, name: string): Path {
    BranchEvidence(run).Root() + Meaningful(Split(name)[..|Split(name)| - 1])
  }

  function BranchLeaf(name: string): string {
    Split(name)[|Split(name)| - 1] + ".json"
  }

  /** Where the evidence file of a branch is; an absolute name, or one that climbs out of the state root, has none. */
  function BranchFile(run: RunScope, name: string): Option<Path> {
    match Landing([], BranchDirs(run, name))
    case None => None
    case Some(dir) => if IsAbsolute(name) then None else Some(dir + [BranchLeaf(name)])
  }

  function WriteBranch(t: HostTree, run: RunScope, name: string, doc: Record): (HostTree, Option<Error>) {
    if IsAbsolute(name) then (t, Some(InvalidValue))
      else WriteThrough(t, BranchDirs(run, name), BranchLeaf(name), [doc])
  }

  /** The name keeps to the run's branch directory: every directory it passes leads there or lies inside, and the
      file is inside, unless the name is refused - for having no place, or for being made a directory by itself. */
  ghost predicate Confined(run: RunScope, name: string) {
    var b, passed := BranchEvidence(run), Visited([], BranchDirs(run, name));
    BranchFile(run, name).Some? ==>
      && (forall d :: d in passed ==> PlacedBy(b, d))
      && (b.Owns(BranchFile(run, name).value) || BranchFile(run, name).value in passed)
  }

  /** Nothing is in the way of the evidence file. */
  predicate BranchFree(t: HostTree, run: RunScope, name: string) {
    var passed := Visited([], BranchDirs(run, name));
    && BranchFile(run, name).Some?
    && passed !! t.files.Keys && BranchFile(run, name).value !in passed
    && !t.Exists(BranchFile(run, name).value)
  }

  /** Whatever the name, writing branch evidence succeeds exactly when nothing is in its way, and loses nothing. */
  lemma WriteBranchExact(t: HostTree, run: RunScope, name: string, doc: Record)
    requires t.WellFormed()
    ensures var (t', e) := WriteBranch(t, run, name, doc);
            && t'.WellFormed() && Keeps(t, t')
            && (e.None? <==> BranchFree(t, run, name))
            && t'.dirs <= t.dirs + Visited([], BranchDirs(run, name))
            && (e.None? ==> t'.dirs == t.dirs + Visited([], BranchDirs(run, name)))
            && (BranchFile(run, name).None? ==> t' == t && e == Some(InvalidValue))
            && t'.files == if e.None? then t.files[BranchFile(run, name).value := [doc]] else t.files
  {
    WriteThroughExact(t, BranchDirs(run, name), BranchLeaf(name), [doc]);
  }

  lemma WriteBranchGrows(t: HostTree, run: RunScope, name: string, doc: Record, places: iset<Path>)
    requires t.WellFormed() && (BranchFile(run, name).Some? ==> BranchFile(run, name).value in places)
    ensures var t' := WriteBranch(t, run, name, doc).0; t'.WellFormed() && GrowsWithin(t, t', places)
  {
    WriteBranchExact(t, run, name, doc);
  }

  /** Evidence files are never JSON-lines files. */
  lemma BranchFileIsNotJsonl(run: RunScope, name: string, a: Artifact)
    requires a.IsJsonl()
    ensures BranchFile(run, name) != Some(a.Root())
  {
    RootParts(a);
    var root := a.Root();
    assert root[|root| - 1] == a.Tail()[|a.Tail()| - 1];
    var last := root[|root| - 1];
    assert last[|last| - 1] == 'l' && BranchLeaf(name)[|BranchLeaf(name)| - 1] == 'n';
  }

  lemma ConfinedEffect(t: HostTree, run: RunScope, name: string, doc: Record)
    requires t.WellFormed() && doc.BranchDoc? && Confined(run, name)
    ensures Effect(t, WriteBranch(t, run, name, doc).0, {BranchEvidence(run)})
  {
    hide Confined, WriteBranch;
    var b := BranchEvidence(run);
    var (t', e) := WriteBranch(t, run, name, doc);
    WriteBranchExact(t, run, name, doc);
    if BranchFile(run, name).Some? {
      ConfinedPlaces(t, run, name);
      EffectOfAdding(t, t', b);
    } else {
      EffectReflexive(t, {b});
    }
  }

  lemma ConfinedKeepsLayout(t: HostTree, run: RunScope, name: string, doc: Record)
    requires LaidOut(t) && doc.BranchDoc? && Confined(run, name)
    ensures LaidOut(WriteBranch(t, run, name, doc).0)
  {
    hide Typed, Confined, WriteBranch, Effect;
    var b := BranchEvidence(run);
    var (t', e) := WriteBranch(t, run, name, doc);
    WriteBranchExact(t, run, name, doc);
    if BranchFile(run, name).Some? {
      ConfinedPlaces(t, run, name);
      FilesDecideTyped(t, t', b, if e.None? then BranchFile(run, name).value else [], [doc]);
      ConfinedEffect(t, run, name, doc);
      EffectKeepsPlaced(t, t', {b});
    }
  }

  lemma ConfinedPlaces(t: HostTree, run: RunScope, name: string)
    requires Confined(run, name) && BranchFile(run, name).Some?
    ensures forall d :: d in Visited([], BranchDirs(run, name)) ==> PlacedBy(BranchEvidence(run), d)
    ensures BranchFree(t, run, name) ==> BranchEvidence(run).Owns(BranchFile(run, name).value)
  {
  }

  /** Only files count for what they hold. */
  lemma FilesDecideTyped(t: HostTree, t': HostTree, b: Artifact, p: Path, content: Content)
    requires Typed(t) && Fits(b, content) && (b.Owns(p) || t'.files == t.files)
    requires t'.files == t.files || t'.files == t.files[p := content]
    ensures Typed(t')
  {
    if t'.files != t.files {
      PutKeepsTyped(t, b, p, content);
      assert Typed(t.(files := t.files[p := content]));
    }
  }

  lemma EffectOfAdding(t: HostTree, t': HostTree, b: Artifact)
    requires Keeps(t, t') && forall p :: p in t.files ==> t'.files[p] == t.files[p]
    requires forall p :: p in t'.files && p !in t.files ==> b.Owns(p)
    requires forall d :: d in t'.dirs && d !in t.dirs ==> PlacedBy(b, d)
    ensures Effect(t, t', {b})
  {
    forall p | p in t'.files && p !in t.files ensures OwnedBy({b}, p) { }
    forall d | d in t'.dirs && d !in t.dirs ensures PlacedAmong({b}, d) { }
  }

  lemma EffectKeepsPlaced(t: HostTree, t': HostTree, arts: set<Artifact>)
    requires Effect(t, t', arts) && AllPlaced(t)
    ensures AllPlaced(t')
  {
    forall p | p in t'.files && p !in t.files ensures Owned(p) { assert OwnedBy(arts, p); }
    forall d | d in t'.dirs && d !in t.dirs ensures exists a :: PlacedBy(a, d) { assert PlacedAmong(arts, d); }
  }

  /** A name keeps to its branch directory, whatever is stored, exactly when it is confined. */
  lemma ConfinedExactly(run: RunScope, name: string)
    ensures Confined(run, name) <==>
            (forall t: HostTree, doc: Record :: t.WellFormed() && doc.BranchDoc? ==>
               Effect(t, WriteBranch(t, run, name, doc).0, {BranchEvidence(run)}))
  {
    hide Effect, WriteBranch;
    if Confined(run, name) {
      forall t: HostTree, doc: Record | t.WellFormed() && doc.BranchDoc?
        ensures Effect(t, WriteBranch(t, run, name, doc).0, {BranchEvidence(run)})
      {
        ConfinedEffect(t, run, name, doc);
      }
    } else {
      var empty: HostTree, doc := Tree(map[], {}), BranchDoc(name, CycleScope(run, run.runId), BranchRefs([], []));
      UnconfinedEscapes(run, name, doc);
      assert empty.WellFormed() && doc.BranchDoc?;
    }
  }

  lemma UnconfinedEscapes(run: RunScope, name: string, doc: Record)
    requires !Confined(run, name)
    ensures !Effect(Tree(map[], {}), WriteBranch(Tree(map[], {}), run, name, doc).0, {BranchEvidence(run)})
  {
    var t: HostTree := Tree(map[], {});
    var b, passed, p := BranchEvidence(run), Visited([], BranchDirs(run, name)), BranchFile(run, name).value;
    WalkExact(t, [], BranchDirs(run, name));
    var (t', e) := WriteBranch(t, run, name, doc);
    WriteBranchExact(t, run, name, doc);
    assert t'.dirs == passed;
    if exists d :: d in passed && !PlacedBy(b, d) {
      var d :| d in passed && !PlacedBy(b, d);
      assert !PlacedAmong({b}, d);
    } else {
      assert !b.Owns(p) && p !in passed;
      assert e.None?;
      assert !OwnedBy({b}, p);
    }
  }

  /** Names without a climbing part are confined; the evidence is then the file the name reads as. */
  lemma StraightIsConfined(run: RunScope, name: string)
    requires ".." !in Split(name)[..|Split(name)| - 1]
    ensures Confined(run, name)
    ensures !IsAbsolute(name) ==> BranchFile(run, name) == Some(BranchDirs(run, name) + [BranchLeaf(name)])
  {
    var b, dirs, leaf := BranchEvidence(run), BranchDirs(run, name), BranchLeaf(name);
    RootParts(b);
    RootDoesNotClimb(run);
    StraightLanding([], dirs);
    StraightVisited([], dirs, leaf);
    assert [] + dirs == dirs;
    var p := dirs + [leaf];
    assert p[..|b.Root()|] == b.Root();
    assert b.Owns(p);
    forall d | d in Visited([], dirs) ensures PlacedBy(b, d) {
      AncestorsPlaced(b, p, d);
    }
  }

  /** A name of plain parts is the path of its evidence below the branch directory. */
  lemma PlainNameIsPath(run: RunScope, dirs: Path, leaf: string)
    requires (forall p :: p in dirs ==> IsPlain(p)) && '/' !in leaf && (dirs == [] ==> leaf != "")
    ensures BranchFile(run, Posix(dirs + [leaf])) == Some(BranchEvidence(run).Root() + dirs + [leaf + ".json"])
    ensures Posix([leaf]) == leaf
  {
    hide Meaningful;
    var parts, name := dirs + [leaf], Posix(dirs + [leaf]);
    SplitOfJoined(parts);
    hide Split, Posix;
    assert parts[..|parts| - 1] == dirs;
    assert dirs == [] || dirs[0] in dirs;
    MeaningfulKeepsAll(dirs);
    NotAbsolute(dirs, leaf);
    StraightIsConfined(run, name);
  }

  lemma NotAbsolute(dirs: Path, leaf: string)
    requires (forall p :: p in dirs ==> IsPlain(p)) && '/' !in leaf && (dirs == [] ==> leaf != "")
    ensures !IsAbsolute(Posix(dirs + [leaf]))
  {
    var parts := dirs + [leaf];
    if dirs == [] {
      assert Posix(parts) == leaf;
    } else {
      assert dirs[0] in dirs && parts[0] == dirs[0];
      assert Posix(parts)[0] == dirs[0][0];
    }
  }

  lemma RootDoesNotClimb(run: RunScope)
    ensures ".." !in BranchEvidence(run).Root()
  {
    var root := BranchEvidence(run).Root();
    NoDotInId(run.projectId, "..", 0);
    NoDotInId(run.glassboxId, "..", 0);
    NoDotInId(run.experimentId, "..", 0);
    NoDotInId(run.runId, "..", 0);
    assert root == ["mirrors", "projects", run.projectId, "glassboxes", run.glassboxId, "experiments", run.experimentId,
                    "runs", run.runId, "git", "branches"];
  }

  lemma SplitClimbing()
    ensures Split("../x") == ["..", "x"]
  {
    assert Split("x") == ["x"] by { assert "x"[1..] == "" && ['x'] + "" == "x"; }
    assert Split("/x") == ["", "x"] by { assert "/x"[1..] == "x"; }
    assert Split("./x") == [".", "x"] by { assert "./x"[1..] == "/x" && ['.'] + "" == "."; }
    assert "../x"[1..] == "./x" && ['.'] + "." == "..";
  }

  lemma ClimbingDirs(run: RunScope)
    ensures BranchDirs(run, "../x") == BranchEvidence(run).Root() + [".."] && BranchLeaf("../x") == "x.json"
  {
    SplitClimbing();
    hide Split;
    assert ["..", "x"][..1] == [".."];
    assert Meaningful([".."]) == [".."];
  }

  /** A name that climbs one step puts its evidence beside the branch directory. */
  lemma ClimbingNameIsNotConfined(run: RunScope)
    ensures !Confined(run, "../x")
  {
    hide Split, Meaningful, BranchDirs, BranchLeaf, Landing, Visited;
    var b := BranchEvidence(run);
    var root := b.Root();
    ClimbingDirs(run);
    RootDoesNotClimb(run);
    RootParts(b);
    assert [] + root == root;
    OneStepUp([], root);
    StraightVisited([], root, "");
    var p := root[..|root| - 1] + ["x.json"];
    assert BranchFile(run, "../x") == Some(p);
    assert !b.Owns(p);
    assert p[|root| - 1] == "x.json" && root[|root| - 1] == "branches";
    assert !Above(p, root + [""]) by { assert (root + [""])[..|root|] == root; }
  }

  lemma {:induction false} OneStepUp(at: Path, parts: Path)
    requires ".." !in parts && at + parts != []
    ensures Landing(at, parts + [".."]) == Some((at + parts)[..|at + parts| - 1])
    ensures Visited(at, parts + [".."]) == Visited(at, parts)
    decreases |parts|
  {
    if parts == [] {
      assert at + parts == at && [".."][1..] == [];
      assert parts + [".."] == [".."];
    } else {
      var next := at + [parts[0]];
      OneStepUp(next, parts[1..]);
      assert next + parts[1..] == at + parts;
      assert (parts + [".."])[1..] == parts[1..] + [".."];
    }
  }

  /* ---- names that pass through a ledger ---- */

  /** No evidence file is where a directory of a ledger would be. */
  lemma BranchFileIsNotAboveLedger(run: RunScope, name: string, other: RunScope)
    requires BranchFile(run, name).Some?
    ensures !Above(BranchFile(run, name).value, LedgerFile(other))
  {
    var p, ledger := BranchFile(run, name).value, LedgerFile(other);
    LedgerParts(other);
    if Above(p, ledger) {
      var part := ledger[|p| - 1];
      assert part == p[|p| - 1] == BranchLeaf(name);
      assert part[|part| - 5] == '.';
      NoDotInId(other.projectId, part, |part| - 5);
      NoDotInId(other.glassboxId, part, |part| - 5);
      NoDotInId(other.experimentId, part, |part| - 5);
      NoDotInId(other.runId, part, |part| - 5);
    }
  }

  /** Branch evidence that is written blocks a run's ledger exactly if its name passes through the ledger's place. */
  lemma BranchBlocksLedgerExactly(t: HostTree, run: RunScope, name: string, doc: Record, other: RunScope)
    requires t.WellFormed() && WriteBranch(t, run, name, doc).1.None?
    ensures LedgerBlocked(WriteBranch(t, run, name, doc).0, other)
            <==> LedgerBlocked(t, other) || LedgerFile(other) in Visited([], BranchDirs(run, name))
  {
    hide WriteBranch, Visited, BranchDirs;
    WriteBranchExact(t, run, name, doc);
    BranchFileIsNotAboveLedger(run, name, other);
    RootParts(AuditLog(other));
  }

  function Ups(n: nat): Path {
    seq(n, i => "..")
  }

  /** A branch name that climbs to the state root and down again through the run's own ledger. */
  function BlockingName(run: RunScope): string {
    Posix(Ups(|BranchEvidence(run).Root()|) + LedgerFile(run) + ["x"])
  }

  lemma SplitPlain(s: string, rest: string)
    requires '/' !in s
    ensures Split(s) == [s] && Split(s + "/" + rest) == [s] + Split(rest)
  {
    var t := s + "/" + rest;
    if s == "" {
      assert t[1..] == rest;
    } else {
      SplitPlain(s[1..], rest);
      assert t[1..] == s[1..] + "/" + rest;
      assert [s[0]] + s[1..] == s;
    }
  }

  lemma {:induction false} SplitOfJoined(parts: Path)
    requires parts != [] && forall p :: p in parts ==> '/' !in p
    ensures Split(Posix(parts)) == parts
    decreases |parts|
  {
    SplitPlain(parts[0], if |parts| == 1 then "" else Posix(parts[1..]));
    if |parts| > 1 { SplitOfJoined(parts[1..]); }
  }

  lemma MeaningfulKeepsAll(parts: Path)
    requires "" !in parts && "." !in parts
    ensures Meaningful(parts) == parts
  {
  }

  lemma {:induction false} LandingAfter(at: Path, a: Path, b: Path)
    requires Landing(at, a).Some?
    ensures Landing(at, a + b) == Landing(Landing(at, a).value, b)
    ensures Visited(at, a + b) == Visited(at, a) + Visited(Landing(at, a).value, b)
    decreases |a|
  {
    if a == [] {
      assert a + b == b;
    } else {
      assert (a + b)[1..] == a[1..] + b;
      LandingAfter(if a[0] == ".." then at[..|at| - 1] else at + [a[0]], a[1..], b);
    }
  }

  lemma {:induction false} AllTheWayUp(at: Path)
    ensures Landing(at, Ups(|at|)) == Some([]) && Visited(at, Ups(|at|)) == {}
    decreases |at|
  {
    if at != [] {
      assert Ups(|at|)[1..] == Ups(|at| - 1);
      AllTheWayUp(at[..|at| - 1]);
    }
  }

  predicate IsPlain(p: string) {
    '/' !in p && p != "" && p != "." && p != ".."
  }

  lemma SegmentIsPlain(s: Segment)
    ensures IsPlain(s)
  {
    forall i | 0 <= i < |s| ensures s[i] != '/' && s[i] != '.' { assert IdChar(s[i]); }
  }

  lemma LedgerPathIsPlain(run: RunScope)
    ensures forall p :: p in LedgerFile(run) ==> IsPlain(p)
    ensures LedgerFile(run)[0] == "audit" && |LedgerFile(run)| == 10
  {
    SegmentIsPlain(run.projectId);
    SegmentIsPlain(run.glassboxId);
    SegmentIsPlain(run.experimentId);
    SegmentIsPlain(run.runId);
    assert IsPlain("audit") && IsPlain("projects") && IsPlain("glassboxes") && IsPlain("experiments");
    assert IsPlain("runs") && IsPlain("ledger.jsonl");
    hide IsPlain, LedgerFile;
    LedgerParts(run);
  }

  lemma BlockingDirs(run: RunScope)
    ensures var root := BranchEvidence(run).Root();
            BranchDirs(run, BlockingName(run)) == root + (Ups(|root|) + LedgerFile(run))
    ensures BranchLeaf(BlockingName(run)) == "x.json" && !IsAbsolute(BlockingName(run))
  {
    hide Split, Meaningful;
    var ups := Ups(|BranchEvidence(run).Root()|);
    var parts := ups + LedgerFile(run) + ["x"];
    LedgerPathIsPlain(run);
    SplitOfJoined(parts);
    assert parts[..|parts| - 1] == ups + LedgerFile(run);
    MeaningfulKeepsAll(ups + LedgerFile(run));
    RootParts(BranchEvidence(run));
    assert parts[0] == "..";
  }

  /** It passes through the ledger's place and ends below it. */
  lemma BlockingPlace(run: RunScope)
    ensures var name, passed := BlockingName(run), Visited([], BranchDirs(run, BlockingName(run)));
            && BranchFile(run, name) == Some(LedgerFile(run) + ["x.json"])
            && LedgerFile(run) + ["x.json"] !in passed && LedgerFile(run) in passed && !IsAbsolute(name)
  {
    hide Split, Meaningful, BranchDirs, BranchLeaf, Landing, Visited, BlockingName, Ups;
    var root, ledger, name := BranchEvidence(run).Root(), LedgerFile(run), BlockingName(run);
    BlockingDirs(run);
    RootDoesNotClimb(run);
    RootParts(BranchEvidence(run));
    LedgerPathIsPlain(run);
    assert [] + root == root && [] + ledger == ledger;
    StraightLanding([], root);
    StraightVisited([], root, "");
    AllTheWayUp(root);
    StraightLanding([], ledger);
    StraightVisited([], ledger, "");
    LandingAfter(root, Ups(|root|), ledger);
    LandingAfter([], root, Ups(|root|) + ledger);
    var p, passed := ledger + ["x.json"], Visited([], BranchDirs(run, name));
    assert p !in passed by { assert p[0] == "audit" && |p| == 11; }
    assert ledger in passed by { assert (ledger + [""])[..10] == ledger; }
  }

  /** One branch name, and the run's ledger can never be written: on an empty host its evidence is stored, and no event
      of the run can be recorded afterwards. */
  lemma LedgerCanBeBlocked(h: Hasher, run: RunScope, doc: Record, event: AuditEvent)
    requires event.run == run
    ensures var (t, e) := WriteBranch(Tree(map[], {}), run, BlockingName(run), doc);
            e.None? && LedgerBlocked(t, run) && AppendEntry(h, t, event) == (t, Err(IsADirectory))
  {
    hide BranchDirs, BranchFile, Visited, BlockingName, WriteBranch;
    BlockingPlace(run);
    LedgerPathIsPlain(run);
    WriteBranchExact(Tree(map[], {}), run, BlockingName(run), doc);
    BranchBlocksLedgerExactly(Tree(map[], {}), run, BlockingName(run), doc, run);
    NothingAboveLedger(run, BlockingName(run), doc);
  }

  lemma NothingAboveLedger(run: RunScope, name: string, doc: Record)
    requires WriteBranch(Tree(map[], {}), run, name, doc).1.None? && BranchFile(run, name).Some?
    ensures !WriteBranch(Tree(map[], {}), run, name, doc).0.BlockedAbove(LedgerFile(run))
  {
    hide WriteBranch, BranchFile, Visited, BranchDirs;
    WriteBranchExact(Tree(map[], {}), run, name, doc);
    BranchFileIsNotAboveLedger(run, name, run);
  }

  /* ---- other services do not get in the way ---- */

  lemma BranchFreeFrame(t: HostTree, t': HostTree, arts: set<Artifact>, run: RunScope, name: string)
    requires Effect(t, t', arts) && BranchEvidence(run) !in arts && Confined(run, name)
    ensures BranchFree(t, run, name) <==> BranchFree(t', run, name)
  {
    var b, passed := BranchEvidence(run), Visited([], BranchDirs(run, name));
    if BranchFile(run, name).Some? && BranchFile(run, name).value !in passed {
      var p := BranchFile(run, name).value;
      ExistsFrame(t, t', arts, b, p);
      forall d | d in passed && d in t'.files ensures d in t.files {
        if d !in t.files {
          var a :| a in arts && a.Owns(d);
          PlacedIsOwn(a, b, d);
        }
      }
    }
  }

  /** A place on the way to, or in, an artifact's directory can be no other artifact's file. */
  lemma PlacedIsOwn(a: Artifact, b: Artifact, d: Path)
    requires PlacedBy(b, d) && a.Owns(d)
    ensures a == b
  {
    if Above(d, b.Root()) {
      if a.IsDirectory() { AboveTransitive(a.Root(), d, b.Root()); }
      RootsIncomparable(a, b);
    } else if d == b.Root() {
      RootsIncomparable(a, b);
    } else {
      OwnershipExclusive(a, b, d, d);
    }
  }
}
