/** storage/filesystem.py: the writers through which every host file is created or extended. */
module HostFilesystem {
  import opened Prelude
  import opened FileTree
  import opened StoragePaths
  import opened Records

  /** write_json, write_text and write_bytes. */
  function WriteFile(t: HostTree, p: Path, content: Content, overwrite: bool): (HostTree, Option<Error>) {
    match t.MkdirParents(p)
    case Err(e) => (t, Some(e))
    case Ok(t1) =>
      if t1.Exists(p) && !overwrite then (t1, Some(FileExists))
      else if t1.IsDir(p) then (t1, Some(IsADirectory))
      else (t1.(files := t1.files[p := content]), None)
  }

  function AppendLines(t: HostTree, p: Path, lines: Content): (HostTree, Option<Error>) {
    match t.MkdirParents(p)
    case Err(e) => (t, Some(e))
    case Ok(t1) =>
      if t1.IsDir(p) then (t1, Some(IsADirectory))
      else (t1.(files := t1.files[p := ContentAt(t, p) + lines]), None)
  }

  function EnsureDirectory(t: HostTree, p: Path): (HostTree, Option<Error>) {
    if t.BlockedAbove(p) then (t, Some(NotADirectory))
    else if p in t.files then (t, Some(FileExists))
    else if p == [] then (t, None)
    else (t.(dirs := t.dirs + Ancestors(p) + {p}), None)
  }

  /** What reading a path raises where there is no file. */
  function ReadError(t: HostTree, p: Path): Error {
    if t.BlockedAbove(p) then NotADirectory else if t.IsDir(p) then IsADirectory else NotFound
  }

  /* ---- paths that are not yet resolved ---- */

  /** Where a path leads, read part by part; None if it climbs out of the root. */
  function Landing(at: Path, parts: Path): Option<Path>
    decreases |parts|
  {
    if parts == [] then Some(at)
    else if parts[0] != ".." then Landing(at + [parts[0]], parts[1..])
    else if at == [] then None
    else Landing(at[..|at| - 1], parts[1..])
  }

  /** The directories passed on the way. */
  function Visited(at: Path, parts: Path): set<Path>
    decreases |parts|
  {
    if parts == [] then {}
    else if parts[0] != ".." then {at + [parts[0]]} + Visited(at + [parts[0]], parts[1..])
    else if at == [] then {}
    else Visited(at[..|at| - 1], parts[1..])
  }

  /** mkdir(parents=True, exist_ok=True) on an unresolved path: the parts are made in turn. */
  function Walk(t: HostTree, at: Path, parts: Path): (HostTree, Option<Error>)
    decreases |parts|
  {
    if parts == [] then (t, None)
    else if parts[0] == ".." then if at == [] then (t, Some(InvalidValue)) else Walk(t, at[..|at| - 1], parts[1..])
    else
      var next := at + [parts[0]];
      if next in t.files then (t, Some(if |parts| == 1 then FileExists else NotADirectory))
      else Walk(t.(dirs := t.dirs + {next}), next, parts[1..])
  }

  /** write_json on a path given by a directory still to be resolved and a plain file name. */
  function WriteThrough(t: HostTree, parts: Path, leaf: string, content: Content): (HostTree, Option<Error>) {
    match Landing([], parts)
    case None => (t, Some(InvalidValue))
    case Some(dir) =>
      var (t1, e) := Walk(t, [], parts);
      if e.Some? then (t1, e)
      else if t1.Exists(dir + [leaf]) then (t1, Some(FileExists))
      else (t1.(files := t1.files[dir + [leaf] := content]), None)
  }

  class HostStore {
    var files: map<Path, Content>
    var dirs: set<Path>

    constructor ()
      ensures Tree() == FileTree.Tree.Tree(map[], {})
    {
      files, dirs := map[], {};
    }

    function Tree(): HostTree
      reads this
    {
      FileTree.Tree.Tree(files, dirs)
    }

    method EnsureDir(p: Path) returns (error: Option<Error>)
      modifies this
      ensures (Tree(), error) == EnsureDirectory(old(Tree()), p)
    {
      var t := Tree();
      if t.BlockedAbove(p) {
        return Some(NotADirectory);
      }
      if p in files {
        return Some(FileExists);
      }
      if p != [] {
        dirs := dirs + Ancestors(p) + {p};
      }
      return None;
    }

    method Write(p: Path, content: Content, overwrite: bool := false) returns (error: Option<Error>)
      modifies this
      ensures (Tree(), error) == WriteFile(old(Tree()), p, content, overwrite)
    {
      error := PrepareFile(p, overwrite);
      if error.None? {
        if Tree().IsDir(p) {
          return Some(IsADirectory);
        }
        files := files[p := content];
      }
    }

    method WriteUnresolved(parts: Path, leaf: string, content: Content) returns (error: Option<Error>)
      modifies this
      ensures (Tree(), error) == WriteThrough(old(Tree()), parts, leaf, content)
    {
      var landing := Landing([], parts);
      if landing.None? {
        return Some(InvalidValue);
      }
      error := MakeParents(parts);
      if error.Some? {
        return;
      }
      var target := landing.value + [leaf];
      if Tree().Exists(target) {
        return Some(FileExists);
      }
      files := files[target := content];
      return None;
    }

    method MakeParents(parts: Path) returns (error: Option<Error>)
      requires Landing([], parts).Some?
      modifies this
      ensures (Tree(), error) == Walk(old(Tree()), [], parts)
    {
      var at: Path := [];
      for i := 0 to |parts|
        invariant Landing(at, parts[i..]).Some?
        invariant Walk(Tree(), at, parts[i..]) == Walk(old(Tree()), [], parts)
      {
        assert parts[i..][1..] == parts[i + 1..];
        if parts[i] == ".." {
          at := at[..|at| - 1];
        } else {
          at := at + [parts[i]];
          if at in files {
            return Some(if i + 1 == |parts| then FileExists else NotADirectory);
          }
          dirs := dirs + {at};
        }
      }
      return None;
    }

    /** _prepare_file */
    method PrepareFile(p: Path, overwrite: bool) returns (error: Option<Error>)
      modifies this
      ensures files == old(files)
      ensures old(Tree()).BlockedAbove(p) ==> error == Some(old(Tree()).BlockError(p)) && dirs == old(dirs)
      ensures !old(Tree()).BlockedAbove(p) ==>
                dirs == old(dirs) + Ancestors(p)
                  && (error == if Tree().Exists(p) && !overwrite then Some(FileExists) else None)
    {
      if Tree().BlockedAbove(p) {
        return Some(Tree().BlockError(p));
      }
      dirs := dirs + Ancestors(p);
      return if Tree().Exists(p) && !overwrite then Some(FileExists) else None;
    }

    method AppendJsonl(p: Path, lines: Content) returns (error: Option<Error>)
      modifies this
      ensures (Tree(), error) == AppendLines(old(Tree()), p, lines)
    {
      if Tree().BlockedAbove(p) {
        return Some(Tree().BlockError(p));
      }
      dirs := dirs + Ancestors(p);
      if Tree().IsDir(p) {
        return Some(IsADirectory);
      }
      files := files[p := (if p in files then files[p] else []) + lines];
      return None;
    }
  }

  /** Nothing is lost: every file keeps its content as a prefix, every directory stays. */
  ghost predicate Keeps(t: HostTree, t': HostTree) {
    && t.dirs <= t'.dirs
    && (forall p :: p in t.files ==> p in t'.files && t.files[p] <= t'.files[p])
  }

  ghost predicate IsJsonlFile(p: Path) {
    exists a: Artifact :: a.IsJsonl() && a.Root() == p
  }

  /** Nothing is lost, and only JSON-lines files are ever extended. */
  ghost predicate OnlyGrows(t: HostTree, t': HostTree) {
    && t.dirs <= t'.dirs
    && (forall p :: p in t.files ==>
          p in t'.files && (t'.files[p] == t.files[p] || (IsJsonlFile(p) && t.files[p] <= t'.files[p])))
  }

  /** The same, and files outside the given places are exactly as they were, absent ones absent. */
  ghost predicate GrowsWithin(t: HostTree, t': HostTree, places: iset<Path>) {
    && OnlyGrows(t, t')
    && (forall p :: p !in places ==> (p in t.files <==> p in t'.files) && ContentAt(t, p) == ContentAt(t', p))
  }

  lemma GrowthReflexive(t: HostTree, places: iset<Path>)
    ensures GrowsWithin(t, t, places)
  {
  }

  lemma OnlyGrowsTransitive(t0: HostTree, t1: HostTree, t2: HostTree)
    requires OnlyGrows(t0, t1) && OnlyGrows(t1, t2)
    ensures OnlyGrows(t0, t2)
  {
    forall p | p in t0.files && t2.files[p] != t0.files[p] ensures IsJsonlFile(p) && t0.files[p] <= t2.files[p] {
      assert t0.files[p] == t2.files[p][..|t1.files[p]|][..|t0.files[p]|];
    }
  }

  lemma GrowthTransitive(t0: HostTree, t1: HostTree, t2: HostTree, places: iset<Path>)
    requires GrowsWithin(t0, t1, places) && GrowsWithin(t1, t2, places)
    ensures GrowsWithin(t0, t2, places)
  {
    hide OnlyGrows;
    OnlyGrowsTransitive(t0, t1, t2);
  }

  lemma WriteGrows(t: HostTree, p: Path, content: Content, places: iset<Path>)
    requires t.WellFormed() && p in places
    ensures var t' := WriteFile(t, p, content, false).0; t'.WellFormed() && GrowsWithin(t, t', places)
  {
  }

  lemma AppendGrows(t: HostTree, p: Path, lines: Content, places: iset<Path>)
    requires t.WellFormed() && p in places && IsJsonlFile(p)
    ensures var t' := AppendLines(t, p, lines).0; t'.WellFormed() && GrowsWithin(t, t', places)
  {
    AppendIsAppendOnly(t, p, lines);
  }

  lemma EnsureDirectoryGrows(t: HostTree, p: Path, places: iset<Path>)
    requires t.WellFormed()
    ensures var t' := EnsureDirectory(t, p).0; t'.WellFormed() && GrowsWithin(t, t', places)
  {
    EnsureDirectoryIsAppendOnly(t, p);
  }

  /** A file of an artifact that is not a JSON-lines file never changes. */
  lemma FrozenByGrowth(t: HostTree, t': HostTree, b: Artifact, p: Path)
    requires OnlyGrows(t, t') && !b.IsJsonl() && b.Owns(p) && p in t.files
    ensures p in t'.files && t'.files[p] == t.files[p]
  {
    forall a: Artifact | a.IsJsonl() ensures a.Root() != p {
      if a.Root() == p { OwnershipExclusive(a, b, p, p); }
    }
  }

  /** Files outside the given path are exactly as they were, created files included. */
  ghost predicate OnlyTouches(t: HostTree, t': HostTree, p: Path) {
    forall q :: q != p ==> (q in t.files <==> q in t'.files) && ContentAt(t, q) == ContentAt(t', q)
  }

  /** Without overwrite, a write only ever creates a file that was not there. */
  lemma WriteIsAppendOnly(t: HostTree, p: Path, content: Content, overwrite: bool)
    requires t.WellFormed()
    ensures var (t', error) := WriteFile(t, p, content, overwrite);
            && t'.WellFormed()
            && OnlyTouches(t, t', p)
            && (error.Some? ==> t'.files == t.files)
            && (error.None? ==> p in t'.files && t'.files[p] == content)
            && (!overwrite && error.None? ==> !t.Exists(p))
            && (Keeps(t, t') <==> error.Some? || p !in t.files || t.files[p] <= content)
  {
  }

  /** When a write or an append is refused, and how: a file is where a directory would have to be, the parent itself or
      something above it; the place is taken and may not be overwritten; or it is a directory. */
  lemma RefusedExactly(t: HostTree, p: Path, content: Content, overwrite: bool)
    requires t.WellFormed()
    ensures EnsureDirectory(t, p).1
            == (if exists q :: q in t.files && Above(q, p) then Some(NotADirectory)
                else if p in t.files then Some(FileExists) else None)
    ensures p !in t.files ==>
              ReadError(t, p) == (if exists q :: q in t.files && Above(q, p) then NotADirectory
                                  else if p == [] || p in t.dirs then IsADirectory else NotFound)
    ensures var blocked := exists q :: q in t.files && Above(q, p);
            var inTheWay := if |p| > 1 && p[..|p| - 1] in t.files then FileExists else NotADirectory;
            var isDirectory := p == [] || p in t.dirs;
            && WriteFile(t, p, content, overwrite).1
               == (if blocked then Some(inTheWay)
                   else if !overwrite && (isDirectory || p in t.files) then Some(FileExists)
                   else if isDirectory then Some(IsADirectory) else None)
            && AppendLines(t, p, content).1
               == (if blocked then Some(inTheWay) else if isDirectory then Some(IsADirectory) else None)
  {
    assert p !in Ancestors(p);
  }

  lemma AppendIsAppendOnly(t: HostTree, p: Path, lines: Content)
    requires t.WellFormed()
    ensures var (t', error) := AppendLines(t, p, lines);
            && t'.WellFormed()
            && OnlyTouches(t, t', p)
            && Keeps(t, t')
            && ContentAt(t', p) == ContentAt(t, p) + (if error.None? then lines else [])
  {
  }

  lemma EnsureDirectoryIsAppendOnly(t: HostTree, p: Path)
    requires t.WellFormed()
    ensures var (t', error) := EnsureDirectory(t, p);
            && t'.WellFormed() && t'.files == t.files && Keeps(t, t')
            && (error.None? ==> t'.IsDir(p))
  {
    if !t.BlockedAbove(p) && p !in t.files {
      forall a, b | Above(a, b) && Above(b, p) ensures Above(a, p) { AboveTransitive(a, b, p); }
    }
  }

  /** A walk makes the directories it passes, unless one of them is a file. */
  lemma {:induction false} WalkExact(t: HostTree, at: Path, parts: Path)
    requires t.WellFormed() && t.IsDir(at) && Landing(at, parts).Some?
    ensures var (t', e) := Walk(t, at, parts);
            && t'.WellFormed() && t'.files == t.files && t.dirs <= t'.dirs <= t.dirs + Visited(at, parts)
            && (e.None? <==> Visited(at, parts) !! t.files.Keys)
            && (e.None? ==> t'.dirs == t.dirs + Visited(at, parts) && t'.IsDir(Landing(at, parts).value))
    decreases |parts|
  {
    if parts != [] {
      if parts[0] == ".." {
        var up := at[..|at| - 1];
        assert up != [] ==> Above(up, at);
        WalkExact(t, up, parts[1..]);
      } else {
        var next := at + [parts[0]];
        if next !in t.files {
          MadeDirectory(t, at, parts[0]);
          WalkExact(t.(dirs := t.dirs + {next}), next, parts[1..]);
        }
      }
    }
  }

  lemma MadeDirectory(t: HostTree, at: Path, part: string)
    requires t.WellFormed() && t.IsDir(at) && at + [part] !in t.files
    ensures t.(dirs := t.dirs + {at + [part]}).WellFormed()
  {
    forall q | Above(q, at + [part]) ensures q in t.dirs {
      assert q == at || Above(q, at);
    }
  }

  /** A write through an unresolved path succeeds exactly when the path stays in the root, passes no file, and ends
      where nothing is and where it has itself made nothing. It only ever adds, and at most one file. */
  lemma WriteThroughExact(t: HostTree, parts: Path, leaf: string, content: Content)
    requires t.WellFormed()
    ensures var (t', e) := WriteThrough(t, parts, leaf, content);
            var landing := Landing([], parts);
            && t'.WellFormed() && Keeps(t, t')
            && (landing.None? ==> t' == t && e == Some(InvalidValue))
            && (landing.Some? ==>
                  var p := landing.value + [leaf];
                  && (e.None? <==> Visited([], parts) !! t.files.Keys && !t.Exists(p) && p !in Visited([], parts))
                  && t'.dirs <= t.dirs + Visited([], parts)
                  && (e.None? ==> t'.dirs == t.dirs + Visited([], parts))
                  && t'.files == if e.None? then t.files[p := content] else t.files)
  {
    if Landing([], parts).Some? {
      var dir := Landing([], parts).value;
      WalkExact(t, [], parts);
      var (t1, e) := Walk(t, [], parts);
      forall q | Above(q, dir + [leaf]) ensures q == dir || Above(q, dir) { }
    }
  }

  /** Without a climbing part this is the write to the path as it reads. */
  lemma StraightWrite(t: HostTree, parts: Path, leaf: string, content: Content)
    requires t.WellFormed() && ".." !in parts
    ensures WriteThrough(t, parts, leaf, content) == WriteFile(t, parts + [leaf], content, false)
  {
    var p := parts + [leaf];
    StraightLanding([], parts);
    StraightVisited([], parts, leaf);
    assert [] + parts == parts && p[..|p| - 1] == parts;
    WalkExact(t, [], parts);
    if t.BlockedAbove(p) {
      BlockedWalk(t, [], parts);
    } else {
      assert Visited([], parts) == Ancestors(p);
      assert t.MkdirParents(p) == Ok(Walk(t, [], parts).0);
      assert p !in Ancestors(p);
    }
  }

  lemma {:induction false} StraightLanding(at: Path, parts: Path)
    requires ".." !in parts
    ensures Landing(at, parts) == Some(at + parts)
    decreases |parts|
  {
    if parts == [] {
      assert at + parts == at;
    } else {
      StraightLanding(at + [parts[0]], parts[1..]);
      assert at + [parts[0]] + parts[1..] == at + parts;
    }
  }

  lemma {:induction false} StraightVisited(at: Path, parts: Path, leaf: string)
    requires ".." !in parts
    ensures forall d :: d in Visited(at, parts) <==> |at| < |d| && Above(d, at + parts + [leaf])
    decreases |parts|
  {
    var full := at + parts + [leaf];
    if parts != [] {
      var next := at + [parts[0]];
      StraightVisited(next, parts[1..], leaf);
      assert next + parts[1..] + [leaf] == full;
      assert full[..|next|] == next;
    }
  }

  /** A walk that meets a file changes nothing: what lies above the file is there already. */
  lemma {:induction false} BlockedWalk(t: HostTree, at: Path, parts: Path)
    requires t.WellFormed() && t.IsDir(at) && ".." !in parts
    requires exists d :: d in Visited(at, parts) && d in t.files
    ensures Walk(t, at, parts) == (t, Some(if at + parts in t.files then FileExists else NotADirectory))
    decreases |parts|
  {
    var next := at + [parts[0]];
    assert next + parts[1..] == at + parts;
    StraightVisited(next, parts[1..], "");
    if next in t.files {
      assert (at + parts)[..|next|] == next;
      if |parts| > 1 {
        assert Above(next, at + parts);
      } else {
        assert at + parts == next;
      }
    } else {
      var d :| d in Visited(next, parts[1..]) && d in t.files;
      var full := next + parts[1..] + [""];
      assert next == full[..|next|] && d == full[..|d|] && d[..|next|] == next;
      assert Above(next, d);
      assert t.(dirs := t.dirs + {next}) == t;
      BlockedWalk(t, next, parts[1..]);
    }
  }
}
