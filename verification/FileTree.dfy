/** A directory tree: what an agent workspace and the host state root both are.
    Paths are relative to the root, which itself is not recorded. */
module FileTree {
  import opened Prelude

  type Path = seq<string>

  /** q is a proper ancestor of p below the root. */
  predicate Above(q: Path, p: Path) {
    0 < |q| < |p| && q == p[..|q|]
  }

  function Ancestors(p: Path): (r: set<Path>)
    ensures forall q :: q in r <==> Above(q, p)
  {
    var r := set k | 0 < k < |p| :: p[..k];
    assert forall q :: Above(q, p) ==> 0 < |q| < |p| && q == p[..|q|] && q in r;
    r
  }

  /** Every proper ancestor of a member of ps. */
  function AncestorsOf(ps: set<Path>): (r: set<Path>)
    ensures forall q :: q in r <==> exists p :: p in ps && Above(q, p)
  {
    var r := set p, q | p in ps && q in Ancestors(p) :: q;
    assert forall p, q | p in ps && Above(q, p) :: q in r by {
      forall p, q | p in ps && Above(q, p) ensures q in r { assert q in Ancestors(p); }
    }
    r
  }

  datatype Tree<T> = Tree(files: map<Path, T>, dirs: set<Path>) {
    /** The root is a directory that is always there. */
    predicate IsDir(p: Path) {
      p == [] || p in dirs
    }

    predicate Exists(p: Path) {
      p in files || IsDir(p)
    }

    ghost predicate WellFormed() {
      && files.Keys !! dirs
      && [] !in files && [] !in dirs
      && (forall p, q :: Exists(p) && Above(q, p) ==> q in dirs)
    }

    /** A regular file where a directory is needed. */
    predicate BlockedAbove(p: Path) {
      exists q | q in files :: Above(q, p)
    }

    /** mkdir(parents=True, exist_ok=True) on the parent of p. */
    function MkdirParents(p: Path): (r: Result<Tree<T>, Error>)
      ensures r.Ok? && WellFormed() ==> r.value.WellFormed()
    {
      if BlockedAbove(p) then Err(BlockError(p)) else Ok(Tree(files, dirs + Ancestors(p)))
    }

    /** What making the parent of p raises when a file is in the way: the parent itself, or something above it. */
    function BlockError(p: Path): Error {
      if |p| > 1 && p[..|p| - 1] in files then FileExists else NotADirectory
    }

    predicate IsEmptyDir(d: Path) {
      forall q | q in files.Keys + dirs :: !(|q| == |d| + 1 && q[..|d|] == d)
    }
  }

  /** Neither path is the other nor an ancestor of it. */
  ghost predicate Antichain(ps: set<Path>) {
    forall p, q :: p in ps && q in ps ==> !Above(q, p)
  }

  lemma AboveTransitive(a: Path, b: Path, c: Path)
    requires Above(a, b) && Above(b, c)
    ensures Above(a, c)
  {
    assert a == b[..|a|] == c[..|b|][..|a|] == c[..|a|];
  }

  /** Two ancestors of one path are comparable. */
  lemma AboveComparable(a: Path, b: Path, c: Path)
    requires (a == c || Above(a, c)) && (b == c || Above(b, c)) && |a| < |b| && a != []
    ensures Above(a, b)
  {
    assert a == c[..|a|] && b == c[..|b|] && b[..|a|] == c[..|a|];
  }

  lemma FilesFormAntichain<T>(t: Tree<T>)
    requires t.WellFormed()
    ensures Antichain(t.files.Keys)
  {
  }
}
