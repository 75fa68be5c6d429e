/** The agent workspace on disk, and directory listings in the orders the program asks for. */
module Workspaces {
  import opened Prelude
  import opened FileTree
  import opened Records

  type WorkspaceTree = Tree<Bytes>

  function Posix(p: Path): string {
    if p == [] then "" else if |p| == 1 then p[0] else p[0] + "/" + Posix(p[1..])
  }

  predicate StringLeq(a: string, b: string) {
    a == "" || (b != "" && (a[0] < b[0] || (a[0] == b[0] && StringLeq(a[1..], b[1..]))))
  }

  type Order = (Path, Path) -> bool

  const ByPosix: Order := (p, q) => StringLeq(Posix(p), Posix(q))
  const ByPosixReversed: Order := (p, q) => StringLeq(Posix(q), Posix(p))
  const DeepestFirst: Order := (p, q) => |p| >= |q|

  ghost predicate IsPreorder(leq: Order) {
    && (forall p, q :: leq(p, q) || leq(q, p))
    && (forall p, q, r :: leq(p, q) && leq(q, r) ==> leq(p, r))
  }

  lemma StringLeqTotal(a: string, b: string)
    ensures StringLeq(a, b) || StringLeq(b, a)
  {
  }

  lemma StringLeqTransitive(a: string, b: string, c: string)
    requires StringLeq(a, b) && StringLeq(b, c)
    ensures StringLeq(a, c)
  {
  }

  lemma OrdersArePreorders()
    ensures IsPreorder(ByPosix) && IsPreorder(ByPosixReversed) && IsPreorder(DeepestFirst)
  {
    forall p: Path, q: Path ensures StringLeq(Posix(p), Posix(q)) || StringLeq(Posix(q), Posix(p)) {
      StringLeqTotal(Posix(p), Posix(q));
    }
    forall p: Path, q: Path, r: Path | StringLeq(Posix(p), Posix(q)) && StringLeq(Posix(q), Posix(r))
      ensures StringLeq(Posix(p), Posix(r))
    {
      StringLeqTransitive(Posix(p), Posix(q), Posix(r));
    }
  }

  /** names lists the set once each, in order. */
  ghost predicate IsListing(names: seq<Path>, s: set<Path>, leq: Order) {
    && (forall p :: p in names <==> p in s)
    && (forall i, j :: 0 <= i < j < |names| ==> names[i] != names[j] && leq(names[i], names[j]))
  }

  /** sorted(...) over a directory walk. */
  method Sorted(s: set<Path>, leq: Order) returns (names: seq<Path>)
    requires IsPreorder(leq)
    ensures IsListing(names, s, leq)
  {
    names := [];
    var rest := s;
    while rest != {}
      invariant rest <= s
      invariant IsListing(names, s - rest, leq)
    {
      var p :| p in rest;
      names := Insert(names, p, leq);
      rest := rest - {p};
    }
  }

  method Insert(names: seq<Path>, p: Path, leq: Order) returns (r: seq<Path>)
    requires IsPreorder(leq) && p !in names
    requires forall i, j :: 0 <= i < j < |names| ==> names[i] != names[j] && leq(names[i], names[j])
    ensures forall q :: q in r <==> q == p || q in names
    ensures forall i, j :: 0 <= i < j < |r| ==> r[i] != r[j] && leq(r[i], r[j])
  {
    var k := 0;
    while k < |names| && leq(names[k], p)
      invariant k <= |names|
      invariant forall i :: 0 <= i < k ==> leq(names[i], p)
    {
      k := k + 1;
    }
    r := names[..k] + [p] + names[k..];
    assert forall i :: k <= i < |names| ==> leq(p, names[i]);
    assert names == names[..k] + names[k..];
  }

  class Workspace {
    var files: map<Path, Bytes>
    var dirs: set<Path>

    function Tree(): WorkspaceTree
      reads this
    {
      FileTree.Tree.Tree(files, dirs)
    }

    constructor (files: map<Path, Bytes>, dirs: set<Path>)
      ensures Tree() == FileTree.Tree.Tree(files, dirs)
    {
      this.files, this.dirs := files, dirs;
    }

    method Unlink(p: Path)
      requires p in files
      modifies this
      ensures files == old(files) - {p} && dirs == old(dirs)
    {
      files := files - {p};
    }

    method MkdirParents(p: Path) returns (error: Option<Error>)
      modifies this
      ensures match old(Tree()).MkdirParents(p)
              case Ok(t) => Tree() == t && error == None
              case Err(e) => Tree() == old(Tree()) && error == Some(e)
    {
      if Tree().BlockedAbove(p) {
        return Some(Tree().BlockError(p));
      }
      dirs := dirs + Ancestors(p);
      return None;
    }

    method WriteBytes(p: Path, bytes: Bytes) returns (error: Option<Error>)
      modifies this
      ensures dirs == old(dirs)
      ensures error == if Tree().IsDir(p) then Some(IsADirectory) else None
      ensures files == if error.Some? then old(files) else old(files)[p := bytes]
    {
      if Tree().IsDir(p) {
        return Some(IsADirectory);
      }
      files := files[p := bytes];
      return None;
    }

    method Rmdir(d: Path)
      requires d in dirs && Tree().IsEmptyDir(d)
      modifies this
      ensures files == old(files) && dirs == old(dirs) - {d}
    {
      dirs := dirs - {d};
    }
  }
}
