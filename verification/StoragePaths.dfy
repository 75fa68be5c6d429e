/** storage/paths.py: validated readable ids, scopes, and where every artifact of a scope lives
    below the state root. */
module StoragePaths {
  import opened FileTree

  predicate IdChar(c: char) {
    'a' <= c <= 'z' || '0' <= c <= '9' || c == '-'
  }

  const RESERVED_NAMES: set<string> := {
    "con", "prn", "aux", "nul",
    "com1", "com2", "com3", "com4", "com5", "com6", "com7", "com8", "com9",
    "lpt1", "lpt2", "lpt3", "lpt4", "lpt5", "lpt6", "lpt7", "lpt8", "lpt9"
  }

  /** Runs of lower-case letters and digits separated by single hyphens. */
  predicate ReadableId(s: string) {
    && s != ""
    && (forall i :: 0 <= i < |s| ==> IdChar(s[i]))
    && s[0] != '-' && s[|s| - 1] != '-'
    && (forall i :: 0 < i < |s| ==> !(s[i - 1] == '-' && s[i] == '-'))
  }

  /** Lower-case letters and digits, at least one. */
  predicate IsWord(s: string) {
    s != "" && forall i :: 0 <= i < |s| ==> 'a' <= s[i] <= 'z' || '0' <= s[i] <= '9'
  }

  function Hyphenated(words: seq<string>): string {
    if words == [] then "" else if |words| == 1 then words[0] else words[0] + "-" + Hyphenated(words[1..])
  }

  /** The readable ids are just the words joined by single hyphens. */
  lemma ReadableIdExact(s: string)
    ensures ReadableId(s)
            <==> exists words :: words != [] && (forall w :: w in words ==> IsWord(w)) && s == Hyphenated(words)
  {
    if ReadableId(s) { var words := WordsOf(s); }
    if words: seq<string> :| words != [] && (forall w :: w in words ==> IsWord(w)) && s == Hyphenated(words) {
      HyphenatedIsReadable(words);
    }
  }

  lemma {:induction false} WordsOf(s: string) returns (words: seq<string>)
    requires ReadableId(s)
    ensures words != [] && (forall w :: w in words ==> IsWord(w)) && s == Hyphenated(words)
    decreases |s|
  {
    if k :| 0 <= k < |s| && s[k] == '-' && forall i :: 0 <= i < k ==> s[i] != '-' {
      var rest := WordsOf(s[k + 1..]);
      words := [s[..k]] + rest;
      assert s == s[..k] + "-" + s[k + 1..];
    } else {
      NoHyphen(s, |s|);
      words := [s];
    }
  }

  lemma {:induction false} NoHyphen(s: string, n: nat)
    requires n <= |s| && forall k :: 0 <= k < |s| && s[k] == '-' ==> exists i :: 0 <= i < k && s[i] == '-'
    ensures forall i :: 0 <= i < n ==> s[i] != '-'
  {
    if n > 0 { NoHyphen(s, n - 1); }
  }

  lemma {:induction false} HyphenatedIsReadable(words: seq<string>)
    requires words != [] && forall w :: w in words ==> IsWord(w)
    ensures ReadableId(Hyphenated(words))
  {
    assert words[0] in words;
    if |words| > 1 {
      HyphenatedIsReadable(words[1..]);
      var w, rest := words[0], Hyphenated(words[1..]);
      var s := w + "-" + rest;
      assert forall i :: 0 <= i < |w| ==> s[i] == w[i];
      assert forall i :: 0 <= i < |rest| ==> s[|w| + 1 + i] == rest[i];
    }
  }

  predicate IsSegment(s: string) {
    ReadableId(s) && s !in RESERVED_NAMES
  }

  type Segment = s: string | IsSegment(s) witness "a"

  datatype RunScope = RunScope(projectId: Segment, glassboxId: Segment, experimentId: Segment, runId: Segment)
  datatype CycleScope = CycleScope(run: RunScope, cycleId: Segment)

  function RunSegments(run: RunScope): Path {
    ["projects", run.projectId, "glassboxes", run.glassboxId, "experiments", run.experimentId, "runs", run.runId]
  }

  /** Everything the services write below the state root. */
  datatype Artifact =
    | RunManifest(run: RunScope)
    | CycleLink(run: RunScope, id: Segment)
    | CycleFiles(run: RunScope, id: Segment)
    | CycleManifest(run: RunScope, id: Segment)
    | FullFiles(run: RunScope, id: Segment)
    | FullManifest(run: RunScope, id: Segment)
    | AuditLog(run: RunScope)
    | LogBundle(run: RunScope)
    | LogMetadata(run: RunScope)
    | ExportManifest(run: RunScope)
    | ExportItem(run: RunScope, id: Segment)
    | Incident(run: RunScope, id: Segment)
    | IncidentReport(run: RunScope, id: Segment)
    | BranchEvidence(run: RunScope)
  {
    /** Whether the artifact is a directory of files rather than one file. */
    predicate IsDirectory() {
      CycleFiles? || FullFiles? || ExportItem? || BranchEvidence?
    }

    /** JSON-lines files are extended in place; everything else is written once. */
    predicate IsJsonl() {
      AuditLog? || LogBundle? || ExportManifest?
    }

    /** The first path segment. */
    function Area(): string {
      match this
      case RunManifest(_) => "manifests"
      case CycleLink(_, _) => "evidence"
      case CycleFiles(_, _) => "snapshots"
      case CycleManifest(_, _) => "snapshots"
      case FullFiles(_, _) => "snapshots"
      case FullManifest(_, _) => "snapshots"
      case AuditLog(_) => "audit"
      case LogBundle(_) => "logs"
      case LogMetadata(_) => "logs"
      case ExportManifest(_) => "exports"
      case ExportItem(_, _) => "exports"
      case Incident(_, _) => "incidents"
      case IncidentReport(_, _) => "incidents"
      case BranchEvidence(_) => "mirrors"
    }

    /** What follows the run's own segments. */
    function Tail(): Path {
      match this
      case RunManifest(_) => ["run-start-reproducibility.json"]
      case CycleLink(_, id) => ["cycles", id + "-audit-link.json"]
      case CycleFiles(_, id) => ["cycles", id, "files"]
      case CycleManifest(_, id) => ["cycles", id, "manifest.json"]
      case FullFiles(_, id) => ["full", id, "files"]
      case FullManifest(_, id) => ["full", id, "manifest.json"]
      case AuditLog(_) => ["ledger.jsonl"]
      case LogBundle(_) => ["brokered", "full-log-bundle.jsonl"]
      case LogMetadata(_) => ["brokered", "full-log-bundle.json"]
      case ExportManifest(_) => ["items", "manifest.jsonl"]
      case ExportItem(_, id) => ["items", id]
      case Incident(_, id) => [id + ".json"]
      case IncidentReport(_, id) => [id, "report.json"]
      case BranchEvidence(_) => ["git", "branches"]
    }

    function Root(): Path {
      [Area()] + RunSegments(run) + Tail()
    }

    /** The paths this artifact's writer may create. */
    predicate Owns(p: Path) {
      if IsDirectory() then Above(Root(), p) else p == Root()
    }
  }

  function LedgerFile(run: RunScope): Path { AuditLog(run).Root() }

  lemma LedgerParts(run: RunScope)
    ensures LedgerFile(run) == ["audit", "projects", run.projectId, "glassboxes", run.glassboxId, "experiments",
                                run.experimentId, "runs", run.runId, "ledger.jsonl"]
  {
  }

  lemma NoDotInId(s: Segment, t: string, k: nat)
    requires k < |t| && t[k] == '.'
    ensures s != t
  {
  }

  lemma SameSuffix(s: string, t: string, suffix: string)
    requires s + suffix == t + suffix
    ensures s == t
  {
    assert s == (s + suffix)[..|s|] && t == (t + suffix)[..|t|];
  }

  lemma RootParts(a: Artifact)
    ensures |a.Root()| == 9 + |a.Tail()|
    ensures a.Root()[0] == a.Area() && a.Root()[1..9] == RunSegments(a.run) && a.Root()[9..] == a.Tail()
  {
  }

  lemma SameRun(a: RunScope, b: RunScope)
    requires RunSegments(a) == RunSegments(b)
    ensures a == b
  {
    assert RunSegments(a)[1] == RunSegments(b)[1] && RunSegments(a)[3] == RunSegments(b)[3];
    assert RunSegments(a)[5] == RunSegments(b)[5] && RunSegments(a)[7] == RunSegments(b)[7];
  }

  lemma TailsIncomparable(a: Artifact, b: Artifact)
    requires a.run == b.run && a.Area() == b.Area()
    requires a.Tail() == b.Tail() || Above(a.Tail(), b.Tail())
    ensures a == b
  {
    var s, t := a.Tail(), b.Tail();
    assert s[0] == t[0];
    if |s| > 1 { assert s[1] == t[1]; }
    if |s| > 2 { assert s[2] == t[2]; }
    match a {
      case CycleLink(_, i) => SameSuffix(i, b.id, "-audit-link.json");
      case Incident(_, i) =>
        if b.Incident? {
          SameSuffix(i, b.id, ".json");
        } else {
          NoDotInId(b.id, i + ".json", |i|);
        }
      case ExportManifest(_) =>
        if b.ExportItem? { NoDotInId(b.id, "manifest.jsonl", 8); }
      case ExportItem(_, i) =>
        if b.ExportManifest? { NoDotInId(i, "manifest.jsonl", 8); }
      case _ =>
    }
  }

  /** Distinct scopes get non-overlapping places: no artifact's root is, or is above, another's. */
  lemma RootsIncomparable(a: Artifact, b: Artifact)
    requires a.Root() == b.Root() || Above(a.Root(), b.Root())
    ensures a == b
  {
    RootParts(a);
    RootParts(b);
    var s, t := a.Root(), b.Root();
    assert s == t[..|s|];
    assert s[0] == t[0];
    assert s[1..9] == t[1..9];
    SameRun(a.run, b.run);
    assert s[9..] == t[9..][..|s| - 9];
    TailsIncomparable(a, b);
  }

  /** No two artifacts own the same path, and none owns a path above or below another's file. */
  lemma OwnershipExclusive(a: Artifact, b: Artifact, p: Path, q: Path)
    requires a.Owns(p) && b.Owns(q)
    requires p == q || Above(p, q)
    ensures a == b && (p != q ==> a.IsDirectory())
  {
    var s, t := a.Root(), b.Root();
    assert s == q || Above(s, q) by { if p != q && s != p { AboveTransitive(s, p, q); } }
    if |s| < |t| {
      AboveComparable(s, t, q);
      RootsIncomparable(a, b);
    } else if |t| < |s| {
      AboveComparable(t, s, q);
      RootsIncomparable(b, a);
    } else {
      assert s == q[..|s|] && t == q[..|t|];
      RootsIncomparable(a, b);
    }
  }
}
