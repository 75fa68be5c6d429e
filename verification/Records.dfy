/** What the host services store: JSON documents, raw payloads and JSON lines. */
module Records {
  import opened Prelude
  import opened FileTree
  import opened StoragePaths
  import opened AuditChain

  newtype byte = x: int | 0 <= x < 256
  type Bytes = seq<byte>

  datatype ArtifactRef = ArtifactRef(uuid: nat, locator: Path)

  datatype SnapshotKind = CycleSnapshot | FullSnapshot

  datatype ManifestEntry = ManifestEntry(relativePath: Path, sizeBytes: nat, source: Path)

  datatype SnapshotManifest = SnapshotManifest(snapshotId: Segment, kind: SnapshotKind, run: RunScope,
                                               cycleId: Option<Segment>, reason: string,
                                               entries: seq<ManifestEntry>)

  datatype RunStartManifest = RunStartManifest(id: nat, createdAt: int, run: RunScope, taskIdentity: Text, seed: int)

  datatype CycleAuditLink = CycleAuditLink(id: nat, cycle: CycleScope, auditRefs: seq<ArtifactRef>,
                                           bundleRef: ArtifactRef, sequenceStart: int, sequenceEnd: int)

  datatype BundleMetadata = BundleMetadata(id: nat, run: RunScope, createdAt: int, logFile: Path)

  datatype LogEntryInput = LogEntryInput(at: int, brokerName: Text, stream: Text, message: string,
                                         cycleId: Option<Text>)

  datatype CapturedLogEntry = CapturedLogEntry(sequence: int, input: LogEntryInput)

  datatype IncidentDocument = IncidentDocument(incidentId: Segment, cycle: CycleScope, steps: seq<RecoveryStep>,
                                               cycleSnapshot: Path, fullSnapshot: Path, branch: Option<Path>,
                                               rollbackTarget: Option<Segment>, restoreManifest: Option<Path>)

  /** The manifests of the failing snapshots a branch starts from. */
  datatype BranchRefs = BranchRefs(full: Path, cycle: Path)

  datatype RecoveryStep = StepPause | StepSnapshot | StepRollback | StepRestore | StepBranch | StepReport

  /** One JSON document, one raw payload, or one line of a JSON-lines file. */
  datatype Record =
    | Blob(bytes: Bytes)
    | SnapshotDoc(snapshot: SnapshotManifest)
    | RunManifestDoc(manifest: RunStartManifest)
    | CycleLinkDoc(link: CycleAuditLink)
    | BundleDoc(bundle: BundleMetadata)
    | ReportDoc(report: IncidentDocument)
    | IncidentDoc(incident: IncidentDocument)
    | BranchDoc(branchName: string, cycle: CycleScope, refs: BranchRefs)
    | LedgerLine(entry: Entry)
    | LogLine(logEntry: CapturedLogEntry)
    | ExportLine(artifactId: Segment, sandboxPath: Path)

  type Content = seq<Record>
  type HostTree = Tree<Content>

  /** The lines of a file; a missing file has none. */
  function ContentAt(t: HostTree, p: Path): Content {
    if p in t.files then t.files[p] else []
  }

  /** The ledger entries of a file, unless some line is not one. */
  function LedgerEntries(c: Content): (r: Option<seq<Entry>>)
    ensures r.Some? ==> |r.value| == |c| && forall i :: 0 <= i < |c| ==> c[i] == LedgerLine(r.value[i])
  {
    if forall i | 0 <= i < |c| :: c[i].LedgerLine?
    then Some(seq(|c|, i requires 0 <= i < |c| && c[i].LedgerLine? => c[i].entry))
    else None
  }

  function LedgerLines(es: seq<Entry>): (r: Content)
    ensures |r| == |es| && forall i :: 0 <= i < |es| ==> r[i] == LedgerLine(es[i])
  {
    seq(|es|, i requires 0 <= i < |es| => LedgerLine(es[i]))
  }

  lemma LedgerLinesRead(es: seq<Entry>)
    ensures LedgerEntries(LedgerLines(es)) == Some(es)
  {
    assert LedgerEntries(LedgerLines(es)).value == es;
  }
}
