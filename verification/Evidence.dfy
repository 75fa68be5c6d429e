/** storage/run_evidence.py: run-start manifests, cycle-to-audit links, and the proof lookup. */
module Evidence {
  import opened Prelude
  import opened FileTree
  import opened StoragePaths
  import opened AuditChain
  import opened Records
  import opened HostFilesystem
  import opened Ledger

  datatype ProofEvidence = ProofEvidence(manifest: RunStartManifest, manifestRef: ArtifactRef, link: CycleAuditLink,
                                         linkRef: ArtifactRef, bundleRef: ArtifactRef, auditRefs: seq<ArtifactRef>)

  function ManifestFile(run: RunScope): Path { RunManifest(run).Root() }

  function LinkFile(cycle: CycleScope): Path { CycleLink(cycle.run, cycle.cycleId).Root() }

  function CreateRunManifest(t: HostTree, m: RunStartManifest): (HostTree, Option<Error>) {
    WriteFile(t, ManifestFile(m.run), [RunManifestDoc(m)], false)
  }

  function ReadRunManifest(t: HostTree, run: RunScope): Result<RunStartManifest, Error> {
    if !t.Exists(ManifestFile(run)) then Err(EvidenceMissing)
    else
      var c := ContentAt(t, ManifestFile(run));
      if |c| == 1 && c[0].RunManifestDoc? then Ok(c[0].manifest)
      else Err(if t.IsDir(ManifestFile(run)) then IsADirectory else Malformed)
  }

  /** The validators of CycleAuditLink, applied on writing and on reading. */
  predicate ValidLink(l: CycleAuditLink) {
    l.auditRefs != [] && 1 <= l.sequenceStart <= l.sequenceEnd
  }

  function ReadCycleLink(t: HostTree, cycle: CycleScope): Result<CycleAuditLink, Error> {
    if !t.Exists(LinkFile(cycle)) then Err(EvidenceMissing)
    else
      var c := ContentAt(t, LinkFile(cycle));
      if |c| == 1 && c[0].CycleLinkDoc? && ValidLink(c[0].link) then Ok(c[0].link)
      else Err(if t.IsDir(LinkFile(cycle)) then IsADirectory else Malformed)
  }

  function LinkCycle(t: HostTree, link: CycleAuditLink): (HostTree, Option<Error>) {
    match ReadRunManifest(t, link.cycle.run)
    case Err(e) => (t, Some(e))
    case Ok(_) =>
      if !ValidLink(link) then (t, Some(InvalidValue))
      else WriteFile(t, LinkFile(link.cycle), [CycleLinkDoc(link)], false)
  }

  /** The reference names an entry of the run's own ledger file. */
  ghost predicate Resolves(ref: ArtifactRef, run: RunScope, es: seq<Entry>) {
    ref.locator == LedgerFile(run) && exists i :: 0 <= i < |es| && es[i].event.id == ref.uuid
  }

  /** The stored ledger of the run verifies and every reference resolves in it. */
  ghost predicate RefsVerified(h: Hasher, t: HostTree, run: RunScope, refs: seq<ArtifactRef>) {
    match StoredLedger(t, run)
    case Err(_) => false
    case Ok(es) => Verified(h, es) && forall k :: 0 <= k < |refs| ==> Resolves(refs[k], run, es)
  }

  /** Everything a proof of the cycle needs is stored and sound. */
  ghost predicate EvidenceComplete(h: Hasher, t: HostTree, cycle: CycleScope) {
    var m, l := ReadRunManifest(t, cycle.run), ReadCycleLink(t, cycle);
    && m.Ok? && l.Ok?
    && RefsVerified(h, t, cycle.run, l.value.auditRefs)
    && t.Exists(l.value.bundleRef.locator)
  }

  function EvidenceFrom(cycle: CycleScope, m: RunStartManifest, l: CycleAuditLink): ProofEvidence {
    ProofEvidence(m, ArtifactRef(m.id, ManifestFile(cycle.run)), l, ArtifactRef(l.id, LinkFile(cycle)), l.bundleRef,
                  l.auditRefs)
  }

  class RunEvidenceStore {
    const fs: HostStore
    const hash: Hasher

    constructor (fs: HostStore, hash: Hasher)
      ensures this.fs == fs && this.hash == hash
    {
      this.fs, this.hash := fs, hash;
    }

    method CreateManifest(m: RunStartManifest) returns (error: Option<Error>)
      modifies fs
      ensures (fs.Tree(), error) == CreateRunManifest(old(fs.Tree()), m)
    {
      error := fs.Write(ManifestFile(m.run), [RunManifestDoc(m)]);
    }

    method LinkCycleToAudit(link: CycleAuditLink) returns (error: Option<Error>)
      modifies fs
      ensures (fs.Tree(), error) == LinkCycle(old(fs.Tree()), link)
    {
      var m := ReadRunManifest(fs.Tree(), link.cycle.run);
      if m.Err? {
        return Some(m.error);
      }
      if !ValidLink(link) {
        return Some(InvalidValue);
      }
      error := fs.Write(LinkFile(link.cycle), [CycleLinkDoc(link)]);
    }

    /** _resolve_verified_audit_refs: fail closed unless the chain verifies and every reference resolves. */
    method ResolveVerifiedAuditRefs(run: RunScope, refs: seq<ArtifactRef>) returns (error: Option<Error>)
      ensures error.None? <==> RefsVerified(hash, fs.Tree(), run, refs)
      ensures match StoredLedger(fs.Tree(), run)
              case Err(e) => error == Some(e)
              case Ok(es) =>
                if !Verified(hash, es) then error.Some? && error.value.AuditTampered?
                else error.None? || error == Some(UnresolvedRef)
    {
      var stored := StoredLedger(fs.Tree(), run);
      if stored.Err? {
        return Some(stored.error);
      }
      var verified := VerifyChain(hash, stored.value);
      if verified.Err? {
        return Some(verified.error);
      }
      var es := verified.value;
      var ids := set i | 0 <= i < |es| :: es[i].event.id;
      for k := 0 to |refs|
        invariant forall j :: 0 <= j < k ==> Resolves(refs[j], run, es)
      {
        if refs[k].locator != LedgerFile(run) || refs[k].uuid !in ids {
          assert !Resolves(refs[k], run, es);
          return Some(UnresolvedRef);
        }
      }
      return None;
    }

    method LookupCycleProofEvidence(cycle: CycleScope) returns (r: Result<ProofEvidence, Error>)
      ensures r.Ok? <==> EvidenceComplete(hash, fs.Tree(), cycle)
      ensures r.Ok? ==> r.value == EvidenceFrom(cycle, ReadRunManifest(fs.Tree(), cycle.run).value,
                                                ReadCycleLink(fs.Tree(), cycle).value)
      ensures var m, l := ReadRunManifest(fs.Tree(), cycle.run), ReadCycleLink(fs.Tree(), cycle);
              && (m.Err? ==> r == Err(m.error))
              && (m.Ok? && l.Err? ==> r == Err(l.error))
              && (m.Ok? && l.Ok? && r.Err? && RefsVerified(hash, fs.Tree(), cycle.run, l.value.auditRefs) ==>
                    r == Err(EvidenceMissing))
    {
      var manifest := ReadRunManifest(fs.Tree(), cycle.run);
      if manifest.Err? {
        return Err(manifest.error);
      }
      var link := ReadCycleLink(fs.Tree(), cycle);
      if link.Err? {
        return Err(link.error);
      }
      var unresolved := ResolveVerifiedAuditRefs(cycle.run, link.value.auditRefs);
      if unresolved.Some? {
        return Err(unresolved.value);
      }
      if !fs.Tree().Exists(link.value.bundleRef.locator) {
        return Err(EvidenceMissing);
      }
      return Ok(EvidenceFrom(cycle, manifest.value, link.value));
    }
  }

  /** What a lookup hands back can be followed: the manifest and the link are stored, alone, at the places their
      references name, under the ids those carry; every audit reference is the link's own and names an entry of the
      run's verified ledger; and the bundle is the link's own and there. */
  lemma EvidenceIsUsable(h: Hasher, t: HostTree, cycle: CycleScope)
    requires t.WellFormed() && EvidenceComplete(h, t, cycle)
    ensures var e := EvidenceFrom(cycle, ReadRunManifest(t, cycle.run).value, ReadCycleLink(t, cycle).value);
            && e.manifestRef == ArtifactRef(e.manifest.id, RunManifest(cycle.run).Root())
            && ContentAt(t, e.manifestRef.locator) == [RunManifestDoc(e.manifest)]
            && e.linkRef == ArtifactRef(e.link.id, CycleLink(cycle.run, cycle.cycleId).Root())
            && ContentAt(t, e.linkRef.locator) == [CycleLinkDoc(e.link)]
            && e.auditRefs == e.link.auditRefs != [] && RefsVerified(h, t, cycle.run, e.auditRefs)
            && e.bundleRef == e.link.bundleRef && t.Exists(e.bundleRef.locator)
            && 1 <= e.link.sequenceStart <= e.link.sequenceEnd
  {
    hide RefsVerified;
    var m, l := ContentAt(t, ManifestFile(cycle.run)), ContentAt(t, LinkFile(cycle));
    assert m == [m[0]] && l == [l[0]];
  }

  /** What a lookup raises when a document cannot be read: missing, a directory, or not what it should be. */
  lemma EvidenceUnread(t: HostTree, cycle: CycleScope)
    requires t.WellFormed()
    ensures var m, p := ReadRunManifest(t, cycle.run), RunManifest(cycle.run).Root();
            if p in t.dirs then m == Err(IsADirectory)
            else if p !in t.files then m == Err(EvidenceMissing)
            else if exists doc :: t.files[p] == [RunManifestDoc(doc)] then m.Ok? else m == Err(Malformed)
    ensures var l, p := ReadCycleLink(t, cycle), CycleLink(cycle.run, cycle.cycleId).Root();
            if p in t.dirs then l == Err(IsADirectory)
            else if p !in t.files then l == Err(EvidenceMissing)
            else if exists doc :: t.files[p] == [CycleLinkDoc(doc)] && doc.auditRefs != []
                                  && 1 <= doc.sequenceStart <= doc.sequenceEnd then l.Ok? else l == Err(Malformed)
  {
    var m, l := ContentAt(t, ManifestFile(cycle.run)), ContentAt(t, LinkFile(cycle));
    assert |m| == 1 && m[0].RunManifestDoc? ==> m == [RunManifestDoc(m[0].manifest)];
    assert |l| == 1 && l[0].CycleLinkDoc? ==> l == [CycleLinkDoc(l[0].link)];
  }

  /* ---- what storage steps preserve ---- */

  /** A ledger that only grows by proper appends keeps verifying and keeps resolving. */
  lemma RefsStayVerified(h: Hasher, t: HostTree, t': HostTree, run: RunScope, refs: seq<ArtifactRef>)
    requires RefsVerified(h, t, run, refs) && refs != []
    requires LedgerExtended(h, t, t', run)
    ensures RefsVerified(h, t', run, refs)
  {
    hide Verified, StoredLedger;
    var es, es' := StoredLedger(t, run).value, StoredLedger(t', run);
    assert Resolves(refs[0], run, es);
    assert es <= es'.value;
    forall k | 0 <= k < |refs| ensures Resolves(refs[k], run, es'.value) {
      assert Resolves(refs[k], run, es);
      StillResolves(refs[k], run, es, es'.value);
    }
  }

  lemma StillResolves(ref: ArtifactRef, run: RunScope, es: seq<Entry>, more: seq<Entry>)
    requires Resolves(ref, run, es) && es <= more
    ensures Resolves(ref, run, more)
  {
    var i :| 0 <= i < |es| && es[i].event.id == ref.uuid;
    assert more[i] == es[i];
  }

  /** The ledger of the run, once it has an entry, is still verified and has kept its entries. */
  ghost predicate LedgerExtended(h: Hasher, t: HostTree, t': HostTree, run: RunScope) {
    var before, after := StoredLedger(t, run), StoredLedger(t', run);
    before.Ok? && before.value != [] && Verified(h, before.value)
    ==> after.Ok? && Verified(h, after.value) && before.value <= after.value
  }
}
