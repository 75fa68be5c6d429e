/** storage/log_capture.py: brokered logs, numbered from one without gaps. */
module LogCapture {
  import opened Prelude
  import opened FileTree
  import opened StoragePaths
  import opened Records
  import opened HostFilesystem
  import opened StorageLayout

  datatype LogAppendReceipt = LogAppendReceipt(bundleRef: ArtifactRef, firstSequence: int, lastSequence: int,
                                               entryCount: nat)

  function BundlePath(run: RunScope): Path { LogBundle(run).Root() }

  function MetadataPath(run: RunScope): Path { LogMetadata(run).Root() }

  function ReadBundle(t: HostTree, run: RunScope): Result<BundleMetadata, Error> {
    var c := ContentAt(t, MetadataPath(run));
    if |c| == 1 && c[0].BundleDoc? then Ok(c[0].bundle)
    else if MetadataPath(run) in t.files then Err(Malformed) else Err(ReadError(t, MetadataPath(run)))
  }

  function EnsureBundle(t: HostTree, run: RunScope, id: nat, createdAt: int):
    (HostTree, Result<BundleMetadata, Error>) {
    if t.Exists(MetadataPath(run)) then (t, ReadBundle(t, run))
    else
      var bundle := BundleMetadata(id, run, createdAt, BundlePath(run));
      var (t', e) := WriteFile(t, MetadataPath(run), [BundleDoc(bundle)], false);
      (t', if e.Some? then Err(e.value) else Ok(bundle))
  }

  /** _next_sequence */
  function NextSequence(c: Content): Result<int, Error> {
    if exists r | r in c :: !r.LogLine? then Err(Malformed)
    else if c == [] then Ok(1)
    else Ok(c[|c| - 1].logEntry.sequence + 1)
  }

  function Numbered(entries: seq<LogEntryInput>, first: int): (r: Content)
    ensures |r| == |entries|
    ensures forall i :: 0 <= i < |r| ==> r[i] == LogLine(CapturedLogEntry(first + i, entries[i]))
  {
    seq(|entries|, i requires 0 <= i < |entries| => LogLine(CapturedLogEntry(first + i, entries[i])))
  }

  function AppendEntries(t: HostTree, run: RunScope, id: nat, entries: seq<LogEntryInput>):
    (HostTree, Result<LogAppendReceipt, Error>) {
    if entries == [] then (t, Err(InvalidValue))
    else
      var (t1, bundle) := EnsureBundle(t, run, id, entries[0].at);
      if bundle.Err? then (t1, Err(bundle.error))
      else
        match NextSequence(ContentAt(t1, BundlePath(run)))
        case Err(e) => (t1, Err(e))
        case Ok(first) =>
          var (t2, e) := AppendLines(t1, BundlePath(run), Numbered(entries, first));
          if e.Some? then (t2, Err(e.value))
          else (t2, Ok(LogAppendReceipt(ArtifactRef(bundle.value.id, bundle.value.logFile), first,
                                        first + |entries| - 1, |entries|)))
  }

  /** The log lines are numbered 1, 2, 3, ... */
  ghost predicate Sequenced(c: Content) {
    forall i :: 0 <= i < |c| ==> c[i].LogLine? && c[i].logEntry.sequence == i + 1
  }

  lemma EnsureBundleSucceeds(t: HostTree, run: RunScope, id: nat, createdAt: int)
    requires LaidOut(t)
    ensures var (t', r) := EnsureBundle(t, run, id, createdAt);
            && LaidOut(t') && Effect(t, t', {LogMetadata(run)}) && r.Ok?
            && (MetadataPath(run) in t.files ==> t' == t)
  {
    var a := LogMetadata(run);
    FileArtifactsAreNeverBlocked(t, a);
    if t.Exists(a.Root()) {
      EffectReflexive(t, {a});
      assert a.Owns(a.Root());
      assert Fits(a, t.files[a.Root()]);
    } else {
      WriteDocument(t, a, BundleDoc(BundleMetadata(id, run, createdAt, BundlePath(run))));
    }
  }

  lemma StillSequenced(before: Content, entries: seq<LogEntryInput>)
    requires Sequenced(before)
    ensures Sequenced(before + Numbered(entries, |before| + 1))
  {
  }

  lemma NextOfSequenced(c: Content)
    requires Sequenced(c)
    ensures NextSequence(c) == Ok(|c| + 1)
  {
  }

  lemma LinesKept(t: HostTree, run: RunScope, lines: Content)
    requires LaidOut(t) && Fits(LogBundle(run), lines)
    ensures var (t', e) := AppendLines(t, BundlePath(run), lines);
            && e.None? && LaidOut(t') && Effect(t, t', {LogMetadata(run), LogBundle(run)})
            && ContentAt(t', BundlePath(run)) == ContentAt(t, BundlePath(run)) + lines
  {
    hide LaidOut, Effect, AppendLines, ContentAt;
    LaidOutIsWellFormed(t);
    AppendKeepsLayout(t, LogBundle(run), lines);
    AppendEffect(t, LogBundle(run), lines);
    AppendIsAppendOnly(t, BundlePath(run), lines);
    EffectWiden(t, AppendLines(t, BundlePath(run), lines).0, {LogBundle(run)}, {LogMetadata(run), LogBundle(run)});
  }

  /** Every nonempty append succeeds; its window starts right after the last stored number, and the log
      stays numbered without gaps. */
  lemma AppendEntriesExact(t: HostTree, run: RunScope, id: nat, entries: seq<LogEntryInput>)
    requires LaidOut(t) && Sequenced(ContentAt(t, BundlePath(run)))
    ensures var (t', r) := AppendEntries(t, run, id, entries);
            var before, after := ContentAt(t, BundlePath(run)), ContentAt(t', BundlePath(run));
            && LaidOut(t') && Effect(t, t', {LogMetadata(run), LogBundle(run)})
            && (r.Ok? <==> entries != [])
            && after == before + (if entries == [] then [] else Numbered(entries, |before| + 1))
            && Sequenced(after)
            && (r.Ok? ==>
                  && r.value.firstSequence == |before| + 1 && r.value.lastSequence == |after|
                  && r.value.entryCount == |entries|)
  {
    hide LaidOut, Effect, EnsureBundle, AppendLines, NextSequence, ContentAt, Sequenced, Numbered;
    var arts := {LogMetadata(run), LogBundle(run)};
    if entries == [] {
      EffectReflexive(t, arts);
    } else {
      EnsureBundleSucceeds(t, run, id, entries[0].at);
      var t1 := EnsureBundle(t, run, id, entries[0].at).0;
      EffectWiden(t, t1, {LogMetadata(run)}, arts);
      EffectFrame(t, t1, {LogMetadata(run)}, LogBundle(run), BundlePath(run));
      var before := ContentAt(t, BundlePath(run));
      NextOfSequenced(before);
      StillSequenced(before, entries);
      var lines := Numbered(entries, |before| + 1);
      LinesKept(t1, run, lines);
      EffectTransitive(t, t1, AppendLines(t1, BundlePath(run), lines).0, arts);
    }
  }

  /** What an append that succeeds hands back: the window of its lines, which are the entries under their numbers, how
      many they are, and a reference to the bundle as its stored metadata has it - which, if there was none, names the
      log itself and the time of the first entry. */
  lemma AppendReturns(t: HostTree, run: RunScope, id: nat, entries: seq<LogEntryInput>)
    requires t.WellFormed() && AppendEntries(t, run, id, entries).1.Ok?
    ensures var (t', r) := AppendEntries(t, run, id, entries);
            var log, first := ContentAt(t', LogBundle(run).Root()), r.value.firstSequence;
            && r.value.entryCount == |entries| > 0 && r.value.lastSequence == first + |entries| - 1
            && |log| == |ContentAt(t, LogBundle(run).Root())| + |entries|
            && (forall i :: 0 <= i < |entries| ==>
                  log[|log| - |entries| + i] == LogLine(CapturedLogEntry(first + i, entries[i])))
            && (exists b :: ContentAt(t', LogMetadata(run).Root()) == [BundleDoc(b)]
                            && r.value.bundleRef == ArtifactRef(b.id, b.logFile)
                            && (t.Exists(LogMetadata(run).Root())
                                || b == BundleMetadata(id, run, entries[0].at, LogBundle(run).Root())))
  {
    hide EnsureBundle, AppendLines, NextSequence, ContentAt, Numbered;
    var (t1, bundle) := EnsureBundle(t, run, id, entries[0].at);
    BundleEnsured(t, run, id, entries[0].at);
    var first := NextSequence(ContentAt(t1, BundlePath(run))).value;
    LinesAppended(t1, run, Numbered(entries, first));
    var b := bundle.value;
    var (t2, e) := AppendLines(t1, BundlePath(run), Numbered(entries, first));
    assert e.None? && AppendEntries(t, run, id, entries).0 == t2;
    assert ContentAt(t2, LogMetadata(run).Root()) == [BundleDoc(b)];
  }

  /** Why an append raises, in the order of the checks, with no line appended: there is nothing to append; the metadata
      is there and cannot be read; or, with the metadata there from now on, the log holds something else. */
  lemma AppendRefused(t: HostTree, run: RunScope, id: nat, entries: seq<LogEntryInput>)
    requires t.WellFormed()
    ensures var (t', r) := AppendEntries(t, run, id, entries);
            var metadata, log := LogMetadata(run).Root(), ContentAt(t, LogBundle(run).Root());
            && (entries == [] ==> (t', r) == (t, Err(InvalidValue)))
            && (entries != [] && metadata in t.dirs ==> (t', r) == (t, Err(IsADirectory)))
            && (entries != [] && metadata in t.files && (forall b :: ContentAt(t, metadata) != [BundleDoc(b)]) ==>
                  (t', r) == (t, Err(Malformed)))
            && (entries != [] && (exists b :: ContentAt(t, metadata) == [BundleDoc(b)])
                  && (exists line :: line in log && !line.LogLine?) ==>
                  (t', r) == (t, Err(Malformed)))
  {
    hide AppendLines, Numbered;
    var metadata := LogMetadata(run).Root();
    var c := ContentAt(t, metadata);
    assert |c| == 1 && c[0].BundleDoc? ==> c == [BundleDoc(c[0].bundle)];
    if exists b :: c == [BundleDoc(b)] { assert metadata in t.files; }
  }

  lemma LinesAppended(t: HostTree, run: RunScope, lines: Content)
    requires t.WellFormed() && AppendLines(t, BundlePath(run), lines).1.None?
    ensures var t', before := AppendLines(t, BundlePath(run), lines).0, ContentAt(t, BundlePath(run));
            && ContentAt(t', MetadataPath(run)) == ContentAt(t, MetadataPath(run))
            && |ContentAt(t', BundlePath(run))| == |before| + |lines|
            && forall i :: 0 <= i < |lines| ==> ContentAt(t', BundlePath(run))[|before| + i] == lines[i]
  {
    hide AppendLines, ContentAt;
    AppendIsAppendOnly(t, BundlePath(run), lines);
    if MetadataPath(run) == BundlePath(run) { RootsIncomparable(LogMetadata(run), LogBundle(run)); }
  }

  lemma BundleEnsured(t: HostTree, run: RunScope, id: nat, createdAt: int)
    requires t.WellFormed() && EnsureBundle(t, run, id, createdAt).1.Ok?
    ensures var (t', r) := EnsureBundle(t, run, id, createdAt);
            && t'.WellFormed() && ContentAt(t', BundlePath(run)) == ContentAt(t, BundlePath(run))
            && ContentAt(t', MetadataPath(run)) == [BundleDoc(r.value)]
            && (t.Exists(MetadataPath(run)) || r.value == BundleMetadata(id, run, createdAt, BundlePath(run)))
  {
    hide WriteFile;
    if MetadataPath(run) == BundlePath(run) { RootsIncomparable(LogMetadata(run), LogBundle(run)); }
    if t.Exists(MetadataPath(run)) {
      var c := ContentAt(t, MetadataPath(run));
      assert c == [c[0]];
    } else {
      var bundle := BundleDoc(BundleMetadata(id, run, createdAt, BundlePath(run)));
      WriteIsAppendOnly(t, MetadataPath(run), [bundle], false);
      var (t', e) := WriteFile(t, MetadataPath(run), [bundle], false);
      assert e.None? && MetadataPath(run) in t'.files && t'.files[MetadataPath(run)] == [bundle];
    }
  }

  class LogCaptureBroker {
    const fs: HostStore

    constructor (fs: HostStore)
      ensures this.fs == fs
    {
      this.fs := fs;
    }

    method EnsureLogBundle(run: RunScope, id: nat, createdAt: int) returns (r: Result<BundleMetadata, Error>)
      modifies fs
      ensures (fs.Tree(), r) == EnsureBundle(old(fs.Tree()), run, id, createdAt)
    {
      if fs.Tree().Exists(MetadataPath(run)) {
        return ReadBundle(fs.Tree(), run);
      }
      var bundle := BundleMetadata(id, run, createdAt, BundlePath(run));
      var e := fs.Write(MetadataPath(run), [BundleDoc(bundle)]);
      return if e.Some? then Err(e.value) else Ok(bundle);
    }

    method NumberEntries(entries: seq<LogEntryInput>, first: int) returns (captured: Content)
      ensures captured == Numbered(entries, first)
    {
      captured := [];
      for i := 0 to |entries|
        invariant |captured| == i
        invariant forall j :: 0 <= j < i ==> captured[j] == LogLine(CapturedLogEntry(first + j, entries[j]))
      {
        captured := captured + [LogLine(CapturedLogEntry(first + i, entries[i]))];
      }
    }

    /** id is the fresh id a new bundle gets. */
    method Append(run: RunScope, id: nat, entries: seq<LogEntryInput>) returns (r: Result<LogAppendReceipt, Error>)
      modifies fs
      ensures (fs.Tree(), r) == AppendEntries(old(fs.Tree()), run, id, entries)
    {
      hide EnsureBundle, AppendLines, NextSequence;
      if entries == [] {
        return Err(InvalidValue);
      }
      var bundle := EnsureLogBundle(run, id, entries[0].at);
      if bundle.Err? {
        return Err(bundle.error);
      }
      var first := NextSequence(ContentAt(fs.Tree(), BundlePath(run)));
      if first.Err? {
        return Err(first.error);
      }
      var captured := NumberEntries(entries, first.value);
      var e := fs.AppendJsonl(BundlePath(run), captured);
      if e.Some? {
        return Err(e.value);
      }
      return Ok(LogAppendReceipt(ArtifactRef(bundle.value.id, bundle.value.logFile), first.value,
                                 captured[|captured| - 1].logEntry.sequence, |captured|));
    }
  }
}
