/** audit/ledger.py, the store: one hash-chained JSON-lines file per run. */
module Ledger {
  import opened Prelude
  import opened FileTree
  import opened StoragePaths
  import opened AuditChain
  import opened Records
  import opened HostFilesystem
  import opened StorageLayout

  /** The events of every run that has any. */
  type EventLog = map<RunScope, seq<AuditEvent>>

  function EventsOf(log: EventLog, run: RunScope): seq<AuditEvent> {
    if run in log then log[run] else []
  }

  function Recorded(log: EventLog, event: AuditEvent): EventLog {
    log[event.run := EventsOf(log, event.run) + [event]]
  }

  /** read_run_events: a missing file has no entries, and a directory cannot be read. */
  function StoredLedger(t: HostTree, run: RunScope): Result<seq<Entry>, Error> {
    if t.IsDir(LedgerFile(run)) then Err(IsADirectory)
    else
      match LedgerEntries(ContentAt(t, LedgerFile(run)))
      case None => Err(Malformed)
      case Some(es) => Ok(es)
  }

  /** append, on the host tree: link to the last stored entry and add one line. */
  function AppendEntry(h: Hasher, t: HostTree, event: AuditEvent): (HostTree, Result<Entry, Error>) {
    match StoredLedger(t, event.run)
    case Err(e) => (t, Err(e))
    case Ok(es) =>
      var entry := NextEntry(h, es, event);
      var (t', e) := AppendLines(t, LedgerFile(event.run), [LedgerLine(entry)]);
      (t', if e.Some? then Err(e.value) else Ok(entry))
  }

  /** The run's ledger cannot be written: it is a directory, or a file is where one of its directories would be. */
  predicate LedgerBlocked(t: HostTree, run: RunScope) {
    t.IsDir(LedgerFile(run)) || t.BlockedAbove(LedgerFile(run))
  }

  /** Then no event of the run can be recorded, now or ever. */
  lemma BlockedLedgerRefuses(h: Hasher, t: HostTree, t': HostTree, event: AuditEvent)
    requires LedgerBlocked(t, event.run) && OnlyGrows(t, t')
    ensures LedgerBlocked(t', event.run)
    ensures AppendEntry(h, t', event).0 == t' && AppendEntry(h, t', event).1.Err?
  {
    RootParts(AuditLog(event.run));
  }

  /** Every run's file holds exactly the chain of that run's events. */
  ghost predicate Mirrors(h: Hasher, t: HostTree, log: EventLog) {
    forall run :: ContentAt(t, LedgerFile(run)) == LedgerLines(Chain(h, EventsOf(log, run)))
  }

  /** The chain of one more event is the chain with one more entry. */
  lemma ChainStep(h: Hasher, events: seq<AuditEvent>, event: AuditEvent)
    ensures Chain(h, events + [event]) == Chain(h, events) + [NextEntry(h, Chain(h, events), event)]
  {
    assert (events + [event])[..|events|] == events;
  }

  lemma LinesStep(es: seq<Entry>, entry: Entry)
    ensures LedgerLines(es + [entry]) == LedgerLines(es) + [LedgerLine(entry)]
  {
  }

  /** Appending to a file that holds the chain of some events leaves it holding the chain of one more. */
  lemma AppendToChain(h: Hasher, t: HostTree, events: seq<AuditEvent>, event: AuditEvent)
    requires t.WellFormed() && ContentAt(t, LedgerFile(event.run)) == LedgerLines(Chain(h, events))
    requires !LedgerBlocked(t, event.run)
    ensures var (t', r) := AppendEntry(h, t, event);
            && t'.WellFormed() && Effect(t, t', {AuditLog(event.run)})
            && r == Ok(NextEntry(h, Chain(h, events), event))
            && ContentAt(t', LedgerFile(event.run)) == LedgerLines(Chain(h, events + [event]))
  {
    hide Effect, AppendLines, Chain, LedgerLines, LedgerEntries, ContentAt, NextEntry;
    var a := AuditLog(event.run);
    var es := Chain(h, events);
    var entry := NextEntry(h, es, event);
    LedgerLinesRead(es);
    AppendEffect(t, a, [LedgerLine(entry)]);
    AppendIsAppendOnly(t, a.Root(), [LedgerLine(entry)]);
    UnblockedAppend(t, event.run, [LedgerLine(entry)]);
    ChainStep(h, events, event);
    LinesStep(es, entry);
  }

  lemma UnblockedAppend(t: HostTree, run: RunScope, lines: Content)
    requires t.WellFormed() && !LedgerBlocked(t, run)
    ensures AppendLines(t, LedgerFile(run), lines).1 == None
  {
  }

  /** Appending succeeds unless the ledger is blocked, and keeps the files equal to the chains. */
  lemma AppendMirrors(h: Hasher, t: HostTree, log: EventLog, event: AuditEvent)
    requires t.WellFormed() && Mirrors(h, t, log)
    ensures var (t', r) := AppendEntry(h, t, event);
            && t'.WellFormed() && Effect(t, t', {AuditLog(event.run)})
            && (r.Err? <==> LedgerBlocked(t, event.run))
            && (r.Err? ==> t' == t)
            && (r.Ok? ==> r.value == NextEntry(h, Chain(h, EventsOf(log, event.run)), event)
                          && Mirrors(h, t', Recorded(log, event)))
  {
    hide Effect, AppendEntry, Chain, LedgerLines, ContentAt, NextEntry, LedgerBlocked;
    if LedgerBlocked(t, event.run) {
      GrowthReflexive(t, iset{});
      BlockedLedgerRefuses(h, t, t, event);
      EffectReflexive(t, {AuditLog(event.run)});
    } else {
      AppendToChain(h, t, EventsOf(log, event.run), event);
      var t' := AppendEntry(h, t, event).0;
      forall run ensures ContentAt(t', LedgerFile(run)) == LedgerLines(Chain(h, EventsOf(Recorded(log, event), run))) {
        if run != event.run { EffectFrame(t, t', {AuditLog(event.run)}, AuditLog(run), LedgerFile(run)); }
      }
    }
  }

  /** A store the services wrote blocks no ledger, and an append keeps its layout. */
  lemma AppendEntryKeepsLayout(h: Hasher, t: HostTree, event: AuditEvent)
    requires LaidOut(t)
    ensures !LedgerBlocked(t, event.run) && LaidOut(AppendEntry(h, t, event).0)
  {
    hide LaidOut, AppendLines;
    FileArtifactsAreNeverBlocked(t, AuditLog(event.run));
    var es := StoredLedger(t, event.run);
    if es.Ok? { AppendKeepsLayout(t, AuditLog(event.run), [LedgerLine(NextEntry(h, es.value, event))]); }
  }

  /** Steps that touch no ledger keep the correspondence. */
  lemma MirrorsFrame(h: Hasher, t: HostTree, t': HostTree, arts: set<Artifact>, log: EventLog)
    requires Mirrors(h, t, log) && Effect(t, t', arts) && forall a :: a in arts ==> !a.AuditLog?
    ensures Mirrors(h, t', log)
  {
    forall run ensures ContentAt(t', LedgerFile(run)) == ContentAt(t, LedgerFile(run)) {
      EffectFrame(t, t', arts, AuditLog(run), LedgerFile(run));
    }
  }

  class AuditLedger {
    const fs: HostStore
    const hash: Hasher
    /** The events behind the stored chains. */
    ghost var log: EventLog

    ghost predicate Valid()
      reads this, fs
    {
      LaidOut(fs.Tree()) && Mirrors(hash, fs.Tree(), log)
    }

    constructor (fs: HostStore, hash: Hasher)
      requires fs.Tree() == Tree(map[], {})
      ensures this.fs == fs && this.hash == hash && log == map[] && Valid()
    {
      this.fs, this.hash, log := fs, hash, map[];
      new;
      EmptyIsLaidOut();
    }

    /** read_run_events */
    method ReadRunEvents(run: RunScope) returns (r: Result<seq<Entry>, Error>)
      ensures r == StoredLedger(fs.Tree(), run)
    {
      if fs.Tree().IsDir(LedgerFile(run)) {
        return Err(IsADirectory);
      }
      var content := ContentAt(fs.Tree(), LedgerFile(run));
      var entries := [];
      for i := 0 to |content|
        invariant |entries| == i && forall j :: 0 <= j < i ==> content[j] == LedgerLine(entries[j])
      {
        if !content[i].LedgerLine? {
          return Err(Malformed);
        }
        entries := entries + [content[i].entry];
      }
      assert LedgerEntries(content).value == entries;
      return Ok(entries);
    }

    method Append(event: AuditEvent) returns (entry: Entry)
      requires Valid()
      modifies this, fs
      ensures Valid() && log == Recorded(old(log), event)
      ensures (fs.Tree(), Result<Entry, Error>.Ok(entry)) == AppendEntry(hash, old(fs.Tree()), event)
      ensures entry == NextEntry(hash, Chain(hash, EventsOf(old(log), event.run)), event)
      ensures Effect(old(fs.Tree()), fs.Tree(), {AuditLog(event.run)})
    {
      hide LaidOut, Effect, LedgerBlocked, NextEntry, Mirrors;
      LaidOutIsWellFormed(fs.Tree());
      AppendMirrors(hash, fs.Tree(), log, event);
      AppendEntryKeepsLayout(hash, fs.Tree(), event);
      var existing := ReadRunEvents(event.run);
      entry := NextEntry(hash, existing.value, event);
      var e := fs.AppendJsonl(LedgerFile(event.run), [LedgerLine(entry)]);
      log := Recorded(log, event);
    }

    /** Every ledger this class has written verifies. */
    method VerifyRunChain(run: RunScope) returns (r: Result<seq<Entry>, Error>)
      requires Valid()
      ensures r == Ok(Chain(hash, EventsOf(log, run)))
    {
      FileArtifactsAreNeverBlocked(fs.Tree(), AuditLog(run));
      var es := ReadRunEvents(run);
      LedgerLinesRead(Chain(hash, EventsOf(log, run)));
      ChainVerified(hash, EventsOf(log, run));
      r := VerifyChain(hash, es.value);
    }
  }
}
