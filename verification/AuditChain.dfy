/** audit/ledger.py, the hash chain: events, hash-linked entries, what verification accepts. */
module AuditChain {
  import opened Prelude
  import opened StoragePaths
  import opened Commands

  datatype EventType = EvRequested | EvApprovalRequested | EvApproved | EvRejected | EvStarted | EvCompleted | EvFailed

  datatype DetailKey =
    | DispatchStatus | Surface | Reason | ModeContext | Denial | CurrentMode | LifecycleState
    | TargetMode | TargetCycleId | SnapshotId | CloneRunId

  /** A detail whose value is None is the same to every reader as an absent key. */
  type Details = map<DetailKey, string>

  datatype Stamp = Stamp(actorId: Text, actorRole: Text, at: int)

  datatype AuditEvent = AuditEvent(id: nat, commandId: nat, action: Action, kind: EventType, stamp: Stamp,
                                   run: RunScope, cycleId: Option<Text>, approvalId: Option<nat>,
                                   receiptId: Option<nat>, details: Details)

  type Digest = string

  /** The hash of an event together with the previous entry's hash. Nothing is assumed about it. */
  type Hasher = (AuditEvent, Option<Digest>) -> Digest

  datatype Entry = Entry(event: AuditEvent, previous: Option<Digest>, current: Digest)

  function LastHash(es: seq<Entry>): Option<Digest> {
    if es == [] then None else Some(es[|es| - 1].current)
  }

  /** The entry append writes after es. */
  function NextEntry(h: Hasher, es: seq<Entry>, event: AuditEvent): Entry {
    Entry(event, LastHash(es), h(event, LastHash(es)))
  }

  /** The ledger that results from appending the events one by one. */
  function Chain(h: Hasher, events: seq<AuditEvent>): (es: seq<Entry>)
    ensures |es| == |events|
  {
    if events == [] then []
    else
      var es := Chain(h, events[..|events| - 1]);
      es + [NextEntry(h, es, events[|events| - 1])]
  }

  /** Entry i links to the entry before it and carries its own hash. */
  predicate LinkedAt(h: Hasher, es: seq<Entry>, i: nat)
    requires i < |es|
  {
    es[i].previous == LastHash(es[..i]) && es[i].current == h(es[i].event, es[i].previous)
  }

  ghost predicate Verified(h: Hasher, es: seq<Entry>) {
    forall i :: 0 <= i < |es| ==> LinkedAt(h, es, i)
  }

  /** verify_run_chain: all entries, or the index of the first broken link. */
  method VerifyChain(h: Hasher, es: seq<Entry>) returns (r: Result<seq<Entry>, Error>)
    ensures r.Ok? <==> Verified(h, es)
    ensures r.Ok? ==> r.value == es
    ensures r.Err? ==> r.error.AuditTampered? && r.error.index < |es|
                       && !LinkedAt(h, es, r.error.index) && Verified(h, es[..r.error.index])
  {
    var previous: Option<Digest> := None;
    for i := 0 to |es|
      invariant previous == LastHash(es[..i])
      invariant forall j :: 0 <= j < i ==> LinkedAt(h, es, j)
    {
      VerifiedPrefixAt(h, es, i);
      if es[i].previous != previous {
        assert !LinkedAt(h, es, i);
        return Err(AuditTampered(i));
      }
      if es[i].current != h(es[i].event, es[i].previous) {
        assert !LinkedAt(h, es, i);
        return Err(AuditTampered(i));
      }
      previous := Some(es[i].current);
      assert es[..i + 1][i] == es[i];
    }
    return Ok(es);
  }

  lemma VerifiedPrefixAt(h: Hasher, es: seq<Entry>, n: nat)
    requires n <= |es| && forall j :: 0 <= j < n ==> LinkedAt(h, es, j)
    ensures Verified(h, es[..n])
  {
    forall j | 0 <= j < n ensures LinkedAt(h, es[..n], j) {
      assert LinkedAt(h, es, j) && es[..n][..j] == es[..j];
    }
  }

  lemma VerifiedPrefix(h: Hasher, es: seq<Entry>, n: nat)
    requires Verified(h, es) && n <= |es|
    ensures Verified(h, es[..n])
  {
    VerifiedPrefixAt(h, es, n);
  }

  /** The writer's hash and the verifying reader's agree, so appending keeps a ledger verified. */
  lemma AppendKeepsVerified(h: Hasher, es: seq<Entry>, event: AuditEvent)
    requires Verified(h, es)
    ensures Verified(h, es + [NextEntry(h, es, event)])
  {
    var ns := es + [NextEntry(h, es, event)];
    forall j | 0 <= j < |ns| ensures LinkedAt(h, ns, j) {
      assert ns[..j] == es[..j];
      if j < |es| { assert LinkedAt(h, es, j); } else { assert es[..j] == es; }
    }
  }

  /** A verified ledger is exactly the chain of its own events: verification accepts what append
      can have written, and nothing else. */
  lemma {:induction false} VerifiedIffAppended(h: Hasher, es: seq<Entry>)
    ensures Verified(h, es) <==> es == Chain(h, Events(es))
  {
    if es == Chain(h, Events(es)) { ChainVerified(h, Events(es)); }
    if es != [] && Verified(h, es) {
      var n := |es| - 1;
      assert LinkedAt(h, es, n);
      hide Verified;
      VerifiedPrefix(h, es, n);
      VerifiedIffAppended(h, es[..n]);
      assert Events(es)[..n] == Events(es[..n]);
      assert es == es[..n] + [es[n]];
    }
  }

  function Events(es: seq<Entry>): (r: seq<AuditEvent>)
    ensures |r| == |es| && forall i :: 0 <= i < |es| ==> r[i] == es[i].event
  {
    seq(|es|, i requires 0 <= i < |es| => es[i].event)
  }

  /** Two entries with different hashed content and the same hash. */
  predicate Collides(a: Entry, b: Entry) {
    (a.event, a.previous) != (b.event, b.previous) && a.current == b.current
  }

  ghost predicate CollisionBetween(a: seq<Entry>, b: seq<Entry>) {
    exists i, j :: 0 <= i < |a| && 0 <= j < |b| && Collides(a[i], b[j])
  }

  /** Two verified ledgers with the same final hash are the same ledger, length included, unless they
      exhibit a collision of the hash function: so an edit, reorder, insertion or removal that keeps
      the final hash is rejected. */
  lemma {:induction false} FinalHashDeterminesLedger(h: Hasher, a: seq<Entry>, b: seq<Entry>)
    requires Verified(h, a) && Verified(h, b) && LastHash(a) == LastHash(b)
    ensures a == b || CollisionBetween(a, b)
  {
    if a != [] && b != [] {
      var m, n := |a| - 1, |b| - 1;
      assert LinkedAt(h, a, m) && LinkedAt(h, b, n);
      if Collides(a[m], b[n]) {
        assert CollisionBetween(a, b);
      } else {
        assert a[m] == b[n];
        VerifiedPrefix(h, a, m);
        VerifiedPrefix(h, b, n);
        FinalHashDeterminesLedger(h, a[..m], b[..n]);
        if a[..m] == b[..n] {
          assert a == a[..m] + [a[m]] && b == b[..n] + [b[n]];
        } else {
          var i, j :| 0 <= i < m && 0 <= j < n && Collides(a[..m][i], b[..n][j]);
          assert Collides(a[i], b[j]);
        }
      }
    }
  }

  ghost predicate Injective(h: Hasher) {
    forall e1, p1, e2, p2 :: h(e1, p1) == h(e2, p2) ==> e1 == e2 && p1 == p2
  }

  /** With an injective hash there is no escape clause, and the ledger is a function of its last hash. */
  lemma InjectiveHashDeterminesLedger(h: Hasher, a: seq<Entry>, b: seq<Entry>)
    requires Injective(h) && Verified(h, a) && Verified(h, b)
    ensures LastHash(a) == LastHash(b) <==> a == b
  {
    if LastHash(a) == LastHash(b) {
      FinalHashDeterminesLedger(h, a, b);
      forall i, j | 0 <= i < |a| && 0 <= j < |b| ensures !Collides(a[i], b[j]) {
        assert LinkedAt(h, a, i) && LinkedAt(h, b, j);
      }
    }
  }

  /** Chains of a longer event list extend chains of its prefixes. */
  lemma {:induction false} ChainPrefix(h: Hasher, events: seq<AuditEvent>, n: nat)
    requires n <= |events|
    ensures Chain(h, events)[..n] == Chain(h, events[..n])
  {
    if n == |events| {
      assert events[..n] == events;
    } else {
      var k := |events| - 1;
      ChainPrefix(h, events[..k], n);
      assert events[..k][..n] == events[..n];
    }
  }

  lemma {:induction false} ChainEvents(h: Hasher, events: seq<AuditEvent>)
    ensures Events(Chain(h, events)) == events
  {
    if events != [] {
      var k := |events| - 1;
      ChainEvents(h, events[..k]);
      assert events == events[..k] + [events[k]];
      assert Events(Chain(h, events)) == Events(Chain(h, events[..k])) + [events[k]];
    }
  }

  lemma ChainVerified(h: Hasher, events: seq<AuditEvent>)
    ensures Verified(h, Chain(h, events))
  {
    if events != [] {
      var k := |events| - 1;
      ChainVerified(h, events[..k]);
      AppendKeepsVerified(h, Chain(h, events[..k]), events[k]);
    }
  }
}
