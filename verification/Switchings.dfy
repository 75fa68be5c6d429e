/** The mode switches of a ledger, each as the three events that carry its receipt, and what sorting by time
    makes of them. */
module Switchings {
  import opened Prelude
  import opened StoragePaths
  import opened Commands
  import opened AuditChain
  import opened Query

  /** One approved mode switch: its approval, start and completion. */
  datatype Switching = Switching(approved: AuditEvent, started: AuditEvent, completed: AuditEvent)
  {
    /** The three carry one receipt and one time; the approval alone names the mode context, and none of them
        names a target mode. */
    predicate Sound() {
      && Concerns(approved) && Concerns(started) && Concerns(completed)
      && approved.kind.EvApproved?
      && approved.receiptId == started.receiptId == completed.receiptId
      && approved.stamp.at == started.stamp.at == completed.stamp.at
      && TargetMode !in approved.details && TargetMode !in started.details && TargetMode !in completed.details
      && ModeContext in approved.details && approved.details[ModeContext] != ""
      && ModeContext !in started.details && ModeContext !in completed.details
    }

    function At(): int {
      approved.stamp.at
    }

    function Id(): nat
      requires Sound()
    {
      approved.receiptId.value
    }

    function Context(): string
      requires Sound()
    {
      approved.details[ModeContext]
    }

    function Events(): seq<AuditEvent> {
      [approved, started, completed]
    }
  }

  function Flatten(ts: seq<Switching>): seq<AuditEvent> {
    if ts == [] then [] else Flatten(ts[..|ts| - 1]) + ts[|ts| - 1].Events()
  }

  /** Sound switches, no two of them with the same receipt. */
  ghost predicate Switches(ts: seq<Switching>) {
    && (forall i :: 0 <= i < |ts| ==> ts[i].Sound())
    && (forall i, j :: 0 <= i < j < |ts| ==> ts[i].Id() != ts[j].Id())
  }

  lemma FlattenStep(ts: seq<Switching>, t: Switching)
    ensures Flatten(ts + [t]) == Flatten(ts) + t.Events()
  {
    assert (ts + [t])[..|ts|] == ts;
  }

  lemma {:induction false} FlattenedConcern(ts: seq<Switching>)
    requires forall i :: 0 <= i < |ts| ==> ts[i].Sound()
    ensures forall e :: e in Flatten(ts) ==> Concerns(e)
    ensures forall e :: e in Flatten(ts) ==> exists i :: 0 <= i < |ts| && e.receiptId == Some(ts[i].Id())
  {
    if ts != [] {
      var n := |ts| - 1;
      FlattenedConcern(ts[..n]);
      forall e | e in Flatten(ts) ensures Concerns(e) && exists i :: 0 <= i < |ts| && e.receiptId == Some(ts[i].Id()) {
        if e in Flatten(ts[..n]) {
          var i :| 0 <= i < n && e.receiptId == Some(ts[..n][i].Id());
          assert e.receiptId == Some(ts[i].Id());
        } else {
          assert e in ts[n].Events();
          assert e.receiptId == Some(ts[n].Id());
        }
      }
    }
  }

  /* ---- sorting moves whole switches ---- */

  function InsertSwitch(ts: seq<Switching>, t: Switching): (r: seq<Switching>)
    ensures |r| == |ts| + 1
  {
    if ts == [] || ts[|ts| - 1].At() <= t.At() then ts + [t]
    else InsertSwitch(ts[..|ts| - 1], t) + [ts[|ts| - 1]]
  }

  function SortSwitches(ts: seq<Switching>): (r: seq<Switching>)
    ensures |r| == |ts|
  {
    if ts == [] then [] else InsertSwitch(SortSwitches(ts[..|ts| - 1]), ts[|ts| - 1])
  }

  /** Inserting goes past everything stamped later. */
  lemma {:induction false} InsertPast(s: seq<AuditEvent>, tail: seq<AuditEvent>, e: AuditEvent)
    requires forall i :: 0 <= i < |tail| ==> e.stamp.at < tail[i].stamp.at
    ensures InsertByTime(s + tail, e) == InsertByTime(s, e) + tail
    decreases |tail|
  {
    if tail == [] {
      assert s + tail == s;
    } else {
      var n := |tail| - 1;
      assert (s + tail)[..|s + tail| - 1] == s + tail[..n];
      InsertPast(s, tail[..n], e);
      assert tail == tail[..n] + [tail[n]];
    }
  }

  /** The three events of a switch stay together when they are inserted one after the other. */
  lemma {:induction false} InsertTogether(ts: seq<Switching>, t: Switching)
    requires t.Sound() && forall i :: 0 <= i < |ts| ==> ts[i].Sound()
    ensures InsertByTime(InsertByTime(InsertByTime(Flatten(ts), t.approved), t.started), t.completed)
            == Flatten(InsertSwitch(ts, t))
  {
    var s := Flatten(ts);
    if ts == [] || ts[|ts| - 1].At() <= t.At() {
      FlattenStep(ts, t);
      assert InsertByTime(s, t.approved) == s + [t.approved];
      assert InsertByTime(s + [t.approved], t.started) == s + [t.approved] + [t.started];
      assert s + [t.approved] + [t.started] + [t.completed] == s + t.Events();
    } else {
      var front, last := ts[..|ts| - 1], ts[|ts| - 1];
      var s0, tail := Flatten(front), last.Events();
      InsertTogether(front, t);
      InsertPast(s0, tail, t.approved);
      InsertPast(InsertByTime(s0, t.approved), tail, t.started);
      InsertPast(InsertByTime(InsertByTime(s0, t.approved), t.started), tail, t.completed);
      FlattenStep(InsertSwitch(front, t), last);
    }
  }

  lemma {:induction false} InsertKeepsSwitches(ts: seq<Switching>, t: Switching)
    requires Switches(ts) && t.Sound() && forall i :: 0 <= i < |ts| ==> ts[i].Id() != t.Id()
    ensures Switches(InsertSwitch(ts, t)) && forall u :: u in InsertSwitch(ts, t) <==> u == t || u in ts
  {
    if ts != [] && ts[|ts| - 1].At() > t.At() {
      var front, last := ts[..|ts| - 1], ts[|ts| - 1];
      InsertKeepsSwitches(front, t);
      var r := InsertSwitch(front, t);
      assert ts == front + [last];
      forall i | 0 <= i < |r| ensures r[i].Id() != last.Id() {
        assert r[i] == t || r[i] in front;
      }
    }
  }

  lemma {:induction false} SortKeepsSwitches(ts: seq<Switching>)
    requires Switches(ts)
    ensures Switches(SortSwitches(ts)) && forall u :: u in SortSwitches(ts) <==> u in ts
  {
    if ts != [] {
      var front, t := ts[..|ts| - 1], ts[|ts| - 1];
      assert ts == front + [t];
      SortKeepsSwitches(front);
      var r := SortSwitches(front);
      forall i | 0 <= i < |r| ensures r[i].Id() != t.Id() {
        assert r[i] in front;
      }
      InsertKeepsSwitches(r, t);
    }
  }

  /** Sorting the events sorts the switches. */
  lemma {:induction false} SortedTogether(ts: seq<Switching>)
    requires Switches(ts)
    ensures SortedByTime(Flatten(ts)) == Flatten(SortSwitches(ts))
  {
    if ts != [] {
      var front, t := ts[..|ts| - 1], ts[|ts| - 1];
      SortedTogether(front);
      SortKeepsSwitches(front);
      SortedAfterThree(Flatten(front), t.approved, t.started, t.completed);
      InsertTogether(SortSwitches(front), t);
    }
  }

  lemma SortedAfterThree(s: seq<AuditEvent>, a: AuditEvent, b: AuditEvent, c: AuditEvent)
    ensures SortedByTime(s + [a, b, c]) == InsertByTime(InsertByTime(InsertByTime(SortedByTime(s), a), b), c)
  {
    SortedStep(s, a);
    SortedStep(s + [a], b);
    SortedStep(s + [a] + [b], c);
    assert s + [a] + [b] + [c] == s + [a, b, c];
  }

  lemma SortedStep(s: seq<AuditEvent>, e: AuditEvent)
    ensures SortedByTime(s + [e]) == InsertByTime(SortedByTime(s), e)
  {
    assert (s + [e])[..|s|] == s;
  }

  /** The newest of the switches with the latest time. */
  function Latest(ts: seq<Switching>): (t: Switching)
    requires ts != []
    ensures t in ts && forall u :: u in ts ==> u.At() <= t.At()
  {
    var n := |ts| - 1;
    assert ts == ts[..n] + [ts[n]];
    if n == 0 || Latest(ts[..n]).At() <= ts[n].At() then ts[n] else Latest(ts[..n])
  }

  lemma LatestOfTwo(a: Switching, b: Switching)
    ensures Latest([a, b]) == if a.At() <= b.At() then b else a
  {
    assert [a, b][..1] == [a];
    assert Latest([a]) == a;
  }

  lemma {:induction false} LatestIsLast(ts: seq<Switching>)
    requires ts != []
    ensures SortSwitches(ts)[|ts| - 1] == Latest(ts)
  {
    var n := |ts| - 1;
    if n > 0 { LatestIsLast(ts[..n]); }
    var r := SortSwitches(ts[..n]);
    assert n > 0 ==> r[n - 1] == Latest(ts[..n]);
  }

  /** The newest switch is the latest exactly when no earlier one has a later time. */
  lemma NewestIsLatest(ts: seq<Switching>)
    requires ts != [] && Switches(ts)
    ensures Latest(ts).Sound()
    ensures Latest(ts).Id() == ts[|ts| - 1].Id() <==> forall i :: 0 <= i < |ts| ==> ts[i].At() <= ts[|ts| - 1].At()
  {
    var n := |ts| - 1;
    var t := Latest(ts);
    var k :| 0 <= k < |ts| && ts[k] == t;
    if forall i :: 0 <= i < |ts| ==> ts[i].At() <= ts[n].At() {
      assert n > 0 ==> Latest(ts[..n]) in ts;
      assert t == ts[n];
    } else {
      assert ts[n].At() < t.At();
    }
  }

  lemma {:induction false} FlattenedMember(ts: seq<Switching>, i: nat)
    requires i < |ts|
    ensures ts[i].approved in Flatten(ts)
  {
    var n := |ts| - 1;
    if i < n {
      FlattenedMember(ts[..n], i);
    } else {
      assert ts[n].Events()[0] == ts[n].approved;
    }
  }

  lemma {:induction false} FlattenedEarlier(ts: seq<Switching>, at: int)
    requires forall i :: 0 <= i < |ts| ==> ts[i].Sound() && ts[i].At() <= at
    ensures forall e :: e in Flatten(ts) ==> e.stamp.at <= at
  {
    if ts != [] {
      var n := |ts| - 1;
      FlattenedEarlier(ts[..n], at);
      assert ts[n].Sound() && ts[n].At() <= at;
      forall e | e in ts[n].Events() ensures e.stamp.at <= at { }
    }
  }

  /** The same, said of the events. */
  lemma FlattenedTimes(ts: seq<Switching>, at: int)
    requires Switches(ts)
    ensures (forall e :: e in Flatten(ts) ==> e.stamp.at <= at) <==> (forall i :: 0 <= i < |ts| ==> ts[i].At() <= at)
    ensures ts != [] ==> Flatten(ts) != [] && Flatten(ts)[|Flatten(ts)| - 1].stamp.at == ts[|ts| - 1].At()
  {
    if forall i :: 0 <= i < |ts| ==> ts[i].At() <= at { FlattenedEarlier(ts, at); }
    forall i | 0 <= i < |ts| ensures ts[i].approved in Flatten(ts) { FlattenedMember(ts, i); }
  }

  /* ---- what the projection makes of them ---- */

  /** Selecting commutes with sorting. */
  lemma {:induction false} SelectInserted(s: seq<AuditEvent>, e: AuditEvent)
    requires InTimeOrder(s)
    ensures Select(InsertByTime(s, e)) == if Concerns(e) then InsertByTime(Select(s), e) else Select(s)
  {
    if s == [] || s[|s| - 1].stamp.at <= e.stamp.at {
      SelectedAreEarlier(s, e);
      assert (s + [e])[..|s|] == s;
    } else {
      var front, last := s[..|s| - 1], s[|s| - 1];
      SelectInserted(front, e);
      assert (InsertByTime(front, e) + [last])[..|s|] == InsertByTime(front, e);
      if Concerns(e) && Concerns(last) {
        InsertPast(Select(front), [last], e);
      }
    }
  }

  lemma {:induction false} SelectedAreEarlier(s: seq<AuditEvent>, e: AuditEvent)
    requires InTimeOrder(s) && (s == [] || s[|s| - 1].stamp.at <= e.stamp.at)
    ensures Select(s) == [] || Select(s)[|Select(s)| - 1].stamp.at <= e.stamp.at
  {
    if s != [] && !Concerns(s[|s| - 1]) { SelectedAreEarlier(s[..|s| - 1], e); }
  }

  lemma {:induction false} SelectSorted(events: seq<AuditEvent>)
    ensures Select(SortedByTime(events)) == SortedByTime(Select(events))
  {
    if events != [] {
      var front, last := events[..|events| - 1], events[|events| - 1];
      SelectSorted(front);
      TimelineIsStableSort(front);
      SelectInserted(SortedByTime(front), last);
      if Concerns(last) { SortedStep(Select(front), last); }
    }
  }

  lemma {:induction false} AbsentKey(es: seq<AuditEvent>, id: nat)
    requires forall i :: 0 <= i < |es| ==> Concerns(es[i]) && es[i].receiptId != Some(id)
    ensures id !in Keys(es) && Group(es, id) == []
  {
    if es != [] {
      assert Concerns(es[|es| - 1]);
      AbsentKey(es[..|es| - 1], id);
    }
  }

  /** Events of one new receipt form its whole group, and its key comes last. */
  lemma {:induction false} NewGroup(pre: seq<AuditEvent>, b: seq<AuditEvent>, id: nat)
    requires (forall i :: 0 <= i < |pre| ==> Concerns(pre[i])) && (forall i :: 0 <= i < |b| ==> Concerns(b[i]))
    requires forall i :: 0 <= i < |b| ==> b[i].receiptId == Some(id)
    requires id !in Keys(pre) && Group(pre, id) == []
    ensures Group(pre + b, id) == b && Keys(pre + b) == Keys(pre) + (if b == [] then [] else [id])
    decreases |b|
  {
    hide Group, Keys;
    if b == [] {
      assert pre + b == pre;
    } else {
      var n := |b| - 1;
      NewGroup(pre, b[..n], id);
      assert pre + b == pre + b[..n] + [b[n]];
      KeysStep(pre + b[..n], b[n]);
      GroupStep(pre + b[..n], b[n], id);
      assert b[..n] + [b[n]] == b;
    }
  }

  lemma SwitchCandidate(t: Switching, mode: string)
    requires t.Sound()
    ensures Candidate(t.Events(), t.Id(), mode) == Some(ReceiptView(t.Id(), mode, t.Context()))
  {
    var a, s, k := t.approved, t.started, t.completed;
    var g := [a, s, k];
    assert a in g;
    assert [] + [a] == [a] && [a] + [s] == [a, s] && [a, s] + [k] == g;
    FirstTextStep([], a, TargetMode);
    FirstTextStep([a], s, TargetMode);
    FirstTextStep([a, s], k, TargetMode);
    FirstTextStep([], a, ModeContext);
    FirstTextStep([a], s, ModeContext);
    FirstTextStep([a, s], k, ModeContext);
  }

  lemma FirstTextStep(es: seq<AuditEvent>, e: AuditEvent, key: DetailKey)
    ensures FirstText(es + [e], key) ==
            if key in e.details && e.details[key] != "" then Some(e.details[key]) else FirstText(es, key)
  {
    assert (es + [e])[..|es|] == es;
  }

  /** The last switch of a list is what is picked from it. */
  lemma LastIsPicked(ts: seq<Switching>, mode: string)
    requires ts != [] && Switches(ts)
    ensures var t := ts[|ts| - 1]; var es := Flatten(ts);
            && (forall i :: 0 <= i < |es| ==> Concerns(es[i]))
            && Pick(Keys(es), es, mode) == Some(ReceiptView(t.Id(), mode, t.Context()))
  {
    hide Group, Keys, Candidate;
    var n := |ts| - 1;
    var t, pre := ts[n], Flatten(ts[..n]);
    FlattenedConcern(ts[..n]);
    forall i | 0 <= i < |pre| ensures Concerns(pre[i]) && pre[i].receiptId != Some(t.Id()) {
      assert pre[i] in pre;
    }
    AbsentKey(pre, t.Id());
    NewGroup(pre, t.Events(), t.Id());
    SwitchCandidate(t, mode);
  }

  /** Whatever the timestamps, the projection shows the newest of the latest switches. */
  lemma LatestIsProjected(events: seq<AuditEvent>, ts: seq<Switching>, mode: string)
    requires Switches(ts) && Select(events) == Flatten(ts)
    ensures ts == [] ==> ActiveReceipt(events, mode) == None
    ensures ts != [] ==> (var t := Latest(ts);
                          t.Sound() && ActiveReceipt(events, mode) == Some(ReceiptView(t.Id(), mode, t.Context())))
  {
    SelectSorted(events);
    SortedTogether(ts);
    if ts != [] {
      LatestIsLast(ts);
      SortKeepsSwitches(ts);
      LastIsPicked(SortSwitches(ts), mode);
    }
  }
}
