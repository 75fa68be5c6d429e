/** query/service.py: the read model of a run's mode-switch receipt, and how it relates to the gate. */
module Query {
  import opened Prelude
  import opened StoragePaths
  import opened Commands
  import opened AuditChain

  datatype ReceiptView = ReceiptView(receiptId: nat, targetMode: string, modeContext: string)

  /* ---- sorting by occurred_at ---- */

  function InsertByTime(s: seq<AuditEvent>, e: AuditEvent): (r: seq<AuditEvent>)
    ensures |r| == |s| + 1
  {
    if s == [] || s[|s| - 1].stamp.at <= e.stamp.at then s + [e]
    else InsertByTime(s[..|s| - 1], e) + [s[|s| - 1]]
  }

  /** sorted(events, key=occurred_at), which is stable. */
  function SortedByTime(events: seq<AuditEvent>): (r: seq<AuditEvent>)
    ensures |r| == |events|
  {
    if events == [] then [] else InsertByTime(SortedByTime(events[..|events| - 1]), events[|events| - 1])
  }

  ghost predicate InTimeOrder(events: seq<AuditEvent>) {
    forall i, j :: 0 <= i < j < |events| ==> events[i].stamp.at <= events[j].stamp.at
  }

  /** The events stamped at one moment, in order. */
  function AtTime(s: seq<AuditEvent>, at: int): seq<AuditEvent> {
    if s == [] then []
    else AtTime(s[..|s| - 1], at) + (if s[|s| - 1].stamp.at == at then [s[|s| - 1]] else [])
  }

  lemma AtTimeStep(s: seq<AuditEvent>, e: AuditEvent, at: int)
    ensures AtTime(s + [e], at) == AtTime(s, at) + (if e.stamp.at == at then [e] else [])
  {
    assert (s + [e])[..|s|] == s;
  }

  lemma {:induction false} InsertedBy(s: seq<AuditEvent>, e: AuditEvent, at: int)
    requires e.stamp.at <= at && forall i :: 0 <= i < |s| ==> s[i].stamp.at <= at
    ensures forall i :: 0 <= i < |s| + 1 ==> InsertByTime(s, e)[i].stamp.at <= at
  {
    if s != [] && s[|s| - 1].stamp.at > e.stamp.at { InsertedBy(s[..|s| - 1], e, at); }
  }

  lemma {:induction false} InsertedInOrder(s: seq<AuditEvent>, e: AuditEvent)
    requires InTimeOrder(s)
    ensures InTimeOrder(InsertByTime(s, e))
  {
    if s != [] && s[|s| - 1].stamp.at > e.stamp.at {
      InsertedInOrder(s[..|s| - 1], e);
      InsertedBy(s[..|s| - 1], e, s[|s| - 1].stamp.at);
    }
  }

  lemma {:induction false} InsertedMembers(s: seq<AuditEvent>, e: AuditEvent)
    ensures multiset(InsertByTime(s, e)) == multiset(s) + multiset{e}
  {
    if s != [] && s[|s| - 1].stamp.at > e.stamp.at {
      InsertedMembers(s[..|s| - 1], e);
      assert s == s[..|s| - 1] + [s[|s| - 1]];
    }
  }

  lemma {:induction false} InsertedAtTime(s: seq<AuditEvent>, e: AuditEvent, at: int)
    ensures AtTime(InsertByTime(s, e), at) == AtTime(s, at) + (if e.stamp.at == at then [e] else [])
  {
    if s == [] || s[|s| - 1].stamp.at <= e.stamp.at {
      AtTimeStep(s, e, at);
    } else {
      var front, last := s[..|s| - 1], s[|s| - 1];
      InsertedAtTime(front, e, at);
      AtTimeStep(InsertByTime(front, e), last, at);
    }
  }

  /** The timeline is in time order, holds exactly the given events, and keeps the order of those stamped at
      the same moment. */
  lemma {:induction false} TimelineIsStableSort(events: seq<AuditEvent>)
    ensures InTimeOrder(SortedByTime(events)) && multiset(SortedByTime(events)) == multiset(events)
    ensures forall at :: AtTime(SortedByTime(events), at) == AtTime(events, at)
  {
    if events != [] {
      var front, last := events[..|events| - 1], events[|events| - 1];
      assert events == front + [last];
      TimelineIsStableSort(front);
      InsertedInOrder(SortedByTime(front), last);
      InsertedMembers(SortedByTime(front), last);
      forall at ensures AtTime(SortedByTime(events), at) == AtTime(events, at) {
        InsertedAtTime(SortedByTime(front), last, at);
      }
    }
  }

  /* ---- the active receipt ---- */

  predicate Concerns(e: AuditEvent) {
    e.action.ModeSwitch? && e.receiptId.Some?
  }

  /** The mode-switch events that carry a receipt id. */
  function Select(events: seq<AuditEvent>): (r: seq<AuditEvent>)
    ensures forall i :: 0 <= i < |r| ==> Concerns(r[i])
  {
    if events == [] then []
    else
      var r := Select(events[..|events| - 1]);
      var last := events[|events| - 1];
      if Concerns(last) then r + [last] else r
  }

  /** Receipt ids in order of first appearance. */
  function Keys(es: seq<AuditEvent>): seq<nat>
    requires forall i :: 0 <= i < |es| ==> Concerns(es[i])
  {
    if es == [] then []
    else
      var ks := Keys(es[..|es| - 1]);
      assert Concerns(es[|es| - 1]);
      var id := es[|es| - 1].receiptId.value;
      if id in ks then ks else ks + [id]
  }

  function Group(es: seq<AuditEvent>, id: nat): (r: seq<AuditEvent>)
    ensures forall e :: e in r ==> e in es
  {
    if es == [] then []
    else
      var g := Group(es[..|es| - 1], id);
      if es[|es| - 1].receiptId == Some(id) then g + [es[|es| - 1]] else g
  }

  /** _first_text: the newest event that has the detail. */
  function FirstText(es: seq<AuditEvent>, key: DetailKey): Option<string> {
    if es == [] then None
    else
      var d := es[|es| - 1].details;
      if key in d && d[key] != "" then Some(d[key]) else FirstText(es[..|es| - 1], key)
  }

  predicate HasActiveStatus(es: seq<AuditEvent>) {
    exists e | e in es :: e.kind.EvApproved? || e.kind.EvStarted? || e.kind.EvCompleted?
  }

  /** What one receipt's events say about it, given the current mode. */
  function Candidate(group: seq<AuditEvent>, id: nat, currentMode: string): Option<ReceiptView> {
    if !HasActiveStatus(group) then None
    else
      var named := FirstText(group, TargetMode);
      var target := if named.Some? then named.value else currentMode;
      var context := FirstText(group, ModeContext);
      if context.None? || target != currentMode then None else Some(ReceiptView(id, target, context.value))
  }

  /** The newest receipt that qualifies. */
  function Pick(keys: seq<nat>, es: seq<AuditEvent>, currentMode: string): Option<ReceiptView> {
    if keys == [] then None
    else
      var id := keys[|keys| - 1];
      var v := Candidate(Group(es, id), id, currentMode);
      if v.Some? then v else Pick(keys[..|keys| - 1], es, currentMode)
  }

  function ActiveReceipt(events: seq<AuditEvent>, currentMode: string): Option<ReceiptView> {
    var es := Select(SortedByTime(events));
    Pick(Keys(es), es, currentMode)
  }

  /** _available_actions */
  function AvailableActions(active: Option<ReceiptView>): set<Action> {
    if active.Some? then {Observe, ModeSwitch, Pause, Resume, Branch, Clone, Reset, Rollback} else {Observe, ModeSwitch}
  }

  lemma NothingSelected()
    ensures Select([]) == [] && Keys([]) == []
  {
  }

  lemma SelectStep(es: seq<AuditEvent>, i: nat)
    requires i < |es|
    ensures Select(es[..i + 1]) == if Concerns(es[i]) then Select(es[..i]) + [es[i]] else Select(es[..i])
  {
    assert es[..i + 1][..i] == es[..i];
  }

  lemma GroupStep(es: seq<AuditEvent>, e: AuditEvent, k: nat)
    ensures Group(es + [e], k) == if e.receiptId == Some(k) then Group(es, k) + [e] else Group(es, k)
  {
    assert (es + [e])[..|es|] == es;
  }

  lemma GroupSteps(es: seq<AuditEvent>, e: AuditEvent)
    ensures forall k: nat :: Group(es + [e], k) == if e.receiptId == Some(k) then Group(es, k) + [e] else Group(es, k)
  {
    hide Group;
    forall k: nat ensures Group(es + [e], k) == if e.receiptId == Some(k) then Group(es, k) + [e] else Group(es, k) {
      GroupStep(es, e, k);
    }
  }

  lemma KeysStep(es: seq<AuditEvent>, e: AuditEvent)
    requires Concerns(e) && forall i :: 0 <= i < |es| ==> Concerns(es[i])
    ensures Keys(es + [e]) == if e.receiptId.value in Keys(es) then Keys(es) else Keys(es) + [e.receiptId.value]
  {
    assert (es + [e])[..|es|] == es;
  }

  lemma NoGroupWithoutKey(es: seq<AuditEvent>, k: nat)
    requires (forall i :: 0 <= i < |es| ==> Concerns(es[i])) && k !in Keys(es)
    ensures Group(es, k) == []
  {
    if es != [] {
      assert Concerns(es[|es| - 1]);
      NoGroupWithoutKey(es[..|es| - 1], k);
    }
  }

  class QueryService {
    constructor () { }

    /** _active_mode_switch_receipt */
    method ActiveModeSwitchReceipt(events: seq<AuditEvent>, currentMode: string) returns (r: Option<ReceiptView>)
      ensures r == ActiveReceipt(events, currentMode)
    {
      hide Select, Keys, Group, Candidate, SortedByTime;
      var order, groups := GroupByReceipt(SortedByTime(events));
      ghost var es := Select(SortedByTime(events));
      var n := |order|;
      assert order[..n] == order;
      while n > 0
        invariant 0 <= n <= |order|
        invariant Pick(order[..n], es, currentMode) == Pick(order, es, currentMode)
      {
        assert order[..n][..n - 1] == order[..n - 1];
        var id := order[n - 1];
        var v := Candidate(groups[id], id, currentMode);
        if v.Some? {
          return v;
        }
        n := n - 1;
      }
      return None;
    }

    method GroupByReceipt(sorted: seq<AuditEvent>) returns (order: seq<nat>, groups: map<nat, seq<AuditEvent>>)
      ensures order == Keys(Select(sorted))
      ensures forall k :: k in order ==> k in groups && groups[k] == Group(Select(sorted), k)
    {
      hide Select, Keys, Group;
      groups, order := map[], [];
      NothingSelected();
      for i := 0 to |sorted|
        invariant order == Keys(Select(sorted[..i]))
        invariant forall k :: k in groups <==> k in order
        invariant forall k :: k in groups ==> groups[k] == Group(Select(sorted[..i]), k)
      {
        var event := sorted[i];
        SelectStep(sorted, i);
        if Concerns(event) {
          var id := event.receiptId.value;
          ghost var seen := Select(sorted[..i]);
          GroupSteps(seen, event);
          KeysStep(seen, event);
          if id in groups {
            groups := groups[id := groups[id] + [event]];
          } else {
            NoGroupWithoutKey(seen, id);
            order := order + [id];
            groups := groups[id := [event]];
          }
        }
      }
      assert sorted[..|sorted|] == sorted;
    }

    /** _build_audit_status: the timeline, and per action its latest entry. */
    method BuildAuditStatus(events: seq<AuditEvent>)
      returns (timeline: seq<AuditEvent>, latest: map<Action, AuditEvent>)
      ensures timeline == SortedByTime(events)
      ensures InTimeOrder(timeline) && multiset(timeline) == multiset(events)
      ensures forall at :: AtTime(timeline, at) == AtTime(events, at)
      ensures forall a :: a in latest <==> exists i :: 0 <= i < |timeline| && timeline[i].action == a
      ensures forall a :: a in latest ==>
                exists i :: 0 <= i < |timeline| && timeline[i] == latest[a] && latest[a].action == a
                            && forall j :: i < j < |timeline| ==> timeline[j].action != a
    {
      hide SortedByTime, InTimeOrder, AtTime;
      TimelineIsStableSort(events);
      timeline := SortedByTime(events);
      latest := map[];
      for n := 0 to |timeline|
        invariant forall a :: a in latest <==> exists i :: 0 <= i < n && timeline[i].action == a
        invariant forall a :: a in latest ==>
                    exists i :: 0 <= i < n && timeline[i] == latest[a] && latest[a].action == a
                                && forall j :: i < j < n ==> timeline[j].action != a
      {
        latest := latest[timeline[n].action := timeline[n]];
      }
    }
  }
}
