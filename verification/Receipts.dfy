/** Which mode-switch receipt the read model shows, said of the timeline itself. */
module Receipts {
  import opened Prelude
  import opened Commands
  import opened AuditChain
  import opened Query

  /** The event belongs to the mode switch with this receipt. */
  predicate Carries(e: AuditEvent, id: nat) {
    e.action == ModeSwitch && e.receiptId == Some(id)
  }

  predicate Says(e: AuditEvent, key: DetailKey) {
    key in e.details && e.details[key] != ""
  }

  /** The newest event of the receipt that says anything under the key says this. */
  ghost predicate Newest(line: seq<AuditEvent>, id: nat, key: DetailKey, text: string) {
    exists i: nat :: NewestAt(line, id, key, text, i)
  }

  ghost predicate NewestAt(line: seq<AuditEvent>, id: nat, key: DetailKey, text: string, i: nat) {
    && i < |line| && Carries(line[i], id) && Says(line[i], key) && line[i].details[key] == text
    && forall j :: i < j < |line| && Carries(line[j], id) ==> !Says(line[j], key)
  }

  ghost predicate Silent(line: seq<AuditEvent>, id: nat, key: DetailKey) {
    forall i :: 0 <= i < |line| && Carries(line[i], id) ==> !Says(line[i], key)
  }

  ghost predicate TookEffect(line: seq<AuditEvent>, id: nat) {
    exists i :: 0 <= i < |line| && Carries(line[i], id) && line[i].kind in {EvApproved, EvStarted, EvCompleted}
  }

  /** A receipt can be shown in a mode: its switch was approved, started or completed, it names a mode context, and the
      mode if it names one. */
  ghost predicate Qualifies(line: seq<AuditEvent>, id: nat, mode: string, context: string) {
    && TookEffect(line, id)
    && (Newest(line, id, TargetMode, mode) || Silent(line, id, TargetMode))
    && Newest(line, id, ModeContext, context)
  }

  /** Where the receipt first appears. */
  predicate FirstAt(line: seq<AuditEvent>, id: nat, i: nat) {
    i < |line| && Carries(line[i], id) && forall j :: 0 <= j < i ==> !Carries(line[j], id)
  }

  ghost predicate Appears(line: seq<AuditEvent>, id: nat) {
    exists i: nat :: FirstAt(line, id, i)
  }

  lemma GroupsByReceipt(front: seq<AuditEvent>, e: AuditEvent, id: nat)
    ensures Group(Select(front + [e]), id)
            == if Carries(e, id) then Group(Select(front), id) + [e] else Group(Select(front), id)
  {
    SelectStep(front + [e], |front|);
    assert (front + [e])[..|front|] == front && (front + [e])[..|front| + 1] == front + [e];
    if Concerns(e) { GroupStep(Select(front), e, id); }
  }

  lemma NewestKept(front: seq<AuditEvent>, e: AuditEvent, id: nat, key: DetailKey, text: string)
    requires Newest(front, id, key, text) && !(Carries(e, id) && Says(e, key))
    ensures Newest(front + [e], id, key, text)
  {
    var i: nat :| NewestAt(front, id, key, text, i);
    assert NewestAt(front + [e], id, key, text, i);
  }

  lemma JustSaid(front: seq<AuditEvent>, e: AuditEvent, id: nat, key: DetailKey)
    requires Carries(e, id) && Says(e, key)
    ensures Newest(front + [e], id, key, e.details[key])
  {
    assert NewestAt(front + [e], id, key, e.details[key], |front|);
  }

  /** The text found for a receipt is what its newest event with that detail says. */
  lemma {:induction false} TextIsNewest(line: seq<AuditEvent>, id: nat, key: DetailKey)
    ensures match FirstText(Group(Select(line), id), key)
            case Some(text) => Newest(line, id, key, text)
            case None => Silent(line, id, key)
  {
    hide Newest, Group, Select;
    if line == [] {
      NothingGrouped(id);
    } else {
      var front, e := line[..|line| - 1], line[|line| - 1];
      assert line == front + [e];
      TextIsNewest(front, id, key);
      GroupsByReceipt(front, e, id);
      TextStep(Group(Select(front), id), e, key);
      if Carries(e, id) && Says(e, key) {
        JustSaid(front, e, id, key);
      } else if FirstText(Group(Select(front), id), key).Some? {
        NewestKept(front, e, id, key, FirstText(Group(Select(front), id), key).value);
      }
    }
  }

  lemma NothingGrouped(id: nat)
    ensures Group(Select([]), id) == []
  {
  }

  lemma TextStep(g: seq<AuditEvent>, e: AuditEvent, key: DetailKey)
    ensures FirstText(g + [e], key) == if Says(e, key) then Some(e.details[key]) else FirstText(g, key)
  {
    assert (g + [e])[..|g|] == g;
  }

  lemma NewestIsOne(line: seq<AuditEvent>, id: nat, key: DetailKey, a: string, b: string)
    requires Newest(line, id, key, a)
    ensures !Silent(line, id, key) && (Newest(line, id, key, b) ==> a == b)
  {
    var i: nat :| NewestAt(line, id, key, a, i);
    if Newest(line, id, key, b) {
      var j: nat :| NewestAt(line, id, key, b, j);
      assert i == j;
    }
  }

  lemma {:induction false} StatusIsEffect(line: seq<AuditEvent>, id: nat)
    ensures HasActiveStatus(Group(Select(line), id)) <==> TookEffect(line, id)
  {
    hide Group, Select;
    if line == [] {
      NothingGrouped(id);
    } else {
      var front, e := line[..|line| - 1], line[|line| - 1];
      assert line == front + [e];
      StatusIsEffect(front, id);
      GroupsByReceipt(front, e, id);
      StatusStep(Group(Select(front), id), e);
      EffectStep(front, e, id);
    }
  }

  lemma StatusStep(g: seq<AuditEvent>, e: AuditEvent)
    ensures HasActiveStatus(g + [e]) <==> HasActiveStatus(g) || e.kind in {EvApproved, EvStarted, EvCompleted}
  {
    assert (g + [e])[|g|] == e;
    assert forall x :: x in g + [e] <==> x in g || x == e;
  }

  lemma EffectStep(front: seq<AuditEvent>, e: AuditEvent, id: nat)
    ensures TookEffect(front + [e], id)
            <==> TookEffect(front, id) || (Carries(e, id) && e.kind in {EvApproved, EvStarted, EvCompleted})
  {
    var line := front + [e];
    assert line[|front|] == e;
    if TookEffect(front, id) {
      var i :| 0 <= i < |front| && Carries(front[i], id) && front[i].kind in {EvApproved, EvStarted, EvCompleted};
      assert line[i] == front[i];
    }
  }

  /** A candidate is a receipt that qualifies. */
  lemma CandidateIffQualifies(line: seq<AuditEvent>, id: nat, mode: string)
    ensures var v := Candidate(Group(Select(line), id), id, mode);
            && (v.Some? ==> v.value.receiptId == id && v.value.targetMode == mode
                            && Qualifies(line, id, mode, v.value.modeContext))
            && (v.None? ==> forall context :: !Qualifies(line, id, mode, context))
  {
    hide Group, Select, Newest, Silent, TookEffect, FirstText, HasActiveStatus;
    var g := Group(Select(line), id);
    StatusIsEffect(line, id);
    TextIsNewest(line, id, TargetMode);
    TextIsNewest(line, id, ModeContext);
    var named, context := FirstText(g, TargetMode), FirstText(g, ModeContext);
    if named.Some? { NewestIsOne(line, id, TargetMode, named.value, mode); }
    forall other | Newest(line, id, ModeContext, other) ensures context == Some(other) {
      NewestIsOne(line, id, ModeContext, other, if context.Some? then context.value else other);
    }
  }

  /** The ids are those that appear, each once, in the order in which they first do. */
  ghost predicate InFirstOrder(line: seq<AuditEvent>, ks: seq<nat>) {
    && (forall id :: id in ks <==> Appears(line, id))
    && (forall a, b, i: nat, j: nat ::
          0 <= a < b < |ks| && FirstAt(line, ks[a], i) && FirstAt(line, ks[b], j) ==> i < j)
  }

  lemma {:induction false} KeysInOrder(line: seq<AuditEvent>)
    ensures InFirstOrder(line, Keys(Select(line)))
  {
    hide Select, Keys, InFirstOrder;
    if line == [] {
      NothingSelected();
      NothingAppears();
    } else {
      var front, e := line[..|line| - 1], line[|line| - 1];
      assert line == front + [e];
      KeysInOrder(front);
      SelectStep(line, |front|);
      assert line[..|front|] == front && line[..|front| + 1] == line;
      if Concerns(e) { KeysStep(Select(front), e); }
      KeysGrow(front, e, Keys(Select(front)), Keys(Select(line)));
    }
  }

  lemma NothingAppears()
    ensures InFirstOrder([], [])
  {
  }

  lemma KeysGrow(front: seq<AuditEvent>, e: AuditEvent, ks: seq<nat>, more: seq<nat>)
    requires InFirstOrder(front, ks)
    requires more == if Concerns(e) && e.receiptId.value !in ks then ks + [e.receiptId.value] else ks
    ensures InFirstOrder(front + [e], more)
  {
    hide FirstAt;
    var line := front + [e];
    forall id, i: nat ensures FirstAt(line, id, i) <==> if i < |front| then FirstAt(front, id, i)
                                                        else i == |front| && Carries(e, id) && id !in ks
    {
      FirstAtStep(front, e, ks, id, i);
    }
    forall id ensures id in more <==> Appears(line, id) {
      AppearsStep(front, e, ks, id);
    }
  }

  lemma AppearsStep(front: seq<AuditEvent>, e: AuditEvent, ks: seq<nat>, id: nat)
    requires forall id :: id in ks <==> Appears(front, id)
    ensures Appears(front + [e], id) <==> id in ks || Carries(e, id)
  {
    if id in ks {
      var i: nat :| FirstAt(front, id, i);
      FirstAtStep(front, e, ks, id, i);
      assert FirstAt(front + [e], id, i);
    } else if Carries(e, id) {
      FirstAtStep(front, e, ks, id, |front|);
      assert FirstAt(front + [e], id, |front|);
    } else if Appears(front + [e], id) {
      var i: nat :| FirstAt(front + [e], id, i);
      FirstAtStep(front, e, ks, id, i);
    }
  }

  lemma FirstAtStep(front: seq<AuditEvent>, e: AuditEvent, ks: seq<nat>, id: nat, i: nat)
    requires forall id :: id in ks <==> Appears(front, id)
    ensures FirstAt(front + [e], id, i) <==> if i < |front| then FirstAt(front, id, i)
                                             else i == |front| && Carries(e, id) && id !in ks
  {
    var line := front + [e];
    assert forall j :: 0 <= j < |front| ==> line[j] == front[j];
    if i == |front| && Carries(e, id) {
      if id in ks {
        var k: nat :| FirstAt(front, id, k);
        assert Carries(line[k], id);
      } else if exists j :: 0 <= j < |front| && Carries(front[j], id) {
        var j :| 0 <= j < |front| && Carries(front[j], id);
        EarliestCarrier(front, id, j);
      }
    }
  }

  lemma {:induction false} EarliestCarrier(line: seq<AuditEvent>, id: nat, j: nat)
    requires j < |line| && Carries(line[j], id)
    ensures Appears(line, id)
    decreases j
  {
    if exists k :: 0 <= k < j && Carries(line[k], id) {
      var k :| 0 <= k < j && Carries(line[k], id);
      EarliestCarrier(line, id, k);
    } else {
      assert FirstAt(line, id, j);
    }
  }

  lemma {:induction false} PickIsLast(keys: seq<nat>, es: seq<AuditEvent>, mode: string)
    ensures var v := Pick(keys, es, mode);
            if v.None? then forall p :: 0 <= p < |keys| ==> Candidate(Group(es, keys[p]), keys[p], mode).None?
            else exists p: nat :: PickedAt(keys, es, mode, v.value, p)
  {
    hide Candidate, Group;
    if keys != [] {
      var n := |keys| - 1;
      PickIsLast(keys[..n], es, mode);
      var v := Candidate(Group(es, keys[n]), keys[n], mode);
      if v.Some? {
        assert PickedAt(keys, es, mode, v.value, n);
      } else if Pick(keys[..n], es, mode).Some? {
        var p: nat :| PickedAt(keys[..n], es, mode, Pick(keys[..n], es, mode).value, p);
        assert PickedAt(keys, es, mode, Pick(keys[..n], es, mode).value, p);
      }
    }
  }

  ghost predicate PickedAt(keys: seq<nat>, es: seq<AuditEvent>, mode: string, v: ReceiptView, p: nat) {
    && p < |keys| && Candidate(Group(es, keys[p]), keys[p], mode) == Some(v)
    && forall q :: p < q < |keys| ==> Candidate(Group(es, keys[q]), keys[q], mode).None?
  }

  /** For any events and any mode, the receipt shown is, of those that qualify in the timeline, the one that appears
      last, with the context its newest event gives; none is shown exactly if none qualifies. */
  lemma ShownReceiptExact(events: seq<AuditEvent>, mode: string)
    ensures var line, v := SortedByTime(events), ActiveReceipt(events, mode);
            if v.None? then forall id, context :: !Qualifies(line, id, mode, context)
            else
              && v.value.targetMode == mode && Qualifies(line, v.value.receiptId, mode, v.value.modeContext)
              && forall id, context, i: nat, k: nat ::
                   Qualifies(line, id, mode, context) && FirstAt(line, id, i) && FirstAt(line, v.value.receiptId, k)
                   ==> i <= k
  {
    hide SortedByTime, Select, Keys, Group, Candidate, Pick, Qualifies;
    var line := SortedByTime(events);
    var es := Select(line);
    var keys, v := Keys(es), ActiveReceipt(events, mode);
    KeysInOrder(line);
    PickIsLast(keys, es, mode);
    forall id ensures var c := Candidate(Group(es, id), id, mode);
                      && (c.Some? ==> c.value.receiptId == id && c.value.targetMode == mode
                                      && Qualifies(line, id, mode, c.value.modeContext))
                      && (c.None? ==> forall context :: !Qualifies(line, id, mode, context))
    {
      CandidateIffQualifies(line, id, mode);
    }
    if v.None? {
      forall id, context ensures !Qualifies(line, id, mode, context) {
        if Qualifies(line, id, mode, context) { QualifiedAppears(line, id, mode, context); }
      }
    } else {
      var p: nat :| PickedAt(keys, es, mode, v.value, p);
      forall id, context, i: nat, k: nat | Qualifies(line, id, mode, context) && FirstAt(line, id, i)
                                 && FirstAt(line, v.value.receiptId, k)
        ensures i <= k
      {
        assert Appears(line, id);
        var q :| 0 <= q < |keys| && keys[q] == id;
        assert q <= p;
        if q == p { SameFirst(line, id, i, k); }
      }
    }
  }

  lemma SameFirst(line: seq<AuditEvent>, id: nat, i: nat, k: nat)
    requires FirstAt(line, id, i) && FirstAt(line, id, k)
    ensures i == k
  {
  }

  lemma QualifiedAppears(line: seq<AuditEvent>, id: nat, mode: string, context: string)
    requires Qualifies(line, id, mode, context)
    ensures Appears(line, id)
  {
    var i :| 0 <= i < |line| && Carries(line[i], id) && line[i].kind in {EvApproved, EvStarted, EvCompleted};
    EarliestCarrier(line, id, i);
  }

  /** Observing and asking for a mode switch are always offered, control exactly with a receipt. */
  lemma OfferedExactly(active: Option<ReceiptView>, action: Action)
    ensures action in AvailableActions(active) <==> action == Observe || action == ModeSwitch || active.Some?
  {
  }
}
