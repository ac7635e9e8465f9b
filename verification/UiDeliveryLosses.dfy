/**
 What the UI mailbox may lose: in a run in which no send has to wait, an event
 that was taken in is delivered or pending, or it is a snapshot and a later one of
 its kind has taken its place with no ordered event in between.
 */
module UiDeliveryLosses {
  import opened Wrappers
  import opened UiDelivery
  import opened UiDeliveryList
  import opened UiDeliveryRuns

  // ---------- Kinds of snapshots ----------

  /** Messages that show the same thing: of one constructor, or both about the selector. */
  predicate SameKind(a: Message, b: Message) {
    || (a.HudUpdate? && b.HudUpdate?)
    || ((a.SelectorUpdate? || a.SelectorHide?) && (b.SelectorUpdate? || b.SelectorHide?))
    || (a.HeartbeatBeat? && b.HeartbeatBeat?)
    || (a.WorldSnapshot? && b.WorldSnapshot?)
    || (a.SetRuntimeHealth? && b.SetRuntimeHealth?)
    || (a.SetServerBindings? && b.SetServerBindings?)
    || (a.SetPermissionStatusOverride? && b.SetPermissionStatusOverride?)
  }

  /**
   Snapshots share a slot exactly if they are of one kind.  Log lines and all
   other messages are ordered events; only a log line may be dropped.
   */
  lemma SlotIsKind(a: Message, b: Message)
    ensures var ea, eb := Classify(a), Classify(b);
            && ea.message == a
            && (ea.Snapshot? && eb.Snapshot? && ea.slot == eb.slot <==> SameKind(a, b))
            && (ea.Log? <==> a.LogLine?) && (ea.Control? <==> a.Other?)
  {
  }

  // ---------- Nothing else is lost ----------

  /** A later snapshot of the class of `sent[i]` was sent, with no ordered event in between. */
  ghost predicate Superseded(sent: seq<Entry>, i: nat)
    requires i < |sent|
  {
    && sent[i].event.Snapshot?
    && exists j | i < j < |sent| ::
         OfClass(sent[j], sent[i].event.slot) && forall k | i < k < j :: !IsOrdered(sent[k])
  }

  ghost predicate Kept(l: ListTrace) {
    forall i | 0 <= i < |l.sent| :: l.sent[i] in l.delivered + l.list || Superseded(l.sent, i)
  }

  lemma SupersededStays(sent: seq<Entry>, entry: Entry, i: nat)
    requires i < |sent| && Superseded(sent, i)
    ensures Superseded(sent + [entry], i)
  {
    var j :| i < j < |sent| && OfClass(sent[j], sent[i].event.slot) && forall k | i < k < j :: !IsOrdered(sent[k]);
    assert (sent + [entry])[j] == sent[j];
    assert forall k | i < k < j :: (sent + [entry])[k] == sent[k];
  }

  /** An entry that a snapshot pushes out was sent behind the last ordered event. */
  lemma PushedOut(l: ListTrace, entry: Entry, i: nat, p: nat)
    requires Faithful(l) && Kept(l) && i < |l.sent| && entry.event.Snapshot?
    requires Barrier(l.list) <= p < |l.list| && l.list[p] == l.sent[i] && OfClass(l.sent[i], entry.event.slot)
    ensures Superseded(l.sent + [entry], i)
  {
    var all, at := l.delivered + l.list, |l.delivered| + p;
    hide Observed, Registry;
    forall k | i < k < |l.sent|
      ensures !IsOrdered(l.sent[k])
    {
      if l.sent[k] in all {
        var q :| 0 <= q < |all| && all[q] == l.sent[k];
        assert all[at].sequence < all[q].sequence;
        assert q > at && all[q] == l.list[q - |l.delivered|];
      }
    }
    assert (l.sent + [entry])[|l.sent|] == entry;
  }

  lemma StaysInList(list: seq<Entry>, entry: Entry, p: nat)
    requires entry.event.Snapshot? && p < |list|
    requires !(Barrier(list) <= p && OfClass(list[p], entry.event.slot))
    ensures list[p] in ListSend(list, entry)
  {
    var b := Barrier(list);
    hide Barrier;
    WithoutClassSelects(list[b..], entry.event.slot);
    if p < b {
      assert list[..b][p] == list[p];
    } else {
      assert list[b..][p - b] == list[p];
    }
  }

  lemma StepKeeps(l: ListTrace, op: Op)
    requires Faithful(l) && Kept(l)
    ensures Kept(ListStep(l, op))
  {
    var l' := ListStep(l, op);
    forall i | 0 <= i < |l'.sent|
      ensures l'.sent[i] in l'.delivered + l'.list || Superseded(l'.sent, i)
    {
      match op
      case RecvOp =>
        if l.list != [] {
          assert (l.delivered + [l.list[0]]) + l.list[1..] == l.delivered + l.list;
        }
      case SendOp(event) =>
        SendKeeps(l, event, i);
    }
  }

  lemma SendKeeps(l: ListTrace, event: UiEvent, i: nat)
    requires Faithful(l) && Kept(l) && i < |ListStep(l, SendOp(event)).sent|
    ensures var l' := ListStep(l, SendOp(event));
            l'.sent[i] in l'.delivered + l'.list || Superseded(l'.sent, i)
  {
    hide Faithful, Observed, Registry, Superseded, Barrier, WithoutClass;
    var entry, l' := Entry(l.next, event), ListStep(l, SendOp(event));
    if i == |l.sent| {
      assert l'.list[|l'.list| - 1] == entry;
    } else if l.sent[i] in l.delivered {
    } else if l.sent[i] in l.list {
      var p :| 0 <= p < |l.list| && l.list[p] == l.sent[i];
      if event.Snapshot? {
        NeverDropped(l.list, event);
        if Barrier(l.list) <= p && OfClass(l.sent[i], event.slot) {
          PushedOut(l, entry, i, p);
        } else {
          StaysInList(l.list, entry, p);
        }
      }
    } else if l'.sent != l.sent {
      SupersededStays(l.sent, entry, i);
    }
  }

  lemma {:induction false} RunKeepsAll(l: ListTrace, ops: seq<Op>)
    requires Faithful(l) && Kept(l)
    ensures Kept(ListRun(l, ops))
    decreases |ops|
  {
    hide Faithful, Kept;
    if ops != [] {
      StepKeeps(l, ops[0]);
      if ops[0].SendOp? { SendStays(l, ops[0].event); } else { ReceiveStays(l); }
      RunKeepsAll(ListStep(l, ops[0]), ops[1..]);
    }
  }

  /**
   Nothing is lost but superseded snapshots: every event the mailbox took in has
   been delivered or is pending in its lane or slot, or a later snapshot of its
   class came with no ordered event in between.
   */
  lemma OnlySupersededAreLost(ops: seq<Op>, i: nat)
    requires NeverFull(LIST_START, ops) && |ops| < U64_LIMIT
    ensures var t, sent := Run(START, ops), ListRun(LIST_START, ops).sent;
            i < |sent| ==>
              || sent[i] in t.delivered || sent[i] in t.m.ordered || Retained(t.m.slots, sent[i])
              || Superseded(sent, i)
  {
    hide Run, ListRun, Superseded, Faithful;
    assert Faithful(LIST_START) by { EmptyIsFaithful(); }
    RunKeepsAll(LIST_START, ops);
    var line := WholeRun(ops);
    var t, l := Run(START, ops), ListRun(LIST_START, ops);
    if i < |l.sent| && l.sent[i] in line {
      var k :| 0 <= k < |line| && line[k] == l.sent[i];
      assert Retained(t.m.slots, line[k]);
    }
  }

  lemma EmptyIsFaithful()
    ensures Faithful(LIST_START)
  {
  }

  // ---------- After the close ----------

  lemma {:induction false} FlushReportsClose(m: Mailbox, entry: Entry)
    ensures Flush(m, entry).1 == Closed ==> !m.open
    ensures Flush(m, entry).1.Waiting? ==> m.open
    decreases |m.slots|
  {
    var next := NextSequence(m.slots);
    if next.Some? && |m.ordered| < UI_ORDERED_CAPACITY {
      var c := SlotAt(m.slots, next.value).value;
      assert m.slots.Keys == (m.slots - {c}).Keys + {c};
      FlushReportsClose(FlushSlot(m, c), entry);
    }
  }

  /** A send is refused exactly if the receiver is gone, and then it leaves the mailbox alone. */
  lemma RefusedIffClosed(m: Mailbox, event: UiEvent)
    ensures Send(m, event).1 == Closed <==> !m.open
    ensures !m.open ==> Send(m, event).0 == m
  {
    if m.open {
      FlushReportsClose(m.(nextSequence := (m.nextSequence + 1) % U64_LIMIT), Entry(m.nextSequence, event));
    }
  }

  /** A send that has the lock waits only for a receiver that is there, and is told of the close only after it. */
  lemma WaitsWhileOpen(m: Mailbox, event: UiEvent, entry: Entry, flushing: Option<nat>)
    ensures var sent, woken := SendLocked(m, event).1, Resume(m, entry, flushing).1;
            && (sent.Waiting? || woken.Waiting? ==> m.open)
            && (sent == Closed || woken == Closed ==> !m.open)
  {
    FlushReportsClose(m.(nextSequence := (m.nextSequence + 1) % U64_LIMIT), Entry(m.nextSequence, event));
    if flushing.Some? && SlotAt(m.slots, flushing.value).Some? {
      FlushReportsClose(FlushSlot(m, SlotAt(m.slots, flushing.value).value), entry);
    }
  }
}
