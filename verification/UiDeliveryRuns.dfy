/**
 Whole runs of the mailbox in which no send has to wait.

 A run of the mailbox delivers and reports what the same run of the plain list
 does; coalescing cannot be told from delivering every snapshot by anyone who
 looks at ordered events or at a drained mailbox; and every send is accounted for.
 */
module UiDeliveryRuns {
  import opened Wrappers
  import opened UiDelivery
  import opened UiDeliveryList

  datatype Op = SendOp(event: UiEvent) | RecvOp

  // ---------- Runs of the plain list ----------

  /** `sent` records every entry that was taken in, `outcomes` what the senders were told. */
  datatype ListTrace = ListTrace(
    list: seq<Entry>, next: nat, sent: seq<Entry>, delivered: seq<Entry>, outcomes: seq<Outcome>)

  const LIST_START := ListTrace([], 0, [], [], [])

  function ListStep(l: ListTrace, op: Op): ListTrace {
    match op
    case SendOp(event) =>
      var entry, outcome := Entry(l.next, event), ListOutcome(l.list, event);
      ListTrace(ListSend(l.list, entry), l.next + 1,
        if outcome.DroppedLogFull? then l.sent else l.sent + [entry],
        l.delivered, l.outcomes + [outcome])
    case RecvOp =>
      if l.list == [] then l
      else l.(list := l.list[1..], delivered := l.delivered + [l.list[0]])
  }

  function ListRun(l: ListTrace, ops: seq<Op>): ListTrace
    decreases |ops|
  {
    if ops == [] then l else ListRun(ListStep(l, ops[0]), ops[1..])
  }

  /** Every control that is sent finds the list below capacity. */
  predicate NeverFull(l: ListTrace, ops: seq<Op>)
    decreases |ops|
  {
    ops != [] ==>
      && (ops[0].SendOp? && ops[0].event.Control? ==> |l.list| < UI_ORDERED_CAPACITY)
      && NeverFull(ListStep(l, ops[0]), ops[1..])
  }

  // ---------- Runs of the mailbox ----------

  datatype Trace = Trace(m: Mailbox, delivered: seq<Entry>, outcomes: seq<Outcome>, waits: nat)

  const EMPTY := Mailbox([], map[], Stats(0, 0), 0, true)
  const START := Trace(EMPTY, [], [], 0)

  ghost function Step(t: Trace, op: Op): Trace {
    match op
    case SendOp(event) =>
      var (m, p) := Send(t.m, event);
      if p.Done? then t.(m := m, outcomes := t.outcomes + [p.outcome])
      else t.(m := m, waits := t.waits + 1)
    case RecvOp =>
      var (m, got) := Receive(t.m);
      t.(m := m, delivered := if got.Some? then t.delivered + [got.value] else t.delivered)
  }

  ghost function Run(t: Trace, ops: seq<Op>): Trace
    decreases |ops|
  {
    if ops == [] then t else Run(Step(t, ops[0]), ops[1..])
  }

  // ---------- Refinement over whole runs ----------

  ghost predicate Agrees(t: Trace, l: ListTrace, line: seq<Entry>) {
    && Stands(t.m, l.list, l.next, line)
    && t.m.stats == Tally(l.outcomes)
    && t.delivered == l.delivered && t.outcomes == l.outcomes && t.waits == 0
  }

  ghost predicate Stands(m: Mailbox, list: seq<Entry>, next: nat, line: seq<Entry>) {
    Represents(m, line) && Listing(m, line) == list && m.open && m.nextSequence == next
  }

  function Tally(outcomes: seq<Outcome>): Stats {
    Stats(Count(outcomes, DroppedLogFull), Count(outcomes, Coalesced))
  }

  function Count(outcomes: seq<Outcome>, outcome: Outcome): nat {
    if outcomes == [] then 0
    else Count(outcomes[..|outcomes| - 1], outcome) + if outcomes[|outcomes| - 1] == outcome then 1 else 0
  }

  lemma CountPush(outcomes: seq<Outcome>, pushed: Outcome, outcome: Outcome)
    ensures Count(outcomes + [pushed], outcome) == Count(outcomes, outcome) + if pushed == outcome then 1 else 0
  {
    assert (outcomes + [pushed])[..|outcomes|] == outcomes;
  }

  lemma TallyPush(outcomes: seq<Outcome>, outcome: Outcome)
    ensures Tally(outcomes + [outcome]) == StatsAfter(Tally(outcomes), outcome)
  {
    CountPush(outcomes, outcome, DroppedLogFull);
    CountPush(outcomes, outcome, Coalesced);
  }

  lemma SendStands(m: Mailbox, list: seq<Entry>, next: nat, line: seq<Entry>, event: UiEvent)
    returns (line': seq<Entry>)
    requires Stands(m, list, next, line) && next + 1 < U64_LIMIT
    requires event.Control? ==> |list| < UI_ORDERED_CAPACITY
    ensures var (m', p) := Send(m, event);
            && Stands(m', ListSend(list, Entry(next, event)), next + 1, line')
            && p == Done(ListOutcome(list, event)) && m'.stats == StatsAfter(m.stats, p.outcome)
  {
    SendWaitsIffFull(m, event, line);
    line' := SendRefines(m, event, line);
  }

  lemma ReceiveStands(m: Mailbox, list: seq<Entry>, next: nat, line: seq<Entry>)
    returns (line': seq<Entry>)
    requires Stands(m, list, next, line)
    ensures var (m', got) := Receive(m);
            && Stands(m', if list == [] then [] else list[1..], next, line')
            && got == (if list == [] then None else Some(list[0])) && m'.stats == m.stats
  {
    line' := ReceiveRefines(m, line);
  }

  lemma StepAgrees(t: Trace, l: ListTrace, line: seq<Entry>, op: Op) returns (line': seq<Entry>)
    requires Agrees(t, l, line) && l.next + 1 < U64_LIMIT
    requires op.SendOp? && op.event.Control? ==> |l.list| < UI_ORDERED_CAPACITY
    ensures Agrees(Step(t, op), ListStep(l, op), line')
  {
    match op
    case SendOp(event) =>
      line' := SendStands(t.m, l.list, l.next, line, event);
      TallyPush(l.outcomes, ListOutcome(l.list, event));
    case RecvOp =>
      line' := ReceiveStands(t.m, l.list, l.next, line);
  }

  lemma {:induction false} RunAgrees(t: Trace, l: ListTrace, line: seq<Entry>, ops: seq<Op>)
    returns (line': seq<Entry>)
    requires Agrees(t, l, line) && NeverFull(l, ops) && l.next + |ops| < U64_LIMIT
    ensures Agrees(Run(t, ops), ListRun(l, ops), line')
    decreases |ops|
  {
    line' := line;
    if ops != [] {
      line' := StepAgrees(t, l, line, ops[0]);
      line' := RunAgrees(Step(t, ops[0]), ListStep(l, ops[0]), line', ops[1..]);
    }
  }

  // ---------- What snapshots mean to ordered events ----------

  type Registers = map<SnapshotClass, Message>

  /** The last value of every snapshot class in `trace`. */
  function Registry(trace: seq<Entry>): Registers {
    if trace == [] then map[]
    else
      var last, before := trace[|trace| - 1], Registry(trace[..|trace| - 1]);
      if IsOrdered(last) then before else before[last.event.slot := last.event.message]
  }

  /** Every ordered event in `trace` with the registers its reader has seen. */
  function Observed(trace: seq<Entry>): seq<(Entry, Registers)> {
    if trace == [] then []
    else
      var last, before := trace[|trace| - 1], trace[..|trace| - 1];
      if IsOrdered(last) then Observed(before) + [(last, Registry(before))] else Observed(before)
  }

  lemma PushObserved(trace: seq<Entry>, entry: Entry)
    ensures Registry(trace + [entry])
         == if IsOrdered(entry) then Registry(trace) else Registry(trace)[entry.event.slot := entry.event.message]
    ensures Observed(trace + [entry])
         == if IsOrdered(entry) then Observed(trace) + [(entry, Registry(trace))] else Observed(trace)
  {
    assert (trace + [entry])[..|trace|] == trace;
  }

  /** Deleting a snapshot class that is about to be written again changes nothing. */
  lemma {:induction false} DropUnobserved(before: seq<Entry>, tail: seq<Entry>, c: SnapshotClass, value: Message)
    requires forall i | 0 <= i < |tail| :: !IsOrdered(tail[i])
    ensures Observed(before + WithoutClass(tail, c)) == Observed(before + tail) == Observed(before)
    ensures Registry(before + WithoutClass(tail, c))[c := value] == Registry(before + tail)[c := value]
    decreases |tail|
  {
    hide Registry, Observed;
    if tail == [] {
      assert before + tail == before;
    } else {
      var init, last := tail[..|tail| - 1], tail[|tail| - 1];
      DropUnobserved(before, init, c, value);
      assert tail == init + [last];
      WithoutPush(init, last, c);
      assert before + (init + [last]) == (before + init) + [last];
      PushObserved(before + init, last);
      var kept := WithoutClass(init, c);
      if !OfClass(last, c) {
        assert before + (kept + [last]) == (before + kept) + [last];
        PushObserved(before + kept, last);
        CommuteUpdates(Registry(before + kept), Registry(before + init), c, value, last.event.slot, last.event.message);
      } else {
        assert Registry(before + init)[c := last.event.message][c := value] == Registry(before + init)[c := value];
      }
    }
  }

  lemma CommuteUpdates(a: Registers, b: Registers, c: SnapshotClass, v: Message, d: SnapshotClass, w: Message)
    requires a[c := v] == b[c := v] && c != d
    ensures a[d := w][c := v] == b[d := w][c := v]
  {
    assert a[d := w][c := v] == a[c := v][d := w];
    assert b[d := w][c := v] == b[c := v][d := w];
  }

  lemma {:induction false} WithoutPush(list: seq<Entry>, last: Entry, c: SnapshotClass)
    ensures WithoutClass(list + [last], c)
         == if OfClass(last, c) then WithoutClass(list, c) else WithoutClass(list, c) + [last]
  {
    if list == [] {
      assert list + [last] == [last];
    } else {
      assert (list + [last])[1..] == list[1..] + [last];
      WithoutPush(list[1..], last, c);
    }
  }

  // ---------- What every run of the list keeps ----------

  ghost predicate Faithful(l: ListTrace) {
    && Observed(l.delivered + l.list) == Observed(l.sent)
    && Registry(l.delivered + l.list) == Registry(l.sent)
    && Increasing(l.delivered + l.list) && Below(l.delivered + l.list, l.next)
    && Increasing(l.sent) && Below(l.sent, l.next)
  }

  ghost predicate Accounted(l: ListTrace) {
    && l.next == |l.outcomes|
    && l.next == |l.delivered| + |l.list| + Count(l.outcomes, Coalesced) + Count(l.outcomes, DroppedLogFull)
  }

  lemma ReceiveStays(l: ListTrace)
    requires Faithful(l)
    ensures Faithful(ListStep(l, RecvOp))
  {
    if l.list != [] {
      assert (l.delivered + [l.list[0]]) + l.list[1..] == l.delivered + l.list;
    }
  }

  lemma SendStays(l: ListTrace, event: UiEvent)
    requires Faithful(l)
    ensures Faithful(ListStep(l, SendOp(event)))
  {
    hide Faithful, ListStep, ListOutcome;
    if event.Snapshot? {
      SnapshotStays(l, event);
    } else if ListOutcome(l.list, event).DroppedLogFull? {
      DroppedStays(l, event);
    } else {
      OrderedStays(l, event);
    }
  }

  lemma DroppedStays(l: ListTrace, event: UiEvent)
    requires Faithful(l) && !event.Snapshot? && ListOutcome(l.list, event).DroppedLogFull?
    ensures Faithful(ListStep(l, SendOp(event)))
  {
    hide Observed, Registry, Increasing, Below, Barrier, WithoutClass;
    BelowNext(l.sent, l.next);
    BelowNext(l.delivered + l.list, l.next);
  }

  lemma OrderedStays(l: ListTrace, event: UiEvent)
    requires Faithful(l) && !event.Snapshot? && !ListOutcome(l.list, event).DroppedLogFull?
    ensures Faithful(ListStep(l, SendOp(event)))
  {
    hide Observed, Registry, Increasing, Below, Barrier, WithoutClass;
    var entry := Entry(l.next, event);
    Appended(l.sent, entry);
    PushObserved(l.sent, entry);
    Appended(l.delivered + l.list, entry);
    PushObserved(l.delivered + l.list, entry);
    AppendedBehind(l.delivered, l.list, entry);
  }

  lemma AppendedBehind(a: seq<Entry>, b: seq<Entry>, entry: Entry)
    ensures a + (b + [entry]) == (a + b) + [entry]
  {
  }

  lemma SnapshotStays(l: ListTrace, event: UiEvent)
    requires Faithful(l) && event.Snapshot?
    ensures Faithful(ListStep(l, SendOp(event)))
  {
    var entry := Entry(l.next, event);
    NeverDropped(l.list, event);
    hide Observed, Registry, Increasing, Below, ListSend, ListOutcome;
    Appended(l.sent, entry);
    PushObserved(l.sent, entry);
    SnapshotObserved(l.delivered, l.list, entry);
  }

  lemma NeverDropped(list: seq<Entry>, event: UiEvent)
    requires event.Snapshot?
    ensures !ListOutcome(list, event).DroppedLogFull?
  {
    hide Barrier, OfClass;
  }

  lemma SnapshotObserved(delivered: seq<Entry>, list: seq<Entry>, entry: Entry)
    requires entry.event.Snapshot? && Increasing(delivered + list) && Below(delivered + list, entry.sequence)
    ensures var after := delivered + ListSend(list, entry);
            && Observed(after) == Observed(delivered + list)
            && Registry(after) == Registry(delivered + list)[entry.event.slot := entry.event.message]
            && Increasing(after) && Below(after, entry.sequence + 1)
  {
    hide Observed, Registry, Increasing, Below, WithoutClass, Barrier;
    var b, c := Barrier(list), entry.event.slot;
    var before, tail := delivered + list[..b], list[b..];
    SplitAt(delivered, list, b, WithoutClass(tail, c), entry);
    DropUnobserved(before, tail, c, entry.event.message);
    PushObserved(before + WithoutClass(tail, c), entry);
    SendStaysIncreasing(before, tail, c, entry);
  }

  lemma SplitAt(a: seq<Entry>, b: seq<Entry>, k: nat, kept: seq<Entry>, entry: Entry)
    requires k <= |b|
    ensures (a + b[..k]) + b[k..] == a + b
    ensures a + (b[..k] + kept + [entry]) == ((a + b[..k]) + kept) + [entry] == (a + b[..k]) + (kept + [entry])
  {
    assert b[..k] + b[k..] == b;
  }

  lemma StepAccounted(l: ListTrace, op: Op, line: seq<Entry>, m: Mailbox)
    requires Accounted(l) && Stands(m, l.list, l.next, line)
    ensures Accounted(ListStep(l, op))
  {
    match op
    case RecvOp =>
    case SendOp(event) =>
      var outcome := ListOutcome(l.list, event);
      CountPush(l.outcomes, outcome, DroppedLogFull);
      CountPush(l.outcomes, outcome, Coalesced);
      if event.Snapshot? {
        SnapshotLength(m, line, Entry(l.next, event));
      }
  }

  lemma SnapshotLength(m: Mailbox, line: seq<Entry>, entry: Entry)
    requires Represents(m, line) && entry.event.Snapshot?
    ensures |ListSend(Listing(m, line), entry)|
         == |Listing(m, line)| + (if ListOutcome(Listing(m, line), entry.event).Coalesced? then 0 else 1)
  {
    hide Increasing, Below, AllRetained, AllPresent, ListSend, WithoutClass, Barrier, OfClass;
    BarrierOfListing(m, line);
    ListSendSnapshot(m.ordered, line, entry);
    WithoutLength(m.slots, line, entry.event.slot);
    CoalescesIffPending(m, line, entry.event.slot);
  }

  lemma {:induction false} RunKeeps(t: Trace, l: ListTrace, line: seq<Entry>, ops: seq<Op>)
    requires Agrees(t, l, line) && NeverFull(l, ops) && l.next + |ops| < U64_LIMIT
    requires Faithful(l) && Accounted(l)
    ensures Faithful(ListRun(l, ops)) && Accounted(ListRun(l, ops))
    ensures ListRun(l, ops).next == l.next + Sends(ops)
    decreases |ops|
  {
    if ops != [] {
      var line' := StepAgrees(t, l, line, ops[0]);
      if ops[0].SendOp? { SendStays(l, ops[0].event); } else { ReceiveStays(l); }
      StepAccounted(l, ops[0], line, t.m);
      RunKeeps(Step(t, ops[0]), ListStep(l, ops[0]), line', ops[1..]);
    }
  }

  function Sends(ops: seq<Op>): nat {
    if ops == [] then 0 else (if ops[0].SendOp? then 1 else 0) + Sends(ops[1..])
  }

  // ---------- The main results ----------

  lemma WholeRun(ops: seq<Op>) returns (line: seq<Entry>)
    requires NeverFull(LIST_START, ops) && |ops| < U64_LIMIT
    ensures var l := ListRun(LIST_START, ops);
            Agrees(Run(START, ops), l, line) && Faithful(l) && Accounted(l) && l.next == Sends(ops)
  {
    assert Agrees(START, LIST_START, []);
    line := RunAgrees(START, LIST_START, [], ops);
    RunKeeps(START, LIST_START, [], ops);
  }

  /**
   The mailbox is the plain list: it delivers the same events in the same order,
   gives senders the same answers, never makes one wait, and holds the same
   pending events.  Delivered sequences strictly increase.
   */
  lemma MailboxRefinesList(ops: seq<Op>)
    requires NeverFull(LIST_START, ops) && |ops| < U64_LIMIT
    ensures var t, l := Run(START, ops), ListRun(LIST_START, ops);
            && t.delivered == l.delivered && t.outcomes == l.outcomes && t.waits == 0
            && (exists line :: Represents(t.m, line) && Listing(t.m, line) == l.list)
            && Increasing(t.delivered)
  {
    var line := WholeRun(ops);
    var l := ListRun(LIST_START, ops);
    PrefixIncreasing(l.delivered, l.list);
  }

  lemma PrefixIncreasing(a: seq<Entry>, b: seq<Entry>)
    requires Increasing(a + b)
    ensures Increasing(a)
  {
    assert forall i | 0 <= i < |a| :: (a + b)[i] == a[i];
  }

  /**
   Coalescing is unobservable to ordered events: when one is delivered, the last
   delivered value of every snapshot class is the last one sent before it.  Once
   the mailbox is drained every class has its last sent value.
   */
  lemma CoalescingIsUnobservable(ops: seq<Op>, k: nat)
    requires NeverFull(LIST_START, ops) && |ops| < U64_LIMIT
    ensures var delivered, sent := Run(START, ops).delivered, ListRun(LIST_START, ops).sent;
            k < |delivered| && IsOrdered(delivered[k]) ==>
              exists j :: 0 <= j < |sent| && sent[j] == delivered[k]
                       && Registry(sent[..j]) == Registry(delivered[..k])
    ensures ListRun(LIST_START, ops).list == [] ==>
              && Registry(Run(START, ops).delivered) == Registry(ListRun(LIST_START, ops).sent)
              && Observed(Run(START, ops).delivered) == Observed(ListRun(LIST_START, ops).sent)
  {
    hide Observed, Registry, Represents, ListRun, Run, Increasing, Below;
    var line := WholeRun(ops);
    var l := ListRun(LIST_START, ops);
    if l.list == [] {
      NothingPending(l.delivered, l.list);
    }
    if k < |l.delivered| && IsOrdered(l.delivered[k]) {
      StartOf(l.delivered, l.list, k);
      ObservedAt(l.delivered + l.list, k);
      var j := ObservedFrom(l.sent, (l.delivered[k], Registry(l.delivered[..k])));
    }
  }

  lemma NothingPending(a: seq<Entry>, b: seq<Entry>)
    requires b == []
    ensures a + b == a
  {
  }

  lemma StartOf(a: seq<Entry>, b: seq<Entry>, k: nat)
    requires k < |a|
    ensures (a + b)[k] == a[k] && (a + b)[..k] == a[..k]
  {
  }

  lemma {:induction false} ObservedAt(trace: seq<Entry>, k: nat)
    requires k < |trace| && IsOrdered(trace[k])
    ensures (trace[k], Registry(trace[..k])) in Observed(trace)
    decreases |trace|
  {
    var before := trace[..|trace| - 1];
    if k < |before| {
      ObservedAt(before, k);
      assert before[..k] == trace[..k];
    } else {
      assert Observed(trace)[|Observed(trace)| - 1] == (trace[k], Registry(trace[..k]));
    }
  }

  lemma {:induction false} ObservedFrom(trace: seq<Entry>, seen: (Entry, Registers)) returns (j: nat)
    requires seen in Observed(trace)
    ensures j < |trace| && seen == (trace[j], Registry(trace[..j])) && IsOrdered(trace[j])
    decreases |trace|
  {
    var before := trace[..|trace| - 1];
    if seen in Observed(before) {
      j := ObservedFrom(before, seen);
      assert before[..j] == trace[..j];
    } else {
      j := |trace| - 1;
    }
  }

  /** Every send is delivered, pending, coalesced or a dropped log, and the bounds hold. */
  lemma SendsAreAccountedFor(ops: seq<Op>)
    requires NeverFull(LIST_START, ops) && |ops| < U64_LIMIT
    ensures var t := Run(START, ops);
            && Sends(ops) == |t.delivered| + |t.m.ordered| + |t.m.slots|
                           + t.m.stats.coalescedSnapshots + t.m.stats.droppedLogs
            && |t.m.ordered| <= UI_ORDERED_CAPACITY && |t.m.slots| <= 7
  {
    var line := WholeRun(ops);
    AtMostOnePerClass(Run(START, ops).m.slots);
  }
}
