/**
 The mailbox refines one plain list.

 The list knows nothing of lanes, slots or sequence order: a snapshot deletes
 the earlier snapshot of its class that no ordered event separates it from, and
 everything is appended and received at the ends.
 */
module UiDeliveryList {
  import opened Wrappers
  import opened UiDelivery

  // ---------- The plain list ----------

  predicate IsOrdered(entry: Entry) {
    !entry.event.Snapshot?
  }

  /** The position just behind the last ordered event. */
  function Barrier(list: seq<Entry>): (b: nat)
    ensures b <= |list|
    ensures b > 0 ==> IsOrdered(list[b - 1])
    ensures forall i | b <= i < |list| :: !IsOrdered(list[i])
  {
    if list == [] then 0
    else if IsOrdered(list[|list| - 1]) then |list|
    else Barrier(list[..|list| - 1])
  }

  predicate OfClass(entry: Entry, c: SnapshotClass) {
    entry.event.Snapshot? && entry.event.slot == c
  }

  function WithoutClass(list: seq<Entry>, c: SnapshotClass): seq<Entry> {
    if list == [] then []
    else if OfClass(list[0], c) then WithoutClass(list[1..], c)
    else [list[0]] + WithoutClass(list[1..], c)
  }

  function ListSend(list: seq<Entry>, entry: Entry): seq<Entry> {
    if entry.event.Snapshot?
    then list[..Barrier(list)] + WithoutClass(list[Barrier(list)..], entry.event.slot) + [entry]
    else if entry.event.Log? && |list| >= UI_ORDERED_CAPACITY then list
    else list + [entry]
  }

  /** What the sender is told. */
  function ListOutcome(list: seq<Entry>, event: UiEvent): Outcome {
    if event.Snapshot? then
      if exists i :: Barrier(list) <= i < |list| && OfClass(list[i], event.slot) then Coalesced else Queued
    else if event.Log? && |list| >= UI_ORDERED_CAPACITY then DroppedLogFull
    else Queued
  }

  // ---------- The mailbox and its list ----------

  ghost predicate Increasing(list: seq<Entry>) {
    forall i, j | 0 <= i < j < |list| :: list[i].sequence < list[j].sequence
  }

  ghost predicate Retained(slots: Slots, entry: Entry) {
    entry.event.Snapshot? && entry.event.slot in slots && slots[entry.event.slot] == entry
  }

  ghost predicate AllRetained(slots: Slots, line: seq<Entry>) {
    forall i | 0 <= i < |line| :: Retained(slots, line[i])
  }

  ghost predicate AllPresent(slots: Slots, line: seq<Entry>) {
    forall c | c in slots :: slots[c] in line && OfClass(slots[c], c)
  }

  /** `line` holds the slots in sequence order. */
  ghost predicate Lined(slots: Slots, line: seq<Entry>) {
    && |line| == |slots|
    && AllRetained(slots, line)
    && AllPresent(slots, line)
    && Increasing(line)
  }

  ghost predicate Below(list: seq<Entry>, bound: nat) {
    forall i | 0 <= i < |list| :: list[i].sequence < bound
  }

  /** The list the mailbox stands for, given its slots in sequence order. */
  function Listing(m: Mailbox, line: seq<Entry>): seq<Entry> {
    m.ordered + line
  }

  /** The refinement relation, kept as long as no send has had to wait. */
  ghost predicate Represents(m: Mailbox, line: seq<Entry>) {
    && Lined(m.slots, line)
    && Increasing(Listing(m, line))
    && Below(Listing(m, line), m.nextSequence)
    && |m.ordered| <= UI_ORDERED_CAPACITY
    && (m.ordered != [] ==> IsOrdered(m.ordered[|m.ordered| - 1]))
  }

  lemma AtMostOnePerClass(slots: Slots)
    ensures |slots| <= 7
  {
    var all := {Hud, Selector, RuntimeHealth, BindingHealth, PermissionHealth, Heartbeat, World};
    forall c: SnapshotClass
      ensures c in all
    {
      match c
      case Hud => case Selector => case RuntimeHealth => case BindingHealth =>
      case PermissionHealth => case Heartbeat => case World =>
    }
    SubsetSize(slots.Keys, all);
  }

  lemma {:induction false} SubsetSize(a: set<SnapshotClass>, b: set<SnapshotClass>)
    requires a <= b
    ensures |a| <= |b|
  {
    if a != {} {
      var c :| c in a;
      SubsetSize(a - {c}, b - {c});
    }
  }

  // ---------- Lines of snapshots ----------

  /** The front of the line is the slot to be left next. */
  lemma FrontOfLine(slots: Slots, line: seq<Entry>) returns (c: SnapshotClass)
    requires Lined(slots, line) && line != []
    ensures c in slots && slots[c] == line[0]
    ensures NextSequence(slots) == Some(line[0].sequence)
    ensures SlotAt(slots, line[0].sequence) == Some(c)
  {
    assert Retained(slots, line[0]);
    c := line[0].event.slot;
    forall d | d in slots
      ensures slots[c].sequence <= slots[d].sequence
      ensures slots[d].sequence == slots[c].sequence ==> d == c
    {
      var i :| 0 <= i < |line| && line[i] == slots[d];
      assert OfClass(slots[d], d) && OfClass(slots[c], c);
    }
    assert IsLeast(slots, c);
    assert Holds(slots, line[0].sequence, c);
  }

  lemma FrontLeaves(slots: Slots, line: seq<Entry>, c: SnapshotClass)
    requires Lined(slots, line) && line != [] && c in slots && slots[c] == line[0]
    ensures Lined(slots - {c}, line[1..])
  {
    hide AllRetained, AllPresent, Increasing;
    TailIncreases(line);
    assert |slots - {c}| == |slots| - 1 by {
      assert slots.Keys == (slots - {c}).Keys + {c};
    }
    FrontLeavesRetained(slots, line, c);
    FrontLeavesPresent(slots, line, c);
  }

  lemma TailIncreases(line: seq<Entry>)
    requires Increasing(line) && line != []
    ensures Increasing(line[1..])
  {
  }

  lemma FrontLeavesRetained(slots: Slots, line: seq<Entry>, c: SnapshotClass)
    requires AllRetained(slots, line) && Increasing(line) && line != [] && c in slots && slots[c] == line[0]
    ensures AllRetained(slots - {c}, line[1..])
  {
    forall i | 0 <= i < |line[1..]|
      ensures Retained(slots - {c}, line[1..][i])
    {
      assert Retained(slots, line[i + 1]) && line[0].sequence < line[i + 1].sequence;
    }
  }

  lemma FrontLeavesPresent(slots: Slots, line: seq<Entry>, c: SnapshotClass)
    requires AllPresent(slots, line) && line != [] && c in slots && slots[c] == line[0]
    ensures AllPresent(slots - {c}, line[1..])
  {
    var rest := slots - {c};
    forall d | d in rest
      ensures rest[d] in line[1..]
    {
      var i :| 0 <= i < |line| && line[i] == slots[d];
      assert OfClass(slots[d], d) && OfClass(slots[c], c);
      assert line[1..][i - 1] == line[i];
    }
  }

  lemma {:induction false} WithoutClassSelects(line: seq<Entry>, c: SnapshotClass)
    ensures forall x :: x in WithoutClass(line, c) <==> x in line && !OfClass(x, c)
    ensures Increasing(line) ==> Increasing(WithoutClass(line, c))
  {
    if line != [] {
      WithoutClassSelects(line[1..], c);
      assert forall x :: x in line <==> x == line[0] || x in line[1..];
      if Increasing(line) {
        var rest := WithoutClass(line[1..], c);
        forall j | 0 <= j < |rest|
          ensures line[0].sequence < rest[j].sequence
        {
          assert rest[j] in line[1..];
        }
      }
    }
  }

  lemma {:induction false} WithoutNone(line: seq<Entry>, c: SnapshotClass)
    requires forall i | 0 <= i < |line| :: !OfClass(line[i], c)
    ensures WithoutClass(line, c) == line
  {
    if line != [] {
      WithoutNone(line[1..], c);
    }
  }

  lemma {:induction false} WithoutOne(line: seq<Entry>, c: SnapshotClass, k: nat)
    requires k < |line| && forall i | 0 <= i < |line| :: OfClass(line[i], c) <==> i == k
    ensures |WithoutClass(line, c)| == |line| - 1
  {
    if k == 0 {
      WithoutNone(line[1..], c);
    } else {
      WithoutOne(line[1..], c, k - 1);
    }
  }

  lemma WithoutLength(slots: Slots, line: seq<Entry>, c: SnapshotClass)
    requires Lined(slots, line)
    ensures |WithoutClass(line, c)| == if c in slots then |line| - 1 else |line|
    ensures c in slots <==> exists i :: 0 <= i < |line| && OfClass(line[i], c)
  {
    if c in slots {
      var k :| 0 <= k < |line| && line[k] == slots[c];
      forall i | 0 <= i < |line|
        ensures OfClass(line[i], c) <==> i == k
      {
        assert Retained(slots, line[i]);
        if i != k { assert line[i].sequence != line[k].sequence; }
      }
      WithoutOne(line, c, k);
    } else {
      forall i | 0 <= i < |line|
        ensures !OfClass(line[i], c)
      {
        assert Retained(slots, line[i]);
      }
      WithoutNone(line, c);
    }
  }

  /** Filling slot `c` with the newest entry drops the old one from the line and appends. */
  lemma SlotFilled(slots: Slots, line: seq<Entry>, c: SnapshotClass, entry: Entry)
    requires Lined(slots, line) && OfClass(entry, c)
    requires Below(line, entry.sequence)
    ensures Lined(slots[c := entry], WithoutClass(line, c) + [entry])
  {
    hide AllRetained, AllPresent, OfClass;
    assert |slots[c := entry]| == if c in slots then |slots| else |slots| + 1 by {
      assert slots[c := entry].Keys == slots.Keys + {c};
    }
    WithoutLength(slots, line, c);
    WithoutClassSelects(line, c);
    WithoutKeepsBound(line, c, entry.sequence);
    FilledRetained(slots, line, c, entry);
    FilledPresent(slots, line, c, entry);
  }

  lemma WithoutKeepsBound(line: seq<Entry>, c: SnapshotClass, bound: nat)
    requires Below(line, bound)
    ensures Below(WithoutClass(line, c), bound)
  {
    WithoutClassSelects(line, c);
    var kept := WithoutClass(line, c);
    forall i | 0 <= i < |kept|
      ensures kept[i].sequence < bound
    {
      assert kept[i] in kept;
      var j :| 0 <= j < |line| && line[j] == kept[i];
    }
  }

  lemma FilledRetained(slots: Slots, line: seq<Entry>, c: SnapshotClass, entry: Entry)
    requires AllRetained(slots, line) && OfClass(entry, c)
    ensures AllRetained(slots[c := entry], WithoutClass(line, c) + [entry])
  {
    WithoutClassSelects(line, c);
    var kept := WithoutClass(line, c);
    forall i | 0 <= i < |kept|
      ensures Retained(slots[c := entry], kept[i])
    {
      assert kept[i] in kept;
      var j :| 0 <= j < |line| && line[j] == kept[i];
      assert Retained(slots, line[j]);
    }
  }

  lemma FilledPresent(slots: Slots, line: seq<Entry>, c: SnapshotClass, entry: Entry)
    requires AllPresent(slots, line) && OfClass(entry, c)
    ensures AllPresent(slots[c := entry], WithoutClass(line, c) + [entry])
  {
    WithoutClassSelects(line, c);
    var filled, after := slots[c := entry], WithoutClass(line, c) + [entry];
    assert after[|after| - 1] == entry;
    forall d | d in filled
      ensures filled[d] in after && OfClass(filled[d], d)
    {
      if d != c {
        assert slots[d] in line && OfClass(slots[d], d);
        assert slots[d] in WithoutClass(line, c);
      }
    }
  }

  // ---------- One flush ----------

  lemma FlushOne(m: Mailbox, line: seq<Entry>) returns (c: SnapshotClass)
    requires Lined(m.slots, line) && line != []
    ensures c in m.slots
    ensures NextSequence(m.slots) == Some(line[0].sequence)
    ensures SlotAt(m.slots, line[0].sequence) == Some(c)
    ensures Lined(FlushSlot(m, c).slots, line[1..])
    ensures Listing(FlushSlot(m, c), line[1..]) == Listing(m, line)
  {
    c := FrontOfLine(m.slots, line);
    FrontLeaves(m.slots, line, c);
    MoveFront(m.ordered, line);
  }

  lemma MoveFront(lane: seq<Entry>, line: seq<Entry>)
    requires line != []
    ensures (lane + [line[0]]) + line[1..] == lane + line
  {
  }

  /** With room for every pending snapshot and the event, a flush never waits. */
  lemma {:induction false} FlushWithRoom(m: Mailbox, entry: Entry, line: seq<Entry>)
    requires Lined(m.slots, line) && |Listing(m, line)| < UI_ORDERED_CAPACITY
    ensures Flush(m, entry) == (m.(ordered := Listing(m, line) + [entry], slots := map[]), Done(Queued))
    decreases |line|
  {
    hide Increasing, AllRetained, AllPresent, SlotAt, NextSequence;
    if line != [] {
      var c := FlushOne(m, line);
      FlushWithRoom(FlushSlot(m, c), entry, line[1..]);
    } else {
      assert m.slots == map[];
      assert m.ordered + [] == m.ordered;
    }
  }

  /** Without that room it waits, having moved only what fitted. */
  lemma {:induction false} FlushWithoutRoom(m: Mailbox, entry: Entry, line: seq<Entry>)
    returns (left: seq<Entry>)
    requires Lined(m.slots, line) && m.open
    requires |m.ordered| <= UI_ORDERED_CAPACITY <= |Listing(m, line)|
    ensures var (m', p) := Flush(m, entry);
            && m' == m.(ordered := m'.ordered, slots := m'.slots)
            && |m'.ordered| == UI_ORDERED_CAPACITY
            && Lined(m'.slots, left) && Listing(m', left) == Listing(m, line)
            && p == Waiting(entry, NextSequence(m'.slots))
    decreases |line|
  {
    if |m.ordered| < UI_ORDERED_CAPACITY {
      var c := FlushOne(m, line);
      left := FlushWithoutRoom(FlushSlot(m, c), entry, line[1..]);
    } else {
      left := line;
    }
  }

  // ---------- The refinement ----------

  lemma {:induction false} BarrierIs(list: seq<Entry>, b: nat)
    requires b <= |list| && (b > 0 ==> IsOrdered(list[b - 1]))
    requires forall i | b <= i < |list| :: !IsOrdered(list[i])
    ensures Barrier(list) == b
  {
    if b < |list| {
      BarrierIs(list[..|list| - 1], b);
    }
  }

  lemma BarrierOfListing(m: Mailbox, line: seq<Entry>)
    requires Represents(m, line)
    ensures Barrier(Listing(m, line)) == |m.ordered|
  {
    var n, list := |m.ordered|, Listing(m, line);
    forall i | n <= i < |list|
      ensures !IsOrdered(list[i])
    {
      assert Retained(m.slots, line[i - n]);
    }
    BarrierIs(list, n);
  }

  lemma CoalescesIffPending(m: Mailbox, line: seq<Entry>, c: SnapshotClass)
    requires Represents(m, line)
    ensures var list := Listing(m, line);
            c in m.slots <==> exists i :: Barrier(list) <= i < |list| && OfClass(list[i], c)
  {
    hide Increasing, Below, AllRetained, AllPresent, WithoutClass, Barrier, OfClass;
    BarrierOfListing(m, line);
    WithoutLength(m.slots, line, c);
    ClassBehind(m.ordered, line, c);
  }

  lemma ClassBehind(lane: seq<Entry>, line: seq<Entry>, c: SnapshotClass)
    ensures (exists i :: 0 <= i < |line| && OfClass(line[i], c))
       <==> (exists i :: |lane| <= i < |lane + line| && OfClass((lane + line)[i], c))
  {
    hide OfClass;
    if i :| 0 <= i < |line| && OfClass(line[i], c) {
      assert (lane + line)[|lane| + i] == line[i];
    }
    if i :| |lane| <= i < |lane + line| && OfClass((lane + line)[i], c) {
      assert line[i - |lane|] == (lane + line)[i];
    }
  }

  /** The sender is told what the list says, and waits exactly when the list is full. */
  lemma SendWaitsIffFull(m: Mailbox, event: UiEvent, line: seq<Entry>)
    requires Represents(m, line) && m.open
    ensures Send(m, event).1.Waiting? <==> event.Control? && |Listing(m, line)| >= UI_ORDERED_CAPACITY
    ensures !Send(m, event).1.Waiting? ==> Send(m, event).1 == Done(ListOutcome(Listing(m, line), event))
  {
    hide Increasing, Below, AllRetained, AllPresent, Flush, NextSequence, SlotAt, Barrier;
    var m1 := m.(nextSequence := (m.nextSequence + 1) % U64_LIMIT);
    var entry := Entry(m.nextSequence, event);
    if event.Snapshot? {
      CoalescesIffPending(m, line, event.slot);
    } else if |Listing(m, line)| < UI_ORDERED_CAPACITY {
      FlushWithRoom(m1, entry, line);
    } else if event.Control? {
      var _ := FlushWithoutRoom(m1, entry, line);
    }
  }

  function StatsAfter(stats: Stats, outcome: Outcome): Stats {
    match outcome
    case Queued => stats
    case Coalesced => stats.(coalescedSnapshots := stats.coalescedSnapshots + 1)
    case DroppedLogFull => stats.(droppedLogs := stats.droppedLogs + 1)
  }

  /** What a send does that goes through at once, without the flush. */
  lemma SendAtOnce(m: Mailbox, event: UiEvent, line: seq<Entry>)
    requires Lined(m.slots, line) && m.open && m.nextSequence + 1 < U64_LIMIT
    requires event.Control? ==> |Listing(m, line)| < UI_ORDERED_CAPACITY
    ensures var (m', p) := Send(m, event);
            && m' == m.(ordered := m'.ordered, slots := m'.slots, stats := m'.stats,
                        nextSequence := m.nextSequence + 1)
            && p.Done? && m'.stats == StatsAfter(m.stats, p.outcome)
            && if event.Snapshot? then
                 m'.ordered == m.ordered && m'.slots == m.slots[event.slot := Entry(m.nextSequence, event)]
               else if |Listing(m, line)| < UI_ORDERED_CAPACITY then
                 m'.ordered == Listing(m, line) + [Entry(m.nextSequence, event)] && m'.slots == map[]
               else m'.ordered == m.ordered && m'.slots == m.slots
  {
    hide Increasing, AllRetained, AllPresent, Flush, NextSequence, SlotAt;
    if !event.Snapshot? && |Listing(m, line)| < UI_ORDERED_CAPACITY {
      FlushWithRoom(m.(nextSequence := m.nextSequence + 1), Entry(m.nextSequence, event), line);
    }
  }

  /** Simulation of a send that does not wait. */
  lemma SendRefines(m: Mailbox, event: UiEvent, line: seq<Entry>) returns (line': seq<Entry>)
    requires Represents(m, line) && m.open && m.nextSequence + 1 < U64_LIMIT
    requires !Send(m, event).1.Waiting?
    ensures Send(m, event).1 == Done(ListOutcome(Listing(m, line), event))
    ensures var m' := Send(m, event).0;
            && Represents(m', line')
            && Listing(m', line') == ListSend(Listing(m, line), Entry(m.nextSequence, event))
            && m'.nextSequence == m.nextSequence + 1 && m'.open
            && m'.stats == StatsAfter(m.stats, Send(m, event).1.outcome)
  {
    SendWaitsIffFull(m, event, line);
    SendAtOnce(m, event, line);
    line' := StateRefines(m, Send(m, event).0, Entry(m.nextSequence, event), line);
  }

  lemma StateRefines(m: Mailbox, m': Mailbox, entry: Entry, line: seq<Entry>) returns (line': seq<Entry>)
    requires Represents(m, line) && entry.sequence == m.nextSequence && m'.nextSequence == m.nextSequence + 1
    requires if entry.event.Snapshot? then
               m'.ordered == m.ordered && m'.slots == m.slots[entry.event.slot := entry]
             else if |Listing(m, line)| < UI_ORDERED_CAPACITY then
               m'.ordered == Listing(m, line) + [entry] && m'.slots == map[]
             else entry.event.Log? && m'.ordered == m.ordered && m'.slots == m.slots
    ensures Represents(m', line') && Listing(m', line') == ListSend(Listing(m, line), entry)
  {
    if entry.event.Snapshot? {
      line' := SnapshotRefines(m, m', entry, line);
    } else if |Listing(m, line)| < UI_ORDERED_CAPACITY {
      OrderedRefines(m, m', entry, line);
      line' := [];
    } else {
      DroppedRefines(m, m', line);
      line' := line;
    }
  }

  lemma OrderedRefines(m: Mailbox, m': Mailbox, entry: Entry, line: seq<Entry>)
    requires Represents(m, line) && IsOrdered(entry) && entry.sequence == m.nextSequence
    requires |Listing(m, line)| < UI_ORDERED_CAPACITY
    requires m'.ordered == Listing(m, line) + [entry] && m'.slots == map[]
    requires m'.nextSequence == m.nextSequence + 1
    ensures Represents(m', []) && Listing(m', []) == ListSend(Listing(m, line), entry)
  {
    Appended(Listing(m, line), entry);
  }

  lemma DroppedRefines(m: Mailbox, m': Mailbox, line: seq<Entry>)
    requires Represents(m, line)
    requires m'.ordered == m.ordered && m'.slots == m.slots && m'.nextSequence == m.nextSequence + 1
    ensures Represents(m', line) && Listing(m', line) == Listing(m, line)
  {
    BelowNext(Listing(m, line), m.nextSequence);
  }

  lemma BelowNext(list: seq<Entry>, bound: nat)
    requires Below(list, bound)
    ensures Below(list, bound + 1)
  {
  }

  lemma Appended(list: seq<Entry>, entry: Entry)
    requires Increasing(list) && Below(list, entry.sequence)
    ensures (list + [entry]) + [] == list + [entry]
    ensures Increasing(list + [entry]) && Below(list + [entry], entry.sequence + 1)
  {
  }

  lemma SnapshotRefines(m: Mailbox, m': Mailbox, entry: Entry, line: seq<Entry>) returns (line': seq<Entry>)
    requires Represents(m, line) && entry.event.Snapshot? && entry.sequence == m.nextSequence
    requires m'.ordered == m.ordered && m'.slots == m.slots[entry.event.slot := entry]
    requires m'.nextSequence == m.nextSequence + 1
    ensures Represents(m', line') && Listing(m', line') == ListSend(Listing(m, line), entry)
  {
    hide Lined, WithoutClass, Barrier;
    var c := entry.event.slot;
    line' := WithoutClass(line, c) + [entry];
    assert Lined(m'.slots, line') by {
      LineBound(m.ordered, line, m.nextSequence);
      SlotFilled(m.slots, line, c, entry);
    }
    assert Listing(m', line') == ListSend(Listing(m, line), entry) by {
      BarrierOfListing(m, line);
      ListSendSnapshot(m.ordered, line, entry);
    }
    SendStaysIncreasing(m.ordered, line, c, entry);
  }

  lemma ListSendSnapshot(lane: seq<Entry>, line: seq<Entry>, entry: Entry)
    requires Barrier(lane + line) == |lane| && entry.event.Snapshot?
    ensures ListSend(lane + line, entry) == lane + (WithoutClass(line, entry.event.slot) + [entry])
  {
    assert (lane + line)[..|lane|] == lane && (lane + line)[|lane|..] == line;
  }

  lemma LineBound(lane: seq<Entry>, line: seq<Entry>, bound: nat)
    requires Below(lane + line, bound)
    ensures Below(line, bound)
  {
    forall i | 0 <= i < |line|
      ensures line[i].sequence < bound
    {
      assert (lane + line)[|lane| + i] == line[i];
    }
  }

  lemma SendStaysIncreasing(lane: seq<Entry>, line: seq<Entry>, c: SnapshotClass, entry: Entry)
    requires Increasing(lane + line) && Below(lane + line, entry.sequence)
    ensures Increasing(lane + (WithoutClass(line, c) + [entry]))
    ensures Below(lane + (WithoutClass(line, c) + [entry]), entry.sequence + 1)
  {
    var kept := WithoutClass(line, c);
    WithoutClassSelects(line, c);
    assert Increasing(lane) by {
      assert forall i | 0 <= i < |lane| :: (lane + line)[i] == lane[i];
    }
    assert Increasing(line) by {
      assert forall i | 0 <= i < |line| :: (lane + line)[|lane| + i] == line[i];
    }
    forall j | 0 <= j < |kept|
      ensures kept[j].sequence < entry.sequence
      ensures forall i | 0 <= i < |lane| :: lane[i].sequence < kept[j].sequence
    {
      assert kept[j] in kept;
      var k :| 0 <= k < |line| && line[k] == kept[j];
      assert (lane + line)[|lane| + k] == kept[j];
      assert forall i | 0 <= i < |lane| :: (lane + line)[i] == lane[i];
    }
    assert forall i | 0 <= i < |lane| :: (lane + line)[i] == lane[i];
  }

  /** Simulation of a receive. */
  lemma ReceiveRefines(m: Mailbox, line: seq<Entry>) returns (line': seq<Entry>)
    requires Represents(m, line)
    ensures var (m', got) := Receive(m);
            var list := Listing(m, line);
            && got == (if list == [] then None else Some(list[0]))
            && Represents(m', line')
            && Listing(m', line') == (if list == [] then [] else list[1..])
            && m' == m.(ordered := m'.ordered, slots := m'.slots)
  {
    hide Increasing, Below, ListSend;
    line' := line;
    if Listing(m, line) == [] {
      assert m.slots == map[];
    } else {
      TailStaysIncreasing(Listing(m, line), m.nextSequence);
      if m.ordered == [] {
        var c := FrontOfLine(m.slots, line);
        FrontLeaves(m.slots, line, c);
        line' := line[1..];
        EmptyLane(line);
      } else {
        LaneFirst(m, line);
        LaneTail(m.ordered, line);
      }
    }
  }

  lemma LaneFirst(m: Mailbox, line: seq<Entry>)
    requires Represents(m, line) && m.ordered != []
    ensures Receive(m) == (m.(ordered := m.ordered[1..]), Some(m.ordered[0]))
  {
    if line != [] {
      var c := FrontOfLine(m.slots, line);
      assert Listing(m, line)[0] == m.ordered[0] && Listing(m, line)[|m.ordered|] == line[0];
    } else {
      assert m.slots == map[];
    }
  }

  lemma TailStaysIncreasing(list: seq<Entry>, bound: nat)
    requires Increasing(list) && Below(list, bound) && list != []
    ensures Increasing(list[1..]) && Below(list[1..], bound)
  {
  }

  lemma EmptyLane(line: seq<Entry>)
    requires line != []
    ensures [] + line == line && [] + line[1..] == line[1..]
  {
  }

  lemma LaneTail(lane: seq<Entry>, line: seq<Entry>)
    requires lane != []
    ensures (lane + line)[0] == lane[0] && (lane + line)[1..] == lane[1..] + line
    ensures lane[1..] != [] ==> lane[1..][|lane[1..]| - 1] == lane[|lane| - 1]
  {
  }
}
