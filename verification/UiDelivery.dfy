/**
 The UI mailbox of crates/hotki-app/src/ui_delivery.rs: a bounded lane of
 ordered events beside one coalescing slot per snapshot class.

 The functions describe one critical section each, from taking the lock to
 releasing it; the class holds the fields and the loops.  A send that finds the
 lane full releases the lock, so it stops with `Waiting` and is taken up again
 by `Resume` whenever the condition variable lets it run.
 */
module UiDelivery {
  import opened Wrappers

  const UI_ORDERED_CAPACITY: nat := 256
  const U64_LIMIT: nat := 0x1_0000_0000_0000_0000

  datatype SnapshotClass =
    | Hud | Selector | RuntimeHealth | BindingHealth | PermissionHealth | Heartbeat | World

  /** UI messages and commands, told apart as far as the mailbox tells them apart. */
  datatype Message =
    | HudUpdate(body: string)
    | SelectorUpdate(body: string)
    | SelectorHide
    | HeartbeatBeat(body: string)
    | WorldSnapshot(body: string)
    | SetRuntimeHealth(body: string)
    | SetServerBindings(body: string)
    | SetPermissionStatusOverride(body: string)
    | LogLine(body: string)
    | Other(body: string)  // every other notification or control

  /** A message with the part of the mailbox it goes to. */
  datatype UiEvent =
    | Snapshot(slot: SnapshotClass, message: Message)
    | Log(message: Message)
    | Control(message: Message)

  function Classify(message: Message): UiEvent {
    match message
    case HudUpdate(_) => Snapshot(Hud, message)
    case SelectorUpdate(_) => Snapshot(Selector, message)
    case SelectorHide => Snapshot(Selector, message)
    case HeartbeatBeat(_) => Snapshot(Heartbeat, message)
    case WorldSnapshot(_) => Snapshot(World, message)
    case SetRuntimeHealth(_) => Snapshot(RuntimeHealth, message)
    case SetServerBindings(_) => Snapshot(BindingHealth, message)
    case SetPermissionStatusOverride(_) => Snapshot(PermissionHealth, message)
    case LogLine(_) => Log(message)
    case Other(_) => Control(message)
  }

  datatype Entry = Entry(sequence: nat, event: UiEvent)

  type Slots = map<SnapshotClass, Entry>

  datatype Stats = Stats(droppedLogs: nat, coalescedSnapshots: nat)

  datatype Mailbox = Mailbox(
    ordered: seq<Entry>, slots: Slots, stats: Stats, nextSequence: nat, open: bool)

  datatype Outcome = Queued | Coalesced | DroppedLogFull

  /** What a send has come to when it gives up the lock. */
  datatype Progress =
    | Done(outcome: Outcome)
    | Closed
    | Waiting(entry: Entry, flushing: Option<nat>)
    | MissingSnapshot  // the `expect` on the snapshot being flushed fails

  // ---------- The slots ----------

  /** The position at which `take` visits a slot. */
  function Rank(c: SnapshotClass): nat {
    match c
    case Hud => 0
    case Selector => 1
    case RuntimeHealth => 2
    case BindingHealth => 3
    case PermissionHealth => 4
    case Heartbeat => 5
    case World => 6
  }

  const SLOT_ORDER: seq<SnapshotClass> :=
    [Hud, Selector, RuntimeHealth, BindingHealth, PermissionHealth, Heartbeat, World]

  ghost predicate IsLeast(slots: Slots, c: SnapshotClass) {
    c in slots && forall d <- slots :: slots[c].sequence <= slots[d].sequence
  }

  lemma {:induction false} LeastExists(slots: Slots)
    requires slots != map[]
    ensures exists c :: IsLeast(slots, c)
    decreases |slots|
  {
    var c :| c in slots;
    var rest := slots - {c};
    if rest == map[] {
      assert slots == map[c := slots[c]];
      assert IsLeast(slots, c);
    } else {
      assert slots.Keys == rest.Keys + {c};
      LeastExists(rest);
      var d :| IsLeast(rest, d);
      assert IsLeast(slots, if slots[c].sequence <= slots[d].sequence then c else d);
    }
  }

  ghost predicate Holds(slots: Slots, sequence: nat, c: SnapshotClass) {
    c in slots && slots[c].sequence == sequence
  }

  /** The least sequence among the retained snapshots. */
  ghost function NextSequence(slots: Slots): (least: Option<nat>)
    ensures least.None? <==> slots == map[]
    ensures least.Some? ==> exists c :: IsLeast(slots, c) && Holds(slots, least.value, c)
  {
    if slots == map[] then None
    else
      LeastExists(slots);
      var c :| IsLeast(slots, c);
      assert Holds(slots, slots[c].sequence, c);
      Some(slots[c].sequence)
  }

  ghost predicate FirstHolding(slots: Slots, sequence: nat, c: SnapshotClass) {
    Holds(slots, sequence, c) && forall d :: Holds(slots, sequence, d) ==> Rank(c) <= Rank(d)
  }

  lemma {:induction false} FirstHoldingExists(slots: Slots, sequence: nat, c: SnapshotClass)
    requires Holds(slots, sequence, c)
    ensures exists d :: FirstHolding(slots, sequence, d)
    decreases Rank(c)
  {
    if d :| Holds(slots, sequence, d) && Rank(d) < Rank(c) {
      FirstHoldingExists(slots, sequence, d);
    } else {
      assert FirstHolding(slots, sequence, c);
    }
  }

  /** The slot that `take(sequence)` empties. */
  ghost function SlotAt(slots: Slots, sequence: nat): (slot: Option<SnapshotClass>)
    ensures slot.Some? ==> FirstHolding(slots, sequence, slot.value)
    ensures slot.None? ==> forall c :: !Holds(slots, sequence, c)
  {
    if c :| Holds(slots, sequence, c) then
      FirstHoldingExists(slots, sequence, c);
      var d :| FirstHolding(slots, sequence, d);
      Some(d)
    else None
  }

  lemma RankOrder(i: nat)
    requires i < |SLOT_ORDER|
    ensures Rank(SLOT_ORDER[i]) == i
    ensures forall c :: Rank(c) == i <==> c == SLOT_ORDER[i]
  {
  }

  // ---------- Critical sections ----------

  function PushBack(m: Mailbox, entry: Entry): Mailbox {
    m.(ordered := m.ordered + [entry])
  }

  /** Move the snapshot in slot `c` to the back of the ordered lane. */
  ghost function FlushSlot(m: Mailbox, c: SnapshotClass): Mailbox
    requires c in m.slots
  {
    PushBack(m, m.slots[c]).(slots := m.slots - {c})
  }

  /** What a send does on finding the lane full. */
  function Park(m: Mailbox, entry: Entry, flushing: Option<nat>): Progress {
    if m.open then Waiting(entry, flushing) else Closed
  }

  /** The flush loop of `send` and the push behind it, up to the first wait. */
  ghost function Flush(m: Mailbox, entry: Entry): (Mailbox, Progress)
    decreases |m.slots|
  {
    var next := NextSequence(m.slots);
    if |m.ordered| >= UI_ORDERED_CAPACITY then (m, Park(m, entry, next))
    else if next.None? then (PushBack(m, entry), Done(Queued))
    else Flush(FlushSlot(m, SlotAt(m.slots, next.value).value), entry)
  }

  /** `send` once it has the lock, up to its first wait. */
  ghost function SendLocked(m: Mailbox, event: UiEvent): (Mailbox, Progress) {
    var entry := Entry(m.nextSequence, event);
    var m1 := m.(nextSequence := (m.nextSequence + 1) % U64_LIMIT);
    if event.Snapshot? then
      var m2 := m1.(slots := m1.slots[event.slot := entry]);
      if event.slot in m.slots
      then (m2.(stats := m2.stats.(coalescedSnapshots := m2.stats.coalescedSnapshots + 1)), Done(Coalesced))
      else (m2, Done(Queued))
    else if event.Log? && |m1.ordered| + |m1.slots| >= UI_ORDERED_CAPACITY
    then (m1.(stats := m1.stats.(droppedLogs := m1.stats.droppedLogs + 1)), Done(DroppedLogFull))
    else Flush(m1, entry)
  }

  /** `send`: whether the receiver is there is asked before the lock is taken. */
  ghost function Send(m: Mailbox, event: UiEvent): (Mailbox, Progress) {
    if m.open then SendLocked(m, event) else (m, Closed)
  }

  /** A waiting send that has got the lock back. */
  ghost function Resume(m: Mailbox, entry: Entry, flushing: Option<nat>): (Mailbox, Progress) {
    if |m.ordered| >= UI_ORDERED_CAPACITY then (m, Park(m, entry, flushing))
    else if flushing.None? then (PushBack(m, entry), Done(Queued))
    else
      var slot := SlotAt(m.slots, flushing.value);
      if slot.None? then (m, MissingSnapshot)
      else Flush(FlushSlot(m, slot.value), entry)
  }

  /** `try_recv`. */
  ghost function Receive(m: Mailbox): (Mailbox, Option<Entry>) {
    var next := NextSequence(m.slots);
    if next.Some? && (m.ordered == [] || next.value < m.ordered[0].sequence) then
      var c := SlotAt(m.slots, next.value).value;
      (m.(slots := m.slots - {c}), Some(m.slots[c]))
    else if m.ordered == [] then (m, None)
    else (m.(ordered := m.ordered[1..]), Some(m.ordered[0]))
  }

  /** The shared mailbox state behind its lock. */
  class UiMailbox {
    var ordered: seq<Entry>
    var slots: Slots
    var stats: Stats
    var nextSequence: nat
    var receiverOpen: bool

    function State(): Mailbox
      reads this
    {
      Mailbox(ordered, slots, stats, nextSequence, receiverOpen)
    }

    constructor ()
      ensures State() == Mailbox([], map[], Stats(0, 0), 0, true)
    {
      ordered, slots, stats, nextSequence, receiverOpen := [], map[], Stats(0, 0), 0, true;
    }

    method TrySend(message: Message) returns (p: Progress)
      modifies this
      ensures (State(), p) == Send(old(State()), Classify(message))
    {
      if !receiverOpen {
        return Closed;
      }
      p := SendUnderLock(message);
    }

    method SendUnderLock(message: Message) returns (p: Progress)
      modifies this
      ensures (State(), p) == SendLocked(old(State()), Classify(message))
    {
      var event := Classify(message);
      var entry := Entry(nextSequence, event);
      nextSequence := (nextSequence + 1) % U64_LIMIT;
      if event.Snapshot? {
        var coalesced := event.slot in slots;
        slots := slots[event.slot := entry];
        if coalesced {
          stats := stats.(coalescedSnapshots := stats.coalescedSnapshots + 1);
          return Done(Coalesced);
        }
        return Done(Queued);
      }
      if event.Log? && |ordered| + |slots| >= UI_ORDERED_CAPACITY {
        stats := stats.(droppedLogs := stats.droppedLogs + 1);
        return Done(DroppedLogFull);
      }
      p := FlushAndPush(entry);
    }

    /** The `while let` loop of `send` and the push that follows it. */
    method FlushAndPush(entry: Entry) returns (p: Progress)
      modifies this
      ensures (State(), p) == Flush(old(State()), entry)
    {
      var next := LeastSequence();
      while next.Some?
        invariant next == NextSequence(slots)
        invariant Flush(State(), entry) == Flush(old(State()), entry)
        decreases |slots|
      {
        if |ordered| >= UI_ORDERED_CAPACITY {
          return Park(State(), entry, next);
        }
        ghost var before := State();
        ghost var slot := SlotAt(slots, next.value).value;
        var snapshot := TakeSnapshot(next.value);
        ordered := ordered + [snapshot.value];
        assert State() == FlushSlot(before, slot);
        next := LeastSequence();
      }
      if |ordered| >= UI_ORDERED_CAPACITY {
        return Park(State(), entry, None);
      }
      ordered := ordered + [entry];
      return Done(Queued);
    }

    method Wake(entry: Entry, flushing: Option<nat>) returns (p: Progress)
      modifies this
      ensures (State(), p) == Resume(old(State()), entry, flushing)
    {
      if |ordered| >= UI_ORDERED_CAPACITY {
        return Park(State(), entry, flushing);
      }
      if flushing.None? {
        ordered := ordered + [entry];
        return Done(Queued);
      }
      ghost var before := State();
      ghost var slot := SlotAt(slots, flushing.value);
      var snapshot := TakeSnapshot(flushing.value);
      if snapshot.None? {
        return MissingSnapshot;
      }
      ordered := ordered + [snapshot.value];
      assert State() == FlushSlot(before, slot.value);
      p := FlushAndPush(entry);
    }

    /** `PendingSnapshots::next_sequence`. */
    method LeastSequence() returns (least: Option<nat>)
      ensures least == NextSequence(slots)
    {
      least := None;
      var i := 0;
      while i < |SLOT_ORDER|
        invariant i <= |SLOT_ORDER|
        invariant least.None? ==> forall c | Rank(c) < i :: c !in slots
        invariant least.Some? ==> exists c :: Holds(slots, least.value, c)
        invariant least.Some? ==> forall c | Rank(c) < i && c in slots :: least.value <= slots[c].sequence
      {
        var c := SLOT_ORDER[i];
        RankOrder(i);
        if c in slots && (least.None? || slots[c].sequence < least.value) {
          least := Some(slots[c].sequence);
          assert Holds(slots, least.value, c);
        }
        i := i + 1;
      }
      assert least.None? ==> forall c :: Rank(c) < 7 && c !in slots;
    }

    /** `PendingSnapshots::take`: visit the slots in order, empty the first that matches. */
    method TakeSnapshot(sequence: nat) returns (taken: Option<Entry>)
      modifies this`slots
      ensures var slot := old(SlotAt(slots, sequence));
              if slot.None? then taken == None && slots == old(slots)
              else taken == Some(old(slots)[slot.value]) && slots == old(slots) - {slot.value}
    {
      var i := 0;
      while i < |SLOT_ORDER|
        invariant i <= |SLOT_ORDER| && slots == old(slots)
        invariant forall c :: Holds(slots, sequence, c) ==> i <= Rank(c)
      {
        var c := SLOT_ORDER[i];
        RankOrder(i);
        if c in slots && slots[c].sequence == sequence {
          assert Holds(slots, sequence, c);
          assert SlotAt(slots, sequence) == Some(c);
          taken := Some(slots[c]);
          slots := slots - {c};
          return;
        }
        i := i + 1;
      }
      taken := None;
    }

    method TryRecv() returns (message: Option<Message>)
      modifies this
      ensures var (m, entry) := Receive(old(State()));
              State() == m && message == if entry.Some? then Some(entry.value.event.message) else None
    {
      var next := LeastSequence();
      if next.Some? && (ordered == [] || next.value < ordered[0].sequence) {
        var taken := TakeSnapshot(next.value);
        return Some(taken.value.event.message);
      }
      if ordered == [] {
        return None;
      }
      message := Some(ordered[0].event.message);
      ordered := ordered[1..];
    }

    /** Dropping the receiver. */
    method Close()
      modifies this
      ensures State() == old(State()).(open := false)
    {
      receiverOpen := false;
    }
  }
}
