/**
 The mailbox with waiting senders.

 A sender that finds the lane full lets go of the lock, and until it is woken
 other senders and the receiver run.  Accounting and the bounds survive every
 interleaving.  The place of an ordered event and the flush's expectation that
 its snapshot is still there do not: they are safe exactly when the send finds
 room for every pending snapshot and itself.
 */
module UiDeliveryWaits {
  import opened Wrappers
  import opened UiDelivery
  import opened UiDeliveryList

  datatype Waiter = Waiter(entry: Entry, flushing: Option<nat>)

  /** `refused` counts sends that met the closed receiver while waiting, `failed` lists
      the entries whose sender missed the snapshot it was about to flush. */
  datatype Scene = Scene(
    m: Mailbox, waiting: map<nat, Waiter>, delivered: seq<Entry>,
    sends: nat, refused: nat, failed: seq<Entry>)

  /**
   A sender asks whether the receiver is there before it takes the lock, so a send
   can start after the close as well; one that is told no does not start at all.
   Any waiting sender may be the next to wake, and may find the lane still full.
   */
  datatype Move = Start(sender: nat, message: Message) | WakeUp(sender: nat) | Recv | Close

  ghost function Settle(w: Scene, sender: nat, m: Mailbox, p: Progress, entry: Entry): Scene {
    match p
    case Done(_) => w.(m := m, waiting := w.waiting - {sender})
    case Waiting(_, flushing) => w.(m := m, waiting := w.waiting[sender := Waiter(entry, flushing)])
    case Closed => w.(m := m, waiting := w.waiting - {sender}, refused := w.refused + 1)
    case MissingSnapshot => w.(m := m, waiting := w.waiting - {sender}, failed := w.failed + [entry])
  }

  ghost function Act(w: Scene, move: Move): Scene {
    match move
    case Start(sender, message) =>
      if sender in w.waiting then w
      else
        var event := Classify(message);
        var (m, p) := SendLocked(w.m, event);
        Settle(w.(sends := w.sends + 1), sender, m, p, Entry(w.m.nextSequence, event))
    case WakeUp(sender) =>
      if sender !in w.waiting then w
      else
        var waiter := w.waiting[sender];
        var (m, p) := Resume(w.m, waiter.entry, waiter.flushing);
        Settle(w, sender, m, p, waiter.entry)
    case Recv =>
      var (m, got) := Receive(w.m);
      w.(m := m, delivered := if got.Some? then w.delivered + [got.value] else w.delivered)
    case Close => w.(m := w.m.(open := false))
  }

  ghost function Play(w: Scene, moves: seq<Move>): Scene
    decreases |moves|
  {
    if moves == [] then w else Play(Act(w, moves[0]), moves[1..])
  }

  const IDLE := Scene(Mailbox([], map[], Stats(0, 0), 0, true), map[], [], 0, 0, [])

  // ---------- Accounting in every interleaving ----------

  ghost predicate Balanced(w: Scene) {
    && |w.m.ordered| <= UI_ORDERED_CAPACITY
    && w.sends == |w.delivered| + |w.m.ordered| + |w.m.slots|
                + w.m.stats.coalescedSnapshots + w.m.stats.droppedLogs
                + |w.waiting| + w.refused + |w.failed|
  }

  lemma {:induction false} FlushBalance(m: Mailbox, entry: Entry)
    requires |m.ordered| <= UI_ORDERED_CAPACITY
    ensures var (m', p) := Flush(m, entry);
            && |m'.ordered| <= UI_ORDERED_CAPACITY && m'.stats == m.stats
            && !p.MissingSnapshot?
            && |m'.ordered| + |m'.slots| == |m.ordered| + |m.slots| + (if p.Done? then 1 else 0)
    decreases |m.slots|
  {
    var next := NextSequence(m.slots);
    if |m.ordered| < UI_ORDERED_CAPACITY && next.Some? {
      var c := SlotAt(m.slots, next.value).value;
      RemoveSize(m.slots, c);
      FlushBalance(FlushSlot(m, c), entry);
    }
  }

  lemma RemoveSize<K, V>(m: map<K, V>, k: K)
    ensures |m - {k}| == if k in m then |m| - 1 else |m|
  {
    if k in m {
      assert m.Keys == (m - {k}).Keys + {k};
    } else {
      assert m - {k} == m;
    }
  }

  lemma PutSize<K, V>(m: map<K, V>, k: K, v: V)
    ensures |m[k := v]| == if k in m then |m| else |m| + 1
  {
    assert m[k := v].Keys == m.Keys + {k};
  }

  ghost function Held(m: Mailbox): nat {
    |m.ordered| + |m.slots| + m.stats.coalescedSnapshots + m.stats.droppedLogs
  }

  lemma SendBalance(m: Mailbox, event: UiEvent)
    requires |m.ordered| <= UI_ORDERED_CAPACITY
    ensures var (m', p) := SendLocked(m, event);
            && |m'.ordered| <= UI_ORDERED_CAPACITY
            && Held(m') == Held(m) + (if p.Done? then 1 else 0)
  {
    hide Flush;
    var entry := Entry(m.nextSequence, event);
    if event.Snapshot? {
      PutSize(m.slots, event.slot, entry);
    } else {
      FlushBalance(m.(nextSequence := (m.nextSequence + 1) % U64_LIMIT), entry);
    }
  }

  lemma ResumeBalance(m: Mailbox, waiter: Waiter)
    requires |m.ordered| <= UI_ORDERED_CAPACITY
    ensures var (m', p) := Resume(m, waiter.entry, waiter.flushing);
            && |m'.ordered| <= UI_ORDERED_CAPACITY
            && Held(m') == Held(m) + (if p.Done? then 1 else 0)
  {
    if |m.ordered| < UI_ORDERED_CAPACITY && waiter.flushing.Some? {
      var slot := SlotAt(m.slots, waiter.flushing.value);
      if slot.Some? {
        RemoveSize(m.slots, slot.value);
        FlushBalance(FlushSlot(m, slot.value), waiter.entry);
      }
    }
  }

  /** Filing a sender under what became of its send keeps the books. */
  lemma SettleBalance(w: Scene, sender: nat, m: Mailbox, p: Progress, entry: Entry, others: nat)
    requires |m.ordered| <= UI_ORDERED_CAPACITY
    requires others == if sender in w.waiting then |w.waiting| - 1 else |w.waiting|
    requires w.sends + (if p.Done? then 1 else 0)
          == |w.delivered| + Held(m) + others + 1 + w.refused + |w.failed|
    ensures Balanced(Settle(w, sender, m, p, entry))
  {
    RemoveSize(w.waiting, sender);
    if p.Waiting? {
      PutSize(w.waiting, sender, Waiter(entry, p.flushing));
    }
  }

  lemma StartBalance(w: Scene, sender: nat, message: Message)
    requires Balanced(w) && sender !in w.waiting
    ensures Balanced(Act(w, Start(sender, message)))
  {
    hide SendLocked, Classify, Settle;
    var event := Classify(message);
    var (m, p) := SendLocked(w.m, event);
    SendBalance(w.m, event);
    SettleBalance(w.(sends := w.sends + 1), sender, m, p, Entry(w.m.nextSequence, event), |w.waiting|);
  }

  lemma WakeBalance(w: Scene, sender: nat)
    requires Balanced(w) && sender in w.waiting
    ensures Balanced(Act(w, WakeUp(sender)))
  {
    hide Resume;
    var waiter := w.waiting[sender];
    var (m, p) := Resume(w.m, waiter.entry, waiter.flushing);
    ResumeBalance(w.m, waiter);
    assert |w.waiting| > 0 by { RemoveSize(w.waiting, sender); }
    SettleBalance(w, sender, m, p, waiter.entry, |w.waiting| - 1);
  }

  lemma ReceiveBalance(m: Mailbox)
    ensures var (m', got) := Receive(m);
            && |m'.ordered| <= |m.ordered|
            && Held(m') + (if got.Some? then 1 else 0) == Held(m)
  {
    var next := NextSequence(m.slots);
    if next.Some? {
      RemoveSize(m.slots, SlotAt(m.slots, next.value).value);
    }
  }

  lemma ActBalance(w: Scene, move: Move)
    requires Balanced(w)
    ensures Balanced(Act(w, move))
  {
    hide SendLocked, Resume, Receive, Settle;
    match move
    case Start(sender, message) =>
      if sender !in w.waiting { StartBalance(w, sender, message); }
    case WakeUp(sender) =>
      if sender in w.waiting { WakeBalance(w, sender); }
    case Recv => ReceiveBalance(w.m);
    case Close =>
  }

  lemma {:induction false} PlayBalance(w: Scene, moves: seq<Move>)
    requires Balanced(w)
    ensures Balanced(Play(w, moves))
    decreases |moves|
  {
    if moves != [] {
      ActBalance(w, moves[0]);
      PlayBalance(Act(w, moves[0]), moves[1..]);
    }
  }

  /** However senders, waits, receives and the close interleave, every send is
      accounted for and the lane and the slots keep their bounds. */
  lemma BalancedUnderWaits(moves: seq<Move>)
    ensures Balanced(Play(IDLE, moves))
    ensures |Play(IDLE, moves).m.slots| <= 7
  {
    PlayBalance(IDLE, moves);
    AtMostOnePerClass(Play(IDLE, moves).m.slots);
  }

  // ---------- The place of one ordered event ----------

  /** Delivered so far, then the lane. */
  function Track(w: Scene): seq<Entry> {
    w.delivered + w.m.ordered
  }

  /** The sender of event `n` missed the snapshot it was about to flush. */
  ghost predicate Lost(w: Scene, n: nat) {
    exists i :: 0 <= i < |w.failed| && w.failed[i].sequence == n
  }

  /** A later event is ahead of event `n`. */
  ghost predicate Passed(w: Scene, n: nat) {
    exists i, j :: 0 <= i < j < |Track(w)| && Track(w)[i].sequence > n && Track(w)[j].sequence == n
  }

  ghost predicate Broken(w: Scene, n: nat) {
    Lost(w, n) || Passed(w, n)
  }

  /** No continuation, within the range of sequence numbers, breaks event `n`. */
  ghost predicate Unbreakable(w: Scene, n: nat) {
    forall moves: seq<Move> | w.m.nextSequence + |moves| < U64_LIMIT :: !Broken(Play(w, moves), n)
  }

  ghost predicate CanBeLost(w: Scene, n: nat) {
    exists moves: seq<Move> :: w.m.nextSequence + |moves| < U64_LIMIT && Lost(Play(w, moves), n)
  }

  ghost predicate CanBePassed(w: Scene, n: nat) {
    exists moves: seq<Move> :: w.m.nextSequence + |moves| < U64_LIMIT && Passed(Play(w, moves), n)
  }

  ghost predicate Apart(list: seq<Entry>, n: nat) {
    forall i | 0 <= i < |list| :: list[i].sequence != n
  }

  ghost predicate SlotsAbove(slots: Slots, n: nat) {
    forall c <- slots :: slots[c].sequence > n
  }

  /** Event `n` sits at position `i`, behind older events only, and nowhere else. */
  ghost predicate Placed(list: seq<Entry>, n: nat, i: nat) {
    && i < |list| && list[i].sequence == n
    && (forall k | 0 <= k < i :: list[k].sequence < n)
    && (forall k | i < k < |list| :: list[k].sequence != n)
  }

  ghost predicate Safe(w: Scene, n: nat, i: nat) {
    && Placed(Track(w), n, i)
    && SlotsAbove(w.m.slots, n)
    && (forall s <- w.waiting :: w.waiting[s].entry.sequence != n)
    && Apart(w.failed, n)
    && n < w.m.nextSequence
  }

  lemma {:induction false} FlushAbove(m: Mailbox, entry: Entry, n: nat) returns (moved: seq<Entry>)
    requires SlotsAbove(m.slots, n) && entry.sequence != n
    ensures var (m', p) := Flush(m, entry);
            && m' == m.(ordered := m.ordered + moved, slots := m'.slots)
            && Apart(moved, n) && SlotsAbove(m'.slots, n) && !p.MissingSnapshot?
    decreases |m.slots|
  {
    var next := NextSequence(m.slots);
    if |m.ordered| >= UI_ORDERED_CAPACITY {
      moved := [];
      NothingMoved(m.ordered);
    } else if next.None? {
      moved := [entry];
    } else {
      var c := SlotAt(m.slots, next.value).value;
      RemoveSize(m.slots, c);
      var rest := FlushAbove(FlushSlot(m, c), entry, n);
      moved := [m.slots[c]] + rest;
      MovedFirst(m.ordered, m.slots[c], rest, n);
    }
  }

  lemma NothingMoved(lane: seq<Entry>)
    ensures lane + [] == lane
  {
  }

  lemma MovedFirst(lane: seq<Entry>, first: Entry, rest: seq<Entry>, n: nat)
    requires first.sequence != n && Apart(rest, n)
    ensures (lane + [first]) + rest == lane + ([first] + rest)
    ensures Apart([first] + rest, n)
  {
  }

  lemma PlacedAppend(list: seq<Entry>, more: seq<Entry>, n: nat, i: nat)
    requires Placed(list, n, i) && Apart(more, n)
    ensures Placed(list + more, n, i)
  {
  }

  lemma SafeAppend(w: Scene, w': Scene, n: nat, i: nat, more: seq<Entry>)
    requires Safe(w, n, i) && Apart(more, n)
    requires w'.delivered == w.delivered && w'.m.ordered == w.m.ordered + more
    requires SlotsAbove(w'.m.slots, n) && Apart(w'.failed, n) && n < w'.m.nextSequence
    requires forall s <- w'.waiting :: w'.waiting[s].entry.sequence != n
    ensures Safe(w', n, i)
  {
    PlacedAppend(Track(w), more, n, i);
    assert Track(w') == Track(w) + more;
  }

  lemma SendAbove(m: Mailbox, event: UiEvent, n: nat) returns (moved: seq<Entry>)
    requires SlotsAbove(m.slots, n) && n < m.nextSequence && m.nextSequence + 1 < U64_LIMIT
    ensures var (m', p) := SendLocked(m, event);
            && m'.ordered == m.ordered + moved && m'.nextSequence == m.nextSequence + 1
            && Apart(moved, n) && SlotsAbove(m'.slots, n)
            && !p.MissingSnapshot?
  {
    hide Flush;
    NothingMoved(m.ordered);
    if event.Control? || (event.Log? && |m.ordered| + |m.slots| < UI_ORDERED_CAPACITY) {
      moved := FlushAbove(m.(nextSequence := m.nextSequence + 1), Entry(m.nextSequence, event), n);
    } else {
      moved := [];
    }
  }

  lemma SettleSafe(w: Scene, sender: nat, m: Mailbox, p: Progress, entry: Entry, n: nat)
    requires forall s <- w.waiting :: w.waiting[s].entry.sequence != n
    requires entry.sequence != n
    ensures var w' := Settle(w, sender, m, p, entry);
            && (forall s <- w'.waiting :: w'.waiting[s].entry.sequence != n)
            && w'.delivered == w.delivered && w'.m == m
            && w'.failed == w.failed + (if p.MissingSnapshot? then [entry] else [])
  {
  }

  lemma StartSafe(w: Scene, n: nat, i: nat, sender: nat, message: Message)
    requires Safe(w, n, i) && w.m.nextSequence + 1 < U64_LIMIT
    requires sender !in w.waiting
    ensures Safe(Act(w, Start(sender, message)), n, i)
  {
    hide SendLocked, Placed, Settle, Classify;
    var event := Classify(message);
    var moved := SendAbove(w.m, event, n);
    var (m, p) := SendLocked(w.m, event);
    SettleSafe(w.(sends := w.sends + 1), sender, m, p, Entry(w.m.nextSequence, event), n);
    SafeAppend(w, Act(w, Start(sender, message)), n, i, moved);
  }

  lemma WakeSafe(w: Scene, n: nat, i: nat, sender: nat)
    requires Safe(w, n, i) && sender in w.waiting
    ensures Safe(Act(w, WakeUp(sender)), n, i)
  {
    hide Placed, Flush;
    var w' := Act(w, WakeUp(sender));
    var waiter := w.waiting[sender];
    var moved := [];
    NothingMoved(w.m.ordered);
    if |w.m.ordered| < UI_ORDERED_CAPACITY {
      if waiter.flushing.None? {
        moved := [waiter.entry];
      } else {
        var slot := SlotAt(w.m.slots, waiter.flushing.value);
        if slot.Some? {
          var snapshot := w.m.slots[slot.value];
          var rest := FlushAbove(FlushSlot(w.m, slot.value), waiter.entry, n);
          moved := [snapshot] + rest;
          MovedFirst(w.m.ordered, snapshot, rest, n);
        }
      }
    }
    SafeAppend(w, w', n, i, moved);
  }

  lemma RecvSafe(w: Scene, n: nat, i: nat)
    requires Safe(w, n, i)
    ensures Safe(Act(w, Recv), n, i)
  {
    var w' := Act(w, Recv);
    var (m', got) := Receive(w.m);
    if got.Some? {
      if m'.ordered != w.m.ordered {
        FrontDelivered(w.delivered, w.m.ordered);
      } else if w.m.ordered == [] {
        PlacedAppend(Track(w), [got.value], n, i);
        NothingMoved(w.delivered);
        NothingMoved(w.delivered + [got.value]);
      } else {
        if i >= |w.delivered| {
          FrontNotAbove(w.delivered, w.m.ordered, n, i);
        }
        PlacedInsert(w.delivered, w.m.ordered, got.value, n, i);
      }
    }
  }

  lemma FrontDelivered(a: seq<Entry>, b: seq<Entry>)
    requires b != []
    ensures (a + [b[0]]) + b[1..] == a + b
  {
  }

  lemma FrontNotAbove(a: seq<Entry>, b: seq<Entry>, n: nat, i: nat)
    requires Placed(a + b, n, i) && |a| <= i && b != []
    ensures b[0].sequence <= n
  {
    assert (a + b)[|a|] == b[0];
  }

  lemma PlacedInsert(a: seq<Entry>, b: seq<Entry>, x: Entry, n: nat, i: nat)
    requires Placed(a + b, n, i) && i < |a| && x.sequence > n
    ensures Placed((a + [x]) + b, n, i)
  {
    var whole := (a + [x]) + b;
    assert forall k | 0 <= k < |a| :: whole[k] == (a + b)[k];
    assert forall k | |a| < k < |whole| :: whole[k] == (a + b)[k - 1];
  }

  lemma {:induction false} SafeStays(w: Scene, n: nat, i: nat, moves: seq<Move>)
    requires Safe(w, n, i) && w.m.nextSequence + |moves| < U64_LIMIT
    ensures Safe(Play(w, moves), n, i)
    decreases |moves|
  {
    if moves != [] {
      var w' := Act(w, moves[0]);
      match moves[0] {
        case Start(sender, message) =>
          if sender !in w.waiting { StartSafe(w, n, i, sender, message); }
          SequenceStep(w, moves[0]);
        case WakeUp(sender) =>
          if sender in w.waiting { WakeSafe(w, n, i, sender); }
          SequenceStep(w, moves[0]);
        case Recv => RecvSafe(w, n, i);
        case Close =>
      }
      SafeStays(w', n, i, moves[1..]);
    }
  }

  lemma SequenceStep(w: Scene, move: Move)
    requires w.m.nextSequence + 1 < U64_LIMIT
    ensures Act(w, move).m.nextSequence <= w.m.nextSequence + 1
  {
    hide Flush;
    match move
    case Start(sender, message) =>
      var event := Classify(message);
      if !event.Snapshot? {
        FlushSequence(w.m.(nextSequence := w.m.nextSequence + 1), Entry(w.m.nextSequence, event));
      }
    case WakeUp(sender) =>
      if sender in w.waiting && w.waiting[sender].flushing.Some? {
        var slot := SlotAt(w.m.slots, w.waiting[sender].flushing.value);
        if slot.Some? {
          FlushSequence(FlushSlot(w.m, slot.value), w.waiting[sender].entry);
        }
      }
    case Recv =>
    case Close =>
  }

  lemma {:induction false} FlushSequence(m: Mailbox, entry: Entry)
    ensures Flush(m, entry).0.nextSequence == m.nextSequence
    decreases |m.slots|
  {
    var next := NextSequence(m.slots);
    if |m.ordered| < UI_ORDERED_CAPACITY && next.Some? {
      var c := SlotAt(m.slots, next.value).value;
      RemoveSize(m.slots, c);
      FlushSequence(FlushSlot(m, c), entry);
    }
  }

  // ---------- What every scene keeps ----------

  ghost predicate SlotsBelow(slots: Slots, n: nat) {
    forall c <- slots :: slots[c].sequence < n
  }

  ghost predicate DistinctSlots(slots: Slots) {
    forall c, d | c in slots && d in slots && c != d :: slots[c].sequence != slots[d].sequence
  }

  /** All sequences are below `n`, and those of the slots are distinct. */
  ghost predicate Sound(m: Mailbox, n: nat) {
    Below(m.ordered, n) && SlotsBelow(m.slots, n) && DistinctSlots(m.slots)
  }

  ghost predicate WaitersBelow(waiting: map<nat, Waiter>, n: nat) {
    forall s <- waiting :: waiting[s].entry.sequence < n
  }

  ghost predicate Ordinary(w: Scene) {
    && Sound(w.m, w.m.nextSequence) && WaitersBelow(w.waiting, w.m.nextSequence)
    && Below(w.delivered, w.m.nextSequence) && Below(w.failed, w.m.nextSequence)
  }

  lemma PushedBelow(list: seq<Entry>, entry: Entry, n: nat)
    requires Below(list, n) && entry.sequence < n
    ensures Below(list + [entry], n)
  {
  }

  lemma FlushedSlotSound(m: Mailbox, c: SnapshotClass, n: nat)
    requires Sound(m, n) && c in m.slots
    ensures Sound(FlushSlot(m, c), n)
  {
    PushedBelow(m.ordered, m.slots[c], n);
  }

  lemma {:induction false} FlushSound(m: Mailbox, entry: Entry, n: nat)
    requires Sound(m, n) && entry.sequence < n
    ensures Sound(Flush(m, entry).0, n)
    decreases |m.slots|
  {
    hide Sound;
    var next := NextSequence(m.slots);
    if |m.ordered| < UI_ORDERED_CAPACITY {
      if next.Some? {
        var c := SlotAt(m.slots, next.value).value;
        RemoveSize(m.slots, c);
        FlushedSlotSound(m, c, n);
        FlushSound(FlushSlot(m, c), entry, n);
      } else {
        PushedSound(m, entry, n);
      }
    }
  }

  lemma PushedSound(m: Mailbox, entry: Entry, n: nat)
    requires Sound(m, n) && entry.sequence < n
    ensures Sound(PushBack(m, entry), n)
  {
    PushedBelow(m.ordered, entry, n);
  }

  lemma LaterSound(m: Mailbox, m': Mailbox, n: nat, n': nat)
    requires Sound(m, n) && n <= n' && m'.ordered == m.ordered && m'.slots == m.slots
    ensures Sound(m', n')
  {
  }

  lemma FilledSound(m: Mailbox, m': Mailbox, c: SnapshotClass, entry: Entry, n: nat)
    requires Sound(m, n) && entry.sequence == n && m'.ordered == m.ordered && m'.slots == m.slots[c := entry]
    ensures Sound(m', n + 1)
  {
  }

  lemma SendSound(m: Mailbox, event: UiEvent)
    requires Sound(m, m.nextSequence) && m.nextSequence + 1 < U64_LIMIT
    ensures Sound(SendLocked(m, event).0, m.nextSequence + 1)
    ensures SendLocked(m, event).0.nextSequence == m.nextSequence + 1
  {
    hide Flush, Sound;
    var n := m.nextSequence;
    var entry, m1, m' := Entry(n, event), m.(nextSequence := n + 1), SendLocked(m, event).0;
    LaterSound(m, m1, n, n + 1);
    if event.Snapshot? {
      FilledSound(m, m', event.slot, entry, n);
    } else if event.Log? && |m.ordered| + |m.slots| >= UI_ORDERED_CAPACITY {
      LaterSound(m, m', n, n + 1);
    } else {
      FlushSound(m1, entry, n + 1);
      FlushSequence(m1, entry);
    }
  }

  lemma ResumeSound(m: Mailbox, entry: Entry, flushing: Option<nat>)
    requires Sound(m, m.nextSequence) && entry.sequence < m.nextSequence
    ensures Sound(Resume(m, entry, flushing).0, m.nextSequence)
    ensures Resume(m, entry, flushing).0.nextSequence == m.nextSequence
  {
    hide Flush, Sound;
    PushedSound(m, entry, m.nextSequence);
    if flushing.Some? && SlotAt(m.slots, flushing.value).Some? {
      var c := SlotAt(m.slots, flushing.value).value;
      FlushedSlotSound(m, c, m.nextSequence);
      FlushSound(FlushSlot(m, c), entry, m.nextSequence);
      FlushSequence(FlushSlot(m, c), entry);
    }
  }

  lemma SettleOrdinary(w: Scene, sender: nat, m: Mailbox, p: Progress, entry: Entry)
    requires WaitersBelow(w.waiting, m.nextSequence) && Sound(m, m.nextSequence) && entry.sequence < m.nextSequence
    requires Below(w.delivered, m.nextSequence) && Below(w.failed, m.nextSequence)
    ensures Ordinary(Settle(w, sender, m, p, entry))
  {
    hide Sound;
    PushedBelow(w.failed, entry, m.nextSequence);
  }

  lemma ReceiveOrdinary(w: Scene)
    requires Ordinary(w)
    ensures Ordinary(Act(w, Recv))
  {
    var (m, got) := Receive(w.m);
    if got.Some? {
      PushedBelow(w.delivered, got.value, m.nextSequence);
    }
  }

  lemma ActOrdinary(w: Scene, move: Move)
    requires Ordinary(w) && w.m.nextSequence + 1 < U64_LIMIT
    ensures Ordinary(Act(w, move)) && Act(w, move).m.nextSequence <= w.m.nextSequence + 1
  {
    hide Sound, SendLocked, Resume, Settle, Classify;
    SequenceStep(w, move);
    match move
    case Start(sender, message) =>
      if sender !in w.waiting {
        var (m, p) := SendLocked(w.m, Classify(message));
        SendSound(w.m, Classify(message));
        SettleOrdinary(w.(sends := w.sends + 1), sender, m, p, Entry(w.m.nextSequence, Classify(message)));
      }
    case WakeUp(sender) =>
      if sender in w.waiting {
        var waiter := w.waiting[sender];
        var (m, p) := Resume(w.m, waiter.entry, waiter.flushing);
        ResumeSound(w.m, waiter.entry, waiter.flushing);
        SettleOrdinary(w, sender, m, p, waiter.entry);
      }
    case Recv => ReceiveOrdinary(w);
    case Close => ClosedSound(w.m, w.m.nextSequence);
  }

  lemma ClosedSound(m: Mailbox, n: nat)
    requires Sound(m, n)
    ensures Sound(m.(open := false), n)
  {
  }

  lemma {:induction false} PlayOrdinary(w: Scene, moves: seq<Move>)
    requires Ordinary(w) && w.m.nextSequence + |moves| < U64_LIMIT
    ensures Ordinary(Play(w, moves)) && Play(w, moves).m.nextSequence <= w.m.nextSequence + |moves|
    decreases |moves|
  {
    hide Ordinary, Act;
    if moves != [] {
      ActOrdinary(w, moves[0]);
      PlayOrdinary(Act(w, moves[0]), moves[1..]);
    }
  }

  // ---------- An event that finds room keeps its place ----------

  /** With room for the slots and itself, an event ends up behind older events, with no slot left. */
  lemma {:induction false} FlushFits(m: Mailbox, entry: Entry, n: nat) returns (before: seq<Entry>)
    requires Sound(m, n) && |m.ordered| + |m.slots| < UI_ORDERED_CAPACITY
    ensures Flush(m, entry) == (m.(ordered := before + [entry], slots := map[]), Done(Queued)) && Below(before, n)
    decreases |m.slots|
  {
    hide Sound;
    var next := NextSequence(m.slots);
    if next.None? {
      before := m.ordered;
      assert Below(before, n) by { SoundLane(m, n); }
    } else {
      var c := SlotAt(m.slots, next.value).value;
      RemoveSize(m.slots, c);
      FlushedSlotSound(m, c, n);
      before := FlushFits(FlushSlot(m, c), entry, n);
    }
  }

  lemma SoundLane(m: Mailbox, n: nat)
    requires Sound(m, n)
    ensures Below(m.ordered, n)
  {
  }

  lemma SafeIsNotBroken(w: Scene, n: nat, i: nat)
    requires Safe(w, n, i)
    ensures !Broken(w, n)
  {
  }

  lemma FreshPlace(w: Scene, list: seq<Entry>, entry: Entry)
    requires Below(w.delivered, entry.sequence) && Below(list, entry.sequence) && Below(w.failed, entry.sequence)
    requires w.m.ordered == list + [entry] && w.m.slots == map[] && entry.sequence < w.m.nextSequence
    requires WaitersBelow(w.waiting, entry.sequence)
    ensures Safe(w, entry.sequence, |w.delivered| + |list|)
  {
    LastPlaced(w.delivered, list, entry);
  }

  lemma LastPlaced(a: seq<Entry>, b: seq<Entry>, last: Entry)
    requires Below(a, last.sequence) && Below(b, last.sequence)
    ensures Placed(a + (b + [last]), last.sequence, |a| + |b|)
  {
  }

  lemma Lands(w: Scene, sender: nat, message: Message) returns (before: seq<Entry>)
    requires Sound(w.m, w.m.nextSequence) && sender !in w.waiting && w.m.nextSequence + 1 < U64_LIMIT
    requires !Classify(message).Snapshot? && |w.m.ordered| + |w.m.slots| < UI_ORDERED_CAPACITY
    ensures var entry := Entry(w.m.nextSequence, Classify(message));
            && Act(w, Start(sender, message))
               == w.(m := w.m.(ordered := before + [entry], slots := map[], nextSequence := w.m.nextSequence + 1),
                     sends := w.sends + 1)
            && Below(before, w.m.nextSequence)
  {
    hide Sound, SendLocked, Classify, Below;
    before := SendLands(w.m, Classify(message));
    assert w.waiting - {sender} == w.waiting;
  }

  lemma SendLands(m: Mailbox, event: UiEvent) returns (before: seq<Entry>)
    requires Sound(m, m.nextSequence) && m.nextSequence + 1 < U64_LIMIT
    requires !event.Snapshot? && |m.ordered| + |m.slots| < UI_ORDERED_CAPACITY
    ensures var entry := Entry(m.nextSequence, event);
            SendLocked(m, event)
            == (m.(ordered := before + [entry], slots := map[], nextSequence := m.nextSequence + 1), Done(Queued))
    ensures Below(before, m.nextSequence)
  {
    hide Sound, Flush, Below;
    ClockedSound(m, m.nextSequence);
    before := FlushFits(m.(nextSequence := m.nextSequence + 1), Entry(m.nextSequence, event), m.nextSequence);
  }

  lemma RoomPlaces(w: Scene, sender: nat, message: Message) returns (i: nat)
    requires Ordinary(w) && sender !in w.waiting && w.m.nextSequence + 1 < U64_LIMIT
    requires !Classify(message).Snapshot? && |w.m.ordered| + |w.m.slots| < UI_ORDERED_CAPACITY
    ensures Safe(Act(w, Start(sender, message)), w.m.nextSequence, i)
  {
    hide Sound, Safe, Classify, Act, Below, WaitersBelow;
    var before := Lands(w, sender, message);
    FreshPlace(Act(w, Start(sender, message)), before, Entry(w.m.nextSequence, Classify(message)));
    i := |w.delivered| + |before|;
  }

  lemma ClockedSound(m: Mailbox, n: nat)
    requires Sound(m, n)
    ensures Sound(m.(nextSequence := n + 1), n)
  {
  }

  /** With room the event takes its place at once and keeps it. */
  lemma RoomKeepsPlace(w: Scene, sender: nat, message: Message)
    requires Ordinary(w) && sender !in w.waiting && w.m.nextSequence + 1 < U64_LIMIT
    requires !Classify(message).Snapshot? && |w.m.ordered| + |w.m.slots| < UI_ORDERED_CAPACITY
    ensures Unbreakable(Act(w, Start(sender, message)), w.m.nextSequence)
  {
    hide Ordinary, Safe, Broken, Act, Classify;
    var n, w' := w.m.nextSequence, Act(w, Start(sender, message));
    var i := RoomPlaces(w, sender, message);
    forall moves: seq<Move> | w'.m.nextSequence + |moves| < U64_LIMIT
      ensures !Broken(Play(w', moves), n)
    {
      SafeStays(w', n, i, moves);
      SafeIsNotBroken(Play(w', moves), n, i);
    }
  }

  // ---------- An event that has to wait can lose it ----------

  /** Some message of every snapshot class. */
  function Sample(c: SnapshotClass): Message {
    match c
    case Hud => HudUpdate("")
    case Selector => SelectorHide
    case RuntimeHealth => SetRuntimeHealth("")
    case BindingHealth => SetServerBindings("")
    case PermissionHealth => SetPermissionStatusOverride("")
    case Heartbeat => HeartbeatBeat("")
    case World => WorldSnapshot("")
  }

  lemma SampleIsOfClass(c: SnapshotClass)
    ensures Classify(Sample(c)) == Snapshot(c, Sample(c))
  {
  }

  lemma {:induction false} PlayAppends(w: Scene, moves: seq<Move>, more: seq<Move>)
    ensures Play(w, moves + more) == Play(Play(w, moves), more)
    decreases |moves|
  {
    hide Act;
    if moves == [] {
      assert moves + more == more;
    } else {
      assert (moves + more)[0] == moves[0] && (moves + more)[1..] == moves[1..] + more;
      PlayAppends(Act(w, moves[0]), moves[1..], more);
    }
  }

  lemma PlayOne(w: Scene, move: Move)
    ensures Play(w, [move]) == Act(w, move)
  {
    assert [move][1..] == [];
  }

  lemma {:induction false} BoundOf(names: set<nat>) returns (bound: nat)
    ensures forall x <- names :: x < bound
  {
    bound := 0;
    if names != {} {
      var x :| x in names;
      bound := BoundOf(names - {x});
      assert names == (names - {x}) + {x};
      bound := if x < bound then bound else x + 1;
    }
  }

  /** Receiving often enough makes room in a full lane; meanwhile slots are only emptied. */
  lemma {:induction false} ReceiveMakesRoom(w: Scene) returns (moves: seq<Move>)
    requires |w.m.ordered| == UI_ORDERED_CAPACITY
    ensures |moves| <= |w.m.slots| + 1
    ensures var w' := Play(w, moves);
            && |w'.m.ordered| == UI_ORDERED_CAPACITY - 1 && w'.waiting == w.waiting && w'.m.open == w.m.open
            && w'.m.nextSequence == w.m.nextSequence
            && (forall c | c in w'.m.slots :: c in w.m.slots && w'.m.slots[c] == w.m.slots[c])
    decreases |w.m.slots|
  {
    var w1 := Act(w, Recv);
    PlayOne(w, Recv);
    moves := [Recv];
    if |w1.m.ordered| == UI_ORDERED_CAPACITY {
      RemoveSize(w.m.slots, SlotAt(w.m.slots, NextSequence(w.m.slots).value).value);
      hide Receive;
      var rest := ReceiveMakesRoom(w1);
      PlayAppends(w, [Recv], rest);
      moves := [Recv] + rest;
    }
  }

  /**
   With a snapshot still to flush, one coalescing send and enough receives make
   the flush fail: the snapshot it read the sequence of is gone.
   */
  lemma MissedSnapshot(w: Scene, sender: nat, entry: Entry, flushing: nat)
    requires w.m.open && |w.m.ordered| == UI_ORDERED_CAPACITY && sender in w.waiting
    requires w.waiting[sender] == Waiter(entry, Some(flushing)) && NextSequence(w.m.slots) == Some(flushing)
    requires Sound(w.m, w.m.nextSequence) && w.m.nextSequence + 11 < U64_LIMIT
    ensures CanBeLost(w, entry.sequence)
  {
    hide Lost, Act, Play, Sound, Classify, Sample;
    var c := SlotAt(w.m.slots, flushing).value;
    var other := BoundOf(w.waiting.Keys);
    SampleIsOfClass(c);
    var coalescing := Start(other, Sample(c));
    var w1 := Act(w, coalescing);
    Coalesced(w, other, c);
    var recvs := ReceiveMakesRoom(w1);
    var w2 := Play(w1, recvs);
    AtMostOnePerClass(w1.m.slots);
    ReplacedIsGone(w.m, c, flushing, w2.m.slots);
    MissingIsLost(w2, sender, entry, flushing);
    PlayOne(w, coalescing);
    PlayOne(w2, WakeUp(sender));
    PlayAppends(w, [coalescing], recvs);
    PlayAppends(w, [coalescing] + recvs, [WakeUp(sender)]);
  }

  lemma Coalesced(w: Scene, other: nat, c: SnapshotClass)
    requires w.m.open && other !in w.waiting && c in w.m.slots && w.m.nextSequence + 1 < U64_LIMIT
    ensures var w1 := Act(w, Start(other, Sample(c)));
            && w1.m.ordered == w.m.ordered && w1.waiting == w.waiting && w1.m.nextSequence == w.m.nextSequence + 1
            && w1.m.slots == w.m.slots[c := Entry(w.m.nextSequence, Snapshot(c, Sample(c)))] && w1.m.open
  {
    SampleIsOfClass(c);
    hide Classify, Sample;
    assert w.waiting - {other} == w.waiting;
  }

  lemma ReplacedIsGone(m: Mailbox, c: SnapshotClass, flushing: nat, left: Slots)
    requires Sound(m, m.nextSequence) && c in m.slots && m.slots[c].sequence == flushing
    requires forall d | d in left :: d in m.slots
               && left[d] == (if d == c then Entry(m.nextSequence, Snapshot(c, Sample(c))) else m.slots[d])
    ensures SlotAt(left, flushing).None?
  {
    forall d
      ensures !Holds(left, flushing, d)
    {
      SampleIsOfClass(c);
    }
  }

  lemma MissingIsLost(w: Scene, sender: nat, entry: Entry, flushing: nat)
    requires |w.m.ordered| < UI_ORDERED_CAPACITY && sender in w.waiting
    requires w.waiting[sender] == Waiter(entry, Some(flushing)) && SlotAt(w.m.slots, flushing).None?
    ensures Lost(Act(w, WakeUp(sender)), entry.sequence)
  {
    var w' := Act(w, WakeUp(sender));
    assert w'.failed[|w.failed|] == entry;
  }

  /**
   With nothing left to flush, a sender that comes later takes the place that a
   receive has made, before the one that the receive wakes.  With several waiting
   senders it may also be another of them that is woken.
   */
  lemma Overtaken(w: Scene, sender: nat, entry: Entry)
    requires w.m.open && |w.m.ordered| == UI_ORDERED_CAPACITY && w.m.slots == map[] && sender in w.waiting
    requires w.waiting[sender] == Waiter(entry, None)
    requires entry.sequence < w.m.nextSequence && w.m.nextSequence + 5 < U64_LIMIT
    ensures CanBePassed(w, entry.sequence)
  {
    var other := BoundOf(w.waiting.Keys);
    var message := Other("");
    var later := Entry(w.m.nextSequence, Control(message));
    hide Passed, Act;
    TakesFront(w);
    var w1 := Act(w, Recv);
    Barges(w1, other, message);
    var w2 := Act(w1, Start(other, message));
    TakesFront(w2);
    var w3 := Act(w2, Recv);
    TailOf(w.m.ordered, later);
    Joins(w3, sender, entry);
    var w4 := Act(w3, WakeUp(sender));
    LaterFirst(w4, w3.delivered, w.m.ordered[2..], later, entry);
    PlayFour(w, Recv, Start(other, message), Recv, WakeUp(sender));
  }

  lemma TailOf(lane: seq<Entry>, later: Entry)
    requires |lane| >= 2
    ensures (lane[1..] + [later])[1..] == lane[2..] + [later]
  {
  }

  lemma TakesFront(w: Scene)
    requires w.m.slots == map[] && w.m.ordered != []
    ensures Act(w, Recv)
         == w.(m := w.m.(ordered := w.m.ordered[1..]), delivered := w.delivered + [w.m.ordered[0]])
  {
  }

  lemma Joins(w: Scene, sender: nat, entry: Entry)
    requires |w.m.ordered| < UI_ORDERED_CAPACITY && sender in w.waiting && w.waiting[sender] == Waiter(entry, None)
    ensures var w' := Act(w, WakeUp(sender));
            w'.m.ordered == w.m.ordered + [entry] && w'.delivered == w.delivered
  {
  }

  lemma Barges(w: Scene, other: nat, message: Message)
    requires |w.m.ordered| < UI_ORDERED_CAPACITY && w.m.slots == map[] && other !in w.waiting
    requires Classify(message).Control? && w.m.nextSequence + 1 < U64_LIMIT
    ensures var later := Entry(w.m.nextSequence, Classify(message));
            Act(w, Start(other, message))
            == w.(m := w.m.(ordered := w.m.ordered + [later], nextSequence := w.m.nextSequence + 1),
                  sends := w.sends + 1)
  {
    assert w.waiting - {other} == w.waiting;
  }

  lemma PlayFour(w: Scene, a: Move, b: Move, c: Move, d: Move)
    ensures Play(w, [a] + [b] + [c] + [d]) == Act(Act(Act(Act(w, a), b), c), d)
  {
    hide Act;
    PlayOne(w, a);
    PlayOne(Act(w, a), b);
    PlayOne(Act(Act(w, a), b), c);
    PlayOne(Act(Act(Act(w, a), b), c), d);
    PlayAppends(w, [a], [b]);
    PlayAppends(w, [a] + [b], [c]);
    PlayAppends(w, [a] + [b] + [c], [d]);
  }

  lemma LaterFirst(w: Scene, delivered: seq<Entry>, lane: seq<Entry>, later: Entry, entry: Entry)
    requires w.delivered == delivered && w.m.ordered == (lane + [later]) + [entry]
    requires entry.sequence < later.sequence
    ensures Passed(w, entry.sequence)
  {
    var i := |delivered| + |lane|;
    assert Track(w)[i] == later && Track(w)[i + 1] == entry;
  }

  /** Without room the flush fills the lane and waits for the least snapshot left, or for none. */
  lemma {:induction false} FlushOverflows(m: Mailbox, entry: Entry)
    requires |m.ordered| <= UI_ORDERED_CAPACITY <= |m.ordered| + |m.slots| && m.open
    ensures var (m', p) := Flush(m, entry);
            && |m'.ordered| == UI_ORDERED_CAPACITY && m'.open && p == Waiting(entry, NextSequence(m'.slots))
    decreases |m.slots|
  {
    if |m.ordered| < UI_ORDERED_CAPACITY {
      var c := SlotAt(m.slots, NextSequence(m.slots).value).value;
      RemoveSize(m.slots, c);
      FlushOverflows(FlushSlot(m, c), entry);
    }
  }

  lemma NoRoomBreaks(w: Scene, sender: nat, message: Message)
    requires Ordinary(w) && w.m.open && sender !in w.waiting && w.m.nextSequence + 12 < U64_LIMIT
    requires |w.m.ordered| <= UI_ORDERED_CAPACITY <= |w.m.ordered| + |w.m.slots| && Classify(message).Control?
    ensures var w' := Act(w, Start(sender, message));
            if w'.m.slots == map[] then CanBePassed(w', w.m.nextSequence) else CanBeLost(w', w.m.nextSequence)
  {
    hide Sound, Flush, CanBeLost, CanBePassed, Classify;
    var n := w.m.nextSequence;
    var entry, w' := Entry(n, Classify(message)), Act(w, Start(sender, message));
    FlushOverflows(w.m.(nextSequence := n + 1), entry);
    SendSound(w.m, Classify(message));
    assert w'.waiting[sender] == Waiter(entry, NextSequence(w'.m.slots));
    if w'.m.slots == map[] {
      Overtaken(w', sender, entry);
    } else {
      MissedSnapshot(w', sender, entry, NextSequence(w'.m.slots).value);
    }
  }

  // ---------- The main result ----------

  /** The send of an ordered event is taken in: it is not a log that is dropped. */
  ghost predicate TakenIn(w: Scene, message: Message) {
    SendLocked(w.m, Classify(message)).1 != Done(DroppedLogFull)
  }

  /**
   In every scene that any interleaving reaches: an ordered event is taken in and
   delivered in its place, whatever other senders and the receiver do afterwards,
   exactly when its send finds room for every pending snapshot and itself.
   */
  lemma KeepsPlaceIffRoom(moves: seq<Move>, sender: nat, message: Message)
    requires |moves| + 12 < U64_LIMIT && !Classify(message).Snapshot?
    requires Play(IDLE, moves).m.open && sender !in Play(IDLE, moves).waiting
    ensures var w := Play(IDLE, moves);
            |w.m.ordered| + |w.m.slots| < UI_ORDERED_CAPACITY
            <==> TakenIn(w, message) && Unbreakable(Act(w, Start(sender, message)), w.m.nextSequence)
  {
    hide Act, Play, Classify, CanBeLost, CanBePassed, Unbreakable, TakenIn;
    var w := Play(IDLE, moves);
    assert Ordinary(IDLE);
    PlayOrdinary(IDLE, moves);
    BalancedUnderWaits(moves);
    TakenInIff(w, message);
    hide Ordinary;
    if |w.m.ordered| + |w.m.slots| < UI_ORDERED_CAPACITY {
      RoomKeepsPlace(w, sender, message);
    } else if Classify(message).Control? {
      NoRoomBreaks(w, sender, message);
      BreakableIs(Act(w, Start(sender, message)), w.m.nextSequence);
    }
  }

  lemma TakenInIff(w: Scene, message: Message)
    requires !Classify(message).Snapshot?
    ensures TakenIn(w, message)
       <==> Classify(message).Control? || |w.m.ordered| + |w.m.slots| < UI_ORDERED_CAPACITY
  {
    hide Flush, Classify;
    FlushIsNotDropped(w.m.(nextSequence := (w.m.nextSequence + 1) % U64_LIMIT),
                      Entry(w.m.nextSequence, Classify(message)));
  }

  lemma {:induction false} FlushIsNotDropped(m: Mailbox, entry: Entry)
    ensures Flush(m, entry).1 != Done(DroppedLogFull)
    decreases |m.slots|
  {
    var next := NextSequence(m.slots);
    if |m.ordered| < UI_ORDERED_CAPACITY && next.Some? {
      var c := SlotAt(m.slots, next.value).value;
      RemoveSize(m.slots, c);
      FlushIsNotDropped(FlushSlot(m, c), entry);
    }
  }

  lemma BreakableIs(w: Scene, n: nat)
    ensures CanBeLost(w, n) || CanBePassed(w, n) ==> !Unbreakable(w, n)
  {
    hide Lost, Passed, Play;
  }

  // ---------- The failing `expect` is reached ----------

  /** The scene in which nothing but `n` controls have been sent. */
  ghost predicate Filled(w: Scene, n: nat) {
    && |w.m.ordered| == n && w.m.slots == map[] && w.m.open && w.m.nextSequence == n
    && w.waiting == map[] && w.delivered == [] && w.failed == []
  }

  function Controls(n: nat): (moves: seq<Move>)
    ensures |moves| == n
  {
    if n == 0 then [] else Controls(n - 1) + [Start(0, Other(""))]
  }

  lemma NothingPlayed()
    ensures Play(IDLE, []) == IDLE
  {
  }

  lemma {:induction false} ControlsFill(n: nat)
    requires n <= UI_ORDERED_CAPACITY
    ensures Filled(Play(IDLE, Controls(n)), n)
  {
    hide Play, Act;
    if n == 0 {
      NothingPlayed();
    } else {
      ControlsFill(n - 1);
      var w := Play(IDLE, Controls(n - 1));
      Barges(w, 0, Other(""));
      PlayAppends(IDLE, Controls(n - 1), [Start(0, Other(""))]);
      PlayOne(w, Start(0, Other("")));
    }
  }

  /**
   From an empty mailbox: 256 controls fill the lane, a HUD update fills its slot,
   the next control has to wait, and there are moves after which its sender finds
   the snapshot it expects gone.
   */
  lemma ExpectFails()
    ensures exists moves :: Lost(Play(IDLE, moves), UI_ORDERED_CAPACITY + 1)
  {
    hide Lost, Play, Controls, Ordinary, Filled, Act, CanBeLost;
    var fill, hud, last := Controls(UI_ORDERED_CAPACITY), Start(0, HudUpdate("")), Start(0, Other(""));
    assert Ordinary(IDLE) by { IdleIsOrdinary(); }
    PlayOrdinary(IDLE, fill);
    ControlsFill(UI_ORDERED_CAPACITY);
    var w := Play(IDLE, fill);
    LastIsLost(w);
    PlayOne(w, hud);
    PlayOne(Act(w, hud), last);
    PlayAppends(IDLE, fill, [hud]);
    PlayAppends(IDLE, fill + [hud], [last]);
    LostFromStart(fill + [hud] + [last], UI_ORDERED_CAPACITY + 1);
  }

  lemma IdleIsOrdinary()
    ensures Ordinary(IDLE)
  {
  }

  lemma LostFromStart(moves: seq<Move>, n: nat)
    requires CanBeLost(Play(IDLE, moves), n)
    ensures exists moves' :: Lost(Play(IDLE, moves'), n)
  {
    hide Lost, Play;
    var w := Play(IDLE, moves);
    var more: seq<Move> :| w.m.nextSequence + |more| < U64_LIMIT && Lost(Play(w, more), n);
    PlayAppends(IDLE, moves, more);
  }

  lemma LastIsLost(w: Scene)
    requires Filled(w, UI_ORDERED_CAPACITY) && Ordinary(w)
    ensures CanBeLost(Act(Act(w, Start(0, HudUpdate(""))), Start(0, Other(""))), UI_ORDERED_CAPACITY + 1)
  {
    hide CanBeLost, CanBePassed, Ordinary, Act;
    var w1 := Act(w, Start(0, HudUpdate("")));
    ActOrdinary(w, Start(0, HudUpdate("")));
    HudFillsSlot(w);
    NoRoomBreaks(w1, 0, Other(""));
    FullLaneStays(w1, 0, Other(""));
  }

  lemma HudFillsSlot(w: Scene)
    requires w.m.slots == map[] && w.waiting == map[]
    ensures var w1 := Act(w, Start(0, HudUpdate("")));
            && |w1.m.slots| == 1 && w1.m.ordered == w.m.ordered && w1.waiting == map[] && w1.m.open == w.m.open
            && w1.m.nextSequence == (w.m.nextSequence + 1) % U64_LIMIT
  {
    hide Flush;
    var entry := Entry(w.m.nextSequence, Classify(HudUpdate("")));
    PutSize(w.m.slots, Hud, entry);
  }

  lemma FullLaneStays(w: Scene, sender: nat, message: Message)
    requires |w.m.ordered| == UI_ORDERED_CAPACITY && sender !in w.waiting && Classify(message).Control?
    ensures Act(w, Start(sender, message)).m.slots == w.m.slots
  {
  }
}
