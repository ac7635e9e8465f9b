/**
 Closing the mailbox of crates/hotki-app/src/ui_delivery.rs under senders that
 wait.

 Dropping the receiver stores a flag and notifies all waiters, and takes no lock
 for either.  A sender looks at the flag before it takes the lock, and again when
 it holds the lock and finds the lane full; only then does it wait.  What matters
 here is who holds the lock, who sleeps and who has been woken, so of the
 mailbox only the lengths are kept.
 */
module UiDeliveryClose {
  import opened Wrappers

  const CAPACITY: nat := 256   // UI_ORDERED_CAPACITY
  const CLASSES: nat := 7

  datatype Kind = Snapshot | Log | Control

  /** `Entered` and `Woken` senders want the lock; a `Tested` one holds it and is about to wait. */
  datatype Pc = Entered | Tested | Asleep | Woken | Gone

  datatype Sender = Sender(kind: Kind, pc: Pc)

  /** The receiver is there, has stored the flag, or has notified as well. */
  datatype Phase = Open | Stored | Notified

  datatype State = State(lane: nat, slots: nat, phase: Phase, senders: map<nat, Sender>)

  const INITIAL := State(0, 0, Open, map[])

  datatype Step =
    | Enter(id: nat, kind: Kind)           // the flag is seen set, before the lock
    | Lock(id: nat, fills: bool)           // from taking the lock to releasing it, or to the test before a wait
    | Panic(id: nat)                       // a woken sender misses the snapshot it was about to flush
    | Sleep(id: nat)
    | ReceiveLane(woken: Option<nat>)
    | ReceiveSlot
    | Store
    | NotifyAll

  predicate At(s: State, id: nat, pc: Pc) {
    id in s.senders && s.senders[id].pc == pc
  }

  ghost predicate LockIsFree(s: State) {
    forall id :: !At(s, id, Tested)
  }

  ghost predicate NobodySleeps(s: State) {
    forall id :: !At(s, id, Asleep)
  }

  ghost predicate Enabled(s: State, step: Step) {
    match step
    case Enter(id, _) => id !in s.senders && s.phase == Open
    case Lock(id, fills) =>
      && (At(s, id, Entered) || At(s, id, Woken)) && LockIsFree(s)
      && (s.senders[id].kind == Snapshot ==> if fills then s.slots < CLASSES else s.slots > 0)
    case Panic(id) => At(s, id, Woken) && LockIsFree(s)
    case Sleep(id) => At(s, id, Tested)
    case ReceiveLane(woken) =>
      && s.phase == Open && LockIsFree(s) && s.lane > 0
      && (match woken case Some(id) => At(s, id, Asleep) case None => NobodySleeps(s))
    case ReceiveSlot => s.phase == Open && LockIsFree(s) && s.slots > 0
    case Store => s.phase == Open
    case NotifyAll => s.phase == Stored
  }

  function Moved(s: State, id: nat, pc: Pc): map<nat, Sender>
    requires id in s.senders
  {
    s.senders[id := s.senders[id].(pc := pc)]
  }

  /** What a sender does with the lock. */
  function Locked(s: State, id: nat, fills: bool): State
    requires id in s.senders
  {
    var sender := s.senders[id];
    if sender.kind == Snapshot then
      s.(slots := if fills then s.slots + 1 else s.slots, senders := Moved(s, id, Gone))
    else if sender.kind == Log && sender.pc == Entered && s.lane + s.slots >= CAPACITY then
      s.(senders := Moved(s, id, Gone))
    else if s.lane + s.slots < CAPACITY then
      s.(lane := s.lane + s.slots + 1, slots := 0, senders := Moved(s, id, Gone))
    else
      var moved := if s.lane < CAPACITY then CAPACITY - s.lane else 0;
      s.(lane := s.lane + moved, slots := if moved < s.slots then s.slots - moved else 0,
         senders := Moved(s, id, if s.phase == Open then Tested else Gone))
  }

  function After(s: State, step: Step): State
    requires Enabled(s, step)
  {
    match step
    case Enter(id, kind) => s.(senders := s.senders[id := Sender(kind, Entered)])
    case Lock(id, fills) => Locked(s, id, fills)
    case Panic(id) => s.(senders := Moved(s, id, Gone))
    case Sleep(id) => s.(senders := Moved(s, id, Asleep))
    case ReceiveLane(woken) =>
      s.(lane := s.lane - 1, senders := if woken.Some? then Moved(s, woken.value, Woken) else s.senders)
    case ReceiveSlot => s.(slots := s.slots - 1)
    case Store => s.(phase := Stored)
    case NotifyAll =>
      s.(phase := Notified,
         senders := map id | id in s.senders ::
           if s.senders[id].pc == Asleep then s.senders[id].(pc := Woken) else s.senders[id])
  }

  ghost predicate CanPlay(s: State, steps: seq<Step>)
    decreases |steps|
  {
    steps == [] || (Enabled(s, steps[0]) && CanPlay(After(s, steps[0]), steps[1..]))
  }

  ghost function Play(s: State, steps: seq<Step>): State
    requires CanPlay(s, steps)
    decreases |steps|
  {
    if steps == [] then s else Play(After(s, steps[0]), steps[1..])
  }

  lemma PlayOne(s: State, step: Step)
    requires Enabled(s, step)
    ensures CanPlay(s, [step]) && Play(s, [step]) == After(s, step)
  {
    assert [step][1..] == [];
  }

  lemma {:induction false} PlayAppends(s: State, a: seq<Step>, b: seq<Step>)
    requires CanPlay(s, a) && CanPlay(Play(s, a), b)
    ensures CanPlay(s, a + b) && Play(s, a + b) == Play(Play(s, a), b)
    decreases |a|
  {
    hide Enabled, After;
    if a == [] {
      assert a + b == b;
    } else {
      assert (a + b)[0] == a[0] && (a + b)[1..] == a[1..] + b;
      PlayAppends(After(s, a[0]), a[1..], b);
    }
  }

  // ---------- What every interleaving keeps ----------

  /** The lock has one holder, and the lengths their bounds. */
  ghost predicate Inv(s: State) {
    && s.lane <= CAPACITY && s.slots <= CLASSES
    && (forall a, b :: At(s, a, Tested) && At(s, b, Tested) ==> a == b)
  }

  lemma StepKeepsInv(s: State, step: Step)
    requires Inv(s) && Enabled(s, step)
    ensures Inv(After(s, step))
  {
    var s' := After(s, step);
    forall a | At(s', a, Tested)
      ensures At(s, a, Tested) || (step.Lock? && step.id == a)
    {
    }
  }

  lemma {:induction false} PlayKeepsInv(s: State, steps: seq<Step>)
    requires Inv(s) && CanPlay(s, steps)
    ensures Inv(Play(s, steps))
    decreases |steps|
  {
    hide Enabled, After, Inv;
    if steps != [] {
      StepKeepsInv(s, steps[0]);
      PlayKeepsInv(After(s, steps[0]), steps[1..]);
    }
  }

  // ---------- After the close ----------

  /** The receiver is gone and `id` sleeps, or holds the lock and will. */
  predicate Stranded(s: State, id: nat) {
    s.phase == Notified && (At(s, id, Tested) || At(s, id, Asleep))
  }

  predicate Heading(s: State, id: nat) {
    s.phase == Notified && (At(s, id, Entered) || At(s, id, Woken) || At(s, id, Gone))
  }

  lemma StepKeepsFate(s: State, step: Step, id: nat)
    requires Enabled(s, step)
    ensures Stranded(s, id) ==> Stranded(After(s, step), id)
    ensures Heading(s, id) ==> Heading(After(s, step), id)
  {
  }

  lemma {:induction false} PlayKeepsFate(s: State, steps: seq<Step>, id: nat)
    requires CanPlay(s, steps)
    ensures Stranded(s, id) ==> Stranded(Play(s, steps), id)
    ensures Heading(s, id) ==> Heading(Play(s, steps), id)
    decreases |steps|
  {
    hide Enabled, After, Stranded, Heading;
    if steps != [] {
      StepKeepsFate(s, steps[0], id);
      PlayKeepsFate(After(s, steps[0]), steps[1..], id);
    }
  }

  lemma NotifiedFate(s: State, id: nat)
    requires s.phase == Stored && id in s.senders
    ensures if s.senders[id].pc == Tested then Stranded(After(s, NotifyAll), id) else Heading(After(s, NotifyAll), id)
  {
  }

  /** Whatever happens from here on, the send of `id` can still be brought to its return. */
  ghost predicate AlwaysCanReturn(s: State, id: nat) {
    forall steps | CanPlay(s, steps) :: CanReturn(Play(s, steps), id)
  }

  ghost predicate CanReturn(s: State, id: nat) {
    exists more :: CanPlay(s, more) && At(Play(s, more), id, Gone)
  }

  function Fills(s: State): bool {
    s.slots < CLASSES
  }

  lemma HeadingCanReturn(s: State, id: nat)
    requires Inv(s) && Heading(s, id)
    ensures CanReturn(s, id)
  {
    if At(s, id, Gone) {
      assert CanPlay(s, []) && Play(s, []) == s;
    } else if LockIsFree(s) {
      LockReturns(s, id);
      PlayOne(s, Lock(id, Fills(s)));
    } else {
      var x :| At(s, x, Tested);
      var s1 := After(s, Sleep(x));
      PlayOne(s, Sleep(x));
      SleepFreesLock(s, x);
      StepKeepsFate(s, Sleep(x), id);
      LockReturns(s1, id);
      PlayOne(s1, Lock(id, Fills(s1)));
      PlayAppends(s, [Sleep(x)], [Lock(id, Fills(s1))]);
    }
  }

  lemma SleepFreesLock(s: State, x: nat)
    requires Inv(s) && At(s, x, Tested)
    ensures LockIsFree(After(s, Sleep(x)))
  {
    forall y
      ensures At(After(s, Sleep(x)), y, Tested) ==> At(s, y, Tested) && y != x
    {
    }
  }

  /** Once the receiver is gone, a sender returns as soon as it has the lock. */
  lemma LockReturns(s: State, id: nat)
    requires s.slots <= CLASSES && Heading(s, id) && !At(s, id, Gone) && LockIsFree(s)
    ensures Enabled(s, Lock(id, Fills(s))) && At(After(s, Lock(id, Fills(s))), id, Gone)
  {
  }

  /**
   After the receiver has been dropped a send can still return exactly if it was
   not between its look at the flag and its wait when the waiters were notified.
   */
  lemma ReturnsAfterCloseIff(s: State, id: nat)
    requires Inv(s) && s.phase == Stored && id in s.senders
    ensures AlwaysCanReturn(After(s, NotifyAll), id) <==> s.senders[id].pc != Tested
  {
    hide Inv, Stranded, Heading;
    var s1 := After(s, NotifyAll);
    NotifiedFate(s, id);
    StepKeepsInv(s, NotifyAll);
    hide After;
    if s.senders[id].pc != Tested {
      forall steps | CanPlay(s1, steps)
        ensures CanReturn(Play(s1, steps), id)
      {
        PlayKeepsInv(s1, steps);
        PlayKeepsFate(s1, steps, id);
        HeadingCanReturn(Play(s1, steps), id);
      }
    } else {
      NeverReturns(s1, id);
    }
  }

  lemma NeverReturns(s: State, id: nat)
    requires Stranded(s, id)
    ensures !AlwaysCanReturn(s, id)
  {
    assert CanPlay(s, []) && Play(s, []) == s;
    forall more | CanPlay(s, more)
      ensures !At(Play(s, more), id, Gone)
    {
      PlayKeepsFate(s, more, id);
    }
    assert !CanReturn(s, id);
  }

  /** Everybody returns exactly if nobody was. */
  lemma AllReturnAfterCloseIff(s: State)
    requires Inv(s) && s.phase == Stored
    ensures (forall id <- s.senders :: AlwaysCanReturn(After(s, NotifyAll), id)) <==> LockIsFree(s)
  {
    hide AlwaysCanReturn;
    assert forall id <- s.senders :: At(s, id, Tested) <==> s.senders[id].pc == Tested;
    forall id <- s.senders
      ensures AlwaysCanReturn(After(s, NotifyAll), id) <==> s.senders[id].pc != Tested
    {
      ReturnsAfterCloseIff(s, id);
    }
  }

  // ---------- Such a close is reached ----------

  ghost predicate Filled(s: State, n: nat) {
    s.lane == n && s.slots == 0 && s.phase == Open && forall id <- s.senders :: id < n && s.senders[id].pc == Gone
  }

  lemma {:induction false} FillLane(n: nat) returns (steps: seq<Step>)
    requires n <= CAPACITY
    ensures CanPlay(INITIAL, steps) && Filled(Play(INITIAL, steps), n)
  {
    steps := [];
    if n > 0 {
      steps := FillLane(n - 1);
      hide CanPlay, Play;
      var s := Play(INITIAL, steps);
      PlayOne(s, Enter(n - 1, Control));
      PlayOne(After(s, Enter(n - 1, Control)), Lock(n - 1, false));
      PlayAppends(s, [Enter(n - 1, Control)], [Lock(n - 1, false)]);
      PlayAppends(INITIAL, steps, [Enter(n - 1, Control)] + [Lock(n - 1, false)]);
      steps := steps + ([Enter(n - 1, Control)] + [Lock(n - 1, false)]);
    }
  }

  /**
   From an empty mailbox: a full lane, one more control between look and wait,
   the receiver is dropped, and the sender waits for good.
   */
  lemma SenderIsStranded() returns (steps: seq<Step>, id: nat)
    ensures CanPlay(INITIAL, steps)
    ensures At(Play(INITIAL, steps), id, Asleep) && Play(INITIAL, steps).phase == Notified
    ensures !AlwaysCanReturn(Play(INITIAL, steps), id)
  {
    var fill := FillLane(CAPACITY);
    id := CAPACITY;
    hide CanPlay, Play, AlwaysCanReturn;
    var s := Play(INITIAL, fill);
    var s1 := After(s, Enter(id, Control));
    var s2 := After(s1, Lock(id, false));
    var s3 := After(s2, Store);
    var s4 := After(s3, NotifyAll);
    PlayOne(s, Enter(id, Control));
    PlayOne(s1, Lock(id, false));
    PlayOne(s2, Store);
    PlayOne(s3, NotifyAll);
    PlayOne(s4, Sleep(id));
    PlayAppends(s3, [NotifyAll], [Sleep(id)]);
    PlayAppends(s2, [Store], [NotifyAll] + [Sleep(id)]);
    PlayAppends(s1, [Lock(id, false)], [Store] + ([NotifyAll] + [Sleep(id)]));
    var last := [Enter(id, Control)] + ([Lock(id, false)] + ([Store] + ([NotifyAll] + [Sleep(id)])));
    PlayAppends(s, [Enter(id, Control)], [Lock(id, false)] + ([Store] + ([NotifyAll] + [Sleep(id)])));
    PlayAppends(INITIAL, fill, last);
    steps := fill + last;
    NeverReturns(Play(INITIAL, steps), id);
  }
}
