/**
 Pressed rows of the HUD, `HudPressState` in crates/hotki-app/src/hud.rs.

 The cache remembers the last gesture of each key and forgets it when it can no
 longer be seen.  What a row shows is specified here over the whole history of
 key events, without any forgetting.
 */
module HudPress {
  import opened Wrappers
  import opened Keys

  type Instant = nat

  datatype Gesture = Gesture(downAt: Instant, held: bool)

  type Gestures = map<string, Gesture>

  datatype Row = Row(chord: Chord, stay: bool)

  /** `minimum` is a constant of the program, so it is a parameter of the whole history. */
  datatype Op =
    | Key(chord: Chord, pressed: bool, at: Instant)
    | Reconcile(rows: seq<Row>, visible: bool, hudMode: bool)
    | Expire(at: Instant)
    | Clear

  // ---------- The cache ----------

  function Applied(g: Gestures, key: string, pressed: bool, now: Instant): Gestures {
    if pressed then (if key in g && g[key].held then g else g[key := Gesture(now, true)])
    else if key in g then g[key := g[key].(held := false)]
    else g
  }

  predicate Listed(rows: seq<Row>, key: string) {
    exists row <- rows :: row.stay && Ident(row.chord) == key
  }

  predicate Showing(gesture: Gesture, now: Instant, minimum: nat) {
    gesture.held || now < gesture.downAt + minimum
  }

  function Updated(g: Gestures, op: Op, minimum: nat): Gestures {
    match op
    case Key(chord, pressed, at) => Applied(g, Ident(chord), pressed, at)
    case Reconcile(rows, visible, hudMode) =>
      if !visible || !hudMode then map[] else map key | key in g && Listed(rows, key) :: g[key]
    case Expire(at) => map key | key in g && Showing(g[key], at, minimum) :: g[key]
    case Clear => map[]
  }

  predicate Active(g: Gestures, chord: Chord, now: Instant, minimum: nat) {
    Ident(chord) in g && Showing(g[Ident(chord)], now, minimum)
  }

  /** A released gesture stops showing at its deadline. */
  predicate DeadlineAfter(g: Gestures, now: Instant, minimum: nat, d: Instant) {
    d > now && exists key <- g :: !g[key].held && g[key].downAt + minimum == d
  }

  class HudPressState {
    var gestures: Gestures

    constructor ()
      ensures gestures == map[]
    {
      gestures := map[];
    }

    method Apply(chord: Chord, pressed: bool, now: Instant)
      modifies this
      ensures gestures == Updated(old(gestures), Key(chord, pressed, now), 0)
    {
      var key := Ident(chord);
      if pressed {
        if key !in gestures {
          gestures := gestures[key := Gesture(now, true)];
        } else if !gestures[key].held {
          gestures := gestures[key := Gesture(now, true)];
        }
      } else if key in gestures {
        gestures := gestures[key := gestures[key].(held := false)];
      }
    }

    method ReconcileRows(rows: seq<Row>, visible: bool, hudMode: bool)
      modifies this
      ensures gestures == Updated(old(gestures), Reconcile(rows, visible, hudMode), 0)
    {
      if !visible || !hudMode {
        gestures := map[];
        return;
      }
      gestures := map key | key in gestures && Listed(rows, key) :: gestures[key];
    }

    method ExpireReleased(now: Instant, minimum: nat)
      modifies this
      ensures gestures == Updated(old(gestures), Expire(now), minimum)
    {
      gestures := map key | key in gestures && Showing(gestures[key], now, minimum) :: gestures[key];
    }

    function IsActive(chord: Chord, now: Instant, minimum: nat): bool
      reads this
    {
      Active(gestures, chord, now, minimum)
    }

    /** The least deadline still to come. */
    method NextDeadline(now: Instant, minimum: nat) returns (next: Option<Instant>)
      ensures IsNextDeadline(gestures, now, minimum, next)
    {
      next := None;
      var keys, seen := gestures.Keys, {};
      while keys != {}
        invariant keys <= gestures.Keys && seen == gestures.Keys - keys
        invariant next.Some? ==> DeadlineAfter(gestures, now, minimum, next.value)
        invariant forall key <- seen :: !gestures[key].held && gestures[key].downAt + minimum > now
                    ==> next.Some? && next.value <= gestures[key].downAt + minimum
      {
        var key :| key in keys;
        keys, seen := keys - {key}, seen + {key};
        var gesture := gestures[key];
        var deadline := gesture.downAt + minimum;
        if !gesture.held && deadline > now && (next.None? || deadline < next.value) {
          next := Some(deadline);
        }
      }
    }
  }

  /** The cache after the first `n` operations of a history. */
  function Cache(ops: seq<Op>, n: nat, minimum: nat): Gestures
    requires n <= |ops|
  {
    if n == 0 then map[] else Updated(Cache(ops, n - 1, minimum), ops[n - 1], minimum)
  }

  // ---------- What a row should show ----------

  predicate Presses(op: Op, key: string) {
    op.Key? && op.pressed && Ident(op.chord) == key
  }

  /** The HUD no longer has a row for the key. */
  predicate Purges(op: Op, key: string) {
    match op
    case Reconcile(rows, visible, hudMode) =>
      !visible || !hudMode || forall row <- rows :: row.stay ==> row.chord.spec != key
    case Clear => true
    case _ => false
  }

  predicate Ends(op: Op, key: string) {
    Purges(op, key) || (op.Key? && !op.pressed && Ident(op.chord) == key)
  }

  /** The key was pressed and neither released nor purged since. */
  ghost predicate HeldAt(ops: seq<Op>, n: nat, key: string)
    requires n <= |ops|
  {
    exists i :: 0 <= i < n && Presses(ops[i], key) && forall j | i < j < n :: !Ends(ops[j], key)
  }

  /** Operation `i` starts a gesture, and the row has been there ever since. */
  ghost predicate Started(ops: seq<Op>, n: nat, key: string, i: nat)
    requires n <= |ops|
  {
    i < n && Presses(ops[i], key) && !HeldAt(ops, i, key) && forall j | i < j < n :: !Purges(ops[j], key)
  }

  /** A row shows as pressed while its key is held, and for `minimum` after a gesture started. */
  ghost predicate ShouldShow(ops: seq<Op>, n: nat, key: string, now: Instant, minimum: nat)
    requires n <= |ops|
  {
    HeldAt(ops, n, key) || exists i: nat :: Started(ops, n, key, i) && now < ops[i].at + minimum
  }

  predicate Timed(op: Op) {
    op.Key? || op.Expire?
  }

  /** Time does not run backwards, and has not passed `now`. */
  ghost predicate OrderedUntil(ops: seq<Op>, n: nat, now: Instant)
    requires n <= |ops|
  {
    && (forall i, j | 0 <= i < j < n && Timed(ops[i]) && Timed(ops[j]) :: ops[i].at <= ops[j].at)
    && (forall i | 0 <= i < n && Timed(ops[i]) :: ops[i].at <= now)
  }

  // ---------- The cache agrees ----------

  lemma HeldStep(ops: seq<Op>, n: nat, key: string)
    requires n < |ops|
    ensures HeldAt(ops, n + 1, key) <==> Presses(ops[n], key) || (HeldAt(ops, n, key) && !Ends(ops[n], key))
  {
  }

  lemma StartedStep(ops: seq<Op>, n: nat, key: string, i: nat)
    requires n < |ops|
    ensures Started(ops, n + 1, key, i)
       <==> if i == n then Presses(ops[n], key) && !HeldAt(ops, n, key)
            else Started(ops, n, key, i) && !Purges(ops[n], key)
  {
  }

  /** What the cache holds for a key, and what it may have forgotten. */
  ghost predicate Agrees(ops: seq<Op>, n: nat, key: string, now: Instant, minimum: nat)
    requires n <= |ops|
  {
    var g := Cache(ops, n, minimum);
    if key in g then
      && g[key].held == HeldAt(ops, n, key)
      && (exists i: nat :: Started(ops, n, key, i) && ops[i].at == g[key].downAt)
      && (forall i: nat | Started(ops, n, key, i) :: ops[i].at <= g[key].downAt)
    else
      && !HeldAt(ops, n, key)
      && (forall i: nat | Started(ops, n, key, i) :: ops[i].at + minimum <= now)
  }

  function TimeBefore(op: Op, now: Instant): Instant {
    if Timed(op) then op.at else now
  }

  lemma OrderedBefore(ops: seq<Op>, n: nat, now: Instant)
    requires n < |ops| && OrderedUntil(ops, n + 1, now)
    ensures OrderedUntil(ops, n, TimeBefore(ops[n], now)) && TimeBefore(ops[n], now) <= now
  {
  }

  lemma NothingAgrees(ops: seq<Op>, key: string, now: Instant, minimum: nat)
    ensures Agrees(ops, 0, key, now, minimum)
  {
  }

  lemma {:induction false} CacheAgrees(ops: seq<Op>, n: nat, key: string, now: Instant, minimum: nat)
    requires n <= |ops| && OrderedUntil(ops, n, now)
    ensures Agrees(ops, n, key, now, minimum)
    decreases n
  {
    hide HeldAt, Started, Agrees, OrderedUntil, Ends, Presses, Purges;
    if n == 0 {
      NothingAgrees(ops, key, now, minimum);
    } else {
      OrderedBefore(ops, n - 1, now);
      CacheAgrees(ops, n - 1, key, TimeBefore(ops[n - 1], now), minimum);
      HeldStep(ops, n - 1, key);
      forall i: nat
        ensures Started(ops, n, key, i)
           <==> if i == n - 1 then Presses(ops[n - 1], key) && !HeldAt(ops, n - 1, key)
                else Started(ops, n - 1, key, i) && !Purges(ops[n - 1], key)
      {
        StartedStep(ops, n - 1, key, i);
      }
      OneMoreAgrees(ops, n - 1, key, TimeBefore(ops[n - 1], now), now, minimum);
    }
  }

  lemma OneMoreAgrees(ops: seq<Op>, n: nat, key: string, before: Instant, now: Instant, minimum: nat)
    requires n < |ops| && OrderedUntil(ops, n + 1, now) && before <= now && OrderedUntil(ops, n, before)
    requires Timed(ops[n]) ==> before == ops[n].at
    requires Agrees(ops, n, key, before, minimum)
    requires HeldAt(ops, n + 1, key) <==> Presses(ops[n], key) || (HeldAt(ops, n, key) && !Ends(ops[n], key))
    requires forall i: nat :: Started(ops, n + 1, key, i)
               <==> if i == n then Presses(ops[n], key) && !HeldAt(ops, n, key)
                    else Started(ops, n, key, i) && !Purges(ops[n], key)
    ensures Agrees(ops, n + 1, key, now, minimum)
  {
    hide HeldAt;
    var g, g' := Cache(ops, n, minimum), Cache(ops, n + 1, minimum);
    if key in g' && key in g && g'[key].downAt == g[key].downAt {
      var i: nat :| Started(ops, n, key, i) && ops[i].at == g[key].downAt;
      assert Started(ops, n + 1, key, i);
    } else if key in g' {
      assert Started(ops, n + 1, key, n);
    }
  }

  /**
   For times that never decrease and a fixed minimum, a row is active exactly
   when the history of its key says so.  Expiring is part of the run but not of
   that history: it is never seen.
   */
  lemma ActiveMatchesHistory(ops: seq<Op>, chord: Chord, now: Instant, minimum: nat)
    requires OrderedUntil(ops, |ops|, now)
    ensures Active(Cache(ops, |ops|, minimum), chord, now, minimum)
       <==> ShouldShow(ops, |ops|, Ident(chord), now, minimum)
  {
    hide HeldAt, Started;
    CacheAgrees(ops, |ops|, Ident(chord), now, minimum);
  }

  /** Expiring changes no answer from its own time on. */
  lemma ExpireIsUnseen(g: Gestures, chord: Chord, now: Instant, later: Instant, minimum: nat)
    requires now <= later
    ensures Active(Updated(g, Expire(now), minimum), chord, later, minimum) == Active(g, chord, later, minimum)
  {
  }

  /** `less` has forgotten at most a gesture of `key` that ended showing by `at`. */
  ghost predicate Forgot(less: Gestures, more: Gestures, key: string, at: Instant, minimum: nat) {
    if key in less then key in more && more[key] == less[key]
    else key in more ==> !Showing(more[key], at, minimum)
  }

  lemma ForgetfulStep(less: Gestures, more: Gestures, key: string, at: Instant, minimum: nat, op: Op)
    requires Forgot(less, more, key, at, minimum) && (Timed(op) ==> at <= op.at)
    ensures Forgot(Updated(less, op, minimum), Updated(more, op, minimum), key, at, minimum)
  {
  }

  lemma {:induction false} SamePrefixSameCache(a: seq<Op>, b: seq<Op>, n: nat, minimum: nat)
    requires n <= |a| && n <= |b| && a[..n] == b[..n]
    ensures Cache(a, n, minimum) == Cache(b, n, minimum)
  {
    if n > 0 {
      assert a[..n - 1] == a[..n][..n - 1] && b[..n - 1] == b[..n][..n - 1];
      assert a[n - 1] == a[..n][n - 1] && b[n - 1] == b[..n][n - 1];
      SamePrefixSameCache(a, b, n - 1, minimum);
    }
  }

  lemma {:induction false} ForgetfulRun(a: seq<Op>, at: Instant, b: seq<Op>, n: nat, key: string, minimum: nat)
    requires n <= |b| && forall i | 0 <= i < n && Timed(b[i]) :: at <= b[i].at
    ensures Forgot(Cache(a + [Expire(at)] + b, |a| + 1 + n, minimum), Cache(a + b, |a| + n, minimum), key, at, minimum)
    decreases n
  {
    var less, more := a + [Expire(at)] + b, a + b;
    if n == 0 {
      assert less[..|a|] == a && more[..|a|] == a;
      SamePrefixSameCache(less, more, |a|, minimum);
      assert less[|a|] == Expire(at);
    } else {
      ForgetfulRun(a, at, b, n - 1, key, minimum);
      assert less[|a| + n] == b[n - 1] && more[|a| + n - 1] == b[n - 1];
      ForgetfulStep(Cache(less, |a| + n, minimum), Cache(more, |a| + n - 1, minimum), key, at, minimum, b[n - 1]);
    }
  }

  /** Nor does expiring, anywhere in a history, change an answer after that history. */
  lemma HistoriesWithoutExpireAgree(a: seq<Op>, at: Instant, b: seq<Op>, chord: Chord, now: Instant, minimum: nat)
    requires at <= now && forall i | 0 <= i < |b| && Timed(b[i]) :: at <= b[i].at
    ensures Active(Cache(a + [Expire(at)] + b, |a| + 1 + |b|, minimum), chord, now, minimum)
         == Active(Cache(a + b, |a| + |b|, minimum), chord, now, minimum)
  {
    ForgetfulRun(a, at, b, |b|, Ident(chord), minimum);
  }

  // ---------- The next deadline ----------

  ghost predicate IsNextDeadline(g: Gestures, now: Instant, minimum: nat, next: Option<Instant>) {
    && (next.Some? ==> DeadlineAfter(g, now, minimum, next.value))
    && (forall d :: DeadlineAfter(g, now, minimum, d) ==> next.Some? && next.value <= d)
  }

  /** Up to the next deadline no answer changes. */
  lemma NothingFlipsBefore(g: Gestures, now: Instant, minimum: nat, next: Option<Instant>, chord: Chord, t: Instant)
    requires IsNextDeadline(g, now, minimum, next)
    requires now <= t && (next.Some? ==> t < next.value)
    ensures Active(g, chord, t, minimum) == Active(g, chord, now, minimum)
  {
    var key := Ident(chord);
    if key in g && !g[key].held && g[key].downAt + minimum > now {
      assert DeadlineAfter(g, now, minimum, g[key].downAt + minimum);
    }
  }

  /** At the next deadline one does: some key that shows until then stops showing. */
  lemma SomethingFlipsAt(g: Gestures, now: Instant, minimum: nat, next: Option<Instant>)
    requires IsNextDeadline(g, now, minimum, next) && next.Some?
    ensures exists key :: key in g && Active(g, Chord(key), now, minimum)
                       && Active(g, Chord(key), next.value - 1, minimum)
                       && !Active(g, Chord(key), next.value, minimum)
  {
    var key :| key in g && !g[key].held && g[key].downAt + minimum == next.value;
    assert Ident(Chord(key)) == key;
    assert Active(g, Chord(key), now, minimum);
  }
}
