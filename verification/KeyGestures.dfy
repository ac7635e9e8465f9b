/**
 Key gestures, crates/hotki-engine/src/dispatch.rs and key_state.rs: which
 binding a key event belongs to while bindings come and go under held keys, and
 which HUD key messages it causes.

 Events are dispatched one after the other.
 */
module KeyGestures {
  import opened Wrappers
  import opened Keys
  import opened KeyBinding

  datatype Held = Held(ident: string, chord: Chord)

  datatype KeyState = KeyState(chord: Chord, repeatAllowed: bool, pressNotified: bool)

  /** A `HudKeyState` message, with the identifier it was sent for. */
  datatype KeyMsg = KeyMsg(ident: string, chord: Chord, pressed: bool)

  type Tracker = map<string, KeyState>

  // ---------- The tracker ----------

  function TrackedDown(t: Tracker, ident: string, chord: Chord): Tracker {
    if ident in t then t else t[ident := KeyState(chord, false, false)]
  }

  function TrackedNotified(t: Tracker, ident: string): Tracker {
    if ident in t then t[ident := t[ident].(pressNotified := true)] else t
  }

  function TrackedRepeat(t: Tracker, ident: string, allowed: bool): Tracker {
    if ident in t then t[ident := t[ident].(repeatAllowed := allowed)] else t
  }

  function HeldChord(t: Tracker, ident: string): Option<Chord> {
    if ident in t then Some(t[ident].chord) else None
  }

  class KeyStateTracker {
    var states: Tracker

    constructor ()
      ensures states == map[]
    {
      states := map[];
    }

    /** False for a second down of a key that is already held. */
    method OnKeyDown(ident: string, chord: Chord) returns (initial: bool)
      modifies this
      ensures states == TrackedDown(old(states), ident, chord) && initial == (ident !in old(states))
    {
      initial := ident !in states;
      if initial {
        states := states[ident := KeyState(chord, false, false)];
      }
    }

    method OnKeyUp(ident: string) returns (released: Option<KeyState>)
      modifies this
      ensures states == old(states) - {ident}
      ensures released == if ident in old(states) then Some(old(states)[ident]) else None
    {
      released := if ident in states then Some(states[ident]) else None;
      states := states - {ident};
    }

    method MarkPressNotified(ident: string)
      modifies this
      ensures states == TrackedNotified(old(states), ident)
    {
      if ident in states {
        states := states[ident := states[ident].(pressNotified := true)];
      }
    }

    method SetRepeatAllowed(ident: string, allowed: bool)
      modifies this
      ensures states == TrackedRepeat(old(states), ident, allowed)
    {
      if ident in states {
        states := states[ident := states[ident].(repeatAllowed := allowed)];
      }
    }
  }

  // ---------- Dispatch ----------

  /** What the binding manager knows at the moment. */
  datatype Registry = Registry(bindings: Bindings, idents: map<Id, string>)

  /** `messages` are those that entered the UI channel; `repeats` the OS repeats acted on. */
  datatype State = State(
    registry: Registry, held: map<Id, Held>, tracker: Tracker, closed: bool,
    messages: seq<KeyMsg>, repeats: seq<string>)

  datatype Kind = KeyDown | KeyUp

  /**
   What a key-down meets on its way: whether an open selector takes it, whether
   the row it names wants press feedback, and whether the UI channel has room.
   */
  datatype Scene = Scene(selector: bool, feedback: bool, room: bool)

  datatype Step =
    | Dispatch(id: Id, kind: Kind, repeat: bool, scene: Scene)
    | DispatchInjected(ident: string, kind: Kind, repeat: bool, scene: Scene)
    | Rebind(registry: Registry)
    | ForbidRepeat(ident: string)
    | CloseUi

  const INITIAL := State(Registry(map[], map[]), map[], map[], false, [], [])

  function Resolved(r: Registry, id: Id): Option<Held> {
    match Resolution(r.bindings, r.idents, id)
    case None => None
    case Some((ident, chord)) => Some(Held(ident, chord))
  }

  function HeldFor(s: State, id: Id): Option<Held> {
    if id in s.held then Some(s.held[id]) else None
  }

  function OrElse<T>(a: Option<T>, b: Option<T>): Option<T> {
    if a.Some? then a else b
  }

  /** The binding an event belongs to: a release or repeat prefers the one its press was given. */
  function Target(s: State, id: Id, kind: Kind, repeat: bool): Option<Held> {
    if kind.KeyUp? || repeat then OrElse(HeldFor(s, id), Resolved(s.registry, id)) else Resolved(s.registry, id)
  }

  function HeldAfter(s: State, id: Id, kind: Kind, repeat: bool): map<Id, Held> {
    var target := Target(s, id, kind, repeat);
    if kind.KeyUp? then s.held - {id}
    else if target.Some? then s.held[id := target.value]
    else s.held
  }

  /** `dispatch_resolved`. */
  function Handled(s: State, ident: string, chord: Chord, kind: Kind, repeat: bool, scene: Scene): State {
    if kind.KeyUp? then
      var notify := ident in s.tracker && s.tracker[ident].pressNotified && !s.closed;
      s.(tracker := s.tracker - {ident},
         messages := s.messages + if notify then [KeyMsg(ident, s.tracker[ident].chord, false)] else [])
    else if repeat then
      if !scene.selector && ident in s.tracker && s.tracker[ident].repeatAllowed
      then s.(repeats := s.repeats + [ident]) else s
    else
      var press := ident !in s.tracker && !scene.selector && scene.feedback && scene.room && !s.closed;
      var tracked := TrackedDown(s.tracker, ident, chord);
      s.(tracker := if press then TrackedNotified(tracked, ident) else tracked,
         messages := s.messages + if press then [KeyMsg(ident, chord, true)] else [])
  }

  function After(s: State, step: Step): State {
    match step
    case Dispatch(id, kind, repeat, scene) =>
      var target := Target(s, id, kind, repeat);
      if target.None? then s
      else Handled(s.(held := HeldAfter(s, id, kind, repeat)), target.value.ident, target.value.chord,
                   kind, repeat, scene)
    case DispatchInjected(ident, kind, repeat, scene) =>
      var retained := if kind.KeyUp? || repeat then HeldChord(s.tracker, ident) else None;
      var bound := if ident in s.registry.bindings then Some(s.registry.bindings[ident].chord) else None;
      var chord := OrElse(retained, bound);
      if chord.None? then s else Handled(s, ident, chord.value, kind, repeat, scene)
    case Rebind(registry) => s.(registry := registry)
    case ForbidRepeat(ident) => s.(tracker := TrackedRepeat(s.tracker, ident, false))
    case CloseUi => s.(closed := true)
  }

  class Dispatcher {
    var registry: Registry
    var held: map<Id, Held>
    const tracker: KeyStateTracker
    var closed: bool
    ghost var messages: seq<KeyMsg>
    ghost var repeats: seq<string>

    ghost function Value(): State
      reads this, tracker
    {
      State(registry, held, tracker.states, closed, messages, repeats)
    }

    constructor ()
      ensures Value() == INITIAL && fresh(tracker)
    {
      registry, held, closed := Registry(map[], map[]), map[], false;
      messages, repeats := [], [];
      tracker := new KeyStateTracker();
    }

    /** `resolve_dispatch_binding`. */
    method ResolveDispatchBinding(id: Id, kind: Kind, repeat: bool) returns (r: Option<Held>)
      modifies this`held
      ensures r == Target(old(Value()), id, kind, repeat) && held == HeldAfter(old(Value()), id, kind, repeat)
    {
      match kind {
        case KeyUp =>
          if id in held {
            r := Some(held[id]);
            held := held - {id};
            return;
          }
        case KeyDown =>
          if repeat && id in held {
            return Some(held[id]);
          }
      }
      match Resolution(registry.bindings, registry.idents, id) {
        case None => return None;
        case Some((ident, chord)) =>
          r := Some(Held(ident, chord));
          if kind.KeyDown? {
            held := held[id := Held(ident, chord)];
          }
      }
    }

    method DispatchResolved(ident: string, chord: Chord, kind: Kind, repeat: bool, scene: Scene)
      modifies this`messages, this`repeats, tracker
      ensures Value() == Handled(old(Value()), ident, chord, kind, repeat, scene)
    {
      match kind {
        case KeyDown =>
          if repeat {
            if scene.selector {
              return;
            }
            if ident in tracker.states && tracker.states[ident].repeatAllowed {
              repeats := repeats + [ident];
            }
            return;
          }
          var initial := tracker.OnKeyDown(ident, chord);
          if !scene.selector && initial && scene.feedback && scene.room && !closed {
            messages := messages + [KeyMsg(ident, chord, true)];
            tracker.MarkPressNotified(ident);
          }
        case KeyUp =>
          var released := tracker.OnKeyUp(ident);
          if released.Some? && released.value.pressNotified && !closed {
            messages := messages + [KeyMsg(ident, released.value.chord, false)];
          }
      }
    }

    method DispatchId(id: Id, kind: Kind, repeat: bool, scene: Scene)
      modifies this`held, this`messages, this`repeats, tracker
      ensures Value() == After(old(Value()), Dispatch(id, kind, repeat, scene))
    {
      var target := ResolveDispatchBinding(id, kind, repeat);
      if target.Some? {
        DispatchResolved(target.value.ident, target.value.chord, kind, repeat, scene);
      }
    }

    method DispatchIdent(ident: string, kind: Kind, repeat: bool, scene: Scene) returns (known: bool)
      modifies this`messages, this`repeats, tracker
      ensures Value() == After(old(Value()), DispatchInjected(ident, kind, repeat, scene))
      ensures known == (ident in registry.bindings
                        || ((kind.KeyUp? || repeat) && ident in old(tracker.states)))
    {
      var chord: Option<Chord> := None;
      if kind.KeyUp? || repeat {
        chord := HeldChord(tracker.states, ident);
      }
      if chord.None? && ident in registry.bindings {
        chord := Some(registry.bindings[ident].chord);
      }
      if chord.None? {
        return false;
      }
      DispatchResolved(ident, chord.value, kind, repeat, scene);
      return true;
    }
  }

  // ---------- Runs ----------

  ghost predicate IsRun(states: seq<State>, steps: seq<Step>) {
    && |states| == |steps| + 1 && states[0] == INITIAL
    && forall i | 0 <= i < |steps| :: states[i + 1] == After(states[i], steps[i])
  }

  // ---------- Messages alternate ----------

  /** The messages of one identifier. */
  function Of(messages: seq<KeyMsg>, ident: string): seq<KeyMsg> {
    if messages == [] then []
    else
      var last := messages[|messages| - 1];
      Of(messages[..|messages| - 1], ident) + if last.ident == ident then [last] else []
  }

  /** Press, release, press, release; each release with the chord of its press. */
  ghost predicate Alternates(ms: seq<KeyMsg>) {
    && (forall k | 0 <= k < |ms| :: ms[k].pressed == (k % 2 == 0))
    && (forall k | 0 < k < |ms| && k % 2 == 1 :: ms[k].chord == ms[k - 1].chord)
  }

  /** A press is outstanding exactly for the held keys that are marked so, with the chord they hold. */
  ghost predicate Matches(s: State, ident: string) {
    var ms := Of(s.messages, ident);
    && Alternates(ms)
    && (!s.closed ==>
          if ident in s.tracker && s.tracker[ident].pressNotified
          then |ms| % 2 == 1 && ms[|ms| - 1].chord == s.tracker[ident].chord
          else |ms| % 2 == 0)
  }

  lemma OfOneMore(messages: seq<KeyMsg>, m: KeyMsg, ident: string)
    ensures Of(messages + [m], ident) == Of(messages, ident) + if m.ident == ident then [m] else []
  {
    assert (messages + [m])[..|messages|] == messages;
  }

  lemma OneMoreAlternates(ms: seq<KeyMsg>, m: KeyMsg)
    requires Alternates(ms) && m.pressed == (|ms| % 2 == 0)
    requires |ms| % 2 == 1 ==> m.chord == ms[|ms| - 1].chord
    ensures Alternates(ms + [m])
  {
  }

  lemma HandledKeepsMatches(s: State, ident: string, chord: Chord, kind: Kind, repeat: bool, scene: Scene, i: string)
    requires Matches(s, i)
    ensures Matches(Handled(s, ident, chord, kind, repeat, scene), i)
  {
    hide Alternates, Of;
    var s' := Handled(s, ident, chord, kind, repeat, scene);
    if |s'.messages| > |s.messages| {
      var m := s'.messages[|s.messages|];
      assert s'.messages == s.messages + [m];
      OfOneMore(s.messages, m, i);
      if m.ident == i {
        OneMoreAlternates(Of(s.messages, i), m);
      } else {
        assert Of(s'.messages, i) == Of(s.messages, i);
      }
    } else {
      assert s'.messages == s.messages;
    }
  }

  lemma StepKeepsMatches(s: State, step: Step, i: string)
    requires Matches(s, i)
    ensures Matches(After(s, step), i)
  {
    hide Handled, Alternates, Of;
    match step {
      case Dispatch(id, kind, repeat, scene) =>
        var target := Target(s, id, kind, repeat);
        if target.Some? {
          HandledKeepsMatches(s.(held := HeldAfter(s, id, kind, repeat)), target.value.ident, target.value.chord,
                              kind, repeat, scene, i);
        }
      case DispatchInjected(ident, kind, repeat, scene) =>
        var retained := if kind.KeyUp? || repeat then HeldChord(s.tracker, ident) else None;
        var bound := if ident in s.registry.bindings then Some(s.registry.bindings[ident].chord) else None;
        var chord := OrElse(retained, bound);
        if chord.Some? {
          HandledKeepsMatches(s, ident, chord.value, kind, repeat, scene, i);
        }
      case _ =>
    }
  }

  /**
   Over every run, the HUD key messages of an identifier are press, release,
   press, release, each pair with one chord; as long as the UI is there, a press
   without its release means that the key is still held.
   */
  lemma {:induction false} MessagesAlternate(states: seq<State>, steps: seq<Step>, n: nat, ident: string)
    requires IsRun(states, steps) && n < |states|
    ensures Matches(states[n], ident)
    decreases n
  {
    hide After;
    if n > 0 {
      MessagesAlternate(states, steps, n - 1, ident);
      StepKeepsMatches(states[n - 1], steps[n - 1], ident);
    }
  }

  // ---------- Which messages a run sends ----------

  /** `id` is registered for `ident` now. */
  predicate BoundTo(r: Registry, id: Id, ident: string) {
    id in r.idents && r.idents[id] == ident && ident in r.bindings
  }

  /** The step is a press of `ident`: a key-down, and no repeat, of what is bound to it now. */
  predicate Presses(s: State, step: Step, ident: string) {
    match step
    case Dispatch(id, kind, repeat, _) => kind.KeyDown? && !repeat && BoundTo(s.registry, id, ident)
    case DispatchInjected(name, kind, repeat, _) =>
      kind.KeyDown? && !repeat && name == ident && ident in s.registry.bindings
    case _ => false
  }

  /** The step is a key-up of `ident`: of the key that is kept for the id, or else of what is bound to it now. */
  predicate Lifts(s: State, step: Step, ident: string) {
    match step
    case Dispatch(id, kind, _, _) =>
      kind.KeyUp? && if id in s.held then s.held[id].ident == ident else BoundTo(s.registry, id, ident)
    case DispatchInjected(name, kind, _, _) => kind.KeyUp? && name == ident
    case _ => false
  }

  /** The press that holds `ident` down before step `n`: the first one since it was last lifted. */
  ghost function Start(states: seq<State>, steps: seq<Step>, n: nat, ident: string): Option<nat>
    requires n <= |steps| < |states|
    decreases n
  {
    if n == 0 then None
    else
      var before := Start(states, steps, n - 1, ident);
      if Lifts(states[n - 1], steps[n - 1], ident) then None
      else if before.None? && Presses(states[n - 1], steps[n - 1], ident) then Some(n - 1)
      else before
  }

  ghost predicate ClosedBefore(steps: seq<Step>, n: nat)
    requires n <= |steps|
  {
    exists i | 0 <= i < n :: steps[i].CloseUi?
  }

  /** The scene of a press calls for a message, and there is room for it. */
  predicate CallsForMessage(step: Step) {
    && (step.Dispatch? || step.DispatchInjected?)
    && !step.scene.selector && step.scene.feedback && step.scene.room
  }

  /** Step `n` starts holding `ident` down and the HUD hears of it. */
  ghost predicate Heard(states: seq<State>, steps: seq<Step>, n: nat, ident: string)
    requires n < |steps| < |states|
  {
    && Presses(states[n], steps[n], ident) && Start(states, steps, n, ident).None?
    && CallsForMessage(steps[n]) && !ClosedBefore(steps, n)
  }

  /** The chord that step `n` presses. */
  ghost function PressedChord(states: seq<State>, steps: seq<Step>, n: nat, ident: string): Chord
    requires n < |steps| < |states| && Presses(states[n], steps[n], ident)
  {
    states[n].registry.bindings[ident].chord
  }

  /** Step `n` owes the HUD the message `m`. */
  ghost predicate Owed(states: seq<State>, steps: seq<Step>, n: nat, m: KeyMsg)
    requires n < |steps| < |states|
  {
    if m.pressed then
      Heard(states, steps, n, m.ident) && m.chord == PressedChord(states, steps, n, m.ident)
    else
      && Lifts(states[n], steps[n], m.ident) && !ClosedBefore(steps, n)
      && var start := Start(states, steps, n, m.ident);
         && start.Some? && start.value < n && Heard(states, steps, start.value, m.ident)
         && m.chord == PressedChord(states, steps, start.value, m.ident)
  }

  lemma HandledTracks(s: State, ident: string, chord: Chord, kind: Kind, repeat: bool, scene: Scene, i: string)
    ensures var t, t' := s.tracker, Handled(s, ident, chord, kind, repeat, scene).tracker;
            if i != ident || (kind.KeyDown? && repeat) then (i in t' <==> i in t) && (i in t ==> t'[i] == t[i])
            else if kind.KeyUp? then i !in t'
            else
              && i in t' && t'[i].chord == (if i in t then t[i].chord else chord)
              && (t'[i].pressNotified <==>
                    if i in t then t[i].pressNotified
                    else !scene.selector && scene.feedback && scene.room && !s.closed)
  {
  }

  /** What one step does to what is known of `ident`. */
  lemma StepTracks(s: State, step: Step, ident: string)
    ensures var t, t' := s.tracker, After(s, step).tracker;
            if Lifts(s, step, ident) then ident !in t'
            else if ident in t then
              ident in t' && t'[ident].chord == t[ident].chord && t'[ident].pressNotified == t[ident].pressNotified
            else if Presses(s, step, ident) then
              && ident in t' && t'[ident].chord == s.registry.bindings[ident].chord
              && (t'[ident].pressNotified <==> CallsForMessage(step) && !s.closed)
            else ident !in t'
  {
    hide Handled;
    match step {
      case Dispatch(id, kind, repeat, scene) =>
        var target := Target(s, id, kind, repeat);
        if target.Some? {
          HandledTracks(s.(held := HeldAfter(s, id, kind, repeat)), target.value.ident, target.value.chord, kind,
                        repeat, scene, ident);
        }
      case DispatchInjected(name, kind, repeat, scene) =>
        var bound := if name in s.registry.bindings then Some(s.registry.bindings[name].chord) else None;
        var chord := OrElse(if kind.KeyUp? || repeat then HeldChord(s.tracker, name) else None, bound);
        if chord.Some? {
          HandledTracks(s, name, chord.value, kind, repeat, scene, ident);
        }
      case _ =>
    }
  }

  /** The message that handling an event sends. */
  lemma HandledSends(s: State, ident: string, chord: Chord, kind: Kind, repeat: bool, scene: Scene, m: KeyMsg)
    ensures var t, sent := s.tracker, Handled(s, ident, chord, kind, repeat, scene).messages;
            && (sent == s.messages + [m]
                <==> !s.closed && m.ident == ident
                     && if m.pressed then
                          && kind.KeyDown? && !repeat && ident !in t && m.chord == chord
                          && !scene.selector && scene.feedback && scene.room
                        else kind.KeyUp? && ident in t && t[ident].pressNotified && m.chord == t[ident].chord)
            && (sent == s.messages || exists m' :: sent == s.messages + [m'])
  {
    var sent := Handled(s, ident, chord, kind, repeat, scene).messages;
    if |sent| > |s.messages| {
      assert sent == s.messages + [sent[|s.messages|]];
      assert sent == s.messages + [m] ==> sent[|s.messages|] == m;
    } else {
      assert sent == s.messages;
    }
  }

  /** The message that one step sends, and that it sends no other. */
  lemma StepSends(s: State, step: Step, m: KeyMsg)
    ensures var t, sent := s.tracker, After(s, step).messages;
            && (sent == s.messages + [m]
                <==> !s.closed
                     && if m.pressed then
                          && Presses(s, step, m.ident) && m.ident !in t && CallsForMessage(step)
                          && m.chord == s.registry.bindings[m.ident].chord
                        else
                          && Lifts(s, step, m.ident) && m.ident in t && t[m.ident].pressNotified
                          && m.chord == t[m.ident].chord)
            && (sent == s.messages || exists m' :: sent == s.messages + [m'])
  {
    hide Handled;
    match step {
      case Dispatch(id, kind, repeat, scene) =>
        var target := Target(s, id, kind, repeat);
        if target.Some? {
          HandledSends(s.(held := HeldAfter(s, id, kind, repeat)), target.value.ident, target.value.chord, kind,
                       repeat, scene, m);
        }
      case DispatchInjected(name, kind, repeat, scene) =>
        var bound := if name in s.registry.bindings then Some(s.registry.bindings[name].chord) else None;
        var chord := OrElse(if kind.KeyUp? || repeat then HeldChord(s.tracker, name) else None, bound);
        if chord.Some? {
          HandledSends(s, name, chord.value, kind, repeat, scene, m);
        }
      case _ =>
    }
  }

  /** The tracker knows of a key exactly what the steps say. */
  ghost predicate Tracks(states: seq<State>, steps: seq<Step>, n: nat, ident: string)
    requires n <= |steps| < |states|
  {
    var t, start := states[n].tracker, Start(states, steps, n, ident);
    && (states[n].closed <==> ClosedBefore(steps, n))
    && (ident in t <==> start.Some?)
    && (start.Some? ==>
          && start.value < n && Presses(states[start.value], steps[start.value], ident)
          && t[ident].chord == PressedChord(states, steps, start.value, ident)
          && (t[ident].pressNotified <==> Heard(states, steps, start.value, ident)))
  }

  lemma {:induction false} TrackerIsHistory(states: seq<State>, steps: seq<Step>, n: nat, ident: string)
    requires IsRun(states, steps) && n <= |steps|
    ensures Tracks(states, steps, n, ident)
    decreases n
  {
    hide After, Presses, Lifts;
    if n > 0 {
      TrackerIsHistory(states, steps, n - 1, ident);
      StepTracks(states[n - 1], steps[n - 1], ident);
      StepCloses(states[n - 1], steps[n - 1]);
    }
  }

  lemma StepCloses(s: State, step: Step)
    ensures After(s, step).closed <==> s.closed || step.CloseUi?
  {
  }

  /**
   The HUD key messages of a run are those its steps owe, and no others: a press
   with its chord at each key-down that finds the key up, wants feedback, is not
   taken by a selector and finds room and the UI open; a release with the chord
   of that press at the first key-up after it, if the UI is still open.
   */
  lemma MessagesAreOwed(states: seq<State>, steps: seq<Step>, n: nat)
    requires IsRun(states, steps) && n < |steps|
    ensures forall m :: states[n + 1].messages == states[n].messages + [m] <==> Owed(states, steps, n, m)
    ensures states[n + 1].messages == states[n].messages || exists m :: Owed(states, steps, n, m)
  {
    forall m
      ensures states[n + 1].messages == states[n].messages + [m] <==> Owed(states, steps, n, m)
    {
      hide After, Presses, Lifts, CallsForMessage, ClosedBefore, Start;
      TrackerIsHistory(states, steps, n, m.ident);
      StepSends(states[n], steps[n], m);
    }
    hide After, Owed;
    StepSends(states[n], steps[n], KeyMsg("", Chord(""), true));
  }

  // ---------- Releases find their press ----------

  /** The step gives `id` a binding to keep: a press that resolves, or a repeat when nothing is kept. */
  predicate Binds(s: State, step: Step, id: Id) {
    && step.Dispatch? && step.id == id && step.kind.KeyDown?
    && Resolved(s.registry, id).Some? && (step.repeat ==> id !in s.held)
  }

  predicate Releases(step: Step, id: Id) {
    step.Dispatch? && step.id == id && step.kind.KeyUp?
  }

  /** No step from `m` on, up to `n`, gives `id` another binding or releases it. */
  ghost predicate Undisturbed(states: seq<State>, steps: seq<Step>, id: Id, m: nat, n: nat)
    requires m <= n <= |steps| < |states|
  {
    forall i | m <= i < n :: !Releases(steps[i], id) && !(Binds(states[i], steps[i], id) && !steps[i].repeat)
  }

  lemma BindingIsHeld(s: State, step: Step, id: Id)
    requires Binds(s, step, id)
    ensures HeldFor(After(s, step), id) == Resolved(s.registry, id)
  {
  }

  lemma OthersLeaveHeld(s: State, step: Step, id: Id)
    requires id in s.held && !Releases(step, id) && !(Binds(s, step, id) && !step.repeat)
    ensures HeldFor(After(s, step), id) == HeldFor(s, id)
  {
  }

  lemma {:induction false} HeldUntilReleased(states: seq<State>, steps: seq<Step>, id: Id, m: nat, n: nat)
    requires IsRun(states, steps) && m < n <= |steps|
    requires Binds(states[m], steps[m], id) && Undisturbed(states, steps, id, m + 1, n)
    ensures HeldFor(states[n], id) == Resolved(states[m].registry, id)
    decreases n
  {
    hide After, Binds, Resolved;
    if n == m + 1 {
      BindingIsHeld(states[m], steps[m], id);
    } else {
      HeldUntilReleased(states, steps, id, m, n - 1);
      assert HeldFor(states[n - 1], id).Some? by {
        BindsResolves(states[m], steps[m], id);
      }
      OthersLeaveHeld(states[n - 1], steps[n - 1], id);
    }
  }

  lemma BindsResolves(s: State, step: Step, id: Id)
    requires Binds(s, step, id)
    ensures Resolved(s.registry, id).Some?
  {
  }

  /**
   The release of a key, and every repeat before it, belongs to the binding its
   press resolved to, however the bindings have changed since.
   */
  lemma ReleaseFindsItsPress(states: seq<State>, steps: seq<Step>, id: Id, m: nat, n: nat, repeat: bool)
    requires IsRun(states, steps) && m < n <= |steps|
    requires Binds(states[m], steps[m], id) && Undisturbed(states, steps, id, m + 1, n)
    ensures Target(states[n], id, KeyUp, repeat) == Resolved(states[m].registry, id)
    ensures Target(states[n], id, KeyDown, true) == Resolved(states[m].registry, id)
  {
    hide After, Undisturbed;
    HeldUntilReleased(states, steps, id, m, n);
  }

  /** And nothing is kept for a key without such a press, undisturbed since. */
  lemma {:induction false} HeldComesFromPress(states: seq<State>, steps: seq<Step>, id: Id, n: nat)
    requires IsRun(states, steps) && n <= |steps| && id in states[n].held
    ensures exists m :: 0 <= m < n && Binds(states[m], steps[m], id) && Undisturbed(states, steps, id, m + 1, n)
                     && HeldFor(states[n], id) == Resolved(states[m].registry, id)
    decreases n
  {
    var s, step := states[n - 1], steps[n - 1];
    if Binds(s, step, id) {
      BindingIsHeld(s, step, id);
      assert Undisturbed(states, steps, id, n, n);
    } else {
      NotNewlyHeld(s, step, id);
      HeldComesFromPress(states, steps, id, n - 1);
    }
  }

  lemma NotNewlyHeld(s: State, step: Step, id: Id)
    requires id in After(s, step).held && !Binds(s, step, id)
    ensures id in s.held && HeldFor(After(s, step), id) == HeldFor(s, id) && !Releases(step, id)
  {
  }

  // ---------- OS repeats ----------

  ghost predicate NoRepeats(s: State) {
    s.repeats == [] && forall ident | ident in s.tracker :: !s.tracker[ident].repeatAllowed
  }

  /** Permission to act on OS repeats is only ever withdrawn, so no run acts on one. */
  lemma {:induction false} NoRunActsOnRepeats(states: seq<State>, steps: seq<Step>, n: nat)
    requires IsRun(states, steps) && n < |states|
    ensures NoRepeats(states[n])
    decreases n
  {
    hide After;
    if n > 0 {
      NoRunActsOnRepeats(states, steps, n - 1);
      StepKeepsNoRepeats(states[n - 1], steps[n - 1]);
    }
  }

  lemma StepKeepsNoRepeats(s: State, step: Step)
    requires NoRepeats(s)
    ensures NoRepeats(After(s, step))
  {
  }
}
