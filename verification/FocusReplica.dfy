/**
 The engine's copy of the focused window: the world state and its events,
 crates/hotki-world/src/state.rs and events.rs, and the subscription that keeps
 the copy, crates/hotki-engine/src/world_sync.rs.

 Everything runs on one current-thread runtime, so code between two awaits is
 one step here.
 */
module FocusReplica {
  import opened Wrappers
  import Modes

  type Focus = Modes.Window

  datatype WindowKey = WindowKey(pid: int, id: nat)

  datatype FocusChange = Focused(focus: Modes.FocusSnapshot) | FocusCleared

  datatype WorldEvent = FocusChanged(change: FocusChange) | DisplaysChanged

  /** The part of a platform capture and of the world state that events speak of. */
  datatype World = World(focused: Option<WindowKey>, focus: Focus, displays: seq<nat>)

  const U64_MAX: nat := 0xFFFF_FFFF_FFFF_FFFF

  /** `DEFAULT_EVENT_CAPACITY`: how many events the hub retains for a slow cursor. */
  const CAPACITY: nat := 256

  // ---------- The world ----------

  function FocusEvent(focus: Focus): WorldEvent {
    FocusChanged(if focus.Some? then Focused(focus.value) else FocusCleared)
  }

  /** What `publish` sends for a poll update, in order. */
  function Published(before: World, update: World): seq<WorldEvent> {
    (if before.displays != update.displays then [DisplaysChanged] else [])
    + (if before.focused != update.focused || before.focus != update.focus then [FocusEvent(update.focus)] else [])
  }

  class WorldState {
    var focused: Option<WindowKey>
    var focus: Focus
    var displays: seq<nat>

    function Value(): World
      reads this
    {
      World(focused, focus, displays)
    }

    /** `apply_poll_update` followed by `publish` on the hub's log. */
    method ApplyPollUpdate(update: World, log: seq<WorldEvent>) returns (after: seq<WorldEvent>)
      modifies this
      ensures Value() == update && after == log + Published(old(Value()), update)
    {
      var displaysChanged := displays != update.displays;
      if displaysChanged {
        displays := update.displays;
      }
      var change: Option<FocusChange> := None;
      if focused != update.focused || focus != update.focus {
        change := Some(match update.focus case Some(f) => Focused(f) case None => FocusCleared);
      }
      focused, focus := update.focused, update.focus;
      after := log;
      if displaysChanged {
        after := after + [DisplaysChanged];
      }
      if change.Some? {
        after := after + [FocusChanged(change.value)];
      }
    }
  }

  // ---------- The cursor ----------

  /** A receiver reads the log from `pos`; it can no longer read what lies `CAPACITY` or more back. */
  datatype Cursor = Cursor(pos: nat, lost: nat)

  function Oldest(log: seq<WorldEvent>): nat {
    if |log| > CAPACITY then |log| - CAPACITY else 0
  }

  /** A receiver that fell behind is moved to the oldest event left and told how many it missed. */
  function CaughtUp(c: Cursor, log: seq<WorldEvent>): Cursor {
    if c.pos >= Oldest(log) then c
    else
      var n := Oldest(log) - c.pos;
      Cursor(Oldest(log), if c.lost + n <= U64_MAX then c.lost + n else U64_MAX)
  }

  class EventCursor {
    var pos: nat
    var lostCount: nat

    function Value(): Cursor
      reads this
    {
      Cursor(pos, lostCount)
    }

    constructor (pos: nat)
      ensures Value() == Cursor(pos, 0)
    {
      this.pos, lostCount := pos, 0;
    }

    /** `next_event_until`, where an empty buffer stands for a deadline that passes. */
    method NextEvent(log: seq<WorldEvent>) returns (event: Option<WorldEvent>)
      requires pos <= |log|
      modifies this
      ensures var c := CaughtUp(old(Value()), log);
              if c.pos == |log| then event == None && Value() == c
              else event == Some(log[c.pos]) && Value() == c.(pos := c.pos + 1)
    {
      while true
        invariant pos <= |log| && CaughtUp(Value(), log) == CaughtUp(old(Value()), log)
        decreases |log| - pos
      {
        if pos < Oldest(log) {
          var n := Oldest(log) - pos;
          lostCount := if lostCount + n <= U64_MAX then lostCount + n else U64_MAX;
          pos := Oldest(log);
          continue;
        }
        if pos == |log| {
          return None;
        }
        event := Some(log[pos]);
        pos := pos + 1;
        return;
      }
    }
  }

  // ---------- The replica ----------

  /**
   `since` and `received` are for accounting: where the subscription started and
   how many events it has yielded.
   */
  datatype State = State(
    world: World, log: seq<WorldEvent>, cache: Focus, subscribed: bool, cursor: Cursor, lastLost: nat,
    since: nat, received: nat)

  datatype Step =
    | PollUpdate(update: World)   // the world's loop applies a capture
    | Subscribe                   // the subscription task starts
    | Lag                         // the receiver notices that it fell behind
    | Receive                     // the subscription task takes the next event
    | DirectRefresh               // a key dispatch reads the world's focus itself

  function Initial(world: World): State {
    State(world, [], None, false, Cursor(0, 0), 0, 0, 0)
  }

  /** `subscribe_with_snapshot`, and applying the seed. */
  function Subscribed(s: State): State {
    s.(cache := s.world.focus, subscribed := true, cursor := Cursor(|s.log|, 0), lastLost := 0,
       since := |s.log|, received := 0)
  }

  function Seen(cache: Focus, event: WorldEvent): Focus {
    match event
    case FocusChanged(Focused(focus)) => Some(focus)
    case FocusChanged(FocusCleared) => None
    case DisplaysChanged => cache
  }

  /** Without an event the task times out and waits again; after a loss it starts over. */
  function Received(s: State): State
    requires s.cursor.pos < |s.log|
  {
    if s.cursor.lost > s.lastLost then Subscribed(s)
    else
      var event := s.log[s.cursor.pos];
      s.(cursor := s.cursor.(pos := s.cursor.pos + 1), lastLost := s.cursor.lost,
         cache := Seen(s.cache, event), received := s.received + 1)
  }

  predicate Enabled(s: State, step: Step) {
    match step
    case Subscribe => !s.subscribed
    case Lag => s.subscribed && s.cursor.pos < Oldest(s.log)
    case Receive => s.subscribed && Oldest(s.log) <= s.cursor.pos < |s.log|
    case _ => true
  }

  function After(s: State, step: Step): State
    requires Enabled(s, step)
  {
    match step
    case PollUpdate(update) => s.(world := update, log := s.log + Published(s.world, update))
    case Subscribe => Subscribed(s)
    case Lag => s.(cursor := CaughtUp(s.cursor, s.log))
    case Receive => Received(s)
    case DirectRefresh => s.(cache := s.world.focus)
  }

  /** The subscription task, one turn: an event, a restart, or nothing. */
  class Subscription {
    var cache: Focus
    var cursor: EventCursor
    var lastLost: nat
    ghost var since: nat
    ghost var received: nat

    ghost function Value(world: World, log: seq<WorldEvent>): State
      reads this, cursor
    {
      State(world, log, cache, true, cursor.Value(), lastLost, since, received)
    }

    constructor (world: World, log: seq<WorldEvent>)
      ensures Value(world, log) == Subscribed(Initial(world).(log := log)) && fresh(cursor)
    {
      cursor := new EventCursor(|log|);
      cache, lastLost, since, received := world.focus, 0, |log|, 0;
    }

    method Seed(world: World, log: seq<WorldEvent>)
      modifies this
      ensures Value(world, log) == Subscribed(old(Value(world, log))) && fresh(cursor)
    {
      cursor := new EventCursor(|log|);
      cache, lastLost, since, received := world.focus, 0, |log|, 0;
    }

    method Turn(world: World, log: seq<WorldEvent>)
      requires cursor.pos <= |log|
      modifies this, cursor
      ensures var s := old(Value(world, log)).(cursor := CaughtUp(old(cursor.Value()), log));
              Value(world, log) == if s.cursor.pos == |log| then s else Received(s)
    {
      var event := cursor.NextEvent(log);
      match event {
        case None =>
        case Some(e) =>
          if cursor.lostCount > lastLost {
            Seed(world, log);
            return;
          }
          lastLost := cursor.lostCount;
          received := received + 1;
          match e {
            case FocusChanged(Focused(focus)) => cache := Some(focus);
            case FocusChanged(FocusCleared) => cache := None;
            case DisplaysChanged =>
          }
      }
    }
  }

  // ---------- What is published, and what is lost ----------

  /**
   An update publishes nothing unless something changed: one displays event
   exactly if the displays did, and behind it one focus event, with the new focus,
   exactly if the focused window or what is known of it did.
   */
  lemma PublishedIff(before: World, update: World)
    ensures var events := Published(before, update);
            var displays := before.displays != update.displays;
            var focus := before.focused != update.focused || before.focus != update.focus;
            && |events| == (if displays then 1 else 0) + (if focus then 1 else 0)
            && (displays ==> events[0] == DisplaysChanged)
            && (focus ==>
                  && events[|events| - 1].FocusChanged?
                  && match events[|events| - 1].change
                     case Focused(f) => update.focus == Some(f)
                     case FocusCleared => update.focus == None)
  {
  }

  /**
   A receiver falls behind exactly if more than 256 events are pending; it then
   loses the excess, the oldest ones, is told how many, and has 256 left.
   */
  lemma LagLosesTheExcess(s: State)
    requires s.subscribed && s.cursor.pos <= |s.log|
    ensures Enabled(s, Lag) <==> |s.log| - s.cursor.pos > 256
    ensures Enabled(s, Lag) ==>
              var s', excess := After(s, Lag), |s.log| - s.cursor.pos - 256;
              && s'.cursor.pos == s.cursor.pos + excess && |s'.log| - s'.cursor.pos == 256
              && s'.cursor.lost == (if s.cursor.lost + excess <= U64_MAX then s.cursor.lost + excess else U64_MAX)
  {
  }

  // ---------- What every run keeps ----------

  /** The focus a reader that starts from `cache` ends with. */
  function LastFocus(cache: Focus, events: seq<WorldEvent>): Focus
    decreases |events|
  {
    if events == [] then cache else LastFocus(Seen(cache, events[0]), events[1..])
  }

  lemma {:induction false} LastFocusAppends(cache: Focus, events: seq<WorldEvent>, more: seq<WorldEvent>)
    ensures LastFocus(cache, events + more) == LastFocus(LastFocus(cache, events), more)
    decreases |events|
  {
    if events == [] {
      assert events + more == more;
    } else {
      assert (events + more)[1..] == events[1..] + more;
      LastFocusAppends(Seen(cache, events[0]), events[1..], more);
    }
  }

  /** The last focus event decides, unless there is none. */
  lemma {:induction false} LastFocusDecides(a: Focus, b: Focus, events: seq<WorldEvent>)
    ensures LastFocus(a, events) == LastFocus(b, events)
         || (LastFocus(a, events) == a && LastFocus(b, events) == b)
    decreases |events|
  {
    if events != [] {
      LastFocusDecides(Seen(a, events[0]), Seen(b, events[0]), events[1..]);
    }
  }

  function Pending(s: State): nat
    requires s.cursor.pos <= |s.log|
  {
    |s.log| - s.cursor.pos
  }

  /**
   Unless a loss has been noticed, reading what is left of the log leads from the
   cache to the world's focus; after a loss there is still something to read.
   */
  ghost predicate Faithful(s: State)
    requires s.cursor.pos <= |s.log|
  {
    if s.cursor.lost == s.lastLost then LastFocus(s.cache, s.log[s.cursor.pos..]) == s.world.focus
    else Pending(s) > 0
  }

  /** Every event published since subscribing was received, is counted as lost, or is still ahead. */
  ghost predicate Accounted(s: State)
    requires s.cursor.pos <= |s.log|
  {
    && s.since + s.received <= s.cursor.pos
    && s.cursor.lost == (if s.cursor.pos - s.since - s.received <= U64_MAX
                         then s.cursor.pos - s.since - s.received else U64_MAX)
  }

  ghost predicate Inv(s: State) {
    && s.cursor.pos <= |s.log| && s.lastLost <= s.cursor.lost
    && (s.subscribed ==> Faithful(s) && Accounted(s) && s.lastLost == 0)
  }

  lemma PublishingIsFaithful(s: State, update: World)
    requires s.cursor.pos <= |s.log| && Faithful(s)
    ensures Faithful(After(s, PollUpdate(update)))
  {
    var events := Published(s.world, update);
    var left := s.log[s.cursor.pos..];
    assert (s.log + events)[s.cursor.pos..] == left + events;
    LastFocusAppends(s.cache, left, events);
    PublishedFocus(s.world, update);
  }

  lemma PublishedFocus(before: World, update: World)
    ensures LastFocus(before.focus, Published(before, update)) == update.focus
  {
    var events := Published(before, update);
    LastFocusOne(before.focus, FocusEvent(update.focus));
    if |events| == 2 {
      assert events[1..] == [FocusEvent(update.focus)];
    } else if before.displays != update.displays {
      LastFocusOne(before.focus, DisplaysChanged);
    }
  }

  lemma LastFocusOne(cache: Focus, event: WorldEvent)
    ensures LastFocus(cache, [event]) == Seen(cache, event)
  {
    assert [event][1..] == [];
  }

  /** A cache set to the world's focus is faithful however far behind the cursor is. */
  lemma RefreshIsFaithful(s: State)
    requires s.cursor.pos <= |s.log| && Faithful(s)
    ensures Faithful(After(s, DirectRefresh))
  {
    LastFocusDecides(s.cache, s.world.focus, s.log[s.cursor.pos..]);
  }

  lemma StepKeepsInv(s: State, step: Step)
    requires Inv(s) && Enabled(s, step)
    ensures Inv(After(s, step))
  {
    if s.subscribed {
      match step {
        case PollUpdate(update) => PublishingIsFaithful(s, update);
        case DirectRefresh => RefreshIsFaithful(s);
        case Receive =>
          var left := s.log[s.cursor.pos..];
          assert left[1..] == s.log[s.cursor.pos + 1..];
        case _ =>
      }
    }
  }

  ghost predicate IsRun(states: seq<State>, steps: seq<Step>) {
    && |states| == |steps| + 1
    && forall i | 0 <= i < |steps| :: Enabled(states[i], steps[i]) && states[i + 1] == After(states[i], steps[i])
  }

  lemma {:induction false} RunKeepsInv(states: seq<State>, steps: seq<Step>, n: nat)
    requires IsRun(states, steps) && Inv(states[0]) && n < |states|
    ensures Inv(states[n])
    decreases n
  {
    hide Inv;
    if n > 0 {
      RunKeepsInv(states, steps, n - 1);
      StepKeepsInv(states[n - 1], steps[n - 1]);
    }
  }

  /**
   Whenever the engine is subscribed and has read all there is, its cache is the
   world's focus, whatever was lost, resubscribed or refreshed directly before.
   */
  lemma DrainedCacheIsFocus(states: seq<State>, steps: seq<Step>, world: World, n: nat)
    requires IsRun(states, steps) && states[0] == Initial(world) && n < |states|
    ensures var s := states[n];
            && s.cursor.pos <= |s.log|
            && (s.subscribed && Pending(s) == 0 ==> s.cache == s.world.focus)
  {
    assert Inv(states[0]);
    RunKeepsInv(states, steps, n);
    var s := states[n];
    if Pending(s) == 0 {
      assert s.log[s.cursor.pos..] == [];
    }
  }

  /** Received, lost and pending events together are the events published since subscribing. */
  lemma EventsAreAccountedFor(states: seq<State>, steps: seq<Step>, world: World, n: nat)
    requires IsRun(states, steps) && states[0] == Initial(world) && n < |states|
    requires states[n].subscribed && |states[n].log| - states[n].since <= U64_MAX
    ensures var s := states[n];
            && s.cursor.pos <= |s.log|
            && s.received + s.cursor.lost + Pending(s) == |s.log| - s.since
  {
    assert Inv(states[0]);
    RunKeepsInv(states, steps, n);
  }

  // ---------- Catching up ----------

  /** The subscription task alone, for at most `n` steps. */
  function Drain(s: State, n: nat): State
    requires s.subscribed
    decreases n
  {
    if n == 0 || s.cursor.pos >= |s.log| then s
    else if Enabled(s, Lag) then Drain(After(s, Lag), n - 1)
    else Drain(After(s, Receive), n - 1)
  }

  /** If the world stands still, one step for every pending event brings the cache up to date. */
  lemma {:induction false} DrainingConverges(s: State, n: nat)
    requires Inv(s) && s.subscribed && n >= Pending(s)
    ensures Drain(s, n).cache == s.world.focus && Drain(s, n).world == s.world
    decreases n
  {
    if Pending(s) == 0 {
      assert s.log[s.cursor.pos..] == [];
    } else {
      var step := if Enabled(s, Lag) then Lag else Receive;
      StepKeepsInv(s, step);
      DrainingConverges(After(s, step), n - 1);
    }
  }
}
