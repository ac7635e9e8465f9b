/**
 The engine's runtime state, crates/hotki-engine/src/runtime.rs, and the
 navigation requests of crates/hotki-engine/src/actions.rs.

 `Rt` is the state as a value; each method of the class is held to the function
 on `Rt` beside it.
 */
module Runtime {
  import opened Wrappers
  import opened Keys
  import opened Modes
  import opened Dispatching

  /** An open selector: what its closing puts back. */
  datatype Selector = Selector(prevHudVisible: bool, window: Window)

  datatype Rt = Rt(
    hudVisible: bool, stack: Stack, focus: Window, session: Option<Window>,
    rendered: Rendered, selector: Option<Selector>)

  datatype NavRequest =
    | PushNav(mode: ModeRef, title: Option<string>)
    | PopNav
    | ExitNav
    | ShowRootNav
    | HideHudNav

  function EmptyRendered(style: Style): Rendered {
    Rendered([], [], style, false)
  }

  const DEFAULT_STYLE := Style("default")

  const EMPTY_RT := Rt(false, [], None, None, EmptyRendered(DEFAULT_STYLE), None)

  /** The window configuration code sees: the session's, or else the live one. */
  function ContextWindow(rt: Rt, live: Window): Window {
    if rt.session.Some? then rt.session.value else live
  }

  function Cleared(rt: Rt, style: Style): Rt {
    Rt(false, [], rt.focus, None, EmptyRendered(style), None)
  }

  function Installed(rt: Rt, config: Config): Rt {
    rt.(stack := [RootFrame(config)], rendered := EmptyRendered(config.style), selector := None)
  }

  function WithSession(rt: Rt, opening: Window): Rt {
    if rt.session.Some? then rt else rt.(session := Some(opening))
  }

  function Pushed(rt: Rt, title: string, mode: ModeRef, enteredVia: Option<(Chord, nat)>, capture: bool,
                  opening: Window): Rt {
    WithSession(rt, opening).(hudVisible := true, stack := rt.stack + [Frame(title, mode, enteredVia, [], capture)])
  }

  function PushTitle(mode: ModeRef, title: Option<string>): string {
    if title.Some? then title.value
    else if mode.defaultTitle.Some? then mode.defaultTitle.value
    else "mode"
  }

  function Navigated(rt: Rt, nav: NavRequest, opening: Window): Rt {
    match nav
    case PushNav(mode, title) => Pushed(rt, PushTitle(mode, title), mode, None, false, opening)
    case PopNav =>
      var popped := rt.(stack := Popped(rt.stack));
      if Depth(popped.stack) == 0 then popped.(hudVisible := false, session := None) else popped
    case ExitNav => rt.(stack := AtRoot(rt.stack), hudVisible := false, session := None)
    case ShowRootNav => WithSession(rt, opening).(stack := AtRoot(rt.stack), hudVisible := true)
    case HideHudNav => rt.(hudVisible := false)
  }

  function NavResult(nav: NavRequest): DispatchResult {
    if nav.PushNav? then EnteredMode else Navigation
  }

  /** Opening a selector hides the HUD and remembers whether it was shown. */
  function SelectorShown(rt: Rt, window: Window): Rt {
    rt.(hudVisible := false, selector := Some(Selector(rt.hudVisible, window)))
  }

  function SelectorClosed(rt: Rt): Rt {
    if rt.selector.None? then rt
    else rt.(hudVisible := rt.selector.value.prevHudVisible, selector := None)
  }

  /** What a failed refresh goes back to; the selector is not part of it. */
  datatype Checkpoint = Checkpoint(
    hudVisible: bool, stack: Stack, focus: Window, session: Option<Window>, rendered: Rendered)

  function CheckpointOf(rt: Rt): Checkpoint {
    Checkpoint(rt.hudVisible, rt.stack, rt.focus, rt.session, rt.rendered)
  }

  function Restored(rt: Rt, c: Checkpoint): Rt {
    Rt(c.hudVisible, c.stack, c.focus, c.session, c.rendered, rt.selector)
  }

  // ---------- What navigation amounts to ----------

  /** Entering a mode shows it on top, opens a session unless there is one, and a pop takes exactly that back. */
  lemma PopUndoesPush(rt: Rt, mode: ModeRef, title: Option<string>, opening: Window, later: Window)
    requires rt.stack != []
    ensures var pushed := Navigated(rt, PushNav(mode, title), opening);
            var popped := Navigated(pushed, PopNav, later);
            && |pushed.stack| == |rt.stack| + 1 && pushed.stack[..|rt.stack|] == rt.stack && pushed.hudVisible
            && pushed.stack[|rt.stack|].closure == mode && pushed.stack[|rt.stack|].enteredVia == None
            && pushed.stack[|rt.stack|].title
               == (if title.Some? then title.value
                   else if mode.defaultTitle.Some? then mode.defaultTitle.value else "mode")
            && pushed.session == Some(if rt.session.Some? then rt.session.value else opening)
            && popped == if |rt.stack| > 1 then rt.(hudVisible := true, session := pushed.session)
                         else rt.(hudVisible := false, session := None)
  {
  }

  /** Navigating `times` times back. */
  function PoppedTimes(rt: Rt, times: nat, opening: Window): Rt
    decreases times
  {
    if times == 0 then rt else PoppedTimes(Navigated(rt, PopNav, opening), times - 1, opening)
  }

  /** Going back one by one until the root, or once at the root, is the same as leaving at once. */
  lemma {:induction false} PoppingAllExits(rt: Rt, times: nat, opening: Window)
    requires rt.stack != [] && times >= 1 && times >= |rt.stack| - 1
    ensures PoppedTimes(rt, times, opening) == Navigated(rt, ExitNav, opening)
    decreases times
  {
    var popped := Navigated(rt, PopNav, opening);
    if times > 1 {
      PoppingAllExits(popped, times - 1, opening);
      assert AtRoot(popped.stack) == AtRoot(rt.stack);
    } else {
      assert popped.stack == AtRoot(rt.stack);
    }
  }

  /** Showing the root leaves the same stack as leaving, with the HUD on it and a session. */
  lemma ShowRootIsExitAndShow(rt: Rt, opening: Window)
    requires rt.stack != []
    ensures var shown, left := Navigated(rt, ShowRootNav, opening), Navigated(rt, ExitNav, opening);
            && |shown.stack| == 1 && shown.stack[0] == rt.stack[0] && shown.hudVisible && !left.hudVisible
            && left.session == None
            && shown.session == Some(if rt.session.Some? then rt.session.value else opening)
            && shown == left.(hudVisible := true, session := shown.session)
  {
  }

  /** Hiding the HUD keeps the mode stack and the session, so that showing the root finds the session again. */
  lemma HidingKeepsSession(rt: Rt, opening: Window)
    ensures var hidden := Navigated(rt, HideHudNav, opening);
            !hidden.hudVisible && hidden.(hudVisible := rt.hudVisible) == rt
  {
  }

  /** Opening a selector hides the HUD, and closing it shows the HUD again if it was shown. */
  lemma ClosingUndoesOpening(rt: Rt, window: Window)
    requires rt.selector.None?
    ensures !SelectorShown(rt, window).hudVisible && SelectorShown(rt, window).selector.Some?
    ensures SelectorClosed(SelectorShown(rt, window)) == rt
  {
  }

  class RuntimeState {
    var hudVisible: bool
    const stack: ModeStack
    var focus: Window
    var session: Option<Window>
    var rendered: Rendered
    var selector: Option<Selector>

    function Value(): Rt
      reads this, stack
    {
      Rt(hudVisible, stack.frames, focus, session, rendered, selector)
    }

    constructor Empty()
      ensures Value() == EMPTY_RT && fresh(stack)
    {
      hudVisible, focus, session, selector := false, None, None, None;
      rendered := EmptyRendered(DEFAULT_STYLE);
      stack := new ModeStack([]);
    }

    function TakeCheckpoint(): Checkpoint
      reads this, stack
    {
      CheckpointOf(Value())
    }

    method Restore(c: Checkpoint)
      modifies this, stack
      ensures Value() == Restored(old(Value()), c)
    {
      hudVisible, focus, session, rendered := c.hudVisible, c.focus, c.session, c.rendered;
      stack.frames := c.stack;
    }

    method InstallConfig(config: Config)
      modifies this, stack
      ensures Value() == Installed(old(Value()), config)
    {
      selector := None;
      stack.frames := [RootFrame(config)];
      rendered := EmptyRendered(config.style);
    }

    method ClearConfigState(style: Style)
      modifies this, stack
      ensures Value() == Cleared(old(Value()), style)
    {
      hudVisible, session, selector := false, None, None;
      stack.Clear();
      rendered := EmptyRendered(style);
    }

    method StartSession(opening: Window)
      modifies this
      ensures Value() == WithSession(old(Value()), opening)
    {
      if session.None? {
        session := Some(opening);
      }
    }

    method PushMode(title: string, mode: ModeRef, enteredVia: Option<(Chord, nat)>, capture: bool, opening: Window)
      modifies this, stack
      ensures Value() == Pushed(old(Value()), title, mode, enteredVia, capture, opening)
    {
      StartSession(opening);
      hudVisible := true;
      stack.Push(title, mode, enteredVia, capture);
    }

    method ApplyNavRequest(nav: NavRequest, opening: Window) returns (r: DispatchResult)
      modifies this, stack
      ensures Value() == Navigated(old(Value()), nav, opening) && r == NavResult(nav)
    {
      match nav {
        case PushNav(mode, title) =>
          PushMode(PushTitle(mode, title), mode, None, false, opening);
          return EnteredMode;
        case PopNav =>
          var _ := stack.Pop();
          if Depth(stack.frames) == 0 {
            hudVisible, session := false, None;
          }
        case ExitNav =>
          var _ := stack.ResetToRoot();
          hudVisible, session := false, None;
        case ShowRootNav =>
          var _ := stack.ResetToRoot();
          StartSession(opening);
          hudVisible := true;
        case HideHudNav =>
          hudVisible := false;
      }
      return Navigation;
    }
  }
}
