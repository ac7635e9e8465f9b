/**
 Mode sessions over whole runs of the engine: what every navigation, refresh,
 failed refresh, selector and configuration step keeps.

 A session fixes the window that configuration code sees from the moment the
 user leaves the root until they are back at it.
 */
module Sessions {
  import opened Wrappers
  import opened Keys
  import opened Modes
  import opened Runtime
  import opened StackRendering
  import opened Refresh

  // ---------- Runs ----------

  datatype Sys = Sys(rt: Rt, config: Option<Config>)

  /**
   Windows and flags are whatever the caller had at hand when it took the step.
   Without a configuration keys are ignored and no selector opens.
   */
  datatype Step =
    | Nav(nav: NavRequest, opening: Window)
    | Enter(binding: Binding, mode: ModeRef, opening: Window)
    | Refresh(live: Window)
    | FailedRefresh(live: Window)
    | Install(prepared: Config, hudVisible: bool, focus: Window)
    | OpenSelector(window: Window)
    | CloseSelector

  const INITIAL := Sys(EMPTY_RT, None)

  function EnteredVia(binding: Binding): Option<(Chord, nat)> {
    if binding.modeId.Some? then Some((binding.chord, binding.modeId.value)) else None
  }

  function After(sys: Sys, step: Step, selectorChords: seq<Chord>): Sys {
    var rt, loaded := sys.rt, sys.config.Some?;
    match step
    case Nav(nav, opening) => if loaded then sys.(rt := Navigated(rt, nav, opening)) else sys
    case Enter(b, mode, opening) =>
      if loaded then sys.(rt := Pushed(rt, b.desc, mode, EnteredVia(b), b.modeCapture, opening)) else sys
    case Refresh(live) => sys.(rt := BuildPlan(rt, sys.config, live, selectorChords).0)
    case FailedRefresh(live) => sys.(rt := RolledBack(rt, sys.config, live, selectorChords))
    case Install(config, hud, focus) =>
      var (started, plan) := BuildPlan(Fresh(config, hud, focus), Some(config), focus, selectorChords);
      if plan.errors == [] then Sys(started, Some(config)) else sys
    case OpenSelector(window) => if loaded then sys.(rt := SelectorShown(rt, window)) else sys
    case CloseSelector => sys.(rt := SelectorClosed(rt))
  }

  function Run(sys: Sys, steps: seq<Step>, selectorChords: seq<Chord>): Sys {
    if steps == [] then sys
    else After(Run(sys, steps[..|steps| - 1], selectorChords), steps[|steps| - 1], selectorChords)
  }

  // ---------- What every run keeps ----------

  /** Away from the root there is a session, and the configuration's root is at the bottom of the stack. */
  ghost predicate WellFormed(sys: Sys) {
    && (Depth(sys.rt.stack) > 0 ==> sys.rt.session.Some?)
    && (sys.config.Some? ==> sys.rt.stack != [] && sys.rt.stack[0].closure == sys.config.value.root)
  }

  /** What building a plan does to the stack and to everything else. */
  lemma PlanKeeps(rt: Rt, config: Option<Config>, live: Window, selectorChords: seq<Chord>)
    ensures var rt' := BuildPlan(rt, config, live, selectorChords).0;
            if config.None? then rt' == Cleared(rt.(focus := ContextWindow(rt, live)), DEFAULT_STYLE)
            else
              && rt'.session == rt.session && rt'.hudVisible == rt.hudVisible && rt'.selector == rt.selector
              && rt'.focus == ContextWindow(rt, live)
              && rt'.stack != [] && |rt'.stack| <= |Ensured(config.value, rt.stack)|
              && rt'.stack[0].closure == Ensured(config.value, rt.stack)[0].closure
  {
    if config.Some? {
      hide RenderStack;
      var start := rt.(focus := ContextWindow(rt, live), stack := Ensured(config.value, rt.stack));
      var ctx := ModeCtx(start.focus, start.hudVisible, Depth(start.stack));
      StackSurvives(config.value, start.stack, ctx);
      var stack1 := RenderStack(config.value, start.stack, ctx).0;
      StackSurvives(config.value, AtRoot(stack1), ctx.(depth := 0));
    }
  }

  lemma RollbackKeeps(rt: Rt, config: Option<Config>, live: Window, selectorChords: seq<Chord>)
    ensures var rt' := RolledBack(rt, config, live, selectorChords);
            && rt'.session == rt.session && rt'.hudVisible == rt.hudVisible
            && (rt.stack != [] ==>
                  rt'.stack != [] && |rt'.stack| <= |rt.stack| && rt'.stack[0].closure == rt.stack[0].closure)
            && Depth(rt'.stack) <= Depth(rt.stack)
  {
    hide BuildPlan, Cleared;
    PlanKeeps(rt, config, live, selectorChords);
    var back := Restored(BuildPlan(rt, config, live, selectorChords).0, CheckpointOf(rt));
    PlanKeeps(back, config, rt.focus, selectorChords);
  }

  lemma StepKeepsWellFormed(sys: Sys, step: Step, selectorChords: seq<Chord>)
    requires WellFormed(sys)
    ensures WellFormed(After(sys, step, selectorChords))
  {
    hide BuildPlan, RolledBack;
    match step {
      case Refresh(live) => PlanKeeps(sys.rt, sys.config, live, selectorChords);
      case FailedRefresh(live) => RollbackKeeps(sys.rt, sys.config, live, selectorChords);
      case Install(config, hud, focus) =>
        PlanKeeps(Fresh(config, hud, focus), Some(config), focus, selectorChords);
      case _ =>
    }
  }

  /**
   In every state any run reaches, a depth above zero implies a session, and once
   a configuration is installed its root frame is at the bottom of the stack.
   */
  lemma {:induction false} EveryRunIsWellFormed(steps: seq<Step>, selectorChords: seq<Chord>)
    ensures WellFormed(Run(INITIAL, steps, selectorChords))
  {
    hide After, WellFormed;
    if steps == [] {
      assert WellFormed(INITIAL) by {
        EmptyIsWellFormed();
      }
    } else {
      EveryRunIsWellFormed(steps[..|steps| - 1], selectorChords);
      StepKeepsWellFormed(Run(INITIAL, steps[..|steps| - 1], selectorChords), steps[|steps| - 1], selectorChords);
    }
  }

  lemma EmptyIsWellFormed()
    ensures WellFormed(INITIAL)
  {
  }

  // ---------- One session, one window ----------

  /** No step of the run ends the session it starts in, and none installs a configuration. */
  ghost predicate SessionLasts(sys: Sys, steps: seq<Step>, selectorChords: seq<Chord>) {
    && (forall i | 0 <= i < |steps| :: !steps[i].Install?)
    && (forall i | 0 <= i <= |steps| :: Run(sys, steps[..i], selectorChords).rt.session.Some?)
  }

  lemma StepKeepsSession(sys: Sys, step: Step, selectorChords: seq<Chord>)
    requires sys.rt.session.Some? && !step.Install?
    requires After(sys, step, selectorChords).rt.session.Some?
    ensures After(sys, step, selectorChords).rt.session == sys.rt.session
  {
    hide BuildPlan, RolledBack;
    match step {
      case Refresh(live) => PlanKeeps(sys.rt, sys.config, live, selectorChords);
      case FailedRefresh(live) => RollbackKeeps(sys.rt, sys.config, live, selectorChords);
      case _ =>
    }
  }

  /** As long as a session lasts, configuration code sees its opening window, whatever has the focus. */
  lemma {:induction false} SessionFixesWindow(sys: Sys, steps: seq<Step>, live: Window, selectorChords: seq<Chord>)
    requires SessionLasts(sys, steps, selectorChords)
    ensures sys.rt.session.Some?
    ensures ContextWindow(Run(sys, steps, selectorChords).rt, live) == sys.rt.session.value
  {
    hide After;
    assert Run(sys, steps[..0], selectorChords) == sys;
    assert steps[..|steps|] == steps;
    if steps != [] {
      var init := steps[..|steps| - 1];
      assert forall i | 0 <= i <= |init| :: init[..i] == steps[..i];
      SessionFixesWindow(sys, init, live, selectorChords);
      StepKeepsSession(Run(sys, init, selectorChords), steps[|steps| - 1], selectorChords);
    }
  }

  /** So every refresh during a session renders for, and records as focus, the session's window. */
  lemma RefreshSeesOpeningWindow(sys: Sys, steps: seq<Step>, live: Window, selectorChords: seq<Chord>)
    requires SessionLasts(sys, steps, selectorChords) && sys.config.Some?
    ensures var here := Run(sys, steps, selectorChords);
            sys.rt.session.Some? && After(here, Refresh(live), selectorChords).rt.focus == sys.rt.session.value
  {
    hide Run, BuildPlan;
    SessionFixesWindow(sys, steps, live, selectorChords);
    ConfigStays(sys, steps, selectorChords);
    var here := Run(sys, steps, selectorChords);
    PlanKeeps(here.rt, here.config, live, selectorChords);
  }

  lemma {:induction false} ConfigStays(sys: Sys, steps: seq<Step>, selectorChords: seq<Chord>)
    requires forall i | 0 <= i < |steps| :: !steps[i].Install?
    ensures Run(sys, steps, selectorChords).config == sys.config
  {
    hide BuildPlan, RolledBack, Navigated;
    if steps != [] {
      ConfigStays(sys, steps[..|steps| - 1], selectorChords);
    }
  }

  // ---------- The HUD and the session ----------

  ghost predicate HudHasSession(rt: Rt) {
    rt.hudVisible ==> rt.session.Some?
  }

  /**
   A visible HUD does not imply a session: closing a selector shows the HUD
   again even if the session ended while it was open.  That is the only way.
   */
  lemma HudHasSessionIff(sys: Sys, step: Step, selectorChords: seq<Chord>)
    requires HudHasSession(sys.rt)
    ensures HudHasSession(After(sys, step, selectorChords).rt)
       <==> !(step.CloseSelector? && sys.rt.selector.Some? && sys.rt.selector.value.prevHudVisible
              && sys.rt.session.None?)
  {
    hide BuildPlan, RolledBack;
    match step {
      case Refresh(live) => PlanKeeps(sys.rt, sys.config, live, selectorChords);
      case FailedRefresh(live) => RollbackKeeps(sys.rt, sys.config, live, selectorChords);
      case Install(config, hud, focus) =>
        PlanKeeps(Fresh(config, hud, focus), Some(config), focus, selectorChords);
      case _ =>
    }
  }

  /** A held key that leaves the menu while a selector is open is such a run. */
  lemma HudOutlivesSession(window: Window, selectorChords: seq<Chord>)
    ensures var shown := [Install(DEPTH_CONFIG, false, window)] + [Nav(ShowRootNav, window)];
            var left := shown + [OpenSelector(window)] + [Nav(ExitNav, window)];
            !HudHasSession(Run(INITIAL, left + [CloseSelector], selectorChords).rt)
  {
    var installed := [Install(DEPTH_CONFIG, false, window)];
    var shown := installed + [Nav(ShowRootNav, window)];
    var picking := shown + [OpenSelector(window)];
    var left := picking + [Nav(ExitNav, window)];
    RunInstall(window, selectorChords);
    hide Run, BuildPlan, RolledBack;
    RunOne(installed, Nav(ShowRootNav, window), selectorChords);
    RunOne(shown, OpenSelector(window), selectorChords);
    RunOne(picking, Nav(ExitNav, window), selectorChords);
    RunOne(left, CloseSelector, selectorChords);
  }

  lemma RunInstall(window: Window, selectorChords: seq<Chord>)
    ensures var sys := Run(INITIAL, [Install(DEPTH_CONFIG, false, window)], selectorChords);
            sys.config == Some(DEPTH_CONFIG) && sys.rt.selector.None?
  {
    var start := Fresh(DEPTH_CONFIG, false, window);
    RunOne([], Install(DEPTH_CONFIG, false, window), selectorChords);
    assert [] + [Install(DEPTH_CONFIG, false, window)] == [Install(DEPTH_CONFIG, false, window)];
    DepthNeverFails(start.stack, ModeCtx(ContextWindow(start, window), false, 0), 0);
    PlanKeeps(start, Some(DEPTH_CONFIG), window, selectorChords);
  }

  lemma {:induction false} DepthNeverFails(stack: Stack, ctx: ModeCtx, depth: nat)
    requires depth <= |stack|
    ensures RenderFrom(DEPTH_CONFIG, stack, ctx, depth).1 == None
    decreases |stack| - depth
  {
    if depth < |stack| {
      var view := DEPTH_CONFIG.view(stack[depth].closure, ctx);
      DepthNeverFails(stack[depth := Refreshed(stack[depth], view.value)], ctx, depth + 1);
    }
  }

  lemma RunOne(steps: seq<Step>, step: Step, selectorChords: seq<Chord>)
    ensures Run(INITIAL, steps + [step], selectorChords)
         == After(Run(INITIAL, steps, selectorChords), step, selectorChords)
  {
    assert (steps + [step])[..|steps|] == steps;
  }

  // ---------- What the user sees, and which keys are taken ----------

  /** The last HUD that was sent, and what was in force from then on. */
  datatype Seen = Seen(hud: Option<HudState>, selectorOpen: bool, captureAll: bool)

  /** What a refresh or an installation that succeeds puts in force; no other step changes it. */
  function SeenAfter(seen: Seen, sys: Sys, step: Step, selectorChords: seq<Chord>): Seen {
    match step
    case Refresh(live) =>
      var (rt, plan) := BuildPlan(sys.rt, sys.config, live, selectorChords);
      Seen(Some(plan.hud), rt.selector.Some?, plan.captureAll)
    case Install(config, hud, focus) =>
      var (rt, plan) := BuildPlan(Fresh(config, hud, focus), Some(config), focus, selectorChords);
      if plan.errors == [] then Seen(Some(plan.hud), rt.selector.Some?, plan.captureAll) else seen
    case _ => seen
  }

  function SeenBy(steps: seq<Step>, selectorChords: seq<Chord>): Seen {
    if steps == [] then Seen(None, false, false)
    else
      var init := steps[..|steps| - 1];
      SeenAfter(SeenBy(init, selectorChords), Run(INITIAL, init, selectorChords), steps[|steps| - 1], selectorChords)
  }

  /** Every key is taken only while the HUD that was sent is visible and says so, or a selector is open. */
  ghost predicate Announced(seen: Seen) {
    && (seen.captureAll ==> seen.selectorOpen || (seen.hud.Some? && seen.hud.value.visible && seen.hud.value.capture))
    && (seen.hud.Some? && seen.hud.value.capture ==> seen.hud.value.visible && seen.captureAll)
  }

  lemma StepKeepsAnnounced(seen: Seen, sys: Sys, step: Step, selectorChords: seq<Chord>)
    requires Announced(seen)
    ensures Announced(SeenAfter(seen, sys, step, selectorChords))
  {
    hide BuildPlan;
    match step {
      case Refresh(live) =>
        PlanIsAnnounced(sys.rt, sys.config, live, selectorChords);
      case Install(config, hud, focus) =>
        PlanIsAnnounced(Fresh(config, hud, focus), Some(config), focus, selectorChords);
      case _ =>
    }
  }

  lemma PlanIsAnnounced(rt: Rt, config: Option<Config>, live: Window, selectorChords: seq<Chord>)
    ensures var (rt', plan) := BuildPlan(rt, config, live, selectorChords);
            Announced(Seen(Some(plan.hud), rt'.selector.Some?, plan.captureAll))
  {
    hide BuildPlan, Listens;
    PlanKeeps(rt, config, live, selectorChords);
    PlanListens(rt, config, live, selectorChords);
    PlanDescribesRuntime(rt, config, live, selectorChords);
  }

  /**
   In every run, keys are taken exactly as the last HUD announced, unless a
   selector was open: there is no capture behind a hidden HUD.
   */
  lemma {:induction false} CaptureIsAnnounced(steps: seq<Step>, selectorChords: seq<Chord>)
    ensures Announced(SeenBy(steps, selectorChords))
  {
    hide SeenAfter, Run;
    if steps != [] {
      var init := steps[..|steps| - 1];
      CaptureIsAnnounced(init, selectorChords);
      StepKeepsAnnounced(SeenBy(init, selectorChords), Run(INITIAL, init, selectorChords), steps[|steps| - 1],
                         selectorChords);
    }
  }

  // ---------- A refresh that a failed rebind does not put back ----------

  const CHILD_OPENED := [Install(DEPTH_CONFIG, false, None)] + [Nav(PushNav(EMPTY_MODE, Some("child")), None)]

  lemma ChildIsOpen()
    ensures var sys := Run(INITIAL, CHILD_OPENED, []);
            && sys.config == Some(DEPTH_CONFIG) && sys.rt.stack == CHILD_STACK && sys.rt.selector.None?
            && sys.rt.hudVisible && sys.rt.session == Some(None)
  {
    var start := Fresh(DEPTH_CONFIG, false, None);
    RunOne([], Install(DEPTH_CONFIG, false, None), []);
    assert [] + [Install(DEPTH_CONFIG, false, None)] == [Install(DEPTH_CONFIG, false, None)];
    RootFollowsDepth(ModeCtx(None, false, 0), []);
    assert start.stack == [OneFrame(0)[0].(rendered := [])];
    PlanKeeps(start, Some(DEPTH_CONFIG), None, []);
    RunOne([Install(DEPTH_CONFIG, false, None)], Nav(PushNav(EMPTY_MODE, Some("child")), None), []);
  }

  /**
   Entering a mode that has nothing to offer, in a menu whose root shows its
   depth: the refresh succeeds and drops the mode, and a failed rebind after it
   leaves another runtime.
   */
  lemma TruncatedRefreshIsVisible()
    ensures var before := Run(INITIAL, CHILD_OPENED, []);
            var refreshed := After(before, Refresh(None), []);
            && BuildPlan(before.rt, before.config, None, []).1.errors == []
            && After(refreshed, FailedRefresh(None), []).rt != refreshed.rt
  {
    ChildIsOpen();
    hide Run, RenderFrom, RolledBack, Flatten, DepthView, ModesOfferTheSame, FailsToRender;
    var before := Run(INITIAL, CHILD_OPENED, []).rt;
    ChildIsDropped(ModeCtx(None, true, 1));
    var rt := BuildPlan(before, Some(DEPTH_CONFIG), None, []).0;
    assert rt.stack == OneFrame(1) && rt.focus == None && rt.hudVisible;
    OfferChanges(rt);
    FailedRebindRestoresIff(before, DEPTH_CONFIG, None, None, []);
  }

  lemma OfferChanges(rt: Rt)
    requires rt.stack == OneFrame(1)
    ensures !ModesOfferTheSame(rt, DEPTH_CONFIG) && !FailsToRender(rt, DEPTH_CONFIG)
  {
    var ctx := ModeCtx(rt.focus, rt.hudVisible, 0);
    DepthNeverFails(rt.stack, ctx, 0);
    DedupOne(DepthBinding(0));
    assert OneFrame(0)[0].rendered[0].chord.spec == "a" && OneFrame(1)[0].rendered[0].chord.spec == "b";
    assert !FrameSettled(DEPTH_CONFIG, rt.stack[0], ctx);
  }

  // ---------- Opening submenus ----------

  /**
   Entering a submenu from the keyboard and refreshing leaves it open exactly if
   it has something to offer and its chord is one of the top frame's own, as long
   as that frame goes on showing what it shows.
   */
  lemma EnteringOpensIff(sys: Sys, chord: Chord, opening: Window, live: Window, selectorChords: seq<Chord>)
    requires sys.config.Some? && sys.rt.selector.None? && sys.rt.stack != []
    requires var b := InScope(sys.rt.stack, chord, false);
             b.Some? && b.value.kind.Mode? && b.value.modeId.Some?
    ensures var config, stack, b := sys.config.value, sys.rt.stack, InScope(sys.rt.stack, chord, false).value;
            var entered := After(sys, Enter(b, b.kind.mode, opening), selectorChords);
            var (rt, plan) := BuildPlan(entered.rt, sys.config, live, selectorChords);
            var ctx := ModeCtx(rt.focus, true, |stack|);
            plan.errors == [] && |rt.stack| >= |stack| && rt.stack[|stack| - 1].rendered == stack[|stack| - 1].rendered
            ==> (|rt.stack| == |stack| + 1
                 <==> Offered(stack[|stack| - 1].rendered, chord, false).Some?
                      && config.view(b.kind.mode, ctx).Ok? && config.view(b.kind.mode, ctx).value.bindings != [])
  {
    hide RenderStack, InScope, Offered;
    var b := InScope(sys.rt.stack, chord, false).value;
    var entered := After(sys, Enter(b, b.kind.mode, opening), selectorChords).rt;
    assert entered.stack == sys.rt.stack + [Submenu(b)];
    var ctx := ModeCtx(ContextWindow(entered, live), true, |sys.rt.stack|);
    SubmenuOpensIff(sys.config.value, sys.rt.stack, chord, ctx);
  }

  // A root with a submenu that children inherit, and a child without it.

  const LIST_MODE := ModeRef(1, 0, None)
  const CHILD_MODE := ModeRef(2, 0, None)

  const LIST_BINDING :=
    Binding(Chord("l"), "list", Mode(LIST_MODE), Some(1), false, true, false, false)
  const CHILD_BINDING :=
    Binding(Chord("c"), "child", Mode(CHILD_MODE), Some(2), false, false, false, false)

  function Leaf(chord: Chord): Binding {
    Binding(chord, "", Handler(0), None, false, false, false, false)
  }

  function MenuView(mode: ModeRef, ctx: ModeCtx): Result<ModeView, string> {
    Ok(ModeView(if mode == ROOT_MODE then [LIST_BINDING, CHILD_BINDING]
                else if mode == LIST_MODE then [Leaf(Chord("y"))]
                else [Leaf(Chord("x"))], false))
  }

  const MENU_CONFIG := Config(ROOT_MODE, DEFAULT_STYLE, MenuView)

  const INSTALLED := [Install(MENU_CONFIG, false, None)]
  const CHILD_ENTERED := INSTALLED + [Enter(CHILD_BINDING, CHILD_MODE, None)]
  const CHILD_SHOWN := CHILD_ENTERED + [Refresh(None)]

  lemma DedupTwo(a: Binding, b: Binding)
    requires a.chord != b.chord
    ensures Dedup([a, b]) == [a, b]
  {
    DedupOne(a);
    assert [a, b][..1] == [a];
  }

  lemma MenuNeverFails(rt: Rt)
    requires rt.selector.None?
    ensures var (rt', plan) := BuildPlan(rt, Some(MENU_CONFIG), None, []);
            var start := if rt.stack == [] then [Frame("root", ROOT_MODE, None, [], false)] else rt.stack;
            var ctx := ModeCtx(rt'.focus, rt.hudVisible, |start| - 1);
            && plan.errors == [] && RenderedWell(MENU_CONFIG, start, rt'.stack, ctx)
            && Describes(MENU_CONFIG, rt'.stack, rt'.rendered)
            && rt' == rt.(focus := rt'.focus, stack := rt'.stack, rendered := rt'.rendered)
  {
    hide BuildPlan, RenderedWell, Describes;
    RefreshRenders(rt, MENU_CONFIG, None, []);
  }

  /** A rendered stack of the root, or of the root and its child, shows what the two offer. */
  lemma {:induction false} MenuShows(before: Stack, after: Stack, ctx: ModeCtx)
    requires 1 <= |before| <= 2 && before[0].closure == ROOT_MODE
    requires |before| == 2 ==> before[1].closure == CHILD_MODE && before[1].enteredVia == Some((CHILD_BINDING.chord, 2))
    requires RenderedWell(MENU_CONFIG, before, after, ctx)
    ensures |after| == |before| && after[0].closure == ROOT_MODE
    ensures after[0].rendered == [LIST_BINDING, CHILD_BINDING]
    ensures |before| == 2 ==> after[1].closure == CHILD_MODE && after[1].enteredVia == before[1].enteredVia
                              && after[1].rendered == [Leaf(Chord("x"))]
  {
    hide Dedup;
    DedupTwo(LIST_BINDING, CHILD_BINDING);
    DedupOne(Leaf(Chord("x")));
    assert after[0].rendered[1] == CHILD_BINDING;
  }

  lemma {:induction false} RootIsShown()
    ensures var sys := Run(INITIAL, INSTALLED, []);
            && sys.config == Some(MENU_CONFIG) && sys.rt.selector.None? && |sys.rt.stack| == 1
            && sys.rt.stack[0].closure == ROOT_MODE
  {
    hide BuildPlan, Describes;
    var start := Fresh(MENU_CONFIG, false, None);
    MenuNeverFails(start);
    RunOne([], INSTALLED[0], []);
    assert [] + [INSTALLED[0]] == INSTALLED;
    var (rt, _) := BuildPlan(start, Some(MENU_CONFIG), None, []);
    MenuShows(start.stack, rt.stack, ModeCtx(rt.focus, false, 0));
  }

  /** Installing the configuration shows the root; entering its child shows both. */
  lemma {:induction false} ChildIsShown()
    ensures var sys := Run(INITIAL, CHILD_SHOWN, []);
            && sys.config == Some(MENU_CONFIG) && sys.rt.selector.None? && |sys.rt.stack| == 2
            && sys.rt.stack[0].rendered == [LIST_BINDING, CHILD_BINDING]
            && sys.rt.stack[1].rendered == [Leaf(Chord("x"))]
            && sys.rt.stack[1].enteredVia == Some((CHILD_BINDING.chord, 2))
            && sys.rt.stack[0].closure == ROOT_MODE && sys.rt.stack[1].closure == CHILD_MODE
            && Describes(MENU_CONFIG, sys.rt.stack, sys.rt.rendered)
  {
    hide BuildPlan, Describes, Run, RenderedWell;
    RootIsShown();
    RunOne(INSTALLED, Enter(CHILD_BINDING, CHILD_MODE, None), []);
    var entered := Run(INITIAL, CHILD_ENTERED, []).rt;
    assert entered.stack[1] == Submenu(CHILD_BINDING);
    MenuNeverFails(entered);
    RunOne(CHILD_ENTERED, Refresh(None), []);
    var (rt, _) := BuildPlan(entered, Some(MENU_CONFIG), None, []);
    MenuShows(entered.stack, rt.stack, ModeCtx(rt.focus, entered.hudVisible, 1));
  }

  /**
   An inherited submenu cannot be opened: a run from the start shows a child in
   which the chord of the root's submenu means that submenu; entering it and
   refreshing succeeds and leaves the child on top.
   */
  lemma InheritedSubmenuIsDropped()
    ensures var sys := Run(INITIAL, CHILD_SHOWN, []);
            var entered := After(sys, Enter(LIST_BINDING, LIST_MODE, None), []);
            var (rt, plan) := BuildPlan(entered.rt, entered.config, None, []);
            && ResolveBinding(sys.rt.rendered.bindings, Chord("l")) == Some(LIST_BINDING)
            && |entered.rt.stack| == 3 && plan.errors == [] && |rt.stack| == 2
  {
    ChildIsShown();
    hide BuildPlan, Run, InScope, RenderedWell, Describes;
    var sys := Run(INITIAL, CHILD_SHOWN, []);
    var entered := After(sys, Enter(LIST_BINDING, LIST_MODE, None), []);
    MenuNeverFails(entered.rt);
    ListIsInherited(sys.rt.stack);
    ListResolves(sys.rt.stack, sys.rt.rendered);
    var (rt, plan) := BuildPlan(entered.rt, entered.config, None, []);
    ListIsCutOff(sys.rt.stack, entered.rt.stack, rt.stack, ModeCtx(rt.focus, entered.rt.hudVisible, 2));
  }

  lemma {:induction false} ListIsCutOff(stack: Stack, pushed: Stack, after: Stack, ctx: ModeCtx)
    requires |stack| == 2 && pushed == stack + [Submenu(LIST_BINDING)]
    requires stack[0].closure == ROOT_MODE && stack[1].closure == CHILD_MODE
    requires stack[1].enteredVia == Some((CHILD_BINDING.chord, 2))
    requires RenderedWell(MENU_CONFIG, pushed, after, ctx)
    ensures |after| == 2
  {
    hide Dedup;
    DedupTwo(LIST_BINDING, CHILD_BINDING);
    DedupOne(Leaf(Chord("x")));
    assert pushed[2] == Submenu(LIST_BINDING) && pushed[1] == stack[1] && pushed[0] == stack[0];
    assert after[0].rendered[1] == CHILD_BINDING;
    assert |after| >= 2 ==> after[1].rendered == [Leaf(Chord("x"))];
    assert NotOffered([Leaf(Chord("x"))], LIST_BINDING.chord, 1);
  }

  lemma {:induction false} ListResolves(stack: Stack, rendered: Rendered)
    requires Describes(MENU_CONFIG, stack, rendered) && InScope(stack, Chord("l"), false) == Some(LIST_BINDING)
    ensures ResolveBinding(rendered.bindings, Chord("l")) == Some(LIST_BINDING)
  {
    hide InScope, ResolveBinding;
  }

  lemma {:induction false} ListIsInherited(stack: Stack)
    requires |stack| == 2 && stack[0].rendered == [LIST_BINDING, CHILD_BINDING]
    requires stack[1].rendered == [Leaf(Chord("x"))]
    ensures InScope(stack, Chord("l"), false) == Some(LIST_BINDING)
  {
    hide Offered, InScope;
    assert Chord("l").spec[0] != Chord("x").spec[0];
    ScopeOfTwo(stack, Chord("l"));
    OfferedOrNot(stack[1].rendered, Chord("l"), false);
    OfferedOrNot(stack[0].rendered, Chord("l"), true);
  }

  lemma {:induction false} ScopeOfTwo(stack: Stack, chord: Chord)
    requires |stack| == 2
    ensures InScope(stack, chord, false)
         == Else(Offered(stack[1].rendered, chord, false), Offered(stack[0].rendered, chord, true))
  {
    hide Offered;
    assert stack[..1][..0] == [];
    assert InScope(stack[..1][..0], chord, true) == None;
    assert InScope(stack[..1], chord, true) == Offered(stack[..1][0].rendered, chord, true);
  }

  /** The first binding of a list is offered for its chord; a list of one offers no other chord. */
  lemma {:induction false} OfferedOrNot(bindings: seq<Binding>, chord: Chord, globalOnly: bool)
    requires bindings != []
    ensures bindings[0].chord == chord && (globalOnly ==> bindings[0].global) ==>
              Offered(bindings, chord, globalOnly) == Some(bindings[0])
    ensures |bindings| == 1 && bindings[0].chord != chord ==> Offered(bindings, chord, globalOnly) == None
  {
  }
}
