/**
 Refreshing the engine, crates/hotki-engine/src/refresh.rs: render the mode
 stack for the current focus, bring the hotkey registrations in line, and tell
 the UI, all or nothing.
 */
module Refresh {
  import opened Wrappers
  import opened Keys
  import opened Modes
  import opened Runtime
  import opened StackRendering
  import KeyBinding

  // ---------- What a refresh aims at ----------

  datatype HudState = HudState(
    visible: bool, rows: seq<HudRow>, depth: nat, breadcrumbs: seq<string>, style: Style, capture: bool)

  datatype Displays = Displays(frames: seq<nat>)

  datatype UiMsg = HudUpdate(hud: HudState, displays: Displays)

  datatype Plan = Plan(errors: seq<string>, keyPairs: seq<(string, Chord)>, captureAll: bool, hud: HudState)

  function HudOf(rt: Rt): HudState {
    HudState(rt.hudVisible, rt.rendered.hudRows, Depth(rt.stack), Breadcrumbs(rt.stack), rt.rendered.style,
             rt.hudVisible && rt.rendered.capture)
  }

  function Named(chords: seq<Chord>): seq<(string, Chord)> {
    seq(|chords|, i requires 0 <= i < |chords| => (Ident(chords[i]), chords[i]))
  }

  function RenderedChords(rendered: Rendered): seq<Chord> {
    seq(|rendered.bindings|, i requires 0 <= i < |rendered.bindings| => rendered.bindings[i].0)
  }

  /** The registrations `rt` calls for. */
  function KeyPairs(rt: Rt, loaded: bool, selectorChords: seq<Chord>): seq<(string, Chord)> {
    if !loaded then []
    else if rt.selector.Some? then Named(selectorChords)
    else Named(RenderedChords(rt.rendered))
  }

  /** Whether `rt` calls for capturing every key. */
  predicate CaptureAll(rt: Rt, loaded: bool) {
    loaded && (rt.selector.Some? || (rt.hudVisible && rt.rendered.capture))
  }

  // ---------- Building a plan ----------

  /** Render the stack; failing that the root alone; failing that nothing. */
  function Recovered(rt: Rt, config: Config): (Rt, seq<string>) {
    var ctx := ModeCtx(rt.focus, rt.hudVisible, Depth(rt.stack));
    var (stack1, r1) := RenderStack(config, rt.stack, ctx);
    if r1.Ok? then (rt.(stack := stack1, rendered := r1.value), [])
    else
      var (stack2, r2) := RenderStack(config, AtRoot(stack1), ctx.(depth := 0));
      if r2.Ok? then (rt.(stack := stack2, rendered := r2.value), [r1.error])
      else (rt.(stack := stack2, rendered := EmptyRendered(config.style)), [r1.error, r2.error])
  }

  function BuildPlan(rt: Rt, config: Option<Config>, live: Window, selectorChords: seq<Chord>): (Rt, Plan) {
    var rt1 := rt.(focus := ContextWindow(rt, live));
    if config.None? then
      var rt2 := Cleared(rt1, DEFAULT_STYLE);
      (rt2, Plan([], [], false, HudOf(rt2)))
    else
      var rt2 := rt1.(stack := Ensured(config.value, rt1.stack));
      if rt2.selector.Some? then (rt2, Plan([], Named(selectorChords), true, HudOf(rt2)))
      else
        var (rt3, errors) := Recovered(rt2, config.value);
        (rt3, Plan(errors, Named(RenderedChords(rt3.rendered)), rt3.hudVisible && rt3.rendered.capture, HudOf(rt3)))
  }

  method RenderWithRecovery(rt: RuntimeState, config: Config) returns (errors: seq<string>)
    modifies rt, rt.stack
    ensures (rt.Value(), errors) == Recovered(old(rt.Value()), config)
  {
    hide RenderStack;
    errors := [];
    var ctx := ModeCtx(rt.focus, rt.hudVisible, Depth(rt.stack.frames));
    var r := Render(config, rt.stack, ctx);
    if r.Ok? {
      rt.rendered := r.value;
      return;
    }
    errors := [r.error];
    var _ := rt.stack.ResetToRoot();
    ctx := ctx.(depth := 0);
    r := Render(config, rt.stack, ctx);
    if r.Ok? {
      rt.rendered := r.value;
      return;
    }
    errors := [errors[0], r.error];
    rt.rendered := EmptyRendered(config.style);
  }

  method BuildRefreshPlan(rt: RuntimeState, config: Option<Config>, live: Window, selectorChords: seq<Chord>)
    returns (plan: Plan)
    modifies rt, rt.stack
    ensures (rt.Value(), plan) == BuildPlan(old(rt.Value()), config, live, selectorChords)
  {
    rt.focus := ContextWindow(rt.Value(), live);
    if config.None? {
      rt.ClearConfigState(DEFAULT_STYLE);
      return Plan([], [], false, HudOf(rt.Value()));
    }
    if rt.stack.frames == [] {
      rt.stack.frames := [RootFrame(config.value)];
    }
    if rt.selector.Some? {
      return Plan([], Named(selectorChords), true, HudOf(rt.Value()));
    }
    var errors := RenderWithRecovery(rt, config.value);
    plan := Plan(errors, Named(RenderedChords(rt.rendered)), rt.hudVisible && rt.rendered.capture, HudOf(rt.Value()));
  }

  /** A plan describes the runtime it leaves behind and nothing else. */
  lemma PlanDescribesRuntime(rt: Rt, config: Option<Config>, live: Window, selectorChords: seq<Chord>)
    ensures var (rt', plan) := BuildPlan(rt, config, live, selectorChords);
            && plan.keyPairs == KeyPairs(rt', config.Some?, selectorChords)
            && plan.captureAll == CaptureAll(rt', config.Some?)
            && plan.hud == HudOf(rt')
            && rt'.focus == ContextWindow(rt, live)
            && (config.Some? ==>
                  rt'.session == rt.session && rt'.selector == rt.selector && rt'.hudVisible == rt.hudVisible)
  {
  }

  // ---------- What a plan says, on the fields ----------

  /** The HUD shows the runtime as it is, and claims the keys only while it is visible. */
  ghost predicate Depicts(hud: HudState, rt: Rt) {
    && hud.visible == rt.hudVisible && hud.rows == rt.rendered.hudRows && hud.style == rt.rendered.style
    && (hud.capture <==> rt.hudVisible && rt.rendered.capture)
    && hud.depth == |hud.breadcrumbs| == Depth(rt.stack)
    && (rt.stack != [] ==> |rt.stack| == hud.depth + 1)
    && forall i | 0 < i < |rt.stack| :: hud.breadcrumbs[i - 1] == rt.stack[i].title
  }

  lemma HudDepicts(rt: Rt)
    ensures Depicts(HudOf(rt), rt)
  {
    BreadcrumbsAreTitles(rt.stack);
  }

  /** What is left when the mode at depth `d` has failed: the root rendered alone, or, failing that too, as it is. */
  ghost predicate FellBack(config: Config, before: Stack, after: Stack, ctx: ModeCtx, errors: seq<string>, d: nat) {
    && 1 <= |errors| <= 2
    && exists failed: Stack | FailedAt(config, before, failed, ctx, errors[0], d) ::
         if |errors| == 1 then RenderedWell(config, [failed[0]], after, ctx.(depth := 0))
         else after == [failed[0]] && config.view(failed[0].closure, ctx.(depth := 0)) == Err(errors[1])
  }

  /**
   What a refresh renders: the stack; or, if a mode of it fails, the root alone
   as rendering left it; or, if the root fails too, nothing.
   */
  lemma RecoveryMeans(rt: Rt, config: Config)
    requires rt.stack != []
    ensures var (rt', errors) := Recovered(rt, config);
            var ctx := ModeCtx(rt.focus, rt.hudVisible, |rt.stack| - 1);
            && rt' == rt.(stack := rt'.stack, rendered := rt'.rendered)
            && (if errors == [] then RenderedWell(config, rt.stack, rt'.stack, ctx)
                else exists d :: FellBack(config, rt.stack, rt'.stack, ctx, errors, d))
            && (if |errors| < 2 then Describes(config, rt'.stack, rt'.rendered)
                else rt'.rendered == Rendered([], [], config.style, false))
  {
    hide RenderStack, RenderedWell, FailedAt, Describes;
    var ctx := ModeCtx(rt.focus, rt.hudVisible, |rt.stack| - 1);
    var (stack1, r1) := RenderStack(config, rt.stack, ctx);
    RenderCutsOnlyForCause(config, rt.stack, ctx);
    StackSurvives(config, rt.stack, ctx);
    RenderDescribes(config, rt.stack, ctx);
    if r1.Err? {
      var d: nat :| FailedAt(config, rt.stack, stack1, ctx, r1.error, d);
      var ctx0 := ctx.(depth := 0);
      assert AtRoot(stack1) == [stack1[0]];
      RenderDescribes(config, [stack1[0]], ctx0);
      RenderCutsOnlyForCause(config, [stack1[0]], ctx0);
      RootFails(config, stack1[0], ctx0);
      var (rt', errors) := Recovered(rt, config);
      var (stack2, r2) := RenderStack(config, [stack1[0]], ctx0);
      assert rt'.stack == stack2;
      assert errors == if r2.Ok? then [r1.error] else [r1.error, r2.error];
      assert FailedAt(config, rt.stack, stack1, ctx, errors[0], d);
      assert r2.Ok? ==> RenderedWell(config, [stack1[0]], stack2, ctx0);
      assert FellBack(config, rt.stack, rt'.stack, ctx, errors, d);
    }
  }

  /** What a refresh without a selector leaves: the window, and what recovery made of the stack. */
  lemma RefreshRenders(rt: Rt, config: Config, live: Window, selectorChords: seq<Chord>)
    requires rt.selector.None?
    ensures var (rt', plan) := BuildPlan(rt, Some(config), live, selectorChords);
            var start := if rt.stack == [] then [Frame("root", config.root, None, [], false)] else rt.stack;
            var window := if rt.session.Some? then rt.session.value else live;
            var ctx := ModeCtx(window, rt.hudVisible, |start| - 1);
            && rt' == rt.(focus := window, stack := rt'.stack, rendered := rt'.rendered)
            && (if plan.errors == [] then RenderedWell(config, start, rt'.stack, ctx)
                else exists d :: FellBack(config, start, rt'.stack, ctx, plan.errors, d))
            && (if |plan.errors| < 2 then Describes(config, rt'.stack, rt'.rendered)
                else rt'.rendered == Rendered([], [], config.style, false))
  {
    hide Recovered, RenderedWell, FellBack, Describes;
    var start := rt.(focus := ContextWindow(rt, live), stack := Ensured(config, rt.stack));
    RecoveryMeans(start, config);
    var (rt', errors) := Recovered(start, config);
    var ctx := ModeCtx(start.focus, start.hudVisible, |start.stack| - 1);
    if errors != [] {
      var d :| FellBack(config, start.stack, rt'.stack, ctx, errors, d);
      var root := if rt.stack == [] then [Frame("root", config.root, None, [], false)] else rt.stack;
      assert root == start.stack;
      assert FellBack(config, root, rt'.stack, ctx, errors, d);
    }
  }

  lemma RenderDescribes(config: Config, stack: Stack, ctx: ModeCtx)
    ensures var (after, r) := RenderStack(config, stack, ctx);
            r.Ok? ==> Describes(config, after, r.value)
  {
    hide Describes, Output;
    OutputDescribes(config, RenderStack(config, stack, ctx).0);
  }

  lemma RootFails(config: Config, root: Frame, ctx: ModeCtx)
    ensures var (after, r) := RenderStack(config, [root], ctx);
            r.Err? ==> after == [root] && config.view(root.closure, ctx) == Err(r.error)
  {
    RenderCutsOnlyForCause(config, [root], ctx);
    RootFailsAlike(config, [root], ctx);
  }

  lemma {:induction false} CollectedKeys(pairs: seq<(string, Chord)>)
    ensures forall ident :: ident in KeyBinding.Collect(pairs) <==> exists i :: 0 <= i < |pairs| && pairs[i].0 == ident
    ensures forall ident | ident in KeyBinding.Collect(pairs) ::
              exists i :: 0 <= i < |pairs| && pairs[i] == (ident, KeyBinding.Collect(pairs)[ident])
  {
    if pairs != [] {
      var init, last := pairs[..|pairs| - 1], pairs[|pairs| - 1];
      CollectedKeys(init);
      assert forall i | 0 <= i < |init| :: init[i] == pairs[i];
      forall ident | ident in KeyBinding.Collect(pairs)
        ensures exists i :: 0 <= i < |pairs| && pairs[i] == (ident, KeyBinding.Collect(pairs)[ident])
      {
        if ident == last.0 {
          assert pairs[|pairs| - 1] == (ident, last.1);
        } else {
          var i :| 0 <= i < |init| && init[i] == (ident, KeyBinding.Collect(init)[ident]);
          assert pairs[i] == init[i];
        }
      }
      forall ident
        ensures ident in KeyBinding.Collect(pairs) <==> exists i :: 0 <= i < |pairs| && pairs[i].0 == ident
      {
        if i :| 0 <= i < |pairs| && pairs[i].0 == ident && i < |init| {
          assert init[i].0 == ident;
        }
      }
    }
  }

  lemma NamedIsInjective(chords: seq<Chord>, chord: Chord)
    ensures var bound := KeyBinding.Collect(Named(chords));
            && (Ident(chord) in bound <==> chord in chords)
            && (Ident(chord) in bound ==> bound[Ident(chord)] == chord)
  {
    var pairs := Named(chords);
    CollectedKeys(pairs);
    forall c: Chord | Ident(c) == Ident(chord)
      ensures c == chord
    {
    }
    if Ident(chord) in KeyBinding.Collect(pairs) {
      var i :| 0 <= i < |pairs| && pairs[i] == (Ident(chord), KeyBinding.Collect(pairs)[Ident(chord)]);
      assert chords[i] == chord;
    }
    if chord in chords {
      var i :| 0 <= i < |chords| && chords[i] == chord;
      assert pairs[i].0 == Ident(chord);
    }
  }

  /**
   The keys that a refresh registers are the keys that mean something: a chord
   is registered, under its own identifier, exactly if it resolves to a binding.
   */
  lemma RegisteredIffResolvable(rendered: Rendered, chord: Chord)
    ensures var bound := KeyBinding.Collect(Named(RenderedChords(rendered)));
            && (Ident(chord) in bound <==> ResolveBinding(rendered.bindings, chord).Some?)
            && (Ident(chord) in bound ==> bound[Ident(chord)] == chord)
  {
    NamedIsInjective(RenderedChords(rendered), chord);
    ResolvesIffListed(rendered.bindings, chord);
    if e :| e in rendered.bindings && e.0 == chord {
      var i :| 0 <= i < |rendered.bindings| && rendered.bindings[i] == e;
      assert RenderedChords(rendered)[i] == chord;
    }
  }

  /** Does the top frame of the stack ask for every key? */
  ghost predicate TopAsks(stack: Stack) {
    stack != [] && stack[|stack| - 1].capture
  }

  /** When every key is captured, and which keys are registered: by the selector, or by the rendered stack. */
  ghost predicate Listens(rt: Rt, errors: seq<string>, loaded: bool, selectorChords: seq<Chord>,
                          captureAll: bool, bound: map<string, Chord>) {
    && (captureAll <==> loaded && (rt.selector.Some? || (rt.hudVisible && |errors| < 2 && TopAsks(rt.stack))))
    && forall chord ::
         && (Ident(chord) in bound <==>
               loaded && if rt.selector.Some? then chord in selectorChords
                         else |errors| < 2 && InScope(rt.stack, chord, false).Some?)
         && (Ident(chord) in bound ==> bound[Ident(chord)] == chord)
  }

  /**
   A plan captures every key exactly if a selector is open, or the HUD is visible
   and the top frame of a stack that could be rendered asks for it; it registers
   the selector's keys or those that mean something on that stack.  Without a
   selector the HUD that is sent says whether every key is captured.
   */
  lemma PlanListens(rt: Rt, config: Option<Config>, live: Window, selectorChords: seq<Chord>)
    ensures var (rt', plan) := BuildPlan(rt, config, live, selectorChords);
            && Listens(rt', plan.errors, config.Some?, selectorChords, plan.captureAll,
                       KeyBinding.Collect(plan.keyPairs))
            && (rt'.selector.None? ==> plan.captureAll == plan.hud.capture)
  {
    hide Recovered, KeyBinding.Collect, Named;
    var (rt', plan) := BuildPlan(rt, config, live, selectorChords);
    if config.None? {
      assert KeyBinding.Collect([]) == map[] by { NothingCollected(); }
    } else if rt.selector.Some? {
      forall chord
        ensures var bound := KeyBinding.Collect(plan.keyPairs);
                && (Ident(chord) in bound <==> chord in selectorChords)
                && (Ident(chord) in bound ==> bound[Ident(chord)] == chord)
      {
        NamedIsInjective(selectorChords, chord);
      }
    } else {
      var start := rt.(focus := ContextWindow(rt, live), stack := Ensured(config.value, rt.stack));
      RecoveryMeans(start, config.value);
      forall chord
        ensures var bound := KeyBinding.Collect(plan.keyPairs);
                && (Ident(chord) in bound <==> ResolveBinding(rt'.rendered.bindings, chord).Some?)
                && (Ident(chord) in bound ==> bound[Ident(chord)] == chord)
      {
        RegisteredIffResolvable(rt'.rendered, chord);
      }
    }
  }

  lemma NothingCollected()
    ensures KeyBinding.Collect([]) == map[]
  {
  }

  // ---------- The transaction ----------

  /** The runtime a failed rebind leaves. */
  function RolledBack(rt: Rt, config: Option<Config>, live: Window, selectorChords: seq<Chord>): Rt {
    var tried := BuildPlan(rt, config, live, selectorChords).0;
    var back := Restored(tried, CheckpointOf(rt));
    if rt.selector.Some? || config.None? then back
    else
      var (again, plan) := BuildPlan(back, config, rt.focus, selectorChords);
      if plan.errors == [] then again else Restored(again, CheckpointOf(rt))
  }

  class Engine {
    var config: Option<Config>
    var configPath: Option<string>
    var rt: RuntimeState
    const manager: KeyBinding.KeyBindingManager
    var displays: Displays
    var ui: seq<UiMsg>
    const selectorChords: seq<Chord>

    ghost predicate Valid()
      reads this, manager, manager.api
    {
      manager.Valid()
    }

    /** The registered chords, by identifier. */
    function Bound(): map<string, Chord>
      reads this, manager
    {
      KeyBinding.Chords(manager.bindings)
    }

    constructor (manager: KeyBinding.KeyBindingManager, selectorChords: seq<Chord>)
      requires manager.Valid()
      ensures Valid() && this.manager == manager && this.selectorChords == selectorChords
      ensures config == None && ui == [] && rt.Value() == EMPTY_RT && fresh(rt) && fresh(rt.stack)
    {
      this.manager, this.selectorChords := manager, selectorChords;
      config, configPath, displays, ui := None, None, Displays([]), [];
      rt := new RuntimeState.Empty();
    }

    /**
     `rebind_and_refresh`.  `uiReady` says whether the UI channel yields a permit.
     The errors returned with success are those of rendering; they are for the user.
     */
    method RebindAndRefresh(live: Window, worldDisplays: Displays, uiReady: bool)
      returns (r: Result<seq<string>, ()>)
      requires Valid()
      modifies this`displays, this`ui, rt, rt.stack, manager, manager.api
      ensures Valid()
      ensures r.Ok? ==>
        && uiReady
        && (rt.Value(), r.value)
           == (BuildPlan(old(rt.Value()), config, live, selectorChords).0,
               BuildPlan(old(rt.Value()), config, live, selectorChords).1.errors)
        && Bound() == KeyBinding.Collect(KeyPairs(rt.Value(), config.Some?, selectorChords))
        && manager.captureAllActive == CaptureAll(rt.Value(), config.Some?)
        && Listens(rt.Value(), r.value, config.Some?, selectorChords, manager.captureAllActive, Bound())
        && displays == worldDisplays
        && ui == old(ui) + [HudUpdate(HudOf(rt.Value()), worldDisplays)]
        && Depicts(ui[|ui| - 1].hud, rt.Value())
        && (rt.selector.None? ==> manager.captureAllActive == ui[|ui| - 1].hud.capture)
      ensures r.Err? ==>
        && rt.Value() == (if uiReady then RolledBack(old(rt.Value()), config, live, selectorChords)
                          else old(rt.Value()))
        && Bound() == old(Bound()) && manager.captureAllActive == old(manager.captureAllActive)
        && displays == old(displays) && ui == old(ui)
    {
      hide BuildPlan, KeyPairs, CaptureAll, HudOf, Depicts, Listens, KeyBinding.Collect, KeyBinding.Chords;
      hide KeyBinding.Inverse, KeyBinding.Registered, KeyBinding.Subset, KeyBinding.Extends, KeyBinding.Unchanged;
      if !uiReady {
        return Err(());
      }
      var checkpoint := rt.TakeCheckpoint();
      var rollback, rollbackFocus := checkpoint, rt.focus;
      var selectorActive := rt.selector.Some?;
      PlanDescribesRuntime(rt.Value(), config, live, selectorChords);
      PlanListens(rt.Value(), config, live, selectorChords);
      HudDepicts(BuildPlan(rt.Value(), config, live, selectorChords).0);
      var plan := BuildRefreshPlan(rt, config, live, selectorChords);
      var bound := manager.UpdateBindings(plan.keyPairs);
      if bound.Err? {
        rt.Restore(checkpoint);
        if !selectorActive && config.Some? {
          var restored := BuildRefreshPlan(rt, config, rollbackFocus, selectorChords);
          if restored.errors != [] {
            rt.Restore(rollback);
          }
        }
        return Err(());
      }
      manager.SetCaptureAll(plan.captureAll);
      displays := worldDisplays;
      ui := ui + [HudUpdate(plan.hud, worldDisplays)];
      return Ok(plan.errors);
    }

    /**
     `commit_config`: put a prepared configuration in place of the current one, or
     leave everything that is seen from outside as it was.
     */
    method CommitConfig(path: string, prepared: Config, runtime: RuntimeState, plan: Plan,
                        worldDisplays: Displays, uiReady: bool)
      returns (r: Result<(), ()>)
      requires Valid()
      modifies this`config, this`configPath, this`rt, this`displays, this`ui, manager, manager.api
      ensures Valid()
      ensures r.Ok? ==>
        && uiReady && config == Some(prepared) && configPath == Some(path) && rt == runtime
        && Bound() == KeyBinding.Collect(plan.keyPairs) && manager.captureAllActive == plan.captureAll
        && displays == worldDisplays && ui == old(ui) + [HudUpdate(plan.hud, worldDisplays)]
      ensures r.Err? ==>
        && config == old(config) && configPath == old(configPath) && rt == old(rt)
        && Bound() == old(Bound()) && manager.captureAllActive == old(manager.captureAllActive)
        && displays == old(displays) && ui == old(ui)
    {
      hide KeyBinding.Collect, KeyBinding.Chords;
      hide KeyBinding.Inverse, KeyBinding.Registered, KeyBinding.Subset, KeyBinding.Extends, KeyBinding.Unchanged;
      if !uiReady {
        return Err(());
      }
      var bound := manager.UpdateBindings(plan.keyPairs);
      if bound.Err? {
        return Err(());
      }
      manager.SetCaptureAll(plan.captureAll);
      config, rt, configPath, displays := Some(prepared), runtime, Some(path), worldDisplays;
      ui := ui + [HudUpdate(plan.hud, worldDisplays)];
      return Ok(());
    }
  }

  datatype ConfigInstall = ResetFocus | KeepFocus

  /** The runtime `prepare_config` starts rendering from. */
  function Fresh(config: Config, hudVisible: bool, focus: Window): Rt {
    var rt := EMPTY_RT.(hudVisible := hudVisible, focus := focus);
    Installed(if hudVisible then WithSession(rt, focus) else rt, config)
  }

  /** `prepare_config` for a loaded configuration: any render error refuses it. */
  method PrepareConfig(config: Config, mode: ConfigInstall, current: RuntimeState, cached: Window,
                       selectorChords: seq<Chord>)
    returns (r: Result<(RuntimeState, Plan), seq<string>>)
    ensures var keep := mode.KeepFocus?;
            var (hud, focus) := if keep then (current.hudVisible, current.focus) else (false, cached);
            var (rt, plan) := BuildPlan(Fresh(config, hud, focus), Some(config), focus, selectorChords);
            if plan.errors == [] then
              r.Ok? && r.value.0.Value() == rt && r.value.1 == plan && fresh(r.value.0) && fresh(r.value.0.stack)
            else r == Err(plan.errors)
  {
    var (hudVisible, focus) := if mode.KeepFocus? then (current.hudVisible, current.focus) else (false, cached);
    var runtime := new RuntimeState.Empty();
    runtime.hudVisible, runtime.focus := hudVisible, focus;
    if hudVisible {
      runtime.StartSession(focus);
    }
    runtime.InstallConfig(config);
    var plan := BuildRefreshPlan(runtime, Some(config), focus, selectorChords);
    if plan.errors != [] {
      return Err(plan.errors);
    }
    return Ok((runtime, plan));
  }

  /**
   What an accepted configuration starts from: its root mode alone, for the window
   it was given, without a selector, and with a session exactly if the HUD stays up.
   */
  lemma InstallingShowsRoot(config: Config, hudVisible: bool, focus: Window, selectorChords: seq<Chord>)
    ensures var (rt, plan) := BuildPlan(Fresh(config, hudVisible, focus), Some(config), focus, selectorChords);
            && rt.hudVisible == hudVisible && rt.focus == focus && rt.selector == None
            && rt.session == (if hudVisible then Some(focus) else None)
            && |rt.stack| == 1 && rt.stack[0].title == "root" && rt.stack[0].closure == config.root
            && (plan.errors == [] ==>
                  var view := config.view(config.root, ModeCtx(focus, hudVisible, 0));
                  && view.Ok? && rt.stack[0].rendered == Dedup(view.value.bindings)
                  && (plan.captureAll <==> hudVisible && view.value.capture))
  {
    hide BuildPlan, Describes;
    var start := Fresh(config, hudVisible, focus);
    RefreshRenders(start, config, focus, selectorChords);
    PlanListens(start, Some(config), focus, selectorChords);
  }

  // ---------- When a failed rebind is invisible ----------

  /** Refreshing for the window already in focus changes nothing, or fails to render. */
  ghost predicate Settled(rt: Rt, config: Config, selectorChords: seq<Chord>) {
    var (again, plan) := BuildPlan(rt, Some(config), rt.focus, selectorChords);
    plan.errors != [] || again == rt
  }

  /** A failed rebind puts the runtime back exactly under these conditions. */
  lemma RollbackIsExactIff(rt: Rt, config: Option<Config>, live: Window, selectorChords: seq<Chord>)
    ensures RolledBack(rt, config, live, selectorChords) == rt
       <==> if rt.selector.Some? then config.Some?
            else config.None? || Settled(rt, config.value, selectorChords)
  {
    hide RenderStack;
    var back := Restored(BuildPlan(rt, config, live, selectorChords).0, CheckpointOf(rt));
    PlanDescribesRuntime(rt, config, live, selectorChords);
    if rt.selector.None? && config.Some? {
      assert back == rt;
      PlanDescribesRuntime(rt, config, rt.focus, selectorChords);
    }
  }

  /** The depth at which a refresh starts rendering. */
  function StartDepth(rt: Rt, config: Config): nat {
    Depth(Ensured(config, rt.stack))
  }

  /** A refresh settles the runtime if it cuts no mode off the stack, or had to recover. */
  lemma RefreshSettles(rt: Rt, config: Config, live: Window, selectorChords: seq<Chord>)
    requires rt.selector.None?
    ensures var (rt', plan) := BuildPlan(rt, Some(config), live, selectorChords);
            plan.errors != [] || Depth(rt'.stack) == StartDepth(rt, config)
            ==> Settled(rt', config, selectorChords)
  {
    var start := rt.(focus := ContextWindow(rt, live), stack := Ensured(config, rt.stack));
    RecoverySettles(start, config);
    var (rt', errors) := Recovered(start, config);
    if errors != [] || Depth(rt'.stack) == StartDepth(rt, config) {
      SameAgain(rt', config, selectorChords);
    }
  }

  /** Recovering again from what recovery left gives the same, or fails again. */
  lemma RecoverySettles(rt: Rt, config: Config)
    requires rt.stack != []
    ensures var (rt', errors) := Recovered(rt, config);
            && rt'.stack != [] && rt' == rt.(stack := rt'.stack, rendered := rt'.rendered)
            && (errors != [] || Depth(rt'.stack) == Depth(rt.stack)
                ==> Recovered(rt', config) == (rt', []) || Recovered(rt', config).1 != [])
  {
    var ctx := ModeCtx(rt.focus, rt.hudVisible, Depth(rt.stack));
    var (stack1, r1) := RenderStack(config, rt.stack, ctx);
    StackSurvives(config, rt.stack, ctx);
    RenderIsIdempotent(config, rt.stack, ctx);
    if r1.Err? {
      var ctx0 := ctx.(depth := 0);
      StackSurvives(config, AtRoot(stack1), ctx0);
      RenderIsIdempotent(config, AtRoot(stack1), ctx0);
      RootFailsAlike(config, AtRoot(stack1), ctx0);
    }
  }

  lemma StackSurvives(config: Config, stack: Stack, ctx: ModeCtx)
    requires stack != []
    ensures var after := RenderStack(config, stack, ctx).0;
            after != [] && |after| <= |stack| && after[0].closure == stack[0].closure
  {
    hide SettledTo;
    assert SettledTo(config, stack, ctx, 0) by { NothingRendered(config, stack, ctx); }
    RenderLeavesSettled(config, stack, ctx, 0);
  }

  /** A root that fails to render fails again, and is left as it was. */
  lemma RootFailsAlike(config: Config, stack: Stack, ctx: ModeCtx)
    requires |stack| == 1
    ensures RenderStack(config, stack, ctx).1.Err? ==> RenderStack(config, stack, ctx).0 == stack
  {
    var view := config.view(stack[0].closure, ctx);
    if view.Ok? {
      var next := stack[0 := Refreshed(stack[0], view.value)];
      assert RenderFrom(config, next, ctx, 1) == (next, None);
    }
  }

  lemma SameAgain(rt: Rt, config: Config, selectorChords: seq<Chord>)
    requires rt.stack != [] && rt.selector.None?
    requires Recovered(rt.(focus := ContextWindow(rt, rt.focus)), config) == (rt, [])
          || Recovered(rt.(focus := ContextWindow(rt, rt.focus)), config).1 != []
    ensures Settled(rt, config, selectorChords)
  {
  }

  /**
   A failed rebind after a refresh is invisible: the runtime is left exactly as
   the refresh made it, provided that refresh cut no mode off the stack, or had
   to recover.
   */
  lemma FailedRebindIsInvisible(before: Rt, config: Config, live: Window, next: Window, selectorChords: seq<Chord>)
    requires before.selector.None?
    ensures var (rt, plan) := BuildPlan(before, Some(config), live, selectorChords);
            plan.errors != [] || Depth(rt.stack) == StartDepth(before, config)
            ==> RolledBack(rt, Some(config), next, selectorChords) == rt
  {
    hide Settled, RolledBack;
    RefreshSettles(before, config, live, selectorChords);
    PlanDescribesRuntime(before, Some(config), live, selectorChords);
    RollbackIsExactIff(BuildPlan(before, Some(config), live, selectorChords).0, Some(config), next, selectorChords);
  }

  /** Every mode still on the stack offers, in the context the stack is in now, what it is showing. */
  ghost predicate ModesOfferTheSame(rt: Rt, config: Config) {
    forall i | 0 <= i < |rt.stack| ::
      FrameSettled(config, rt.stack[i], ModeCtx(rt.focus, rt.hudVisible, Depth(rt.stack)))
  }

  /** Some mode the stack still reaches fails to render in the context the stack is in now. */
  ghost predicate FailsToRender(rt: Rt, config: Config) {
    RenderStack(config, rt.stack, ModeCtx(rt.focus, rt.hudVisible, Depth(rt.stack))).1.Err?
  }

  /**
   A failed rebind puts the runtime of the refresh before it back exactly when
   that refresh had to recover, or every mode that survived it offers at its new
   depth what it offered at the old one, or the stack cannot be rendered there.
   */
  lemma FailedRebindRestoresIff(before: Rt, config: Config, live: Window, next: Window, selectorChords: seq<Chord>)
    requires before.selector.None?
    ensures var (rt, plan) := BuildPlan(before, Some(config), live, selectorChords);
            RolledBack(rt, Some(config), next, selectorChords) == rt
            <==> plan.errors != [] || ModesOfferTheSame(rt, config) || FailsToRender(rt, config)
  {
    hide Settled, RolledBack, ModesOfferTheSame, FailsToRender;
    var (rt, plan) := BuildPlan(before, Some(config), live, selectorChords);
    PlanDescribesRuntime(before, Some(config), live, selectorChords);
    RollbackIsExactIff(rt, Some(config), next, selectorChords);
    if plan.errors != [] {
      RefreshSettles(before, config, live, selectorChords);
    } else {
      RefreshedStack(before, config, live, selectorChords);
      SettledIff(rt, config, selectorChords);
    }
  }

  /** What a refresh without errors is known to leave. */
  ghost predicate CleanlyRendered(rt: Rt, config: Config) {
    && rt.stack != [] && rt.selector.None? && rt.focus == ContextWindow(rt, rt.focus)
    && rt.rendered == Output(config, rt.stack)
    && (forall i | 0 < i < |rt.stack| :: rt.stack[i].rendered != [] && EntryExists(rt.stack[i - 1], rt.stack[i]))
  }

  lemma RefreshedStack(before: Rt, config: Config, live: Window, selectorChords: seq<Chord>)
    requires before.selector.None? && BuildPlan(before, Some(config), live, selectorChords).1.errors == []
    ensures CleanlyRendered(BuildPlan(before, Some(config), live, selectorChords).0, config)
  {
    var stack, focus := Ensured(config, before.stack), ContextWindow(before, live);
    var ctx := ModeCtx(focus, before.hudVisible, Depth(stack));
    NothingRendered(config, stack, ctx);
    RenderLeavesSettled(config, stack, ctx, 0);
    var after := RenderFrom(config, stack, ctx, 0).0;
    forall i | 0 < i < |after|
      ensures after[i].rendered != [] && EntryExists(after[i - 1], after[i])
    {
      assert EntryExists(after[i - 1], after[i - 1 + 1]);
    }
  }

  lemma SettledIff(rt: Rt, config: Config, selectorChords: seq<Chord>)
    requires CleanlyRendered(rt, config)
    ensures Settled(rt, config, selectorChords) <==> ModesOfferTheSame(rt, config) || FailsToRender(rt, config)
  {
    var ctx := ModeCtx(rt.focus, rt.hudVisible, Depth(rt.stack));
    if ModesOfferTheSame(rt, config) {
      forall i | 0 <= i < |rt.stack| && i + 1 < |rt.stack|
        ensures EntryExists(rt.stack[i], rt.stack[i + 1])
      {
        assert EntryExists(rt.stack[i + 1 - 1], rt.stack[i + 1]);
      }
      SettledRendersSame(config, rt.stack, ctx, 0);
    } else if RenderFrom(config, rt.stack, ctx, 0) == (rt.stack, None) {
      SameRenderIsSettled(config, rt.stack, ctx, 0);
    }
  }

  // A root that shows its depth, and a child with nothing to offer: the refresh
  // drops the child but has rendered the root for depth one.

  const ROOT_MODE := ModeRef(0, 0, None)
  const EMPTY_MODE := ModeRef(1, 0, None)

  function DepthBinding(depth: nat): Binding {
    Binding(Chord(if depth == 0 then "a" else "b"), "", Handler(0), None, false, false, false, false)
  }

  function DepthView(mode: ModeRef, ctx: ModeCtx): Result<ModeView, string> {
    Ok(ModeView(if mode == ROOT_MODE then [DepthBinding(ctx.depth)] else [], false))
  }

  const DEPTH_CONFIG := Config(ROOT_MODE, DEFAULT_STYLE, DepthView)

  function OneFrame(depth: nat): Stack {
    [Frame("root", ROOT_MODE, None, [DepthBinding(depth)], false)]
  }

  const CHILD_STACK: Stack := OneFrame(0) + [Frame("child", EMPTY_MODE, None, [], false)]

  lemma ChildIsDropped(ctx: ModeCtx)
    requires ctx.depth == 1
    ensures RenderFrom(DEPTH_CONFIG, CHILD_STACK, ctx, 0) == (OneFrame(1), None)
  {
    var stack := OneFrame(1) + [CHILD_STACK[1]];
    DedupOne(DepthBinding(1));
    assert CHILD_STACK[0 := OneFrame(1)[0]] == stack;
    assert stack[1 := stack[1]][..1] == OneFrame(1);
    assert RenderFrom(DEPTH_CONFIG, stack, ctx, 1) == (OneFrame(1), None);
  }

  /** The root alone, whatever it showed before, shows depth zero. */
  lemma RootFollowsDepth(ctx: ModeCtx, shown: seq<Binding>)
    requires ctx.depth == 0
    ensures RenderFrom(DEPTH_CONFIG, [OneFrame(0)[0].(rendered := shown)], ctx, 0) == (OneFrame(0), None)
  {
    DedupOne(DepthBinding(0));
    var stack := [OneFrame(0)[0].(rendered := shown)];
    assert stack[0 := OneFrame(0)[0]] == OneFrame(0);
    assert RenderFrom(DEPTH_CONFIG, OneFrame(0), ctx, 1) == (OneFrame(0), None);
  }

  lemma DedupOne(b: Binding)
    ensures Dedup([b]) == [b]
  {
    assert [b][..0] == [];
  }
}
