/**
 The mode stack of crates/config/src/runtime.rs and its rendering in
 crates/config/src/script/render.rs.

 The Luau function behind a mode is `Config.view`: a function of the mode and
 the context that either fails or yields bindings and a capture request.
 Everything around it, seeding the capture flag, dropping duplicate chords and
 truncating the stack, is the code's own.
 */
module Modes {
  import opened Wrappers
  import opened Keys

  // ---------- Data ----------

  datatype ModeRef = ModeRef(id: nat, func: nat, defaultTitle: Option<string>)

  datatype BindingKind = Mode(mode: ModeRef) | Handler(func: nat)

  datatype Binding = Binding(
    chord: Chord, desc: string, kind: BindingKind, modeId: Option<nat>, modeCapture: bool,
    global: bool, hidden: bool, stay: bool)

  datatype Frame = Frame(
    title: string, closure: ModeRef, enteredVia: Option<(Chord, nat)>, rendered: seq<Binding>, capture: bool)

  datatype FocusSnapshot = FocusSnapshot(id: nat, app: string, title: string, pid: int, displayId: Option<nat>)

  type Window = Option<FocusSnapshot>

  datatype ModeCtx = ModeCtx(window: Window, hud: bool, depth: nat)

  datatype ModeView = ModeView(bindings: seq<Binding>, capture: bool)

  datatype Style = Style(name: string)

  datatype Config = Config(root: ModeRef, style: Style, view: (ModeRef, ModeCtx) -> Result<ModeView, string>)

  datatype HudRow = HudRow(chord: Chord, desc: string, isMode: bool, stay: bool)

  datatype Rendered = Rendered(
    bindings: seq<(Chord, Binding)>, hudRows: seq<HudRow>, style: Style, capture: bool)

  type Stack = seq<Frame>

  // ---------- The stack ----------

  function Depth(stack: Stack): nat {
    if stack == [] then 0 else |stack| - 1
  }

  function Breadcrumbs(stack: Stack): seq<string> {
    if |stack| <= 1 then [] else Breadcrumbs(stack[..|stack| - 1]) + [stack[|stack| - 1].title]
  }

  function RootFrame(config: Config): Frame {
    Frame("root", config.root, None, [], false)
  }

  function Ensured(config: Config, stack: Stack): Stack {
    if stack == [] then [RootFrame(config)] else stack
  }

  function Popped(stack: Stack): Stack {
    if Depth(stack) == 0 then stack else stack[..|stack| - 1]
  }

  function AtRoot(stack: Stack): Stack {
    if |stack| <= 1 then stack else stack[..1]
  }

  class ModeStack {
    var frames: Stack

    constructor (frames: Stack)
      ensures this.frames == frames
    {
      this.frames := frames;
    }

    method Clear()
      modifies this
      ensures frames == []
    {
      frames := [];
    }

    method Push(title: string, closure: ModeRef, enteredVia: Option<(Chord, nat)>, capture: bool)
      modifies this
      ensures frames == old(frames) + [Frame(title, closure, enteredVia, [], capture)]
    {
      frames := frames + [Frame(title, closure, enteredVia, [], capture)];
    }

    method Pop() returns (popped: bool)
      modifies this
      ensures frames == Popped(old(frames)) && popped == (frames != old(frames))
    {
      if Depth(frames) == 0 {
        return false;
      }
      frames := frames[..|frames| - 1];
      return true;
    }

    method ResetToRoot() returns (changed: bool)
      modifies this
      ensures frames == AtRoot(old(frames)) && changed == (frames != old(frames))
    {
      changed := Depth(frames) > 0;
      if |frames| > 1 {
        frames := frames[..1];
      }
    }
  }

  // ---------- Rendering one frame ----------

  /** The first binding of every chord. */
  function Dedup(bindings: seq<Binding>): seq<Binding> {
    if bindings == [] then []
    else
      var init, last := Dedup(bindings[..|bindings| - 1]), bindings[|bindings| - 1];
      if exists b <- init :: b.chord == last.chord then init else init + [last]
  }

  /** A frame after its mode has run; a capture request, once made, sticks. */
  function Refreshed(frame: Frame, view: ModeView): Frame {
    frame.(rendered := Dedup(view.bindings), capture := frame.capture || view.capture)
  }

  /** Does `parent` still offer the way `child` was entered? */
  predicate EntryExists(parent: Frame, child: Frame) {
    child.enteredVia.Some? ==>
      exists b <- parent.rendered ::
        b.chord == child.enteredVia.value.0 && b.kind.Mode? && b.modeId == Some(child.enteredVia.value.1)
  }

  // ---------- Rendering the stack ----------

  /** The loop of `render_stack_inner` from `depth` on: the stack it leaves, and its error. */
  function RenderFrom(config: Config, stack: Stack, ctx: ModeCtx, depth: nat): (Stack, Option<string>)
    requires depth <= |stack|
    decreases |stack| - depth
  {
    if depth == |stack| then (stack, None)
    else
      match config.view(stack[depth].closure, ctx)
      case Err(error) => (stack, Some(error))
      case Ok(view) =>
        var frame := Refreshed(stack[depth], view);
        var next := stack[depth := frame];
        if frame.rendered == [] && depth > 0 then (next[..depth], None)
        else if depth + 1 < |stack| && !EntryExists(frame, next[depth + 1]) then (next[..depth + 1], None)
        else RenderFrom(config, next, ctx, depth + 1)
  }

  function Flatten(stack: Stack): seq<(Chord, Binding)> {
    if stack == [] then []
    else FlattenParents(stack[..|stack| - 1], Listed([], stack[|stack| - 1].rendered, false))
  }

  /** Add the bindings of the parents, innermost first; only global ones are inherited. */
  function FlattenParents(parents: Stack, out: seq<(Chord, Binding)>): seq<(Chord, Binding)> {
    if parents == [] then out
    else FlattenParents(parents[..|parents| - 1], Listed(out, parents[|parents| - 1].rendered, true))
  }

  function Listed(out: seq<(Chord, Binding)>, bindings: seq<Binding>, globalOnly: bool): seq<(Chord, Binding)>
    decreases |bindings|
  {
    if bindings == [] then out
    else
      var b := bindings[0];
      var skip := (globalOnly && !b.global) || exists e <- out :: e.0 == b.chord;
      Listed(if skip then out else out + [(b.chord, b)], bindings[1..], globalOnly)
  }

  function HudRows(bindings: seq<(Chord, Binding)>): seq<HudRow> {
    if bindings == [] then []
    else
      var (chord, b) := bindings[|bindings| - 1];
      HudRows(bindings[..|bindings| - 1])
      + if b.hidden then [] else [HudRow(chord, b.desc, b.kind.Mode?, b.stay)]
  }

  function Output(config: Config, stack: Stack): Rendered {
    var bindings := Flatten(stack);
    Rendered(bindings, HudRows(bindings), config.style, stack != [] && stack[|stack| - 1].capture)
  }

  function RenderStack(config: Config, stack: Stack, ctx: ModeCtx): (Stack, Result<Rendered, string>) {
    var (after, error) := RenderFrom(config, stack, ctx, 0);
    (after, if error.Some? then Err(error.value) else Ok(Output(config, after)))
  }

  method Render(config: Config, stack: ModeStack, ctx: ModeCtx) returns (r: Result<Rendered, string>)
    modifies stack
    ensures (stack.frames, r) == RenderStack(config, old(stack.frames), ctx)
  {
    var depth := 0;
    while depth < |stack.frames|
      invariant depth <= |stack.frames|
      invariant RenderFrom(config, stack.frames, ctx, depth) == RenderFrom(config, old(stack.frames), ctx, 0)
      decreases |stack.frames| - depth
    {
      var view := config.view(stack.frames[depth].closure, ctx);
      if view.Err? {
        return Err(view.error);
      }
      var frame := Refreshed(stack.frames[depth], view.value);
      stack.frames := stack.frames[depth := frame];
      if frame.rendered == [] && depth > 0 {
        stack.frames := stack.frames[..depth];
        break;
      }
      if depth + 1 < |stack.frames| && !EntryExists(frame, stack.frames[depth + 1]) {
        stack.frames := stack.frames[..depth + 1];
        break;
      }
      depth := depth + 1;
    }
    r := Ok(Output(config, stack.frames));
  }

  // ---------- What a chord means ----------

  /** `resolve_binding`: the first listed binding of a chord. */
  function ResolveBinding(bindings: seq<(Chord, Binding)>, chord: Chord): Option<Binding> {
    if bindings == [] then None
    else if bindings[0].0 == chord then Some(bindings[0].1)
    else ResolveBinding(bindings[1..], chord)
  }

  /** The first binding of a chord that a frame offers, to itself or to its children. */
  function Offered(bindings: seq<Binding>, chord: Chord, globalOnly: bool): Option<Binding>
    decreases |bindings|
  {
    if bindings == [] then None
    else if bindings[0].chord == chord && (globalOnly ==> bindings[0].global) then Some(bindings[0])
    else Offered(bindings[1..], chord, globalOnly)
  }

  /** Scoping: the innermost frame that offers the chord decides. */
  function InScope(stack: Stack, chord: Chord, inherited: bool): Option<Binding>
    decreases |stack|
  {
    if stack == [] then None
    else
      var own := Offered(stack[|stack| - 1].rendered, chord, inherited);
      if own.Some? then own else InScope(stack[..|stack| - 1], chord, true)
  }

  function Else<T>(a: Option<T>, b: Option<T>): Option<T> {
    if a.Some? then a else b
  }

  lemma {:induction false} ResolveAppended(out: seq<(Chord, Binding)>, e: (Chord, Binding), chord: Chord)
    ensures ResolveBinding(out + [e], chord)
         == Else(ResolveBinding(out, chord), if e.0 == chord then Some(e.1) else None)
  {
    if out == [] {
      assert out + [e] == [e];
    } else {
      assert (out + [e])[1..] == out[1..] + [e];
      ResolveAppended(out[1..], e, chord);
    }
  }

  lemma {:induction false} ResolvesIffListed(out: seq<(Chord, Binding)>, chord: Chord)
    ensures ResolveBinding(out, chord).Some? <==> exists e <- out :: e.0 == chord
  {
    if out != [] {
      ResolvesIffListed(out[1..], chord);
      assert forall e :: e in out <==> e == out[0] || e in out[1..];
    }
  }

  lemma {:induction false} ListedResolves(out: seq<(Chord, Binding)>, bindings: seq<Binding>, globalOnly: bool,
                                          chord: Chord)
    ensures ResolveBinding(Listed(out, bindings, globalOnly), chord)
         == Else(ResolveBinding(out, chord), Offered(bindings, chord, globalOnly))
    decreases |bindings|
  {
    if bindings != [] {
      var b := bindings[0];
      ResolvesIffListed(out, b.chord);
      ResolveAppended(out, (b.chord, b), chord);
      var skip := (globalOnly && !b.global) || exists e <- out :: e.0 == b.chord;
      ListedResolves(if skip then out else out + [(b.chord, b)], bindings[1..], globalOnly, chord);
    }
  }

  lemma {:induction false} ParentsResolve(parents: Stack, out: seq<(Chord, Binding)>, chord: Chord)
    ensures ResolveBinding(FlattenParents(parents, out), chord)
         == Else(ResolveBinding(out, chord), InScope(parents, chord, true))
    decreases |parents|
  {
    if parents != [] {
      var bindings := parents[|parents| - 1].rendered;
      ListedResolves(out, bindings, true, chord);
      ParentsResolve(parents[..|parents| - 1], Listed(out, bindings, true), chord);
    }
  }

  /**
   Flattening the stack and looking a chord up is scoping: the top frame's first
   binding of the chord, or else the first global one of the nearest parent that
   has one.
   */
  lemma FlatteningIsScoping(stack: Stack, chord: Chord)
    ensures ResolveBinding(Flatten(stack), chord) == InScope(stack, chord, false)
  {
    if stack != [] {
      var top := stack[|stack| - 1].rendered;
      ListedResolves([], top, false, chord);
      ParentsResolve(stack[..|stack| - 1], Listed([], top, false), chord);
    }
  }

  ghost predicate DistinctChords(bindings: seq<(Chord, Binding)>) {
    forall i, j | 0 <= i < j < |bindings| :: bindings[i].0 != bindings[j].0
  }

  lemma {:induction false} ListedStaysDistinct(out: seq<(Chord, Binding)>, bindings: seq<Binding>, globalOnly: bool)
    requires DistinctChords(out)
    ensures DistinctChords(Listed(out, bindings, globalOnly))
    decreases |bindings|
  {
    if bindings != [] {
      var b := bindings[0];
      var skip := (globalOnly && !b.global) || exists e <- out :: e.0 == b.chord;
      if !skip {
        assert forall i | 0 <= i < |out| :: out[i] in out;
      }
      ListedStaysDistinct(if skip then out else out + [(b.chord, b)], bindings[1..], globalOnly);
    }
  }

  lemma {:induction false} ParentsStayDistinct(parents: Stack, out: seq<(Chord, Binding)>)
    requires DistinctChords(out)
    ensures DistinctChords(FlattenParents(parents, out))
    decreases |parents|
  {
    if parents != [] {
      ListedStaysDistinct(out, parents[|parents| - 1].rendered, true);
      ParentsStayDistinct(parents[..|parents| - 1], Listed(out, parents[|parents| - 1].rendered, true));
    }
  }

  /** No chord is listed twice. */
  lemma FlattenedIsDistinct(stack: Stack)
    ensures DistinctChords(Flatten(stack))
  {
    if stack != [] {
      ListedStaysDistinct([], stack[|stack| - 1].rendered, false);
      ParentsStayDistinct(stack[..|stack| - 1], Listed([], stack[|stack| - 1].rendered, false));
    }
  }

  lemma {:induction false} OfferedAppended(bindings: seq<Binding>, b: Binding, chord: Chord)
    ensures Offered(bindings + [b], chord, false)
         == Else(Offered(bindings, chord, false), if b.chord == chord then Some(b) else None)
  {
    if bindings == [] {
      assert bindings + [b] == [b];
    } else {
      assert (bindings + [b])[1..] == bindings[1..] + [b];
      OfferedAppended(bindings[1..], b, chord);
    }
  }

  lemma {:induction false} OfferedIffPresent(bindings: seq<Binding>, chord: Chord)
    ensures Offered(bindings, chord, false).Some? <==> exists b <- bindings :: b.chord == chord
  {
    if bindings != [] {
      OfferedIffPresent(bindings[1..], chord);
      assert forall b :: b in bindings <==> b == bindings[0] || b in bindings[1..];
    }
  }

  /** Dropping duplicate chords keeps the first binding of each. */
  lemma {:induction false} DedupKeepsFirst(bindings: seq<Binding>, chord: Chord)
    ensures Offered(Dedup(bindings), chord, false) == Offered(bindings, chord, false)
  {
    if bindings != [] {
      var init, last := bindings[..|bindings| - 1], bindings[|bindings| - 1];
      assert bindings == init + [last];
      DedupKeepsFirst(init, chord);
      OfferedAppended(init, last, chord);
      OfferedAppended(Dedup(init), last, chord);
      OfferedIffPresent(Dedup(init), chord);
    }
  }

  // ---------- Rendering settles ----------

  /** Rendering this frame again, in the same context, would change nothing. */
  ghost predicate FrameSettled(config: Config, frame: Frame, ctx: ModeCtx) {
    var view := config.view(frame.closure, ctx);
    view.Ok? && Refreshed(frame, view.value) == frame
  }

  ghost predicate SettledTo(config: Config, stack: Stack, ctx: ModeCtx, depth: nat) {
    && depth <= |stack|
    && (forall i | 0 <= i < depth :: FrameSettled(config, stack[i], ctx) && (i > 0 ==> stack[i].rendered != []))
    && (forall i | 0 <= i < depth && i + 1 < |stack| :: EntryExists(stack[i], stack[i + 1]))
  }

  lemma RefreshSettles(config: Config, frame: Frame, ctx: ModeCtx)
    requires config.view(frame.closure, ctx).Ok?
    ensures FrameSettled(config, Refreshed(frame, config.view(frame.closure, ctx).value), ctx)
  {
  }

  lemma {:induction false} RenderLeavesSettled(config: Config, stack: Stack, ctx: ModeCtx, depth: nat)
    requires SettledTo(config, stack, ctx, depth)
    ensures var (after, error) := RenderFrom(config, stack, ctx, depth);
            && |after| <= |stack|
            && (error.None? ==> SettledTo(config, after, ctx, |after|))
            && (stack != [] ==> after != [] && after[0].closure == stack[0].closure)
    decreases |stack| - depth
  {
    if depth < |stack| && config.view(stack[depth].closure, ctx).Ok? {
      var view := config.view(stack[depth].closure, ctx).value;
      var frame := Refreshed(stack[depth], view);
      var next := stack[depth := frame];
      RefreshSettles(config, stack[depth], ctx);
      assert forall i | 0 <= i < |stack| && i != depth :: next[i] == stack[i];
      if !(frame.rendered == [] && depth > 0) && (depth + 1 < |stack| ==> EntryExists(frame, next[depth + 1])) {
        assert depth > 0 ==> EntryExists(stack[depth - 1], stack[depth - 1 + 1]);
        RenderLeavesSettled(config, next, ctx, depth + 1);
      }
    }
  }

  lemma {:induction false} SettledRendersSame(config: Config, stack: Stack, ctx: ModeCtx, depth: nat)
    requires SettledTo(config, stack, ctx, |stack|) && depth <= |stack|
    ensures RenderFrom(config, stack, ctx, depth) == (stack, None)
    decreases |stack| - depth
  {
    if depth < |stack| {
      assert FrameSettled(config, stack[depth], ctx);
      assert depth + 1 < |stack| ==> EntryExists(stack[depth], stack[depth + 1]);
      assert stack[depth := stack[depth]] == stack;
      SettledRendersSame(config, stack, ctx, depth + 1);
    }
  }

  /** Rendering from `depth` on leaves the frames below alone. */
  lemma {:induction false} RenderKeepsBelow(config: Config, stack: Stack, ctx: ModeCtx, depth: nat)
    requires depth <= |stack|
    ensures var after := RenderFrom(config, stack, ctx, depth).0;
            depth <= |after| <= |stack| && after[..depth] == stack[..depth]
    decreases |stack| - depth
  {
    if depth < |stack| && config.view(stack[depth].closure, ctx).Ok? {
      var frame := Refreshed(stack[depth], config.view(stack[depth].closure, ctx).value);
      var next := stack[depth := frame];
      if !(frame.rendered == [] && depth > 0) && (depth + 1 < |stack| ==> EntryExists(frame, next[depth + 1])) {
        RenderKeepsBelow(config, next, ctx, depth + 1);
        var after := RenderFrom(config, next, ctx, depth + 1).0;
        assert after[..depth] == after[..depth + 1][..depth] == next[..depth + 1][..depth] == stack[..depth];
      }
    }
  }

  /** A stack that renders to itself is settled frame by frame. */
  lemma {:induction false} SameRenderIsSettled(config: Config, stack: Stack, ctx: ModeCtx, depth: nat)
    requires depth <= |stack| && RenderFrom(config, stack, ctx, depth) == (stack, None)
    ensures forall i | depth <= i < |stack| :: FrameSettled(config, stack[i], ctx)
    decreases |stack| - depth
  {
    if depth < |stack| {
      var frame := Refreshed(stack[depth], config.view(stack[depth].closure, ctx).value);
      var next := stack[depth := frame];
      RenderKeepsBelow(config, next, ctx, depth + 1);
      var after := RenderFrom(config, next, ctx, depth + 1).0;
      assert after == stack;
      assert after[..depth + 1][depth] == next[..depth + 1][depth];
      assert next == stack;
      SameRenderIsSettled(config, stack, ctx, depth + 1);
    }
  }

  lemma NothingRendered(config: Config, stack: Stack, ctx: ModeCtx)
    ensures SettledTo(config, stack, ctx, 0)
  {
  }

  /** A successful render is a fixed point: rendering its result again yields the same. */
  lemma RenderIsIdempotent(config: Config, stack: Stack, ctx: ModeCtx)
    ensures var (after, r) := RenderStack(config, stack, ctx);
            r.Ok? ==> RenderStack(config, after, ctx) == (after, r)
  {
    hide SettledTo;
    assert SettledTo(config, stack, ctx, 0) by { NothingRendered(config, stack, ctx); }
    RenderLeavesSettled(config, stack, ctx, 0);
    var (after, error) := RenderFrom(config, stack, ctx, 0);
    if error.None? {
      SettledRendersSame(config, after, ctx, 0);
    }
  }
}
