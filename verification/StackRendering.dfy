/**
 What rendering the mode stack means, crates/config/src/script/render.rs: which
 frames stay and what each of them shows, why a frame is cut off, what a failed
 render has touched, and in which order the bindings and the HUD rows come.

 The statements here are about the fields of the frames and the lists
 themselves, and name none of the functions that compute them on the way.
 */
module StackRendering {
  import opened Wrappers
  import opened Keys
  import opened Modes

  // ---------- Which frames stay ----------

  /** `after` is `before` with what `view` yields: a capture request, once made, sticks. */
  ghost predicate Shows(before: Frame, view: ModeView, after: Frame) {
    && after.title == before.title && after.closure == before.closure && after.enteredVia == before.enteredVia
    && after.rendered == Dedup(view.bindings)
    && (after.capture <==> before.capture || view.capture)
  }

  /** The first `n` frames of the stack run their modes in turn, each frame above the root with something to offer. */
  ghost predicate Shown(config: Config, before: Stack, after: Stack, ctx: ModeCtx, n: nat) {
    && n <= |before| && n <= |after|
    && forall i | 0 <= i < n ::
         var view := config.view(before[i].closure, ctx);
         view.Ok? && Shows(before[i], view.value, after[i]) && (i > 0 ==> view.value.bindings != [])
  }

  /** `shown` has no mode binding with this chord and mode id. */
  ghost predicate NotOffered(shown: seq<Binding>, chord: Chord, modeId: nat) {
    forall k | 0 <= k < |shown| ::
      !(shown[k].chord == chord && shown[k].kind.Mode? && shown[k].modeId == Some(modeId))
  }

  /** Every one of the first `n` frames is entered by a binding that its parent still shows, or by none. */
  ghost predicate Entered(before: Stack, after: Stack, n: nat) {
    && n <= |before| && n <= |after| + 1
    && forall i | 0 < i < n && before[i].enteredVia.Some? ::
         !NotOffered(after[i - 1].rendered, before[i].enteredVia.value.0, before[i].enteredVia.value.1)
  }

  /** The reason to cut the stack off at `n`: that mode has nothing to offer, or its parent no longer offers it. */
  ghost predicate CutFor(config: Config, before: Stack, after: Stack, ctx: ModeCtx, n: nat)
    requires 0 < n < |before| && n <= |after|
  {
    var frame := before[n];
    || (frame.enteredVia.Some?
        && NotOffered(after[n - 1].rendered, frame.enteredVia.value.0, frame.enteredVia.value.1))
    || (config.view(frame.closure, ctx).Ok? && config.view(frame.closure, ctx).value.bindings == [])
  }

  /** What rendering leaves, without an error. */
  ghost predicate RenderedWell(config: Config, before: Stack, after: Stack, ctx: ModeCtx) {
    && Shown(config, before, after, ctx, |after|) && Entered(before, after, |after|)
    && (before != [] ==> after != [])
    && (|after| < |before| ==> CutFor(config, before, after, ctx, |after|))
  }

  /** What rendering leaves when the mode at `d` fails. */
  ghost predicate FailedAt(config: Config, before: Stack, after: Stack, ctx: ModeCtx, error: string, d: nat) {
    && d < |before| == |after|
    && config.view(before[d].closure, ctx) == Err(error)
    && Shown(config, before, after, ctx, d) && Entered(before, after, d + 1)
    && after[d..] == before[d..]
  }

  lemma {:induction false} DedupEmptyIff(bindings: seq<Binding>)
    ensures Dedup(bindings) == [] <==> bindings == []
  {
    if bindings != [] {
      DedupEmptyIff(bindings[..|bindings| - 1]);
    }
  }

  /** The loop at `depth` has rendered the frames below it. */
  ghost predicate Reached(config: Config, before: Stack, stack: Stack, ctx: ModeCtx, depth: nat) {
    && |stack| == |before| && depth <= |stack|
    && Shown(config, before, stack, ctx, depth)
    && Entered(before, stack, if depth < |before| then depth + 1 else depth)
    && stack[depth..] == before[depth..]
  }

  lemma OneFrameOn(config: Config, before: Stack, stack: Stack, ctx: ModeCtx, depth: nat)
    requires Reached(config, before, stack, ctx, depth) && depth < |stack|
    requires config.view(stack[depth].closure, ctx).Ok?
    ensures var view := config.view(stack[depth].closure, ctx).value;
            var frame := Refreshed(stack[depth], view);
            var next := stack[depth := frame];
            && stack[depth] == before[depth]
            && (frame.rendered == [] <==> view.bindings == [])
            && (forall i | 0 <= i < |stack| && i != depth :: next[i] == stack[i])
            && (depth + 1 < |stack| ==> next[depth + 1] == before[depth + 1])
            && next[depth + 1..] == before[depth + 1..]
  {
    DedupEmptyIff(config.view(stack[depth].closure, ctx).value.bindings);
    assert stack[depth..][0] == before[depth..][0];
    forall i | depth < i < |stack|
      ensures stack[i] == before[i]
    {
      assert stack[depth..][i - depth] == before[depth..][i - depth];
    }
  }

  lemma EntryExistsIff(parent: Frame, child: Frame)
    ensures EntryExists(parent, child)
       <==> child.enteredVia.None?
            || !NotOffered(parent.rendered, child.enteredVia.value.0, child.enteredVia.value.1)
  {
    if child.enteredVia.Some? {
      var (chord, id) := child.enteredVia.value;
      if !NotOffered(parent.rendered, chord, id) {
        var k :| 0 <= k < |parent.rendered| && parent.rendered[k].chord == chord && parent.rendered[k].kind.Mode?
                 && parent.rendered[k].modeId == Some(id);
        assert parent.rendered[k] in parent.rendered;
      }
    }
  }

  /** The loop goes on above a frame that has something to offer and still offers the next one. */
  lemma NextReached(config: Config, before: Stack, stack: Stack, ctx: ModeCtx, depth: nat)
    requires Reached(config, before, stack, ctx, depth) && depth < |stack|
    requires config.view(stack[depth].closure, ctx).Ok?
    ensures var frame := Refreshed(stack[depth], config.view(stack[depth].closure, ctx).value);
            var next := stack[depth := frame];
            !(frame.rendered == [] && depth > 0) && (depth + 1 < |stack| ==> EntryExists(frame, next[depth + 1]))
            ==> Reached(config, before, next, ctx, depth + 1)
  {
    hide Dedup, EntryExists, NotOffered;
    OneFrameOn(config, before, stack, ctx, depth);
    var frame := Refreshed(stack[depth], config.view(stack[depth].closure, ctx).value);
    if depth + 1 < |stack| {
      EntryExistsIff(frame, before[depth + 1]);
    }
  }

  /** The loop stops below a frame with nothing to offer, or above one that no longer offers the next. */
  lemma CutHere(config: Config, before: Stack, stack: Stack, ctx: ModeCtx, depth: nat)
    requires Reached(config, before, stack, ctx, depth) && depth < |stack|
    requires config.view(stack[depth].closure, ctx).Ok?
    ensures var frame := Refreshed(stack[depth], config.view(stack[depth].closure, ctx).value);
            var next := stack[depth := frame];
            if frame.rendered == [] && depth > 0 then RenderedWell(config, before, next[..depth], ctx)
            else depth + 1 < |stack| && !EntryExists(frame, next[depth + 1])
                 ==> RenderedWell(config, before, next[..depth + 1], ctx)
  {
    hide Dedup, EntryExists, NotOffered;
    OneFrameOn(config, before, stack, ctx, depth);
    var frame := Refreshed(stack[depth], config.view(stack[depth].closure, ctx).value);
    if depth + 1 < |stack| {
      EntryExistsIff(frame, before[depth + 1]);
    }
  }

  lemma FailsHere(config: Config, before: Stack, stack: Stack, ctx: ModeCtx, depth: nat)
    requires Reached(config, before, stack, ctx, depth) && depth < |stack|
    requires config.view(stack[depth].closure, ctx).Err?
    ensures FailedAt(config, before, stack, ctx, config.view(stack[depth].closure, ctx).error, depth)
  {
    assert stack[depth..][0] == before[depth..][0];
  }

  lemma AllReached(config: Config, before: Stack, stack: Stack, ctx: ModeCtx)
    requires Reached(config, before, stack, ctx, |stack|)
    ensures RenderedWell(config, before, stack, ctx)
  {
  }

  lemma {:induction false} RenderFromMeans(config: Config, before: Stack, stack: Stack, ctx: ModeCtx, depth: nat)
    requires depth <= |stack| && Reached(config, before, stack, ctx, depth)
    ensures var (after, error) := RenderFrom(config, stack, ctx, depth);
            if error.None? then RenderedWell(config, before, after, ctx)
            else exists d :: FailedAt(config, before, after, ctx, error.value, d)
    decreases |stack| - depth
  {
    hide Reached, RenderedWell, FailedAt, EntryExists;
    if depth == |stack| {
      AllReached(config, before, stack, ctx);
    } else if config.view(stack[depth].closure, ctx).Err? {
      FailsHere(config, before, stack, ctx, depth);
    } else {
      NextReached(config, before, stack, ctx, depth);
      CutHere(config, before, stack, ctx, depth);
      var next := stack[depth := Refreshed(stack[depth], config.view(stack[depth].closure, ctx).value)];
      if Reached(config, before, next, ctx, depth + 1) {
        RenderFromMeans(config, before, next, ctx, depth + 1);
      }
    }
  }

  /**
   Rendering runs the modes from the root up.  Without an error, the frames that
   stay show what their own modes yield and keep their title, mode and entry;
   and the stack is cut off at a frame only if its mode has nothing to offer or
   the frame below no longer offers the way it was entered.  With an error, no
   frame is cut off, and the one whose mode failed and those above are untouched.
   */
  lemma RenderCutsOnlyForCause(config: Config, stack: Stack, ctx: ModeCtx)
    ensures var (after, r) := RenderStack(config, stack, ctx);
            if r.Ok? then RenderedWell(config, stack, after, ctx)
            else exists d :: FailedAt(config, stack, after, ctx, r.error, d)
  {
    hide Shown, Entered, CutFor, FailedAt, RenderedWell, Reached;
    NothingReached(config, stack, ctx);
    RenderFromMeans(config, stack, stack, ctx, 0);
    var (after, error) := RenderFrom(config, stack, ctx, 0);
    assert error.None? ==> RenderedWell(config, stack, after, ctx);
  }

  lemma NothingReached(config: Config, stack: Stack, ctx: ModeCtx)
    ensures Reached(config, stack, stack, ctx, 0)
  {
  }

  // ---------- Which bindings stay, and in which order ----------

  ghost predicate Increasing(at: seq<nat>) {
    forall i, j | 0 <= i < j < |at| :: at[i] < at[j]
  }

  /** No binding before `i` has its chord. */
  ghost predicate FirstOfChord(bindings: seq<Binding>, i: nat)
    requires i < |bindings|
  {
    forall j | 0 <= j < i :: bindings[j].chord != bindings[i].chord
  }

  /** `kept` is what stands in `bindings` at the places `at`. */
  ghost predicate Picked<T>(bindings: seq<T>, kept: seq<T>, at: seq<nat>) {
    && |kept| == |at| && Increasing(at)
    && forall k | 0 <= k < |at| :: at[k] < |bindings| && kept[k] == bindings[at[k]]
  }

  lemma PickedMore<T>(bindings: seq<T>, kept: seq<T>, at: seq<nat>)
    requires bindings != [] && Picked(bindings[..|bindings| - 1], kept, at)
    ensures var n := |bindings| - 1;
            && Picked(bindings, kept, at) && Picked(bindings, kept + [bindings[n]], at + [n])
            && n !in at
  {
  }

  lemma FirstIffNew(bindings: seq<Binding>)
    requires bindings != []
    ensures var n := |bindings| - 1;
            FirstOfChord(bindings, n) <==> !exists b <- bindings[..n] :: b.chord == bindings[n].chord
  {
    var n := |bindings| - 1;
    var init := bindings[..n];
    if b :| b in init && b.chord == bindings[n].chord {
      var j :| 0 <= j < n && init[j] == b;
      assert bindings[j].chord == bindings[n].chord;
    } else {
      assert forall j | 0 <= j < n :: init[j] in init && bindings[j] == init[j];
    }
  }

  /** Whether the last binding is the first of its chord decides whether it is kept. */
  lemma LastIsKeptIff(bindings: seq<Binding>)
    requires bindings != []
    ensures var n := |bindings| - 1;
            Dedup(bindings) == Dedup(bindings[..n]) + if FirstOfChord(bindings, n) then [bindings[n]] else []
  {
    hide FirstOfChord, Offered;
    var n := |bindings| - 1;
    FirstIffNew(bindings);
    OfferedIffPresent(bindings[..n], bindings[n].chord);
    OfferedIffPresent(Dedup(bindings[..n]), bindings[n].chord);
    DedupKeepsFirst(bindings[..n], bindings[n].chord);
  }

  /** Dropping duplicate chords keeps exactly the first binding of each, in the order they were made. */
  lemma {:induction false} DedupPicksFirsts(bindings: seq<Binding>) returns (at: seq<nat>)
    ensures Picked(bindings, Dedup(bindings), at)
    ensures forall i | 0 <= i < |bindings| :: i in at <==> FirstOfChord(bindings, i)
  {
    if bindings == [] {
      return [];
    }
    hide Dedup, Picked;
    var n := |bindings| - 1;
    var init := bindings[..n];
    at := DedupPicksFirsts(init);
    assert forall i | 0 <= i < n :: FirstOfChord(init, i) <==> FirstOfChord(bindings, i);
    hide FirstOfChord;
    LastIsKeptIff(bindings);
    PickedMore(bindings, Dedup(init), at);
    if FirstOfChord(bindings, n) {
      at := at + [n];
    } else {
      assert Dedup(init) + [] == Dedup(init);
    }
  }

  /** What a frame adds to the list: all its bindings, or its global ones. */
  function Scoped(bindings: seq<Binding>, globalOnly: bool): seq<Binding> {
    if bindings == [] then []
    else (if globalOnly && !bindings[0].global then [] else [bindings[0]]) + Scoped(bindings[1..], globalOnly)
  }

  /** All that is in reach: the top frame's bindings, then the global ones of its parents, nearest first. */
  function InReach(stack: Stack, inherited: bool): seq<Binding>
    decreases |stack|
  {
    if stack == [] then []
    else Scoped(stack[|stack| - 1].rendered, inherited) + InReach(stack[..|stack| - 1], true)
  }

  /** The bindings with their chords. */
  function Paired(bindings: seq<Binding>): seq<(Chord, Binding)> {
    seq(|bindings|, i requires 0 <= i < |bindings| => (bindings[i].chord, bindings[i]))
  }

  lemma PairedHas(bindings: seq<Binding>, chord: Chord)
    ensures (exists e <- Paired(bindings) :: e.0 == chord) <==> (exists b <- bindings :: b.chord == chord)
  {
    if b :| b in bindings && b.chord == chord {
      var i :| 0 <= i < |bindings| && bindings[i] == b;
      assert Paired(bindings)[i] in Paired(bindings);
    }
  }

  lemma DedupAppend(bindings: seq<Binding>, b: Binding)
    ensures Dedup(bindings + [b])
         == if exists e <- Paired(Dedup(bindings)) :: e.0 == b.chord then Dedup(bindings) else Dedup(bindings) + [b]
  {
    assert (bindings + [b])[..|bindings|] == bindings;
    PairedHas(Dedup(bindings), b.chord);
  }

  lemma ScopedFurther(sofar: seq<Binding>, bindings: seq<Binding>, globalOnly: bool)
    ensures if bindings == [] then sofar + Scoped(bindings, globalOnly) == sofar
            else
              sofar + Scoped(bindings, globalOnly)
              == (if globalOnly && !bindings[0].global then sofar else sofar + [bindings[0]])
                 + Scoped(bindings[1..], globalOnly)
  {
    if bindings != [] {
      var rest := Scoped(bindings[1..], globalOnly);
      assert Scoped(bindings, globalOnly)
          == (if globalOnly && !bindings[0].global then [] else [bindings[0]]) + rest;
      hide Scoped;
      Associative(sofar, [bindings[0]], rest);
      assert [] + rest == rest;
    }
  }

  lemma {:induction false} ListedIsDedup(sofar: seq<Binding>, bindings: seq<Binding>, globalOnly: bool)
    ensures Listed(Paired(Dedup(sofar)), bindings, globalOnly)
         == Paired(Dedup(sofar + Scoped(bindings, globalOnly)))
    decreases |bindings|
  {
    hide Paired, Dedup, Scoped;
    ScopedFurther(sofar, bindings, globalOnly);
    if bindings != [] {
      var b := bindings[0];
      DedupAppend(sofar, b);
      PairedAppend(Dedup(sofar), b);
      ListedIsDedup(if globalOnly && !b.global then sofar else sofar + [b], bindings[1..], globalOnly);
    }
  }

  lemma PairedAppend(bindings: seq<Binding>, b: Binding)
    ensures Paired(bindings + [b]) == Paired(bindings) + [(b.chord, b)]
  {
  }

  lemma InReachFurther(sofar: seq<Binding>, parents: Stack)
    requires parents != []
    ensures var n := |parents| - 1;
            sofar + Scoped(parents[n].rendered, true) + InReach(parents[..n], true) == sofar + InReach(parents, true)
  {
    var n := |parents| - 1;
    assert InReach(parents, true) == Scoped(parents[n].rendered, true) + InReach(parents[..n], true);
    hide InReach, Scoped;
    Associative(sofar, Scoped(parents[n].rendered, true), InReach(parents[..n], true));
  }

  lemma Associative<T>(a: seq<T>, b: seq<T>, c: seq<T>)
    ensures a + b + c == a + (b + c)
  {
  }

  lemma {:induction false} ParentsAreDedup(sofar: seq<Binding>, parents: Stack)
    ensures FlattenParents(parents, Paired(Dedup(sofar))) == Paired(Dedup(sofar + InReach(parents, true)))
    decreases |parents|
  {
    hide Scoped, Listed, Dedup, Paired;
    if parents == [] {
      assert sofar + InReach(parents, true) == sofar by { NothingInReach(sofar); }
    } else {
      hide InReach;
      var n := |parents| - 1;
      ListedIsDedup(sofar, parents[n].rendered, true);
      ParentsAreDedup(sofar + Scoped(parents[n].rendered, true), parents[..n]);
      InReachFurther(sofar, parents);
    }
  }

  lemma NothingInReach(sofar: seq<Binding>)
    ensures sofar + InReach([], true) == sofar
  {
  }

  /** The flattened list is all that is in reach, nearest first, with the first binding of each chord. */
  lemma FlatteningKeepsOrder(stack: Stack)
    ensures Flatten(stack) == Paired(Dedup(InReach(stack, false)))
  {
    if stack == [] {
    } else {
      var top := stack[|stack| - 1].rendered;
      assert Paired(Dedup([])) == [];
      ListedIsDedup([], top, false);
      assert [] + Scoped(top, false) == Scoped(top, false);
      ParentsAreDedup(Scoped(top, false), stack[..|stack| - 1]);
    }
  }

  // ---------- The HUD ----------

  /** `row` shows this binding. */
  ghost predicate RowOf(row: HudRow, entry: (Chord, Binding)) {
    var (chord, b) := entry;
    && row.chord == chord && row.desc == b.desc && row.stay == b.stay
    && (row.isMode <==> b.kind.Mode?)
  }

  /** `rows` show the bindings at the places `at`, in order. */
  ghost predicate RowsOf(bindings: seq<(Chord, Binding)>, rows: seq<HudRow>, at: seq<nat>) {
    && |rows| == |at| && Increasing(at)
    && forall k | 0 <= k < |at| :: at[k] < |bindings| && RowOf(rows[k], bindings[at[k]])
  }

  lemma RowsMore(bindings: seq<(Chord, Binding)>, rows: seq<HudRow>, at: seq<nat>)
    requires bindings != [] && RowsOf(bindings[..|bindings| - 1], rows, at)
    ensures var n := |bindings| - 1;
            var (chord, b) := bindings[n];
            && RowsOf(bindings, rows, at)
            && RowsOf(bindings, rows + [HudRow(chord, b.desc, b.kind.Mode?, b.stay)], at + [n])
            && n !in at
  {
  }

  /** The HUD lists exactly the bindings that are not hidden, in order, as they are. */
  lemma {:induction false} HudRowsAreTheVisible(bindings: seq<(Chord, Binding)>) returns (at: seq<nat>)
    ensures RowsOf(bindings, HudRows(bindings), at)
    ensures forall i :: i in at <==> 0 <= i < |bindings| && !bindings[i].1.hidden
  {
    if bindings == [] {
      return [];
    }
    hide RowsOf;
    var n := |bindings| - 1;
    at := HudRowsAreTheVisible(bindings[..n]);
    RowsMore(bindings, HudRows(bindings[..n]), at);
    if !bindings[n].1.hidden {
      at := at + [n];
    } else {
      assert HudRows(bindings[..n]) + [] == HudRows(bindings[..n]);
    }
  }

  /** The breadcrumbs are the titles of the frames above the root. */
  lemma {:induction false} BreadcrumbsAreTitles(stack: Stack)
    ensures |Breadcrumbs(stack)| == Depth(stack)
    ensures forall i | 0 < i < |stack| :: Breadcrumbs(stack)[i - 1] == stack[i].title
    ensures stack != [] ==> Depth(stack) == |stack| - 1
  {
    if |stack| > 1 {
      BreadcrumbsAreTitles(stack[..|stack| - 1]);
    }
  }

  /**
   `rendered` is what the stack shows: its bindings in order, the HUD rows of
   those not hidden, the style, and the capture that the top frame asks for.
   */
  ghost predicate Describes(config: Config, stack: Stack, rendered: Rendered) {
    && rendered.bindings == Paired(Dedup(InReach(stack, false)))
    && (forall chord :: ResolveBinding(rendered.bindings, chord) == InScope(stack, chord, false))
    && (exists at ::
          && RowsOf(rendered.bindings, rendered.hudRows, at)
          && forall i :: i in at <==> 0 <= i < |rendered.bindings| && !rendered.bindings[i].1.hidden)
    && rendered.style == config.style
    && (rendered.capture <==> stack != [] && stack[|stack| - 1].capture)
  }

  lemma OutputDescribes(config: Config, stack: Stack)
    ensures Describes(config, stack, Output(config, stack))
  {
    hide Dedup, InReach, HudRows, Flatten, RowsOf, InScope, ResolveBinding;
    FlatteningKeepsOrder(stack);
    forall chord
      ensures ResolveBinding(Flatten(stack), chord) == InScope(stack, chord, false)
    {
      FlatteningIsScoping(stack, chord);
    }
    var _ := HudRowsAreTheVisible(Flatten(stack));
  }

  // ---------- Opening a submenu ----------

  /** The frame that entering a mode binding pushes. */
  function Submenu(b: Binding): Frame
    requires b.kind.Mode? && b.modeId.Some?
  {
    Frame(b.desc, b.kind.mode, Some((b.chord, b.modeId.value)), [], b.modeCapture)
  }

  lemma {:induction false} OfferedIsOwn(bindings: seq<Binding>, chord: Chord, globalOnly: bool)
    ensures var b := Offered(bindings, chord, globalOnly);
            b.Some? ==> b.value.chord == chord && exists i :: 0 <= i < |bindings| && bindings[i] == b.value
    decreases |bindings|
  {
    if bindings != [] && Offered(bindings, chord, globalOnly) == Offered(bindings[1..], chord, globalOnly) {
      OfferedIsOwn(bindings[1..], chord, globalOnly);
      var b := Offered(bindings, chord, globalOnly);
      if b.Some? {
        var i :| 0 <= i < |bindings| - 1 && bindings[1..][i] == b.value;
        assert bindings[i + 1] == b.value;
      }
    }
  }

  lemma {:induction false} ScopeNamesChord(stack: Stack, chord: Chord, inherited: bool)
    ensures var b := InScope(stack, chord, inherited);
            b.Some? ==> b.value.chord == chord
    decreases |stack|
  {
    if stack != [] {
      OfferedIsOwn(stack[|stack| - 1].rendered, chord, inherited);
      ScopeNamesChord(stack[..|stack| - 1], chord, true);
    }
  }

  /**
   Entering a submenu opens it exactly if the submenu has something to offer and
   the chord is one of the top frame's own.  A submenu that is inherited from
   further down resolves and is pushed, and the next rendering cuts it off,
   because only the frame below it is searched for the entry.
   */
  lemma SubmenuOpensIff(config: Config, stack: Stack, chord: Chord, ctx: ModeCtx)
    requires stack != [] && InScope(stack, chord, false).Some?
    requires var b := InScope(stack, chord, false).value;
             b.kind.Mode? && b.modeId.Some?
    ensures var b, top := InScope(stack, chord, false).value, |stack| - 1;
            var (after, r) := RenderStack(config, stack + [Submenu(b)], ctx);
            r.Ok? && |after| > top && after[top].rendered == stack[top].rendered
            ==> (|after| == |stack| + 1
                 <==> Offered(stack[top].rendered, chord, false).Some?
                      && config.view(b.kind.mode, ctx).Ok? && config.view(b.kind.mode, ctx).value.bindings != [])
  {
    hide RenderStack, InScope, Shown;
    var b, top := InScope(stack, chord, false).value, |stack| - 1;
    var pushed := stack + [Submenu(b)];
    RenderCutsOnlyForCause(config, pushed, ctx);
    ScopeNamesChord(stack, chord, false);
    OwnIffOffered(stack, chord);
    var (after, r) := RenderStack(config, pushed, ctx);
    assert pushed[|stack|] == Submenu(b);
    if r.Ok? && |after| == |stack| + 1 {
      ShownHasBindings(config, pushed, after, ctx, |stack|);
    }
  }

  lemma ShownHasBindings(config: Config, before: Stack, after: Stack, ctx: ModeCtx, i: nat)
    requires 0 < i < |after| && Shown(config, before, after, ctx, |after|)
    ensures var view := config.view(before[i].closure, ctx);
            view.Ok? && view.value.bindings != []
  {
  }

  /** A mode binding in scope is offered by the top frame exactly if the chord is the top frame's own. */
  lemma OwnIffOffered(stack: Stack, chord: Chord)
    requires stack != [] && InScope(stack, chord, false).Some?
    requires var b := InScope(stack, chord, false).value;
             b.kind.Mode? && b.modeId.Some?
    ensures var b, own := InScope(stack, chord, false).value, stack[|stack| - 1].rendered;
            NotOffered(own, chord, b.modeId.value) <==> Offered(own, chord, false).None?
  {
    var own := stack[|stack| - 1].rendered;
    OfferedIsOwn(own, chord, false);
    OfferedIffPresent(own, chord);
    assert forall k | 0 <= k < |own| :: own[k] in own;
  }
}
