/**
 Applying the effects of a handler, `apply_effect_queue` in
 crates/hotki-engine/src/actions.rs, and what a key press does with the result,
 crates/hotki-engine/src/dispatch.rs.

 How a single effect fares, whether a message can be sent or a relay finds its
 application, is part of the effect here.
 */
module Effects {
  import opened Wrappers
  import opened Dispatching
  import Runtime

  /** `ReloadConfig` ends a queue; so does a relay that is refused. */
  datatype Action = Relay(refused: bool) | ReloadConfig | OtherAction

  datatype Effect =
    | Exec(action: Action, fails: bool)
    | Notify(fails: bool)
    | Nav(nav: Runtime.NavRequest)
    | Select(shown: bool, fails: bool)
    | UntilKeyUp(handler: Handler, fails: bool)

  /** A Luau handler that cannot run, that raises an error, or that returns effects. */
  datatype Handler = NoConfig | Raises | Returns(effects: seq<Effect>, stay: bool)

  datatype EffectRun = OneShot | RepeatedFirst | RepeatedTick

  datatype Applied = Applied(result: DispatchResult, terminal: bool)

  type Outcome = Result<Applied, ()>

  const EMPTY := Applied(AutoExit, false)

  // ---------- Results form a join semilattice ----------

  /** `combine` is the least upper bound by priority, so order and repetition do not matter. */
  lemma CombineIsJoin(a: DispatchResult, b: DispatchResult, c: DispatchResult)
    ensures a.Combine(b) == b.Combine(a) && a.Combine(a) == a && AutoExit.Combine(a) == a
    ensures a.Combine(b).Combine(c) == a.Combine(b.Combine(c))
    ensures a.Combine(b).Priority() <= c.Priority() <==> a.Priority() <= c.Priority() && b.Priority() <= c.Priority()
    ensures a.Priority() == b.Priority() ==> a == b
  {
  }

  /** `with_stay` joins with `Stay`. */
  lemma WithStayIsJoin(a: DispatchResult, stay: bool)
    ensures a.WithStay(stay) == a.Combine(if stay then Stay else AutoExit)
  {
  }

  // ---------- Applying a queue ----------

  /** What one effect of a queue comes to. */
  function One(effect: Effect, run: EffectRun): Outcome
    decreases effect, 0
  {
    match effect
    case Exec(action, fails) =>
      if fails then Err(()) else Ok(Applied(AutoExit, action.ReloadConfig? || action == Relay(true)))
    case Notify(fails) => if fails then Err(()) else Ok(EMPTY)
    case Nav(nav) => Ok(Applied(Runtime.NavResult(nav), false))
    case Select(shown, fails) =>
      if fails then Err(()) else Ok(Applied(if shown then SelectorOpened else AutoExit, false))
    case UntilKeyUp(handler, fails) =>
      if run == OneShot then Repeated(handler, fails, RepeatedFirst)
      else if fails then Err(())
      else Ok(Applied(AutoExit, true))
  }

  /** `run_repeated_action`. */
  function Repeated(handler: Handler, fails: bool, run: EffectRun): Outcome
    decreases handler, 0
  {
    match handler
    case NoConfig => Ok(Applied(AutoExit, true))
    case Raises => if fails then Err(()) else Ok(Applied(AutoExit, true))
    case Returns(effects, stay) =>
      match Queue(effects, run)
      case Err(_) => Err(())
      case Ok(applied) => Ok(applied.(result := applied.result.WithStay(stay)))
  }

  /** How many effects of a queue are attempted: up to the first that fails or is terminal. */
  function Attempted(effects: seq<Effect>, run: EffectRun): (n: nat)
    ensures n <= |effects|
    decreases effects, 1
  {
    if effects == [] then 0
    else
      var first := One(effects[0], run);
      if first.Err? || first.value.terminal then 1 else 1 + Attempted(effects[1..], run)
  }

  function Queue(effects: seq<Effect>, run: EffectRun): Outcome
    decreases effects, 1
  {
    if effects == [] then Ok(EMPTY)
    else
      match One(effects[0], run)
      case Err(_) => Err(())
      case Ok(first) =>
        if first.terminal then Ok(first)
        else
          match Queue(effects[1..], run)
          case Err(_) => Err(())
          case Ok(rest) => Ok(Applied(first.result.Combine(rest.result), rest.terminal))
  }

  method ApplyEffectQueue(effects: seq<Effect>, run: EffectRun) returns (r: Outcome, attempted: nat)
    ensures r == Queue(effects, run) && attempted == Attempted(effects, run)
    ensures Means(effects, run, r, attempted)
    decreases effects, 1
  {
    hide Means;
    QueueMeans(effects, run);
    var applied := EMPTY;
    attempted := 0;
    while attempted < |effects|
      invariant attempted <= |effects| && !applied.terminal
      invariant Attempted(effects, run) == attempted + Attempted(effects[attempted..], run)
      invariant Queue(effects, run) == After(applied, Queue(effects[attempted..], run))
    {
      var effect := effects[attempted];
      assert effects[attempted..][0] == effect && effects[attempted..][1..] == effects[attempted + 1..];
      CombineAll(applied, effects[attempted..], run);
      var outcome := ApplyOne(effect, run);
      attempted := attempted + 1;
      if outcome.Err? {
        return Err(()), attempted;
      }
      applied := applied.(result := applied.result.Combine(outcome.value.result));
      if outcome.value.terminal {
        applied := applied.(terminal := true);
        return Ok(applied), attempted;
      }
    }
    assert effects[attempted..] == [];
    r := Ok(applied);
  }

  method ApplyOne(effect: Effect, run: EffectRun) returns (r: Outcome)
    ensures r == One(effect, run)
    decreases effect, 0
  {
    match effect {
      case UntilKeyUp(handler, fails) =>
        if run != OneShot {
          return if fails then Err(()) else Ok(Applied(AutoExit, true));
        }
        match handler {
          case NoConfig => return Ok(Applied(AutoExit, true));
          case Raises => return if fails then Err(()) else Ok(Applied(AutoExit, true));
          case Returns(effects, stay) =>
            var inner, _ := ApplyEffectQueue(effects, RepeatedFirst);
            if inner.Err? {
              return Err(());
            }
            return Ok(inner.value.(result := inner.value.result.WithStay(stay)));
        }
      case Exec(action, fails) =>
        r := if fails then Err(()) else Ok(EMPTY);
        if r.Ok? && action != OtherAction && action != Relay(false) {
          r := Ok(EMPTY.(terminal := true));
        }
      case Notify(fails) => r := if fails then Err(()) else Ok(EMPTY);
      case Nav(nav) => r := Ok(Applied(Runtime.NavResult(nav), false));
      case Select(shown, fails) =>
        r := if fails then Err(()) else Ok(Applied(if shown then SelectorOpened else AutoExit, false));
    }
  }

  /** What a queue comes to when `applied` went before it. */
  function After(applied: Applied, rest: Outcome): Outcome {
    match rest
    case Err(_) => Err(())
    case Ok(r) => Ok(Applied(applied.result.Combine(r.result), r.terminal))
  }

  lemma CombineAll(applied: Applied, effects: seq<Effect>, run: EffectRun)
    requires effects != []
    ensures var first := One(effects[0], run);
            After(applied, Queue(effects, run))
            == if first.Err? then Err(())
               else
                 var next := applied.(result := applied.result.Combine(first.value.result));
                 if first.value.terminal then Ok(next.(terminal := true))
                 else After(next, Queue(effects[1..], run))
  {
    var first := One(effects[0], run);
    if first.Ok? && !first.value.terminal && Queue(effects[1..], run).Ok? {
      CombineIsJoin(applied.result, first.value.result, Queue(effects[1..], run).value.result);
    }
  }

  // ---------- The result is the strongest one ----------

  /** The executed prefix stops at the first failure or terminal effect, and nowhere else. */
  lemma {:induction false} PrefixStopsWhereItMust(effects: seq<Effect>, run: EffectRun)
    ensures var n := Attempted(effects, run);
            && (forall i | 0 <= i < n - 1 :: One(effects[i], run).Ok? && !One(effects[i], run).value.terminal)
            && (n < |effects| ==> n > 0 && (One(effects[n - 1], run).Err? || One(effects[n - 1], run).value.terminal))
            && (Queue(effects, run).Err? <==> n > 0 && One(effects[n - 1], run).Err?)
            && (Queue(effects, run).Ok? ==>
                  Queue(effects, run).value.terminal == (n > 0 && One(effects[n - 1], run).value.terminal))
  {
    if effects != [] {
      var first := One(effects[0], run);
      if first.Ok? && !first.value.terminal {
        PrefixStopsWhereItMust(effects[1..], run);
        var m := Attempted(effects[1..], run);
        assert forall i | 0 < i < |effects| :: effects[i] == effects[1..][i - 1];
      }
    }
  }

  /** The result of a queue is the strongest result of an executed effect, and `AutoExit` without one. */
  lemma {:induction false} ResultIsStrongest(effects: seq<Effect>, run: EffectRun)
    requires Queue(effects, run).Ok?
    ensures var n, r := Attempted(effects, run), Queue(effects, run).value.result;
            && (forall i | 0 <= i < n ::
                  One(effects[i], run).Ok? && One(effects[i], run).value.result.Priority() <= r.Priority())
            && (r == AutoExit || exists i :: 0 <= i < n && One(effects[i], run) == Ok(Applied(r, i == n - 1
                    && Queue(effects, run).value.terminal)))
  {
    if effects != [] {
      var first := One(effects[0], run).value;
      if !first.terminal {
        var rest := effects[1..];
        ResultIsStrongest(rest, run);
        PrefixStopsWhereItMust(rest, run);
        var n, r := Attempted(effects, run), Queue(effects, run).value.result;
        forall i | 0 <= i < n
          ensures One(effects[i], run).Ok? && One(effects[i], run).value.result.Priority() <= r.Priority()
        {
          assert i > 0 ==> effects[i] == rest[i - 1];
        }
        if r != AutoExit && r != first.result {
          var j :| 0 <= j < n - 1 && One(rest[j], run) == Ok(Applied(r, j == n - 2 && Queue(rest, run).value.terminal));
          assert rest[j] == effects[j + 1];
        }
      }
    }
  }

  // ---------- What a queue does, on its effects ----------

  /** Effect `i` is executed: nothing before it fails or ends the queue. */
  predicate Runs(effects: seq<Effect>, run: EffectRun, i: nat)
    requires i < |effects|
    decreases effects, 1
  {
    forall j | 0 <= j < i :: !Fails(effects[j], run) && !Ends(effects[j], run)
  }

  /** Executing the effect, or something inside it, fails. */
  predicate Fails(effect: Effect, run: EffectRun)
    decreases effect, 0
  {
    match effect
    case UntilKeyUp(Returns(effects, _), fails) =>
      if run == OneShot then exists i | 0 <= i < |effects| :: Runs(effects, RepeatedFirst, i)
                                                           && Fails(effects[i], RepeatedFirst)
      else fails
    case UntilKeyUp(NoConfig, fails) => fails && run != OneShot
    case UntilKeyUp(Raises, fails) => fails
    case Nav(_) => false
    case Exec(_, fails) => fails
    case Notify(fails) => fails
    case Select(_, fails) => fails
  }

  /**
   The effect lets nothing run after it: a reload, a refused relay, a repeated
   action inside another, or one that cannot run, raises an error, or ends so
   itself.
   */
  predicate Ends(effect: Effect, run: EffectRun)
    decreases effect, 0
  {
    match effect
    case Exec(action, _) => action == ReloadConfig || action == Relay(true)
    case UntilKeyUp(handler, _) =>
      || run != OneShot || handler.NoConfig? || handler.Raises?
      || exists i | 0 <= i < |handler.effects| :: Runs(handler.effects, RepeatedFirst, i)
                                                && Ends(handler.effects[i], RepeatedFirst)
    case _ => false
  }

  /** The effect, or something executed inside it, asks for `r`. */
  predicate Wants(effect: Effect, run: EffectRun, r: DispatchResult)
    decreases effect, 0
  {
    match effect
    case Nav(PushNav(_, _)) => r == EnteredMode
    case Nav(_) => r == Navigation
    case Select(shown, _) => shown && r == SelectorOpened
    case UntilKeyUp(Returns(effects, stay), _) =>
      run == OneShot && ((stay && r == Stay) || AnyWants(effects, RepeatedFirst, r))
    case _ => false
  }

  predicate AnyWants(effects: seq<Effect>, run: EffectRun, r: DispatchResult)
    decreases effects, 2
  {
    exists i | 0 <= i < |effects| :: Runs(effects, run, i) && Wants(effects[i], run, r)
  }

  predicate AnyFails(effects: seq<Effect>, run: EffectRun) {
    exists i | 0 <= i < |effects| :: Runs(effects, run, i) && Fails(effects[i], run)
  }

  predicate AnyEnds(effects: seq<Effect>, run: EffectRun) {
    exists i | 0 <= i < |effects| :: Runs(effects, run, i) && Ends(effects[i], run)
  }

  /** An open selector over an entered mode, over any other navigation, over staying, over leaving. */
  predicate IsStrongest(r: DispatchResult, selector: bool, entered: bool, navigated: bool, stays: bool) {
    r == if selector then SelectorOpened
         else if entered then EnteredMode
         else if navigated then Navigation
         else if stays then Stay
         else AutoExit
  }

  ghost predicate OneMeans(effect: Effect, run: EffectRun) {
    var r := One(effect, run);
    && (r.Err? <==> Fails(effect, run))
    && (r.Ok? ==>
          && (r.value.terminal <==> Ends(effect, run))
          && IsStrongest(r.value.result, Wants(effect, run, SelectorOpened), Wants(effect, run, EnteredMode),
                         Wants(effect, run, Navigation), Wants(effect, run, Stay)))
  }

  /** What a queue comes to after `attempted` of its effects, told by the effects that ran. */
  ghost predicate Means(effects: seq<Effect>, run: EffectRun, r: Outcome, attempted: nat) {
    && attempted <= |effects|
    && (forall i | 0 <= i < |effects| :: i < attempted <==> Runs(effects, run, i))
    && (r.Err? <==> AnyFails(effects, run))
    && (r.Ok? ==>
          && (r.value.terminal <==> AnyEnds(effects, run))
          && IsStrongest(r.value.result, AnyWants(effects, run, SelectorOpened), AnyWants(effects, run, EnteredMode),
                         AnyWants(effects, run, Navigation), AnyWants(effects, run, Stay)))
  }

  lemma {:induction false} EffectMeans(effect: Effect, run: EffectRun)
    ensures OneMeans(effect, run)
    decreases effect, 0
  {
    match effect {
      case UntilKeyUp(Returns(effects, stay), fails) =>
        if run == OneShot {
          QueueMeans(effects, RepeatedFirst);
        }
      case _ =>
    }
  }

  lemma RunsFromFirst(effects: seq<Effect>, run: EffectRun, i: nat)
    requires i < |effects|
    ensures i == 0 ==> Runs(effects, run, i)
    ensures i > 0 ==>
              (Runs(effects, run, i)
               <==> !Fails(effects[0], run) && !Ends(effects[0], run) && Runs(effects[1..], run, i - 1))
  {
    if i > 0 && !Fails(effects[0], run) && !Ends(effects[0], run) && Runs(effects[1..], run, i - 1) {
      forall j | 0 <= j < i
        ensures !Fails(effects[j], run) && !Ends(effects[j], run)
      {
        assert j > 0 ==> effects[j] == effects[1..][j - 1];
      }
    }
  }

  lemma FailsFromFirst(effects: seq<Effect>, run: EffectRun)
    requires effects != []
    ensures AnyFails(effects, run)
       <==> Fails(effects[0], run)
            || (!Fails(effects[0], run) && !Ends(effects[0], run) && AnyFails(effects[1..], run))
  {
    hide Runs, Fails, Ends, Wants;
    var rest := effects[1..];
    RunsFromFirst(effects, run, 0);
    if i :| 0 < i < |effects| && Runs(effects, run, i) && Fails(effects[i], run) {
      RunsFromFirst(effects, run, i);
      assert rest[i - 1] == effects[i];
    }
    if !Fails(effects[0], run) && !Ends(effects[0], run) && AnyFails(rest, run) {
      var i :| 0 <= i < |rest| && Runs(rest, run, i) && Fails(rest[i], run);
      RunsFromFirst(effects, run, i + 1);
      assert effects[i + 1] == rest[i];
    }
  }

  lemma EndsFromFirst(effects: seq<Effect>, run: EffectRun)
    requires effects != []
    ensures AnyEnds(effects, run)
       <==> Ends(effects[0], run)
            || (!Fails(effects[0], run) && !Ends(effects[0], run) && AnyEnds(effects[1..], run))
  {
    hide Runs, Fails, Ends, Wants;
    var rest := effects[1..];
    RunsFromFirst(effects, run, 0);
    if i :| 0 < i < |effects| && Runs(effects, run, i) && Ends(effects[i], run) {
      RunsFromFirst(effects, run, i);
      assert rest[i - 1] == effects[i];
    }
    if !Fails(effects[0], run) && !Ends(effects[0], run) && AnyEnds(rest, run) {
      var i :| 0 <= i < |rest| && Runs(rest, run, i) && Ends(rest[i], run);
      RunsFromFirst(effects, run, i + 1);
      assert effects[i + 1] == rest[i];
    }
  }

  lemma WantsFromFirst(effects: seq<Effect>, run: EffectRun, r: DispatchResult)
    requires effects != []
    ensures AnyWants(effects, run, r)
       <==> Wants(effects[0], run, r)
            || (!Fails(effects[0], run) && !Ends(effects[0], run) && AnyWants(effects[1..], run, r))
  {
    hide Runs, Fails, Ends, Wants;
    var rest := effects[1..];
    RunsFromFirst(effects, run, 0);
    if i :| 0 < i < |effects| && Runs(effects, run, i) && Wants(effects[i], run, r) {
      RunsFromFirst(effects, run, i);
      assert rest[i - 1] == effects[i];
    }
    if !Fails(effects[0], run) && !Ends(effects[0], run) && AnyWants(rest, run, r) {
      var i :| 0 <= i < |rest| && Runs(rest, run, i) && Wants(rest[i], run, r);
      RunsFromFirst(effects, run, i + 1);
      assert effects[i + 1] == rest[i];
    }
  }

  lemma RunsIffAttempted(effects: seq<Effect>, run: EffectRun)
    requires effects != [] && OneMeans(effects[0], run)
    requires forall i | 0 <= i < |effects| - 1 ::
               i < Attempted(effects[1..], run) <==> Runs(effects[1..], run, i)
    ensures forall i | 0 <= i < |effects| :: i < Attempted(effects, run) <==> Runs(effects, run, i)
  {
    hide Fails, Ends, Wants, Runs, One, IsStrongest;
    forall i | 0 <= i < |effects|
      ensures i < Attempted(effects, run) <==> Runs(effects, run, i)
    {
      RunsFromFirst(effects, run, i);
    }
  }

  lemma StrongestJoins(a: DispatchResult, b: DispatchResult, a4: bool, a3: bool, a2: bool, a1: bool,
                       b4: bool, b3: bool, b2: bool, b1: bool)
    requires IsStrongest(a, a4, a3, a2, a1) && IsStrongest(b, b4, b3, b2, b1)
    ensures IsStrongest(a.Combine(b), a4 || b4, a3 || b3, a2 || b2, a1 || b1)
  {
  }

  /** The result of a first effect that goes on, joined with that of the rest. */
  lemma ResultFromFirst(effects: seq<Effect>, run: EffectRun, first: DispatchResult, rest: DispatchResult)
    requires effects != [] && !Fails(effects[0], run) && !Ends(effects[0], run)
    requires var e := effects[0];
             IsStrongest(first, Wants(e, run, SelectorOpened), Wants(e, run, EnteredMode), Wants(e, run, Navigation),
                         Wants(e, run, Stay))
    requires var es := effects[1..];
             IsStrongest(rest, AnyWants(es, run, SelectorOpened), AnyWants(es, run, EnteredMode),
                         AnyWants(es, run, Navigation), AnyWants(es, run, Stay))
    ensures IsStrongest(first.Combine(rest), AnyWants(effects, run, SelectorOpened),
                        AnyWants(effects, run, EnteredMode), AnyWants(effects, run, Navigation),
                        AnyWants(effects, run, Stay))
  {
    hide Fails, Ends, Wants, Runs, AnyWants, IsStrongest;
    WantsFromFirst(effects, run, SelectorOpened);
    WantsFromFirst(effects, run, EnteredMode);
    WantsFromFirst(effects, run, Navigation);
    WantsFromFirst(effects, run, Stay);
    var e, es := effects[0], effects[1..];
    StrongestJoins(first, rest, Wants(e, run, SelectorOpened), Wants(e, run, EnteredMode), Wants(e, run, Navigation),
                   Wants(e, run, Stay), AnyWants(es, run, SelectorOpened), AnyWants(es, run, EnteredMode),
                   AnyWants(es, run, Navigation), AnyWants(es, run, Stay));
  }

  /** The result of a first effect that ends the queue. */
  lemma ResultOfLast(effects: seq<Effect>, run: EffectRun, first: DispatchResult)
    requires effects != [] && Ends(effects[0], run)
    requires var e := effects[0];
             IsStrongest(first, Wants(e, run, SelectorOpened), Wants(e, run, EnteredMode), Wants(e, run, Navigation),
                         Wants(e, run, Stay))
    ensures IsStrongest(first, AnyWants(effects, run, SelectorOpened), AnyWants(effects, run, EnteredMode),
                        AnyWants(effects, run, Navigation), AnyWants(effects, run, Stay))
  {
    hide Fails, Ends, Wants, Runs, AnyWants, IsStrongest;
    WantsFromFirst(effects, run, SelectorOpened);
    WantsFromFirst(effects, run, EnteredMode);
    WantsFromFirst(effects, run, Navigation);
    WantsFromFirst(effects, run, Stay);
  }

  lemma QueueStep(effects: seq<Effect>, run: EffectRun)
    requires effects != [] && OneMeans(effects[0], run)
    requires Means(effects[1..], run, Queue(effects[1..], run), Attempted(effects[1..], run))
    ensures Means(effects, run, Queue(effects, run), Attempted(effects, run))
  {
    hide Fails, Ends, Wants, Runs, One, AnyWants, AnyFails, AnyEnds, IsStrongest;
    RunsIffAttempted(effects, run);
    FailsFromFirst(effects, run);
    EndsFromFirst(effects, run);
    var first, rest := One(effects[0], run), Queue(effects[1..], run);
    if first.Ok? && first.value.terminal {
      ResultOfLast(effects, run, first.value.result);
    } else if first.Ok? && rest.Ok? {
      ResultFromFirst(effects, run, first.value.result, rest.value.result);
    }
  }

  /**
   What a queue does, on its effects: those executed are the ones with nothing
   before them that fails or ends the queue; it fails exactly if one of them does;
   it is cut short exactly if one of them ends it; and its result is the
   strongest that any of them, at any depth, asks for.
   */
  lemma {:induction false} QueueMeans(effects: seq<Effect>, run: EffectRun)
    ensures Means(effects, run, Queue(effects, run), Attempted(effects, run))
    decreases effects, 1
  {
    if effects != [] {
      hide Means, OneMeans;
      EffectMeans(effects[0], run);
      QueueMeans(effects[1..], run);
      QueueStep(effects, run);
    }
  }

  // ---------- Auto-exit ----------

  /** Does an effect, or something executed inside it, ask for more than leaving the menu? */
  predicate Asks(effect: Effect, run: EffectRun)
    decreases effect, 0
  {
    match effect
    case Nav(_) => true
    case Select(shown, _) => shown
    case UntilKeyUp(Returns(effects, stay), _) => run == OneShot && (stay || AnyAsks(effects, RepeatedFirst))
    case _ => false
  }

  predicate AnyAsks(effects: seq<Effect>, run: EffectRun)
    decreases effects, 1
  {
    exists i :: 0 <= i < Attempted(effects, run) && Asks(effects[i], run)
  }

  lemma {:induction false} EffectExitsUnlessAsked(effect: Effect, run: EffectRun)
    requires One(effect, run).Ok?
    ensures One(effect, run).value.result.ShouldAutoExit() <==> !Asks(effect, run)
    decreases effect, 0
  {
    match effect {
      case UntilKeyUp(Returns(effects, stay), fails) =>
        if run == OneShot {
          QueueExitsUnlessAsked(effects, RepeatedFirst);
        }
      case _ =>
    }
  }

  /** A queue ends in auto-exit exactly if no executed effect, at any depth, asks otherwise. */
  lemma {:induction false} QueueExitsUnlessAsked(effects: seq<Effect>, run: EffectRun)
    requires Queue(effects, run).Ok?
    ensures Queue(effects, run).value.result.ShouldAutoExit() <==> !AnyAsks(effects, run)
    decreases effects, 1
  {
    var n, r := Attempted(effects, run), Queue(effects, run).value.result;
    ResultIsStrongest(effects, run);
    forall i | 0 <= i < n
      ensures One(effects[i], run).value.result.ShouldAutoExit() <==> !Asks(effects[i], run)
    {
      EffectExitsUnlessAsked(effects[i], run);
    }
    if r != AutoExit {
      var i :| 0 <= i < n && One(effects[i], run) == Ok(Applied(r, i == n - 1 && Queue(effects, run).value.terminal));
      assert Asks(effects[i], run);
    }
  }

  // ---------- A key press ----------

  datatype Kind = ModeKind | HandlerKind(handler: Handler, fails: bool)

  /** What `execute_binding` comes to: an error, nothing, or a result for the press. */
  function ExecuteBinding(kind: Kind, stay: bool): Result<Option<DispatchResult>, ()> {
    match kind
    case ModeKind => Ok(Some(EnteredMode.WithStay(stay)))
    case HandlerKind(NoConfig, _) => Ok(None)
    case HandlerKind(Raises, fails) => if fails then Err(()) else Ok(None)
    case HandlerKind(Returns(effects, handlerStay), _) =>
      match Queue(effects, OneShot)
      case Err(_) => Err(())
      case Ok(applied) => Ok(Some(applied.result.WithStay(handlerStay).WithStay(stay)))
  }

  predicate AutoExits(kind: Kind, stay: bool) {
    var r := ExecuteBinding(kind, stay);
    r.Ok? && r.value.Some? && r.value.value.ShouldAutoExit()
  }

  /**
   A key press leaves the menu on its own exactly if it ran a handler to its end
   and neither the binding, nor the handler, nor any executed effect asked
   otherwise.
   */
  lemma PressExitsIff(kind: Kind, stay: bool)
    ensures AutoExits(kind, stay)
       <==> kind.HandlerKind? && kind.handler.Returns? && Queue(kind.handler.effects, OneShot).Ok?
            && !stay && !kind.handler.stay && !AnyAsks(kind.handler.effects, OneShot)
  {
    if kind.HandlerKind? && kind.handler.Returns? && Queue(kind.handler.effects, OneShot).Ok? {
      QueueExitsUnlessAsked(kind.handler.effects, OneShot);
      WithStayIsJoin(Queue(kind.handler.effects, OneShot).value.result, stay);
    }
  }
}
