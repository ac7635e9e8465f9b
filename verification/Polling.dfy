/**
 On-demand refresh of the polling world, crates/hotki-world/src/polling.rs: any
 number of callers of `refresh` run against one polling loop, and the steps of
 all of them interleave at every access to shared state.

 A clock that ticks at every step is used to say that a capture started after a
 request was made.
 */
module Polling {

  // ---------- The tuner ----------

  /** `PollTuner`: the state that callers and the loop share. */
  datatype Tuner = Tuner(
    minMs: nat, maxMs: nat, nextMs: nat, requested: nat, completed: nat, version: nat, permit: bool)

  const U64_MAX: nat := 0xFFFF_FFFF_FFFF_FFFF

  function Max(a: nat, b: nat): nat {
    if a < b then b else a
  }

  function Min(a: nat, b: nat): nat {
    if a < b then a else b
  }

  function NewTuner(minMs: nat, maxMs: nat): Tuner {
    Tuner(Max(minMs, 50), maxMs, 0, 0, 0, 0, false)
  }

  /** `next_interval` and `consume_hint` both empty the hint; only the first backs off. */
  function NextInterval(t: Tuner, last: nat): nat {
    if t.nextMs != 0 then t.nextMs else Min(Min(last + 10, U64_MAX), t.maxMs)
  }

  function Announce(t: Tuner): Tuner {
    t.(requested := t.requested + 1, nextMs := t.minMs, permit := true)
  }

  class PollTuner {
    const minMs: nat
    const maxMs: nat
    var nextMs: nat
    var requested: nat
    var completed: nat
    var version: nat
    var permit: bool

    function Value(): Tuner
      reads this
    {
      Tuner(minMs, maxMs, nextMs, requested, completed, version, permit)
    }

    constructor (minMs: nat, maxMs: nat)
      ensures Value() == NewTuner(minMs, maxMs)
    {
      this.minMs, this.maxMs := if minMs < 50 then 50 else minMs, maxMs;
      nextMs, requested, completed, version, permit := 0, 0, 0, 0, false;
    }

    method ConsumeHint() returns (hinted: nat)
      modifies this`nextMs
      ensures hinted == old(nextMs) && nextMs == 0
    {
      hinted := nextMs;
      nextMs := 0;
    }

    method BackOff(last: nat) returns (interval: nat)
      modifies this`nextMs
      ensures interval == NextInterval(old(Value()), last) && nextMs == 0
    {
      var hinted := ConsumeHint();
      if hinted != 0 {
        return hinted;
      }
      var sum := if last + 10 <= U64_MAX then last + 10 else U64_MAX;
      interval := if sum < maxMs then sum else maxMs;
    }

    /** `request_refresh` when nobody interferes; callers that interleave are in the protocol below. */
    method RequestRefresh() returns (generation: nat)
      modifies this`requested, this`nextMs, this`permit
      ensures generation == old(requested) + 1 && Value() == Announce(old(Value()))
    {
      requested := requested + 1;
      generation := requested;
      nextMs := minMs;
      permit := true;
    }

    method CompleteRefresh(generation: nat)
      modifies this`completed, this`version
      ensures completed == generation && version == old(version) + 1
    {
      completed := generation;
      version := version + 1;
    }
  }

  // ---------- The protocol ----------

  /** Where the loop is: `Top` is about to read the generation, `Ticked` about to look for a hint. */
  datatype LoopPc = Top | Capturing | Captured | Applied | Completed | Ticked | Parked | Woken

  /** Where a call of `refresh` is. */
  datatype CallPc = Incremented | Hinted | Checking | Waiting(seen: nat) | Returned

  datatype Call = Call(gen: nat, at: nat, pc: CallPc)

  datatype State = State(
    now: nat, tuner: Tuner, pc: LoopPc, intervalMs: nat,
    lastRead: nat,     // the generation the current round read
    captureFrom: nat,  // when that round's capture started
    appliedFrom: nat,  // when the capture now in the world started
    calls: map<nat, Call>)

  datatype Step =
    | ReadGeneration | FinishCapture | Apply | Complete | Tick | LookForHint | Timer | Wake | WokenHint
    | Request(id: nat) | StoreHint(id: nat) | Notify(id: nat) | Check(id: nat) | Changed(id: nat)

  function Initial(minMs: nat, maxMs: nat): State {
    State(1, NewTuner(minMs, maxMs), Top, Max(minMs, 50), 0, 0, 0, map[])
  }

  predicate At(s: State, id: nat, pc: CallPc) {
    id in s.calls && s.calls[id].pc == pc
  }

  predicate Enabled(s: State, step: Step) {
    match step
    case ReadGeneration => s.pc == Top
    case FinishCapture => s.pc == Capturing
    case Apply => s.pc == Captured
    case Complete => s.pc == Applied
    case Tick => s.pc == Completed
    case LookForHint => s.pc == Ticked
    case Timer => s.pc == Parked
    case Wake => s.pc == Parked && s.tuner.permit
    case WokenHint => s.pc == Woken
    case Request(id) => id !in s.calls
    case StoreHint(id) => At(s, id, Incremented)
    case Notify(id) => At(s, id, Hinted)
    case Check(id) => At(s, id, Checking)
    case Changed(id) => id in s.calls && s.calls[id].pc.Waiting? && s.calls[id].pc.seen != s.tuner.version
  }

  function Moved(s: State, id: nat, pc: CallPc): map<nat, Call>
    requires id in s.calls
  {
    s.calls[id := s.calls[id].(pc := pc)]
  }

  function After(before: State, step: Step): State
    requires Enabled(before, step)
  {
    var s := before.(now := before.now + 1);
    var t := s.tuner;
    match step
    case ReadGeneration => s.(pc := Capturing, lastRead := t.requested, captureFrom := before.now)
    case FinishCapture => s.(pc := Captured)
    case Apply => s.(pc := Applied, appliedFrom := s.captureFrom)
    case Complete => s.(pc := Completed, tuner := t.(completed := s.lastRead, version := t.version + 1))
    case Tick => s.(pc := Ticked, intervalMs := NextInterval(t, s.intervalMs), tuner := t.(nextMs := 0))
    case LookForHint =>
      if t.nextMs != 0 then s.(pc := Top, intervalMs := t.nextMs, tuner := t.(nextMs := 0)) else s.(pc := Parked)
    case Timer => s.(pc := Top)
    case Wake => s.(pc := Woken, tuner := t.(permit := false))
    case WokenHint =>
      s.(pc := Top, intervalMs := if t.nextMs != 0 then t.nextMs else s.intervalMs, tuner := t.(nextMs := 0))
    case Request(id) =>
      s.(tuner := t.(requested := t.requested + 1),
         calls := s.calls[id := Call(t.requested + 1, before.now, Incremented)])
    case StoreHint(id) => s.(tuner := t.(nextMs := t.minMs), calls := Moved(s, id, Hinted))
    case Notify(id) => s.(tuner := t.(permit := true), calls := Moved(s, id, Checking))
    case Check(id) =>
      s.(calls := Moved(s, id, if t.completed >= s.calls[id].gen then Returned else Waiting(t.version)))
    case Changed(id) => s.(calls := Moved(s, id, Checking))
  }

  /** The three steps of a request, taken together, are one call of `RequestRefresh`. */
  lemma RequestIsThreeSteps(s: State, id: nat)
    requires id !in s.calls
    ensures Enabled(s, Request(id)) && Enabled(After(s, Request(id)), StoreHint(id))
    ensures var s2 := After(After(s, Request(id)), StoreHint(id));
            && Enabled(s2, Notify(id)) && After(s2, Notify(id)).tuner == Announce(s.tuner)
            && After(s2, Notify(id)).calls[id] == Call(s.tuner.requested + 1, s.now, Checking)
  {
  }

  // ---------- What every interleaving keeps ----------

  /** A request has been announced to the loop once its caller has called `notify_one`. */
  predicate Announced(call: Call) {
    !call.pc.Incremented? && !call.pc.Hinted?
  }

  ghost predicate CallOk(s: State, call: Call) {
    && 0 < call.gen <= s.tuner.requested && call.at < s.now
    // a request the round has read was made before the round's capture started
    && (call.gen <= s.lastRead ==> call.at < s.captureFrom)
    // a completed request was made before the capture now in the world started
    && (call.gen <= s.tuner.completed ==> call.at < s.appliedFrom)
    // an announced request that no round has read keeps the loop from sleeping
    && (Announced(call) && call.gen > s.lastRead ==> s.tuner.permit || s.pc == Woken || s.pc == Top)
    // a waiting caller has not missed the completion of its request
    && (call.pc.Waiting? ==> call.pc.seen <= s.tuner.version)
    && (call.pc.Waiting? && call.pc.seen == s.tuner.version ==> s.tuner.completed < call.gen)
    && (call.pc.Returned? ==> call.gen <= s.tuner.completed)
  }

  ghost predicate LoopOk(s: State) {
    && s.tuner.completed <= s.lastRead <= s.tuner.requested
    && s.appliedFrom <= s.captureFrom < s.now
    && (s.pc == Applied ==> s.appliedFrom == s.captureFrom)
    && (s.pc != Capturing && s.pc != Captured && s.pc != Applied ==> s.tuner.completed == s.lastRead)
    && s.intervalMs <= Max(s.tuner.minMs, s.tuner.maxMs)
    && (s.tuner.nextMs == 0 || s.tuner.nextMs == s.tuner.minMs)
  }

  ghost predicate Inv(s: State) {
    LoopOk(s) && forall id | id in s.calls :: CallOk(s, s.calls[id])
  }

  lemma LoopStaysOk(s: State, step: Step)
    requires LoopOk(s) && Enabled(s, step)
    ensures LoopOk(After(s, step))
  {
  }

  /** A call keeps its promises across a step it does not take. */
  lemma CallStaysOk(s: State, step: Step, call: Call)
    requires LoopOk(s) && Enabled(s, step) && CallOk(s, call)
    ensures CallOk(After(s, step), call)
  {
  }

  lemma StepKeepsInv(s: State, step: Step)
    requires Inv(s) && Enabled(s, step)
    ensures Inv(After(s, step))
  {
    hide CallOk, LoopOk;
    LoopStaysOk(s, step);
    var s' := After(s, step);
    forall id | id in s'.calls
      ensures CallOk(s', s'.calls[id])
    {
      if id in s.calls && s'.calls[id] == s.calls[id] {
        CallStaysOk(s, step, s.calls[id]);
      } else {
        OwnStepOk(s, step, id);
      }
    }
  }

  lemma OwnStepOk(s: State, step: Step, id: nat)
    requires Inv(s) && Enabled(s, step)
    requires id in After(s, step).calls && (id in s.calls ==> After(s, step).calls[id] != s.calls[id])
    ensures CallOk(After(s, step), After(s, step).calls[id])
  {
    if id in s.calls {
      assert CallOk(s, s.calls[id]);
    }
  }

  ghost predicate IsRun(states: seq<State>, steps: seq<Step>) {
    && |states| == |steps| + 1
    && forall i | 0 <= i < |steps| :: Enabled(states[i], steps[i]) && states[i + 1] == After(states[i], steps[i])
  }

  lemma {:induction false} RunKeepsInv(states: seq<State>, steps: seq<Step>, n: nat)
    requires IsRun(states, steps) && Inv(states[0]) && n < |states|
    ensures Inv(states[n])
    decreases n
  {
    hide Inv;
    if n > 0 {
      RunKeepsInv(states, steps, n - 1);
      StepKeepsInv(states[n - 1], steps[n - 1]);
    }
  }

  lemma InitialInv(minMs: nat, maxMs: nat)
    ensures Inv(Initial(minMs, maxMs))
  {
  }

  /**
   Refresh is fresh: in every state of every interleaving, when a call has
   returned, the capture in the world started after the call made its request.
   No completed generation exceeds the requested one, and the polling interval
   never exceeds the larger of its two bounds.
   */
  lemma RefreshIsFresh(states: seq<State>, steps: seq<Step>, minMs: nat, maxMs: nat, n: nat, id: nat)
    requires IsRun(states, steps) && states[0] == Initial(minMs, maxMs) && n < |states|
    requires id in states[n].calls
    ensures states[n].calls[id].pc.Returned? ==> states[n].calls[id].at < states[n].appliedFrom
    ensures states[n].tuner.completed <= states[n].tuner.requested
    ensures states[n].intervalMs <= Max(states[n].tuner.minMs, states[n].tuner.maxMs)
  {
    InitialInv(minMs, maxMs);
    RunKeepsInv(states, steps, n);
    assert CallOk(states[n], states[n].calls[id]);
  }

  /**
   No wake-up is lost: whenever the loop is asleep with no permit to wake it,
   every request it has not read belongs to a caller that has yet to call
   `notify_one`; and a caller asleep on the completed generation is one whose
   request is not completed.
   */
  lemma NoWakeupIsLost(states: seq<State>, steps: seq<Step>, minMs: nat, maxMs: nat, n: nat, id: nat)
    requires IsRun(states, steps) && states[0] == Initial(minMs, maxMs) && n < |states|
    requires id in states[n].calls
    ensures var s, call := states[n], states[n].calls[id];
            && (s.pc == Parked && !s.tuner.permit && call.gen > s.lastRead ==> !Announced(call))
            && (call.pc.Waiting? && !Enabled(s, Changed(id)) ==> s.tuner.completed < call.gen)
  {
    InitialInv(minMs, maxMs);
    RunKeepsInv(states, steps, n);
    assert CallOk(states[n], states[n].calls[id]);
  }

  /**
   A call returns exactly at a check that finds its request completed: it has
   returned if and only if it made such a check.  A check that finds it still open
   makes the caller sleep until the next completion.
   */
  lemma {:induction false} ReturnedIff(states: seq<State>, steps: seq<Step>, minMs: nat, maxMs: nat, n: nat, id: nat)
    requires IsRun(states, steps) && states[0] == Initial(minMs, maxMs) && n < |states|
    ensures At(states[n], id, Returned)
       <==> exists i | 0 <= i < n ::
              steps[i] == Check(id) && id in states[i].calls
              && states[i].tuner.completed >= states[i].calls[id].gen
    decreases n
  {
    if n > 0 {
      ReturnedIff(states, steps, minMs, maxMs, n - 1, id);
      var s, step := states[n - 1], steps[n - 1];
      assert Enabled(s, step) && states[n] == After(s, step);
      CheckReturnsIff(s, step, id);
      if At(states[n], id, Returned) && !At(s, id, Returned) {
        assert steps[n - 1] == Check(id);
      }
    }
  }

  lemma CheckReturnsIff(s: State, step: Step, id: nat)
    requires Enabled(s, step)
    ensures At(After(s, step), id, Returned)
       <==> At(s, id, Returned)
            || (step == Check(id) && s.tuner.completed >= s.calls[id].gen)
    ensures step == Check(id) && s.tuner.completed < s.calls[id].gen ==>
              At(After(s, step), id, Waiting(s.tuner.version)) && !Enabled(After(s, step), Changed(id))
  {
  }

  /** Later states of a run never complete less. */
  lemma {:induction false} CompletedGrows(states: seq<State>, steps: seq<Step>, m: nat, n: nat)
    requires IsRun(states, steps) && Inv(states[0]) && m <= n < |states|
    ensures states[m].tuner.completed <= states[n].tuner.completed
    decreases n - m
  {
    hide Inv;
    if m < n {
      CompletedGrows(states, steps, m, n - 1);
      RunKeepsInv(states, steps, n - 1);
      OneStepGrows(states[n - 1], steps[n - 1]);
    }
  }

  lemma OneStepGrows(s: State, step: Step)
    requires Inv(s) && Enabled(s, step)
    ensures s.tuner.completed <= After(s, step).tuner.completed
  {
  }

  // ---------- Every announced request is served ----------

  /** The loop's next step if it may take one without the timer. */
  function LoopStep(s: State): Step {
    match s.pc
    case Top => ReadGeneration
    case Capturing => FinishCapture
    case Captured => Apply
    case Applied => Complete
    case Completed => Tick
    case Ticked => LookForHint
    case Parked => Wake
    case Woken => WokenHint
  }

  /** How many loop steps at most separate `s` from the completion of generation `gen`. */
  function Distance(s: State, gen: nat): nat {
    if gen <= s.tuner.completed then 0
    else if gen <= s.lastRead then ToCompleted(s.pc)
    else ToTop(s.pc) + ToCompleted(Top)
  }

  function ToCompleted(pc: LoopPc): nat {
    match pc
    case Applied => 1
    case Captured => 2
    case Capturing => 3
    case _ => 4
  }

  function ToTop(pc: LoopPc): nat {
    match pc
    case Top => 0
    case Woken => 1
    case Parked => 2
    case Ticked => 3
    case Completed => 4
    case Applied => 5
    case Captured => 6
    case Capturing => 7
  }

  function LoopRun(s: State, n: nat): State
    decreases n
  {
    if n == 0 || !Enabled(s, LoopStep(s)) then s
    else LoopRun(After(s, LoopStep(s)), n - 1)
  }

  /** The next step of a caller that has not returned. */
  function CallerStep(s: State, id: nat): Step
    requires id in s.calls
  {
    match s.calls[id].pc
    case Incremented => StoreHint(id)
    case Hinted => Notify(id)
    case Waiting(_) => Changed(id)
    case _ => Check(id)
  }

  /** The caller's own steps, at most `n`, for as long as it can take one. */
  function CallerRun(s: State, id: nat, n: nat): State
    decreases n
  {
    if n == 0 || id !in s.calls || !Enabled(s, CallerStep(s, id)) then s
    else CallerRun(After(s, CallerStep(s, id)), id, n - 1)
  }

  /** A caller whose request is completed returns by its own steps. */
  lemma CallerReturns(s: State, id: nat)
    requires Inv(s) && id in s.calls && Announced(s.calls[id]) && s.calls[id].gen <= s.tuner.completed
    ensures At(CallerRun(s, id, 2), id, Returned)
  {
    assert CallOk(s, s.calls[id]);
    hide Inv, CallOk, After, CallerRun;
    if s.calls[id].pc.Waiting? {
      assert Enabled(s, Changed(id));
      ChangedThenCheck(s, id);
    } else if s.calls[id].pc.Checking? {
      CheckReturns(s, id, 2);
    } else {
      NothingLeft(s, id);
    }
  }

  lemma CheckReturns(s: State, id: nat, n: nat)
    requires At(s, id, Checking) && s.calls[id].gen <= s.tuner.completed && 1 <= n <= 2
    ensures At(CallerRun(s, id, n), id, Returned)
  {
    assert CallerRun(s, id, n) == CallerRun(After(s, Check(id)), id, n - 1);
    if n == 2 {
      NothingLeft(After(s, Check(id)), id);
    }
  }

  lemma NothingLeft(s: State, id: nat)
    requires At(s, id, Returned)
    ensures forall n :: CallerRun(s, id, n) == s
  {
  }

  lemma ChangedThenCheck(s: State, id: nat)
    requires Enabled(s, Changed(id)) && s.calls[id].gen <= s.tuner.completed
    ensures At(CallerRun(s, id, 2), id, Returned)
  {
    hide CallerRun;
    CheckReturns(After(s, Changed(id)), id, 1);
    OneMore(s, id);
  }

  lemma OneMore(s: State, id: nat)
    requires id in s.calls && Enabled(s, CallerStep(s, id))
    ensures CallerRun(s, id, 2) == CallerRun(After(s, CallerStep(s, id)), id, 1)
  {
  }

  lemma LoopStepIsCloser(s: State, id: nat)
    requires Inv(s) && id in s.calls && Announced(s.calls[id]) && s.calls[id].gen > s.tuner.completed
    ensures Enabled(s, LoopStep(s))
    ensures Distance(After(s, LoopStep(s)), s.calls[id].gen) < Distance(s, s.calls[id].gen)
    ensures After(s, LoopStep(s)).calls == s.calls
  {
    assert CallOk(s, s.calls[id]);
  }

  /**
   With the timer switched off and no caller moving, an announced request is
   still completed, within eleven steps of the loop; two more steps of its caller
   at most and the call has returned.
   */
  lemma {:induction false} AnnouncedRequestsAreServed(s: State, id: nat, n: nat)
    requires Inv(s) && id in s.calls && Announced(s.calls[id]) && n >= Distance(s, s.calls[id].gen)
    ensures Distance(s, s.calls[id].gen) <= 11
    ensures s.calls[id].gen <= LoopRun(s, n).tuner.completed && LoopRun(s, n).calls == s.calls
    ensures At(CallerRun(LoopRun(s, n), id, 2), id, Returned)
    decreases n
  {
    hide After, Distance, ToTop, ToCompleted, CallerRun;
    DistanceBound(s, s.calls[id].gen);
    if s.calls[id].gen <= s.tuner.completed {
      LoopOnlyCompletes(s, n, s.calls[id].gen);
      LoopRunKeeps(s, n);
      CallerReturns(LoopRun(s, n), id);
    } else {
      LoopStepIsCloser(s, id);
      StepKeepsInv(s, LoopStep(s));
      AnnouncedRequestsAreServed(After(s, LoopStep(s)), id, n - 1);
    }
  }

  lemma DistanceBound(s: State, gen: nat)
    ensures Distance(s, gen) <= 11
  {
  }

  lemma {:induction false} LoopOnlyCompletes(s: State, n: nat, gen: nat)
    requires Inv(s) && gen <= s.tuner.completed
    ensures gen <= LoopRun(s, n).tuner.completed
    decreases n
  {
    hide Inv, After;
    if n > 0 && Enabled(s, LoopStep(s)) {
      StepKeepsInv(s, LoopStep(s));
      OneStepGrows(s, LoopStep(s));
      LoopOnlyCompletes(After(s, LoopStep(s)), n - 1, gen);
    }
  }

  lemma {:induction false} LoopRunKeeps(s: State, n: nat)
    requires Inv(s)
    ensures Inv(LoopRun(s, n)) && LoopRun(s, n).calls == s.calls
    decreases n
  {
    hide Inv;
    if n > 0 && Enabled(s, LoopStep(s)) {
      StepKeepsInv(s, LoopStep(s));
      LoopRunKeeps(After(s, LoopStep(s)), n - 1);
    }
  }

  lemma {:induction false} CallerRunKeeps(s: State, id: nat, n: nat)
    requires Inv(s) && id in s.calls
    ensures var s' := CallerRun(s, id, n);
            && Inv(s') && id in s'.calls && s'.calls[id].gen == s.calls[id].gen
    decreases n
  {
    hide Inv;
    if n > 0 && Enabled(s, CallerStep(s, id)) {
      StepKeepsInv(s, CallerStep(s, id));
      CallerRunKeeps(After(s, CallerStep(s, id)), id, n - 1);
    }
  }

  lemma TwoStepsAnnounce(s: State, id: nat)
    requires id in s.calls
    ensures id in CallerRun(s, id, 2).calls && Announced(CallerRun(s, id, 2).calls[id])
  {
    if Enabled(s, CallerStep(s, id)) {
      var s1 := After(s, CallerStep(s, id));
      assert CallerRun(s, id, 2) == CallerRun(s1, id, 1);
      if Enabled(s1, CallerStep(s1, id)) {
        assert CallerRun(s1, id, 1) == After(s1, CallerStep(s1, id));
      }
    }
  }

  /**
   Every call can return, without the timer and without anybody else: two steps
   of its own announce the request, eleven of the loop complete it, and two more
   of its own find that out.
   */
  lemma EveryCallReturns(s: State, id: nat)
    requires Inv(s) && id in s.calls
    ensures At(CallerRun(LoopRun(CallerRun(s, id, 2), 11), id, 2), id, Returned)
  {
    hide After, CallerRun, LoopRun, Inv;
    CallerRunKeeps(s, id, 2);
    TwoStepsAnnounce(s, id);
    var announced := CallerRun(s, id, 2);
    DistanceBound(announced, announced.calls[id].gen);
    AnnouncedRequestsAreServed(announced, id, 11);
  }

  // ---------- The cadence ----------

  /** These steps of the loop take a stored hint. */
  predicate TakesHint(step: Step) {
    step.Tick? || step.LookForHint? || step.WokenHint?
  }

  /** A hint has been stored since the loop last looked for one. */
  ghost predicate HintSince(steps: seq<Step>, n: nat)
    requires n <= |steps|
  {
    exists i | 0 <= i < n :: steps[i].StoreHint? && forall j | i < j < n :: !TakesHint(steps[j])
  }

  lemma HintNext(steps: seq<Step>, n: nat)
    requires n < |steps|
    ensures HintSince(steps, n + 1)
       <==> steps[n].StoreHint? || (HintSince(steps, n) && !TakesHint(steps[n]))
  {
    if HintSince(steps, n) && !TakesHint(steps[n]) {
      var i :| 0 <= i < n && steps[i].StoreHint? && forall j | i < j < n :: !TakesHint(steps[j]);
      assert forall j | i < j < n + 1 :: !TakesHint(steps[j]);
    }
  }

  lemma {:induction false} HintIsStoredIff(states: seq<State>, steps: seq<Step>, minMs: nat, maxMs: nat, n: nat)
    requires IsRun(states, steps) && states[0] == Initial(minMs, maxMs) && n < |states|
    ensures states[n].tuner.minMs == Max(minMs, 50) && states[n].tuner.maxMs == maxMs
    ensures states[n].tuner.nextMs == if HintSince(steps, n) then Max(minMs, 50) else 0
    decreases n
  {
    hide HintSince;
    if n > 0 {
      HintIsStoredIff(states, steps, minMs, maxMs, n - 1);
      assert Enabled(states[n - 1], steps[n - 1]) && states[n] == After(states[n - 1], steps[n - 1]);
      HintNext(steps, n - 1);
    } else {
      assert !HintSince(steps, 0) by { NoHintYet(steps); }
    }
  }

  lemma NoHintYet(steps: seq<Step>)
    ensures !HintSince(steps, 0)
  {
  }

  /**
   The cadence is the history: the interval drops to the minimum exactly when the
   loop looks for a hint and a request has stored one since it last looked; it
   grows by ten milliseconds, up to the maximum, at a tick without one; no other
   step changes it.
   */
  lemma IntervalFollowsRequests(states: seq<State>, steps: seq<Step>, minMs: nat, maxMs: nat, n: nat)
    requires IsRun(states, steps) && states[0] == Initial(minMs, maxMs) && n < |steps|
    ensures var was := states[n].intervalMs;
            states[n + 1].intervalMs
            == if TakesHint(steps[n]) && HintSince(steps, n) then Max(minMs, 50)
               else if steps[n].Tick? then Min(Min(was + 10, U64_MAX), maxMs)
               else was
  {
    HintIsStoredIff(states, steps, minMs, maxMs, n);
    assert Enabled(states[n], steps[n]) && states[n + 1] == After(states[n], steps[n]);
    hide HintSince;
  }
}
