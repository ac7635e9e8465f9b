/**
 Process runs of held and pressed keys, crates/hotki-engine/src/repeater.rs and
 the tickers of ticker.rs.

 The repeater lives on a current-thread runtime: what lies between two awaits is
 one step, and steps of callers, ticker tasks and run tasks interleave freely.
 */
module ProcessRuns {
  import opened Wrappers

  type Name = nat

  /** Who is answerable for a run state: the map of states, a stop call that has taken it out, or nobody. */
  datatype Owner = Mapped | Queued(call: Name) | Nobody

  /**
   A `ProcessRunState`.  `task` is its join-handle slot.  `current` is not in the
   program: it names the run that set `running`.
   */
  datatype Proc = Proc(
    id: string, cancelOnRelease: bool, running: bool, cancelled: bool, task: Option<Name>,
    owner: Owner, current: Option<Name>)

  datatype Phase = Spawned | Executing | Finished

  /** One spawned run; `repeat` tells a tick's run from the initial one. */
  datatype Run = Run(proc: Name, repeat: bool, phase: Phase)

  /** A ticker task and its token. */
  datatype Ticker = Ticker(id: string, proc: Name, cancelled: bool, live: bool)

  datatype CallPc = WaitTickers | Stopping(wait: Option<Name>) | Returned

  /**
   A call of `stop` for one id, or of `stop_repeats_async` for all.  `drained` are
   the tickers it waits for, `stopped` the states it took out to stop them, and
   `sure` the states in its scope whose ticker, if alive, it drained itself.
   */
  datatype Call = Call(scope: Option<string>, pc: CallPc, drained: set<Name>, sure: set<Name>, stopped: set<Name>)

  datatype State = State(
    next: Name, states: map<string, Name>, tickers: map<string, Name>,
    procs: map<Name, Proc>, runs: map<Name, Run>, tasks: map<Name, Ticker>, calls: map<Name, Call>)

  const INITIAL := State(0, map[], map[], map[], map[], map[], map[])

  datatype Step =
    | Start(id: string, repeat: bool)
    | Tick(task: Name)
    | TickerExit(task: Name)
    | Begin(run: Name)
    | End(run: Name)
    | StopFirst(scope: Option<string>)      // cancel the tickers in scope
    | StopTake(call: Name)                  // their tasks have finished: take the states out
    | StopNext(call: Name, proc: Name)      // cancel one of several and wait for its run
    | StopReturn(call: Name)
    | NoteOsRepeat(id: string)
    | AbortAll

  predicate InScope(scope: Option<string>, id: string) {
    scope.None? || scope.value == id
  }

  predicate Unfinished(s: State, run: Name) {
    run in s.runs && !s.runs[run].phase.Finished?
  }

  /** Is nothing, or a finished run, what the call waits for? */
  predicate Waited(s: State, call: Call) {
    call.pc.Stopping? && (call.pc.wait.Some? ==> !Unfinished(s, call.pc.wait.value))
  }

  predicate Enabled(s: State, step: Step) {
    match step
    // the cancellation branch of the ticker's select is not preferred, so a cancelled ticker may tick
    case Tick(task) => task in s.tasks && s.tasks[task].live && s.tasks[task].proc in s.procs
    case TickerExit(task) => task in s.tasks && s.tasks[task].live && s.tasks[task].cancelled
    case Begin(run) =>
      && run in s.runs && s.runs[run].phase.Spawned?
      && forall other <- s.runs :: s.runs[other].proc == s.runs[run].proc ==> !s.runs[other].phase.Executing?
    case End(run) => run in s.runs && s.runs[run].phase.Executing? && s.runs[run].proc in s.procs
    case StopTake(call) =>
      && call in s.calls && s.calls[call].pc.WaitTickers?
      && forall task <- s.calls[call].drained :: task in s.tasks ==> !s.tasks[task].live
    case StopNext(call, proc) =>
      && call in s.calls && Waited(s, s.calls[call])
      && proc in s.procs && s.procs[proc].owner == Queued(call)
    case StopReturn(call) =>
      && call in s.calls && Waited(s, s.calls[call])
      && forall proc <- s.procs :: s.procs[proc].owner != Queued(call)
    case _ => true
  }

  // ---------- The steps ----------

  /** Take the tickers in scope out of the map and cancel them; `abort` also ends their tasks at once. */
  function TickersCancelled(s: State, scope: Option<string>, abort: bool): State {
    s.(tickers := map id | id in s.tickers && !InScope(scope, id) :: s.tickers[id],
       tasks := map task | task in s.tasks ::
         var t := s.tasks[task];
         if InScope(scope, t.id) && t.id in s.tickers && s.tickers[t.id] == task
         then t.(cancelled := true, live := t.live && !abort) else t)
  }

  predicate Holds(s: State, proc: Name, scope: Option<string>) {
    proc in s.procs && s.procs[proc].owner.Mapped? && InScope(scope, s.procs[proc].id)
  }

  /** `abort` on every state in scope: cancelled, and its task let go of. */
  function ProcsAborted(s: State, scope: Option<string>): State {
    s.(states := map id | id in s.states && !InScope(scope, id) :: s.states[id],
       procs := map proc | proc in s.procs ::
         if Holds(s, proc, scope) then s.procs[proc].(cancelled := true, task := None, owner := Nobody)
         else s.procs[proc])
  }

  function Aborted(s: State, scope: Option<string>): State {
    ProcsAborted(TickersCancelled(s, scope, true), scope)
  }

  function Spawn(s: State, proc: Name, repeat: bool): State
    requires proc in s.procs
  {
    s.(next := s.next + 1, runs := s.runs[s.next := Run(proc, repeat, Spawned)],
       procs := s.procs[proc := s.procs[proc].(running := true, task := Some(s.next), current := Some(s.next))])
  }

  /** A state of its own for `id`, with its initial run spawned. */
  function WithRun(s: State, id: string, cancelOnRelease: bool): State {
    var added := s.(next := s.next + 1, states := s.states[id := s.next],
                    procs := s.procs[s.next := Proc(id, cancelOnRelease, false, false, None, Mapped, None)]);
    Spawn(added, s.next, false)
  }

  function WithTicker(s: State, id: string): State
    requires id in s.states
  {
    s.(next := s.next + 1, tickers := s.tickers[id := s.next],
       tasks := s.tasks[s.next := Ticker(id, s.states[id], false, true)])
  }

  function Started(s: State, id: string, repeat: bool): State {
    var ran := WithRun(Aborted(s, Some(id)), id, repeat);
    if repeat then WithTicker(ran, id) else ran
  }

  /** A finished run frees its state; the state of a one-shot leaves the map if it is still the one there. */
  function Ended(s: State, run: Name): State
    requires run in s.runs && s.runs[run].proc in s.procs
  {
    var proc := s.runs[run].proc;
    var p := s.procs[proc];
    var drop := !s.runs[run].repeat && !p.cancelOnRelease && p.id in s.states && s.states[p.id] == proc;
    s.(runs := s.runs[run := s.runs[run].(phase := Finished)],
       states := if drop then s.states - {p.id} else s.states,
       procs := s.procs[proc := p.(task := None, running := false, current := None,
                                   owner := if drop then Nobody else p.owner)])
  }

  function StopStarted(s: State, scope: Option<string>): State {
    var drained := set id | id in s.tickers && InScope(scope, id) :: s.tickers[id];
    var sure := set proc | proc in s.procs && Holds(s, proc, scope) &&
      forall task <- s.tasks :: s.tasks[task].proc == proc && s.tasks[task].live ==> task in drained;
    var s' := TickersCancelled(s, scope, false);
    s'.(next := s.next + 1, calls := s.calls[s.next := Call(scope, WaitTickers, drained, sure, {})])
  }

  /**
   `stop` takes its state out in any case, `stop_repeats_async` only those that
   repeat; only states that repeat are stopped.
   */
  function Taken(s: State, call: Name): State
    requires call in s.calls
  {
    var c := s.calls[call];
    var stopped := set proc | proc in s.procs && Holds(s, proc, c.scope) && s.procs[proc].cancelOnRelease;
    s.(states := map id | id in s.states && !(InScope(c.scope, id) && Leaves(s, c.scope, s.states[id])) :: s.states[id],
       procs := map proc | proc in s.procs ::
         var p := s.procs[proc];
         if !Holds(s, proc, c.scope) || !Leaves(s, c.scope, proc) then p
         else p.(owner := if p.cancelOnRelease then Queued(call) else Nobody),
       calls := s.calls[call := c.(pc := Stopping(None), stopped := stopped)])
  }

  predicate Leaves(s: State, scope: Option<string>, proc: Name) {
    proc in s.procs && (scope.Some? || s.procs[proc].cancelOnRelease)
  }

  /** Cancel a state that was taken out and wait for its run. */
  function Next(s: State, call: Name, proc: Name): State
    requires call in s.calls && proc in s.procs
  {
    s.(procs := s.procs[proc := s.procs[proc].(cancelled := true, task := None, owner := Nobody)],
       calls := s.calls[call := s.calls[call].(pc := Stopping(s.procs[proc].task))])
  }

  /** `stop` has one state to take out and cancels it at once; `stop_repeats_async` takes its states in turn. */
  function TakenForOne(s: State, call: Name): State
    requires call in s.calls
  {
    var scope, taken := s.calls[call].scope, Taken(s, call);
    if scope.Some? && scope.value in s.states && StopsOne(s, s.states[scope.value], scope)
    then Next(taken, call, s.states[scope.value]) else taken
  }

  predicate StopsOne(s: State, proc: Name, scope: Option<string>) {
    Holds(s, proc, scope) && s.procs[proc].cancelOnRelease
  }

  function After(s: State, step: Step): State
    requires Enabled(s, step)
  {
    match step
    case Start(id, repeat) => Started(s, id, repeat)
    case Tick(task) =>
      var proc := s.tasks[task].proc;
      if s.procs[proc].running then s else Spawn(s, proc, true)
    case TickerExit(task) => s.(tasks := s.tasks[task := s.tasks[task].(live := false)])
    case Begin(run) => s.(runs := s.runs[run := s.runs[run].(phase := Executing)])
    case End(run) => Ended(s, run)
    case StopFirst(scope) => StopStarted(s, scope)
    case StopTake(call) => TakenForOne(s, call)
    case StopNext(call, proc) => Next(s, call, proc)
    case StopReturn(call) => s.(calls := s.calls[call := s.calls[call].(pc := Returned)])
    case NoteOsRepeat(id) => TickersCancelled(s, Some(id), false)
    case AbortAll => Aborted(s, None)
  }

  // ---------- What every interleaving keeps ----------

  ghost predicate ProcOk(s: State, proc: Name)
    requires proc in s.procs
  {
    var p := s.procs[proc];
    && proc < s.next
    && (p.owner.Mapped? <==> p.id in s.states && s.states[p.id] == proc)
    && (p.running <==> p.current.Some?)
    && (p.current.Some? ==> Unfinished(s, p.current.value) && s.runs[p.current.value].proc == proc)
    && (p.task.Some? ==> p.task == p.current)
    // nobody has cancelled a state, or taken its task, while it is in the map or in a queue
    && (!p.owner.Nobody? ==> !p.cancelled && p.task == p.current)
    && (p.owner.Queued? ==> p.owner.call in s.calls && s.calls[p.owner.call].pc.Stopping? && p.cancelOnRelease)
    // a one-shot is in the map only while it runs
    && (p.owner.Mapped? && !p.cancelOnRelease ==> p.running)
  }

  ghost predicate RunOk(s: State, run: Name)
    requires run in s.runs
  {
    && run < s.next && s.runs[run].proc in s.procs
    && (s.runs[run].repeat ==> s.procs[s.runs[run].proc].cancelOnRelease)
    && (Unfinished(s, run) ==> s.procs[s.runs[run].proc].current == Some(run))
  }

  ghost predicate TaskOk(s: State, task: Name)
    requires task in s.tasks
  {
    var t := s.tasks[task];
    && task < s.next && t.proc in s.procs && s.procs[t.proc].cancelOnRelease && s.procs[t.proc].id == t.id
    && (t.live && !t.cancelled ==> t.id in s.tickers && s.tickers[t.id] == task)
  }

  ghost predicate CallOk(s: State, call: Name)
    requires call in s.calls
  {
    var c := s.calls[call];
    && call < s.next
    && (forall task <- c.drained :: task in s.tasks && (!c.pc.WaitTickers? ==> !s.tasks[task].live))
    && (forall proc <- c.sure :: proc < s.next)
    && (forall task <- s.tasks :: s.tasks[task].live && s.tasks[task].proc in c.sure ==> task in c.drained)
    && (forall proc <- c.stopped :: StoppedOk(s, call, proc))
    && (c.pc.WaitTickers? ==> c.stopped == {})
    && (c.pc.Returned? ==> forall proc <- c.stopped :: s.procs[proc].owner.Nobody?)
  }

  /** Once it has been its turn, a stopped state has no run left but the one the call is waiting for. */
  ghost predicate StoppedOk(s: State, call: Name, proc: Name)
    requires call in s.calls
  {
    var c := s.calls[call];
    && proc in s.procs && s.procs[proc].cancelOnRelease
    && (s.procs[proc].owner == Queued(call) || (s.procs[proc].owner.Nobody? && s.procs[proc].cancelled))
    && (s.procs[proc].owner.Nobody? && proc in c.sure && s.procs[proc].current.Some? ==>
          c.pc == Stopping(s.procs[proc].current))
  }

  ghost predicate IdOk(s: State, id: string) {
    && (id in s.states ==> var proc := s.states[id];
          proc in s.procs && s.procs[proc].id == id && s.procs[proc].owner.Mapped?)
    && (id in s.tickers ==> s.tickers[id] in s.tasks && s.tasks[s.tickers[id]].id == id)
  }

  /** All that is kept about whatever has this name, and about this identifier. */
  ghost predicate Ok(s: State, name: Name, id: string) {
    && (name in s.procs ==> ProcOk(s, name))
    && (name in s.runs ==> RunOk(s, name))
    && (name in s.tasks ==> TaskOk(s, name))
    && (name in s.calls ==> CallOk(s, name))
    && IdOk(s, id)
  }

  ghost predicate Inv(s: State) {
    forall name, id :: Ok(s, name, id)
  }

  lemma Known(s: State, name: Name, id: string)
    requires Inv(s)
    ensures Ok(s, name, id)
  {
  }

  lemma NewCallOk(s: State, scope: Option<string>)
    requires Inv(s)
    ensures CallOk(StopStarted(s, scope), s.next)
  {
    var s' := StopStarted(s, scope);
    forall id | id in s.tickers
      ensures s.tickers[id] in s.tasks
    {
      Known(s, 0, id);
    }
    forall proc | proc in s.procs
      ensures proc < s.next
    {
      Known(s, proc, "");
    }
  }

  /** When a call has waited for a run, that run's state has none any more. */
  lemma NothingLeft(s: State, call: Name)
    requires Inv(s) && call in s.calls && Waited(s, s.calls[call])
    ensures forall proc <- s.calls[call].stopped * s.calls[call].sure ::
              proc in s.procs && (s.procs[proc].owner.Nobody? ==> s.procs[proc].current.None?)
  {
    hide Inv;
    Known(s, call, "");
    forall proc | proc in s.calls[call].stopped * s.calls[call].sure
      ensures proc in s.procs && (s.procs[proc].owner.Nobody? ==> s.procs[proc].current.None?)
    {
      Known(s, proc, "");
      assert StoppedOk(s, call, proc);
    }
  }

  lemma TickersCancelledKeeps(s: State, scope: Option<string>, abort: bool, name: Name, i: string)
    requires Inv(s)
    ensures Ok(TickersCancelled(s, scope, abort), name, i)
  {
    hide Inv;
    Known(s, name, i);
  }

  lemma TickersCancelledKeepsInv(s: State, scope: Option<string>, abort: bool)
    requires Inv(s)
    ensures Inv(TickersCancelled(s, scope, abort))
  {
    hide Ok;
    forall name: Name, i: string
      ensures Ok(TickersCancelled(s, scope, abort), name, i)
    {
      TickersCancelledKeeps(s, scope, abort, name, i);
    }
  }

  lemma ProcsAbortedKeeps(s: State, scope: Option<string>, name: Name, i: string)
    requires Inv(s)
    ensures Ok(ProcsAborted(s, scope), name, i)
  {
    hide Inv;
    Known(s, name, i);
  }

  lemma ProcsAbortedKeepsInv(s: State, scope: Option<string>)
    requires Inv(s)
    ensures Inv(ProcsAborted(s, scope))
  {
    hide Ok;
    forall name: Name, i: string
      ensures Ok(ProcsAborted(s, scope), name, i)
    {
      ProcsAbortedKeeps(s, scope, name, i);
    }
  }

  lemma WithRunKeepsCall(s: State, id: string, repeat: bool, call: Name)
    requires Inv(s) && call in s.calls
    ensures CallOk(WithRun(s, id, repeat), call)
  {
    hide Inv;
    Known(s, call, "");
    Known(s, s.next, "");
  }

  lemma WithRunKeeps(s: State, id: string, repeat: bool, name: Name, i: string)
    requires Inv(s) && id !in s.states
    ensures Ok(WithRun(s, id, repeat), name, i)
  {
    if name in s.calls {
      WithRunKeepsCall(s, id, repeat, name);
    }
    hide Inv, CallOk;
    Known(s, name, i);
    Known(s, s.next, i);
    Known(s, s.next + 1, i);
  }

  lemma WithRunKeepsInv(s: State, id: string, repeat: bool)
    requires Inv(s) && id !in s.states
    ensures Inv(WithRun(s, id, repeat))
  {
    hide Ok;
    forall name: Name, i: string
      ensures Ok(WithRun(s, id, repeat), name, i)
    {
      WithRunKeeps(s, id, repeat, name, i);
    }
  }

  lemma WithTickerKeeps(s: State, id: string, name: Name, i: string)
    requires Inv(s) && id in s.states && id !in s.tickers
    requires s.states[id] in s.procs && s.procs[s.states[id]].cancelOnRelease && s.procs[s.states[id]].id == id
    requires forall call <- s.calls :: s.states[id] !in s.calls[call].sure
    ensures Ok(WithTicker(s, id), name, i)
  {
    hide Inv;
    Known(s, name, i);
    Known(s, s.next, i);
  }

  lemma WithTickerKeepsInv(s: State, id: string)
    requires Inv(s) && id in s.states && id !in s.tickers
    requires s.states[id] in s.procs && s.procs[s.states[id]].cancelOnRelease && s.procs[s.states[id]].id == id
    requires forall call <- s.calls :: s.states[id] !in s.calls[call].sure
    ensures Inv(WithTicker(s, id))
  {
    hide Ok;
    forall name: Name, i: string
      ensures Ok(WithTicker(s, id), name, i)
    {
      WithTickerKeeps(s, id, name, i);
    }
  }

  lemma TickKeepsCall(s: State, task: Name, call: Name)
    requires Inv(s) && Enabled(s, Tick(task)) && call in s.calls
    ensures CallOk(After(s, Tick(task)), call)
  {
    hide Inv;
    Known(s, call, "");
    Known(s, task, "");
    Known(s, s.tasks[task].proc, "");
  }

  lemma TickKeeps(s: State, task: Name, name: Name, i: string)
    requires Inv(s) && Enabled(s, Tick(task))
    ensures Ok(After(s, Tick(task)), name, i)
  {
    if name in s.calls {
      TickKeepsCall(s, task, name);
    }
    hide Inv, CallOk;
    Known(s, name, i);
    Known(s, s.next, i);
    Known(s, task, i);
    Known(s, s.tasks[task].proc, i);
    if name in s.runs {
      Known(s, s.runs[name].proc, i);
    }
  }

  lemma EndKeepsCall(s: State, run: Name, call: Name)
    requires Inv(s) && Enabled(s, End(run)) && call in s.calls
    ensures CallOk(After(s, End(run)), call)
  {
    hide Inv;
    Known(s, call, "");
  }

  lemma EndKeepsProc(s: State, run: Name, proc: Name)
    requires Inv(s) && Enabled(s, End(run)) && proc in s.procs
    ensures ProcOk(After(s, End(run)), proc)
  {
    hide Inv, CallOk, TaskOk;
    Known(s, proc, "");
    Known(s, run, "");
    Known(s, s.runs[run].proc, "");
  }

  lemma EndKeepsTask(s: State, run: Name, task: Name)
    requires Inv(s) && Enabled(s, End(run)) && task in s.tasks
    ensures TaskOk(After(s, End(run)), task)
  {
    hide Inv;
    Known(s, task, "");
  }

  lemma EndKeeps(s: State, run: Name, name: Name, i: string)
    requires Inv(s) && Enabled(s, End(run))
    ensures Ok(After(s, End(run)), name, i)
  {
    if name in s.calls {
      EndKeepsCall(s, run, name);
    }
    if name in s.procs {
      EndKeepsProc(s, run, name);
    }
    if name in s.tasks {
      EndKeepsTask(s, run, name);
    }
    hide Inv, CallOk, ProcOk, TaskOk;
    Known(s, name, i);
    Known(s, run, i);
    Known(s, s.runs[run].proc, i);
    if name in s.runs {
      Known(s, s.runs[name].proc, i);
    }
  }

  lemma StopFirstKeepsCall(s: State, scope: Option<string>, call: Name)
    requires Inv(s) && call in s.calls
    ensures CallOk(After(s, StopFirst(scope)), call)
  {
    hide Inv;
    Known(s, call, "");
  }

  lemma StopFirstKeeps(s: State, scope: Option<string>, name: Name, i: string)
    requires Inv(s)
    ensures Ok(After(s, StopFirst(scope)), name, i)
  {
    if name in s.calls {
      StopFirstKeepsCall(s, scope, name);
    }
    NewCallOk(s, scope);
    hide Inv, CallOk;
    Known(s, name, i);
    Known(s, s.next, i);
  }

  lemma TakenKeepsCall(s: State, call: Name, other: Name)
    requires Inv(s) && Enabled(s, StopTake(call)) && other in s.calls
    ensures CallOk(Taken(s, call), other)
  {
    hide Inv;
    Known(s, other, "");
    Known(s, call, "");
  }

  lemma TakenKeeps(s: State, call: Name, name: Name, i: string)
    requires Inv(s) && Enabled(s, StopTake(call))
    ensures Ok(Taken(s, call), name, i)
  {
    if name in s.calls {
      TakenKeepsCall(s, call, name);
    }
    hide Inv, CallOk;
    Known(s, name, i);
    Known(s, call, i);
  }

  lemma TakenKeepsInv(s: State, call: Name)
    requires Inv(s) && Enabled(s, StopTake(call))
    ensures Inv(Taken(s, call))
  {
    hide Ok, Taken;
    forall name: Name, i: string
      ensures Ok(Taken(s, call), name, i)
    {
      TakenKeeps(s, call, name, i);
    }
  }

  lemma StopTakeKeeps(s: State, call: Name, name: Name, i: string)
    requires Inv(s) && Enabled(s, StopTake(call))
    ensures Ok(After(s, StopTake(call)), name, i)
  {
    TakenKeepsInv(s, call);
    var scope, taken := s.calls[call].scope, Taken(s, call);
    if scope.Some? && scope.value in s.states && StopsOne(s, s.states[scope.value], scope) {
      hide Inv, Ok;
      StopNextKeeps(taken, call, s.states[scope.value], name, i);
    } else {
      hide Inv, Taken, Ok;
      Known(taken, name, i);
    }
  }

  lemma StopNextKeeps(s: State, call: Name, proc: Name, name: Name, i: string)
    requires Inv(s) && Enabled(s, StopNext(call, proc))
    ensures Ok(After(s, StopNext(call, proc)), name, i)
  {
    if name in s.calls {
      StopNextKeepsCall(s, call, proc, name);
    }
    hide Inv, CallOk;
    Known(s, name, i);
    Known(s, call, i);
    Known(s, proc, i);
  }

  lemma StopNextKeepsCall(s: State, call: Name, proc: Name, other: Name)
    requires Inv(s) && Enabled(s, StopNext(call, proc)) && other in s.calls
    ensures CallOk(After(s, StopNext(call, proc)), other)
  {
    hide Inv, RunOk, TaskOk;
    Known(s, other, "");
    Known(s, proc, "");
    NothingLeft(s, call);
  }

  lemma StopReturnKeeps(s: State, call: Name, name: Name, i: string)
    requires Inv(s) && Enabled(s, StopReturn(call))
    ensures Ok(After(s, StopReturn(call)), name, i)
  {
    hide Inv;
    Known(s, name, i);
    Known(s, call, i);
    NothingLeft(s, call);
  }

  lemma TickerExitKeeps(s: State, task: Name, name: Name, i: string)
    requires Inv(s) && Enabled(s, TickerExit(task))
    ensures Ok(After(s, TickerExit(task)), name, i)
  {
    hide Inv;
    Known(s, name, i);
    Known(s, task, i);
  }

  lemma BeginKeeps(s: State, run: Name, name: Name, i: string)
    requires Inv(s) && Enabled(s, Begin(run))
    ensures Ok(After(s, Begin(run)), name, i)
  {
    hide Inv;
    Known(s, name, i);
    Known(s, run, i);
  }

  lemma StartKeepsInv(s: State, id: string, repeat: bool)
    requires Inv(s)
    ensures Inv(After(s, Start(id, repeat)))
  {
    hide Inv, Ok;
    TickersCancelledKeepsInv(s, Some(id), true);
    ProcsAbortedKeepsInv(TickersCancelled(s, Some(id), true), Some(id));
    var s1 := Aborted(s, Some(id));
    WithRunKeepsInv(s1, id, repeat);
    if repeat {
      forall call <- s1.calls
        ensures s1.next !in s1.calls[call].sure
      {
        SureIsOld(s1, call);
      }
      WithTickerKeepsInv(WithRun(s1, id, repeat), id);
    }
  }

  lemma SureIsOld(s: State, call: Name)
    requires Inv(s) && call in s.calls
    ensures s.next !in s.calls[call].sure
  {
    hide Inv;
    Known(s, call, "");
  }

  lemma StepKeeps(s: State, step: Step, name: Name, i: string)
    requires Inv(s) && Enabled(s, step)
    ensures Ok(After(s, step), name, i)
  {
    hide Inv, After, Enabled, Ok;
    match step {
      case Start(id, repeat) =>
        StartKeepsInv(s, id, repeat);
        Known(After(s, step), name, i);
      case Tick(task) => TickKeeps(s, task, name, i);
      case TickerExit(task) => TickerExitKeeps(s, task, name, i);
      case Begin(run) => BeginKeeps(s, run, name, i);
      case End(run) => EndKeeps(s, run, name, i);
      case StopFirst(scope) => StopFirstKeeps(s, scope, name, i);
      case StopTake(call) => StopTakeKeeps(s, call, name, i);
      case StopNext(call, proc) => StopNextKeeps(s, call, proc, name, i);
      case StopReturn(call) => StopReturnKeeps(s, call, name, i);
      case NoteOsRepeat(id) =>
        NoteOsRepeatKeepsInv(s, id);
        Known(After(s, step), name, i);
      case AbortAll =>
        AbortAllKeepsInv(s);
        Known(After(s, step), name, i);
    }
  }

  lemma StepKeepsInv(s: State, step: Step)
    requires Inv(s) && Enabled(s, step)
    ensures Inv(After(s, step))
  {
    hide Ok, After, Enabled;
    forall name: Name, i: string
      ensures Ok(After(s, step), name, i)
    {
      StepKeeps(s, step, name, i);
    }
  }

  lemma NoteOsRepeatKeepsInv(s: State, id: string)
    requires Inv(s)
    ensures Inv(After(s, NoteOsRepeat(id)))
  {
    hide Inv;
    TickersCancelledKeepsInv(s, Some(id), false);
  }

  lemma AbortAllKeepsInv(s: State)
    requires Inv(s)
    ensures Inv(After(s, AbortAll))
  {
    hide Inv;
    TickersCancelledKeepsInv(s, None, true);
    ProcsAbortedKeepsInv(TickersCancelled(s, None, true), None);
  }

  ghost predicate IsRun(states: seq<State>, steps: seq<Step>) {
    && |states| == |steps| + 1 && states[0] == INITIAL
    && forall i | 0 <= i < |steps| :: Enabled(states[i], steps[i]) && states[i + 1] == After(states[i], steps[i])
  }

  lemma NothingYet()
    ensures Inv(INITIAL)
  {
  }

  lemma {:induction false} RunKeepsInv(states: seq<State>, steps: seq<Step>, n: nat)
    requires IsRun(states, steps) && n < |states|
    ensures Inv(states[n])
    decreases n
  {
    if n == 0 {
      NothingYet();
    } else {
      hide Inv, After, Enabled;
      RunKeepsInv(states, steps, n - 1);
      StepKeepsInv(states[n - 1], steps[n - 1]);
    }
  }

  // ---------- At most one run per state ----------

  /**
   In every state of every interleaving, a run state has at most one run that
   has not finished, so at most one that executes.
   */
  lemma AtMostOneRun(states: seq<State>, steps: seq<Step>, n: nat, a: Name, b: Name)
    requires IsRun(states, steps) && n < |states|
    requires Unfinished(states[n], a) && Unfinished(states[n], b)
    ensures states[n].runs[a].proc == states[n].runs[b].proc ==> a == b
  {
    hide Inv, IsRun;
    RunKeepsInv(states, steps, n);
    Known(states[n], a, "");
    Known(states[n], b, "");
  }

  /**
   A finishing run takes no entry but its own out of the map, and the state of
   every one-shot in the map has a run that has not finished.
   */
  lemma EndingKeepsOthers(states: seq<State>, steps: seq<Step>, n: nat, run: Name, id: string)
    requires IsRun(states, steps) && n < |states| && Enabled(states[n], End(run)) && id in states[n].states
    ensures var s := states[n];
            && (s.states[id] != s.runs[run].proc ==>
                  id in Ended(s, run).states && Ended(s, run).states[id] == s.states[id])
            && s.states[id] in s.procs
            && (!s.procs[s.states[id]].cancelOnRelease ==>
                  exists r :: Unfinished(s, r) && s.runs[r].proc == s.states[id])
  {
    hide Inv, IsRun;
    RunKeepsInv(states, steps, n);
    Known(states[n], 0, id);
    Known(states[n], states[n].states[id], id);
  }

  // ---------- One-shots are left alone ----------

  /**
   A one-shot is cancelled by nothing but a new start of its id while it is in
   the map, or the teardown of everything; no stop cancels it.
   */
  lemma OneShotsAreCancelledIff(s: State, step: Step, proc: Name)
    requires Inv(s) && Enabled(s, step) && proc in s.procs
    requires !s.procs[proc].cancelOnRelease && !s.procs[proc].cancelled
    ensures proc in After(s, step).procs
    ensures After(s, step).procs[proc].cancelled
       <==> s.procs[proc].owner.Mapped? && (step.AbortAll? || (step.Start? && step.id == s.procs[proc].id))
  {
    hide Inv;
    Known(s, proc, "");
    if step.Start? {
      StartCancels(s, step.id, step.repeat, proc);
    }
  }

  lemma StartCancels(s: State, id: string, repeat: bool, proc: Name)
    requires proc in s.procs && proc < s.next
    ensures var s' := Started(s, id, repeat);
            proc in s'.procs
            && s'.procs[proc] == if Holds(s, proc, Some(id))
                                 then s.procs[proc].(cancelled := true, task := None, owner := Nobody)
                                 else s.procs[proc]
  {
  }

  // ---------- Stopping ends in quiet ----------

  /** No run is left, and no ticker that could start another. */
  ghost predicate Quiet(s: State, proc: Name) {
    && (forall run <- s.runs :: s.runs[run].proc == proc ==> s.runs[run].phase.Finished?)
    && (forall task <- s.tasks :: s.tasks[task].proc == proc ==> !s.tasks[task].live)
  }

  lemma ReturnedIsQuiet(s: State, call: Name, proc: Name)
    requires Inv(s) && call in s.calls && s.calls[call].pc.Returned?
    requires proc in s.calls[call].stopped && proc in s.calls[call].sure
    ensures Quiet(s, proc)
  {
    hide Inv;
    Known(s, call, "");
    assert StoppedOk(s, call, proc);
    forall run <- s.runs | s.runs[run].proc == proc
      ensures s.runs[run].phase.Finished?
    {
      Known(s, run, "");
    }
  }

  lemma OneStep(states: seq<State>, steps: seq<Step>, n: nat)
    requires IsRun(states, steps) && n + 1 < |states|
    ensures n < |steps| && Enabled(states[n], steps[n]) && states[n + 1] == After(states[n], steps[n])
  {
  }

  /** A call keeps what it set out to stop. */
  predicate Kept(c: Call, later: Call) {
    && later.scope == c.scope && later.sure == c.sure
    && (!c.pc.WaitTickers? ==> later.stopped == c.stopped && !later.pc.WaitTickers?)
  }

  lemma {:induction false} CallPersists(states: seq<State>, steps: seq<Step>, call: Name, m: nat, n: nat)
    requires IsRun(states, steps) && m <= n < |states| && call in states[m].calls
    ensures call in states[n].calls && Kept(states[m].calls[call], states[n].calls[call])
    decreases n
  {
    hide Inv, After, Enabled, IsRun;
    if m < n {
      CallPersists(states, steps, call, m, n - 1);
      RunKeepsInv(states, steps, n - 1);
      OneStep(states, steps, n - 1);
      StepKeepsCall(states[n - 1], steps[n - 1], call);
    }
  }

  lemma StepKeepsCall(s: State, step: Step, call: Name)
    requires Inv(s) && Enabled(s, step) && call in s.calls
    ensures call in After(s, step).calls && Kept(s.calls[call], After(s, step).calls[call])
  {
    hide Inv;
    Known(s, call, "");
  }

  /**
   Stopping a held key works: take a stop of `id` (or of everything) that begins
   while the repeating state of `id` is in the map with its ticker, and that
   still finds it there when the ticker has ended.  Once that call has returned,
   the state has no run and no ticker, then and in every later state.
   */
  lemma StopEndsInQuiet(states: seq<State>, steps: seq<Step>, scope: Option<string>, id: string,
                        a: nat, b: nat, n: nat)
    requires IsRun(states, steps) && a < b < n < |states| && InScope(scope, id)
    requires steps[a] == StopFirst(scope) && steps[b] == StopTake(states[a].next)
    requires id in states[a].states && id in states[b].states && states[b].states[id] == states[a].states[id]
    requires states[a].states[id] in states[b].procs && states[b].procs[states[a].states[id]].cancelOnRelease
    // every ticker of the state that is alive is the one in the map
    requires forall task <- states[a].tasks ::
               states[a].tasks[task].live && states[a].tasks[task].proc == states[a].states[id]
               ==> id in states[a].tickers && states[a].tickers[id] == task
    ensures states[a].next in states[n].calls
    ensures states[n].calls[states[a].next].pc.Returned? ==> Quiet(states[n], states[a].states[id])
  {
    var call, proc := states[a].next, states[a].states[id];
    hide Inv, After, Quiet;
    RunKeepsInv(states, steps, a);
    StopIsSure(states[a], scope, id);
    CallPersists(states, steps, call, a + 1, b);
    RunKeepsInv(states, steps, b);
    TakeStops(states[b], call, id);
    CallPersists(states, steps, call, b + 1, n);
    RunKeepsInv(states, steps, n);
    if states[n].calls[call].pc.Returned? {
      ReturnedIsQuiet(states[n], call, proc);
    }
  }

  lemma StopIsSure(s: State, scope: Option<string>, id: string)
    requires Inv(s) && InScope(scope, id) && id in s.states
    requires forall task <- s.tasks :: s.tasks[task].live && s.tasks[task].proc == s.states[id]
               ==> id in s.tickers && s.tickers[id] == task
    ensures var s' := After(s, StopFirst(scope));
            s.next in s'.calls && s'.calls[s.next].scope == scope && s.states[id] in s'.calls[s.next].sure
  {
    hide Inv;
    Known(s, 0, id);
  }

  lemma TakeStops(s: State, call: Name, id: string)
    requires Inv(s) && Enabled(s, StopTake(call)) && id in s.states && InScope(s.calls[call].scope, id)
    requires s.states[id] in s.procs && s.procs[s.states[id]].cancelOnRelease
    ensures var s' := After(s, StopTake(call));
            && call in s'.calls && s.states[id] in s'.calls[call].stopped && !s'.calls[call].pc.WaitTickers?
  {
    hide Inv;
    Known(s, 0, id);
  }

  /** A run that nothing has told to stop. */
  predicate Active(s: State, run: Name, id: string) {
    && Unfinished(s, run) && s.runs[run].proc in s.procs
    && s.procs[s.runs[run].proc].id == id && !s.procs[s.runs[run].proc].cancelled
  }

  ghost predicate OneActive(s: State, id: string) {
    forall a, b :: Active(s, a, id) && Active(s, b, id) ==> a == b
  }

  /** Without any such proviso: what a returned stop has stopped never runs uncancelled again. */
  lemma StoppedIsNeverActive(states: seq<State>, steps: seq<Step>, n: nat, call: Name, run: Name, id: string)
    requires IsRun(states, steps) && n < |states| && call in states[n].calls
    requires states[n].calls[call].pc.Returned? && run in states[n].runs
    requires states[n].runs[run].proc in states[n].calls[call].stopped
    ensures !Active(states[n], run, id)
  {
    hide Inv, IsRun;
    RunKeepsInv(states, steps, n);
    Known(states[n], call, "");
    assert StoppedOk(states[n], call, states[n].runs[run].proc);
  }

  /** Two stops of `id` begin; the second returns, and then the ticker ticks once more. */
  ghost predicate ReturnsTooSoon(s: State, id: string)
    requires id in s.states && id in s.tickers
  {
    var second, task, proc := s.next + 1, s.tickers[id], s.states[id];
    var s2 := After(After(s, StopFirst(Some(id))), StopFirst(Some(id)));
    && Enabled(s2, StopTake(second))
    && var s3 := After(s2, StopTake(second));
       && Enabled(s3, StopReturn(second)) && Enabled(After(s3, StopReturn(second)), Tick(task))
       && var s5 := After(After(s3, StopReturn(second)), Tick(task));
          && second in s5.calls && s5.calls[second].pc.Returned? && proc in s5.calls[second].stopped
          && !Quiet(s5, proc)
  }

  /**
   The proviso is needed.  A second stop that comes while the first still waits
   for the cancelled ticker can return, and then the ticker ticks once more.
   */
  lemma OverlappingStopsLeaveARun(s: State, id: string)
    requires Inv(s) && id in s.states && id in s.tickers
    requires s.states[id] in s.procs && s.procs[s.states[id]].cancelOnRelease && !s.procs[s.states[id]].running
    requires s.tickers[id] in s.tasks && s.tasks[s.tickers[id]].live && s.tasks[s.tickers[id]].proc == s.states[id]
    ensures ReturnsTooSoon(s, id)
  {
    hide Inv, After, Enabled, Quiet, Holds, Unfinished;
    var second, task, proc := s.next + 1, s.tickers[id], s.states[id];
    IdleState(s, id);
    FirstCancels(s, id);
    FirstKeepsInv(s, id);
    var s1 := After(s, StopFirst(Some(id)));
    FirstCancels(s1, id);
    FirstKeepsInv(s1, id);
    var s2 := After(s1, StopFirst(Some(id)));
    NoneQueued(s2, second, id);
    IdleState(s2, id);
    TakeCancels(s2, second, id);
    TickAfterReturn(After(s2, StopTake(second)), second, task, proc);
  }

  lemma FirstKeepsInv(s: State, id: string)
    requires Inv(s)
    ensures Inv(After(s, StopFirst(Some(id))))
  {
    StepKeepsInv(s, StopFirst(Some(id)));
  }

  /** A state in the map that does not run has no task to wait for. */
  lemma IdleState(s: State, id: string)
    requires Inv(s) && id in s.states && s.states[id] in s.procs && !s.procs[s.states[id]].running
    ensures Holds(s, s.states[id], Some(id)) && s.procs[s.states[id]].task.None?
  {
    hide Inv;
    Known(s, 0, id);
    Known(s, s.states[id], id);
  }

  /** A held key between two ticks is such a state. */
  lemma HeldKeyCanBeStoppedTwice(id: string)
    ensures Enabled(After(INITIAL, Start(id, true)), Begin(1))
    ensures Enabled(After(After(INITIAL, Start(id, true)), Begin(1)), End(1))
    ensures var s := After(After(After(INITIAL, Start(id, true)), Begin(1)), End(1));
            id in s.states && id in s.tickers && ReturnsTooSoon(s, id)
  {
    NothingYet();
    StepKeepsInv(INITIAL, Start(id, true));
    StartSpawns(INITIAL, id, true);
    StartTicks(id);
    var s1 := After(INITIAL, Start(id, true));
    StepKeepsInv(s1, Begin(1));
    var s2 := After(s1, Begin(1));
    StepKeepsInv(s2, End(1));
    hide Inv, ReturnsTooSoon, Started;
    OverlappingStopsLeaveARun(After(s2, End(1)), id);
  }

  lemma StartTicks(id: string)
    ensures var s := Started(INITIAL, id, true);
            && id in s.states && s.states[id] == 0 && id in s.tickers && s.tickers[id] == 2
            && 2 in s.tasks && s.tasks[2] == Ticker(id, 0, false, true)
  {
  }

  lemma NoneQueued(s: State, call: Name, id: string)
    requires Inv(s) && call in s.calls && s.calls[call].pc.WaitTickers? && id in s.states
    ensures forall proc <- s.procs :: s.procs[proc].owner != Queued(call)
    ensures forall proc <- s.procs :: Holds(s, proc, Some(id)) ==> proc == s.states[id]
  {
    hide Inv;
    forall proc <- s.procs
      ensures s.procs[proc].owner != Queued(call) && (Holds(s, proc, Some(id)) ==> proc == s.states[id])
    {
      Known(s, proc, id);
    }
  }

  /** The first step of a stop: tickers out of the map, and nothing else changed. */
  lemma FirstCancels(s: State, id: string)
    ensures Enabled(s, StopFirst(Some(id)))
    ensures var s' := After(s, StopFirst(Some(id)));
            && s'.next == s.next + 1 && s'.states == s.states && s'.procs == s.procs && s'.runs == s.runs
            && id !in s'.tickers && s'.tasks.Keys == s.tasks.Keys
            && (forall task <- s.tasks :: s'.tasks[task].live == s.tasks[task].live
                                       && s'.tasks[task].proc == s.tasks[task].proc)
            && s.next in s'.calls && s'.calls[s.next].scope == Some(id) && s'.calls[s.next].pc.WaitTickers?
            && (id !in s.tickers ==> s'.calls[s.next].drained == {})
  {
  }

  /** A stop that waits for no ticker takes the idle state of its id out and cancels it. */
  lemma TakeCancels(s: State, call: Name, id: string)
    requires call in s.calls && s.calls[call].scope == Some(id) && s.calls[call].pc.WaitTickers?
    requires s.calls[call].drained == {} && id in s.states && Holds(s, s.states[id], Some(id))
    requires s.procs[s.states[id]].cancelOnRelease && s.procs[s.states[id]].task.None?
    requires forall proc <- s.procs :: s.procs[proc].owner != Queued(call)
    requires forall proc <- s.procs :: Holds(s, proc, Some(id)) ==> proc == s.states[id]
    ensures Enabled(s, StopTake(call))
    ensures var s' := After(s, StopTake(call));
            && s'.tasks == s.tasks && s'.runs == s.runs && s'.next == s.next && call in s'.calls
            && s'.calls[call].pc == Stopping(None) && s.states[id] in s'.calls[call].stopped
            && s.states[id] in s'.procs && s'.procs[s.states[id]].running == s.procs[s.states[id]].running
            && (forall proc <- s'.procs :: s'.procs[proc].owner != Queued(call))
  {
    hide InScope;
  }

  lemma TickAfterReturn(s: State, call: Name, task: Name, proc: Name)
    requires call in s.calls && s.calls[call].pc == Stopping(None) && proc in s.calls[call].stopped
    requires forall p <- s.procs :: s.procs[p].owner != Queued(call)
    requires task in s.tasks && s.tasks[task].live && s.tasks[task].proc == proc
    requires proc in s.procs && !s.procs[proc].running
    ensures Enabled(s, StopReturn(call)) && Enabled(After(s, StopReturn(call)), Tick(task))
    ensures var s' := After(After(s, StopReturn(call)), Tick(task));
            && call in s'.calls && s'.calls[call].pc.Returned? && proc in s'.calls[call].stopped && !Quiet(s', proc)
  {
    var s' := After(After(s, StopReturn(call)), Tick(task));
    assert s'.runs[s.next] == Run(proc, true, Spawned);
  }

  // ---------- One key may run two processes ----------

  /**
   The comment on `ProcessRunState` promises at most one process in flight per
   id.  A start leaves its own run as the only active one of the id exactly when
   no active run belongs to a state that has left the map.
   */
  lemma StartLeavesOneActiveRunIff(s: State, id: string, repeat: bool)
    requires Inv(s)
    ensures var s' := After(s, Start(id, repeat));
            OneActive(s', id) <==> forall run :: Active(s, run, id) ==> s.procs[s.runs[run].proc].owner.Mapped?
  {
    hide Inv;
    var s' := After(s, Start(id, repeat));
    NewRunIsActive(s, id, repeat);
    forall run: Name
      ensures Active(s', run, id)
         <==> run == s.next + 1 || (Active(s, run, id) && !s.procs[s.runs[run].proc].owner.Mapped?)
    {
      StartActivates(s, id, repeat, run);
    }
    if OneActive(s', id) {
      forall run | Active(s, run, id)
        ensures s.procs[s.runs[run].proc].owner.Mapped?
      {
        Known(s, run, "");
        assert Active(s', s.next + 1, id);
      }
    }
  }

  lemma StartSpawns(s: State, id: string, repeat: bool)
    ensures var s' := Started(s, id, repeat);
            && s'.runs == s.runs[s.next + 1 := Run(s.next, false, Spawned)]
            && s.next in s'.procs
            && s'.procs[s.next] == Proc(id, repeat, true, false, Some(s.next + 1), Mapped, Some(s.next + 1))
  {
    hide InScope, Holds;
  }

  /** The step takes no state out of the map that still runs or ticks, unless it cancels it at once. */
  ghost predicate TakesOnlyIdle(s: State, step: Step) {
    step.StopTake? && step.call in s.calls ==>
      forall proc | Holds(s, proc, s.calls[step.call].scope) && Leaves(s, s.calls[step.call].scope, proc) ::
        Quiet(s, proc) || (s.calls[step.call].scope.Some? && s.procs[proc].cancelOnRelease)
  }

  /** A state that has left the map uncancelled has no run and no ticker. */
  ghost predicate LooseIsQuiet(s: State, proc: Name) {
    proc in s.procs && !s.procs[proc].owner.Mapped? && !s.procs[proc].cancelled ==> Quiet(s, proc)
  }

  lemma QuietStays(s: State, step: Step, proc: Name)
    requires Inv(s) && Enabled(s, step) && proc in s.procs && Quiet(s, proc) && !s.procs[proc].owner.Mapped?
    ensures Quiet(After(s, step), proc)
  {
    hide Inv, Started;
    Known(s, proc, "");
    if step.Start? {
      StartKeepsQuiet(s, step.id, step.repeat, proc);
    } else if step.StopTake? {
      TakingKeepsQuiet(s, step.call, proc);
    }
  }

  lemma StartKeepsQuiet(s: State, id: string, repeat: bool, proc: Name)
    requires Quiet(s, proc) && proc < s.next
    ensures Quiet(Started(s, id, repeat), proc)
  {
    StartSpawns(s, id, repeat);
    hide InScope, Holds;
  }

  lemma TakingKeepsQuiet(s: State, call: Name, proc: Name)
    requires Enabled(s, StopTake(call)) && Quiet(s, proc)
    ensures Quiet(After(s, StopTake(call)), proc)
  {
    hide InScope, Holds, Leaves, StopsOne;
  }

  lemma CancelledStays(s: State, step: Step, proc: Name)
    requires Inv(s) && Enabled(s, step) && proc in s.procs && s.procs[proc].cancelled
    ensures proc in After(s, step).procs && After(s, step).procs[proc].cancelled
  {
    hide Inv;
    Known(s, proc, "");
    if step.Start? {
      StartCancels(s, step.id, step.repeat, proc);
    }
  }

  /** A state leaves the map uncancelled when its one-shot ends, or when a stop takes it without stopping it. */
  lemma LeavesUncancelled(s: State, step: Step, proc: Name)
    requires Inv(s) && Enabled(s, step) && proc in s.procs && s.procs[proc].owner.Mapped?
    requires proc in After(s, step).procs
    requires !After(s, step).procs[proc].owner.Mapped? && !After(s, step).procs[proc].cancelled
    ensures (step.End? && s.runs[step.run].proc == proc && !s.procs[proc].cancelOnRelease)
         || (step.StopTake? && step.call in s.calls && Holds(s, proc, s.calls[step.call].scope)
             && Leaves(s, s.calls[step.call].scope, proc)
             && !(s.calls[step.call].scope.Some? && s.procs[proc].cancelOnRelease))
  {
    hide Inv, Started;
    Known(s, proc, "");
    if step.Start? {
      StartCancels(s, step.id, step.repeat, proc);
    }
  }

  lemma EndedIsQuiet(s: State, run: Name)
    requires Inv(s) && Enabled(s, End(run)) && !s.procs[s.runs[run].proc].cancelOnRelease
    ensures Quiet(After(s, End(run)), s.runs[run].proc)
  {
    hide Inv;
    var proc, s' := s.runs[run].proc, After(s, End(run));
    Known(s, run, "");
    forall r <- s'.runs | s'.runs[r].proc == proc
      ensures s'.runs[r].phase.Finished?
    {
      Known(s, r, "");
    }
    forall task <- s.tasks
      ensures s.tasks[task].proc != proc
    {
      Known(s, task, "");
    }
  }

  lemma NewIsMapped(s: State, step: Step, proc: Name)
    requires Inv(s) && Enabled(s, step) && proc !in s.procs && proc in After(s, step).procs
    ensures After(s, step).procs[proc].owner.Mapped?
  {
    hide Inv;
    if step.Start? {
      StartSpawns(s, step.id, step.repeat);
    }
  }

  lemma LooseStaysQuiet(s: State, step: Step, proc: Name)
    requires Inv(s) && Enabled(s, step) && TakesOnlyIdle(s, step) && LooseIsQuiet(s, proc)
    ensures LooseIsQuiet(After(s, step), proc)
  {
    hide Inv, Quiet, After, Enabled;
    var s' := After(s, step);
    if proc in s'.procs && !s'.procs[proc].owner.Mapped? && !s'.procs[proc].cancelled {
      if proc !in s.procs {
        NewIsMapped(s, step, proc);
      } else if s.procs[proc].cancelled {
        CancelledStays(s, step, proc);
      } else if !s.procs[proc].owner.Mapped? {
        QuietStays(s, step, proc);
      } else {
        LeavesUncancelled(s, step, proc);
        if step.End? {
          EndedIsQuiet(s, step.run);
        } else {
          TakingKeepsQuiet(s, step.call, proc);
        }
      }
    }
  }

  lemma {:induction false} LooseIsAlwaysQuiet(states: seq<State>, steps: seq<Step>, n: nat, proc: Name)
    requires IsRun(states, steps) && n < |states|
    requires forall i | 0 <= i < |steps| :: TakesOnlyIdle(states[i], steps[i])
    ensures LooseIsQuiet(states[n], proc)
    decreases n
  {
    hide Inv, After, Enabled, TakesOnlyIdle;
    if n > 0 {
      hide LooseIsQuiet;
      LooseIsAlwaysQuiet(states, steps, n - 1, proc);
      RunKeepsInv(states, steps, n - 1);
      OneStep(states, steps, n - 1);
      LooseStaysQuiet(states[n - 1], steps[n - 1], proc);
    }
  }

  /**
   In every state of every run in which no stop takes a state out of the map
   before its process has ended, other than to cancel it there and then, each id
   has at most one active run: the promise holds.
   */
  lemma OneActiveRunPerId(states: seq<State>, steps: seq<Step>, n: nat, id: string)
    requires IsRun(states, steps) && n < |states|
    requires forall i | 0 <= i < |steps| :: TakesOnlyIdle(states[i], steps[i])
    ensures OneActive(states[n], id)
  {
    hide Inv, IsRun, TakesOnlyIdle;
    var s := states[n];
    RunKeepsInv(states, steps, n);
    forall a: Name, b: Name | Active(s, a, id) && Active(s, b, id)
      ensures a == b
    {
      LooseIsAlwaysQuiet(states, steps, n, s.runs[a].proc);
      LooseIsAlwaysQuiet(states, steps, n, s.runs[b].proc);
      Known(s, a, "");
      Known(s, b, "");
      Known(s, s.runs[a].proc, id);
      Known(s, s.runs[b].proc, id);
    }
  }

  lemma NewRunIsActive(s: State, id: string, repeat: bool)
    ensures Active(Started(s, id, repeat), s.next + 1, id)
  {
    hide Started;
    StartSpawns(s, id, repeat);
  }

  lemma StartActivates(s: State, id: string, repeat: bool, run: Name)
    requires Inv(s)
    ensures Active(Started(s, id, repeat), run, id)
       <==> run == s.next + 1 || (Active(s, run, id) && !s.procs[s.runs[run].proc].owner.Mapped?)
  {
    hide Inv, Started;
    StartSpawns(s, id, repeat);
    Known(s, run, "");
    Known(s, s.next, "");
    if run != s.next + 1 && run in s.runs {
      Known(s, s.runs[run].proc, "");
      StartCancels(s, id, repeat, s.runs[run].proc);
    }
  }

  /** Run `a` executes, `b` is about to, and then both do, for one id and with nothing stopping them. */
  predicate BothExecute(s: State, a: Name, b: Name, id: string) {
    && a != b && Active(s, a, id) && s.runs[a].phase.Executing? && Enabled(s, Begin(b))
    && Active(After(s, Begin(b)), a, id) && After(s, Begin(b)).runs[a].phase.Executing?
    && Active(After(s, Begin(b)), b, id) && After(s, Begin(b)).runs[b].phase.Executing?
  }

  /**
   And so the promise is broken by pressing a one-shot key, releasing it while
   its process runs, and pressing it again: the release takes the state out of
   the map and lets the process be.
   */
  lemma OneShotsOverlap(s: State, id: string, run: Name)
    requires Inv(s) && Active(s, run, id) && s.runs[run].phase.Executing?
    requires s.procs[s.runs[run].proc].owner.Mapped? && !s.procs[s.runs[run].proc].cancelOnRelease
    requires id !in s.tickers
    ensures Enabled(After(s, StopFirst(Some(id))), StopTake(s.next))
    ensures var s2 := After(After(s, StopFirst(Some(id))), StopTake(s.next));
            BothExecute(After(s2, Start(id, false)), run, s2.next + 1, id)
  {
    hide Inv, After, Active;
    var s1 := After(s, StopFirst(Some(id)));
    ReleaseLetsRun(s, id, run);
    StepKeepsInv(s, StopFirst(Some(id)));
    StepKeepsInv(s1, StopTake(s.next));
    var s2 := After(s1, StopTake(s.next));
    StartBesides(s2, id, run);
  }

  lemma ReleaseLetsRun(s: State, id: string, run: Name)
    requires Inv(s) && Active(s, run, id) && s.runs[run].phase.Executing?
    requires s.procs[s.runs[run].proc].owner.Mapped? && !s.procs[s.runs[run].proc].cancelOnRelease
    requires id !in s.tickers
    ensures Enabled(After(s, StopFirst(Some(id))), StopTake(s.next))
    ensures var s2 := After(After(s, StopFirst(Some(id))), StopTake(s.next));
            && Active(s2, run, id) && s2.runs[run].phase.Executing?
            && s2.procs[s2.runs[run].proc].owner.Nobody?
  {
    hide Inv;
    assert After(s, StopFirst(Some(id))).calls[s.next].drained == {};
  }

  lemma StartBesides(s: State, id: string, run: Name)
    requires Inv(s) && Active(s, run, id) && s.runs[run].phase.Executing? && s.procs[s.runs[run].proc].owner.Nobody?
    ensures BothExecute(After(s, Start(id, false)), run, s.next + 1, id)
  {
    hide Inv, Started;
    StartActivates(s, id, false, run);
    StartActivates(s, id, false, s.next + 1);
    Known(s, run, "");
    StartSpawns(s, id, false);
    NoOtherRun(s, id);
  }

  lemma NoOtherRun(s: State, id: string)
    requires Inv(s)
    ensures forall run <- Started(s, id, false).runs ::
              Started(s, id, false).runs[run].proc == s.next ==> run == s.next + 1
  {
    hide Inv, Started;
    StartSpawns(s, id, false);
    forall run <- Started(s, id, false).runs | Started(s, id, false).runs[run].proc == s.next
      ensures run == s.next + 1
    {
      if run in s.runs {
        Known(s, run, "");
        Known(s, s.next, "");
      }
    }
  }

  /** Such a state is reached: here is a key pressed twice, from the very start. */
  lemma TwoPressesOverlap(id: string)
    ensures Enabled(After(INITIAL, Start(id, false)), Begin(1))
    ensures var s := After(After(INITIAL, Start(id, false)), Begin(1));
            && Enabled(After(s, StopFirst(Some(id))), StopTake(s.next))
            && var released := After(After(s, StopFirst(Some(id))), StopTake(s.next));
               BothExecute(After(released, Start(id, false)), 1, released.next + 1, id)
  {
    NothingYet();
    var s1 := After(INITIAL, Start(id, false));
    StartSpawns(INITIAL, id, false);
    StepKeepsInv(INITIAL, Start(id, false));
    StepKeepsInv(s1, Begin(1));
    StartLeavesTickers(id);
    hide Inv, Started;
    OneShotsOverlap(After(s1, Begin(1)), id, 1);
  }

  lemma StartLeavesTickers(id: string)
    ensures id !in Started(INITIAL, id, false).tickers
  {
  }
}
