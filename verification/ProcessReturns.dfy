/**
 Stops do return, and teardown leaves nothing behind: what a call of `stop` or
 `stop_repeats_async` needs from the tasks it waits for, and what `note_os_repeat`
 and `abort_all` do, crates/hotki-engine/src/repeater.rs.
 */
module ProcessReturns {
  import opened Wrappers
  import opened ProcessRuns

  // ---------- Teardown ----------

  /**
   After `abort_all` no state and no ticker is mapped, every state that was is
   cancelled, and no ticker that had not been cancelled is alive.
   */
  lemma TeardownEndsAll(s: State)
    requires Inv(s)
    ensures var s' := After(s, AbortAll);
            && s'.states == map[] && s'.tickers == map[] && s'.runs == s.runs && s'.calls == s.calls
            && (forall proc: Name | proc in s.procs && s.procs[proc].owner.Mapped? ::
                  s'.procs[proc].cancelled && s'.procs[proc].owner.Nobody?)
            && (forall task: Name | task in s.tasks && !s.tasks[task].cancelled :: !s'.tasks[task].live)
  {
    hide Inv;
    forall task: Name | task in s.tasks && !s.tasks[task].cancelled
      ensures !After(s, AbortAll).tasks[task].live
    {
      Known(s, task, "");
    }
  }

  /** A repeat from the OS ends the ticker of its key and touches nothing else. */
  lemma NoteEndsTicker(s: State, id: string)
    requires Inv(s)
    ensures var s' := After(s, NoteOsRepeat(id));
            && s'.states == s.states && s'.procs == s.procs && s'.runs == s.runs && s'.calls == s.calls
            && s'.tickers == s.tickers - {id} && s'.tasks.Keys == s.tasks.Keys
            && forall task: Name | task in s.tasks ::
                 s'.tasks[task] == if id in s.tickers && s.tickers[id] == task then s.tasks[task].(cancelled := true)
                                   else s.tasks[task]
  {
    hide Inv;
    Known(s, 0, id);
    forall task: Name | task in s.tasks
      ensures s.tasks[task].id in s.tickers && s.tickers[s.tasks[task].id] == task && s.tasks[task].id == id
         <==> id in s.tickers && s.tickers[id] == task
    {
    }
  }

  // ---------- Stops return ----------

  /** The tickers a call waits for have been told to finish. */
  ghost predicate DrainedAreCancelled(s: State) {
    forall call: Name, task: Name | call in s.calls && task in s.calls[call].drained ::
      task in s.tasks && s.tasks[task].cancelled
  }

  lemma StepKeepsCancelled(s: State, step: Step)
    requires Inv(s) && DrainedAreCancelled(s) && Enabled(s, step)
    ensures DrainedAreCancelled(After(s, step))
  {
    hide Inv, After, Enabled;
    var s' := After(s, step);
    forall call: Name, task: Name | call in s'.calls && task in s'.calls[call].drained
      ensures task in s'.tasks && s'.tasks[task].cancelled
    {
      if call in s.calls && s'.calls[call].drained == s.calls[call].drained {
        StaysCancelled(s, step, task);
      } else {
        NewlyDrained(s, step, call, task);
      }
    }
  }

  lemma StaysCancelled(s: State, step: Step, task: Name)
    requires Inv(s) && Enabled(s, step) && task in s.tasks && s.tasks[task].cancelled
    ensures task in After(s, step).tasks && After(s, step).tasks[task].cancelled
  {
    hide Inv;
    Known(s, task, "");
  }

  /** What a call that is just made waits for, it has cancelled. */
  lemma NewlyDrained(s: State, step: Step, call: Name, task: Name)
    requires Inv(s) && Enabled(s, step)
    requires var s' := After(s, step);
             && call in s'.calls && task in s'.calls[call].drained
             && !(call in s.calls && s'.calls[call].drained == s.calls[call].drained)
    ensures var s' := After(s, step);
            task in s'.tasks && s'.tasks[task].cancelled
  {
    hide Inv;
    if step.StopFirst? {
      var id :| id in s.tickers && InScope(step.scope, id) && s.tickers[id] == task;
      Known(s, 0, id);
    }
  }

  /** The steps lead from `s` to `last`, and are all of the call itself or of the tasks it waits for. */
  ghost predicate Leads(s: State, steps: seq<Step>, call: Name, last: State)
    decreases |steps|
  {
    if steps == [] then s == last
    else Enabled(s, steps[0]) && Owns(s, steps[0], call) && Leads(After(s, steps[0]), steps[1..], call, last)
  }

  /** The step is the call's own, or ends a ticker it drained, or moves the run it waits for. */
  predicate Owns(s: State, step: Step, call: Name) {
    && call in s.calls
    && match step
       case StopTake(c) => c == call
       case StopNext(c, _) => c == call
       case StopReturn(c) => c == call
       case TickerExit(task) => task in s.calls[call].drained
       case Begin(run) => s.calls[call].pc == Stopping(Some(run))
       case End(run) => s.calls[call].pc == Stopping(Some(run))
       case _ => false
  }

  ghost function Alive(s: State, call: Name): set<Name>
    requires call in s.calls
  {
    set task | task in s.calls[call].drained && task in s.tasks && s.tasks[task].live
  }

  ghost function QueuedBy(s: State, call: Name): set<Name> {
    set proc | proc in s.procs && s.procs[proc].owner == Queued(call)
  }

  /** How far the call is: before or after taking its states out; what is left; how far the run it waits for is. */
  ghost function ToTake(s: State, call: Name): nat
    requires call in s.calls
  {
    if s.calls[call].pc.WaitTickers? then 2 else if s.calls[call].pc.Stopping? then 1 else 0
  }

  ghost function LeftOver(s: State, call: Name): nat
    requires call in s.calls
  {
    if s.calls[call].pc.WaitTickers? then |Alive(s, call)| else |QueuedBy(s, call)|
  }

  ghost function ToFinish(s: State, call: Name): nat
    requires call in s.calls
  {
    var pc := s.calls[call].pc;
    if pc.Stopping? && pc.wait.Some? && pc.wait.value in s.runs then
      if s.runs[pc.wait.value].phase.Spawned? then 2 else if s.runs[pc.wait.value].phase.Executing? then 1 else 0
    else 0
  }

  ghost predicate Closer(s: State, s': State, call: Name)
    requires call in s.calls
  {
    && call in s'.calls
    && (ToTake(s', call) < ToTake(s, call)
        || (ToTake(s', call) == ToTake(s, call)
            && (LeftOver(s', call) < LeftOver(s, call)
                || (LeftOver(s', call) == LeftOver(s, call) && ToFinish(s', call) < ToFinish(s, call)))))
  }

  lemma FewerIsLess(a: set<Name>, b: set<Name>, x: Name)
    requires a == b - {x} && x in b
    ensures |a| < |b|
  {
    assert b == a + {x};
  }

  /** A ticker that a call waits for can finish. */
  lemma TickerFinishes(s: State, call: Name, task: Name)
    requires DrainedAreCancelled(s) && call in s.calls && s.calls[call].pc.WaitTickers? && task in Alive(s, call)
    ensures Enabled(s, TickerExit(task)) && Closer(s, After(s, TickerExit(task)), call)
  {
    FewerIsLess(Alive(After(s, TickerExit(task)), call), Alive(s, call), task);
  }

  /** The run that a call waits for can move on. */
  lemma RunMovesOn(s: State, call: Name, run: Name) returns (step: Step)
    requires Inv(s) && call in s.calls && s.calls[call].pc == Stopping(Some(run)) && Unfinished(s, run)
    ensures Enabled(s, step) && Owns(s, step, call) && Closer(s, After(s, step), call)
  {
    hide Inv;
    Known(s, run, "");
    step := if s.runs[run].phase.Spawned? then Begin(run) else End(run);
    forall other <- s.runs
      ensures s.runs[other].proc == s.runs[run].proc && s.runs[other].phase.Executing? ==> other == run
    {
      Known(s, other, "");
    }
    assert Enabled(s, step);
    Known(s, s.runs[run].proc, s.procs[s.runs[run].proc].id);
    assert QueuedBy(After(s, step), call) == QueuedBy(s, call);
  }

  lemma NextIsCloser(s: State, call: Name, proc: Name)
    requires Enabled(s, StopNext(call, proc))
    ensures Closer(s, After(s, StopNext(call, proc)), call)
  {
    FewerIsLess(QueuedBy(After(s, StopNext(call, proc)), call), QueuedBy(s, call), proc);
  }

  lemma TakeIsCloser(s: State, call: Name)
    requires Enabled(s, StopTake(call))
    ensures Closer(s, After(s, StopTake(call)), call)
  {
  }

  /** Whatever a call is at, there is a step that brings it closer to its return. */
  lemma SomeStepIsCloser(s: State, call: Name) returns (step: Step)
    requires Inv(s) && DrainedAreCancelled(s) && call in s.calls && !s.calls[call].pc.Returned?
    ensures Enabled(s, step) && Owns(s, step, call) && Closer(s, After(s, step), call)
  {
    hide Inv, Closer, After;
    Known(s, call, "");
    var pc := s.calls[call].pc;
    if pc.WaitTickers? {
      if task :| task in Alive(s, call) {
        TickerFinishes(s, call, task);
        return TickerExit(task);
      }
      assert forall task <- s.calls[call].drained :: task in s.tasks ==> task !in Alive(s, call);
      TakeIsCloser(s, call);
      return StopTake(call);
    }
    if !Waited(s, s.calls[call]) {
      step := RunMovesOn(s, call, pc.wait.value);
    } else if proc :| proc in QueuedBy(s, call) {
      NextIsCloser(s, call, proc);
      step := StopNext(call, proc);
    } else {
      assert forall proc <- s.procs :: s.procs[proc].owner == Queued(call) ==> proc in QueuedBy(s, call);
      ReturnIsCloser(s, call);
      step := StopReturn(call);
    }
  }

  lemma ReturnIsCloser(s: State, call: Name)
    requires Enabled(s, StopReturn(call))
    ensures Closer(s, After(s, StopReturn(call)), call)
  {
  }

  /**
   Every stop can return: from whatever state a run has reached, the call's own
   steps, the ends of the tickers it has cancelled and the steps of the runs it
   waits for lead to its return, with nobody else moving.
   */
  lemma {:induction false} StopReturns(s: State, call: Name) returns (steps: seq<Step>, last: State)
    requires Inv(s) && DrainedAreCancelled(s) && call in s.calls
    ensures Leads(s, steps, call, last) && call in last.calls && last.calls[call].pc.Returned?
    decreases ToTake(s, call), LeftOver(s, call), ToFinish(s, call)
  {
    hide Inv, DrainedAreCancelled, After, Owns, Enabled;
    if s.calls[call].pc.Returned? {
      return [], s;
    }
    var step := SomeStepIsCloser(s, call);
    StepKeepsInv(s, step);
    StepKeepsCancelled(s, step);
    steps, last := StopReturns(After(s, step), call);
    assert ([step] + steps)[1..] == steps;
    steps := [step] + steps;
  }

  /** And every state of every run is such a state. */
  lemma {:induction false} RunKeepsCancelled(states: seq<State>, steps: seq<Step>, n: nat)
    requires IsRun(states, steps) && n < |states|
    ensures Inv(states[n]) && DrainedAreCancelled(states[n])
    decreases n
  {
    hide Inv, DrainedAreCancelled, After, Enabled;
    RunKeepsInv(states, steps, n);
    if n > 0 {
      RunKeepsCancelled(states, steps, n - 1);
      StepKeepsCancelled(states[n - 1], steps[n - 1]);
    } else {
      assert DrainedAreCancelled(INITIAL) by { NobodyWaits(); }
    }
  }

  lemma NobodyWaits()
    ensures DrainedAreCancelled(INITIAL)
  {
  }

  /** Every call of `stop` or `stop_repeats_async` in every run can still return. */
  lemma EveryStopCanReturn(states: seq<State>, steps: seq<Step>, n: nat, call: Name)
    requires IsRun(states, steps) && n < |states| && call in states[n].calls
    ensures exists more, last :: Leads(states[n], more, call, last) && call in last.calls
                                 && last.calls[call].pc.Returned?
  {
    hide Inv, DrainedAreCancelled, IsRun, Leads;
    RunKeepsCancelled(states, steps, n);
    var more, last := StopReturns(states[n], call);
  }
}
