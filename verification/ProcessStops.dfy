/**
 When a stop of a held key can be relied on: crates/hotki-engine/src/repeater.rs,
 `stop` and `stop_repeats_async`, against everything else that goes on meanwhile.
 */
module ProcessStops {
  import opened Wrappers
  import opened ProcessRuns

  // ---------- Continuations ----------

  ghost predicate CanPlay(s: State, steps: seq<Step>)
    decreases |steps|
  {
    steps == [] || (Enabled(s, steps[0]) && CanPlay(After(s, steps[0]), steps[1..]))
  }

  ghost function Play(s: State, steps: seq<Step>): State
    requires CanPlay(s, steps)
    decreases |steps|
  {
    if steps == [] then s else Play(After(s, steps[0]), steps[1..])
  }

  lemma PlayOne(s: State, step: Step)
    requires Enabled(s, step)
    ensures CanPlay(s, [step]) && Play(s, [step]) == After(s, step)
  {
    assert [step][1..] == [];
  }

  lemma {:induction false} PlayAppends(s: State, a: seq<Step>, b: seq<Step>)
    requires CanPlay(s, a) && CanPlay(Play(s, a), b)
    ensures CanPlay(s, a + b) && Play(s, a + b) == Play(Play(s, a), b)
    decreases |a|
  {
    hide Enabled, After;
    if a == [] {
      assert a + b == b;
    } else {
      assert (a + b)[0] == a[0] && (a + b)[1..] == a[1..] + b;
      PlayAppends(After(s, a[0]), a[1..], b);
    }
  }

  lemma {:induction false} PlayKeepsCall(s: State, steps: seq<Step>, call: Name)
    requires Inv(s) && CanPlay(s, steps) && call in s.calls
    ensures Inv(Play(s, steps))
    ensures call in Play(s, steps).calls && Kept(s.calls[call], Play(s, steps).calls[call])
    decreases |steps|
  {
    hide Enabled, After, Inv;
    if steps != [] {
      StepKeepsInv(s, steps[0]);
      StepKeepsCall(s, steps[0], call);
      PlayKeepsCall(After(s, steps[0]), steps[1..], call);
    }
  }

  // ---------- The result ----------

  /** However things go on: once the stop has returned and the state is among those it stopped, the state is quiet. */
  ghost predicate Reliable(s: State, scope: Option<string>, id: string)
    requires id in s.states
  {
    forall steps | CanPlay(After(s, StopFirst(scope)), steps) ::
      Keeps(Play(After(s, StopFirst(scope)), steps), s.next, s.states[id])
  }

  ghost predicate Keeps(s: State, call: Name, proc: Name) {
    call in s.calls && s.calls[call].pc.Returned? && proc in s.calls[call].stopped ==> Quiet(s, proc)
  }

  /** Every ticker of the state of `id` that is still alive is the one in the map. */
  ghost predicate OnlyMappedTicker(s: State, id: string)
    requires id in s.states
  {
    forall task <- s.tasks :: s.tasks[task].live && s.tasks[task].proc == s.states[id]
      ==> id in s.tickers && s.tickers[id] == task
  }

  /**
   A stop of a held key, or of all, can be relied on exactly if, when it begins,
   no ticker of that key's state is still alive outside the map: that is, if no
   earlier stop, and no OS repeat, has taken a ticker out and not yet seen it end.
   */
  lemma StopIsReliableIff(s: State, scope: Option<string>, id: string)
    requires Inv(s) && InScope(scope, id) && id in s.states
    requires s.states[id] in s.procs && s.procs[s.states[id]].cancelOnRelease
    ensures Reliable(s, scope, id) <==> OnlyMappedTicker(s, id)
  {
    hide Inv, After, Keeps;
    if OnlyMappedTicker(s, id) {
      forall steps | CanPlay(After(s, StopFirst(scope)), steps)
        ensures Keeps(Play(After(s, StopFirst(scope)), steps), s.next, s.states[id])
      {
        SureStopKeeps(s, scope, id, steps);
      }
    } else {
      var task :| task in s.tasks && s.tasks[task].live && s.tasks[task].proc == s.states[id]
                  && !(id in s.tickers && s.tickers[id] == task);
      var steps := SpoilingSteps(s, scope, id, task);
    }
  }

  lemma SureStopKeeps(s: State, scope: Option<string>, id: string, steps: seq<Step>)
    requires Inv(s) && InScope(scope, id) && id in s.states && OnlyMappedTicker(s, id)
    requires CanPlay(After(s, StopFirst(scope)), steps)
    ensures Keeps(Play(After(s, StopFirst(scope)), steps), s.next, s.states[id])
  {
    hide Inv, After, Quiet;
    StopIsSure(s, scope, id);
    StepKeepsInv(s, StopFirst(scope));
    PlayKeepsCall(After(s, StopFirst(scope)), steps, s.next);
    var s' := Play(After(s, StopFirst(scope)), steps);
    if s'.calls[s.next].pc.Returned? && s.states[id] in s'.calls[s.next].stopped {
      ReturnedIsQuiet(s', s.next, s.states[id]);
    }
  }

  // ---------- Spoiling a stop ----------

  /** The call waits for its tickers; `task` is a live ticker of the state, and not one of them. */
  ghost predicate Poised(s: State, call: Name, id: string, proc: Name, task: Name) {
    && Inv(s) && call in s.calls && s.calls[call].pc.WaitTickers? && InScope(s.calls[call].scope, id)
    && id in s.states && s.states[id] == proc && proc in s.procs && s.procs[proc].cancelOnRelease
    && task in s.tasks && s.tasks[task].live && s.tasks[task].proc == proc && task !in s.calls[call].drained
    && (forall d <- s.calls[call].drained :: d in s.tasks && (s.tasks[d].live ==> s.tasks[d].cancelled))
  }

  function LiveDrained(s: State, call: Name): set<Name>
    requires call in s.calls
  {
    set d | d in s.calls[call].drained && d in s.tasks && s.tasks[d].live
  }

  function UnfinishedRuns(s: State): set<Name> {
    set r | r in s.runs && Unfinished(s, r)
  }

  function QueuedFor(s: State, call: Name): set<Name> {
    set p | p in s.procs && s.procs[p].owner == Queued(call)
  }

  lemma StopIsPoised(s: State, scope: Option<string>, id: string, task: Name)
    requires Inv(s) && InScope(scope, id) && id in s.states
    requires s.states[id] in s.procs && s.procs[s.states[id]].cancelOnRelease
    requires task in s.tasks && s.tasks[task].live && s.tasks[task].proc == s.states[id]
    requires !(id in s.tickers && s.tickers[id] == task)
    ensures Enabled(s, StopFirst(scope)) && Poised(After(s, StopFirst(scope)), s.next, id, s.states[id], task)
  {
    hide Inv;
    StepKeepsInv(s, StopFirst(scope));
    Known(s, task, id);
    Known(s, s.states[id], id);
    var s' := After(s, StopFirst(scope));
    forall x | x in s.tickers && InScope(scope, x)
      ensures s.tickers[x] != task && s.tickers[x] in s.tasks && s'.tasks[s.tickers[x]].cancelled
    {
      Known(s, 0, x);
    }
  }

  lemma ExitOne(s: State, call: Name, id: string, proc: Name, task: Name, d: Name)
    requires Poised(s, call, id, proc, task) && d in LiveDrained(s, call)
    ensures Enabled(s, TickerExit(d)) && Poised(After(s, TickerExit(d)), call, id, proc, task)
    ensures LiveDrained(After(s, TickerExit(d)), call) == LiveDrained(s, call) - {d}
  {
    hide Inv;
    StepKeepsInv(s, TickerExit(d));
  }

  lemma {:induction false} ExitAll(s: State, call: Name, id: string, proc: Name, task: Name) returns (steps: seq<Step>)
    requires Poised(s, call, id, proc, task)
    ensures CanPlay(s, steps) && Poised(Play(s, steps), call, id, proc, task)
    ensures LiveDrained(Play(s, steps), call) == {}
    decreases |LiveDrained(s, call)|
  {
    hide Inv, Enabled, After;
    steps := [];
    if LiveDrained(s, call) != {} {
      var d :| d in LiveDrained(s, call);
      ExitOne(s, call, id, proc, task, d);
      PlayOne(s, TickerExit(d));
      var rest := ExitAll(After(s, TickerExit(d)), call, id, proc, task);
      PlayAppends(s, [TickerExit(d)], rest);
      steps := [TickerExit(d)] + rest;
    }
  }

  lemma BeginOne(s: State, call: Name, id: string, proc: Name, task: Name, run: Name)
    requires Poised(s, call, id, proc, task) && run in s.runs && s.runs[run].phase.Spawned?
    ensures Enabled(s, Begin(run)) && Poised(After(s, Begin(run)), call, id, proc, task)
    ensures LiveDrained(After(s, Begin(run)), call) == LiveDrained(s, call)
    ensures UnfinishedRuns(After(s, Begin(run))) == UnfinishedRuns(s)
    ensures run in After(s, Begin(run)).runs && After(s, Begin(run)).runs[run].phase.Executing?
  {
    hide Inv;
    Known(s, run, "");
    forall other <- s.runs | s.runs[other].proc == s.runs[run].proc
      ensures !s.runs[other].phase.Executing?
    {
      Known(s, other, "");
    }
    StepKeepsInv(s, Begin(run));
  }

  lemma EndOne(s: State, call: Name, id: string, proc: Name, task: Name, run: Name)
    requires Poised(s, call, id, proc, task) && run in s.runs && s.runs[run].phase.Executing?
    ensures Enabled(s, End(run)) && Poised(After(s, End(run)), call, id, proc, task)
    ensures LiveDrained(After(s, End(run)), call) == LiveDrained(s, call)
    ensures UnfinishedRuns(After(s, End(run))) == UnfinishedRuns(s) - {run}
  {
    hide Inv;
    Known(s, run, "");
    Known(s, s.runs[run].proc, id);
    StepKeepsInv(s, End(run));
  }

  lemma {:induction false} EndAll(s: State, call: Name, id: string, proc: Name, task: Name) returns (steps: seq<Step>)
    requires Poised(s, call, id, proc, task) && LiveDrained(s, call) == {}
    ensures CanPlay(s, steps) && Poised(Play(s, steps), call, id, proc, task)
    ensures LiveDrained(Play(s, steps), call) == {} && UnfinishedRuns(Play(s, steps)) == {}
    decreases |UnfinishedRuns(s)|
  {
    hide Inv, Enabled, After, Poised;
    steps := [];
    if UnfinishedRuns(s) != {} {
      var run :| run in UnfinishedRuns(s);
      var s1 := s;
      if s.runs[run].phase.Spawned? {
        BeginOne(s, call, id, proc, task, run);
        PlayOne(s, Begin(run));
        steps := [Begin(run)];
        s1 := After(s, Begin(run));
      }
      EndOne(s1, call, id, proc, task, run);
      PlayOne(s1, End(run));
      PlayAppends(s, steps, [End(run)]);
      steps := steps + [End(run)];
      var rest := EndAll(After(s1, End(run)), call, id, proc, task);
      PlayAppends(s, steps, rest);
      steps := steps + rest;
    }
  }

  /** The call has taken its states out, waits for nothing, and `task` still lives. */
  ghost predicate Taking(s: State, call: Name, proc: Name, task: Name) {
    && Inv(s) && call in s.calls && s.calls[call].pc == Stopping(None) && proc in s.calls[call].stopped
    && proc in s.procs && task in s.tasks && s.tasks[task].live && s.tasks[task].proc == proc
    && UnfinishedRuns(s) == {}
  }

  /** Without unfinished runs nothing runs, and a queued or mapped state has no task. */
  lemma NothingRuns(s: State, proc: Name)
    requires Inv(s) && UnfinishedRuns(s) == {} && proc in s.procs
    ensures !s.procs[proc].running && (!s.procs[proc].owner.Nobody? ==> s.procs[proc].task.None?)
  {
    hide Inv;
    Known(s, proc, "");
    assert forall run :: Unfinished(s, run) <==> run in UnfinishedRuns(s);
  }

  lemma TakeAll(s: State, call: Name, id: string, proc: Name, task: Name)
    requires Poised(s, call, id, proc, task) && LiveDrained(s, call) == {} && UnfinishedRuns(s) == {}
    ensures Enabled(s, StopTake(call)) && Taking(After(s, StopTake(call)), call, proc, task)
  {
    hide Inv;
    assert forall d <- s.calls[call].drained :: d in s.tasks && s.tasks[d].live ==> d in LiveDrained(s, call);
    Known(s, proc, id);
    NothingRuns(s, proc);
    var scope := s.calls[call].scope;
    if scope.Some? {
      assert scope.value == id;
    }
    StepKeepsInv(s, StopTake(call));
    TakeStops(s, call, id);
    assert After(s, StopTake(call)).runs == s.runs;
  }

  lemma NextOne(s: State, call: Name, proc: Name, task: Name, p: Name)
    requires Taking(s, call, proc, task) && p in QueuedFor(s, call)
    ensures Enabled(s, StopNext(call, p)) && Taking(After(s, StopNext(call, p)), call, proc, task)
    ensures QueuedFor(After(s, StopNext(call, p)), call) == QueuedFor(s, call) - {p}
  {
    hide Inv;
    NothingRuns(s, p);
    StepKeepsInv(s, StopNext(call, p));
    assert After(s, StopNext(call, p)).runs == s.runs;
  }

  lemma {:induction false} NextAll(s: State, call: Name, proc: Name, task: Name) returns (steps: seq<Step>)
    requires Taking(s, call, proc, task)
    ensures CanPlay(s, steps) && Taking(Play(s, steps), call, proc, task) && QueuedFor(Play(s, steps), call) == {}
    decreases |QueuedFor(s, call)|
  {
    hide Inv, Enabled, After, Taking;
    steps := [];
    if QueuedFor(s, call) != {} {
      var p :| p in QueuedFor(s, call);
      NextOne(s, call, proc, task, p);
      PlayOne(s, StopNext(call, p));
      var rest := NextAll(After(s, StopNext(call, p)), call, proc, task);
      PlayAppends(s, [StopNext(call, p)], rest);
      steps := [StopNext(call, p)] + rest;
    }
  }

  lemma ReturnAndTick(s: State, call: Name, proc: Name, task: Name) returns (steps: seq<Step>)
    requires Taking(s, call, proc, task) && QueuedFor(s, call) == {}
    ensures CanPlay(s, steps) && !Keeps(Play(s, steps), call, proc)
  {
    hide Inv, After, Enabled;
    NothingRuns(s, proc);
    assert forall p <- s.procs :: s.procs[p].owner == Queued(call) ==> p in QueuedFor(s, call);
    TickAfterReturn(s, call, task, proc);
    PlayOne(s, StopReturn(call));
    PlayOne(After(s, StopReturn(call)), Tick(task));
    PlayAppends(s, [StopReturn(call)], [Tick(task)]);
    steps := [StopReturn(call)] + [Tick(task)];
  }

  /** Given a live ticker outside the map, the stop can be made to return too soon. */
  lemma SpoilingSteps(s: State, scope: Option<string>, id: string, task: Name) returns (steps: seq<Step>)
    requires Inv(s) && InScope(scope, id) && id in s.states
    requires s.states[id] in s.procs && s.procs[s.states[id]].cancelOnRelease
    requires task in s.tasks && s.tasks[task].live && s.tasks[task].proc == s.states[id]
    requires !(id in s.tickers && s.tickers[id] == task)
    ensures CanPlay(After(s, StopFirst(scope)), steps)
    ensures !Keeps(Play(After(s, StopFirst(scope)), steps), s.next, s.states[id])
  {
    hide Inv, After, Enabled, Poised, Taking, Keeps;
    var call, proc := s.next, s.states[id];
    StopIsPoised(s, scope, id, task);
    var s0 := After(s, StopFirst(scope));
    steps := ExitAll(s0, call, id, proc, task);
    var s1 := Play(s0, steps);
    var ends := EndAll(s1, call, id, proc, task);
    PlayAppends(s0, steps, ends);
    steps := steps + ends;
    var s2 := Play(s0, steps);
    TakeAll(s2, call, id, proc, task);
    PlayOne(s2, StopTake(call));
    PlayAppends(s0, steps, [StopTake(call)]);
    steps := steps + [StopTake(call)];
    var s3 := Play(s0, steps);
    var nexts := NextAll(s3, call, proc, task);
    PlayAppends(s0, steps, nexts);
    steps := steps + nexts;
    var last := ReturnAndTick(Play(s0, steps), call, proc, task);
    PlayAppends(s0, steps, last);
    steps := steps + last;
  }
}
