/**
 The promise of at most one process in flight per id, made by the comment on
 `ProcessRunState` in crates/hotki-engine/src/repeater.rs: which steps keep it,
 and so for which runs it holds.

 Taken to the letter it speaks of every run that has not finished; in spirit, of
 those that nothing has told to stop.  Both readings are settled here.
 */
module ProcessPromise {
  import opened Wrappers
  import opened ProcessRuns

  /** A run that has not finished counts, or only if it has not been cancelled either. */
  datatype Reading = InFlight | NotCancelled

  predicate Counts(s: State, run: Name, id: string, reading: Reading) {
    && Unfinished(s, run) && s.runs[run].proc in s.procs && s.procs[s.runs[run].proc].id == id
    && (reading.NotCancelled? ==> !s.procs[s.runs[run].proc].cancelled)
  }

  ghost predicate Promise(s: State, id: string, reading: Reading) {
    forall a, b :: Counts(s, a, id, reading) && Counts(s, b, id, reading) ==> a == b
  }

  /** A tick that starts a run that counts: its state is idle. */
  predicate Revives(s: State, step: Step, id: string, reading: Reading) {
    && step.Tick? && step.task in s.tasks && s.tasks[step.task].proc in s.procs
    && var p := s.procs[s.tasks[step.task].proc];
       p.id == id && !p.running && (reading.NotCancelled? ==> !p.cancelled)
  }

  /**
   A start of `id`, or a tick that starts a run for it, finds no run that counts,
   except that a start may find one in the map if being cancelled settles it.
   */
  ghost predicate Respects(s: State, step: Step, id: string, reading: Reading) {
    && (step.Start? && step.id == id ==>
          forall run :: Counts(s, run, id, reading) ==>
            reading.NotCancelled? && s.procs[s.runs[run].proc].owner.Mapped?)
    && (Revives(s, step, id, reading) ==> forall run :: !Counts(s, run, id, reading))
  }

  // ---------- What each step does to the runs that count ----------

  lemma StartCounts(s: State, other: string, repeat: bool, id: string, run: Name, reading: Reading)
    requires Inv(s)
    ensures Counts(Started(s, other, repeat), run, id, reading)
       <==> ((run == s.next + 1 && other == id) ||
             (Counts(s, run, id, reading) &&
              !(other == id && reading.NotCancelled? && s.procs[s.runs[run].proc].owner.Mapped?)))
  {
    hide Inv, Started;
    StartSpawns(s, other, repeat);
    Known(s, run, "");
    Known(s, s.next, "");
    if run != s.next + 1 && run in s.runs {
      Known(s, s.runs[run].proc, "");
      StartCancels(s, other, repeat, s.runs[run].proc);
    }
  }

  lemma TickCounts(s: State, task: Name, id: string, run: Name, reading: Reading)
    requires Inv(s) && Enabled(s, Tick(task))
    ensures Counts(After(s, Tick(task)), run, id, reading)
       <==> Counts(s, run, id, reading) || (run == s.next && Revives(s, Tick(task), id, reading))
  {
    hide Inv;
    Known(s, run, "");
    Known(s, s.next, "");
    Known(s, s.tasks[task].proc, "");
  }

  /** No other step makes a run count. */
  lemma OthersCountLess(s: State, step: Step, id: string, run: Name, reading: Reading)
    requires Inv(s) && Enabled(s, step) && !step.Start? && !step.Tick?
    requires Counts(After(s, step), run, id, reading)
    ensures Counts(s, run, id, reading)
  {
    hide Inv;
    Known(s, run, "");
  }

  lemma NewNames(s: State, id: string, reading: Reading)
    requires Inv(s)
    ensures !Counts(s, s.next, id, reading) && !Counts(s, s.next + 1, id, reading)
  {
    hide Inv;
    Known(s, s.next, "");
    Known(s, s.next + 1, "");
  }

  // ---------- Which steps keep the promise ----------

  lemma StartKeepsPromiseIff(s: State, other: string, repeat: bool, id: string, reading: Reading)
    requires Inv(s) && Promise(s, id, reading)
    ensures Promise(Started(s, other, repeat), id, reading) <==> Respects(s, Start(other, repeat), id, reading)
  {
    hide Inv, Started, Counts;
    var s' := Started(s, other, repeat);
    NewNames(s, id, reading);
    forall run: Name
      ensures Counts(s', run, id, reading)
         <==> ((run == s.next + 1 && other == id) ||
               (Counts(s, run, id, reading) && !(other == id && reading.NotCancelled? && IsMapped(s, run))))
      ensures Counts(s, run, id, reading) ==> run in s.runs && s.runs[run].proc in s.procs
    {
      StartCounts(s, other, repeat, id, run, reading);
      CountsIsKnown(s, run, id, reading);
    }
    if other == id && Promise(s', id, reading) {
      assert Counts(s', s.next + 1, id, reading);
    }
  }

  predicate IsMapped(s: State, run: Name) {
    run in s.runs && s.runs[run].proc in s.procs && s.procs[s.runs[run].proc].owner.Mapped?
  }

  lemma CountsIsKnown(s: State, run: Name, id: string, reading: Reading)
    ensures Counts(s, run, id, reading) ==>
              && run in s.runs && s.runs[run].proc in s.procs
              && (IsMapped(s, run) <==> s.procs[s.runs[run].proc].owner.Mapped?)
  {
  }

  lemma TickKeepsPromiseIff(s: State, task: Name, id: string, reading: Reading)
    requires Inv(s) && Enabled(s, Tick(task)) && Promise(s, id, reading)
    ensures Promise(After(s, Tick(task)), id, reading) <==> Respects(s, Tick(task), id, reading)
  {
    hide Inv, Counts, Revives, Enabled;
    var s' := After(s, Tick(task));
    forall run: Name
      ensures Counts(s', run, id, reading)
         <==> Counts(s, run, id, reading) || (run == s.next && Revives(s, Tick(task), id, reading))
    {
      TickCounts(s, task, id, run, reading);
    }
    NewNames(s, id, reading);
    if Revives(s, Tick(task), id, reading) && Promise(s', id, reading) {
      assert Counts(s', s.next, id, reading);
    }
  }

  /**
   A step keeps the promise for `id` exactly if it respects it: nothing but a
   start of `id` or a tick for `id` can break it, and those do so exactly when
   they find a run that counts and go on counting it.
   */
  lemma StepKeepsPromiseIff(s: State, step: Step, id: string, reading: Reading)
    requires Inv(s) && Enabled(s, step) && Promise(s, id, reading)
    ensures Promise(After(s, step), id, reading) <==> Respects(s, step, id, reading)
  {
    hide Inv, Counts, Started;
    if step.Start? {
      StartKeepsPromiseIff(s, step.id, step.repeat, id, reading);
    } else if step.Tick? {
      TickKeepsPromiseIff(s, step.task, id, reading);
    } else {
      hide After, Enabled;
      forall run | Counts(After(s, step), run, id, reading)
        ensures Counts(s, run, id, reading)
      {
        OthersCountLess(s, step, id, run, reading);
      }
    }
  }

  // ---------- Which runs keep it ----------

  /** A run keeps the promise for `id` in every state exactly if every one of its steps respects it. */
  lemma RunKeepsPromiseIff(states: seq<State>, steps: seq<Step>, id: string, reading: Reading)
    requires IsRun(states, steps)
    ensures (forall n | 0 <= n < |states| :: Promise(states[n], id, reading))
       <==> (forall i | 0 <= i < |steps| :: Respects(states[i], steps[i], id, reading))
  {
    hide Inv, IsRun, After, Enabled, Promise, Respects;
    LengthOf(states, steps);
    if forall n | 0 <= n < |states| :: Promise(states[n], id, reading) {
      forall i | 0 <= i < |steps|
        ensures Respects(states[i], steps[i], id, reading)
      {
        RunKeepsInv(states, steps, i);
        OneStep(states, steps, i);
        StepKeepsPromiseIff(states[i], steps[i], id, reading);
        assert Promise(states[i + 1], id, reading);
      }
    }
    if forall i | 0 <= i < |steps| :: Respects(states[i], steps[i], id, reading) {
      forall n | 0 <= n < |states|
        ensures Promise(states[n], id, reading)
      {
        KeptSoFar(states, steps, id, reading, n);
      }
    }
  }

  lemma LengthOf(states: seq<State>, steps: seq<Step>)
    requires IsRun(states, steps)
    ensures |states| == |steps| + 1 && states[0] == INITIAL
  {
    hide After, Enabled;
  }

  lemma {:induction false} KeptSoFar(states: seq<State>, steps: seq<Step>, id: string, reading: Reading, n: nat)
    requires IsRun(states, steps) && n < |states|
    requires forall i | 0 <= i < |steps| :: Respects(states[i], steps[i], id, reading)
    ensures Promise(states[n], id, reading)
    decreases n
  {
    hide Inv, IsRun, After, Enabled, Promise, Respects;
    LengthOf(states, steps);
    if n == 0 {
      NothingCounts(id, reading);
    } else {
      KeptSoFar(states, steps, id, reading, n - 1);
      RunKeepsInv(states, steps, n - 1);
      OneStep(states, steps, n - 1);
      StepKeepsPromiseIff(states[n - 1], steps[n - 1], id, reading);
    }
  }

  lemma NothingCounts(id: string, reading: Reading)
    ensures Promise(INITIAL, id, reading)
  {
  }
}
