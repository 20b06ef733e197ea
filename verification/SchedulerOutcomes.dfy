/** How each task and `execute` itself end, in terms of what the runners did and which cancellations were delivered. */
module SchedulerOutcomes {
  import opened Wrappers
  import opened Arithmetic
  import opened TaskGraph
  import opened Scheduler
  import opened SchedulerSafety
  import opened SchedulerTheorems

  // ----- Runs one step at a time from the end -----

  lemma {:induction false} RunSplit(plan: Plan, s: State, steps: seq<Step>, last: Step)
    requires ValidRun(plan, s, steps + [last])
    ensures ValidRun(plan, s, steps) && Enabled(plan, After(plan, s, steps), last)
    ensures After(plan, s, steps + [last]) == Next(plan, After(plan, s, steps), last)
    decreases |steps|
  {
    var all := steps + [last];
    if steps == [] {
      assert all[1..] == [];
    } else {
      assert all[1..] == steps[1..] + [last];
      RunSplit(plan, Next(plan, s, steps[0]), steps[1..], last);
    }
  }

  // ----- What the steps of a run say of one task -----

  /** How a runner's end becomes the end of its task. */
  function OutcomeOf(plan: Plan, n: string, result: RunResult): Outcome
    requires n in plan.table
  {
    match result
    case RunValue(v) => Value(v)
    case RunError => if plan.table[n].continueOnError then ReturnedError else Raised
    case RunCancelled => Cancelled
  }

  function StatusOf(result: RunResult): Status {
    match result case RunValue(_) => Completed case RunError => Failed case RunCancelled => WasCancelled
  }

  ghost predicate Ran(steps: seq<Step>, n: string) {
    exists r :: Finish(n, r) in steps
  }

  /** A dependency's end that lets the task go on. */
  ghost predicate Passes(plan: Plan, n: string, o: Outcome)
    requires n in plan.table
  {
    !o.Cancelled? && (o.Raised? ==> plan.table[n].continueOnError)
  }

  /** The i-th dependency, the first that does not let the task go on, ended it this way. */
  ghost predicate StoppedAt(plan: Plan, s: State, n: string, i: nat, o: Outcome)
    requires n in plan.table
  {
    var deps := plan.table[n].dependencies;
    && i < |deps|
    && (forall j | 0 <= j <= i :: deps[j] in s.nodes && s.nodes[deps[j]].phase.Done?)
    && (forall j | 0 <= j < i :: Passes(plan, n, s.nodes[deps[j]].phase.outcome))
    && !Passes(plan, n, s.nodes[deps[i]].phase.outcome)
    && o == s.nodes[deps[i]].phase.outcome
  }

  /** The task has ended, or is about to, as its runner did, unless a cancellation was delivered to it; a task that never
      ran was cancelled or stopped by a dependency. */
  ghost predicate EndTold(plan: Plan, steps: seq<Step>, s: State, n: string, o: Outcome)
    requires n in plan.table
  {
    if Deliver(n) in steps then o == Cancelled
    else (forall r | Finish(n, r) in steps :: o == OutcomeOf(plan, n, r))
         && (!Ran(steps, n) ==> exists i :: StoppedAt(plan, s, n, i, o))
  }

  ghost predicate PhaseTold(plan: Plan, steps: seq<Step>, s: State, n: string)
    requires n in plan.table && n in s.nodes
  {
    match s.nodes[n].phase
    case Done(o) => EndTold(plan, steps, s, n, o)
    case Finishing(o) => EndTold(plan, steps, s, n, o) && (Ran(steps, n) <==> Deliver(n) !in steps)
    case _ => !Ran(steps, n) && Deliver(n) !in steps
  }

  ghost predicate ResultTold(plan: Plan, steps: seq<Step>, s: State, n: string)
    requires n in plan.table
  {
    && (forall r | Finish(n, r) in steps ::
          var o := OutcomeOf(plan, n, r);
          && (n in s.results <==> Succeeded(o))
          && (Succeeded(o) ==> s.results[n] == DeliveryOf(o)))
    && (!Ran(steps, n) ==> n !in s.results)
  }

  ghost predicate StatusTold(steps: seq<Step>, s: State, n: string)
    requires n in s.nodes
  {
    && (forall r | Finish(n, r) in steps :: s.nodes[n].status == StatusOf(r))
    && (!Ran(steps, n) ==>
          s.nodes[n].status == if Launch(n) !in steps then Pending
                               else if Deliver(n) in steps then WasCancelled else InProgress)
    && (s.nodes[n].phase.Awaiting? ==> Launch(n) !in steps)
    && (Launched(s.nodes[n].phase) || s.nodes[n].phase.Finishing? || Ran(steps, n) ==> Launch(n) in steps)
  }

  ghost predicate Told(plan: Plan, steps: seq<Step>, s: State, n: string)
    requires n in plan.table && n in s.nodes
  {
    PhaseTold(plan, steps, s, n) && ResultTold(plan, steps, s, n) && StatusTold(steps, s, n)
  }

  // ----- Each step keeps it -----

  lemma StoppedStays(plan: Plan, s: State, t: State, n: string, i: nat, o: Outcome)
    requires n in plan.table && KeepsDone(s, t) && StoppedAt(plan, s, n, i, o)
    ensures StoppedAt(plan, t, n, i, o)
  {}

  lemma RanMore(steps: seq<Step>, last: Step, n: string)
    ensures Ran(steps + [last], n) <==> Ran(steps, n) || (last.Finish? && last.n == n)
  {
    if Ran(steps, n) {
      var r :| Finish(n, r) in steps;
      assert Finish(n, r) in steps + [last];
    }
    if last.Finish? && last.n == n { assert last in steps + [last]; }
  }

  lemma OthersEnd(plan: Plan, steps: seq<Step>, s: State, t: State, last: Step, n: string, o: Outcome)
    requires n in plan.table && KeepsDone(s, t) && EndTold(plan, steps, s, n, o)
    requires (last.Finish? || last.Deliver?) ==> last.n != n
    ensures EndTold(plan, steps + [last], t, n, o)
  {
    RanMore(steps, last, n);
    if Deliver(n) !in steps && !Ran(steps, n) {
      var i :| StoppedAt(plan, s, n, i, o);
      StoppedStays(plan, s, t, n, i, o);
    }
  }

  /** A task that the step does not move. */
  lemma OthersTold(plan: Plan, steps: seq<Step>, s: State, last: Step, n: string)
    requires Shape(plan, s) && Enabled(plan, s, last) && Mover(last) != Some(n)
    requires n in plan.table && n in s.nodes && Told(plan, steps, s, n)
    ensures n in Next(plan, s, last).nodes && Told(plan, steps + [last], Next(plan, s, last), n)
  {
    var t := Next(plan, s, last);
    StepFrame(plan, s, last);
    RanMore(steps, last, n);
    OthersResults(plan, s, last, n);
    StepKeepsDone(plan, s, last);
    match s.nodes[n].phase
    case Done(o) => OthersEnd(plan, steps, s, t, last, n, o);
    case Finishing(o) => OthersEnd(plan, steps, s, t, last, n, o);
    case _ =>
  }

  lemma OthersResults(plan: Plan, s: State, last: Step, n: string)
    requires Shape(plan, s) && Enabled(plan, s, last) && Mover(last) != Some(n)
    ensures n in Next(plan, s, last).results <==> n in s.results
    ensures n in s.results ==> Next(plan, s, last).results[n] == s.results[n]
  {
    match last
    case Finish(m, result) =>
    case Deliver(m) => assert ReleaseBoth(plan, s, m).results == s.results;
    case _ =>
  }

  /** What the moving task looks like after its step. */
  lemma AdvanceChanges(plan: Plan, s: State, n: string)
    requires Shape(plan, s) && Enabled(plan, s, Advance(n))
    ensures var t, d := DoAdvance(plan, s, n), plan.table[n].dependencies[s.nodes[n].phase.next];
            && n in t.nodes && d in t.nodes && t.results == s.results && t.nodes[n].status == s.nodes[n].status
            && (if Passes(plan, n, s.nodes[d].phase.outcome) then t.nodes[n].phase == Awaiting(s.nodes[n].phase.next + 1)
                else t.nodes[n].phase == Done(s.nodes[d].phase.outcome))
  {}

  lemma FinishChanges(plan: Plan, s: State, n: string, result: RunResult)
    requires Shape(plan, s) && Enabled(plan, s, Finish(n, result))
    ensures var t, o := DoFinish(plan, s, n, result), OutcomeOf(plan, n, result);
            && n in t.nodes && t.nodes[n].phase == Finishing(o) && t.nodes[n].status == StatusOf(result)
            && t.results == if Succeeded(o) then s.results[n := DeliveryOf(o)] else s.results
  {
    assert ReleaseBoth(plan, s, n).results == s.results;
  }

  lemma DeliverChanges(plan: Plan, s: State, n: string)
    requires Shape(plan, s) && Enabled(plan, s, Deliver(n))
    ensures var t, a := DoDeliver(plan, s, n), s.nodes[n];
            && n in t.nodes && t.results == s.results
            && t.nodes[n].phase == (if Launched(a.phase) then Finishing(Cancelled) else Done(Cancelled))
            && t.nodes[n].status == if Launched(a.phase) then WasCancelled else a.status
  {
    assert ReleaseBoth(plan, s, n).results == s.results;
  }

  lemma AdvanceStops(plan: Plan, s: State, t: State, n: string, d: string)
    requires n in plan.table && n in s.nodes && s.nodes[n].phase.Awaiting? && NodeSettled(plan, s, n)
    requires s.nodes[n].phase.next < |plan.table[n].dependencies|
             && d == plan.table[n].dependencies[s.nodes[n].phase.next]
    requires d in s.nodes && s.nodes[d].phase.Done? && !Passes(plan, n, s.nodes[d].phase.outcome) && KeepsDone(s, t)
    ensures StoppedAt(plan, t, n, s.nodes[n].phase.next, s.nodes[d].phase.outcome)
  {
    var i, deps := s.nodes[n].phase.next, plan.table[n].dependencies;
    forall j | 0 <= j < i
      ensures deps[j] in t.nodes && t.nodes[deps[j]].phase.Done? && Passes(plan, n, t.nodes[deps[j]].phase.outcome)
    {
      assert Settled(plan, s, n, deps[j]);
    }
  }

  lemma AdvanceTold(plan: Plan, steps: seq<Step>, s: State, n: string)
    requires Shape(plan, s) && n in plan.table && n in s.nodes && NodeSettled(plan, s, n)
    requires Enabled(plan, s, Advance(n)) && Told(plan, steps, s, n) && KeepsDone(s, DoAdvance(plan, s, n))
    ensures n in DoAdvance(plan, s, n).nodes && Told(plan, steps + [Advance(n)], DoAdvance(plan, s, n), n)
  {
    var t, d := DoAdvance(plan, s, n), plan.table[n].dependencies[s.nodes[n].phase.next];
    RanMore(steps, Advance(n), n);
    AdvanceChanges(plan, s, n);
    if !Passes(plan, n, s.nodes[d].phase.outcome) { AdvanceStops(plan, s, t, n, d); }
    ToldOfAwaiting(plan, steps, s, t, n);
  }

  lemma ToldOfAwaiting(plan: Plan, steps: seq<Step>, s: State, t: State, n: string)
    requires n in plan.table && n in s.nodes && n in t.nodes && Told(plan, steps, s, n) && s.nodes[n].phase.Awaiting?
    requires t.results == s.results && t.nodes[n].status == s.nodes[n].status
    requires t.nodes[n].phase.Awaiting? || (t.nodes[n].phase.Done? && exists i :: StoppedAt(plan, t, n, i, t.nodes[n].phase.outcome))
    ensures Told(plan, steps + [Advance(n)], t, n)
  {
    RanMore(steps, Advance(n), n);
  }

  lemma FinishTold(plan: Plan, steps: seq<Step>, s: State, t: State, n: string, result: RunResult)
    requires n in plan.table && n in s.nodes && n in t.nodes && Told(plan, steps, s, n) && s.nodes[n].phase.Running?
    requires var o := OutcomeOf(plan, n, result);
             && t.nodes[n].phase == Finishing(o) && t.nodes[n].status == StatusOf(result)
             && t.results == if Succeeded(o) then s.results[n := DeliveryOf(o)] else s.results
    ensures Told(plan, steps + [Finish(n, result)], t, n)
  {
    RanMore(steps, Finish(n, result), n);
  }

  lemma DeliverTold(plan: Plan, steps: seq<Step>, s: State, t: State, n: string)
    requires n in plan.table && n in s.nodes && n in t.nodes && Told(plan, steps, s, n) && t.results == s.results
    requires !s.nodes[n].phase.Done?
    requires t.nodes[n].phase == if Launched(s.nodes[n].phase) then Finishing(Cancelled) else Done(Cancelled)
    requires t.nodes[n].status == if Launched(s.nodes[n].phase) then WasCancelled else s.nodes[n].status
    ensures Told(plan, steps + [Deliver(n)], t, n)
  {
    RanMore(steps, Deliver(n), n);
    assert Deliver(n) in steps + [Deliver(n)];
  }

  /** Launching, taking a slot and leaving the `finally` block. */
  lemma OtherwiseTold(plan: Plan, steps: seq<Step>, s: State, last: Step, n: string)
    requires Shape(plan, s) && Enabled(plan, s, last) && n in s.nodes && Told(plan, steps, s, n)
    requires last in {Launch(n), TakeGlobal(n), TakeTool(n), Account(n)}
    ensures n in Next(plan, s, last).nodes && Told(plan, steps + [last], Next(plan, s, last), n)
  {
    RanMore(steps, last, n);
    assert last in steps + [last];
    if last.Account? { AccountTold(plan, steps, s, Next(plan, s, last), n); }
  }

  lemma AccountTold(plan: Plan, steps: seq<Step>, s: State, t: State, n: string)
    requires n in plan.table && n in s.nodes && n in t.nodes && Told(plan, steps, s, n) && t.results == s.results
    requires s.nodes[n].phase.Finishing? && t.nodes[n].phase == Done(s.nodes[n].phase.outcome)
    requires t.nodes[n].status == s.nodes[n].status
    ensures Told(plan, steps + [Account(n)], t, n)
  {
    RanMore(steps, Account(n), n);
  }

  lemma MoverTold(plan: Plan, steps: seq<Step>, s: State, last: Step, n: string)
    requires Shape(plan, s) && Enabled(plan, s, last) && Mover(last) == Some(n) && n in plan.table && n in s.nodes
    requires NodeSettled(plan, s, n) && Told(plan, steps, s, n) && KeepsDone(s, Next(plan, s, last))
    ensures n in Next(plan, s, last).nodes && Told(plan, steps + [last], Next(plan, s, last), n)
  {
    match last
    case Advance(_) => AdvanceTold(plan, steps, s, n);
    case Finish(_, result) =>
      FinishChanges(plan, s, n, result);
      FinishTold(plan, steps, s, DoFinish(plan, s, n, result), n, result);
    case Deliver(_) =>
      DeliverChanges(plan, s, n);
      DeliverTold(plan, steps, s, DoDeliver(plan, s, n), n);
    case _ => OtherwiseTold(plan, steps, s, last, n);
  }

  lemma StepKeepsDone(plan: Plan, s: State, last: Step)
    requires Shape(plan, s) && Enabled(plan, s, last)
    ensures KeepsDone(s, Next(plan, s, last))
  {
    forall d | d in s.nodes && s.nodes[d].phase.Done?
      ensures d in Next(plan, s, last).nodes && Next(plan, s, last).nodes[d] == s.nodes[d]
    {
      DoneStays(plan, s, last, d);
    }
  }

  ghost predicate AllTold(plan: Plan, steps: seq<Step>, s: State) {
    Shape(plan, s) && forall n | n in plan.table :: Told(plan, steps, s, n)
  }

  lemma StepTold(plan: Plan, steps: seq<Step>, s: State, last: Step)
    requires Shape(plan, s) && DependenciesSettled(plan, s) && Enabled(plan, s, last) && AllTold(plan, steps, s)
    ensures AllTold(plan, steps + [last], Next(plan, s, last))
  {
    StepFrame(plan, s, last);
    StepKeepsDone(plan, s, last);
    forall n | n in plan.table ensures Told(plan, steps + [last], Next(plan, s, last), n) {
      if Mover(last) == Some(n) { MoverTold(plan, steps, s, last, n); } else { OthersTold(plan, steps, s, last, n); }
    }
  }

  lemma RunHolds(plan: Plan, steps: seq<Step>)
    requires ValidPlan(plan) && ValidRun(plan, Init(plan), steps)
    ensures Inv(plan, After(plan, Init(plan), steps))
  {
    InitInv(plan);
    RunInv(plan, Init(plan), steps);
  }

  lemma NothingTold(plan: Plan)
    ensures AllTold(plan, [], Init(plan))
  {}

  lemma {:induction false} RunTold(plan: Plan, steps: seq<Step>)
    requires ValidPlan(plan) && ValidRun(plan, Init(plan), steps)
    ensures AllTold(plan, steps, After(plan, Init(plan), steps))
    decreases |steps|
  {
    if steps == [] {
      NothingTold(plan);
    } else {
      var front, last := steps[..|steps| - 1], steps[|steps| - 1];
      assert steps == front + [last];
      RunSplit(plan, Init(plan), front, last);
      RunTold(plan, front);
      RunHolds(plan, front);
      StepTold(plan, front, After(plan, Init(plan), front), last);
    }
  }

  /** In every interleaving a finished task ended as its runner did (its exception returned exactly under
      continue-on-error, else raised), unless a cancellation was delivered to it, or, if it never ran, as its first
      dependency that does not let it go on. */
  lemma OutcomeDecided(plan: Plan, steps: seq<Step>, n: string)
    requires ValidPlan(plan) && ValidRun(plan, Init(plan), steps) && n in plan.table
    requires n in After(plan, Init(plan), steps).nodes && After(plan, Init(plan), steps).nodes[n].phase.Done?
    ensures var s := After(plan, Init(plan), steps); EndTold(plan, steps, s, n, s.nodes[n].phase.outcome)
  {
    RunTold(plan, steps);
    assert Told(plan, steps, After(plan, Init(plan), steps), n);
  }

  /** In every interleaving a task has a stored result exactly when its runner returned a value, or failed under
      continue-on-error, and its status says how far it came and how its runner ended. */
  lemma ResultsAndStatus(plan: Plan, steps: seq<Step>, n: string)
    requires ValidPlan(plan) && ValidRun(plan, Init(plan), steps) && n in plan.table
    ensures n in After(plan, Init(plan), steps).nodes
    ensures ResultTold(plan, steps, After(plan, Init(plan), steps), n)
            && StatusTold(steps, After(plan, Init(plan), steps), n)
  {
    RunTold(plan, steps);
    assert Told(plan, steps, After(plan, Init(plan), steps), n);
  }

  // ----- How `execute` ends -----

  /** Neither `execute` nor a runner is cancelled. */
  ghost predicate NoCancel(steps: seq<Step>) {
    forall step | step in steps :: !Cancels(step)
  }

  predicate Cancels(step: Step) {
    step.CancelMain? || (step.Finish? && step.result.RunCancelled?)
  }

  lemma NoCancelFront(front: seq<Step>, last: Step)
    requires NoCancel(front + [last])
    ensures NoCancel(front) && !Cancels(last)
  {
    assert last in front + [last];
    forall step | step in front ensures !Cancels(step) { assert step in front + [last]; }
  }

  /** Some runner failed whose task does not continue on error. */
  ghost predicate Failure(plan: Plan, steps: seq<Step>) {
    exists n | n in plan.table :: Finish(n, RunError) in steps && !plan.table[n].continueOnError
  }

  /** Without a cancellation: nothing is cancelled while gathering, and whatever raised goes back to a failure. */
  ghost predicate Calm(plan: Plan, steps: seq<Step>, s: State) {
    && (s.main.Gathering? || s.main == Finished(Returned) || (Failure(plan, steps)
       && s.main in {Unwinding(false), Finished(RaisedFailure)}))
    && (s.main.Gathering? || s.main == Finished(Returned) ==> forall n | n in s.nodes :: Uncancelled(s.nodes[n].phase))
    && (forall n | n in s.nodes && RaisedIn(s.nodes[n].phase) :: Failure(plan, steps))
  }

  predicate Uncancelled(phase: Phase) {
    phase.Finishing? || phase.Done? ==> !phase.outcome.Cancelled?
  }

  predicate RaisedIn(phase: Phase) {
    (phase.Finishing? || phase.Done?) && phase.outcome.Raised?
  }

  lemma FailureStays(plan: Plan, steps: seq<Step>, last: Step)
    requires Failure(plan, steps)
    ensures Failure(plan, steps + [last])
  {
    var n :| n in plan.table && Finish(n, RunError) in steps && !plan.table[n].continueOnError;
    assert Finish(n, RunError) in steps + [last];
  }

  /** How a step without a cancellation ends the task it moves. */
  lemma NodeCalm(plan: Plan, s: State, last: Step, n: string)
    requires Shape(plan, s) && Enabled(plan, s, last) && !Cancels(last)
    requires Mover(last) == Some(n) && n in s.nodes && n in Next(plan, s, last).nodes
    requires forall m | m in s.nodes :: Uncancelled(s.nodes[m].phase)
    requires !last.Deliver?
    ensures Uncancelled(Next(plan, s, last).nodes[n].phase)
  {}

  lemma NodeRaises(plan: Plan, s: State, last: Step, n: string)
    requires Shape(plan, s) && Enabled(plan, s, last) && Mover(last) == Some(n) && n in s.nodes
             && n in Next(plan, s, last).nodes
    requires RaisedIn(Next(plan, s, last).nodes[n].phase)
    ensures (last == Finish(n, RunError) && n in plan.table && !plan.table[n].continueOnError) || exists m | m in s.nodes :: RaisedIn(s.nodes[m].phase)
  {}

  lemma StepCalm(plan: Plan, steps: seq<Step>, s: State, last: Step)
    requires Shape(plan, s) && Enabled(plan, s, last) && Calm(plan, steps, s)
    requires !Cancels(last)
    ensures Calm(plan, steps + [last], Next(plan, s, last))
  {
    StepFrame(plan, s, last);
    MainMoves(plan, s, last);
    if Failure(plan, steps) { FailureStays(plan, steps, last); }
    if Mover(last).Some? {
      MoverCalm(plan, steps, s, last, Mover(last).value);
    } else if last.Observe? {
      assert Uncancelled(s.nodes[last.n].phase) && RaisedIn(s.nodes[last.n].phase);
    }
  }

  lemma MoverCalm(plan: Plan, steps: seq<Step>, s: State, last: Step, n: string)
    requires Shape(plan, s) && Enabled(plan, s, last) && Calm(plan, steps, s) && Mover(last) == Some(n)
    requires !Cancels(last) && n in s.nodes && TouchesOnly(s, Next(plan, s, last), n)
    requires Next(plan, s, last).main == s.main && (Failure(plan, steps) ==> Failure(plan, steps + [last]))
    ensures Calm(plan, steps + [last], Next(plan, s, last))
  {
    var t := Next(plan, s, last);
    if s.main.Gathering? || s.main == Finished(Returned) { NodeCalm(plan, s, last, n); }
    if RaisedIn(t.nodes[n].phase) {
      NodeRaises(plan, s, last, n);
      assert last in steps + [last];
    }
  }

  lemma StartsCalm(plan: Plan)
    ensures Calm(plan, [], Init(plan))
  {}

  lemma {:induction false} RunCalm(plan: Plan, steps: seq<Step>)
    requires ValidPlan(plan) && ValidRun(plan, Init(plan), steps) && NoCancel(steps)
    ensures Calm(plan, steps, After(plan, Init(plan), steps))
    decreases |steps|
  {
    if steps == [] {
      StartsCalm(plan);
    } else {
      var front, last := steps[..|steps| - 1], steps[|steps| - 1];
      assert steps == front + [last];
      RunSplit(plan, Init(plan), front, last);
      NoCancelFront(front, last);
      RunCalm(plan, front);
      RunHolds(plan, front);
      StepCalm(plan, front, After(plan, Init(plan), front), last);
    }
  }

  lemma ReturnedWithoutFailure(plan: Plan, steps: seq<Step>, s: State)
    requires AllTold(plan, steps, s) && MainPhase(plan, s) && s.main == Finished(Returned)
    ensures !Failure(plan, steps)
  {
    forall n | n in plan.table && Finish(n, RunError) in steps ensures plan.table[n].continueOnError {
      assert Told(plan, steps, s, n);
    }
  }

  /** A run without a cancellation that has come to its end returned, or raised a failure exactly when some runner failed
      whose task does not continue on error. */
  lemma EndsExactly(plan: Plan, steps: seq<Step>)
    requires ValidPlan(plan) && ValidRun(plan, Init(plan), steps) && NoCancel(steps)
    requires Stuck(plan, After(plan, Init(plan), steps))
    ensures After(plan, Init(plan), steps).main == Finished(if Failure(plan, steps) then RaisedFailure else Returned)
  {
    var s := After(plan, Init(plan), steps);
    RunCalm(plan, steps);
    RunHolds(plan, steps);
    RunTold(plan, steps);
    StuckMeansEnded(plan, s);
    if s.main == Finished(Returned) { ReturnedWithoutFailure(plan, steps, s); }
  }

  /** When every task continues on error, no task of a run without a cancellation is ever cancelled or raises, and `execute`
      gathers until it returns. */
  lemma NothingIsLost(plan: Plan, steps: seq<Step>, n: string)
    requires ValidPlan(plan) && ValidRun(plan, Init(plan), steps) && NoCancel(steps) && n in plan.table
    requires forall m | m in plan.table :: plan.table[m].continueOnError
    ensures After(plan, Init(plan), steps).main in {Gathering, Finished(Returned)}
    ensures n in After(plan, Init(plan), steps).nodes
    ensures var phase := After(plan, Init(plan), steps).nodes[n].phase; phase.Finishing? || phase.Done? ==> Succeeded(phase.outcome)
  {
    RunCalm(plan, steps);
    RunHolds(plan, steps);
    assert !Failure(plan, steps);
  }

  // ----- First come, first served -----

  /** The first step was taken before the second. */
  ghost predicate Before(steps: seq<Step>, first: Step, second: Step) {
    exists i, j | 0 <= i < j < |steps| :: steps[i] == first && steps[j] == second
  }

  /** The step with which a task joins the queue for the global slots, or for its tool's. */
  function Joins(forTool: bool, n: string): Step {
    if forTool then TakeGlobal(n) else Launch(n)
  }

  /** The tasks joined the queue in its order. */
  ghost predicate Ordered(steps: seq<Step>, forTool: bool, waiters: seq<string>) {
    && (forall p | 0 <= p < |waiters| :: Joins(forTool, waiters[p]) in steps)
    && (forall p, q | 0 <= p < q < |waiters| :: Before(steps, Joins(forTool, waiters[p]), Joins(forTool, waiters[q])))
  }

  lemma BeforeStays(steps: seq<Step>, last: Step, first: Step, second: Step)
    requires Before(steps, first, second)
    ensures Before(steps + [last], first, second)
  {
    var i, j :| 0 <= i < j < |steps| && steps[i] == first && steps[j] == second;
    assert (steps + [last])[i] == first && (steps + [last])[j] == second;
  }

  lemma BeforeLast(steps: seq<Step>, last: Step, first: Step)
    requires first in steps
    ensures Before(steps + [last], first, last)
  {
    var i :| 0 <= i < |steps| && steps[i] == first;
    assert (steps + [last])[i] == first && (steps + [last])[|steps|] == last;
  }

  lemma OrderedStays(steps: seq<Step>, last: Step, forTool: bool, waiters: seq<string>)
    requires Ordered(steps, forTool, waiters)
    ensures Ordered(steps + [last], forTool, waiters)
  {
    forall p, q | 0 <= p < q < |waiters|
      ensures Before(steps + [last], Joins(forTool, waiters[p]), Joins(forTool, waiters[q]))
    {
      BeforeStays(steps, last, Joins(forTool, waiters[p]), Joins(forTool, waiters[q]));
    }
  }

  lemma OrderedJoined(steps: seq<Step>, forTool: bool, waiters: seq<string>, n: string)
    requires Ordered(steps, forTool, waiters)
    ensures Ordered(steps + [Joins(forTool, n)], forTool, waiters + [n])
  {
    var last, longer := Joins(forTool, n), waiters + [n];
    OrderedStays(steps, last, forTool, waiters);
    forall p, q | 0 <= p < q < |longer| ensures Before(steps + [last], Joins(forTool, longer[p]), Joins(forTool, longer[q])) {
      if q == |waiters| { BeforeLast(steps, last, Joins(forTool, waiters[p])); }
    }
  }

  lemma OrderedRest(steps: seq<Step>, forTool: bool, waiters: seq<string>)
    requires waiters != [] && Ordered(steps, forTool, waiters)
    ensures Ordered(steps, forTool, waiters[1..]) && Joins(forTool, waiters[0]) in steps
    ensures forall m | m in waiters[1..] :: Before(steps, Joins(forTool, waiters[0]), Joins(forTool, m))
  {
    forall p, q | 0 <= p < q < |waiters[1..]|
      ensures Before(steps, Joins(forTool, waiters[1..][p]), Joins(forTool, waiters[1..][q]))
    {
      assert Before(steps, Joins(forTool, waiters[p + 1]), Joins(forTool, waiters[q + 1]));
    }
    forall m | m in waiters[1..] ensures Before(steps, Joins(forTool, waiters[0]), Joins(forTool, m)) {
      var q :| 0 <= q < |waiters[1..]| && waiters[1..][q] == m;
      assert Before(steps, Joins(forTool, waiters[0]), Joins(forTool, waiters[q + 1]));
    }
  }

  lemma OrderedFirst(steps: seq<Step>, forTool: bool, first: string, rest: seq<string>)
    requires Ordered(steps, forTool, rest) && Joins(forTool, first) in steps
    requires forall m | m in rest :: Before(steps, Joins(forTool, first), Joins(forTool, m))
    ensures Ordered(steps, forTool, [first] + rest)
  {
    var all := [first] + rest;
    forall p, q | 0 <= p < q < |all| ensures Before(steps, Joins(forTool, all[p]), Joins(forTool, all[q])) {
      assert all[q] == rest[q - 1] && (p > 0 ==> all[p] == rest[p - 1]);
    }
  }

  /** Leaving a queue keeps the order of the others. */
  lemma {:induction false} OrderedWithout(steps: seq<Step>, forTool: bool, waiters: seq<string>, n: string)
    requires Ordered(steps, forTool, waiters)
    ensures Ordered(steps, forTool, Without(waiters, n))
    ensures forall m | m in Without(waiters, n) :: m in waiters
  {
    if waiters != [] {
      OrderedRest(steps, forTool, waiters);
      OrderedWithout(steps, forTool, waiters[1..], n);
      if waiters[0] != n { OrderedFirst(steps, forTool, waiters[0], Without(waiters[1..], n)); }
    }
  }

  /** One step joins the queue at its back, takes its first task, or lets a cancelled one leave. */
  ghost predicate QueueMoves(last: Step, forTool: bool, before: seq<string>, after: seq<string>) {
    || after == before
    || (exists n :: after == before + [n] && last == Joins(forTool, n))
    || (before != [] && after == before[1..])
    || (exists n :: after == Without(before, n))
  }

  lemma QueueStaysOrdered(steps: seq<Step>, last: Step, forTool: bool, before: seq<string>, after: seq<string>)
    requires Ordered(steps, forTool, before) && QueueMoves(last, forTool, before, after)
    ensures Ordered(steps + [last], forTool, after)
  {
    OrderedStays(steps, last, forTool, before);
    if n :| after == before + [n] && last == Joins(forTool, n) {
      OrderedJoined(steps, forTool, before, n);
    } else if n :| after == Without(before, n) {
      OrderedWithout(steps + [last], forTool, before, n);
    } else if before != [] {
      OrderedRest(steps + [last], forTool, before);
    }
  }

  lemma GlobalQueueMoves(plan: Plan, s: State, last: Step)
    requires Enabled(plan, s, last)
    ensures QueueMoves(last, false, s.global.waiters, Next(plan, s, last).global.waiters)
  {
    match last
    case Launch(n) => assert last == Joins(false, n);
    case TakeGlobal(n) =>
    case Deliver(n) =>
    case _ => assert Next(plan, s, last).global.waiters == s.global.waiters;
  }

  lemma ToolQueueMoves(plan: Plan, s: State, last: Step, key: string)
    requires Enabled(plan, s, last)
    ensures QueueMoves(last, true, ToolSem(plan, s, key).waiters, ToolSem(plan, Next(plan, s, last), key).waiters)
  {
    match last
    case TakeGlobal(n) => assert last == Joins(true, n);
    case TakeTool(n) =>
    case Deliver(n) =>
    case _ => assert ToolSem(plan, Next(plan, s, last), key).waiters == ToolSem(plan, s, key).waiters;
  }

  ghost predicate Queues(plan: Plan, steps: seq<Step>, s: State) {
    && Ordered(steps, false, s.global.waiters)
    && forall key :: Ordered(steps, true, ToolSem(plan, s, key).waiters)
  }

  lemma StepQueues(plan: Plan, steps: seq<Step>, s: State, last: Step)
    requires Enabled(plan, s, last) && Queues(plan, steps, s)
    ensures Queues(plan, steps + [last], Next(plan, s, last))
  {
    var t := Next(plan, s, last);
    GlobalQueueMoves(plan, s, last);
    QueueStaysOrdered(steps, last, false, s.global.waiters, t.global.waiters);
    forall key ensures Ordered(steps + [last], true, ToolSem(plan, t, key).waiters) {
      ToolQueueMoves(plan, s, last, key);
      QueueStaysOrdered(steps, last, true, ToolSem(plan, s, key).waiters, ToolSem(plan, t, key).waiters);
    }
  }

  lemma {:induction false} RunQueues(plan: Plan, steps: seq<Step>)
    requires ValidPlan(plan) && ValidRun(plan, Init(plan), steps)
    ensures Queues(plan, steps, After(plan, Init(plan), steps))
    decreases |steps|
  {
    if steps != [] {
      var front, last := steps[..|steps| - 1], steps[|steps| - 1];
      assert front + [last] == steps;
      RunSplit(plan, Init(plan), front, last);
      RunQueues(plan, front);
      StepQueues(plan, front, After(plan, Init(plan), front), last);
    }
  }

  /** Of two tasks that wait for a global slot, or for one of the same tool, the one that can take it asked before the
      other. */
  ghost predicate ServedInTurn(plan: Plan, steps: seq<Step>, s: State, n: string, other: string)
    requires n in plan.table && other in plan.table && other in s.nodes
  {
    && (Enabled(plan, s, TakeGlobal(n)) && s.nodes[other].phase.WantsGlobal? ==> Before(steps, Launch(n), Launch(other)))
    && (Enabled(plan, s, TakeTool(n)) && s.nodes[other].phase.WantsTool? && ToolKey(plan, n) == ToolKey(plan, other) ==>
          Before(steps, TakeGlobal(n), TakeGlobal(other)))
  }

  /** In every interleaving slots are handed out in the order in which they were asked for. */
  lemma FirstComeFirstServed(plan: Plan, steps: seq<Step>, n: string, other: string)
    requires ValidPlan(plan) && ValidRun(plan, Init(plan), steps)
    requires n != other && n in plan.table && other in plan.table && other in After(plan, Init(plan), steps).nodes
    ensures ServedInTurn(plan, steps, After(plan, Init(plan), steps), n, other)
  {
    RunHolds(plan, steps);
    RunQueues(plan, steps);
    InTurn(plan, steps, After(plan, Init(plan), steps), n, other);
  }

  lemma InTurn(plan: Plan, steps: seq<Step>, s: State, n: string, other: string)
    requires Slots(plan, s) && Queues(plan, steps, s) && n != other
    requires n in plan.table && other in plan.table && other in s.nodes
    ensures ServedInTurn(plan, steps, s, n, other)
  {
    if Enabled(plan, s, TakeGlobal(n)) && s.nodes[other].phase.WantsGlobal? {
      HeadJoinedFirst(steps, false, s.global.waiters, n, other);
    }
    if Enabled(plan, s, TakeTool(n)) && s.nodes[other].phase.WantsTool? && ToolKey(plan, n) == ToolKey(plan, other) {
      ToolHeadJoinedFirst(plan, steps, s, n, other);
    }
  }

  lemma ToolHeadJoinedFirst(plan: Plan, steps: seq<Step>, s: State, n: string, other: string)
    requires Slots(plan, s) && Queues(plan, steps, s) && Enabled(plan, s, TakeTool(n)) && n != other
    requires other in s.nodes && other in plan.table && s.nodes[other].phase.WantsTool?
    requires ToolKey(plan, n) == ToolKey(plan, other)
    ensures Before(steps, TakeGlobal(n), TakeGlobal(other))
  {
    var key := ToolKey(plan, n);
    assert ToolSlots(plan, s, key) && Ordered(steps, true, ToolSem(plan, s, key).waiters);
    HeadJoinedFirst(steps, true, ToolSem(plan, s, key).waiters, n, other);
  }

  lemma HeadJoinedFirst(steps: seq<Step>, forTool: bool, waiters: seq<string>, n: string, other: string)
    requires Ordered(steps, forTool, waiters) && waiters != [] && waiters[0] == n && other in waiters && other != n
    ensures Before(steps, Joins(forTool, n), Joins(forTool, other))
  {
    var q :| 0 <= q < |waiters| && waiters[q] == other;
    assert Before(steps, Joins(forTool, waiters[0]), Joins(forTool, waiters[q]));
  }

  // ----- Limits and progress in plain terms -----

  /** A task counts under the tool it names, or under its own name when it names none. */
  ghost predicate CountsUnder(plan: Plan, n: string, tool: string) {
    n in plan.table
    && (plan.table[n].toolName == Some(tool) || (plan.table[n].toolName in {None, Some("")} && n == tool))
  }

  ghost predicate RunsUnder(plan: Plan, s: State, n: string, tool: string) {
    n in s.nodes && s.nodes[n].phase.Running? && CountsUnder(plan, n, tool)
  }

  /** In every interleaving: of any tasks running at once there are no more than the global limit, and of those running under
      one tool no more than that tool's limit, or the limit for every tool, or one. */
  lemma LimitsInPlainTerms(plan: Plan, s: State, tasks: set<string>, tool: string)
    requires ValidPlan(plan) && Reachable(plan, s)
    ensures (forall n | n in tasks :: n in s.nodes && s.nodes[n].phase.Running?) ==> |tasks| <= plan.globalCap
    ensures tool != "" && (forall n | n in tasks :: RunsUnder(plan, s, n, tool)) ==>
              && (tool in plan.toolCaps ==> |tasks| <= plan.toolCaps[tool])
              && (tool !in plan.toolCaps && "*" in plan.toolCaps ==> |tasks| <= plan.toolCaps["*"])
              && (tool !in plan.toolCaps && "*" !in plan.toolCaps ==> |tasks| <= 1)
  {
    CapsRespected(plan, s, tool);
    if forall n | n in tasks :: n in s.nodes && s.nodes[n].phase.Running? { SubsetSize(tasks, GlobalHolders(s)); }
    if tool != "" && forall n | n in tasks :: RunsUnder(plan, s, n, tool) { SubsetSize(tasks, ToolHolders(plan, s, tool)); }
  }

  /** The limit on a tool's runs. */
  ghost predicate IsLimit(plan: Plan, tool: string, limit: nat) {
    && (tool in plan.toolCaps ==> limit == plan.toolCaps[tool])
    && (tool !in plan.toolCaps ==> limit == if "*" in plan.toolCaps then plan.toolCaps["*"] else 1)
  }

  lemma HoldersRun(plan: Plan, s: State, tool: string)
    requires tool != ""
    ensures ToolHolders(plan, s, tool) == set m | m in s.nodes && RunsUnder(plan, s, m, tool)
  {
    forall m | m in s.nodes && m in plan.table
      ensures ToolKey(plan, m) == tool <==> CountsUnder(plan, m, tool) {}
  }

  lemma GlobalSlotUsed(plan: Plan, s: State, n: string)
    requires GlobalSlots(plan, s) && Shape(plan, s) && n in s.nodes && s.nodes[n].phase.WantsGlobal?
    requires s.global.value > 0
    ensures exists m :: Enabled(plan, s, TakeGlobal(m))
  {
    assert n in s.global.waiters;
    var m := s.global.waiters[0];
    assert m in s.global.waiters;
    assert Enabled(plan, s, TakeGlobal(m));
  }

  lemma ToolSlotUsed(plan: Plan, s: State, n: string, tool: string)
    requires ToolSlots(plan, s, tool) && Shape(plan, s) && n in s.nodes && s.nodes[n].phase.WantsTool?
    requires tool != "" && CountsUnder(plan, n, tool) && ToolSem(plan, s, tool).value > 0
    ensures exists m :: CountsUnder(plan, m, tool) && Enabled(plan, s, TakeTool(m))
  {
    var sem := ToolSem(plan, s, tool);
    assert n in sem.waiters;
    var m := sem.waiters[0];
    assert m in sem.waiters;
    assert CountsUnder(plan, m, tool) && Enabled(plan, s, TakeTool(m));
  }

  /** No slot is left idle: while a task waits for one, either some task takes one at once, or as many tasks hold one as the
      limit allows. */
  lemma SlotsAreUsed(plan: Plan, s: State, n: string, tool: string, limit: nat)
    requires ValidPlan(plan) && Reachable(plan, s) && n in s.nodes && IsLimit(plan, tool, limit)
    ensures s.nodes[n].phase.WantsGlobal? ==>
              (exists m :: Enabled(plan, s, TakeGlobal(m)))
              || |set m | m in s.nodes && (s.nodes[m].phase.WantsTool? || s.nodes[m].phase.Running?)| == plan.globalCap
    ensures s.nodes[n].phase.WantsTool? && tool != "" && CountsUnder(plan, n, tool) ==>
              (exists m :: CountsUnder(plan, m, tool) && Enabled(plan, s, TakeTool(m)))
              || |set m | m in s.nodes && RunsUnder(plan, s, m, tool)| == limit
  {
    ReachableInv(plan, s);
    if s.nodes[n].phase.WantsGlobal? && s.global.value > 0 { GlobalSlotUsed(plan, s, n); }
    if s.nodes[n].phase.WantsTool? && tool != "" && CountsUnder(plan, n, tool) {
      assert ToolSlots(plan, s, tool);
      HoldersRun(plan, s, tool);
      if ToolSem(plan, s, tool).value > 0 { ToolSlotUsed(plan, s, n, tool); }
    }
  }

  lemma SubsetSize(a: set<string>, b: set<string>)
    requires a <= b
    ensures |a| <= |b|
  {
    assert b == a + (b - a);
  }

  ghost predicate Hundredths(x: real) {
    (x * 100.0).Floor as real == x * 100.0
  }

  predicate Within(x: real, y: real, far: real) {
    y - far <= x <= y + far
  }

  /** The part is this much of the total in percent, to two digits. */
  ghost predicate IsPercentage(percent: real, part: real, total: real) {
    total > 0.0 && Hundredths(percent) && Within(percent, part / total * 100.0, 0.005)
  }

  /** The weight of all tasks together. */
  function AllWeight(plan: Plan): real {
    Sum(plan.order, n => if n in plan.table then plan.table[n].weight else 0.0)
  }

  /** The newest published number is the accounted part of the total weight in percent. */
  lemma ProgressIsPercentage(plan: Plan, s: State)
    requires ValidPlan(plan) && Reachable(plan, s) && s.progress != [] && plan.order != []
    ensures IsPercentage(s.progress[|s.progress| - 1], Sum(plan.order, AccountedWeight(plan, s)), AllWeight(plan))
  {
    ReachableInv(plan, s);
    TotalPositive(plan);
    AccountedBelow(plan, s);
    ProgressNearest(plan, s.completedWeight);
  }

  lemma ProgressNearest(plan: Plan, weight: real)
    requires 0.0 <= weight <= TotalWeight(plan) && TotalWeight(plan) > 0.0
    ensures IsPercentage(Progress(plan, weight), weight, TotalWeight(plan))
  {
    PercentNearest(weight, TotalWeight(plan));
  }

  lemma PercentNearest(part: real, total: real)
    requires 0.0 <= part <= total && total > 0.0
    ensures RoundTo(part / total * 100.0, 100) <= 100.0
    ensures IsPercentage(RoundTo(part / total * 100.0, 100), part, total)
  {
    DivMonotone(part, total, total);
    ShareNearest(part / total * 100.0);
  }

  lemma ShareNearest(share: real)
    requires share <= 100.0
    ensures RoundTo(share, 100) <= 100.0 && Hundredths(RoundTo(share, 100)) && Within(RoundTo(share, 100), share, 0.005)
  {
    RoundToNearest(share, 100);
    RoundToMonotone(share, 100.0, 100);
    RoundToInteger(100, 100);
  }

  lemma AccountedBelow(plan: Plan, s: State)
    requires ValidPlan(plan)
    ensures 0.0 <= Sum(plan.order, AccountedWeight(plan, s)) <= AllWeight(plan)
  {
    SumBounded(plan.order, AccountedWeight(plan, s), n => if n in plan.table then plan.table[n].weight else 0.0);
  }
}
