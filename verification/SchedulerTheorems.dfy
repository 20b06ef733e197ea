/** The guarantees of `TaskScheduler.execute` over all its runs. */
module SchedulerTheorems {
  import opened Arithmetic
  import opened Scheduler
  import opened SchedulerSafety

  ghost predicate Reachable(plan: Plan, s: State) {
    exists steps :: ValidRun(plan, Init(plan), steps) && After(plan, Init(plan), steps) == s
  }

  lemma ReachableInv(plan: Plan, s: State)
    requires ValidPlan(plan) && Reachable(plan, s)
    ensures Inv(plan, s)
  {
    var steps :| ValidRun(plan, Init(plan), steps) && After(plan, Init(plan), steps) == s;
    InitInv(plan);
    RunInv(plan, Init(plan), steps);
  }

  ghost predicate Started(s: State, n: string) {
    n in s.nodes && (Launched(s.nodes[n].phase) || s.nodes[n].phase.Finishing?)
  }

  /** A task past its dependency wait has every dependency finished and was handed exactly how each ended. */
  lemma DependenciesBeforeRunning(plan: Plan, s: State, n: string, d: string)
    requires ValidPlan(plan) && Reachable(plan, s) && n in plan.table
    requires Started(s, n) && d in plan.table[n].dependencies
    ensures d in s.nodes && s.nodes[d].phase.Done?
    ensures d in s.nodes[n].received && s.nodes[n].received[d] == DeliveryOf(s.nodes[d].phase.outcome)
    ensures s.nodes[n].received.Keys == set x | x in plan.table[n].dependencies
  {
    ReachableInv(plan, s);
    assert NodeSettled(plan, s, n);
    StartedIsSettled(plan, s, n);
  }

  lemma StartedIsSettled(plan: Plan, s: State, n: string)
    requires n in plan.table && Started(s, n) && NodeSettled(plan, s, n)
    ensures forall d | d in plan.table[n].dependencies :: Settled(plan, s, n, d)
    ensures s.nodes[n].received.Keys == set x | x in plan.table[n].dependencies
  {
    forall d | d in plan.table[n].dependencies ensures Settled(plan, s, n, d) {
      var i :| 0 <= i < |plan.table[n].dependencies| && plan.table[n].dependencies[i] == d;
    }
  }

  /** A task never gets past a dependency that was cancelled, nor, unless it continues on error, one that raised. */
  lemma FailureStopsDependents(plan: Plan, s: State, n: string, d: string)
    requires ValidPlan(plan) && Reachable(plan, s) && n in plan.table
    requires d in plan.table[n].dependencies && d in s.nodes && s.nodes[d].phase.Done?
    requires s.nodes[d].phase.outcome.Cancelled?
          || (s.nodes[d].phase.outcome.Raised? && !plan.table[n].continueOnError)
    ensures !Started(s, n) && n !in GlobalHolders(s)
    ensures n in s.nodes && (s.nodes[n].phase.Done? ==> !Succeeded(s.nodes[n].phase.outcome))
  {
    ReachableInv(plan, s);
    assert NodeSettled(plan, s, n);
    var i :| 0 <= i < |plan.table[n].dependencies| && plan.table[n].dependencies[i] == d;
    assert !Settled(plan, s, n, d);
  }

  /** Slot holders never exceed the global or the per-tool limit; a running task holds both slots. */
  lemma CapsRespected(plan: Plan, s: State, key: string)
    requires ValidPlan(plan) && Reachable(plan, s)
    ensures |GlobalHolders(s)| <= plan.globalCap
    ensures |ToolHolders(plan, s, key)| <= CapOf(plan, key)
    ensures ToolHolders(plan, s, key) <= GlobalHolders(s)
  {
    ReachableInv(plan, s);
    assert ToolSlots(plan, s, key);
  }

  // ----- No deadlock -----

  lemma NobodyHolds(plan: Plan, s: State, key: string)
    requires forall n | n in s.nodes :: !s.nodes[n].phase.Running?
    ensures ToolHolders(plan, s, key) == {}
  {
  }

  /** The first unfinished task in starting order has only finished dependencies. */
  lemma FirstUnfinished(plan: Plan, s: State) returns (n: string)
    requires ValidPlan(plan) && Shape(plan, s) && !AllDone(s)
    ensures n in plan.table && Unfinished(s, n)
    ensures forall d | d in plan.table[n].dependencies :: d in s.nodes && s.nodes[d].phase.Done?
  {
    var m :| m in s.nodes && !s.nodes[m].phase.Done?;
    var i :| 0 <= i < |plan.order| && plan.order[i] == m;
    var k := 0;
    while s.nodes[plan.order[k]].phase.Done?
      invariant 0 <= k <= i
      invariant forall j | 0 <= j < k :: plan.order[j] in s.nodes && s.nodes[plan.order[j]].phase.Done?
      decreases i - k
    {
      k := k + 1;
      assert plan.order[k] in plan.order;
    }
    n := plan.order[k];
    assert n in plan.order;
    forall d | d in plan.table[n].dependencies ensures d in s.nodes && s.nodes[d].phase.Done? {
      assert d in plan.order[..k];
    }
  }

  /** Until `execute` has ended some step other than an outside cancellation can be taken, whatever
      the nesting of slots, the queue order and the dependency waits. */
  lemma NoDeadlock(plan: Plan, s: State) returns (step: Step)
    requires ValidPlan(plan) && Inv(plan, s) && !s.main.Finished?
    ensures Enabled(plan, s, step) && !step.CancelMain?
  {
    if AllDone(s) {
      step := EndStep(plan, s);
    } else if n :| n in s.nodes && s.nodes[n].phase.Finishing? {
      step := Account(n);
    } else if n :| n in s.nodes && s.nodes[n].phase.Running? {
      step := Finish(n, RunError);
    } else if n :| n in s.nodes && s.nodes[n].phase.WantsTool? {
      step := HeadOfToolQueue(plan, s, n);
    } else if n :| n in s.nodes && s.nodes[n].phase.WantsGlobal? {
      step := HeadOfGlobalQueue(plan, s, n);
    } else {
      step := DependencyStep(plan, s);
    }
  }

  lemma EndStep(plan: Plan, s: State) returns (step: Step)
    requires AllDone(s) && !s.main.Finished?
    ensures Enabled(plan, s, step) && !step.CancelMain?
  {
    if s.main.Unwinding? {
      step := Settle;
    } else if n :| n in s.nodes && !Succeeded(s.nodes[n].phase.outcome) {
      step := Observe(n);
    } else {
      step := Return;
    }
  }

  /** With no slot held, whoever is first in the global queue can take one. */
  lemma HeadOfGlobalQueue(plan: Plan, s: State, n: string) returns (step: Step)
    requires ValidPlan(plan) && Shape(plan, s) && GlobalSlots(plan, s) && n in s.nodes && s.nodes[n].phase.WantsGlobal?
    requires forall m | m in s.nodes :: !s.nodes[m].phase.Running? && !s.nodes[m].phase.WantsTool?
    ensures Enabled(plan, s, step) && step.TakeGlobal?
  {
    assert GlobalHolders(s) == {};
    assert n in s.global.waiters;
    step := TakeGlobal(s.global.waiters[0]);
    assert s.global.waiters[0] in s.global.waiters;
  }

  /** When nothing is launched, the first unfinished task can await its next dependency or launch. */
  lemma DependencyStep(plan: Plan, s: State) returns (step: Step)
    requires ValidPlan(plan) && Shape(plan, s) && DependenciesSettled(plan, s) && !AllDone(s)
    requires forall m | m in s.nodes :: s.nodes[m].phase.Awaiting? || s.nodes[m].phase.Done?
    ensures Enabled(plan, s, step) && !step.CancelMain?
  {
    var n := FirstUnfinished(plan, s);
    assert NodeSettled(plan, s, n);
    step := if s.nodes[n].phase.next < |plan.table[n].dependencies| then Advance(n) else Launch(n);
    if step.Advance? {
      assert plan.table[n].dependencies[s.nodes[n].phase.next] in plan.table[n].dependencies;
    }
  }

  lemma HeadOfToolQueue(plan: Plan, s: State, n: string) returns (step: Step)
    requires ValidPlan(plan) && Inv(plan, s) && n in s.nodes && s.nodes[n].phase.WantsTool?
    requires forall m | m in s.nodes :: !s.nodes[m].phase.Running?
    ensures Enabled(plan, s, step) && step.TakeTool?
  {
    var key := ToolKey(plan, n);
    assert ToolSlots(plan, s, key);
    NobodyHolds(plan, s, key);
    var sem := ToolSem(plan, s, key);
    assert n in sem.waiters;
    var head := sem.waiters[0];
    assert head in sem.waiters;
    step := TakeTool(head);
  }

  // ----- Every run is finite -----

  function Remaining(plan: Plan, n: string, phase: Phase): real
    requires n in plan.table
  {
    match phase
    case Awaiting(i) => |plan.table[n].dependencies| as real - i as real + 6.0
    case WantsGlobal => 5.0
    case WantsTool => 4.0
    case Running => 3.0
    case Finishing(_) => 1.0
    case Done(_) => 0.0
  }

  function Work(plan: Plan, s: State): string -> real {
    n => if n in plan.table && n in s.nodes then Remaining(plan, n, s.nodes[n].phase) else 0.0
  }

  function MainWork(main: Main): real {
    match main case Gathering => 2.0 case Unwinding(_) => 1.0 case Finished(_) => 0.0
  }

  ghost function Measure(plan: Plan, s: State): real {
    Sum(plan.order, Work(plan, s)) + MainWork(s.main)
  }

  lemma MoverWorksOff(plan: Plan, s: State, t: State, n: string)
    requires n in plan.table && n in s.nodes && n in t.nodes && NodeSettled(plan, s, n) && Moved(plan, s, t, n)
    ensures Remaining(plan, n, t.nodes[n].phase) <= Remaining(plan, n, s.nodes[n].phase) - 1.0
  {
  }

  lemma StepWorksOff(plan: Plan, s: State, step: Step)
    requires ValidPlan(plan) && Inv(plan, s) && Enabled(plan, s, step)
    ensures Measure(plan, Next(plan, s, step)) <= Measure(plan, s) - 1.0
  {
    var t := Next(plan, s, step);
    StepFrame(plan, s, step);
    if Mover(step).Some? {
      var n := Mover(step).value;
      assert NodeSettled(plan, s, n);
      StepMoves(plan, s, step);
      MoverWorksOff(plan, s, t, n);
      MainMoves(plan, s, step);
      SumWorksOff(plan, s, t, n);
    } else {
      SumAgrees(plan.order, Work(plan, s), Work(plan, t));
      MainAdvances(plan, s, step);
    }
  }

  lemma SumWorksOff(plan: Plan, s: State, t: State, n: string)
    requires ValidPlan(plan) && Shape(plan, s) && n in plan.table && TouchesOnly(s, t, n)
    requires Remaining(plan, n, t.nodes[n].phase) <= Remaining(plan, n, s.nodes[n].phase) - 1.0
    ensures Sum(plan.order, Work(plan, t)) <= Sum(plan.order, Work(plan, s)) - 1.0
  {
    SumUpdate(plan.order, Work(plan, s), Work(plan, t), n);
  }

  lemma MainAdvances(plan: Plan, s: State, step: Step)
    requires Enabled(plan, s, step) && Mover(step).None?
    ensures MainWork(Next(plan, s, step).main) <= MainWork(s.main) - 1.0
  {
  }

  lemma MeasureNonNegative(plan: Plan, s: State)
    requires ValidPlan(plan) && Shape(plan, s) && DependenciesSettled(plan, s)
    ensures Measure(plan, s) >= 0.0
  {
    forall n | n in plan.order ensures 0.0 <= Work(plan, s)(n) {
      assert NodeSettled(plan, s, n);
    }
    SumBounded(plan.order, Work(plan, s), Work(plan, s));
  }

  lemma {:induction false} RunWorksOff(plan: Plan, s: State, steps: seq<Step>)
    requires ValidPlan(plan) && Inv(plan, s) && ValidRun(plan, s, steps)
    ensures |steps| as real <= Measure(plan, s)
    decreases |steps|
  {
    if steps == [] {
      MeasureNonNegative(plan, s);
    } else {
      StepInv(plan, s, steps[0]);
      StepWorksOff(plan, s, steps[0]);
      RunWorksOff(plan, Next(plan, s, steps[0]), steps[1..]);
    }
  }

  /** No run is longer than two steps plus, per task, six and its number of dependencies. */
  lemma RunsAreBounded(plan: Plan, steps: seq<Step>)
    requires ValidPlan(plan) && ValidRun(plan, Init(plan), steps)
    ensures |steps| as real
         <= 2.0 + Sum(plan.order, n => if n in plan.table then |plan.table[n].dependencies| as real + 6.0 else 0.0)
  {
    InitInv(plan);
    RunWorksOff(plan, Init(plan), steps);
    SumAgrees(plan.order, Work(plan, Init(plan)),
              n => if n in plan.table then |plan.table[n].dependencies| as real + 6.0 else 0.0);
  }

  // ----- How `execute` ends -----

  ghost predicate Stuck(plan: Plan, s: State) {
    forall step | Enabled(plan, s, step) :: step.CancelMain?
  }

  /** A run that cannot go on has ended `execute`; then every task is finished and every slot is free again. */
  lemma StuckMeansEnded(plan: Plan, s: State)
    requires ValidPlan(plan) && Reachable(plan, s)
    ensures Stuck(plan, s) <==> s.main.Finished?
    ensures s.main.Finished? ==> AllDone(s) && s.global == Semaphore(plan.globalCap, [])
    ensures s.main.Finished? ==> forall key :: ToolSem(plan, s, key) == Semaphore(CapOf(plan, key), [])
  {
    ReachableInv(plan, s);
    if !s.main.Finished? {
      var step := NoDeadlock(plan, s);
    } else {
      DoneFreesSlots(plan, s);
      EndedIsStuck(plan, s);
    }
  }

  lemma EndedIsStuck(plan: Plan, s: State)
    requires s.main.Finished? && AllDone(s)
    ensures Stuck(plan, s)
  {
  }

  lemma DoneFreesSlots(plan: Plan, s: State)
    requires Slots(plan, s) && AllDone(s)
    ensures s.global == Semaphore(plan.globalCap, [])
    ensures forall key :: ToolSem(plan, s, key) == Semaphore(CapOf(plan, key), [])
  {
    assert GlobalHolders(s) == {};
    assert forall n :: n !in s.global.waiters;
    EmptyQueue(s.global.waiters);
    forall key ensures ToolSem(plan, s, key) == Semaphore(CapOf(plan, key), []) {
      assert ToolSlots(plan, s, key);
      NobodyHolds(plan, s, key);
      EmptyQueue(ToolSem(plan, s, key).waiters);
    }
  }

  lemma EmptyQueue(waiters: seq<string>)
    ensures waiters == [] || waiters[0] in waiters
  {
  }

  /** Published progress stays in 0..100 and never goes back, in any run. */
  lemma ProgressNeverGoesBack(plan: Plan, s: State)
    requires ValidPlan(plan) && Reachable(plan, s)
    ensures forall i | 0 <= i < |s.progress| :: 0.0 <= s.progress[i] <= 100.0
    ensures forall i, j | 0 <= i < j < |s.progress| :: s.progress[i] <= s.progress[j]
  {
    ReachableInv(plan, s);
    SumBounded(plan.order, AccountedWeight(plan, s), AccountedWeight(plan, s));
    ProgressMonotone(plan, s.completedWeight, s.completedWeight);
  }

  /** On normal return every task has a result and is completed, or failed and set to continue on error,
      and the last published progress is 100. */
  lemma NormalReturn(plan: Plan, s: State)
    requires ValidPlan(plan) && Reachable(plan, s) && s.main == Finished(Returned)
    ensures s.results.Keys == plan.table.Keys
    ensures forall n | n in plan.table :: n in s.nodes && s.nodes[n].phase.Done? &&
              (|| (s.nodes[n].status.Completed? && s.nodes[n].phase.outcome.Value?
                   && s.results[n] == Got(s.nodes[n].phase.outcome.payload))
               || (s.nodes[n].status.Failed? && plan.table[n].continueOnError && s.results[n] == GotError))
    ensures plan.order != [] ==> s.progress != [] && s.progress[|s.progress| - 1] == 100.0
  {
    ReachableInv(plan, s);
    forall n | n in plan.table ensures n in s.results && s.nodes[n].accounted && NodeOutcome(plan, s, n) {
      assert NodeOutcome(plan, s, n);
    }
    var weights := n => if n in plan.table then plan.table[n].weight else 0.0;
    forall n | n in plan.order ensures AccountedWeight(plan, s)(n) == weights(n) {
      assert n in plan.table;
      assert NodeOutcome(plan, s, n);
    }
    SumAgrees(plan.order, AccountedWeight(plan, s), weights);
    if plan.order != [] {
      assert plan.order[0] in plan.order;
      TotalPositive(plan);
      assert s.completedWeight == TotalWeight(plan);
      FullProgress(plan);
    }
  }

  lemma FullProgress(plan: Plan)
    requires ValidPlan(plan)
    ensures Progress(plan, TotalWeight(plan)) == 100.0
  {
    TotalPositive(plan);
    assert TotalWeight(plan) / TotalWeight(plan) * 100.0 == 100 as real;
    RoundToInteger(100, 100);
  }
}
