/** What every interleaving of `TaskScheduler.execute` keeps, and why it always comes to an end. */
module SchedulerSafety {
  import opened Wrappers
  import opened Sorting
  import opened Arithmetic
  import opened TaskGraph
  import opened Scheduler

  // ----- The invariant -----

  ghost predicate Shape(plan: Plan, s: State) {
    s.nodes.Keys == plan.table.Keys
  }

  /** `d` is finished in a way that lets `n` go on, and `n` was handed what `d` ended with. */
  ghost predicate Settled(plan: Plan, s: State, n: string, d: string)
    requires n in plan.table && n in s.nodes
  {
    && d in s.nodes && s.nodes[d].phase.Done?
    && !s.nodes[d].phase.outcome.Cancelled?
    && (s.nodes[d].phase.outcome.Raised? ==> plan.table[n].continueOnError)
    && d in s.nodes[n].received && s.nodes[n].received[d] == DeliveryOf(s.nodes[d].phase.outcome)
  }

  /** How many dependencies a task in this phase must have awaited. */
  function Awaited(plan: Plan, n: string, phase: Phase): nat
    requires n in plan.table
  {
    match phase
    case Awaiting(i) => i
    case Done(o) => if Succeeded(o) then |plan.table[n].dependencies| else 0
    case Finishing(o) => |plan.table[n].dependencies|
    case _ => |plan.table[n].dependencies|
  }

  ghost predicate NodeSettled(plan: Plan, s: State, n: string)
    requires n in plan.table && n in s.nodes
  {
    var deps := plan.table[n].dependencies;
    var k := Awaited(plan, n, s.nodes[n].phase);
    && k <= |deps|
    && (forall i | 0 <= i < k :: Settled(plan, s, n, deps[i]))
    && (forall d | d in s.nodes[n].received :: d in deps)
  }

  ghost predicate DependenciesSettled(plan: Plan, s: State)
    requires Shape(plan, s)
  {
    forall n | n in plan.table :: NodeSettled(plan, s, n)
  }

  /** Outcomes fit a node's error policy and its recorded status. */
  ghost predicate NodeOutcome(plan: Plan, s: State, n: string)
    requires n in plan.table && n in s.nodes
  {
    var node := s.nodes[n];
    && (node.phase.Finishing? || node.phase.Done? ==>
        var o := node.phase.outcome;
        && (o.ReturnedError? ==> plan.table[n].continueOnError && node.status.Failed?)
        && (o.Raised? ==> !plan.table[n].continueOnError)
        && (o.Value? ==> node.status.Completed?)
        && (o.Value? && plan.table[n].runner.Guarded? ==> !AnyFailure(node.received))
        && (Succeeded(o) ==> n in s.results && s.results[n] == DeliveryOf(o)))
    && (node.accounted ==> node.phase.Done?)
    && (node.phase.Done? && Succeeded(node.phase.outcome) ==> node.accounted)
  }

  ghost predicate Outcomes(plan: Plan, s: State)
    requires Shape(plan, s)
  {
    && (forall n | n in plan.table :: NodeOutcome(plan, s, n))
    && s.results.Keys <= plan.table.Keys
  }

  function GlobalHolders(s: State): set<string> {
    set n | n in s.nodes && (s.nodes[n].phase.WantsTool? || s.nodes[n].phase.Running?)
  }

  function ToolHolders(plan: Plan, s: State, key: string): set<string> {
    set n | n in s.nodes && n in plan.table && s.nodes[n].phase.Running? && ToolKey(plan, n) == key
  }

  ghost predicate GlobalSlots(plan: Plan, s: State) {
    && s.global.value + |GlobalHolders(s)| == plan.globalCap
    && NoDup(s.global.waiters)
    && (forall n :: n in s.global.waiters <==> n in s.nodes && s.nodes[n].phase.WantsGlobal?)
  }

  ghost predicate ToolSlots(plan: Plan, s: State, key: string) {
    var sem := ToolSem(plan, s, key);
    && sem.value + |ToolHolders(plan, s, key)| == CapOf(plan, key)
    && NoDup(sem.waiters)
    && (forall n :: n in sem.waiters <==>
        n in s.nodes && n in plan.table && s.nodes[n].phase.WantsTool? && ToolKey(plan, n) == key)
  }

  ghost predicate Slots(plan: Plan, s: State) {
    GlobalSlots(plan, s) && forall key :: ToolSlots(plan, s, key)
  }

  function AccountedWeight(plan: Plan, s: State): string -> real {
    n => if n in plan.table && n in s.nodes && s.nodes[n].accounted then plan.table[n].weight else 0.0
  }

  ghost predicate Accounting(plan: Plan, s: State) {
    && s.completedWeight == Sum(plan.order, AccountedWeight(plan, s))
    && Published(plan, s.progress, s.completedWeight)
    && (s.progress == [] ==> forall n | n in s.nodes :: !s.nodes[n].accounted)
  }

  ghost predicate MainPhase(plan: Plan, s: State) {
    && (s.main.Finished? ==> AllDone(s))
    && (s.main == Finished(Returned) ==> forall n | n in s.nodes ::
          s.nodes[n].phase.Done? && Succeeded(s.nodes[n].phase.outcome))
  }

  ghost predicate Inv(plan: Plan, s: State) {
    && Shape(plan, s)
    && DependenciesSettled(plan, s)
    && Outcomes(plan, s)
    && Slots(plan, s)
    && Accounting(plan, s)
    && MainPhase(plan, s)
  }

  // ----- Each step keeps it -----

  lemma WithoutRemoves(waiters: seq<string>, n: string)
    requires NoDup(waiters)
    ensures NoDup(Without(waiters, n))
    ensures forall m :: m in Without(waiters, n) <==> m in waiters && m != n
  {
    if waiters != [] {
      assert waiters == [waiters[0]] + waiters[1..];
      WithoutRemoves(waiters[1..], n);
      var rest := Without(waiters[1..], n);
      if waiters[0] != n {
        forall i, j | 0 <= i < j < |[waiters[0]] + rest| ensures ([waiters[0]] + rest)[i] != ([waiters[0]] + rest)[j] {
          if i == 0 { assert rest[j - 1] in waiters[1..]; }
        }
      }
    }
  }

  ghost predicate TouchesOnly(s: State, t: State, n: string) {
    && t.nodes.Keys == s.nodes.Keys
    && (forall m | m in s.nodes && m != n :: t.nodes[m] == s.nodes[m])
  }

  /** The node a step moves; steps of the gathering coroutine move none. */
  function Mover(step: Step): Option<string> {
    match step
    case Observe(_) => None
    case CancelMain => None
    case Settle => None
    case Return => None
    case _ => Some(step.n)
  }

  lemma StepFrame(plan: Plan, s: State, step: Step)
    requires Shape(plan, s) && Enabled(plan, s, step)
    ensures Shape(plan, Next(plan, s, step))
    ensures Mover(step).Some? ==> Mover(step).value in s.nodes && TouchesOnly(s, Next(plan, s, step), Mover(step).value)
    ensures Mover(step).None? ==> Next(plan, s, step) == s.(main := Next(plan, s, step).main)
  {
    match step
    case Advance(n) => AdvanceFrame(plan, s, n);
    case Finish(n, result) => FinishFrame(plan, s, n, result);
    case Deliver(n) => DeliverFrame(plan, s, n);
    case _ =>
  }

  lemma MoverUnfinished(plan: Plan, s: State, step: Step, n: string)
    requires Enabled(plan, s, step) && Mover(step) == Some(n)
    ensures n in s.nodes && !s.nodes[n].phase.Done?
  {
  }

  /** A finished task never changes again. */
  lemma DoneStays(plan: Plan, s: State, step: Step, n: string)
    requires Shape(plan, s) && Enabled(plan, s, step) && n in s.nodes && s.nodes[n].phase.Done?
    ensures n in Next(plan, s, step).nodes && Next(plan, s, step).nodes[n] == s.nodes[n]
  {
    StepFrame(plan, s, step);
    if Mover(step).Some? { MoverUnfinished(plan, s, step, Mover(step).value); }
  }

  lemma AdvanceFrame(plan: Plan, s: State, n: string)
    requires Shape(plan, s) && Enabled(plan, s, Advance(n))
    ensures TouchesOnly(s, DoAdvance(plan, s, n), n)
  {
  }

  lemma FinishFrame(plan: Plan, s: State, n: string, result: RunResult)
    requires Shape(plan, s) && Enabled(plan, s, Finish(n, result))
    ensures TouchesOnly(s, DoFinish(plan, s, n, result), n)
  {
    assert ReleaseBoth(plan, s, n).nodes == s.nodes;
  }

  lemma DeliverFrame(plan: Plan, s: State, n: string)
    requires Shape(plan, s) && Enabled(plan, s, Deliver(n))
    ensures TouchesOnly(s, DoDeliver(plan, s, n), n)
  {
    assert ReleaseBoth(plan, s, n).nodes == s.nodes;
  }

  /** The ways in which one step may change the node it moves. */
  ghost predicate TookResult(plan: Plan, s: State, t: State, n: string)
    requires n in plan.table && n in s.nodes && n in t.nodes
  {
    var deps := plan.table[n].dependencies;
    var a, b := s.nodes[n], t.nodes[n];
    && a.phase.Awaiting? && b.phase.Awaiting? && a.phase.next < |deps| && b.phase.next == a.phase.next + 1
    && var d := deps[a.phase.next];
    && d in b.received && b.received == a.received[d := b.received[d]]
    && Settled(plan, t, n, d)
    && b.status == a.status && b.accounted == a.accounted
  }

  ghost predicate GaveUp(plan: Plan, s: State, t: State, n: string)
    requires n in plan.table && n in s.nodes && n in t.nodes
  {
    var a, b := s.nodes[n], t.nodes[n];
    && a.phase.Awaiting? && b == a.(phase := b.phase)
    && b.phase.Done? && !Succeeded(b.phase.outcome)
    && (b.phase.outcome.Raised? ==> !plan.table[n].continueOnError)
  }

  predicate Launched(phase: Phase) {
    phase.WantsGlobal? || phase.WantsTool? || phase.Running?
  }

  ghost predicate MovedOn(plan: Plan, s: State, t: State, n: string)
    requires n in plan.table && n in s.nodes && n in t.nodes
  {
    var a, b := s.nodes[n], t.nodes[n];
    && b.received == a.received && b.accounted == a.accounted
    && (|| (a.phase == Awaiting(|plan.table[n].dependencies|) && b.phase.WantsGlobal?)
        || (a.phase.WantsGlobal? && b.phase.WantsTool?)
        || (a.phase.WantsTool? && b.phase.Running?))
  }

  ghost predicate Ended(plan: Plan, s: State, t: State, n: string)
    requires n in plan.table && n in s.nodes && n in t.nodes
  {
    var a, b := s.nodes[n], t.nodes[n];
    && b.received == a.received && b.accounted == a.accounted
    && Launched(a.phase) && b.phase.Finishing?
    && var o := b.phase.outcome;
    && (o.ReturnedError? ==> plan.table[n].continueOnError && b.status.Failed?)
    && (o.Raised? ==> !plan.table[n].continueOnError)
    && (o.Value? ==> b.status.Completed?)
    && (o.Value? && plan.table[n].runner.Guarded? ==> !AnyFailure(b.received))
    && (Succeeded(o) ==> n in t.results && t.results[n] == DeliveryOf(o))
  }

  ghost predicate LeftFinally(plan: Plan, s: State, t: State, n: string)
    requires n in plan.table && n in s.nodes && n in t.nodes
  {
    var a, b := s.nodes[n], t.nodes[n];
    && a.phase.Finishing? && t.results == s.results
    && (b == a.(phase := Done(a.phase.outcome), accounted := true) || b == a.(phase := Done(Cancelled)))
  }

  ghost predicate Moved(plan: Plan, s: State, t: State, n: string)
    requires n in plan.table && n in s.nodes && n in t.nodes
  {
    || TookResult(plan, s, t, n) || GaveUp(plan, s, t, n) || MovedOn(plan, s, t, n)
    || Ended(plan, s, t, n) || LeftFinally(plan, s, t, n)
  }

  lemma AdvanceMoves(plan: Plan, s: State, n: string)
    requires Shape(plan, s) && Closed(plan.table) && Enabled(plan, s, Advance(n))
    requires forall d | d in plan.table[n].dependencies :: d != n
    ensures TookResult(plan, s, Next(plan, s, Advance(n)), n) || GaveUp(plan, s, Next(plan, s, Advance(n)), n)
  {
    var t := DoAdvance(plan, s, n);
    var d := plan.table[n].dependencies[s.nodes[n].phase.next];
    assert t.nodes[d] == s.nodes[d];
  }

  lemma FinishMoves(plan: Plan, s: State, n: string, result: RunResult)
    requires Shape(plan, s) && Enabled(plan, s, Finish(n, result))
    ensures Ended(plan, s, DoFinish(plan, s, n, result), n)
  {
  }

  lemma DeliverMoves(plan: Plan, s: State, n: string)
    requires Shape(plan, s) && Enabled(plan, s, Deliver(n))
    ensures GaveUp(plan, s, DoDeliver(plan, s, n), n) || Ended(plan, s, DoDeliver(plan, s, n), n)
            || LeftFinally(plan, s, DoDeliver(plan, s, n), n)
  {
  }

  lemma StepMoves(plan: Plan, s: State, step: Step)
    requires Shape(plan, s) && Enabled(plan, s, step) && Mover(step).Some?
    requires TopologicalOrder(plan.table, plan.order) && Closed(plan.table)
    ensures Shape(plan, Next(plan, s, step))
    ensures Moved(plan, s, Next(plan, s, step), Mover(step).value)
  {
    StepFrame(plan, s, step);
    match step
    case Advance(n) =>
      NoSelfDependency(plan, n);
      AdvanceMoves(plan, s, n);
    case Launch(n) => assert MovedOn(plan, s, Next(plan, s, step), n);
    case TakeGlobal(n) => assert MovedOn(plan, s, Next(plan, s, step), n);
    case TakeTool(n) => assert MovedOn(plan, s, Next(plan, s, step), n);
    case Finish(n, result) => FinishMoves(plan, s, n, result);
    case Account(n) => assert LeftFinally(plan, s, Next(plan, s, step), n);
    case Deliver(n) => DeliverMoves(plan, s, n);
  }

  lemma NoSelfDependency(plan: Plan, n: string)
    requires TopologicalOrder(plan.table, plan.order) && n in plan.table
    ensures n !in plan.table[n].dependencies
  {
    var i :| 0 <= i < |plan.order| && plan.order[i] == n;
    assert n !in plan.order[..i];
  }

  lemma StepResults(plan: Plan, s: State, step: Step, m: string)
    requires Shape(plan, s) && Enabled(plan, s, step)
    ensures m in s.results && Mover(step) != Some(m) ==>
              m in Next(plan, s, step).results && Next(plan, s, step).results[m] == s.results[m]
    ensures m in Next(plan, s, step).results ==> m in s.results || m in plan.table
  {
    match step
    case Finish(n, result) =>
    case Deliver(n) =>
    case _ =>
  }

  ghost predicate KeepsDone(s: State, t: State) {
    forall d | d in s.nodes && s.nodes[d].phase.Done? :: d in t.nodes && t.nodes[d] == s.nodes[d]
  }

  lemma SettledStays(plan: Plan, s: State, t: State, n: string)
    requires n in plan.table && n in s.nodes && n in t.nodes && KeepsDone(s, t)
    requires NodeSettled(plan, s, n) && t.nodes[n] == s.nodes[n]
    ensures NodeSettled(plan, t, n)
  {
    var deps := plan.table[n].dependencies;
    forall i | 0 <= i < Awaited(plan, n, t.nodes[n].phase) ensures Settled(plan, t, n, deps[i]) {
      assert Settled(plan, s, n, deps[i]);
    }
  }

  lemma MoverSettled(plan: Plan, s: State, t: State, n: string)
    requires n in plan.table && n in s.nodes && n in t.nodes && KeepsDone(s, t)
    requires NodeSettled(plan, s, n) && Moved(plan, s, t, n)
    ensures NodeSettled(plan, t, n)
  {
    var deps := plan.table[n].dependencies;
    forall i | 0 <= i < Awaited(plan, n, s.nodes[n].phase)
      ensures t.nodes[n].received == s.nodes[n].received || TookResult(plan, s, t, n)
      ensures Settled(plan, t, n, deps[i])
    {
      assert Settled(plan, s, n, deps[i]);
    }
  }

  lemma StepDependencies(plan: Plan, s: State, step: Step)
    requires ValidPlan(plan) && Shape(plan, s) && DependenciesSettled(plan, s) && Enabled(plan, s, step)
    ensures Shape(plan, Next(plan, s, step)) && DependenciesSettled(plan, Next(plan, s, step))
  {
    StepFrame(plan, s, step);
    var t := Next(plan, s, step);
    forall d | d in s.nodes && s.nodes[d].phase.Done? ensures d in t.nodes && t.nodes[d] == s.nodes[d] {
      DoneStays(plan, s, step, d);
    }
    if Mover(step).Some? { StepMoves(plan, s, step); }
    forall n | n in plan.table ensures NodeSettled(plan, t, n) {
      if Mover(step) == Some(n) {
        MoverSettled(plan, s, t, n);
      } else {
        SettledStays(plan, s, t, n);
      }
    }
  }

  lemma MoverOutcome(plan: Plan, s: State, t: State, n: string)
    requires n in plan.table && n in s.nodes && n in t.nodes
    requires NodeOutcome(plan, s, n) && Moved(plan, s, t, n)
    ensures NodeOutcome(plan, t, n)
  {
  }

  lemma OutcomeStays(plan: Plan, s: State, t: State, n: string)
    requires n in plan.table && n in s.nodes && n in t.nodes && t.nodes[n] == s.nodes[n]
    requires NodeOutcome(plan, s, n) && (n in s.results ==> n in t.results && t.results[n] == s.results[n])
    ensures NodeOutcome(plan, t, n)
  {
  }

  lemma StepOutcomes(plan: Plan, s: State, step: Step)
    requires ValidPlan(plan) && Shape(plan, s) && Outcomes(plan, s) && Enabled(plan, s, step)
    ensures Shape(plan, Next(plan, s, step)) && Outcomes(plan, Next(plan, s, step))
  {
    StepFrame(plan, s, step);
    if Mover(step).Some? { StepMoves(plan, s, step); }
    var t := Next(plan, s, step);
    forall n | n in plan.table ensures NodeOutcome(plan, t, n) {
      if Mover(step) == Some(n) {
        MoverOutcome(plan, s, t, n);
      } else {
        StepResults(plan, s, step, n);
        OutcomeStays(plan, s, t, n);
      }
    }
    forall m | m in t.results ensures m in plan.table { StepResults(plan, s, step, m); }
  }

  // ----- Slots -----

  function One(b: bool): int { if b then 1 else 0 }

  predicate HoldsGlobal(s: State, n: string) {
    n in s.nodes && (s.nodes[n].phase.WantsTool? || s.nodes[n].phase.Running?)
  }

  predicate HoldsTool(plan: Plan, s: State, key: string, n: string) {
    n in s.nodes && n in plan.table && s.nodes[n].phase.Running? && ToolKey(plan, n) == key
  }

  lemma SetChange(a: set<string>, b: set<string>, n: string)
    requires forall m | m != n :: m in a <==> m in b
    ensures |b| == |a| - One(n in a) + One(n in b)
  {
    var rest := a - {n};
    assert a == if n in a then rest + {n} else rest;
    assert b == if n in b then rest + {n} else rest;
  }

  lemma GlobalHoldersChange(s: State, t: State, n: string)
    requires n in s.nodes && TouchesOnly(s, t, n)
    ensures |GlobalHolders(t)| == |GlobalHolders(s)| - One(HoldsGlobal(s, n)) + One(HoldsGlobal(t, n))
  {
    SetChange(GlobalHolders(s), GlobalHolders(t), n);
    assert n in GlobalHolders(s) <==> HoldsGlobal(s, n);
    assert n in GlobalHolders(t) <==> HoldsGlobal(t, n);
  }

  lemma ToolHoldersChange(plan: Plan, s: State, t: State, n: string, key: string)
    requires n in s.nodes && TouchesOnly(s, t, n)
    ensures |ToolHolders(plan, t, key)|
         == |ToolHolders(plan, s, key)| - One(HoldsTool(plan, s, key, n)) + One(HoldsTool(plan, t, key, n))
  {
    SetChange(ToolHolders(plan, s, key), ToolHolders(plan, t, key), n);
    assert n in ToolHolders(plan, s, key) <==> HoldsTool(plan, s, key, n);
    assert n in ToolHolders(plan, t, key) <==> HoldsTool(plan, t, key, n);
  }

  /** What a step does to a semaphore as the phase of its mover changes: waiting ends are consistent. */
  ghost predicate SemaphoreStep(before: Semaphore, after: Semaphore, n: string,
                                waited: bool, held: bool, waits: bool, holds: bool) {
    && after.value == before.value + One(held) - One(holds)
    && (NoDup(before.waiters) && (waited <==> n in before.waiters) ==>
        && NoDup(after.waiters)
        && (n in after.waiters <==> waits)
        && (forall m | m != n :: m in after.waiters <==> m in before.waiters))
  }

  lemma QueueGrows(waiters: seq<string>, n: string)
    requires NoDup(waiters) && n !in waiters
    ensures NoDup(waiters + [n]) && forall m :: m in waiters + [n] <==> m in waiters || m == n
  {
  }

  lemma QueueShrinks(waiters: seq<string>)
    requires NoDup(waiters) && waiters != []
    ensures NoDup(waiters[1..]) && forall m :: m in waiters[1..] <==> m in waiters && m != waiters[0]
  {
    assert waiters == [waiters[0]] + waiters[1..];
  }

  ghost predicate GlobalStep(s: State, t: State, n: string)
    requires n in s.nodes && n in t.nodes
  {
    SemaphoreStep(s.global, t.global, n, s.nodes[n].phase.WantsGlobal?, HoldsGlobal(s, n),
                  t.nodes[n].phase.WantsGlobal?, HoldsGlobal(t, n))
  }

  predicate WaitsFor(plan: Plan, s: State, key: string, n: string) {
    n in s.nodes && n in plan.table && s.nodes[n].phase.WantsTool? && ToolKey(plan, n) == key
  }

  ghost predicate ToolStep(plan: Plan, s: State, t: State, n: string, key: string) {
    SemaphoreStep(ToolSem(plan, s, key), ToolSem(plan, t, key), n,
                  WaitsFor(plan, s, key, n), HoldsTool(plan, s, key, n),
                  WaitsFor(plan, t, key, n), HoldsTool(plan, t, key, n))
  }

  lemma FinishGlobalStep(plan: Plan, s: State, n: string, result: RunResult)
    requires Shape(plan, s) && Enabled(plan, s, Finish(n, result)) && GlobalSlots(plan, s)
    ensures GlobalStep(s, DoFinish(plan, s, n, result), n)
  {
    assert DoFinish(plan, s, n, result).global == ReleaseBoth(plan, s, n).global;
  }

  lemma DeliverGlobalStep(plan: Plan, s: State, n: string)
    requires Shape(plan, s) && Enabled(plan, s, Deliver(n)) && GlobalSlots(plan, s)
    ensures GlobalStep(s, DoDeliver(plan, s, n), n)
  {
    WithoutRemoves(s.global.waiters, n);
  }

  lemma GlobalSemaphoreSteps(plan: Plan, s: State, step: Step, n: string)
    requires Shape(plan, s) && Enabled(plan, s, step) && Mover(step) == Some(n) && GlobalSlots(plan, s)
    requires n in Next(plan, s, step).nodes
    ensures GlobalStep(s, Next(plan, s, step), n)
  {
    match step
    case Advance(_) => assert DoAdvance(plan, s, n).global == s.global;
    case Launch(_) => LaunchGlobalStep(plan, s, n);
    case TakeGlobal(_) => TakeGlobalGlobalStep(plan, s, n);
    case TakeTool(_) =>
    case Finish(_, result) => FinishGlobalStep(plan, s, n, result);
    case Account(_) =>
    case Deliver(_) => DeliverGlobalStep(plan, s, n);
  }

  lemma LaunchGlobalStep(plan: Plan, s: State, n: string)
    requires Shape(plan, s) && Enabled(plan, s, Launch(n)) && GlobalSlots(plan, s)
    ensures GlobalStep(s, Next(plan, s, Launch(n)), n)
  {
    QueueGrows(s.global.waiters, n);
  }

  lemma TakeGlobalGlobalStep(plan: Plan, s: State, n: string)
    requires Shape(plan, s) && Enabled(plan, s, TakeGlobal(n)) && GlobalSlots(plan, s)
    ensures GlobalStep(s, Next(plan, s, TakeGlobal(n)), n)
  {
    QueueShrinks(s.global.waiters);
  }

  lemma TakeGlobalToolStep(plan: Plan, s: State, n: string, key: string)
    requires Shape(plan, s) && Enabled(plan, s, TakeGlobal(n)) && ToolSlots(plan, s, key)
    ensures ToolStep(plan, s, Next(plan, s, TakeGlobal(n)), n, key)
  {
    if ToolKey(plan, n) == key { QueueGrows(ToolSem(plan, s, key).waiters, n); }
  }

  lemma TakeToolToolStep(plan: Plan, s: State, n: string, key: string)
    requires Shape(plan, s) && Enabled(plan, s, TakeTool(n)) && ToolSlots(plan, s, key)
    ensures ToolStep(plan, s, Next(plan, s, TakeTool(n)), n, key)
  {
    if ToolKey(plan, n) == key { QueueShrinks(ToolSem(plan, s, key).waiters); }
  }

  lemma FinishToolStep(plan: Plan, s: State, n: string, result: RunResult, key: string)
    requires Shape(plan, s) && Enabled(plan, s, Finish(n, result)) && ToolSlots(plan, s, key)
    ensures ToolStep(plan, s, DoFinish(plan, s, n, result), n, key)
  {
    assert DoFinish(plan, s, n, result).tools == ReleaseBoth(plan, s, n).tools;
  }

  lemma DeliverToolStep(plan: Plan, s: State, n: string, key: string)
    requires Shape(plan, s) && Enabled(plan, s, Deliver(n)) && ToolSlots(plan, s, key)
    ensures ToolStep(plan, s, DoDeliver(plan, s, n), n, key)
  {
    WithoutRemoves(ToolSem(plan, s, key).waiters, n);
    if s.nodes[n].phase.Running? {
      assert DoDeliver(plan, s, n).tools == ReleaseBoth(plan, s, n).tools;
    }
  }

  lemma ToolSemaphoreSteps(plan: Plan, s: State, step: Step, n: string, key: string)
    requires Shape(plan, s) && Enabled(plan, s, step) && Mover(step) == Some(n) && ToolSlots(plan, s, key)
    ensures ToolStep(plan, s, Next(plan, s, step), n, key)
  {
    match step
    case Advance(_) => assert DoAdvance(plan, s, n).tools == s.tools;
    case Launch(_) =>
    case TakeGlobal(_) => TakeGlobalToolStep(plan, s, n, key);
    case TakeTool(_) => TakeToolToolStep(plan, s, n, key);
    case Finish(_, result) => FinishToolStep(plan, s, n, result, key);
    case Account(_) =>
    case Deliver(_) => DeliverToolStep(plan, s, n, key);
  }

  lemma StepSlots(plan: Plan, s: State, step: Step)
    requires Shape(plan, s) && Slots(plan, s) && Enabled(plan, s, step)
    ensures Slots(plan, Next(plan, s, step))
  {
    StepFrame(plan, s, step);
    var t := Next(plan, s, step);
    if Mover(step).Some? {
      var n := Mover(step).value;
      GlobalSemaphoreSteps(plan, s, step, n);
      GlobalHoldersChange(s, t, n);
      GlobalSlotsKept(plan, s, t, n);
      forall key ensures ToolSlots(plan, t, key) {
        assert ToolSlots(plan, s, key);
        ToolSemaphoreSteps(plan, s, step, n, key);
        ToolSlotsKept(plan, s, t, n, key);
      }
    } else {
      forall key ensures ToolSlots(plan, t, key) {
        assert ToolSlots(plan, s, key);
        assert ToolHolders(plan, t, key) == ToolHolders(plan, s, key);
      }
      assert GlobalHolders(t) == GlobalHolders(s);
    }
  }

  lemma GlobalSlotsKept(plan: Plan, s: State, t: State, n: string)
    requires n in s.nodes && TouchesOnly(s, t, n) && GlobalSlots(plan, s) && GlobalStep(s, t, n)
    ensures GlobalSlots(plan, t)
  {
    GlobalHoldersChange(s, t, n);
  }

  lemma ToolSlotsKept(plan: Plan, s: State, t: State, n: string, key: string)
    requires n in s.nodes && TouchesOnly(s, t, n) && ToolSlots(plan, s, key) && ToolStep(plan, s, t, n, key)
    ensures ToolSlots(plan, t, key)
  {
    ToolHoldersChange(plan, s, t, n, key);
  }

  // ----- Progress accounting -----

  lemma PercentMonotone(a: real, b: real, total: real)
    requires 0.0 <= a <= b && total > 0.0
    ensures 0.0 <= RoundTo(a / total * 100.0, 100) <= RoundTo(b / total * 100.0, 100)
  {
    DivMonotone(0.0, a, total);
    DivMonotone(a, b, total);
    var x, y := a / total * 100.0, b / total * 100.0;
    assert 0.0 <= x <= y;
    RoundToMonotone(x, y, 100);
    RoundToMonotone(0 as real, x, 100);
    RoundToInteger(0, 100);
  }

  lemma ProgressMonotone(plan: Plan, a: real, b: real)
    requires ValidPlan(plan) && 0.0 <= a <= b
    ensures 0.0 <= Progress(plan, a) <= Progress(plan, b) <= 100.0
  {
    TotalPositive(plan);
    PercentMonotone(a, b, TotalWeight(plan));
  }

  lemma TotalPositive(plan: Plan)
    requires ValidPlan(plan)
    ensures TotalWeight(plan) > 0.0
    ensures plan.order != [] ==> TotalWeight(plan) == Sum(plan.order, n => if n in plan.table then plan.table[n].weight else 0.0)
  {
    if plan.order != [] {
      SumPositive(plan.order, n => if n in plan.table then plan.table[n].weight else 0.0);
    }
  }

  lemma SameAccounting(plan: Plan, s: State, t: State)
    requires Shape(plan, s) && Shape(plan, t) && Accounting(plan, s)
    requires t.completedWeight == s.completedWeight && t.progress == s.progress
    requires forall n | n in s.nodes :: t.nodes[n].accounted == s.nodes[n].accounted
    ensures Accounting(plan, t)
  {
    SumAgrees(plan.order, AccountedWeight(plan, s), AccountedWeight(plan, t));
  }

  lemma AccountStep(plan: Plan, s: State, n: string)
    requires ValidPlan(plan) && Shape(plan, s) && Accounting(plan, s) && Enabled(plan, s, Account(n))
    requires !s.nodes[n].accounted
    ensures Accounting(plan, DoAccount(plan, s, n))
  {
    AccountedSum(plan, s, DoAccount(plan, s, n), n);
    AccountedNonNegative(plan, s);
    AccountProgress(plan, s, n);
  }

  lemma AccountProgress(plan: Plan, s: State, n: string)
    requires ValidPlan(plan) && Enabled(plan, s, Account(n)) && s.completedWeight >= 0.0
    requires Published(plan, s.progress, s.completedWeight)
    ensures var t := DoAccount(plan, s, n);
            t.progress != [] && Published(plan, t.progress, t.completedWeight)
  {
    ProgressAppended(plan, s.progress, s.completedWeight, s.completedWeight + plan.table[n].weight);
  }

  lemma AccountedNonNegative(plan: Plan, s: State)
    requires ValidPlan(plan)
    ensures Sum(plan.order, AccountedWeight(plan, s)) >= 0.0
  {
    SumBounded(plan.order, AccountedWeight(plan, s), AccountedWeight(plan, s));
  }

  lemma AccountedSum(plan: Plan, s: State, t: State, n: string)
    requires ValidPlan(plan) && Shape(plan, s) && n in plan.table && TouchesOnly(s, t, n)
    requires !s.nodes[n].accounted && t.nodes[n].accounted
    ensures Sum(plan.order, AccountedWeight(plan, t)) == Sum(plan.order, AccountedWeight(plan, s)) + plan.table[n].weight
  {
    SumUpdate(plan.order, AccountedWeight(plan, s), AccountedWeight(plan, t), n);
  }

  /** The published percentages never decrease, and the newest is that of the current weight. */
  ghost predicate Published(plan: Plan, progress: seq<real>, weight: real) {
    && (forall i | 0 <= i < |progress| :: 0.0 <= progress[i] <= Progress(plan, weight))
    && (forall i, j | 0 <= i < j < |progress| :: progress[i] <= progress[j])
    && (progress != [] ==> progress[|progress| - 1] == Progress(plan, weight))
  }

  lemma ProgressAppended(plan: Plan, progress: seq<real>, before: real, after: real)
    requires ValidPlan(plan) && Published(plan, progress, before) && 0.0 <= before <= after
    ensures Published(plan, progress + [Progress(plan, after)], after)
  {
    ProgressMonotone(plan, before, after);
    Appended(progress, Progress(plan, before), Progress(plan, after));
  }

  lemma Appended(progress: seq<real>, before: real, after: real)
    requires 0.0 <= before <= after && (forall i | 0 <= i < |progress| :: 0.0 <= progress[i] <= before)
    requires forall i, j | 0 <= i < j < |progress| :: progress[i] <= progress[j]
    ensures forall i | 0 <= i < |progress + [after]| :: 0.0 <= (progress + [after])[i] <= after
    ensures forall i, j | 0 <= i < j < |progress + [after]| :: (progress + [after])[i] <= (progress + [after])[j]
  {
  }

  /** Only `Account` changes what is accounted and published. */
  lemma OthersKeepAccounts(plan: Plan, s: State, step: Step)
    requires Shape(plan, s) && Enabled(plan, s, step) && !step.Account?
    ensures var t := Next(plan, s, step);
            && t.completedWeight == s.completedWeight && t.progress == s.progress
            && (Mover(step).Some? && Mover(step).value in t.nodes ==>
                  t.nodes[Mover(step).value].accounted == s.nodes[Mover(step).value].accounted)
  {
  }

  lemma StepAccounting(plan: Plan, s: State, step: Step)
    requires ValidPlan(plan) && Shape(plan, s) && Outcomes(plan, s) && Accounting(plan, s) && Enabled(plan, s, step)
    ensures Accounting(plan, Next(plan, s, step))
  {
    if step.Account? {
      assert NodeOutcome(plan, s, step.n);
      AccountStep(plan, s, step.n);
    } else {
      StepFrame(plan, s, step);
      OthersKeepAccounts(plan, s, step);
      SameAccounting(plan, s, Next(plan, s, step));
    }
  }

  lemma StepMain(plan: Plan, s: State, step: Step)
    requires Shape(plan, s) && MainPhase(plan, s) && Enabled(plan, s, step)
    ensures MainPhase(plan, Next(plan, s, step))
  {
    StepFrame(plan, s, step);
    MainMoves(plan, s, step);
  }

  lemma MainMoves(plan: Plan, s: State, step: Step)
    requires Shape(plan, s) && Enabled(plan, s, step)
    ensures Mover(step).Some? ==> Next(plan, s, step).main == s.main
  {
    match step
    case Finish(n, result) => assert DoFinish(plan, s, n, result).main == s.main;
    case Deliver(n) => assert DoDeliver(plan, s, n).main == s.main;
    case Advance(n) => assert DoAdvance(plan, s, n).main == s.main;
    case _ =>
  }

  // ----- The invariant over runs -----

  lemma InitInv(plan: Plan)
    requires ValidPlan(plan)
    ensures Inv(plan, Init(plan))
  {
    var s := Init(plan);
    forall n | n in plan.table ensures NodeSettled(plan, s, n) && NodeOutcome(plan, s, n) {}
    assert GlobalHolders(s) == {};
    forall key ensures ToolSlots(plan, s, key) { assert ToolHolders(plan, s, key) == {}; }
    SumAgrees(plan.order, AccountedWeight(plan, s), n => 0.0);
    SumZero(plan.order);
  }

  lemma {:induction false} SumZero(items: seq<string>)
    ensures Sum(items, n => 0.0) == 0.0
  {
    if items != [] { SumZero(items[1..]); SumAgrees(items[1..], n => 0.0, n => 0.0); }
  }

  lemma StepInv(plan: Plan, s: State, step: Step)
    requires ValidPlan(plan) && Inv(plan, s) && Enabled(plan, s, step)
    ensures Inv(plan, Next(plan, s, step))
  {
    StepDependencies(plan, s, step);
    StepOutcomes(plan, s, step);
    StepSlots(plan, s, step);
    StepAccounting(plan, s, step);
    StepMain(plan, s, step);
  }

  lemma {:induction false} RunInv(plan: Plan, s: State, steps: seq<Step>)
    requires ValidPlan(plan) && Inv(plan, s) && ValidRun(plan, s, steps)
    ensures Inv(plan, After(plan, s, steps))
    decreases |steps|
  {
    if steps != [] {
      StepInv(plan, s, steps[0]);
      RunInv(plan, Next(plan, s, steps[0]), steps[1..]);
    }
  }
}
