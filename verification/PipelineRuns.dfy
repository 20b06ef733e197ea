/** What every run of a compiled scan keeps: passive recon first, then dedup, then the stages in order. */
module PipelineRuns {
  import opened Sorting
  import opened TaskGraph
  import opened Scheduler
  import opened SchedulerSafety
  import opened SchedulerTheorems
  import opened SchedulerOutcomes
  import opened Pipeline

  /** The scheduler that `run_p0_scan` sets up: one slot per tool, at most eight tasks at once. */
  ghost predicate ScanPlan(selected: seq<string>, catalog: Catalog, plan: Plan) {
    && NoDup(selected) && (forall n | n in selected :: n in catalog)
    && plan.table == TableOf(Compile(selected, catalog))
    && TopologicalOrder(plan.table, plan.order)
    && plan.globalCap == Clamp(1, |selected|, 8)
    && plan.toolCaps == map["*" := 1]
  }

  lemma Lookup(selected: seq<string>, catalog: Catalog, plan: Plan, i: nat)
    requires ScanPlan(selected, catalog, plan) && i < |Compile(selected, catalog)|
    ensures Compile(selected, catalog)[i].name in plan.table
    ensures plan.table[Compile(selected, catalog)[i].name] == Compile(selected, catalog)[i]
  {
    TableOfLooksUp(Compile(selected, catalog));
    CompiledNames(selected, catalog);
  }

  lemma ScanPlanValid(selected: seq<string>, catalog: Catalog, plan: Plan)
    requires ScanPlan(selected, catalog, plan)
    ensures ValidPlan(plan)
    ensures forall n | n in plan.table :: plan.table[n].continueOnError
  {
    CompiledGraphAccepted(selected, catalog);
    AcceptedTable(Compile(selected, catalog));
    forall n | n in plan.table ensures plan.table[n].weight > 0.0 && plan.table[n].continueOnError {
      CompiledTask(selected, catalog, n);
    }
  }

  lemma CompiledTask(selected: seq<string>, catalog: Catalog, n: string)
    requires (forall m | m in selected :: m in catalog) && n in TableOf(Compile(selected, catalog))
    ensures var t := TableOf(Compile(selected, catalog))[n]; t.weight > 0.0 && t.continueOnError
  {
    var tasks := Compile(selected, catalog);
    TableHolds(tasks, n);
    var i :| 0 <= i < |tasks| && tasks[i] == TableOf(tasks)[n];
    CompiledWellFormed(selected, catalog, i);
  }

  lemma ToolLookup(selected: seq<string>, catalog: Catalog, plan: Plan, name: string)
    requires ScanPlan(selected, catalog, plan) && name in selected
    ensures ToolId(name) in plan.table && plan.table[ToolId(name)].runner.Guarded?
    ensures Waits(catalog, name) ==>
              forall id :: id in plan.table[ToolId(name)].dependencies
                <==> exists p | p in selected :: Passive(catalog, p) && id == ToolId(p)
    ensures !Waits(catalog, name) ==> plan.table[ToolId(name)].dependencies == []
  {
    SortedSelection(selected);
    CompiledLength(selected, catalog);
    var names := Sort(selected, StringLe);
    var i :| 0 <= i < |names| && names[i] == name;
    ToolTask(selected, catalog, i);
    Lookup(selected, catalog, plan, i);
    PassiveIdsAre(names, catalog);
  }

  lemma DedupLookup(selected: seq<string>, catalog: Catalog, plan: Plan)
    requires ScanPlan(selected, catalog, plan)
    ensures DEDUP in plan.table
    ensures forall id :: id in plan.table[DEDUP].dependencies <==> exists n | n in selected :: id == ToolId(n)
  {
    StageTask(selected, catalog, 0);
    CompiledLength(selected, catalog);
    Lookup(selected, catalog, plan, |selected|);
    SortedSelection(selected);
    var names := Sort(selected, StringLe);
    var ids := ToolIds(selected, catalog);
    forall id ensures id in ids <==> exists n | n in selected :: id == ToolId(n) {
      if id in ids { var j :| 0 <= j < |ids| && ids[j] == id; assert names[j] in names; }
      if n :| n in selected && id == ToolId(n) { var j :| 0 <= j < |names| && names[j] == n; assert ids[j] == id; }
    }
  }

  /** The stage that must have run before each of the last three. */
  function Before(stage: string): string
    requires stage in {CHAIN, RANK, HYPOTHESIS}
  {
    if stage == CHAIN then DEDUP else if stage == RANK then CHAIN else RANK
  }

  lemma StageLookup(selected: seq<string>, catalog: Catalog, plan: Plan, stage: string)
    requires ScanPlan(selected, catalog, plan) && stage in {CHAIN, RANK, HYPOTHESIS}
    ensures stage in plan.table && plan.table[stage].runner.Guarded?
    ensures plan.table[stage].dependencies == [Before(stage)]
  {
    StagesAreNotTools("");
    var k := if stage == CHAIN then 1 else if stage == RANK then 2 else 3;
    StageTask(selected, catalog, k);
    CompiledLength(selected, catalog);
    Lookup(selected, catalog, plan, |selected| + k);
  }

  ghost predicate SucceededWithValue(s: State, id: string) {
    id in s.nodes && s.nodes[id].phase.Done? && s.nodes[id].phase.outcome.Value?
  }

  ghost predicate IsFinished(s: State, id: string) {
    id in s.nodes && s.nodes[id].phase.Done?
  }

  /** A running waiting tool passes its dependency check, and so may invoke its wrapper, exactly when every
      selected passive tool succeeded. */
  lemma WrapperWaitsForPassiveRecon(selected: seq<string>, catalog: Catalog, plan: Plan, s: State, name: string)
    requires ScanPlan(selected, catalog, plan) && Reachable(plan, s)
    requires name in selected && Waits(catalog, name) && Started(s, ToolId(name))
    ensures !AnyFailure(s.nodes[ToolId(name)].received)
       <==> forall p | p in selected && Passive(catalog, p) :: SucceededWithValue(s, ToolId(p))
  {
    ScanPlanValid(selected, catalog, plan);
    ToolLookup(selected, catalog, plan, name);
    var id := ToolId(name);
    forall d | d in plan.table[id].dependencies
      ensures d in s.nodes && s.nodes[d].phase.Done? && d in s.nodes[id].received
      ensures s.nodes[id].received[d] == DeliveryOf(s.nodes[d].phase.outcome)
      ensures s.nodes[id].received.Keys == set x | x in plan.table[id].dependencies
    {
      DependenciesBeforeRunning(plan, s, id, d);
    }
    if forall p | p in selected && Passive(catalog, p) :: SucceededWithValue(s, ToolId(p)) {
      forall d | d in s.nodes[id].received ensures !s.nodes[id].received[d].GotError? {
        ReceivedAreDependencies(plan, s, id, d);
        var p :| p in selected && Passive(catalog, p) && d == ToolId(p);
        assert SucceededWithValue(s, ToolId(p));
      }
    }
    if !AnyFailure(s.nodes[id].received) {
      forall p | p in selected && Passive(catalog, p) ensures SucceededWithValue(s, ToolId(p)) {
        assert ToolId(p) in plan.table[id].dependencies;
      }
    }
  }

  lemma ReceivedAreDependencies(plan: Plan, s: State, id: string, d: string)
    requires ValidPlan(plan) && Reachable(plan, s) && id in plan.table && id in s.nodes && d in s.nodes[id].received
    ensures d in plan.table[id].dependencies
  {
    ReachableInv(plan, s);
    assert NodeSettled(plan, s, id);
  }

  /** A guarded task that ended with a value had only dependencies that ended with a value. */
  lemma GuardedSuccess(plan: Plan, s: State, id: string, d: string)
    requires ValidPlan(plan) && Reachable(plan, s) && id in plan.table && plan.table[id].runner.Guarded?
    requires SucceededWithValue(s, id) && d in plan.table[id].dependencies
    ensures SucceededWithValue(s, d)
  {
    ReachableInv(plan, s);
    assert NodeSettled(plan, s, id) && NodeOutcome(plan, s, id);
    var i :| 0 <= i < |plan.table[id].dependencies| && plan.table[id].dependencies[i] == d;
    assert Settled(plan, s, id, d);
  }

  /** A waiting tool that succeeded did so after every selected passive tool had succeeded. */
  lemma SuccessNeedsPassiveRecon(selected: seq<string>, catalog: Catalog, plan: Plan, s: State, name: string, p: string)
    requires ScanPlan(selected, catalog, plan) && Reachable(plan, s)
    requires name in selected && Waits(catalog, name) && SucceededWithValue(s, ToolId(name))
    requires p in selected && Passive(catalog, p)
    ensures SucceededWithValue(s, ToolId(p))
  {
    ScanPlanValid(selected, catalog, plan);
    ToolLookup(selected, catalog, plan, name);
    GuardedSuccess(plan, s, ToolId(name), ToolId(p));
  }

  /** Dedup starts only when every selected tool is finished, and none of them was cancelled. */
  lemma DedupAfterAllTools(selected: seq<string>, catalog: Catalog, plan: Plan, s: State, name: string)
    requires ScanPlan(selected, catalog, plan) && Reachable(plan, s) && Started(s, DEDUP) && name in selected
    ensures IsFinished(s, ToolId(name)) && Succeeded(s.nodes[ToolId(name)].phase.outcome)
  {
    ScanPlanValid(selected, catalog, plan);
    DedupLookup(selected, catalog, plan);
    ReachableInv(plan, s);
    assert ToolId(name) in plan.table[DEDUP].dependencies;
    assert NodeSettled(plan, s, DEDUP);
    StartedIsSettled(plan, s, DEDUP);
    assert Settled(plan, s, DEDUP, ToolId(name));
    assert NodeOutcome(plan, s, ToolId(name));
  }

  /** The stages start in the fixed order, and a stage's value rests on the value of the one before it. */
  lemma StagesInOrder(selected: seq<string>, catalog: Catalog, plan: Plan, s: State, stage: string)
    requires ScanPlan(selected, catalog, plan) && Reachable(plan, s) && stage in {CHAIN, RANK, HYPOTHESIS}
    ensures Started(s, stage) ==> IsFinished(s, Before(stage))
    ensures SucceededWithValue(s, stage) ==> SucceededWithValue(s, Before(stage))
  {
    ScanPlanValid(selected, catalog, plan);
    StageLookup(selected, catalog, plan, stage);
    if Started(s, stage) { DependenciesBeforeRunning(plan, s, stage, Before(stage)); }
    if SucceededWithValue(s, stage) { GuardedSuccess(plan, s, stage, Before(stage)); }
  }

  /** A hypothesis result means the whole stage chain produced values and every tool had finished. */
  lemma HypothesisMeansWholeChain(selected: seq<string>, catalog: Catalog, plan: Plan, s: State)
    requires ScanPlan(selected, catalog, plan) && Reachable(plan, s) && SucceededWithValue(s, HYPOTHESIS)
    ensures SucceededWithValue(s, RANK) && SucceededWithValue(s, CHAIN) && SucceededWithValue(s, DEDUP)
    ensures forall n | n in selected :: IsFinished(s, ToolId(n))
  {
    StagesAreNotTools("");
    StagesInOrder(selected, catalog, plan, s, HYPOTHESIS);
    StagesInOrder(selected, catalog, plan, s, RANK);
    StagesInOrder(selected, catalog, plan, s, CHAIN);
    ScanPlanValid(selected, catalog, plan);
    DedupLookup(selected, catalog, plan);
    ReachableInv(plan, s);
    assert NodeSettled(plan, s, DEDUP);
    forall n | n in selected ensures IsFinished(s, ToolId(n)) {
      var deps := plan.table[DEDUP].dependencies;
      assert ToolId(n) in deps;
      var i :| 0 <= i < |deps| && deps[i] == ToolId(n);
      assert Settled(plan, s, DEDUP, deps[i]);
    }
  }

  /** A tool or stage failure never aborts a scan: whatever the runners do short of a cancellation, `execute` gathers until it
      returns; and every finished tool or stage ended exactly as its runner did, its value stored, or its exception. */
  lemma FailuresNeverAbort(selected: seq<string>, catalog: Catalog, plan: Plan, steps: seq<Step>)
    requires ScanPlan(selected, catalog, plan) && ValidRun(plan, Init(plan), steps)
    ensures After(plan, Init(plan), steps).main != Finished(RaisedFailure)
    ensures NoCancel(steps) ==> After(plan, Init(plan), steps).main in {Gathering, Finished(Returned)}
    ensures NoCancel(steps) && Stuck(plan, After(plan, Init(plan), steps)) ==>
              After(plan, Init(plan), steps).main == Finished(Returned)
  {
    ScanPlanValid(selected, catalog, plan);
    InitInv(plan);
    OnlyCancellationAborts(plan, Init(plan), steps);
    if NoCancel(steps) {
      StagesAreNotTools("");
      DedupLookup(selected, catalog, plan);
      NothingIsLost(plan, steps, DEDUP);
      if Stuck(plan, After(plan, Init(plan), steps)) { EndsExactly(plan, steps); }
    }
  }

  /** In a scan without a cancellation a finished tool or stage ended as its runner did: every one was run, its value or its
      exception is stored, and none is lost because another one failed. */
  lemma EveryRunnerCounts(selected: seq<string>, catalog: Catalog, plan: Plan, steps: seq<Step>, id: string)
    requires ScanPlan(selected, catalog, plan) && ValidRun(plan, Init(plan), steps) && NoCancel(steps)
    requires id in plan.table && IsFinished(After(plan, Init(plan), steps), id)
    ensures Ran(steps, id) && id in After(plan, Init(plan), steps).results
    ensures forall r | Finish(id, r) in steps ::
              After(plan, Init(plan), steps).results[id] == if r.RunValue? then Got(r.payload) else GotError
  {
    ScanPlanValid(selected, catalog, plan);
    var s := After(plan, Init(plan), steps);
    NothingIsLost(plan, steps, id);
    OutcomeDecided(plan, steps, id);
    ResultsAndStatus(plan, steps, id);
    RanOrStopped(plan, steps, s, id);
    var r :| Finish(id, r) in steps;
    forall r | Finish(id, r) in steps
      ensures id in s.results && s.results[id] == if r.RunValue? then Got(r.payload) else GotError
    {
      assert !Cancels(Finish(id, r));
    }
  }

  lemma RanOrStopped(plan: Plan, steps: seq<Step>, s: State, id: string)
    requires id in plan.table && id in s.nodes && s.nodes[id].phase.Done? && Succeeded(s.nodes[id].phase.outcome)
    requires EndTold(plan, steps, s, id, s.nodes[id].phase.outcome) && plan.table[id].continueOnError
    ensures Ran(steps, id)
  {}

  ghost predicate NotFailing(main: Main) {
    main != Unwinding(false) && main != Finished(RaisedFailure)
  }

  lemma {:induction false} OnlyCancellationAborts(plan: Plan, s: State, steps: seq<Step>)
    requires ValidPlan(plan) && Inv(plan, s) && ValidRun(plan, s, steps) && NotFailing(s.main)
    requires forall n | n in plan.table :: plan.table[n].continueOnError
    ensures NotFailing(After(plan, s, steps).main)
    decreases |steps|
  {
    if steps != [] {
      StepInv(plan, s, steps[0]);
      if Mover(steps[0]).Some? {
        MainMoves(plan, s, steps[0]);
      } else if steps[0].Observe? {
        assert NodeOutcome(plan, s, steps[0].n);
      }
      OnlyCancellationAborts(plan, Next(plan, s, steps[0]), steps[1..]);
    }
  }
}
