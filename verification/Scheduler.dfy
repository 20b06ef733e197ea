/** The execution of a task graph (`TaskScheduler.execute`) as a step machine over asyncio's interleavings.

    One step runs one task from one suspension point to the next.  Semaphores are asyncio's: a counter
    and a first-in-first-out queue of waiters.  Publishing an event is taken not to suspend. */
module Scheduler {
  import opened Arithmetic
  import opened TaskGraph

  /** What `await task_handles[d]` hands to a dependent that goes on: a value, or an exception object. */
  datatype Delivery = Got(payload: int) | GotError

  /** How a finished task ended: returned a value, returned its exception, raised it, or was cancelled. */
  datatype Outcome = Value(payload: int) | ReturnedError | Raised | Cancelled

  datatype Phase =
    | Awaiting(next: nat)
    | WantsGlobal
    | WantsTool
    | Running
    | Finishing(outcome: Outcome)
    | Done(outcome: Outcome)

  datatype Status = Pending | InProgress | Completed | Failed | WasCancelled

  datatype Node = Node(phase: Phase, status: Status, received: map<string, Delivery>, accounted: bool)

  datatype Semaphore = Semaphore(value: nat, waiters: seq<string>)

  datatype Ending = Returned | RaisedFailure | RaisedCancel

  datatype Main = Gathering | Unwinding(cancelled: bool) | Finished(ending: Ending)

  /** The graph, the order tasks were started in, and the concurrency limits. */
  datatype Plan = Plan(order: seq<string>, table: Table, globalCap: nat, toolCaps: map<string, nat>)

  datatype State = State(
    nodes: map<string, Node>,
    global: Semaphore,
    tools: map<string, Semaphore>,
    results: map<string, Delivery>,
    completedWeight: real,
    progress: seq<real>,
    main: Main)

  ghost predicate ValidPlan(plan: Plan) {
    && TopologicalOrder(plan.table, plan.order)
    && Closed(plan.table)
    && plan.globalCap >= 1
    && (forall t | t in plan.toolCaps :: plan.toolCaps[t] >= 1)
    && (forall n | n in plan.table :: plan.table[n].weight > 0.0)
  }

  /** `spec.tool_name or name` */
  function ToolKey(plan: Plan, n: string): string
    requires n in plan.table
  {
    var tool := plan.table[n].toolName;
    if tool.Some? && tool.value != "" then tool.value else n
  }

  function CapOf(plan: Plan, key: string): nat {
    if key in plan.toolCaps then plan.toolCaps[key]
    else if "*" in plan.toolCaps then plan.toolCaps["*"] else 1
  }

  /** `_tool_semaphore`: made on first use with the tool's cap. */
  function ToolSem(plan: Plan, s: State, key: string): Semaphore {
    if key in s.tools then s.tools[key] else Semaphore(CapOf(plan, key), [])
  }

  function TotalWeight(plan: Plan): real {
    var total := Sum(plan.order, n => if n in plan.table then plan.table[n].weight else 0.0);
    if total == 0.0 then 1.0 else total
  }

  function Progress(plan: Plan, weight: real): real {
    var total := TotalWeight(plan);
    var percent := RoundTo(weight / total * 100.0, 100);
    if percent < 100.0 then percent else 100.0
  }

  function Init(plan: Plan): State {
    State(
      map n | n in plan.table :: Node(Awaiting(0), Pending, map[], false),
      Semaphore(plan.globalCap, []), map[], map[], 0.0, [], Gathering)
  }

  // ----- Steps -----

  datatype RunResult = RunValue(payload: int) | RunError | RunCancelled

  datatype Step =
    | Advance(n: string)                   // the next dependency is finished
    | Launch(n: string)                    // all dependencies awaited: queue for the global semaphore
    | TakeGlobal(n: string)
    | TakeTool(n: string)
    | Finish(n: string, result: RunResult) // the runner ends; both slots are released
    | Account(n: string)                   // progress accounting under the lock, then this node is done
    | Observe(n: string)                   // gather surfaces the exception of a finished task
    | CancelMain                           // execute itself is cancelled from outside
    | Deliver(n: string)                   // a cancellation reaches an unfinished task
    | Settle                               // every task has been awaited after a failure
    | Return

  predicate Unfinished(s: State, n: string) {
    n in s.nodes && !s.nodes[n].phase.Done?
  }

  predicate AllDone(s: State) {
    forall n | n in s.nodes :: s.nodes[n].phase.Done?
  }

  predicate Succeeded(o: Outcome) {
    o.Value? || o.ReturnedError?
  }

  predicate AnyFailure(received: map<string, Delivery>) {
    exists d | d in received :: received[d].GotError?
  }

  ghost predicate Enabled(plan: Plan, s: State, step: Step) {
    match step
    case Advance(n) =>
      && n in s.nodes && n in plan.table && s.nodes[n].phase.Awaiting?
      && var i := s.nodes[n].phase.next;
      && i < |plan.table[n].dependencies|
      && var d := plan.table[n].dependencies[i];
      && d in s.nodes && s.nodes[d].phase.Done?
    case Launch(n) =>
      && n in s.nodes && n in plan.table
      && s.nodes[n].phase == Awaiting(|plan.table[n].dependencies|)
    case TakeGlobal(n) =>
      && n in s.nodes && n in plan.table && s.nodes[n].phase.WantsGlobal?
      && s.global.value > 0 && s.global.waiters != [] && s.global.waiters[0] == n
    case TakeTool(n) =>
      && n in s.nodes && n in plan.table && s.nodes[n].phase.WantsTool?
      && var sem := ToolSem(plan, s, ToolKey(plan, n));
      && sem.value > 0 && sem.waiters != [] && sem.waiters[0] == n
    case Finish(n, result) =>
      && n in s.nodes && n in plan.table && s.nodes[n].phase.Running?
      && (result.RunValue? && plan.table[n].runner.Guarded? ==> !AnyFailure(s.nodes[n].received))
    case Account(n) =>
      n in s.nodes && n in plan.table && s.nodes[n].phase.Finishing?
    case Observe(n) =>
      && s.main.Gathering? && n in s.nodes && s.nodes[n].phase.Done?
      && !Succeeded(s.nodes[n].phase.outcome)
    case CancelMain => s.main.Gathering?
    case Deliver(n) => s.main.Unwinding? && n in plan.table && Unfinished(s, n)
    case Settle => s.main.Unwinding? && AllDone(s)
    case Return =>
      && s.main.Gathering? && AllDone(s)
      && (forall n | n in s.nodes && s.nodes[n].phase.Done? :: Succeeded(s.nodes[n].phase.outcome))
  }

  function Without(waiters: seq<string>, n: string): seq<string> {
    if waiters == [] then []
    else if waiters[0] == n then Without(waiters[1..], n)
    else [waiters[0]] + Without(waiters[1..], n)
  }

  function SetNode(s: State, n: string, node: Node): State {
    s.(nodes := s.nodes[n := node])
  }

  function SetTool(s: State, key: string, sem: Semaphore): State {
    s.(tools := s.tools[key := sem])
  }

  function DeliveryOf(o: Outcome): Delivery {
    if o.Value? then Got(o.payload) else GotError
  }

  function DoAdvance(plan: Plan, s: State, n: string): State
    requires Enabled(plan, s, Advance(n))
  {
    var node := s.nodes[n];
    var d := plan.table[n].dependencies[node.phase.next];
    var outcome := s.nodes[d].phase.outcome;
    if outcome.Cancelled? then
      SetNode(s, n, node.(phase := Done(Cancelled)))
    else if outcome.Raised? && !plan.table[n].continueOnError then
      SetNode(s, n, node.(phase := Done(Raised)))
    else
      SetNode(s, n, node.(phase := Awaiting(node.phase.next + 1), received := node.received[d := DeliveryOf(outcome)]))
  }

  function ReleaseBoth(plan: Plan, s: State, n: string): State
    requires n in plan.table
  {
    var key := ToolKey(plan, n);
    var sem := ToolSem(plan, s, key);
    SetTool(s, key, sem.(value := sem.value + 1)).(global := s.global.(value := s.global.value + 1))
  }

  function DoFinish(plan: Plan, s: State, n: string, result: RunResult): State
    requires Enabled(plan, s, Finish(n, result))
  {
    var released := ReleaseBoth(plan, s, n);
    var node := s.nodes[n];
    match result
    case RunValue(v) =>
      SetNode(released, n, node.(phase := Finishing(Value(v)), status := Completed))
        .(results := s.results[n := Got(v)])
    case RunError =>
      if plan.table[n].continueOnError then
        SetNode(released, n, node.(phase := Finishing(ReturnedError), status := Failed))
          .(results := s.results[n := GotError])
      else
        SetNode(released, n, node.(phase := Finishing(Raised), status := Failed))
    case RunCancelled =>
      SetNode(released, n, node.(phase := Finishing(Cancelled), status := WasCancelled))
  }

  function DoAccount(plan: Plan, s: State, n: string): State
    requires Enabled(plan, s, Account(n))
  {
    var weight := s.completedWeight + plan.table[n].weight;
    SetNode(s, n, s.nodes[n].(phase := Done(s.nodes[n].phase.outcome), accounted := true))
      .(completedWeight := weight, progress := s.progress + [Progress(plan, weight)])
  }

  /** A cancellation ends an unfinished task: before launch directly, later through the `finally` block. */
  function DoDeliver(plan: Plan, s: State, n: string): State
    requires Enabled(plan, s, Deliver(n))
  {
    var node := s.nodes[n];
    var leaving := node.(phase := Finishing(Cancelled), status := WasCancelled);
    match node.phase
    case Awaiting(_) => SetNode(s, n, node.(phase := Done(Cancelled)))
    case WantsGlobal =>
      SetNode(s, n, leaving).(global := s.global.(waiters := Without(s.global.waiters, n)))
    case WantsTool =>
      var key := ToolKey(plan, n);
      var sem := ToolSem(plan, s, key);
      SetNode(SetTool(s, key, sem.(waiters := Without(sem.waiters, n))), n, leaving)
        .(global := s.global.(value := s.global.value + 1))
    case Running => SetNode(ReleaseBoth(plan, s, n), n, leaving)
    case Finishing(_) => SetNode(s, n, node.(phase := Done(Cancelled)))
    case Done(_) => s
  }

  function Next(plan: Plan, s: State, step: Step): State
    requires Enabled(plan, s, step)
  {
    match step
    case Advance(n) => DoAdvance(plan, s, n)
    case Launch(n) =>
      SetNode(s, n, s.nodes[n].(phase := WantsGlobal, status := InProgress))
        .(global := s.global.(waiters := s.global.waiters + [n]))
    case TakeGlobal(n) =>
      var key := ToolKey(plan, n);
      var sem := ToolSem(plan, s, key);
      SetNode(SetTool(s, key, sem.(waiters := sem.waiters + [n])), n, s.nodes[n].(phase := WantsTool))
        .(global := Semaphore(s.global.value - 1, s.global.waiters[1..]))
    case TakeTool(n) =>
      var key := ToolKey(plan, n);
      var sem := ToolSem(plan, s, key);
      SetNode(SetTool(s, key, Semaphore(sem.value - 1, sem.waiters[1..])), n, s.nodes[n].(phase := Running))
    case Finish(n, result) => DoFinish(plan, s, n, result)
    case Account(n) => DoAccount(plan, s, n)
    case Observe(n) => s.(main := Unwinding(s.nodes[n].phase.outcome.Cancelled?))
    case CancelMain => s.(main := Unwinding(true))
    case Deliver(n) => DoDeliver(plan, s, n)
    case Settle => s.(main := Finished(if s.main.cancelled then RaisedCancel else RaisedFailure))
    case Return => s.(main := Finished(Returned))
  }

  /** A run takes enabled steps one after the other. */
  ghost predicate ValidRun(plan: Plan, s: State, steps: seq<Step>)
    decreases |steps|
  {
    steps == [] || (Enabled(plan, s, steps[0]) && ValidRun(plan, Next(plan, s, steps[0]), steps[1..]))
  }

  ghost function After(plan: Plan, s: State, steps: seq<Step>): State
    requires ValidRun(plan, s, steps)
    decreases |steps|
  {
    if steps == [] then s else After(plan, Next(plan, s, steps[0]), steps[1..])
  }
}
