/** Task specifications and the depth-first ordering of a task graph (app/engine/scheduler.py). */
module TaskGraph {
  import opened Wrappers
  import opened Sorting
  import opened Text

  /** A runner either starts by refusing failed dependency results or takes them as they come. */
  datatype Runner = Plain | Guarded

  datatype TaskSpec = TaskSpec(
    name: string,
    runner: Runner,
    dependencies: seq<string>,
    toolName: Option<string>,
    weight: real,
    continueOnError: bool,
    rateCost: real,
    executionKind: string)

  type Table = map<string, TaskSpec>

  ghost predicate Closed(table: Table) {
    forall n, d | n in table && d in table[n].dependencies :: d in table
  }

  /** A walk along dependency edges: each name lists the next one as a dependency. */
  ghost predicate Chain(table: Table, path: seq<string>) {
    && (forall i | 0 <= i < |path| :: path[i] in table)
    && (forall i | 0 <= i < |path| - 1 :: path[i + 1] in table[path[i]].dependencies)
  }

  ghost predicate CycleWalk(table: Table, path: seq<string>, n: string) {
    |path| >= 2 && path[0] == n && path[|path| - 1] == n && Chain(table, path)
  }

  ghost predicate OnCycle(table: Table, n: string) {
    exists path :: CycleWalk(table, path, n)
  }

  ghost predicate Acyclic(table: Table) {
    forall n | n in table :: !OnCycle(table, n)
  }

  /** Each listed task comes after all its dependencies. */
  ghost predicate DependenciesFirst(table: Table, order: seq<string>) {
    forall i, d | 0 <= i < |order| && order[i] in table && d in table[order[i]].dependencies :: d in order[..i]
  }

  /** What the scheduler starts tasks by: every task exactly once, dependencies before dependents. */
  ghost predicate TopologicalOrder(table: Table, order: seq<string>) {
    && NoDup(order)
    && (forall n :: n in order <==> n in table)
    && DependenciesFirst(table, order)
  }

  function Elements(s: seq<string>): set<string> {
    set n | n in s
  }

  /** Walking along dependencies moves strictly towards the front of a topological order. */
  lemma {:induction false} ChainDescends(table: Table, order: seq<string>, path: seq<string>, i: nat, j: nat)
    requires TopologicalOrder(table, order) && Chain(table, path)
    requires |path| >= 2 && i < |order| && j < |order| && order[i] == path[0] && order[j] == path[|path| - 1]
    ensures j < i
  {
    var next := path[1];
    assert next in table[order[i]].dependencies;
    var k :| 0 <= k < i && order[k] == next;
    if |path| > 2 {
      var rest := path[1..];
      assert Chain(table, rest) by {
        forall m | 0 <= m < |rest| - 1 ensures rest[m + 1] in table[rest[m]].dependencies {
          assert rest[m + 1] == path[m + 2] && rest[m] == path[m + 1];
        }
      }
      ChainDescends(table, order, rest, k, j);
    }
  }

  /** A graph with a topological order has no dependency cycle. */
  lemma OrderedIsAcyclic(table: Table, order: seq<string>)
    requires TopologicalOrder(table, order)
    ensures Acyclic(table)
  {
    forall n, path | n in table ensures !CycleWalk(table, path, n) {
      if CycleWalk(table, path, n) {
        var i :| 0 <= i < |order| && order[i] == n;
        ChainDescends(table, order, path, i, i);
      }
    }
  }

  /** The closure state of `_topological_order`: the two sets and the list that `visit` updates. */
  class Sorter {
    const table: Table
    var visiting: set<string>
    var visited: set<string>
    var order: seq<string>

    constructor (table: Table)
      ensures this.table == table && visiting == {} && visited == {} && order == []
    {
      this.table := table;
      visiting, visited, order := {}, {}, [];
    }

    ghost predicate Valid()
      reads this
    {
      && Closed(table)
      && visiting !! visited
      && visiting <= table.Keys
      && visited <= table.Keys
      && NoDup(order)
      && Elements(order) == visited
      && DependenciesFirst(table, order)
    }

    /** Visits `name` with the names being visited forming the call stack; returns false where the source raises. */
    method Visit(name: string, ghost stack: seq<string>) returns (ok: bool)
      requires Valid() && name in table
      requires Elements(stack) == visiting && Chain(table, stack + [name])
      modifies this`visiting, this`visited, this`order
      ensures ok ==> Valid() && visiting == old(visiting)
      ensures ok ==> name in visited && old(visited) <= visited && old(order) <= order
      ensures !ok ==> !Acyclic(table)
      decreases table.Keys - visiting
    {
      if name in visited {
        return true;
      }
      if name in visiting {
        ghost var i :| 0 <= i < |stack| && stack[i] == name;
        ghost var path := (stack + [name])[i..];
        assert CycleWalk(table, path, name);
        return false;
      }
      visiting := visiting + {name};
      var dependencies := table[name].dependencies;
      ghost var inner := stack + [name];
      assert Elements(inner) == visiting;
      for k := 0 to |dependencies|
        invariant Valid() && visiting == old(visiting) + {name}
        invariant old(visited) <= visited && old(order) <= order
        invariant forall d | d in dependencies[..k] :: d in visited
      {
        assert Chain(table, inner + [dependencies[k]]) by {
          assert forall m | 0 <= m < |inner| - 1 :: inner[m + 1] in table[inner[m]].dependencies;
        }
        ok := Visit(dependencies[k], inner);
        if !ok {
          return;
        }
      }
      visiting := visiting - {name};
      visited := visited + {name};
      ghost var before := order;
      order := order + [name];
      assert visiting == old(visiting);
      assert Elements(order) == Elements(before) + {name};
      assert dependencies[..|dependencies|] == dependencies;
      assert forall d | d in dependencies :: d in Elements(before);
      AppendKeepsOrder(table, before, name);
      return true;
    }
  }

  lemma AppendKeepsOrder(table: Table, order: seq<string>, name: string)
    requires NoDup(order) && DependenciesFirst(table, order)
    requires name in table && name !in order
    requires forall d | d in table[name].dependencies :: d in order
    ensures NoDup(order + [name]) && DependenciesFirst(table, order + [name])
  {
    var longer := order + [name];
    forall i, d | 0 <= i < |longer| && longer[i] in table && d in table[longer[i]].dependencies
      ensures d in longer[..i]
    {
      if i < |order| {
        assert longer[i] == order[i] && longer[..i] == order[..i];
      } else {
        assert longer[..i] == order;
      }
    }
  }

  /** Depth-first ordering: raises exactly on a cyclic graph, else lists every task once, dependencies first. */
  method Order(names: seq<string>, table: Table) returns (r: Result<seq<string>, string>)
    requires Closed(table) && NoDup(names) && (forall n :: n in names <==> n in table)
    ensures r.Success? <==> Acyclic(table)
    ensures r.Success? ==> TopologicalOrder(table, r.value)
  {
    var sorter := new Sorter(table);
    for k := 0 to |names|
      invariant sorter.Valid() && sorter.table == table && sorter.visiting == {}
      invariant forall n | n in names[..k] :: n in sorter.visited
    {
      assert names[k] in names;
      var ok := sorter.Visit(names[k], []);
      if !ok {
        return Failure(names[k]);
      }
    }
    assert names[..|names|] == names;
    forall n ensures n in sorter.order <==> n in table {
      assert n in sorter.order <==> n in Elements(sorter.order);
    }
    OrderedIsAcyclic(table, sorter.order);
    return Success(sorter.order);
  }

  // ----- Validation -----

  datatype ConfigError =
    | EmptyName
    | Duplicate(name: string)
    | BadWeight(name: string)
    | BadRateCost(name: string)
    | EmptyKind(name: string)
    | Missing(name: string, dependency: string)
    | Cyclic

  ghost predicate WellFormedSpec(spec: TaskSpec) {
    !Blank(spec.name) && spec.weight > 0.0 && spec.rateCost > 0.0 && !Blank(spec.executionKind)
  }

  ghost predicate DistinctNames(tasks: seq<TaskSpec>) {
    forall i, j | 0 <= i < j < |tasks| :: tasks[i].name != tasks[j].name
  }

  ghost predicate HasTask(tasks: seq<TaskSpec>, name: string) {
    exists i | 0 <= i < |tasks| :: tasks[i].name == name
  }

  ghost predicate DependenciesPresent(tasks: seq<TaskSpec>) {
    forall i, d | 0 <= i < |tasks| && d in tasks[i].dependencies :: HasTask(tasks, d)
  }

  /** The specs keyed by name, in the order they were given. */
  function TableOf(tasks: seq<TaskSpec>): Table {
    if tasks == [] then map[]
    else TableOf(tasks[..|tasks| - 1])[tasks[|tasks| - 1].name := tasks[|tasks| - 1]]
  }

  function NamesOf(tasks: seq<TaskSpec>): (names: seq<string>)
    ensures |names| == |tasks| && forall i | 0 <= i < |tasks| :: names[i] == tasks[i].name
  {
    if tasks == [] then [] else NamesOf(tasks[..|tasks| - 1]) + [tasks[|tasks| - 1].name]
  }

  lemma HasTaskInFront(tasks: seq<TaskSpec>, n: string)
    requires tasks != []
    ensures HasTask(tasks, n) <==> HasTask(tasks[..|tasks| - 1], n) || tasks[|tasks| - 1].name == n
  {
    var front := tasks[..|tasks| - 1];
    if HasTask(front, n) {
      var i :| 0 <= i < |front| && front[i].name == n;
      assert tasks[i].name == n;
    }
    if HasTask(tasks, n) && tasks[|tasks| - 1].name != n {
      var i :| 0 <= i < |tasks| && tasks[i].name == n;
      assert front[i].name == n;
    }
  }

  lemma {:induction false} TableHas(tasks: seq<TaskSpec>, n: string)
    ensures n in TableOf(tasks) <==> HasTask(tasks, n)
  {
    if tasks != [] {
      TableHas(tasks[..|tasks| - 1], n);
      HasTaskInFront(tasks, n);
    }
  }

  lemma {:induction false} TableHolds(tasks: seq<TaskSpec>, n: string)
    requires n in TableOf(tasks)
    ensures TableOf(tasks)[n] in tasks && TableOf(tasks)[n].name == n
  {
    if n != tasks[|tasks| - 1].name { TableHolds(tasks[..|tasks| - 1], n); }
  }

  lemma TableOfLooksUp(tasks: seq<TaskSpec>)
    ensures forall n :: n in TableOf(tasks) <==> HasTask(tasks, n)
    ensures forall i | 0 <= i < |tasks| :: tasks[i].name in TableOf(tasks)
    ensures DistinctNames(tasks) ==> forall i | 0 <= i < |tasks| :: TableOf(tasks)[tasks[i].name] == tasks[i]
    ensures forall n | n in TableOf(tasks) :: TableOf(tasks)[n] in tasks && TableOf(tasks)[n].name == n
  {
    forall n ensures n in TableOf(tasks) <==> HasTask(tasks, n) { TableHas(tasks, n); }
    forall n | n in TableOf(tasks)
      ensures TableOf(tasks)[n] in tasks && TableOf(tasks)[n].name == n
    {
      TableHolds(tasks, n);
    }
    forall i | 0 <= i < |tasks| ensures tasks[i].name in TableOf(tasks) { assert HasTask(tasks, tasks[i].name); }
  }

  /** The conditions of `_validate` that hold of a task list when no check raises. */
  ghost predicate Acceptable(tasks: seq<TaskSpec>) {
    && (forall t | t in tasks :: WellFormedSpec(t))
    && DistinctNames(tasks)
    && DependenciesPresent(tasks)
    && Acyclic(TableOf(tasks))
  }

  ghost predicate Justified(tasks: seq<TaskSpec>, error: ConfigError) {
    match error
    case EmptyName => exists t | t in tasks :: Blank(t.name)
    case Duplicate(n) => exists i, j | 0 <= i < j < |tasks| :: tasks[i].name == n == tasks[j].name
    case BadWeight(n) => exists t | t in tasks :: t.name == n && t.weight <= 0.0
    case BadRateCost(n) => exists t | t in tasks :: t.name == n && t.rateCost <= 0.0
    case EmptyKind(n) => exists t | t in tasks :: t.name == n && Blank(t.executionKind)
    case Missing(n, d) => (exists t | t in tasks :: t.name == n && d in t.dependencies) && !HasTask(tasks, d)
    case Cyclic => !Acyclic(TableOf(tasks))
  }

  lemma TableGrows(tasks: seq<TaskSpec>, k: nat)
    requires k < |tasks|
    ensures TableOf(tasks[..k + 1]) == TableOf(tasks[..k])[tasks[k].name := tasks[k]]
    ensures tasks[k].name in TableOf(tasks[..k]) <==> exists i | 0 <= i < k :: tasks[i].name == tasks[k].name
  {
    assert tasks[..k + 1][..k] == tasks[..k];
    TableHas(tasks[..k], tasks[k].name);
    assert forall i | 0 <= i < k :: tasks[..k][i] == tasks[i];
  }

  /** The first loop of `_validate`: per-task checks while the table is filled. */
  method Collect(tasks: seq<TaskSpec>) returns (r: Result<Table, ConfigError>)
    ensures r.Success? <==> (forall t | t in tasks :: WellFormedSpec(t)) && DistinctNames(tasks)
    ensures r.Success? ==> r.value == TableOf(tasks)
    ensures r.Failure? ==> Justified(tasks, r.error)
  {
    var table: Table := map[];
    for k := 0 to |tasks|
      invariant table == TableOf(tasks[..k])
      invariant forall i | 0 <= i < k :: WellFormedSpec(tasks[i])
      invariant forall i, j | 0 <= i < j < k :: tasks[i].name != tasks[j].name
    {
      var spec := tasks[k];
      assert spec in tasks;
      TableGrows(tasks, k);
      if Blank(spec.name) { return Failure(EmptyName); }
      if spec.name in table { return Failure(Duplicate(spec.name)); }
      if spec.weight <= 0.0 { return Failure(BadWeight(spec.name)); }
      if spec.rateCost <= 0.0 { return Failure(BadRateCost(spec.name)); }
      if Blank(spec.executionKind) { return Failure(EmptyKind(spec.name)); }
      table := table[spec.name := spec];
    }
    assert tasks[..|tasks|] == tasks;
    return Success(table);
  }

  /** The second loop of `_validate`: every dependency names a task. */
  method CheckDependencies(tasks: seq<TaskSpec>, table: Table) returns (r: Option<ConfigError>)
    requires forall n :: n in table <==> HasTask(tasks, n)
    ensures r.None? <==> DependenciesPresent(tasks)
    ensures r.Some? ==> Justified(tasks, r.value)
  {
    for k := 0 to |tasks|
      invariant forall i, d | 0 <= i < k && d in tasks[i].dependencies :: HasTask(tasks, d)
    {
      var spec := tasks[k];
      assert spec in tasks;
      for j := 0 to |spec.dependencies|
        invariant forall m | 0 <= m < j :: HasTask(tasks, spec.dependencies[m])
      {
        if spec.dependencies[j] !in table {
          assert spec.dependencies[j] in tasks[k].dependencies;
          return Some(Missing(spec.name, spec.dependencies[j]));
        }
      }
    }
    return None;
  }

  lemma AcceptedTable(tasks: seq<TaskSpec>)
    requires DistinctNames(tasks)
    ensures NoDup(NamesOf(tasks)) && (forall n :: n in NamesOf(tasks) <==> n in TableOf(tasks))
    ensures DependenciesPresent(tasks) ==> Closed(TableOf(tasks))
  {
    var names := NamesOf(tasks);
    TableOfLooksUp(tasks);
    forall n ensures n in names <==> n in TableOf(tasks) {
      if n in names { var i :| 0 <= i < |names| && names[i] == n; assert tasks[i].name == n; }
      if n in TableOf(tasks) { var i :| 0 <= i < |tasks| && tasks[i].name == n; assert names[i] == n; }
    }
    if DependenciesPresent(tasks) {
      forall n, d | n in TableOf(tasks) && d in TableOf(tasks)[n].dependencies ensures d in TableOf(tasks) {
        var i :| 0 <= i < |tasks| && tasks[i] == TableOf(tasks)[n];
        assert HasTask(tasks, d);
      }
    }
  }

  /** `_validate`: accepts exactly the acceptable lists, and every refusal names a real defect. */
  method Validate(tasks: seq<TaskSpec>) returns (r: Result<(seq<string>, Table), ConfigError>)
    ensures r.Success? <==> Acceptable(tasks)
    ensures r.Success? ==> r.value == (NamesOf(tasks), TableOf(tasks)) && Closed(TableOf(tasks))
    ensures r.Failure? ==> Justified(tasks, r.error)
  {
    var collected := Collect(tasks);
    if collected.Failure? { return Failure(collected.error); }
    var table := collected.value;
    TableOfLooksUp(tasks);
    var missing := CheckDependencies(tasks, table);
    if missing.Some? { return Failure(missing.value); }
    AcceptedTable(tasks);
    var ordered := Order(NamesOf(tasks), table);
    if ordered.Failure? { return Failure(Cyclic); }
    return Success((NamesOf(tasks), table));
  }
}
