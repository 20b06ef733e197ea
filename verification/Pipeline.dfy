/** The scan pipeline compiled onto the scheduler (`build_tool_nodes`, `run_p0_scan` in app/v2_pipeline.py). */
module Pipeline {
  import opened Wrappers
  import opened Sorting
  import opened Text
  import opened TaskGraph

  /** The attributes of a wrapper class that the compilation reads. */
  datatype ToolClass = ToolClass(category: string, timeout: real, retries: int)

  type Catalog = map<string, ToolClass>

  datatype PipelineNode = PipelineNode(
    id: string,
    runner: Runner,
    dependsOn: seq<string>,
    resourceClass: string,
    timeout: real,
    maxAttempts: int,
    toolName: Option<string>,
    rateCost: real,
    executionKind: string)

  function ToTaskSpec(node: PipelineNode): TaskSpec {
    TaskSpec(
      node.id, node.runner, node.dependsOn,
      Some(if node.toolName.Some? && node.toolName.value != "" then node.toolName.value else node.id),
      1.0, true, node.rateCost, node.executionKind)
  }

  predicate Passive(catalog: Catalog, name: string) {
    name in catalog && catalog[name].category == "recon_passive"
  }

  /** The categories that wait for passive recon. */
  predicate Waits(catalog: Catalog, name: string) {
    name in catalog && catalog[name].category in {"recon_active", "web_vulns", "network"}
  }

  function ResourceClass(category: string): string {
    if category == "recon_passive" then "recon" else if category == "web3" then "web3" else "active"
  }

  function ToolId(name: string): string { "tool:" + name }

  function PassiveIds(names: seq<string>, catalog: Catalog): seq<string> {
    if names == [] then []
    else
      var earlier := PassiveIds(names[..|names| - 1], catalog);
      var last := names[|names| - 1];
      if Passive(catalog, last) then earlier + [ToolId(last)] else earlier
  }

  function Clamp(low: int, x: int, high: int): int {
    if x < low then low else if x > high then high else x
  }

  function ToolNode(name: string, catalog: Catalog, passive: seq<string>): PipelineNode
    requires name in catalog
  {
    var cls := catalog[name];
    PipelineNode(
      ToolId(name), Guarded, if Waits(catalog, name) then passive else [],
      ResourceClass(cls.category), if cls.timeout < 1.0 then 1.0 else cls.timeout,
      Clamp(1, (if cls.retries < 0 then 0 else cls.retries) + 1, 8),
      Some(name), 1.0, "automated_tool")
  }

  lemma PassiveNext(names: seq<string>, catalog: Catalog, i: nat)
    requires (forall n | n in names :: n in catalog) && i < |names|
    ensures PassiveIds(names[..i + 1], catalog)
         == if Passive(catalog, names[i]) then PassiveIds(names[..i], catalog) + [ToolId(names[i])] else PassiveIds(names[..i], catalog)
  {
    assert names[..i + 1][..i] == names[..i];
  }

  /** The first loop of `build_tool_nodes`. */
  method CollectPassive(names: seq<string>, catalog: Catalog) returns (passive: seq<string>)
    requires forall n | n in names :: n in catalog
    ensures passive == PassiveIds(names, catalog)
  {
    passive := [];
    for i := 0 to |names|
      invariant passive == PassiveIds(names[..i], catalog)
    {
      PassiveNext(names, catalog, i);
      if catalog[names[i]].category == "recon_passive" {
        passive := passive + [ToolId(names[i])];
      }
    }
    assert names[..|names|] == names;
  }

  /** `build_tool_nodes`: one node per selected tool in name order; waiting categories depend on all passive tools. */
  method BuildToolNodes(selected: seq<string>, catalog: Catalog) returns (nodes: seq<PipelineNode>)
    requires forall n | n in selected :: n in catalog
    ensures forall n | n in Sort(selected, StringLe) :: n in catalog
    ensures nodes == ToolNodes(selected, catalog)
    ensures |nodes| == |Sort(selected, StringLe)| == |selected|
    ensures forall i | 0 <= i < |nodes| :: NodeTold(selected, catalog, Sort(selected, StringLe)[i], nodes[i])
  {
    SortedSelection(selected);
    ToolNodesTold(selected, catalog);
    var names := Sort(selected, StringLe);
    var passive := CollectPassive(names, catalog);
    nodes := [];
    for i := 0 to |names|
      invariant Built(nodes, names, catalog, passive, i)
    {
      BuiltNext(nodes, names, catalog, passive, i);
      nodes := nodes + [ToolNode(names[i], catalog, passive)];
    }
    BuiltAll(selected, catalog, nodes);
  }

  /** The nodes of the first n names. */
  ghost predicate Built(nodes: seq<PipelineNode>, names: seq<string>, catalog: Catalog, passive: seq<string>, n: nat)
    requires forall m | m in names :: m in catalog
  {
    |nodes| == n <= |names| && forall j | 0 <= j < n :: nodes[j] == ToolNode(names[j], catalog, passive)
  }

  lemma BuiltNext(nodes: seq<PipelineNode>, names: seq<string>, catalog: Catalog, passive: seq<string>, n: nat)
    requires (forall m | m in names :: m in catalog) && n < |names| && Built(nodes, names, catalog, passive, n)
    ensures Built(nodes + [ToolNode(names[n], catalog, passive)], names, catalog, passive, n + 1)
  {
  }

  lemma BuiltAll(selected: seq<string>, catalog: Catalog, nodes: seq<PipelineNode>)
    requires forall n | n in selected :: n in catalog
    requires forall n | n in Sort(selected, StringLe) :: n in catalog
    requires Built(nodes, Sort(selected, StringLe), catalog, PassiveIds(Sort(selected, StringLe), catalog), |Sort(selected, StringLe)|)
    ensures nodes == ToolNodes(selected, catalog)
  {
  }

  lemma SortedSelection(selected: seq<string>)
    ensures forall n :: n in Sort(selected, StringLe) <==> n in selected
    ensures |Sort(selected, StringLe)| == |selected|
    ensures NoDup(Sort(selected, StringLe)) <==> NoDup(selected)
  {
    StringLeTotalOrder();
    SortSorts(selected, StringLe);
    MemberOfSort(selected, StringLe);
    SortKeepsNoDup(selected, StringLe);
  }

  function ToolNodes(selected: seq<string>, catalog: Catalog): seq<PipelineNode>
    requires forall n | n in selected :: n in catalog
  {
    SortedSelection(selected);
    var names := Sort(selected, StringLe);
    seq(|names|, i requires 0 <= i < |names| => ToolNode(names[i], catalog, PassiveIds(names, catalog)))
  }

  /** The node of a selected tool, without the helpers that make it: it waits for every selected passive tool exactly when
      its category waits, and its timeout and tries are those of its class, pushed into their bounds. */
  ghost predicate NodeTold(selected: seq<string>, catalog: Catalog, name: string, node: PipelineNode)
    requires name in catalog && forall n | n in selected :: n in catalog
  {
    var cls := catalog[name];
    && node.id == "tool:" + name && node.toolName == Some(name) && node.runner == Guarded && node.rateCost == 1.0
    && node.executionKind == "automated_tool"
    && (cls.category !in {"recon_active", "web_vulns", "network"} ==> node.dependsOn == [])
    && (cls.category in {"recon_active", "web_vulns", "network"} ==>
          forall id :: id in node.dependsOn
                       <==> exists n | n in selected :: catalog[n].category == "recon_passive" && id == "tool:" + n)
    && node.resourceClass in {"recon", "web3", "active"}
    && (node.resourceClass == "recon" <==> cls.category == "recon_passive")
    && (node.resourceClass == "web3" <==> cls.category == "web3")
    && (cls.timeout >= 1.0 ==> node.timeout == cls.timeout) && (cls.timeout < 1.0 ==> node.timeout == 1.0)
    && (cls.retries <= 0 ==> node.maxAttempts == 1) && (cls.retries >= 7 ==> node.maxAttempts == 8)
    && (0 < cls.retries < 7 ==> node.maxAttempts == cls.retries + 1)
  }

  lemma ToolNodesTold(selected: seq<string>, catalog: Catalog)
    requires forall n | n in selected :: n in catalog
    ensures |ToolNodes(selected, catalog)| == |Sort(selected, StringLe)| == |selected|
    ensures forall n | n in Sort(selected, StringLe) :: n in catalog
    ensures forall i | 0 <= i < |selected| ::
              NodeTold(selected, catalog, Sort(selected, StringLe)[i], ToolNodes(selected, catalog)[i])
  {
    SortedSelection(selected);
    var names := Sort(selected, StringLe);
    PassiveIdsAre(names, catalog);
    forall id ensures id in PassiveIds(names, catalog)
                      <==> exists n | n in selected :: catalog[n].category == "recon_passive" && id == "tool:" + n
    {
      if n :| n in selected && catalog[n].category == "recon_passive" && id == "tool:" + n {
        assert n in names && Passive(catalog, n) && id == ToolId(n);
      }
      if n :| n in names && Passive(catalog, n) && id == ToolId(n) {
        assert n in selected && catalog[n].category == "recon_passive" && id == "tool:" + n;
      }
    }
    forall i | 0 <= i < |selected| ensures NodeTold(selected, catalog, names[i], ToolNodes(selected, catalog)[i]) {
      assert names[i] in names;
      NodeFields(names[i], catalog, PassiveIds(names, catalog));
    }
  }

  /** What of a tool's node does not depend on the other tools. */
  lemma NodeFields(name: string, catalog: Catalog, passive: seq<string>)
    requires name in catalog
    ensures NodeTold([], catalog, name, ToolNode(name, catalog, []))
    ensures ToolNode(name, catalog, passive)
            == ToolNode(name, catalog, []).(dependsOn := if Waits(catalog, name) then passive else [])
  {
    assert "recon" != "web3" && "recon" != "active" && "web3" != "active" by {
      assert "recon"[0] == 'r' && "web3"[0] == 'w' && "active"[0] == 'a';
    }
  }

  function StageNode(id: string, runner: Runner, dependsOn: seq<string>, resourceClass: string,
                     timeout: real): PipelineNode {
    PipelineNode(id, runner, dependsOn, resourceClass, timeout, 1, Some(id), 1.0, "local_analysis")
  }

  const DEDUP := "stage:dedup"
  const CHAIN := "stage:chain"
  const RANK := "stage:rank"
  const HYPOTHESIS := "stage:hypothesis"

  /** The dedup stage reads the stored findings and ignores failed tools; the others refuse a failed predecessor. */
  function StageNodes(toolIds: seq<string>): seq<PipelineNode> {
    [StageNode(DEDUP, Plain, toolIds, "active", 60.0),
     StageNode(CHAIN, Guarded, [DEDUP], "llm", 60.0),
     StageNode(RANK, Guarded, [CHAIN], "active", 30.0),
     StageNode(HYPOTHESIS, Guarded, [RANK], "llm", 60.0)]
  }

  function Ids(nodes: seq<PipelineNode>): seq<string> {
    seq(|nodes|, i requires 0 <= i < |nodes| => nodes[i].id)
  }

  function Specs(nodes: seq<PipelineNode>): seq<TaskSpec> {
    seq(|nodes|, i requires 0 <= i < |nodes| => ToTaskSpec(nodes[i]))
  }

  /** The task list that `run_p0_scan` hands to the scheduler. */
  function Compile(selected: seq<string>, catalog: Catalog): seq<TaskSpec>
    requires forall n | n in selected :: n in catalog
  {
    var tools := ToolNodes(selected, catalog);
    Specs(tools + StageNodes(Ids(tools)))
  }

  /** A task that goes on after its own failure, is counted with weight one, and has this name, key and dependencies. */
  ghost predicate TaskTold(task: TaskSpec, name: string, key: string, runner: Runner, dependencies: seq<string>) {
    && task.name == name && task.toolName == Some(key) && task.runner == runner && task.dependencies == dependencies
    && task.weight == 1.0 && task.continueOnError && task.rateCost == 1.0
  }

  /** The tasks of a scan: one for each tool in name order, whose key for the cap per tool is the tool's name, then the four
      stages in a row, the first behind all tools. */
  lemma TasksTold(selected: seq<string>, catalog: Catalog)
    requires forall n | n in selected :: n in catalog
    ensures var tasks, tools := Compile(selected, catalog), ToolNodes(selected, catalog);
            && |tools| == |selected| == |Sort(selected, StringLe)| && |tasks| == |selected| + 4
            && (forall i | 0 <= i < |selected| :: Sort(selected, StringLe)[i] in catalog
                  && NodeTold(selected, catalog, Sort(selected, StringLe)[i], tools[i])
                  && TaskTold(tasks[i], "tool:" + Sort(selected, StringLe)[i],
                              if Sort(selected, StringLe)[i] == "" then "tool:" else Sort(selected, StringLe)[i],
                              Guarded, tools[i].dependsOn))
            && TaskTold(tasks[|selected|], "stage:dedup", "stage:dedup", Plain,
                        seq(|selected|, i requires 0 <= i < |selected| => tools[i].id))
            && TaskTold(tasks[|selected| + 1], "stage:chain", "stage:chain", Guarded, ["stage:dedup"])
            && TaskTold(tasks[|selected| + 2], "stage:rank", "stage:rank", Guarded, ["stage:chain"])
            && TaskTold(tasks[|selected| + 3], "stage:hypothesis", "stage:hypothesis", Guarded, ["stage:rank"])
  {
    var tasks, tools, names := Compile(selected, catalog), ToolNodes(selected, catalog), Sort(selected, StringLe);
    ToolNodesTold(selected, catalog);
    assert Ids(tools) == seq(|selected|, i requires 0 <= i < |selected| => tools[i].id);
    forall i | 0 <= i < |selected|
      ensures names[i] in catalog && NodeTold(selected, catalog, names[i], tools[i])
      ensures TaskTold(tasks[i], "tool:" + names[i], if names[i] == "" then "tool:" else names[i], Guarded, tools[i].dependsOn)
    {
      assert names[i] in names;
      assert tasks[i] == ToTaskSpec(tools[i]);
      assert names[i] == "" ==> "tool:" + names[i] == "tool:";
    }
    StagesTold(Ids(tools));
    forall k | 0 <= k < 4 ensures tasks[|selected| + k] == ToTaskSpec(StageNodes(Ids(tools))[k]) {}
  }

  lemma StagesTold(toolIds: seq<string>)
    ensures var stages := StageNodes(toolIds);
            && TaskTold(ToTaskSpec(stages[0]), "stage:dedup", "stage:dedup", Plain, toolIds)
            && TaskTold(ToTaskSpec(stages[1]), "stage:chain", "stage:chain", Guarded, ["stage:dedup"])
            && TaskTold(ToTaskSpec(stages[2]), "stage:rank", "stage:rank", Guarded, ["stage:chain"])
            && TaskTold(ToTaskSpec(stages[3]), "stage:hypothesis", "stage:hypothesis", Guarded, ["stage:rank"])
    ensures forall node | node in StageNodes(toolIds) :: node.maxAttempts == 1
                                                         && node.timeout == if node.id == "stage:rank" then 30.0 else 60.0
  {
    StagesAreNotTools("");
    assert "stage:dedup" != "" && "stage:chain" != "" && "stage:rank" != "" && "stage:hypothesis" != "" by {
      assert |"stage:dedup"| > 0 && |"stage:chain"| > 0 && |"stage:rank"| > 0 && |"stage:hypothesis"| > 0;
    }
  }

  // ----- The compiled graph is accepted -----

  lemma {:induction false} PassiveIdsAre(names: seq<string>, catalog: Catalog)
    ensures forall id :: id in PassiveIds(names, catalog) <==> exists n | n in names :: Passive(catalog, n) && id == ToolId(n)
  {
    if names != [] {
      var front, last := names[..|names| - 1], names[|names| - 1];
      PassiveIdsAre(front, catalog);
      assert names == front + [last];
    }
  }

  lemma ToolIdInjective(a: string, b: string)
    requires ToolId(a) == ToolId(b)
    ensures a == b
  {
    assert ToolId(a)[5..] == a && ToolId(b)[5..] == b;
  }

  ghost predicate IsStage(id: string) {
    id in {DEDUP, CHAIN, RANK, HYPOTHESIS}
  }

  lemma StagesAreNotTools(name: string)
    ensures !IsStage(ToolId(name))
    ensures DEDUP != CHAIN && CHAIN != RANK && DEDUP != RANK && HYPOTHESIS != DEDUP && HYPOTHESIS != CHAIN
            && HYPOTHESIS != RANK
  {
    assert ToolId(name)[0] == 't';
    assert DEDUP[0] == CHAIN[0] == RANK[0] == HYPOTHESIS[0] == 's';
    assert DEDUP[6] == 'd' && CHAIN[6] == 'c' && RANK[6] == 'r' && HYPOTHESIS[6] == 'h';
  }

  function ToolIds(selected: seq<string>, catalog: Catalog): seq<string>
    requires forall n | n in selected :: n in catalog
  {
    Ids(ToolNodes(selected, catalog))
  }

  lemma CompiledLength(selected: seq<string>, catalog: Catalog)
    requires forall n | n in selected :: n in catalog
    ensures |Sort(selected, StringLe)| == |selected|
    ensures |ToolIds(selected, catalog)| == |selected|
    ensures |Compile(selected, catalog)| == |selected| + 4
    ensures forall n | n in Sort(selected, StringLe) :: n in catalog
    ensures forall i | 0 <= i < |selected| :: ToolIds(selected, catalog)[i] == ToolId(Sort(selected, StringLe)[i])
  {
    SortedSelection(selected);
  }

  /** The tasks of a compiled scan in order: the tools by name ... */
  lemma ToolTask(selected: seq<string>, catalog: Catalog, i: nat)
    requires forall n | n in selected :: n in catalog
    requires i < |selected|
    ensures |Sort(selected, StringLe)| == |selected| && |Compile(selected, catalog)| == |selected| + 4
    ensures Sort(selected, StringLe)[i] in catalog
    ensures Compile(selected, catalog)[i]
         == ToTaskSpec(ToolNode(Sort(selected, StringLe)[i], catalog, PassiveIds(Sort(selected, StringLe), catalog)))
  {
    CompiledLength(selected, catalog);
    assert Sort(selected, StringLe)[i] in Sort(selected, StringLe);
  }

  /** ... then the four stages. */
  lemma StageTask(selected: seq<string>, catalog: Catalog, k: nat)
    requires forall n | n in selected :: n in catalog
    requires k < 4
    ensures |Compile(selected, catalog)| == |selected| + 4
    ensures Compile(selected, catalog)[|selected| + k] == ToTaskSpec(StageNodes(ToolIds(selected, catalog))[k])
  {
    CompiledLength(selected, catalog);
  }

  /** How far from the leaves a task of the compiled graph lies. */
  function Level(catalog: Catalog, id: string): nat {
    if id == HYPOTHESIS then 5
    else if id == RANK then 4
    else if id == CHAIN then 3
    else if id == DEDUP then 2
    else if |id| >= 5 && Passive(catalog, id[5..]) then 0
    else 1
  }

  lemma ToolLevel(catalog: Catalog, name: string)
    ensures Level(catalog, ToolId(name)) == if Passive(catalog, name) then 0 else 1
  {
    StagesAreNotTools(name);
    assert ToolId(name)[5..] == name;
  }

  ghost predicate LevelsDescend(catalog: Catalog, spec: TaskSpec) {
    forall d | d in spec.dependencies :: Level(catalog, d) < Level(catalog, spec.name)
  }

  lemma ToolsDescend(selected: seq<string>, catalog: Catalog, i: nat)
    requires forall n | n in selected :: n in catalog
    requires i < |selected| && |Compile(selected, catalog)| == |selected| + 4
    ensures LevelsDescend(catalog, Compile(selected, catalog)[i])
    ensures forall d | d in Compile(selected, catalog)[i].dependencies :: HasTask(Compile(selected, catalog), d)
  {
    var tasks := Compile(selected, catalog);
    var names := Sort(selected, StringLe);
    ToolTask(selected, catalog, i);
    PassiveIdsAre(names, catalog);
    ToolLevel(catalog, names[i]);
    forall d | d in tasks[i].dependencies
      ensures Level(catalog, d) < Level(catalog, tasks[i].name) && HasTask(tasks, d)
    {
      var n :| n in names && Passive(catalog, n) && d == ToolId(n);
      var j :| 0 <= j < |names| && names[j] == n;
      ToolTask(selected, catalog, j);
      assert tasks[j].name == d;
      ToolLevel(catalog, n);
    }
  }

  lemma StagesDescend(selected: seq<string>, catalog: Catalog, k: nat)
    requires forall n | n in selected :: n in catalog
    requires k < 4 && |Compile(selected, catalog)| == |selected| + 4
    ensures LevelsDescend(catalog, Compile(selected, catalog)[|selected| + k])
    ensures forall d | d in Compile(selected, catalog)[|selected| + k].dependencies ::
          HasTask(Compile(selected, catalog), d)
  {
    if k == 0 {
      DedupDescends(selected, catalog);
    } else {
      var tasks := Compile(selected, catalog);
      StageTask(selected, catalog, k);
      StagesAreNotTools("");
      StageTask(selected, catalog, k - 1);
      assert tasks[|selected| + k - 1].name == StageNodes(ToolIds(selected, catalog))[k - 1].id;
    }
  }

  lemma DedupDescends(selected: seq<string>, catalog: Catalog)
    requires forall n | n in selected :: n in catalog
    requires |Compile(selected, catalog)| == |selected| + 4
    ensures LevelsDescend(catalog, Compile(selected, catalog)[|selected|])
    ensures forall d | d in Compile(selected, catalog)[|selected|].dependencies ::
          HasTask(Compile(selected, catalog), d)
  {
    var tasks := Compile(selected, catalog);
    StageTask(selected, catalog, 0);
    StagesAreNotTools("");
    CompiledLength(selected, catalog);
    forall d | d in tasks[|selected|].dependencies ensures Level(catalog, d) <= 1 && HasTask(tasks, d) {
      var j :| 0 <= j < |selected| && ToolIds(selected, catalog)[j] == d;
      ToolTask(selected, catalog, j);
      assert tasks[j].name == d;
      ToolLevel(catalog, Sort(selected, StringLe)[j]);
    }
  }

  lemma TasksDescend(selected: seq<string>, catalog: Catalog, i: nat)
    requires forall n | n in selected :: n in catalog
    requires i < |Compile(selected, catalog)|
    ensures LevelsDescend(catalog, Compile(selected, catalog)[i])
    ensures forall d | d in Compile(selected, catalog)[i].dependencies :: HasTask(Compile(selected, catalog), d)
  {
    CompiledLength(selected, catalog);
    if i < |selected| {
      ToolsDescend(selected, catalog, i);
    } else {
      StagesDescend(selected, catalog, i - |selected|);
    }
  }

  lemma {:induction false} LevelsAlongChain(table: Table, catalog: Catalog, path: seq<string>)
    requires forall n | n in table :: table[n].name == n && LevelsDescend(catalog, table[n])
    requires |path| >= 2 && Chain(table, path)
    ensures Level(catalog, path[|path| - 1]) < Level(catalog, path[0])
  {
    assert path[1] in table[path[0]].dependencies;
    if |path| > 2 {
      var rest := path[1..];
      assert Chain(table, rest) by {
        forall m | 0 <= m < |rest| - 1 ensures rest[m + 1] in table[rest[m]].dependencies {
          assert rest[m + 1] == path[m + 2] && rest[m] == path[m + 1];
        }
      }
      LevelsAlongChain(table, catalog, rest);
    }
  }

  lemma CompiledAcyclic(selected: seq<string>, catalog: Catalog)
    requires forall n | n in selected :: n in catalog
    ensures Acyclic(TableOf(Compile(selected, catalog)))
  {
    var tasks := Compile(selected, catalog);
    var table := TableOf(tasks);
    TableOfLooksUp(tasks);
    forall n | n in table ensures table[n].name == n && LevelsDescend(catalog, table[n]) {
      var i :| 0 <= i < |tasks| && tasks[i] == table[n];
      TasksDescend(selected, catalog, i);
    }
    forall n, path | n in table && CycleWalk(table, path, n) ensures false {
      LevelsAlongChain(table, catalog, path);
    }
  }

  lemma TaskName(selected: seq<string>, catalog: Catalog, i: nat)
    requires forall n | n in selected :: n in catalog
    requires i < |selected| + 4
    ensures |Compile(selected, catalog)| == |selected| + 4 && |Sort(selected, StringLe)| == |selected|
    ensures Compile(selected, catalog)[i].name
         == if i < |selected| then ToolId(Sort(selected, StringLe)[i])
            else [DEDUP, CHAIN, RANK, HYPOTHESIS][i - |selected|]
  {
    CompiledLength(selected, catalog);
    if i < |selected| { ToolTask(selected, catalog, i); } else { StageTask(selected, catalog, i - |selected|); }
  }

  lemma DifferentNames(selected: seq<string>, catalog: Catalog, i: nat, j: nat)
    requires (forall n | n in selected :: n in catalog) && NoDup(Sort(selected, StringLe))
    requires |Sort(selected, StringLe)| == |selected| && i < j < |Compile(selected, catalog)| == |selected| + 4
    ensures Compile(selected, catalog)[i].name != Compile(selected, catalog)[j].name
  {
    var names := Sort(selected, StringLe);
    TaskName(selected, catalog, i);
    TaskName(selected, catalog, j);
    if j < |names| {
      if ToolId(names[i]) == ToolId(names[j]) { ToolIdInjective(names[i], names[j]); }
    } else {
      StagesAreNotTools(if i < |names| then names[i] else "");
    }
  }

  lemma DistinctCompiled(selected: seq<string>, catalog: Catalog)
    requires (forall n | n in selected :: n in catalog) && NoDup(selected)
    ensures DistinctNames(Compile(selected, catalog))
  {
    SortedSelection(selected);
    CompiledLength(selected, catalog);
    forall i, j | 0 <= i < j < |Compile(selected, catalog)|
      ensures Compile(selected, catalog)[i].name != Compile(selected, catalog)[j].name
    {
      DifferentNames(selected, catalog, i, j);
    }
  }

  lemma CompiledNames(selected: seq<string>, catalog: Catalog)
    requires forall n | n in selected :: n in catalog
    ensures DistinctNames(Compile(selected, catalog)) <==> NoDup(selected)
  {
    SortedSelection(selected);
    CompiledLength(selected, catalog);
    var names := Sort(selected, StringLe);
    var tasks := Compile(selected, catalog);
    if NoDup(selected) { DistinctCompiled(selected, catalog); }
    if DistinctNames(tasks) {
      forall i, j | 0 <= i < j < |names| ensures names[i] != names[j] {
        TaskName(selected, catalog, i);
        TaskName(selected, catalog, j);
        assert tasks[i].name != tasks[j].name;
      }
    }
  }

  lemma NotBlank(text: string)
    requires text != [] && !IsSpace(text[0])
    ensures !Blank(text)
  {
    assert text[0] in text;
  }

  lemma CompiledWellFormed(selected: seq<string>, catalog: Catalog, i: nat)
    requires forall n | n in selected :: n in catalog
    requires i < |Compile(selected, catalog)|
    ensures var t := Compile(selected, catalog)[i]; WellFormedSpec(t) && t.continueOnError && t.weight == 1.0
  {
    CompiledLength(selected, catalog);
    TaskName(selected, catalog, i);
    if i < |selected| {
      ToolTask(selected, catalog, i);
      NotBlank("automated_tool");
      NotBlank(ToolId(Sort(selected, StringLe)[i]));
    } else {
      StageWellFormed(selected, catalog, i - |selected|);
    }
  }

  lemma StageWellFormed(selected: seq<string>, catalog: Catalog, k: nat)
    requires forall n | n in selected :: n in catalog
    requires k < 4 && |Compile(selected, catalog)| == |selected| + 4
    ensures var t := Compile(selected, catalog)[|selected| + k]; WellFormedSpec(t) && t.continueOnError && t.weight == 1.0
  {
    StageTask(selected, catalog, k);
    NotBlank("local_analysis");
    NotBlank(DEDUP);
    NotBlank(CHAIN);
    NotBlank(RANK);
    NotBlank(HYPOTHESIS);
  }

  /** The scheduler accepts the compiled graph exactly when no tool was selected twice. */
  lemma CompiledGraphAccepted(selected: seq<string>, catalog: Catalog)
    requires forall n | n in selected :: n in catalog
    ensures Acceptable(Compile(selected, catalog)) <==> NoDup(selected)
  {
    CompiledNames(selected, catalog);
    CompiledAcyclic(selected, catalog);
    var tasks := Compile(selected, catalog);
    forall t | t in tasks ensures WellFormedSpec(t) {
      var i :| 0 <= i < |tasks| && tasks[i] == t;
      CompiledWellFormed(selected, catalog, i);
    }
    forall i, d | 0 <= i < |tasks| && d in tasks[i].dependencies ensures HasTask(tasks, d) {
      TasksDescend(selected, catalog, i);
    }
  }
}
