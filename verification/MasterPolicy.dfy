/** Validation of a master plan: size, identity, routing, dependency references and the depth-first cycle check. */
module MasterPolicy {
  import opened MasterPlan

  const AGENT_QUERY := "data_query"
  const AGENT_EXEC := "biz_exec"
  const AGENT_RAG := "knowledge_rag"

  const AVAILABLE_AGENTS: set<string> := {AGENT_QUERY, AGENT_EXEC, AGENT_RAG}

  const TASK_ROUTE_MAP: map<string, seq<string>> := map[
    "customer_service" := [AGENT_EXEC],
    "stock_analysis" := [AGENT_QUERY],
    "social_marketing" := [AGENT_EXEC],
    "competitor_watch" := [AGENT_QUERY],
    "goods_search" := [AGENT_QUERY],
    "goods_catalog" := [AGENT_QUERY],
    "knowledge_qa" := [AGENT_RAG],
    "ad_optimize" := [AGENT_EXEC],
    "ad_query" := [AGENT_QUERY],
    "data_check" := [AGENT_QUERY],
    "data_analysis" := [AGENT_QUERY],
    "order_query" := [AGENT_QUERY],
    "ops_report" := [AGENT_EXEC],
    "risk_control" := [AGENT_EXEC]
  ]

  datatype ErrorCode =
    | PlanTooLarge
    | DuplicateStepId
    | InvalidAgent
    | InvalidTaskType
    | InvalidAgentRoute
    | SelfDependency
    | InvalidDependency
    | PlanCycle

  datatype Verdict = Accepted | Rejected(code: ErrorCode)

  ghost predicate RouteAllowed(step: PlanStep) {
    step.agent in AVAILABLE_AGENTS && step.taskType in TASK_ROUTE_MAP && step.agent in TASK_ROUTE_MAP[step.taskType]
  }

  /** The routes by agent. */
  lemma RoutesByAgent(step: PlanStep)
    ensures RouteAllowed(step) <==>
            || (step.agent == "data_query" && step.taskType in {
                  "stock_analysis", "competitor_watch", "goods_search", "goods_catalog", "ad_query", "data_check",
                  "data_analysis", "order_query"})
            || (step.agent == "biz_exec" && step.taskType in {
                  "customer_service", "social_marketing", "ad_optimize", "ops_report", "risk_control"})
            || (step.agent == "knowledge_rag" && step.taskType == "knowledge_qa")
  {
  }

  ghost predicate StepWellFormed(step: PlanStep, known: set<string>) {
    && RouteAllowed(step)
    && step.id !in step.dependsOn
    && (forall d :: d in step.dependsOn ==> d in known)
  }

  /** `code` is the rule that `step` breaks first, in the order the rules are checked. */
  ghost predicate BreaksFirst(step: PlanStep, known: set<string>, code: ErrorCode) {
    match code
    case InvalidAgent => step.agent !in AVAILABLE_AGENTS
    case InvalidTaskType => step.agent in AVAILABLE_AGENTS && step.taskType !in TASK_ROUTE_MAP
    case InvalidAgentRoute =>
      && step.agent in AVAILABLE_AGENTS && step.taskType in TASK_ROUTE_MAP
      && step.agent !in TASK_ROUTE_MAP[step.taskType]
    case SelfDependency => RouteAllowed(step) && step.id in step.dependsOn
    case InvalidDependency =>
      RouteAllowed(step) && step.id !in step.dependsOn && exists d :: d in step.dependsOn && d !in known
    case _ => false
  }

  /** Everything the validator promises of an accepted plan. */
  ghost predicate ValidPlan(plan: Plan, maxSteps: int) {
    && |plan| <= maxSteps
    && UniqueIds(plan)
    && (forall s :: s in plan ==> StepWellFormed(s, Ids(plan)))
    && !HasCycle(DependencyGraph(plan))
  }

  ghost predicate Distinct(ids: seq<string>) {
    forall i, j :: 0 <= i < j < |ids| ==> ids[i] != ids[j]
  }

  lemma DistinctGrows(init: seq<string>, last: string)
    ensures Distinct(init + [last]) <==> Distinct(init) && last !in init
  {
    var ids := init + [last];
    if Distinct(ids) {
      assert forall i :: 0 <= i < |init| ==> ids[i] == init[i] && ids[i] != ids[|init|];
    }
  }

  lemma {:induction false} DistinctByCardinality(ids: seq<string>)
    ensures |set x | x in ids| <= |ids|
    ensures |set x | x in ids| == |ids| <==> Distinct(ids)
  {
    if ids == [] {
    } else {
      var n := |ids| - 1;
      var init, last := ids[..n], ids[n];
      DistinctByCardinality(init);
      DistinctGrows(init, last);
      assert ids == init + [last];
      var members := set x | x in init;
      assert (set x | x in ids) == members + {last};
      if last in init {
        assert members + {last} == members;
      } else {
        assert |members + {last}| == |members| + 1;
      }
    }
  }

  /** A call for a step that is still on the stack closes a cycle. */
  lemma CallClosesCycle(g: Graph, stack: seq<string>, id: string)
    requires IsWalk(g, stack) && id in stack && stack[|stack| - 1] in g && id in g[stack[|stack| - 1]]
    ensures HasCycle(g)
  {
    var k :| 0 <= k < |stack| && stack[k] == id;
    var walk := stack[k..] + [id];
    forall i | 0 <= i < |walk| - 1 ensures walk[i] in g && walk[i + 1] in g[walk[i]] {
      assert walk[i] == stack[k + i];
    }
    assert IsCycle(g, walk);
  }

  /** The validator's nested depth-first search, with the two sets that it mutates. */
  class CycleCheck {
    const graph: Graph
    var visiting: set<string>
    var visited: set<string>
    // The chain of active calls, outermost first, and the steps in the order they were finished.
    ghost var stack: seq<string>
    ghost var order: seq<string>

    ghost predicate Valid()
      reads this
    {
      && Closed(graph)
      && (forall v :: v in visiting <==> v in stack)
      && (forall v :: v in visited <==> v in order)
      && visiting !! visited
      && IsWalk(graph, stack)
      && (forall v :: v in stack ==> v in graph)
      && DependenciesFirst(graph, order)
    }

    constructor (graph: Graph)
      requires Closed(graph)
      ensures Valid() && this.graph == graph && visiting == {} && visited == {} && stack == [] && order == []
    {
      this.graph := graph;
      visiting, visited, stack, order := {}, {}, [], [];
    }

    /** Reports a cycle exactly by failing; a return without failure leaves `id` and all it depends on finished. */
    method Visit(id: string) returns (cycle: bool)
      requires Valid() && id in graph
      requires stack != [] ==> id in graph[stack[|stack| - 1]]
      modifies this
      ensures cycle ==> HasCycle(graph)
      ensures !cycle ==> Valid() && visiting == old(visiting) && stack == old(stack)
      ensures !cycle ==> id in visited && old(visited) <= visited
      decreases graph.Keys - visiting - visited
    {
      if id in visiting {
        CallClosesCycle(graph, stack, id);
        return true;
      }
      if id in visited {
        return false;
      }
      ghost var callers, pool := stack, graph.Keys - visiting - visited;
      visiting := visiting + {id};
      stack := stack + [id];
      var deps := graph[id];
      var i := 0;
      assert stack[|stack| - 1] == id;
      while i < |deps|
        invariant 0 <= i <= |deps|
        invariant Valid() && visiting == old(visiting) + {id} && stack == old(stack) + [id]
        invariant old(visited) <= visited && id !in order
        invariant forall j :: 0 <= j < i ==> deps[j] in visited
      {
        assert id in pool && graph.Keys - visiting - visited <= pool - {id};
        cycle := Visit(deps[i]);
        if cycle {
          return;
        }
        i := i + 1;
      }
      visiting := visiting - {id};
      visited := visited + {id};
      stack := callers;
      Extend(graph, order, id);
      order := order + [id];
      cycle := false;
    }
  }

  /** Scanning in list order, `code` is the first rule broken by the first step that is not well formed. */
  ghost predicate FirstFailure(plan: Plan, known: set<string>, code: ErrorCode) {
    exists i ::
      && 0 <= i < |plan| && BreaksFirst(plan[i], known, code)
      && forall j :: 0 <= j < i ==> StepWellFormed(plan[j], known)
  }

  /** What each verdict says about the plan. */
  ghost predicate Explains(plan: Plan, maxSteps: int, verdict: Verdict) {
    match verdict
    case Accepted => ValidPlan(plan, maxSteps)
    case Rejected(PlanTooLarge) => |plan| > maxSteps
    case Rejected(DuplicateStepId) => |plan| <= maxSteps && !UniqueIds(plan)
    case Rejected(PlanCycle) =>
      && |plan| <= maxSteps && UniqueIds(plan)
      && (forall s :: s in plan ==> StepWellFormed(s, Ids(plan)))
      && HasCycle(DependencyGraph(plan))
    case Rejected(code) => |plan| <= maxSteps && UniqueIds(plan) && FirstFailure(plan, Ids(plan), code)
  }

  /** No plan is explained by two verdicts, so the verdict that is returned holds in both directions. */
  lemma VerdictIsUnique(plan: Plan, maxSteps: int, v: Verdict, w: Verdict)
    requires Explains(plan, maxSteps, v) && Explains(plan, maxSteps, w)
    ensures v == w
  {
    if v.Rejected? && w.Rejected? && FirstFailure(plan, Ids(plan), v.code) && FirstFailure(plan, Ids(plan), w.code) {
      FirstFailureIsUnique(plan, Ids(plan), v.code, w.code);
    } else if v.Rejected? && FirstFailure(plan, Ids(plan), v.code) {
      FailureIsNotWellFormed(plan, Ids(plan), v.code);
    } else if w.Rejected? && FirstFailure(plan, Ids(plan), w.code) {
      FailureIsNotWellFormed(plan, Ids(plan), w.code);
    }
  }

  lemma FailureIsNotWellFormed(plan: Plan, known: set<string>, code: ErrorCode)
    requires FirstFailure(plan, known, code)
    ensures exists s :: s in plan && !StepWellFormed(s, known)
    ensures code !in {PlanTooLarge, DuplicateStepId, PlanCycle}
  {
    var i :| 0 <= i < |plan| && BreaksFirst(plan[i], known, code)
             && forall j :: 0 <= j < i ==> StepWellFormed(plan[j], known);
    assert plan[i] in plan;
  }

  lemma FirstFailureIsUnique(plan: Plan, known: set<string>, c: ErrorCode, d: ErrorCode)
    requires FirstFailure(plan, known, c) && FirstFailure(plan, known, d)
    ensures c == d
  {
    var i :| 0 <= i < |plan| && BreaksFirst(plan[i], known, c) && forall j :: 0 <= j < i ==> StepWellFormed(plan[j], known);
    var k :| 0 <= k < |plan| && BreaksFirst(plan[k], known, d) && forall j :: 0 <= j < k ==> StepWellFormed(plan[j], known);
    assert !StepWellFormed(plan[i], known) && !StepWellFormed(plan[k], known);
    assert i == k;
  }

  method ValidateMasterPlan(plan: Plan, maxSteps: int) returns (verdict: Verdict)
    ensures Explains(plan, maxSteps, verdict)
  {
    if |plan| > maxSteps {
      return Rejected(PlanTooLarge);
    }
    var ids := IdSeq(plan);
    DistinctByCardinality(ids);
    assert forall i :: 0 <= i < |plan| ==> ids[i] == plan[i].id;
    var known := set x | x in ids;
    assert known == Ids(plan);
    if |ids| != |known| {
      return Rejected(DuplicateStepId);
    }
    verdict := CheckSteps(plan, known);
    if verdict.Rejected? {
      return;
    }
    var graph := DependencyGraph(plan);
    var cycle := CheckCycles(graph, ids);
    verdict := if cycle then Rejected(PlanCycle) else Accepted;
  }

  method CheckSteps(plan: Plan, known: set<string>) returns (verdict: Verdict)
    ensures verdict.Accepted? <==> forall s :: s in plan ==> StepWellFormed(s, known)
    ensures forall code :: verdict == Rejected(code) <==> FirstFailure(plan, known, code)
  {
    var i := 0;
    while i < |plan|
      invariant 0 <= i <= |plan|
      invariant forall j :: 0 <= j < i ==> StepWellFormed(plan[j], known)
    {
      verdict := CheckStep(plan[i], known);
      if verdict.Rejected? {
        assert FirstFailure(plan, known, verdict.code);
        return;
      }
      i := i + 1;
    }
    verdict := Accepted;
  }

  method CheckCycles(graph: Graph, ids: seq<string>) returns (cycle: bool)
    requires Closed(graph) && (forall v :: v in graph <==> v in ids)
    ensures cycle <==> HasCycle(graph)
  {
    var check := new CycleCheck(graph);
    var i := 0;
    while i < |ids|
      invariant 0 <= i <= |ids|
      invariant check.Valid() && check.visiting == {} && check.stack == [] && check.graph == graph
      invariant forall j :: 0 <= j < i ==> ids[j] in check.visited
    {
      cycle := check.Visit(ids[i]);
      if cycle {
        return;
      }
      i := i + 1;
    }
    TopologicalHasNoCycle(graph, check.order);
    cycle := false;
  }

  method CheckStep(step: PlanStep, known: set<string>) returns (verdict: Verdict)
    ensures verdict.Accepted? <==> StepWellFormed(step, known)
    ensures verdict.Rejected? ==> BreaksFirst(step, known, verdict.code)
  {
    if step.agent !in AVAILABLE_AGENTS {
      return Rejected(InvalidAgent);
    }
    if step.taskType !in TASK_ROUTE_MAP {
      return Rejected(InvalidTaskType);
    }
    if step.agent !in TASK_ROUTE_MAP[step.taskType] {
      return Rejected(InvalidAgentRoute);
    }
    if step.id in step.dependsOn {
      return Rejected(SelfDependency);
    }
    if exists d :: d in step.dependsOn && d !in known {
      return Rejected(InvalidDependency);
    }
    return Accepted;
  }
}
