/** Plans, step results and dependency graphs shared by the plan validator and the plan executor. */
module MasterPlan {

  datatype PlanStep = PlanStep(id: string, agent: string, taskType: string, dependsOn: seq<string>, required: bool)

  type Plan = seq<PlanStep>

  datatype Status = Pending | Running | Success | Failed | Skipped

  datatype StepResult = StepResult(agent: string, taskType: string, status: Status, data: string, errorCode: string)

  /** The executor's mutable `results` dictionary. */
  type Results = map<string, StepResult>

  type Graph = map<string, seq<string>>

  function Ids(plan: Plan): set<string> {
    set s | s in plan :: s.id
  }

  function IdSeq(plan: Plan): seq<string> {
    seq(|plan|, i requires 0 <= i < |plan| => plan[i].id)
  }

  ghost predicate UniqueIds(plan: Plan) {
    forall i, j :: 0 <= i < j < |plan| ==> plan[i].id != plan[j].id
  }

  ghost predicate DependenciesKnown(plan: Plan) {
    forall s, d :: s in plan && d in s.dependsOn ==> d in Ids(plan)
  }

  /** The executor's `steps` dictionary: identifier to step. */
  function Steps(plan: Plan): (steps: map<string, PlanStep>)
    requires UniqueIds(plan)
    ensures steps.Keys == Ids(plan)
    ensures forall s :: s in plan ==> steps[s.id] == s
    ensures forall id :: id in steps ==> steps[id] in plan && steps[id].id == id
  {
    map s | s in plan :: s.id := s
  }

  function DependencyGraph(plan: Plan): (g: Graph)
    requires UniqueIds(plan)
    ensures g.Keys == Ids(plan)
    ensures forall s :: s in plan ==> g[s.id] == s.dependsOn
  {
    map s | s in plan :: s.id := s.dependsOn
  }

  ghost predicate Closed(g: Graph) {
    forall v, d :: v in g && d in g[v] ==> d in g
  }

  /** Each entry of `walk` depends on the entry after it. */
  ghost predicate IsWalk(g: Graph, walk: seq<string>) {
    forall i :: 0 <= i < |walk| - 1 ==> walk[i] in g && walk[i + 1] in g[walk[i]]
  }

  ghost predicate IsCycle(g: Graph, walk: seq<string>) {
    |walk| >= 2 && walk[0] == walk[|walk| - 1] && IsWalk(g, walk)
  }

  ghost predicate HasCycle(g: Graph) {
    exists walk :: IsCycle(g, walk)
  }

  /** `order` lists every dependency before its dependents, without repetition. */
  ghost predicate DependenciesFirst(g: Graph, order: seq<string>) {
    && (forall i, j :: 0 <= i < j < |order| ==> order[i] != order[j])
    && (forall i :: 0 <= i < |order| ==> order[i] in g)
    && (forall i, d :: 0 <= i < |order| && d in g[order[i]] ==> d in order[..i])
  }

  /** A dependencies-first order of the whole graph. */
  ghost predicate IsTopological(g: Graph, order: seq<string>) {
    DependenciesFirst(g, order) && (forall v :: v in g ==> v in order)
  }

  function Position(order: seq<string>, v: string): (i: nat)
    requires v in order
    ensures i < |order| && order[i] == v
  {
    if order[0] == v then 0 else 1 + Position(order[1..], v)
  }

  lemma DependencyIsEarlier(g: Graph, order: seq<string>, v: string, d: string)
    requires DependenciesFirst(g, order) && v in order && v in g && d in g[v]
    ensures d in order && Position(order, d) < Position(order, v)
  {
    var i := Position(order, v);
    assert d in order[..i];
    var j :| 0 <= j < i && order[j] == d;
    assert order[Position(order, d)] == order[j];
  }

  lemma {:induction false} WalkDescends(g: Graph, order: seq<string>, walk: seq<string>)
    requires IsTopological(g, order) && IsWalk(g, walk) && |walk| >= 2 && Closed(g)
    ensures walk[0] in order && walk[|walk| - 1] in order
    ensures Position(order, walk[|walk| - 1]) < Position(order, walk[0])
  {
    assert walk[0] in g && walk[1] in g[walk[0]];
    DependencyIsEarlier(g, order, walk[0], walk[1]);
    if |walk| > 2 {
      var tail := walk[1..];
      assert forall i :: 0 <= i < |tail| ==> tail[i] == walk[i + 1];
      WalkDescends(g, order, tail);
    }
  }

  /** A graph that has a dependencies-first order has no cycle. */
  lemma TopologicalHasNoCycle(g: Graph, order: seq<string>)
    requires IsTopological(g, order) && Closed(g)
    ensures !HasCycle(g)
  {
    if HasCycle(g) {
      var walk :| IsCycle(g, walk);
      WalkDescends(g, order, walk);
    }
  }

  lemma Extend(g: Graph, order: seq<string>, v: string)
    requires DependenciesFirst(g, order) && v in g && v !in order
    requires forall d :: d in g[v] ==> d in order
    ensures DependenciesFirst(g, order + [v])
  {
    var longer := order + [v];
    forall i, d | 0 <= i < |longer| && d in g[longer[i]] ensures d in longer[..i] {
      if i < |order| {
        assert longer[..i] == order[..i];
      } else {
        assert longer[..i] == order;
      }
    }
  }

  /** Following unlisted dependencies from the end of `walk` must stop, or it would close a cycle. */
  lemma {:induction false} NextToList(g: Graph, order: seq<string>, walk: seq<string>) returns (v: string)
    requires Closed(g) && !HasCycle(g) && IsWalk(g, walk) && walk != []
    requires forall x :: x in walk ==> x in g && x !in order
    ensures v in g && v !in order && forall d :: d in g[v] ==> d in order
    decreases g.Keys - (set x | x in walk)
  {
    v := walk[|walk| - 1];
    if d :| d in g[v] && d !in order {
      var longer := walk + [d];
      if d in walk {
        var k :| 0 <= k < |walk| && walk[k] == d;
        var loop := longer[k..];
        assert forall i :: 0 <= i < |loop| ==> loop[i] == longer[k + i];
        assert IsCycle(g, loop);
      }
      assert d in g.Keys - (set x | x in walk) && d !in g.Keys - (set x | x in longer);
      v := NextToList(g, order, longer);
    }
  }

  lemma {:induction false} CompleteOrder(g: Graph, order: seq<string>) returns (whole: seq<string>)
    requires Closed(g) && !HasCycle(g) && DependenciesFirst(g, order)
    ensures IsTopological(g, whole)
    decreases g.Keys - (set x | x in order)
  {
    whole := order;
    if start :| start in g && start !in order {
      var v := NextToList(g, order, [start]);
      Extend(g, order, v);
      assert v in g.Keys - (set x | x in order) && v !in g.Keys - (set x | x in order + [v]);
      whole := CompleteOrder(g, order + [v]);
    }
  }

  /** A graph without cycles is exactly one that has a dependencies-first order. */
  lemma AcyclicIffOrdered(g: Graph)
    requires Closed(g)
    ensures !HasCycle(g) <==> exists order :: IsTopological(g, order)
  {
    if !HasCycle(g) {
      var order := CompleteOrder(g, []);
    } else if order :| IsTopological(g, order) {
      TopologicalHasNoCycle(g, order);
    }
  }
}
