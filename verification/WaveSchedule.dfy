/**
  What one loop of the plan executor does, as functions: the skip pass over the listing, the ready set, the gathered
  wave, and the loop with a record of its waves. The step table and the listing order are kept apart, so that two
  listings of the same steps can be compared.
 */
module WaveSchedule {
  import opened MasterPlan

  const DEPENDENCY_FAILED := "DEPENDENCY_FAILED"

  type Table = map<string, PlanStep>

  datatype Upstream = Upstream(agent: string, taskType: string, data: string)

  datatype Reply = Reply(success: bool, data: string, errorCode: string)

  /** An agent answers a dispatched step from the step and the results of its successful dependencies. */
  type Oracle = (PlanStep, map<string, Upstream>) -> Reply

  predicate Terminal(status: Status) {
    status in {Success, Failed, Skipped}
  }

  ghost predicate WellLinked(steps: Table) {
    forall id, d :: id in steps && d in steps[id].dependsOn ==> d in steps
  }

  ghost predicate Linked(steps: Table, r: Results) {
    WellLinked(steps) && r.Keys == steps.Keys
  }

  /** `ids` names every step, each at one position only. */
  ghost predicate Listing(steps: Table, ids: seq<string>) {
    && (forall i :: 0 <= i < |ids| ==> Position(ids, ids[i]) == i)
    && (forall id :: id in ids <==> id in steps)
  }

  function GraphOf(steps: Table): Graph {
    map id | id in steps :: steps[id].dependsOn
  }

  ghost predicate Acyclic(steps: Table) {
    !HasCycle(GraphOf(steps))
  }

  /** No step is marked as in flight. */
  ghost predicate Idle(r: Results) {
    forall id :: id in r ==> r[id].status != Running
  }

  /** Some required dependency has failed or was skipped. */
  predicate Blocked(steps: Table, r: Results, id: string)
    requires Linked(steps, r) && id in steps
  {
    exists d :: d in steps[id].dependsOn && r[d].status in {Failed, Skipped} && steps[d].required
  }

  predicate Ready(steps: Table, r: Results, id: string)
    requires Linked(steps, r) && id in steps
  {
    r[id].status == Pending && forall d :: d in steps[id].dependsOn ==> Terminal(r[d].status)
  }

  function Skip(result: StepResult): StepResult {
    result.(status := Skipped, errorCode := DEPENDENCY_FAILED)
  }

  function UpstreamContext(steps: Table, r: Results, id: string): map<string, Upstream>
    requires Linked(steps, r) && id in steps
  {
    map d | d in steps[id].dependsOn && r[d].status == Success :: Upstream(steps[d].agent, steps[d].taskType, r[d].data)
  }

  function StepOutcome(step: PlanStep, reply: Reply): StepResult {
    StepResult(step.agent, step.taskType, if reply.success then Success else Failed, reply.data,
               if reply.success then "" else reply.errorCode)
  }

  function Outcome(steps: Table, oracle: Oracle, r: Results, id: string): StepResult
    requires Linked(steps, r) && id in steps
  {
    StepOutcome(steps[id], oracle(steps[id], UpstreamContext(steps, r, id)))
  }

  function SkipAt(steps: Table, r: Results, id: string): Results
    requires Linked(steps, r) && id in steps
  {
    if r[id].status == Pending && Blocked(steps, r, id) then r[id := Skip(r[id])] else r
  }

  /** The dictionary after the skip pass has visited the first `n` steps of the listing. */
  function SkipPass(steps: Table, ids: seq<string>, n: nat, r: Results): (s: Results)
    requires Linked(steps, r) && Listing(steps, ids) && n <= |ids|
    ensures Linked(steps, s)
  {
    if n == 0 then r else SkipAt(steps, SkipPass(steps, ids, n - 1, r), ids[n - 1])
  }

  function ReadySet(steps: Table, r: Results): set<string>
    requires Linked(steps, r)
  {
    set id | id in r && Ready(steps, r, id)
  }

  /** Every ready step is sent, and all of their results are stored. */
  function Gather(steps: Table, oracle: Oracle, r: Results): Results
    requires Linked(steps, r)
  {
    map id | id in r :: if Ready(steps, r, id) then Outcome(steps, oracle, r, id) else r[id]
  }

  function PendingIds(r: Results): set<string> {
    set id | id in r && r[id].status == Pending
  }

  /** One iteration of the loop: the dictionary before it, after its skip pass, and the steps it sent. */
  datatype Wave = Wave(before: Results, passed: Results, sent: set<string>)

  datatype Run = Run(results: Results, waves: seq<Wave>, stuck: bool)

  function Loop(steps: Table, ids: seq<string>, oracle: Oracle, r: Results): Run
    requires Linked(steps, r) && Listing(steps, ids)
    decreases |PendingIds(r)|
  {
    if PendingIds(r) == {} then
      Run(r, [], false)
    else
      var s := SkipPass(steps, ids, |ids|, r);
      if s == r && ReadySet(steps, s) == {} then
        Run(r, [], true)
      else
        PendingShrinks(steps, ids, oracle, r);
        var rest := Loop(steps, ids, oracle, Gather(steps, oracle, s));
        Run(rest.results, [Wave(r, s, ReadySet(steps, s))] + rest.waves, rest.stuck)
  }

  /** One unfolding of the loop. */
  lemma LoopUnfolds(steps: Table, ids: seq<string>, oracle: Oracle, r: Results)
    requires Linked(steps, r) && Listing(steps, ids) && PendingIds(r) != {}
    ensures var s := SkipPass(steps, ids, |ids|, r);
            var run := Loop(steps, ids, oracle, r);
            if s == r && ReadySet(steps, s) == {} then run == Run(r, [], true)
            else
              var rest := Loop(steps, ids, oracle, Gather(steps, oracle, s));
              run == Run(rest.results, [Wave(r, s, ReadySet(steps, s))] + rest.waves, rest.stuck)
  {
  }

  // ---------- The skip pass ----------

  lemma {:induction false} SkipPassKeepsEntry(steps: Table, ids: seq<string>, n: nat, r: Results, id: string)
    requires Linked(steps, r) && Listing(steps, ids) && n <= |ids| && id in r
    ensures var s := SkipPass(steps, ids, n, r)[id]; s == r[id] || (r[id].status == Pending && s == Skip(r[id]))
  {
    if n == 0 {
    } else {
      SkipPassKeepsEntry(steps, ids, n - 1, r, id);
    }
  }

  lemma {:induction false} NotYetVisited(steps: Table, ids: seq<string>, n: nat, r: Results, j: nat)
    requires Linked(steps, r) && Listing(steps, ids) && n <= j < |ids|
    ensures SkipPass(steps, ids, n, r)[ids[j]] == r[ids[j]]
  {
    if n == 0 {
    } else {
      NotYetVisited(steps, ids, n - 1, r, j);
      assert Position(ids, ids[n - 1]) == n - 1 && Position(ids, ids[j]) == j;
    }
  }

  lemma SkipPassKeeps(steps: Table, ids: seq<string>, n: nat, r: Results)
    requires Linked(steps, r) && Listing(steps, ids) && n <= |ids|
    ensures forall id :: id in r ==>
              var s := SkipPass(steps, ids, n, r);
              s[id] == r[id] || (r[id].status == Pending && s[id] == Skip(r[id]))
    ensures forall j :: n <= j < |ids| ==> SkipPass(steps, ids, n, r)[ids[j]] == r[ids[j]]
  {
    forall id | id in r
      ensures var s := SkipPass(steps, ids, n, r);
              s[id] == r[id] || (r[id].status == Pending && s[id] == Skip(r[id]))
    {
      SkipPassKeepsEntry(steps, ids, n, r, id);
    }
    forall j | n <= j < |ids| ensures SkipPass(steps, ids, n, r)[ids[j]] == r[ids[j]] {
      NotYetVisited(steps, ids, n, r, j);
    }
  }

  /** What the visit to a step decides is what the whole pass leaves for it. */
  lemma {:induction false} SkipPassDecides(steps: Table, ids: seq<string>, j: nat, n: nat, r: Results)
    requires Linked(steps, r) && Listing(steps, ids) && j < n <= |ids|
    ensures SkipPass(steps, ids, n, r)[ids[j]] ==
            if r[ids[j]].status == Pending && Blocked(steps, SkipPass(steps, ids, j, r), ids[j])
            then Skip(r[ids[j]]) else r[ids[j]]
  {
    if n == j + 1 {
      NotYetVisited(steps, ids, j, r, j);
    } else {
      SkipPassDecides(steps, ids, j, n - 1, r);
    }
  }

  lemma {:induction false} SkipPassMonotone(steps: Table, ids: seq<string>, j: nat, n: nat, r: Results)
    requires Linked(steps, r) && Listing(steps, ids) && j <= n <= |ids|
    ensures forall id :: id in r && SkipPass(steps, ids, j, r)[id].status != Pending ==>
              SkipPass(steps, ids, n, r)[id] == SkipPass(steps, ids, j, r)[id]
    decreases n
  {
    if j == n {
    } else {
      SkipPassMonotone(steps, ids, j, n - 1, r);
    }
  }

  // ---------- One iteration ----------

  function Next(steps: Table, ids: seq<string>, oracle: Oracle, r: Results): (next: Results)
    requires Linked(steps, r) && Listing(steps, ids)
    ensures Linked(steps, next)
  {
    Gather(steps, oracle, SkipPass(steps, ids, |ids|, r))
  }

  /** A result that is not pending is never written again, and a pending one is skipped, answered or left alone. */
  lemma NextKeeps(steps: Table, ids: seq<string>, oracle: Oracle, r: Results, id: string)
    requires Linked(steps, r) && Listing(steps, ids) && id in r
    ensures r[id].status != Pending ==> Next(steps, ids, oracle, r)[id] == r[id]
    ensures Next(steps, ids, oracle, r)[id].status == Pending ==> Next(steps, ids, oracle, r)[id] == r[id]
    ensures r[id].status != Running ==> Next(steps, ids, oracle, r)[id].status != Running
  {
    SkipPassKeeps(steps, ids, |ids|, r);
  }

  /** When an iteration does something, it decides some step. */
  lemma SomethingDecided(steps: Table, ids: seq<string>, oracle: Oracle, r: Results) returns (id: string)
    requires Linked(steps, r) && Listing(steps, ids)
    requires var s := SkipPass(steps, ids, |ids|, r); !(s == r && ReadySet(steps, s) == {})
    ensures id in r && r[id].status == Pending && Next(steps, ids, oracle, r)[id].status != Pending
  {
    var s := SkipPass(steps, ids, |ids|, r);
    if ready :| ready in ReadySet(steps, s) {
      id := ready;
    } else {
      id :| id in r && s[id] != r[id];
    }
    SkipPassKeepsEntry(steps, ids, |ids|, r, id);
  }

  lemma PendingShrinks(steps: Table, ids: seq<string>, oracle: Oracle, r: Results)
    requires Linked(steps, r) && Listing(steps, ids)
    requires var s := SkipPass(steps, ids, |ids|, r); !(s == r && ReadySet(steps, s) == {})
    ensures |PendingIds(Next(steps, ids, oracle, r))| < |PendingIds(r)|
  {
    var next := Next(steps, ids, oracle, r);
    forall id | id in PendingIds(next) ensures id in PendingIds(r) {
      NextKeeps(steps, ids, oracle, r, id);
    }
    var moved := SomethingDecided(steps, ids, oracle, r);
    SmallerSet(PendingIds(next), PendingIds(r), moved);
  }

  lemma SmallerSet(a: set<string>, b: set<string>, x: string)
    requires a <= b && x in b && x !in a
    ensures |a| < |b|
  {
    var rest := b - {x};
    assert b == rest + {x} && a <= rest;
    SubsetSize(a, rest);
  }

  lemma {:induction false} SubsetSize(a: set<string>, b: set<string>)
    requires a <= b
    ensures |a| <= |b|
    decreases a
  {
    if x :| x in a {
      SubsetSize(a - {x}, b - {x});
    }
  }

  /** A pending step all of whose dependencies are finished does not survive the iteration as pending. */
  lemma FinishedDependenciesDecide(steps: Table, ids: seq<string>, oracle: Oracle, r: Results, id: string)
    requires Linked(steps, r) && Listing(steps, ids) && id in r && r[id].status == Pending
    requires forall d :: d in steps[id].dependsOn ==> Terminal(r[d].status)
    ensures var s := SkipPass(steps, ids, |ids|, r); s[id] != r[id] || id in ReadySet(steps, s)
    ensures Next(steps, ids, oracle, r)[id].status != Pending
  {
    SkipPassKeeps(steps, ids, |ids|, r);
  }

  lemma {:induction false} FirstPending(steps: Table, order: seq<string>, r: Results, n: nat) returns (id: string)
    requires Linked(steps, r) && DependenciesFirst(GraphOf(steps), order) && n <= |order|
    requires exists i :: 0 <= i < n && r[order[i]].status == Pending
    ensures id in r && r[id].status == Pending
    ensures forall d :: d in steps[id].dependsOn ==> r[d].status != Pending
  {
    if i :| 0 <= i < n - 1 && r[order[i]].status == Pending {
      id := FirstPending(steps, order, r, n - 1);
    } else {
      id := order[n - 1];
      forall d | d in steps[id].dependsOn ensures r[d].status != Pending {
        assert d in order[..n - 1];
        var k :| 0 <= k < n - 1 && order[k] == d;
      }
    }
  }

  /** In an acyclic plan an iteration that starts with a pending step always changes something. */
  lemma Progress(steps: Table, ids: seq<string>, r: Results)
    requires Linked(steps, r) && Listing(steps, ids) && Acyclic(steps) && Idle(r) && PendingIds(r) != {}
    ensures var s := SkipPass(steps, ids, |ids|, r); s != r || ReadySet(steps, s) != {}
  {
    var g := GraphOf(steps);
    AcyclicIffOrdered(g);
    var order :| IsTopological(g, order);
    var p :| p in PendingIds(r);
    assert p in order && order[Position(order, p)] == p;
    var id := FirstPending(steps, order, r, |order|);
    forall d | d in steps[id].dependsOn ensures Terminal(r[d].status) {
      assert r[d].status != Pending && r[d].status != Running;
    }
    FinishedDependenciesDecide(steps, ids, (s, u) => Reply(true, "", ""), r, id);
  }
}
