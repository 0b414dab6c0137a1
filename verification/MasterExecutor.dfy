/** The plan executor: `execute`, `resume` and the wave loop over a mutable dictionary of step results. */
module MasterExecutor {
  import opened MasterPlan
  import opened WaveSchedule
  import opened WaveLaws
  import opened WaveOutcomes
  import MasterPolicy

  const AGENT_TIMEOUT := "AGENT_TIMEOUT"

  datatype PlanExecutionResult = PlanExecutionResult(
    stepResults: Results, allSuccess: bool, partialSuccess: bool, timedOut: bool)

  datatype ExecutionOutcome =
    | Invalid(code: MasterPolicy.ErrorCode)
    | UnknownRetryStep
    | NoReadyStep
    | Completed(result: PlanExecutionResult)

  /** `steps` and `ids` are the plan's step dictionary and its listing, and dependencies name steps of the plan. */
  ghost predicate Tabled(plan: Plan, steps: Table, ids: seq<string>) {
    && |ids| == |plan| && WellLinked(steps) && Listing(steps, ids)
    && (forall i :: 0 <= i < |plan| ==> ids[i] == plan[i].id && ids[i] in steps && steps[ids[i]] == plan[i])
  }

  /** What validation establishes for the scheduler. */
  ghost predicate Runnable(plan: Plan) {
    UniqueIds(plan) && Tabled(plan, Steps(plan), IdSeq(plan)) && Acyclic(Steps(plan))
  }

  lemma PositionInListing(plan: Plan, i: nat)
    requires UniqueIds(plan) && i < |plan|
    ensures plan[i].id in IdSeq(plan) && Position(IdSeq(plan), plan[i].id) == i
  {
    var ids := IdSeq(plan);
    assert ids[i] == plan[i].id;
    var k := Position(ids, plan[i].id);
    assert ids[k] == plan[k].id;
  }

  lemma PlanIsTabled(plan: Plan)
    requires UniqueIds(plan) && DependenciesKnown(plan)
    ensures Tabled(plan, Steps(plan), IdSeq(plan))
  {
    var ids := IdSeq(plan);
    forall i | 0 <= i < |ids| ensures ids[i] in ids && Position(ids, ids[i]) == i {
      PositionInListing(plan, i);
    }
    forall id | id in Steps(plan) ensures id in ids {
      var i :| 0 <= i < |plan| && plan[i] == Steps(plan)[id];
      assert ids[i] == id;
    }
  }

  lemma ValidPlanIsRunnable(plan: Plan, maxSteps: int)
    requires MasterPolicy.ValidPlan(plan, maxSteps)
    ensures Runnable(plan)
  {
    forall s, d | s in plan && d in s.dependsOn ensures d in Ids(plan) {
      assert MasterPolicy.StepWellFormed(s, Ids(plan));
    }
    PlanIsTabled(plan);
    assert GraphOf(Steps(plan)) == DependencyGraph(plan);
  }

  // ---------- The wave loop ----------

  predicate Skips(steps: Table, r: Results, id: string)
    requires Linked(steps, r) && id in steps
  {
    r[id].status == Pending && Blocked(steps, r, id)
  }

  /** The pass skips one of the first `n` steps of the listing. */
  ghost predicate SkipsSome(steps: Table, ids: seq<string>, n: nat, before: Results)
    requires Linked(steps, before) && Listing(steps, ids) && n <= |ids|
  {
    n > 0 && (SkipsSome(steps, ids, n - 1, before) || Skips(steps, SkipPass(steps, ids, n - 1, before), ids[n - 1]))
  }

  lemma {:induction false} SkipIsAChange(steps: Table, ids: seq<string>, n: nat, before: Results)
    requires Linked(steps, before) && Listing(steps, ids) && n <= |ids|
    ensures SkipsSome(steps, ids, n, before) <==> SkipPass(steps, ids, n, before) != before
  {
    if n == 0 {
    } else {
      SkipIsAChange(steps, ids, n - 1, before);
      var id, r, next := ids[n - 1], SkipPass(steps, ids, n - 1, before), SkipPass(steps, ids, n, before);
      if Skips(steps, r, id) {
        SkipPassKeepsEntry(steps, ids, n - 1, before, id);
        assert next == r[id := Skip(r[id])];
        assert next[id].status == Skipped;
      } else {
        assert next == r;
      }
    }
  }

  method SkipOne(steps: Table, before: Results, id: string) returns (results: Results, skipped: bool)
    requires Linked(steps, before) && id in steps
    ensures results == SkipAt(steps, before, id)
    ensures skipped <==> Skips(steps, before, id)
    ensures skipped <==> before[id].status == Pending && Obstructed(steps, before, id)
    ensures skipped ==> results == before[id := before[id].(status := Skipped, errorCode := "DEPENDENCY_FAILED")]
    ensures !skipped ==> results == before
  {
    var result := before[id];
    skipped := result.status == Pending && Blocked(steps, before, id);
    results := if skipped then before[id := result.(status := Skipped, errorCode := DEPENDENCY_FAILED)] else before;
  }

  /** The skip pass over the plan in listing order. */
  method SkipBlocked(plan: Plan, steps: Table, ghost ids: seq<string>, before: Results)
    returns (results: Results, stateChanged: bool)
    requires Tabled(plan, steps, ids) && Linked(steps, before)
    ensures results == SkipPass(steps, ids, |ids|, before)
    ensures stateChanged <==> results != before
  {
    results, stateChanged := before, false;
    var i := 0;
    while i < |plan|
      invariant 0 <= i <= |plan| && results == SkipPass(steps, ids, i, before)
      invariant stateChanged <==> SkipsSome(steps, ids, i, before)
    {
      var skipped;
      results, skipped := SkipOne(steps, results, plan[i].id);
      stateChanged := stateChanged || skipped;
      i := i + 1;
    }
    SkipIsAChange(steps, ids, |ids|, before);
  }

  /** `ready` lists each ready step once. */
  ghost predicate ReadyList(steps: Table, results: Results, ready: seq<PlanStep>)
    requires Linked(steps, results)
  {
    && (forall s :: s in ready ==> s.id in steps && steps[s.id] == s && s.id in ReadySet(steps, results))
    && (forall id :: id in ReadySet(steps, results) ==> steps[id] in ready && steps[id].id == id)
    && DistinctIds(ready)
  }

  /** The ready ones among the first `n` steps of the plan. */
  function ReadyAmong(plan: Plan, steps: Table, results: Results, n: nat): (ready: seq<PlanStep>)
    requires n <= |plan| && Linked(steps, results) && Covers(plan, steps)
    ensures forall s :: s in ready <==> s in plan[..n] && Ready(steps, results, s.id)
  {
    if n == 0 then []
    else
      assert plan[..n] == plan[..n - 1] + [plan[n - 1]];
      var earlier := ReadyAmong(plan, steps, results, n - 1);
      if Ready(steps, results, plan[n - 1].id) then earlier + [plan[n - 1]] else earlier
  }

  /** Every step of the plan is one of the table. */
  predicate Covers(plan: Plan, steps: Table) {
    forall s :: s in plan ==> s.id in steps
  }

  lemma StepsAreNamed(plan: Plan, steps: Table, ids: seq<string>)
    requires Tabled(plan, steps, ids)
    ensures Covers(plan, steps) && forall s :: s in plan ==> steps[s.id] == s
  {
    forall s | s in plan ensures s.id in steps && steps[s.id] == s {
      var i :| 0 <= i < |plan| && plan[i] == s;
      assert ids[i] == s.id;
    }
  }

  lemma NotListedEarlier(plan: Plan, steps: Table, ids: seq<string>, n: nat, s: PlanStep)
    requires Tabled(plan, steps, ids) && n < |plan| && s in plan[..n]
    ensures s.id != plan[n].id
  {
    var i :| 0 <= i < n && plan[..n][i] == s;
    assert plan[i] == s && ids[i] == s.id;
    assert Position(ids, ids[i]) == i && Position(ids, ids[n]) == n;
  }

  ghost predicate DistinctIds(listed: seq<PlanStep>) {
    forall j, k :: 0 <= j < k < |listed| ==> listed[j].id != listed[k].id
  }

  lemma AppendDistinct(listed: seq<PlanStep>, s: PlanStep)
    requires DistinctIds(listed) && forall e :: e in listed ==> e.id != s.id
    ensures DistinctIds(listed + [s])
  {
  }

  lemma {:induction false} ReadyAmongDistinct(plan: Plan, steps: Table, ids: seq<string>, results: Results, n: nat)
    requires Tabled(plan, steps, ids) && Linked(steps, results) && n <= |plan| && Covers(plan, steps)
    ensures DistinctIds(ReadyAmong(plan, steps, results, n))
  {
    if n == 0 {
    } else {
      var earlier := ReadyAmong(plan, steps, results, n - 1);
      ReadyAmongDistinct(plan, steps, ids, results, n - 1);
      ReadyStep(plan, steps, results, n - 1);
      forall s | s in earlier ensures s.id != plan[n - 1].id {
        NotListedEarlier(plan, steps, ids, n - 1, s);
      }
      AppendDistinct(earlier, plan[n - 1]);
    }
  }

  lemma ReadyAmongAll(plan: Plan, steps: Table, ids: seq<string>, results: Results)
    requires Tabled(plan, steps, ids) && Linked(steps, results) && Covers(plan, steps)
    ensures ReadyList(steps, results, ReadyAmong(plan, steps, results, |plan|))
  {
    StepsAreNamed(plan, steps, ids);
    ReadyAmongDistinct(plan, steps, ids, results, |plan|);
    assert plan[..|plan|] == plan;
    forall id | id in ReadySet(steps, results) ensures steps[id] in plan && steps[id].id == id {
      var i := Position(ids, id);
      assert ids[i] == id && plan[i] == steps[id];
    }
  }

  lemma ReadyStep(plan: Plan, steps: Table, results: Results, i: nat)
    requires i < |plan| && Linked(steps, results) && Covers(plan, steps)
    ensures plan[i].id in steps
    ensures ReadyAmong(plan, steps, results, i + 1) ==
            ReadyAmong(plan, steps, results, i) + if Ready(steps, results, plan[i].id) then [plan[i]] else []
  {
    assert plan[i] in plan;
  }

  /** The step is pending, and all its dependencies have finished. */
  ghost predicate MayGo(results: Results, s: PlanStep) {
    && s.id in results && results[s.id].status == Pending
    && forall d :: d in s.dependsOn ==> d in results && results[d].status in {Success, Failed, Skipped}
  }

  lemma ReadyMayGo(plan: Plan, steps: Table, ids: seq<string>, results: Results, ready: seq<PlanStep>)
    requires Tabled(plan, steps, ids) && Linked(steps, results) && ReadyList(steps, results, ready)
    ensures forall s :: s in ready <==> s in plan && MayGo(results, s)
  {
    StepsAreNamed(plan, steps, ids);
    forall s | s in ready ensures s in plan {
      var i := Position(ids, s.id);
      assert ids[i] == s.id && plan[i] == s;
    }
    forall s | s in plan && MayGo(results, s) ensures s in ready {
      assert s.id in ReadySet(steps, results);
    }
  }

  /** The steps that may be sent now, in listing order. */
  method CollectReady(plan: Plan, steps: Table, ghost ids: seq<string>, results: Results) returns (ready: seq<PlanStep>)
    requires Tabled(plan, steps, ids) && Linked(steps, results)
    ensures ReadyList(steps, results, ready)
    ensures forall s :: s in ready <==> s in plan && MayGo(results, s)
  {
    StepsAreNamed(plan, steps, ids);
    ready := [];
    var i := 0;
    while i < |plan|
      invariant 0 <= i <= |plan| && ready == ReadyAmong(plan, steps, results, i)
    {
      ReadyStep(plan, steps, results, i);
      if Ready(steps, results, plan[i].id) {
        ready := ready + [plan[i]];
      }
      i := i + 1;
    }
    ReadyAmongAll(plan, steps, ids, results);
    ReadyMayGo(plan, steps, ids, results, ready);
  }

  method MarkRunning(steps: Table, before: Results, ready: seq<PlanStep>) returns (results: Results)
    requires Linked(steps, before) && ReadyList(steps, before, ready)
    ensures Linked(steps, results)
    ensures forall id :: id in before && id !in ReadySet(steps, before) ==> results[id] == before[id]
  {
    results := before;
    var i := 0;
    while i < |ready|
      invariant 0 <= i <= |ready| && results.Keys == before.Keys
      invariant forall id :: id in before && id !in ReadySet(steps, before) ==> results[id] == before[id]
    {
      assert ready[i] in ready;
      results := results[ready[i].id := results[ready[i].id].(status := Running)];
      i := i + 1;
    }
  }

  /** Asks the agent of every ready step; all contexts are taken from the dictionary as it is before any answer. */
  method AskAgents(steps: Table, oracle: Oracle, ghost before: Results, running: Results, ready: seq<PlanStep>)
    returns (completed: seq<StepResult>)
    requires Linked(steps, before) && Linked(steps, running) && ReadyList(steps, before, ready)
    requires forall id :: id in before && id !in ReadySet(steps, before) ==> running[id] == before[id]
    ensures |completed| == |ready|
    ensures forall k :: 0 <= k < |ready| ==> completed[k] == Outcome(steps, oracle, before, ready[k].id)
  {
    completed := [];
    var i := 0;
    while i < |ready|
      invariant 0 <= i <= |ready| && |completed| == i
      invariant forall k :: 0 <= k < i ==> completed[k] == Outcome(steps, oracle, before, ready[k].id)
    {
      var id := ready[i].id;
      assert ready[i] in ready;
      forall d | d in steps[id].dependsOn ensures running[d] == before[d] {
        assert Terminal(before[d].status);
      }
      SameDependencies(steps, oracle, before, running, id);
      completed := completed + [StepOutcome(ready[i], oracle(ready[i], UpstreamContext(steps, running, id)))];
      i := i + 1;
    }
  }

  /** Marks the ready steps as running, asks their agents, and stores the answers. */
  method DispatchWave(steps: Table, oracle: Oracle, before: Results, ready: seq<PlanStep>) returns (results: Results)
    requires Linked(steps, before) && ReadyList(steps, before, ready)
    ensures results == Gather(steps, oracle, before)
    ensures forall k :: 0 <= k < |ready| ==>
              ready[k].id in results && Answers(steps, oracle, before, ready[k].id, results[ready[k].id])
    ensures forall id :: id in before && (forall k :: 0 <= k < |ready| ==> ready[k].id != id) ==>
              id in results && results[id] == before[id]
  {
    forall k | 0 <= k < |ready| ensures ready[k].id in before {
      assert ready[k] in ready;
    }
    var running := MarkRunning(steps, before, ready);
    var completed := AskAgents(steps, oracle, before, running, ready);
    assert forall k :: 0 <= k < |ready| ==> ready[k] in ready;
    results := StoreAnswers(running, ready, completed);
    AnswersAreGathered(steps, oracle, before, ready, results);
    forall k | 0 <= k < |ready| ensures Answers(steps, oracle, before, ready[k].id, results[ready[k].id]) {
      OutcomeAnswers(steps, oracle, before, ready[k].id);
    }
    forall id | id in before && (forall k :: 0 <= k < |ready| ==> ready[k].id != id) ensures results[id] == before[id] {
      ListedExactlyIfReady(steps, before, ready, id);
    }
  }

  lemma ListedExactlyIfReady(steps: Table, before: Results, ready: seq<PlanStep>, id: string)
    requires Linked(steps, before) && ReadyList(steps, before, ready)
    ensures id in ReadySet(steps, before) <==> exists k :: 0 <= k < |ready| && ready[k].id == id
  {
    if id in ReadySet(steps, before) {
      var k :| 0 <= k < |ready| && ready[k] == steps[id];
    }
  }

  method StoreAnswers(running: Results, ready: seq<PlanStep>, completed: seq<StepResult>) returns (results: Results)
    requires |completed| == |ready| && forall k :: 0 <= k < |ready| ==> ready[k].id in running
    requires forall j, k :: 0 <= j < k < |ready| ==> ready[j].id != ready[k].id
    ensures results.Keys == running.Keys
    ensures forall k :: 0 <= k < |ready| ==> results[ready[k].id] == completed[k]
    ensures forall id :: id in running && (forall k :: 0 <= k < |ready| ==> ready[k].id != id) ==> results[id] == running[id]
  {
    results := running;
    var i := 0;
    while i < |ready|
      invariant 0 <= i <= |ready| && results.Keys == running.Keys
      invariant forall k :: 0 <= k < i ==> results[ready[k].id] == completed[k]
      invariant forall id :: id in running && (forall k :: 0 <= k < |ready| ==> ready[k].id != id) ==> results[id] == running[id]
    {
      results := results[ready[i].id := completed[i]];
      i := i + 1;
    }
  }

  lemma AnswersAreGathered(steps: Table, oracle: Oracle, before: Results, ready: seq<PlanStep>, results: Results)
    requires Linked(steps, before) && ReadyList(steps, before, ready) && results.Keys == steps.Keys
    requires forall k :: 0 <= k < |ready| ==>
               ready[k].id in results && results[ready[k].id] == Outcome(steps, oracle, before, ready[k].id)
    requires forall id :: id in before && id !in ReadySet(steps, before) ==> results[id] == before[id]
    ensures results == Gather(steps, oracle, before)
  {
    forall id | id in before ensures results[id] == Gather(steps, oracle, before)[id] {
      if id in ReadySet(steps, before) {
        var k :| 0 <= k < |ready| && ready[k] == steps[id];
      }
    }
  }

  lemma SomePending(r: Results)
    requires exists id :: id in r && r[id].status == Pending
    ensures PendingIds(r) != {}
  {
    var id :| id in r && r[id].status == Pending;
    assert id in PendingIds(r);
  }

  lemma NonePending(r: Results)
    requires !exists id :: id in r && r[id].status == Pending
    ensures PendingIds(r) == {}
  {
  }

  /** `run` is what remains of `whole` after `waves`. */
  ghost predicate Continues(whole: Run, waves: seq<Wave>, run: Run) {
    whole == Run(run.results, waves + run.waves, run.stuck)
  }

  lemma ContinuesAfter(whole: Run, waves: seq<Wave>, run: Run, w: Wave, rest: Run)
    requires Continues(whole, waves, run) && Continues(run, [w], rest)
    ensures Continues(whole, waves + [w], rest)
  {
    assert waves + ([w] + rest.waves) == (waves + [w]) + rest.waves;
  }

  /** After the loop body, the run goes on from `next`, having recorded `w`. */
  ghost predicate GoesOn(steps: Table, ids: seq<string>, oracle: Oracle, before: Results, w: Wave, next: Results)
    requires Listing(steps, ids)
  {
    && Linked(steps, before) && Linked(steps, next)
    && |PendingIds(next)| < |PendingIds(before)|
    && Continues(Loop(steps, ids, oracle, before), [w], Loop(steps, ids, oracle, next))
  }

  lemma IterationGoesOn(steps: Table, ids: seq<string>, oracle: Oracle, before: Results, passed: Results, next: Results)
    requires Linked(steps, before) && Listing(steps, ids) && PendingIds(before) != {}
    requires passed == SkipPass(steps, ids, |ids|, before) && next == Gather(steps, oracle, passed)
    requires passed != before || ReadySet(steps, passed) != {}
    ensures GoesOn(steps, ids, oracle, before, Wave(before, passed, ReadySet(steps, passed)), next)
  {
    LoopUnfolds(steps, ids, oracle, before);
    PendingShrinks(steps, ids, oracle, before);
  }

  lemma NothingReady(steps: Table, oracle: Oracle, r: Results)
    requires Linked(steps, r) && ReadySet(steps, r) == {}
    ensures Gather(steps, oracle, r) == r
  {
    forall id | id in r ensures Gather(steps, oracle, r)[id] == r[id] {
      assert id !in ReadySet(steps, r);
    }
  }

  /** One pass through the loop body: the new dictionary, or no ready step. */
  method Iterate(plan: Plan, steps: Table, ghost ids: seq<string>, oracle: Oracle, before: Results)
    returns (results: Results, stuck: bool, ghost w: Wave)
    requires Tabled(plan, steps, ids) && Linked(steps, before) && PendingIds(before) != {}
    ensures stuck ==> Loop(steps, ids, oracle, before) == Run(before, [], true)
    ensures !stuck ==> GoesOn(steps, ids, oracle, before, w, results)
  {
    var stateChanged;
    results, stateChanged := SkipBlocked(plan, steps, ids, before);
    var ready := CollectReady(plan, steps, ids, results);
    ghost var passed := results;
    w := Wave(before, passed, ReadySet(steps, passed));
    stuck := false;
    if ready == [] {
      assert ReadySet(steps, results) == {};
      NothingReady(steps, oracle, results);
      if exists id :: id in results && results[id].status == Pending {
        if !stateChanged {
          LoopUnfolds(steps, ids, oracle, before);
          stuck := true;
          return;
        }
      } else {
        // The source leaves its loop here; the loop condition fails just the same.
        NonePending(results);
        assert results != before;
      }
    } else {
      assert ready[0] in ready;
      results := DispatchWave(steps, oracle, results, ready);
    }
    IterationGoesOn(steps, ids, oracle, before, passed, results);
  }

  /**
    The scheduler loop. `waves` records every iteration. A dictionary with an in-flight entry can leave it with pending
    steps and nothing to do, which the source reports as an error.
   */
  method RunPlan(plan: Plan, steps: Table, ghost ids: seq<string>, oracle: Oracle, seed: Results)
    returns (outcome: ExecutionOutcome, ghost waves: seq<Wave>)
    requires Tabled(plan, steps, ids) && Linked(steps, seed)
    ensures waves == Loop(steps, ids, oracle, seed).waves
    ensures outcome == Report(Loop(steps, ids, oracle, seed))
  {
    ghost var whole := Loop(steps, ids, oracle, seed);
    var results := seed;
    waves := [];
    while exists id :: id in results && results[id].status == Pending
      invariant Linked(steps, results)
      invariant Continues(whole, waves, Loop(steps, ids, oracle, results))
      decreases |PendingIds(results)|
    {
      SomePending(results);
      var next, stuck;
      ghost var w;
      next, stuck, w := Iterate(plan, steps, ids, oracle, results);
      if stuck {
        assert waves + [] == waves;
        return NoReadyStep, waves;
      }
      ContinuesAfter(whole, waves, Loop(steps, ids, oracle, results), w, Loop(steps, ids, oracle, next));
      waves := waves + [w];
      results := next;
    }
    NonePending(results);
    assert waves + [] == waves;
    outcome := Completed(Summary(results));
  }

  function Successes(results: Results): set<string> {
    set id | id in results && results[id].status == Success
  }

  /** The counts that the source compares say whether all, or some but not all, of the steps succeeded. */
  lemma CountsSayWhich(results: Results)
    ensures |results| != 0 && |Successes(results)| == |results| <==>
            results != map[] && forall id :: id in results ==> results[id].status == Success
    ensures 0 < |Successes(results)| < |results| <==>
            (exists id :: id in results && results[id].status == Success)
            && (exists id :: id in results && results[id].status != Success)
  {
    var successes, all := Successes(results), results.Keys;
    assert |all| == |results|;
    assert results == map[] <==> all == {};
    SubsetSize(successes, all);
    if id :| id in results && results[id].status != Success {
      SmallerSet(successes, all, id);
    } else {
      assert forall id :: id in results ==> id in successes;
      assert successes == all;
    }
    if id :| id in results && results[id].status == Success {
      assert id in successes;
    } else {
      assert successes == {};
    }
  }

  function Summary(results: Results): PlanExecutionResult {
    PlanExecutionResult(
      results,
      |results| != 0 && |Successes(results)| == |results|,
      0 < |Successes(results)| < |results|,
      exists id :: id in results && results[id].errorCode == AGENT_TIMEOUT)
  }

  /** The flags say whether all steps, or some but not all, succeeded, and whether one timed out. */
  ghost predicate SaysWhich(result: PlanExecutionResult) {
    var r := result.stepResults;
    && (result.allSuccess <==> r != map[] && forall id :: id in r ==> r[id].status == Success)
    && (result.partialSuccess <==>
          (exists id :: id in r && r[id].status == Success) && (exists id :: id in r && r[id].status != Success))
    && (result.timedOut <==> exists id :: id in r && r[id].errorCode == "AGENT_TIMEOUT")
  }

  /** The compared counts give these flags. */
  lemma SummarySaysWhich(results: Results)
    ensures Summary(results).stepResults == results && SaysWhich(Summary(results))
  {
    CountsSayWhich(results);
  }

  /** A run with a step left pending reports that no step was ready, and any other its results and flags. */
  ghost predicate Concludes(end: Results, outcome: ExecutionOutcome) {
    if exists id :: id in end && end[id].status == Pending then outcome == NoReadyStep
    else outcome.Completed? && outcome.result.stepResults == end && SaysWhich(outcome.result)
  }

  lemma ReportConcludes(steps: Table, ids: seq<string>, oracle: Oracle, seed: Results)
    requires Linked(steps, seed) && Listing(steps, ids)
    ensures var run := Loop(steps, ids, oracle, seed); Concludes(run.results, Report(run))
  {
    StuckExactlyWhen(steps, ids, oracle, seed);
    SummarySaysWhich(Loop(steps, ids, oracle, seed).results);
  }

  function Report(run: Run): ExecutionOutcome {
    if run.stuck then NoReadyStep else Completed(Summary(run.results))
  }

  // ---------- Execute ----------

  function AllPending(steps: Table): Results {
    map id | id in steps :: Entry(steps[id], Pending)
  }

  /** The run of a plan from fresh entries. */
  ghost function ExecuteRun(plan: Plan, oracle: Oracle): Run
    requires Runnable(plan)
  {
    Loop(Steps(plan), IdSeq(plan), oracle, AllPending(Steps(plan)))
  }

  /** What a run reports of a plan whose steps start with these entries. */
  ghost predicate Reports(plan: Plan, oracle: Oracle, starts: Results, run: Run, outcome: ExecutionOutcome)
    requires UniqueIds(plan)
  {
    && run.results.Keys == Ids(plan) == starts.Keys
    && outcome.Completed? && outcome.result.stepResults == run.results && SaysWhich(outcome.result)
    && forall id :: id in run.results ==> Explained(Steps(plan), oracle, starts[id], run, id)
  }

  lemma RunIsReported(plan: Plan, oracle: Oracle, starts: Results)
    requires Runnable(plan) && Linked(Steps(plan), starts) && Idle(starts)
    ensures var run := Loop(Steps(plan), IdSeq(plan), oracle, starts);
            !run.stuck && Reports(plan, oracle, starts, run, Report(run))
  {
    var run := Loop(Steps(plan), IdSeq(plan), oracle, starts);
    RunFinishesEveryStep(Steps(plan), IdSeq(plan), oracle, starts);
    SummarySaysWhich(run.results);
    forall id | id in run.results ensures Explained(Steps(plan), oracle, starts[id], run, id) {
      EveryStepIsExplained(Steps(plan), IdSeq(plan), oracle, starts, id);
    }
  }

  /** The run reports each step from a fresh entry. */
  ghost predicate ExecuteReports(plan: Plan, oracle: Oracle, run: Run, outcome: ExecutionOutcome)
    requires UniqueIds(plan)
  {
    exists starts: Results ::
      && Reports(plan, oracle, starts, run, outcome)
      && forall id :: id in starts ==> id in Steps(plan) && Fresh(Steps(plan)[id], starts[id])
  }

  predicate Fresh(step: PlanStep, start: StepResult) {
    start == StepResult(step.agent, step.taskType, Pending, "", "")
  }

  lemma ExecuteIsReported(plan: Plan, oracle: Oracle)
    requires Runnable(plan)
    ensures ExecuteReports(plan, oracle, ExecuteRun(plan, oracle), Report(ExecuteRun(plan, oracle)))
  {
    RunIsReported(plan, oracle, AllPending(Steps(plan)));
  }

  /** A valid plan always completes, and every step of it is explained from a fresh entry. */
  method Execute(plan: Plan, maxSteps: int, oracle: Oracle) returns (outcome: ExecutionOutcome, ghost waves: seq<Wave>)
    ensures outcome.Invalid? <==> !MasterPolicy.ValidPlan(plan, maxSteps)
    ensures outcome.Invalid? ==> waves == []
    ensures !outcome.Invalid? ==>
              && Runnable(plan)
              && var run := ExecuteRun(plan, oracle);
              && outcome == Report(run) && waves == run.waves
              && ExecuteReports(plan, oracle, run, outcome)
  {
    waves := [];
    var verdict := MasterPolicy.ValidateMasterPlan(plan, maxSteps);
    if verdict.Rejected? {
      NotValid(plan, maxSteps, verdict);
      return Invalid(verdict.code), waves;
    }
    ValidPlanIsRunnable(plan, maxSteps);
    ExecuteIsReported(plan, oracle);
    outcome, waves := RunPlan(plan, Steps(plan), IdSeq(plan), oracle, AllPending(Steps(plan)));
  }

  lemma NotValid(plan: Plan, maxSteps: int, verdict: MasterPolicy.Verdict)
    requires MasterPolicy.Explains(plan, maxSteps, verdict) && verdict.Rejected?
    ensures !MasterPolicy.ValidPlan(plan, maxSteps)
  {
    if MasterPolicy.ValidPlan(plan, maxSteps) {
      MasterPolicy.VerdictIsUnique(plan, maxSteps, MasterPolicy.Accepted, verdict);
    }
  }

  // ---------- Resume ----------

  /**
    The dictionary a resume starts from. The source first asks whether a successful entry has the step's agent and task
    type, but its fallback keeps the entry anyway, so the answer never matters.
   */
  function ResumeSeed(steps: Table, previous: Results, retry: set<string>): Results {
    map id | id in steps :: ResumeEntry(steps[id], previous, retry, id)
  }

  function ResumeEntry(step: PlanStep, previous: Results, retry: set<string>, id: string): StepResult {
    if id in previous && id !in retry && previous[id].status !in {Pending, Skipped} then previous[id]
    else Entry(step, Pending)
  }

  /** A finished or in-flight entry that is not retried is kept; any other step starts afresh. */
  predicate Restarts(step: PlanStep, previous: Results, retry: set<string>, id: string, start: StepResult) {
    if id in previous && id !in retry && previous[id].status in {Success, Failed, Running} then start == previous[id]
    else Fresh(step, start)
  }

  method BuildResumeSeed(plan: Plan, steps: Table, ghost ids: seq<string>, previous: Results, retry: set<string>)
    returns (results: Results)
    requires Tabled(plan, steps, ids)
    ensures results == ResumeSeed(steps, previous, retry)
    ensures forall id :: id in steps ==> id in results && Restarts(steps[id], previous, retry, id, results[id])
  {
    results := map[];
    var i := 0;
    while i < |plan|
      invariant 0 <= i <= |plan|
      invariant forall id :: id in results ==> id in steps && results[id] == ResumeEntry(steps[id], previous, retry, id)
      invariant forall k :: 0 <= k < i ==> ids[k] in results
    {
      var step := plan[i];
      assert ids[i] == step.id;
      var known := step.id in previous;
      var reusable := known && previous[step.id].agent == step.agent && previous[step.id].taskType == step.taskType
        && previous[step.id].status == Success && step.id !in retry;
      if reusable {
        results := results[step.id := previous[step.id]];
      } else if !known || step.id in retry || previous[step.id].status in {Skipped, Pending} {
        results := results[step.id := Entry(step, Pending)];
      } else {
        results := results[step.id := previous[step.id]];
      }
      i := i + 1;
    }
    forall id | id in steps ensures id in results {
      assert ids[Position(ids, id)] == id;
    }
    SeedRestarts(steps, previous, retry);
  }

  lemma SeedRestarts(steps: Table, previous: Results, retry: set<string>)
    ensures forall id :: id in steps ==>
              Restarts(steps[id], previous, retry, id, ResumeSeed(steps, previous, retry)[id])
  {
    forall id | id in steps ensures Restarts(steps[id], previous, retry, id, ResumeSeed(steps, previous, retry)[id]) {
      if id in previous {
        var status := previous[id].status;
        assert status.Pending? || status.Running? || status.Success? || status.Failed? || status.Skipped?;
      }
    }
  }

  /** The run of a plan from what a resume keeps of an earlier result. */
  ghost function ResumeRun(plan: Plan, previous: Results, retry: set<string>, oracle: Oracle): Run
    requires Runnable(plan)
  {
    Loop(Steps(plan), IdSeq(plan), oracle, ResumeSeed(Steps(plan), previous, retry))
  }

  method Resume(plan: Plan, maxSteps: int, previous: Results, retry: set<string>, oracle: Oracle)
    returns (outcome: ExecutionOutcome, ghost waves: seq<Wave>)
    ensures outcome.Invalid? <==> !MasterPolicy.ValidPlan(plan, maxSteps)
    ensures outcome == UnknownRetryStep <==> MasterPolicy.ValidPlan(plan, maxSteps) && !(retry <= Ids(plan))
    ensures outcome.Invalid? || outcome == UnknownRetryStep ==> waves == []
    ensures !outcome.Invalid? && outcome != UnknownRetryStep ==>
              && Runnable(plan)
              && var run := ResumeRun(plan, previous, retry, oracle);
              && outcome == Report(run) && waves == run.waves
              && Concludes(run.results, outcome)
              && (Idle(previous) ==> ResumeReports(plan, previous, retry, oracle, run, outcome))
  {
    waves := [];
    var verdict := MasterPolicy.ValidateMasterPlan(plan, maxSteps);
    if verdict.Rejected? {
      NotValid(plan, maxSteps, verdict);
      return Invalid(verdict.code), waves;
    }
    ValidPlanIsRunnable(plan, maxSteps);
    var steps, ids := Steps(plan), IdSeq(plan);
    if !(retry <= steps.Keys) {
      return UnknownRetryStep, waves;
    }
    var results := BuildResumeSeed(plan, steps, ids, previous, retry);
    ReportConcludes(steps, ids, oracle, results);
    if Idle(previous) {
      ResumeIsReported(plan, previous, retry, oracle);
    }
    outcome, waves := RunPlan(plan, steps, ids, oracle, results);
  }

  lemma ResumeIsReported(plan: Plan, previous: Results, retry: set<string>, oracle: Oracle)
    requires Runnable(plan) && Idle(previous)
    ensures var run := ResumeRun(plan, previous, retry, oracle);
            ResumeReports(plan, previous, retry, oracle, run, Report(run))
  {
    var starts := ResumeSeed(Steps(plan), previous, retry);
    SeedRestarts(Steps(plan), previous, retry);
    assert Idle(starts);
    RunIsReported(plan, oracle, starts);
    assert Reports(plan, oracle, starts, ResumeRun(plan, previous, retry, oracle),
                   Report(ResumeRun(plan, previous, retry, oracle)));
  }

  /** The run reports each step from its kept or fresh entry. */
  ghost predicate ResumeReports(plan: Plan, previous: Results, retry: set<string>, oracle: Oracle, run: Run,
                                outcome: ExecutionOutcome)
    requires UniqueIds(plan)
  {
    exists starts: Results ::
      && Reports(plan, oracle, starts, run, outcome)
      && forall id :: id in starts ==> id in Steps(plan) && Restarts(Steps(plan)[id], previous, retry, id, starts[id])
  }

  /**
    Resuming a result without in-flight entries: every retried step, and every step that was missing, pending or
    skipped, is sent again, or is skipped for a required dependency that failed or was skipped. All others are kept.
   */
  lemma ResumeRetries(plan: Plan, maxSteps: int, previous: Results, retry: set<string>, oracle: Oracle, id: string)
    requires MasterPolicy.ValidPlan(plan, maxSteps) && Idle(previous) && id in Ids(plan)
    ensures Runnable(plan)
    ensures var run := ResumeRun(plan, previous, retry, oracle);
            && id in run.results
            && if id in retry || id !in previous || previous[id].status in {Pending, Skipped}
               then Sent(run, id) || (run.results[id].status == Skipped && Obstructed(Steps(plan), run.results, id))
               else !Sent(run, id) && run.results[id] == previous[id]
  {
    ValidPlanIsRunnable(plan, maxSteps);
    RetriedStep(Steps(plan), IdSeq(plan), previous, retry, oracle, id);
  }

  lemma RetriedStep(steps: Table, ids: seq<string>, previous: Results, retry: set<string>, oracle: Oracle, id: string)
    requires WellLinked(steps) && Listing(steps, ids) && Acyclic(steps) && Idle(previous) && id in steps
    ensures var run := Loop(steps, ids, oracle, ResumeSeed(steps, previous, retry));
            && id in run.results
            && if id in retry || id !in previous || previous[id].status in {Pending, Skipped}
               then Sent(run, id) || (run.results[id].status == Skipped && Obstructed(steps, run.results, id))
               else !Sent(run, id) && run.results[id] == previous[id]
  {
    SeedRestarts(steps, previous, retry);
    EveryStepIsExplained(steps, ids, oracle, ResumeSeed(steps, previous, retry), id);
  }

  /** Steps kept by a resume are never sent again, and end with the entry they came with. */
  lemma ResumeKeepsFinishedSteps(steps: Table, ids: seq<string>, previous: Results, retry: set<string>, oracle: Oracle,
                                 id: string)
    requires WellLinked(steps) && Listing(steps, ids)
    requires id in steps && id in previous && id !in retry && previous[id].status in {Success, Failed}
    ensures var run := Loop(steps, ids, oracle, ResumeSeed(steps, previous, retry));
            && id in run.results && run.results[id] == previous[id]
            && forall w :: w in run.waves ==> id !in w.sent
  {
    var seed := ResumeSeed(steps, previous, retry);
    LoopIsTrace(steps, ids, oracle, seed);
    EveryDispatchIsAllowed(steps, ids, oracle, seed);
    var run := Loop(steps, ids, oracle, seed);
    DecidedStays(steps, ids, oracle, seed, run, 0, |run.waves|, id);
    forall w | w in run.waves ensures id !in w.sent {
      assert AllowedWave(steps, ids, seed, w);
    }
  }

  /** A resume of a skip-safe plan follows the recursive rule, with the kept steps pinned. */
  lemma ResumeFollowsRule(steps: Table, ids: seq<string>, previous: Results, retry: set<string>, oracle: Oracle)
    requires WellLinked(steps) && Listing(steps, ids) && Acyclic(steps) && SkipSafe(steps, ids) && Idle(previous)
    ensures var seed := ResumeSeed(steps, previous, retry);
            Linked(steps, seed) && IsSolution(steps, oracle, seed, Loop(steps, ids, oracle, seed).results)
  {
    SafeListingFollowsRule(steps, ids, oracle, ResumeSeed(steps, previous, retry));
  }

  /** Resuming from `a` and `b` skipped, `c` failed and all else successful restarts in an unsafe listing's trap. */
  function TrapResult(steps: Table, a: string, b: string, c: string): Results {
    map id | id in steps ::
      Entry(steps[id], if id == a || id == b then Skipped else if id == c then Failed else Success)
  }

  lemma TrapIsResumed(steps: Table, a: string, b: string, c: string)
    requires WellLinked(steps)
    ensures Idle(TrapResult(steps, a, b, c))
    ensures ResumeSeed(steps, TrapResult(steps, a, b, c), {}) == Trap(steps, a, b, c)
  {
  }

  /** Every resume without in-flight entries follows the recursive rule. */
  ghost predicate ResumeFaithful(steps: Table, ids: seq<string>, oracle: Oracle)
    requires WellLinked(steps) && Listing(steps, ids)
  {
    forall previous: Results, retry: set<string> :: Idle(previous) && retry <= steps.Keys ==>
      var seed := ResumeSeed(steps, previous, retry);
      IsSolution(steps, oracle, seed, Loop(steps, ids, oracle, seed).results)
  }

  /** Resume follows the rule from every earlier result exactly if the listing is skip-safe. */
  lemma ResumeFaithfulIffSkipSafe(steps: Table, ids: seq<string>, oracle: Oracle)
    requires WellLinked(steps) && Listing(steps, ids) && Acyclic(steps)
    ensures ResumeFaithful(steps, ids, oracle) <==> SkipSafe(steps, ids)
  {
    if SkipSafe(steps, ids) {
      forall previous: Results, retry: set<string> | Idle(previous) && retry <= steps.Keys
        ensures var seed := ResumeSeed(steps, previous, retry);
                IsSolution(steps, oracle, seed, Loop(steps, ids, oracle, seed).results)
      {
        ResumeFollowsRule(steps, ids, previous, retry, oracle);
      }
    } else {
      var j: nat, k: nat, c :| Unsafe(steps, ids, j, k, c);
      TrapIsResumed(steps, ids[j], ids[k], c);
      TrapBreaksRule(steps, ids, oracle, j, k, c);
    }
  }

  /** Starting dictionaries of `Execute` and `Resume`: fresh entries and answers of earlier runs. */
  ghost predicate FreshOrAnswered(steps: Table, seed: Results) {
    && seed.Keys == steps.Keys
    && forall id :: id in steps ==> seed[id] == Entry(steps[id], Pending) || seed[id].status in {Success, Failed}
  }

  lemma StartingDictionaries(steps: Table, previous: Results, retry: set<string>)
    requires Idle(previous)
    ensures FreshOrAnswered(steps, AllPending(steps)) && FreshOrAnswered(steps, ResumeSeed(steps, previous, retry))
  {
  }

  lemma FinishedRunSolvesItsResume(steps: Table, first: Oracle, seed: Results, previous: Results, second: Oracle)
    requires WellLinked(steps) && FreshOrAnswered(steps, seed) && IsSolution(steps, first, seed, previous)
    requires forall id :: id in previous ==> Terminal(previous[id].status)
    ensures IsSolution(steps, second, ResumeSeed(steps, previous, {}), previous)
  {
    var restart := ResumeSeed(steps, previous, {});
    forall id | id in steps ensures FollowsRule(steps, second, restart, previous, id) {
      assert FollowsRule(steps, first, seed, previous, id);
    }
  }

  /** Resuming a finished run with nothing to retry changes nothing and sends nothing, whatever the agents would say. */
  lemma EmptyResumeIsIdentity(steps: Table, ids: seq<string>, first: Oracle, seed: Results, second: Oracle)
    requires WellLinked(steps) && Listing(steps, ids) && Acyclic(steps) && SkipSafe(steps, ids)
    requires FreshOrAnswered(steps, seed)
    ensures var previous := Loop(steps, ids, first, seed).results;
            var again := Loop(steps, ids, second, ResumeSeed(steps, previous, {}));
            again.results == previous && forall w :: w in again.waves ==> w.sent == {}
  {
    SafeListingFollowsRule(steps, ids, first, seed);
    RunFinishesEveryStep(steps, ids, first, seed);
    var previous := Loop(steps, ids, first, seed).results;
    FinishedRunSolvesItsResume(steps, first, seed, previous, second);
    var restart := ResumeSeed(steps, previous, {});
    SafeListingFollowsRule(steps, ids, second, restart);
    var again := Loop(steps, ids, second, restart);
    SolutionIsUnique(steps, second, restart, previous, again.results);
    LoopIsTrace(steps, ids, second, restart);
    SolvedResumeSendsNothing(steps, ids, second, previous, again);
  }

  /** `again` repeats the report of `done` and sends nothing. */
  ghost predicate Repeats(done: Run, again: Run) {
    again.results == done.results && Report(again) == Report(done) && forall w :: w in again.waves ==> w.sent == {}
  }

  /** Resuming what `Execute` or a resume returned, with nothing to retry, reports the same and sends nothing. */
  lemma EmptyResumeRepeats(plan: Plan, maxSteps: int, first: Oracle, previous: Results, retry: set<string>,
                           second: Oracle)
    requires MasterPolicy.ValidPlan(plan, maxSteps) && Idle(previous)
    requires Runnable(plan) && SkipSafe(Steps(plan), IdSeq(plan))
    ensures var done := ExecuteRun(plan, first);
            Repeats(done, ResumeRun(plan, done.results, {}, second))
    ensures var done := ResumeRun(plan, previous, retry, first);
            Repeats(done, ResumeRun(plan, done.results, {}, second))
  {
    StartingDictionaries(Steps(plan), previous, retry);
    EmptyResumeRepeatsFrom(plan, first, AllPending(Steps(plan)), second);
    EmptyResumeRepeatsFrom(plan, first, ResumeSeed(Steps(plan), previous, retry), second);
  }

  lemma EmptyResumeRepeatsFrom(plan: Plan, first: Oracle, seed: Results, second: Oracle)
    requires Runnable(plan) && SkipSafe(Steps(plan), IdSeq(plan)) && FreshOrAnswered(Steps(plan), seed)
    ensures var done := Loop(Steps(plan), IdSeq(plan), first, seed);
            Repeats(done, ResumeRun(plan, done.results, {}, second))
  {
    var steps, ids := Steps(plan), IdSeq(plan);
    EmptyResumeIsIdentity(steps, ids, first, seed, second);
    var done := Loop(steps, ids, first, seed);
    NotStuck(steps, ids, first, seed);
    StartingDictionaries(steps, done.results, {});
    NotStuck(steps, ids, second, ResumeSeed(steps, done.results, {}));
  }

  lemma NotStuck(steps: Table, ids: seq<string>, oracle: Oracle, seed: Results)
    requires WellLinked(steps) && Listing(steps, ids) && Acyclic(steps) && FreshOrAnswered(steps, seed)
    ensures var run := Loop(steps, ids, oracle, seed); !run.stuck && Idle(run.results)
  {
    RunFinishesEveryStep(steps, ids, oracle, seed);
  }

  lemma SolvedResumeSendsNothing(steps: Table, ids: seq<string>, oracle: Oracle, previous: Results, again: Run)
    requires IsTrace(steps, ids, oracle, ResumeSeed(steps, previous, {}), again)
    requires previous.Keys == steps.Keys && again.results == previous
    ensures forall w :: w in again.waves ==> w.sent == {}
  {
    var restart := ResumeSeed(steps, previous, {});
    forall i: nat, id | i < |again.waves| && id in again.waves[i].sent ensures false {
      SentHasAnswer(steps, ids, oracle, restart, again, i, id);
      SentWasPending(steps, ids, oracle, restart, again, i, id);
    }
  }

  // ---------- Listing order matters ----------

  /** `a` depends on `b`, and `b` on `c`, all required. */
  ghost predicate InARow(a: PlanStep, b: PlanStep, c: PlanStep) {
    && a.id != b.id && a.id != c.id && b.id != c.id
    && a.dependsOn == [b.id] && b.dependsOn == [c.id] && c.dependsOn == []
    && a.required && b.required && c.required
  }

  lemma RowIsAcyclic(g: Graph, a: string, b: string, c: string)
    requires a != b && a != c && b != c && g == map[a := [b], b := [c], c := []]
    ensures !HasCycle(g)
  {
    var order := [c, b, a];
    assert order[..1] == [c] && order[..2] == [c, b];
    assert DependenciesFirst(g, order);
    TopologicalHasNoCycle(g, order);
  }

  lemma BackwardTable(steps: Table, ids: seq<string>, a: PlanStep, b: PlanStep, c: PlanStep)
    requires InARow(a, b, c) && steps == map[a.id := a, b.id := b, c.id := c] && ids == [a.id, b.id, c.id]
    ensures WellLinked(steps) && Listing(steps, ids) && !SkipSafe(steps, ids)
  {
    assert ids[0] == a.id && ids[1] == b.id && ids[2] == c.id;
    assert ids[Position(ids, a.id)] == a.id && ids[Position(ids, b.id)] == b.id && ids[Position(ids, c.id)] == c.id;
    assert Unsafe(steps, ids, 0, 1, c.id);
  }

  lemma {:induction false} NothingToSkip(steps: Table, ids: seq<string>, n: nat, r: Results)
    requires Linked(steps, r) && Listing(steps, ids) && n <= |ids|
    requires forall id :: id in r ==> r[id].status == Pending
    ensures SkipPass(steps, ids, n, r) == r
  {
    if n == 0 {
    } else {
      NothingToSkip(steps, ids, n - 1, r);
    }
  }

  /** The agent of `c` fails, whatever it is given, and the agent of `a` succeeds. */
  ghost predicate OnlyLastFails(oracle: Oracle, a: PlanStep, c: PlanStep) {
    forall u :: oracle(a, u).success && !oracle(c, u).success
  }

  lemma OnlyLastIsReady(steps: Table, a: PlanStep, b: PlanStep, c: PlanStep)
    requires InARow(a, b, c) && steps == map[a.id := a, b.id := b, c.id := c] && WellLinked(steps)
    ensures var start := AllPending(steps);
            Ready(steps, start, c.id) && !Ready(steps, start, a.id) && !Ready(steps, start, b.id)
  {
    assert b.id in steps[a.id].dependsOn && c.id in steps[b.id].dependsOn;
  }

  /** The first wave sends the last step, which fails. */
  lemma BackwardFirstWave(steps: Table, ids: seq<string>, oracle: Oracle, a: PlanStep, b: PlanStep, c: PlanStep)
    returns (second: Results)
    requires InARow(a, b, c) && steps == map[a.id := a, b.id := b, c.id := c] && OnlyLastFails(oracle, a, c)
    requires WellLinked(steps) && Listing(steps, ids)
    ensures Linked(steps, second) && second[a.id] == Entry(a, Pending) && second[b.id] == Entry(b, Pending)
    ensures second[c.id].status == Failed
    ensures Loop(steps, ids, oracle, AllPending(steps)).results == Loop(steps, ids, oracle, second).results
  {
    var start := AllPending(steps);
    NothingToSkip(steps, ids, |ids|, start);
    OnlyLastIsReady(steps, a, b, c);
    assert c.id in ReadySet(steps, start);
    second := Gather(steps, oracle, start);
    assert a.id in PendingIds(start);
    LoopUnfolds(steps, ids, oracle, start);
  }

  /** The second pass visits the first step too early to see that the middle step is about to be skipped. */
  lemma BackwardSecondPass(steps: Table, ids: seq<string>, a: PlanStep, b: PlanStep, c: PlanStep, second: Results)
    requires InARow(a, b, c) && steps == map[a.id := a, b.id := b, c.id := c] && ids == [a.id, b.id, c.id]
    requires Linked(steps, second) && Listing(steps, ids)
    requires second[a.id] == Entry(a, Pending) && second[b.id] == Entry(b, Pending) && second[c.id].status == Failed
    ensures SkipPass(steps, ids, 3, second) == second[b.id := Skip(second[b.id])]
  {
    assert SkipPass(steps, ids, 1, second) == second;
    assert Blocked(steps, second, b.id);
    var passed := second[b.id := Skip(second[b.id])];
    assert SkipPass(steps, ids, 2, second) == passed;
  }

  /** The second wave sends the first step, although the middle step has just been skipped. */
  lemma BackwardSecondWave(steps: Table, ids: seq<string>, oracle: Oracle, a: PlanStep, b: PlanStep, c: PlanStep,
                           second: Results)
    requires InARow(a, b, c) && steps == map[a.id := a, b.id := b, c.id := c] && ids == [a.id, b.id, c.id]
    requires Linked(steps, second) && Listing(steps, ids) && OnlyLastFails(oracle, a, c)
    requires second[a.id] == Entry(a, Pending) && second[b.id] == Entry(b, Pending) && second[c.id].status == Failed
    ensures var end := Loop(steps, ids, oracle, second).results;
            && end.Keys == steps.Keys
            && end[a.id].status == Success && end[b.id].status == Skipped && end[c.id].status == Failed
  {
    BackwardSecondPass(steps, ids, a, b, c, second);
    var passed := second[b.id := Skip(second[b.id])];
    var third := Gather(steps, oracle, passed);
    assert PendingIds(third) == {};
    assert a.id in PendingIds(second);
    LoopUnfolds(steps, ids, oracle, second);
  }

  /**
    Listed backwards, three required steps in a row break the rule: the last fails and the middle one is skipped for it,
    but the first is sent all the same and succeeds.
   */
  lemma BackwardListingSendsBlockedStep(oracle: Oracle, a: PlanStep, b: PlanStep, c: PlanStep)
    requires InARow(a, b, c) && OnlyLastFails(oracle, a, c)
    ensures var steps, ids := map[a.id := a, b.id := b, c.id := c], [a.id, b.id, c.id];
            && WellLinked(steps) && Listing(steps, ids) && Acyclic(steps) && !SkipSafe(steps, ids)
            && var end := Loop(steps, ids, oracle, AllPending(steps)).results;
            && end.Keys == steps.Keys
            && end[a.id].status == Success && end[b.id].status == Skipped && end[c.id].status == Failed
  {
    var steps, ids := map[a.id := a, b.id := b, c.id := c], [a.id, b.id, c.id];
    BackwardTable(steps, ids, a, b, c);
    RowIsAcyclic(GraphOf(steps), a.id, b.id, c.id);
    var second := BackwardFirstWave(steps, ids, oracle, a, b, c);
    BackwardSecondWave(steps, ids, oracle, a, b, c, second);
  }

  /** One such plan: a reply that needs a policy look-up, which needs an order look-up. */
  lemma BackwardListingExists()
    ensures exists oracle, a, b, c :: InARow(a, b, c) && OnlyLastFails(oracle, a, c)
  {
    var a := PlanStep("reply", "biz_exec", "customer_service", ["policy"], true);
    var b := PlanStep("policy", "knowledge_rag", "knowledge_qa", ["order_data"], true);
    var c := PlanStep("order_data", "data_query", "order_query", [], true);
    var oracle: Oracle := (step: PlanStep, u: map<string, Upstream>) => Reply(|step.dependsOn| > 0, "", "AGENT_FAILED");
    assert |a.id| == 5 && |b.id| == 6 && |c.id| == 10;
    assert InARow(a, b, c) && OnlyLastFails(oracle, a, c);
  }
}
