/**
  What becomes of each step in a run of the wave loop, in terms of its dependencies, its agent and its entry at the
  start.
 */
module WaveOutcomes {
  import opened MasterPlan
  import opened WaveSchedule
  import opened WaveLaws

  /** `u` holds the data of the step's successful dependencies, and of no others. */
  ghost predicate IsContext(steps: Table, r: Results, id: string, u: map<string, Upstream>) {
    && id in steps
    && (forall d :: d in u <==> d in steps[id].dependsOn && d in r && r[d].status == Success)
    && (forall d :: d in u ==> d in steps && d in r && u[d] == Upstream(steps[d].agent, steps[d].taskType, r[d].data))
  }

  /** `entry` is what the step's agent replied, given the data of its successful dependencies. */
  ghost predicate Answers(steps: Table, oracle: Oracle, r: Results, id: string, entry: StepResult) {
    exists u :: IsContext(steps, r, id, u) && Records(steps[id], oracle(steps[id], u), entry)
  }

  /** A success is recorded with its data, a failure with its data and error code. */
  predicate Records(step: PlanStep, reply: Reply, entry: StepResult) {
    && entry.agent == step.agent && entry.taskType == step.taskType && entry.data == reply.data
    && if reply.success then entry.status == Success && entry.errorCode == ""
       else entry.status == Failed && entry.errorCode == reply.errorCode
  }

  ghost predicate Sent(run: Run, id: string) {
    exists i :: 0 <= i < |run.waves| && id in run.waves[i].sent
  }

  /** The step was sent when all its dependencies had finished, with the entries that they end with. */
  ghost predicate Waited(steps: Table, run: Run, id: string)
    requires id in steps
  {
    exists i ::
      && 0 <= i < |run.waves| && id in run.waves[i].sent
      && forall d :: d in steps[id].dependsOn ==>
           && d in run.waves[i].passed && d in run.results && run.waves[i].passed[d] == run.results[d]
           && run.results[d].status in {Success, Failed, Skipped}
  }

  /** A required dependency has failed or was skipped. */
  ghost predicate Obstructed(steps: Table, r: Results, id: string)
    requires id in steps
  {
    exists d ::
      d in steps[id].dependsOn && d in steps && steps[d].required && d in r && r[d].status in {Failed, Skipped}
  }

  /**
    A step that does not start pending is never sent and keeps its entry. Any other step is either sent, once its
    dependencies have finished, and has its agent's reply; or it is skipped, which needs a required dependency that
    failed or was skipped.
   */
  ghost predicate Explained(steps: Table, oracle: Oracle, start: StepResult, run: Run, id: string)
    requires id in steps && id in run.results
  {
    if start.status != Pending then !Sent(run, id) && run.results[id] == start
    else if Sent(run, id) then Waited(steps, run, id) && Answers(steps, oracle, run.results, id, run.results[id])
    else run.results[id] == start.(status := Skipped, errorCode := "DEPENDENCY_FAILED")
         && Obstructed(steps, run.results, id)
  }

  lemma OutcomeAnswers(steps: Table, oracle: Oracle, r: Results, id: string)
    requires Linked(steps, r) && id in steps
    ensures Answers(steps, oracle, r, id, Outcome(steps, oracle, r, id))
  {
    var u := UpstreamContext(steps, r, id);
    assert IsContext(steps, r, id, u);
  }

  /** Blocked is what it says. */
  lemma BlockedIsObstructed(steps: Table, r: Results, id: string)
    requires Linked(steps, r) && id in steps
    ensures Blocked(steps, r, id) <==> Obstructed(steps, r, id)
  {
  }

  lemma SentWaited(steps: Table, ids: seq<string>, oracle: Oracle, seed: Results, run: Run, i: nat, id: string)
    requires IsTrace(steps, ids, oracle, seed, run) && i < |run.waves| && id in run.waves[i].sent
    ensures id in steps && Waited(steps, run, id)
  {
    SentWasPending(steps, ids, oracle, seed, run, i, id);
    forall d | d in steps[id].dependsOn
      ensures d in run.waves[i].passed && d in run.results && run.waves[i].passed[d] == run.results[d]
      ensures run.results[d].status in {Success, Failed, Skipped}
    {
      PassedIsFinal(steps, ids, oracle, seed, run, i, d);
    }
  }

  lemma KeptStep(steps: Table, ids: seq<string>, oracle: Oracle, seed: Results, run: Run, id: string)
    requires IsTrace(steps, ids, oracle, seed, run) && id in steps && seed[id].status != Pending
    ensures !Sent(run, id) && id in run.results && run.results[id] == seed[id]
  {
    DecidedStays(steps, ids, oracle, seed, run, 0, |run.waves|, id);
    if i :| 0 <= i < |run.waves| && id in run.waves[i].sent {
      SentWasPending(steps, ids, oracle, seed, run, i, id);
    }
  }

  lemma SkippedStep(steps: Table, ids: seq<string>, oracle: Oracle, seed: Results, run: Run, id: string)
    requires IsTrace(steps, ids, oracle, seed, run) && id in steps && seed[id].status == Pending && !Sent(run, id)
    requires id in run.results && run.results[id].status != Pending
    ensures run.results[id] == seed[id].(status := Skipped, errorCode := "DEPENDENCY_FAILED")
    ensures Obstructed(steps, run.results, id)
  {
    var i := DecidingWave(steps, ids, oracle, seed, run, |run.waves|, id);
    UnsentIsSkipped(steps, ids, oracle, seed, run, i, id);
    BlockedIsObstructed(steps, run.results, id);
  }

  /** Every step of every run without in-flight entries is explained, for plans listed in any order. */
  lemma EveryStepIsExplained(steps: Table, ids: seq<string>, oracle: Oracle, seed: Results, id: string)
    requires Linked(steps, seed) && Listing(steps, ids) && Acyclic(steps) && Idle(seed) && id in steps
    ensures var run := Loop(steps, ids, oracle, seed);
            id in run.results && Explained(steps, oracle, seed[id], run, id)
  {
    var run := Loop(steps, ids, oracle, seed);
    LoopIsTrace(steps, ids, oracle, seed);
    RunFinishesEveryStep(steps, ids, oracle, seed);
    if seed[id].status != Pending {
      KeptStep(steps, ids, oracle, seed, run, id);
    } else if i :| 0 <= i < |run.waves| && id in run.waves[i].sent {
      SentWaited(steps, ids, oracle, seed, run, i, id);
      SentHasAnswer(steps, ids, oracle, seed, run, i, id);
      OutcomeAnswers(steps, oracle, run.results, id);
    } else {
      SkippedStep(steps, ids, oracle, seed, run, id);
    }
  }

  /** In a skip-safe listing a pending step is sent exactly if no required dependency fails or is skipped. */
  lemma SafeListingSendsExactly(steps: Table, ids: seq<string>, oracle: Oracle, seed: Results, id: string)
    requires Linked(steps, seed) && Listing(steps, ids) && Acyclic(steps) && Idle(seed) && SkipSafe(steps, ids)
    requires id in steps && seed[id].status == Pending
    ensures var run := Loop(steps, ids, oracle, seed); Sent(run, id) <==> !Obstructed(steps, run.results, id)
  {
    var run := Loop(steps, ids, oracle, seed);
    EveryStepIsExplained(steps, ids, oracle, seed, id);
    LoopIsTrace(steps, ids, oracle, seed);
    if i :| 0 <= i < |run.waves| && id in run.waves[i].sent {
      SentHasAnswer(steps, ids, oracle, seed, run, i, id);
      SafeTraceMissesNoSkip(steps, ids, oracle, seed, run, id);
      BlockedIsObstructed(steps, run.results, id);
    }
  }
}
