/**
  Agents answer from data, but a schedule depends only on which steps fail: every run of the wave loop skips and sends
  as the run with fixed agents does that fail exactly the steps which failed in it.
 */
module FailingSets {
  import opened MasterPlan
  import opened WaveSchedule
  import opened WaveLaws

  /** Agents that fail exactly the given steps and return nothing. */
  function FixedAgents(failing: set<string>): Oracle {
    (step: PlanStep, upstream: map<string, Upstream>) => Reply(step.id !in failing, "", "")
  }

  ghost predicate Named(steps: Table) {
    forall id :: id in steps ==> steps[id].id == id
  }

  ghost predicate SameStatuses(r: Results, q: Results) {
    r.Keys == q.Keys && forall id :: id in r ==> r[id].status == q[id].status
  }

  lemma SameVisit(steps: Table, r: Results, q: Results, id: string)
    requires Linked(steps, r) && Linked(steps, q) && SameStatuses(r, q) && id in steps
    ensures Blocked(steps, r, id) == Blocked(steps, q, id) && Ready(steps, r, id) == Ready(steps, q, id)
    ensures SameStatuses(SkipAt(steps, r, id), SkipAt(steps, q, id))
  {
  }

  lemma {:induction false} SamePass(steps: Table, ids: seq<string>, n: nat, r: Results, q: Results)
    requires Linked(steps, r) && Linked(steps, q) && SameStatuses(r, q) && Listing(steps, ids) && n <= |ids|
    ensures SameStatuses(SkipPass(steps, ids, n, r), SkipPass(steps, ids, n, q))
  {
    if n == 0 {
    } else {
      SamePass(steps, ids, n - 1, r, q);
      SameVisit(steps, SkipPass(steps, ids, n - 1, r), SkipPass(steps, ids, n - 1, q), ids[n - 1]);
    }
  }

  lemma SkipShows(e: StepResult, f: StepResult)
    requires f == e || (e.status == Pending && f == Skip(e))
    ensures f == e <==> f.status == e.status
  {
  }

  /** Whether a pass skipped anything shows in the statuses. */
  lemma PassIsIdle(steps: Table, ids: seq<string>, r: Results)
    requires Linked(steps, r) && Listing(steps, ids)
    ensures SkipPass(steps, ids, |ids|, r) == r <==> SameStatuses(SkipPass(steps, ids, |ids|, r), r)
  {
    var s := SkipPass(steps, ids, |ids|, r);
    if SameStatuses(s, r) {
      forall id | id in r ensures s[id] == r[id] {
        SkipPassKeepsEntry(steps, ids, |ids|, r, id);
        SkipShows(r[id], s[id]);
      }
      assert s == r;
    }
  }

  lemma SameReady(steps: Table, r: Results, q: Results)
    requires Linked(steps, r) && Linked(steps, q) && SameStatuses(r, q)
    ensures ReadySet(steps, r) == ReadySet(steps, q)
  {
    forall id | id in steps ensures Ready(steps, r, id) == Ready(steps, q, id) {
      SameVisit(steps, r, q, id);
    }
  }

  /** A decided entry is the one that the loop ends with. */
  lemma LoopKeepsDecided(steps: Table, ids: seq<string>, oracle: Oracle, r: Results, id: string)
    requires Linked(steps, r) && Listing(steps, ids) && id in r && r[id].status != Pending
    ensures var run := Loop(steps, ids, oracle, r); id in run.results && run.results[id] == r[id]
  {
    var run := Loop(steps, ids, oracle, r);
    LoopIsTrace(steps, ids, oracle, r);
    DecidedStays(steps, ids, oracle, r, run, 0, |run.waves|, id);
  }

  /** `failing` holds the pending steps that the loop ends with as failed. */
  ghost predicate Foretells(failing: set<string>, r: Results, end: Results) {
    && end.Keys == r.Keys
    && forall id :: id in r && r[id].status == Pending ==> (id in failing <==> end[id].status == Failed)
  }

  lemma SameAnswers(steps: Table, ids: seq<string>, oracle: Oracle, failing: set<string>, r: Results, q: Results)
    requires Linked(steps, r) && Linked(steps, q) && SameStatuses(r, q) && Listing(steps, ids) && Named(steps)
    requires Foretells(failing, r, Loop(steps, ids, oracle, Next(steps, ids, oracle, r)).results)
    ensures SameStatuses(Next(steps, ids, oracle, r), Next(steps, ids, FixedAgents(failing), q))
  {
    SamePass(steps, ids, |ids|, r, q);
    forall id | id in steps
      ensures Next(steps, ids, oracle, r)[id].status == Next(steps, ids, FixedAgents(failing), q)[id].status
    {
      SameVisit(steps, SkipPass(steps, ids, |ids|, r), SkipPass(steps, ids, |ids|, q), id);
      if Ready(steps, SkipPass(steps, ids, |ids|, r), id) {
        AnswerIsForetold(steps, ids, oracle, failing, r, id);
      }
    }
  }

  lemma AnswerIsForetold(steps: Table, ids: seq<string>, oracle: Oracle, failing: set<string>, r: Results, id: string)
    requires Linked(steps, r) && Listing(steps, ids) && id in steps
    requires Foretells(failing, r, Loop(steps, ids, oracle, Next(steps, ids, oracle, r)).results)
    requires Ready(steps, SkipPass(steps, ids, |ids|, r), id)
    ensures Next(steps, ids, oracle, r)[id].status == if id in failing then Failed else Success
  {
    SkipPassKeepsEntry(steps, ids, |ids|, r, id);
    LoopKeepsDecided(steps, ids, oracle, Next(steps, ids, oracle, r), id);
  }

  /** Two runs that skip and send alike. */
  ghost predicate SameSchedule(run: Run, fixed: Run) {
    && SameStatuses(run.results, fixed.results) && run.stuck == fixed.stuck && |run.waves| == |fixed.waves|
    && forall i :: 0 <= i < |run.waves| ==>
                     && run.waves[i].sent == fixed.waves[i].sent
                     && SameStatuses(run.waves[i].passed, fixed.waves[i].passed)
  }

  lemma {:induction false} SameRuns(steps: Table, ids: seq<string>, oracle: Oracle, failing: set<string>,
                                    r: Results, q: Results)
    requires Linked(steps, r) && Linked(steps, q) && SameStatuses(r, q) && Listing(steps, ids) && Named(steps)
    requires Foretells(failing, r, Loop(steps, ids, oracle, r).results)
    ensures SameSchedule(Loop(steps, ids, oracle, r), Loop(steps, ids, FixedAgents(failing), q))
    decreases |PendingIds(r)|
  {
    var s, t := SkipPass(steps, ids, |ids|, r), SkipPass(steps, ids, |ids|, q);
    assert PendingIds(r) == PendingIds(q);
    SamePass(steps, ids, |ids|, r, q);
    SameReady(steps, s, t);
    PassIsIdle(steps, ids, r);
    PassIsIdle(steps, ids, q);
    if PendingIds(r) == {} {
    } else if s == r && ReadySet(steps, s) == {} {
      LoopUnfolds(steps, ids, oracle, r);
      LoopUnfolds(steps, ids, FixedAgents(failing), q);
    } else {
      var w, rest := FirstIteration(steps, ids, oracle, r);
      var v, fixedRest := FirstIteration(steps, ids, FixedAgents(failing), q);
      StillForetold(steps, ids, oracle, failing, r);
      SameAnswers(steps, ids, oracle, failing, r, q);
      SameRuns(steps, ids, oracle, failing, Next(steps, ids, oracle, r), Next(steps, ids, FixedAgents(failing), q));
      SameScheduleExtends(w, rest, v, fixedRest);
    }
  }

  lemma StillForetold(steps: Table, ids: seq<string>, oracle: Oracle, failing: set<string>, r: Results)
    requires Linked(steps, r) && Listing(steps, ids)
    requires Foretells(failing, r, Loop(steps, ids, oracle, Next(steps, ids, oracle, r)).results)
    ensures var next := Next(steps, ids, oracle, r); Foretells(failing, next, Loop(steps, ids, oracle, next).results)
  {
    var next := Next(steps, ids, oracle, r);
    forall id | id in next && next[id].status == Pending ensures r[id].status == Pending {
      NextKeeps(steps, ids, oracle, r, id);
    }
  }

  lemma SameScheduleExtends(w: Wave, rest: Run, v: Wave, fixedRest: Run)
    requires SameSchedule(rest, fixedRest) && w.sent == v.sent && SameStatuses(w.passed, v.passed)
    ensures SameSchedule(Run(rest.results, [w] + rest.waves, rest.stuck),
                         Run(fixedRest.results, [v] + fixedRest.waves, fixedRest.stuck))
  {
  }

  /** Schedules that agree agree on which steps were sent despite a skipped dependency. */
  lemma SameSentDespiteSkip(steps: Table, run: Run, fixed: Run, id: string)
    requires SameSchedule(run, fixed) && SentDespiteSkip(steps, run, id)
    ensures SentDespiteSkip(steps, fixed, id)
  {
    var i :| 0 <= i < |run.waves| && id in run.waves[i].sent
             && Linked(steps, run.waves[i].passed) && id in steps && Blocked(steps, run.waves[i].passed, id);
    assert SameStatuses(run.waves[i].passed, fixed.waves[i].passed);
    SameVisit(steps, run.waves[i].passed, fixed.waves[i].passed, id);
  }

  /** With exactly these steps failing, no step is sent although a required dependency was skipped. */
  ghost predicate CleanFor(steps: Table, ids: seq<string>, seed: Results, failing: set<string>)
    requires Linked(steps, seed) && Listing(steps, ids)
  {
    forall id :: !SentDespiteSkip(steps, Loop(steps, ids, FixedAgents(failing), seed), id)
  }

  ghost predicate FollowsFrom(steps: Table, ids: seq<string>, seed: Results, oracle: Oracle)
    requires Linked(steps, seed) && Listing(steps, ids)
  {
    IsSolution(steps, oracle, seed, Loop(steps, ids, oracle, seed).results)
  }

  /** A run follows the rule exactly if nothing is sent despite a skip. */
  lemma FollowsExactlyIfNothingMissed(steps: Table, ids: seq<string>, seed: Results, oracle: Oracle)
    requires Linked(steps, seed) && Listing(steps, ids) && Acyclic(steps) && Idle(seed)
    ensures FollowsFrom(steps, ids, seed, oracle) <==>
            forall id :: !SentDespiteSkip(steps, Loop(steps, ids, oracle, seed), id)
  {
    var run := Loop(steps, ids, oracle, seed);
    LoopIsTrace(steps, ids, oracle, seed);
    forall id | id in steps
      ensures FollowsRule(steps, oracle, seed, run.results, id) <==> !SentDespiteSkip(steps, run, id)
    {
      RuleBrokenExactlyBySentDespiteSkip(steps, ids, oracle, seed, id);
    }
    forall id | SentDespiteSkip(steps, run, id) ensures id in steps {
    }
  }

  /**
    From one starting dictionary: the loop follows the rule for all agents exactly if it sends no step despite a skip
    for any set of failing steps. These are finitely many schedules of the plan, known before any agent is asked.
   */
  lemma FollowsForAllAgentsExactlyWhen(steps: Table, ids: seq<string>, seed: Results)
    requires Linked(steps, seed) && Listing(steps, ids) && Named(steps) && Acyclic(steps) && Idle(seed)
    ensures (forall oracle: Oracle :: FollowsFrom(steps, ids, seed, oracle)) <==>
            (forall failing: set<string> :: failing <= steps.Keys ==> CleanFor(steps, ids, seed, failing))
  {
    if forall oracle: Oracle :: FollowsFrom(steps, ids, seed, oracle) {
      forall failing: set<string> | failing <= steps.Keys ensures CleanFor(steps, ids, seed, failing) {
        FollowsExactlyIfNothingMissed(steps, ids, seed, FixedAgents(failing));
      }
    }
    if forall failing: set<string> :: failing <= steps.Keys ==> CleanFor(steps, ids, seed, failing) {
      forall oracle: Oracle ensures FollowsFrom(steps, ids, seed, oracle) {
        CleanSetsSuffice(steps, ids, seed, oracle);
      }
    }
  }

  /** Every run has the schedule of a run with fixed agents, which fail just the steps that failed in it. */
  lemma EveryScheduleIsFixed(steps: Table, ids: seq<string>, seed: Results, oracle: Oracle)
    returns (failing: set<string>)
    requires Linked(steps, seed) && Listing(steps, ids) && Named(steps)
    ensures failing <= steps.Keys
    ensures SameSchedule(Loop(steps, ids, oracle, seed), Loop(steps, ids, FixedAgents(failing), seed))
  {
    var run := Loop(steps, ids, oracle, seed);
    LoopIsTrace(steps, ids, oracle, seed);
    failing := set id | id in steps && run.results[id].status == Failed;
    SameRuns(steps, ids, oracle, failing, seed, seed);
  }

  lemma CleanSetsSuffice(steps: Table, ids: seq<string>, seed: Results, oracle: Oracle)
    requires Linked(steps, seed) && Listing(steps, ids) && Named(steps) && Acyclic(steps) && Idle(seed)
    requires forall failing: set<string> :: failing <= steps.Keys ==> CleanFor(steps, ids, seed, failing)
    ensures FollowsFrom(steps, ids, seed, oracle)
  {
    var failing := EveryScheduleIsFixed(steps, ids, seed, oracle);
    var run, fixed := Loop(steps, ids, oracle, seed), Loop(steps, ids, FixedAgents(failing), seed);
    assert CleanFor(steps, ids, seed, failing);
    forall id ensures !SentDespiteSkip(steps, run, id) {
      if SentDespiteSkip(steps, run, id) {
        SameSentDespiteSkip(steps, run, fixed, id);
      }
    }
    FollowsExactlyIfNothingMissed(steps, ids, seed, oracle);
  }
}
