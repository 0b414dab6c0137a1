/** When `execute` follows the recursive rule for all agents, and that skip-safe listings are not the only such ones. */
module MasterExecutorLaws {
  import opened MasterPlan
  import opened WaveSchedule
  import opened WaveLaws
  import opened FailingSets
  import opened MasterExecutor
  import MasterPolicy

  lemma FreshEntries(plan: Plan)
    requires Runnable(plan)
    ensures Named(Steps(plan)) && Linked(Steps(plan), AllPending(Steps(plan))) && Idle(AllPending(Steps(plan)))
  {
    StepsAreNamed(plan, Steps(plan), IdSeq(plan));
    forall id | id in Steps(plan) ensures Steps(plan)[id].id == id {
      var i := Position(IdSeq(plan), id);
      assert IdSeq(plan)[i] == id;
    }
  }

  /**
    For all agents, `execute` follows the rule exactly if no set of failing steps makes it send a step despite a skipped
    required dependency. A listing that is skip-safe passes this test.
   */
  lemma ExecuteFollowsRuleExactlyWhen(plan: Plan, maxSteps: int)
    requires MasterPolicy.ValidPlan(plan, maxSteps)
    ensures Runnable(plan) && Linked(Steps(plan), AllPending(Steps(plan)))
    ensures (forall oracle: Oracle ::
               IsSolution(Steps(plan), oracle, AllPending(Steps(plan)), ExecuteRun(plan, oracle).results)) <==>
            (forall failing: set<string> :: failing <= Ids(plan) ==>
               CleanFor(Steps(plan), IdSeq(plan), AllPending(Steps(plan)), failing))
    ensures SkipSafe(Steps(plan), IdSeq(plan)) ==>
              forall oracle: Oracle ::
                IsSolution(Steps(plan), oracle, AllPending(Steps(plan)), ExecuteRun(plan, oracle).results)
  {
    ValidPlanIsRunnable(plan, maxSteps);
    FreshEntries(plan);
    var steps, ids, seed := Steps(plan), IdSeq(plan), AllPending(Steps(plan));
    FollowsForAllAgentsExactlyWhen(steps, ids, seed);
    forall oracle: Oracle
      ensures FollowsFrom(steps, ids, seed, oracle) <==>
              IsSolution(steps, oracle, seed, ExecuteRun(plan, oracle).results)
    {
    }
    if SkipSafe(steps, ids) {
      forall oracle: Oracle ensures IsSolution(steps, oracle, seed, ExecuteRun(plan, oracle).results) {
        SafeListingFollowsRule(steps, ids, oracle, seed);
      }
    }
  }

  // ---------- An unsafe listing that `execute` handles ----------

  /** `a` needs `b` and `m`, `b` needs `c`, and `m` needs `n`; only `b` and `c` are required of those. */
  ghost predicate TwoBranches(a: PlanStep, b: PlanStep, c: PlanStep, n: PlanStep, m: PlanStep) {
    && DistinctIds([a, b, c, n, m])
    && a.dependsOn == [b.id, m.id] && b.dependsOn == [c.id] && c.dependsOn == []
    && n.dependsOn == [] && m.dependsOn == [n.id]
    && b.required && c.required && !n.required && !m.required
  }

  /** A step without required dependencies is never skipped. */
  lemma NeverSkipped(steps: Table, ids: seq<string>, r: Results, id: string)
    requires Linked(steps, r) && Listing(steps, ids) && id in steps
    requires forall d :: d in steps[id].dependsOn ==> !steps[d].required
    ensures SkipPass(steps, ids, |ids|, r)[id] == r[id]
  {
    if SkipPass(steps, ids, |ids|, r)[id] != r[id] {
      var d := SkipCause(steps, ids, r, id);
    }
  }

  /** Such a step is decided by being sent. */
  lemma DecidedBySending(steps: Table, ids: seq<string>, oracle: Oracle, seed: Results, run: Run, i: nat, id: string)
    returns (k: nat)
    requires IsTrace(steps, ids, oracle, seed, run) && i <= |run.waves| && id in steps
    requires forall d :: d in steps[id].dependsOn ==> !steps[d].required
    requires seed[id].status == Pending && id in StateAt(run, i) && StateAt(run, i)[id].status != Pending
    ensures k < i && id in run.waves[k].sent
  {
    k := DecidingWave(steps, ids, oracle, seed, run, i, id);
    assert Iterates(steps, ids, oracle, run, k);
    NeverSkipped(steps, ids, run.waves[k].before, id);
  }

  /** When a step is sent, its dependencies that are never skipped have been decided by earlier waves. */
  lemma DecidedEarlier(steps: Table, ids: seq<string>, oracle: Oracle, seed: Results, run: Run, k: nat,
                       m: string, n: string)
    requires IsTrace(steps, ids, oracle, seed, run) && k < |run.waves| && m in run.waves[k].sent
    requires m in steps && n in steps && n in steps[m].dependsOn && !steps[n].required
    requires forall d :: d in steps[n].dependsOn ==> !steps[d].required
    ensures n in StateAt(run, k) && StateAt(run, k)[n].status != Pending
  {
    SentWasPending(steps, ids, oracle, seed, run, k, m);
    assert Iterates(steps, ids, oracle, run, k);
    NeverSkipped(steps, ids, run.waves[k].before, n);
    assert Terminal(run.waves[k].passed[n].status);
  }

  /** A step that depends on another one, neither of them ever skipped, is sent in the second wave at the earliest. */
  lemma DecidedFromSecondWave(steps: Table, ids: seq<string>, oracle: Oracle, seed: Results, run: Run, i: nat,
                              m: string, n: string)
    requires IsTrace(steps, ids, oracle, seed, run) && i <= |run.waves|
    requires m in steps && n in steps && steps[m].dependsOn == [n] && steps[n].dependsOn == [] && !steps[n].required
    requires seed[m].status == Pending && seed[n].status == Pending
    requires m in StateAt(run, i) && StateAt(run, i)[m].status != Pending
    ensures i >= 2
  {
    var k := DecidedBySending(steps, ids, oracle, seed, run, i, m);
    DecidedEarlier(steps, ids, oracle, seed, run, k, m, n);
  }

  /** Roots are decided by the first wave, and steps that only need roots by the second. */
  lemma DecidedByTwoWaves(steps: Table, ids: seq<string>, oracle: Oracle, seed: Results, run: Run, i: nat,
                          b: string, c: string)
    requires IsTrace(steps, ids, oracle, seed, run) && Idle(seed) && 2 <= i <= |run.waves|
    requires b in steps && c in steps && steps[b].dependsOn == [c] && steps[c].dependsOn == []
    ensures b in StateAt(run, i) && StateAt(run, i)[b].status != Pending
  {
    StatesAreLinked(steps, ids, oracle, seed, run, 1);
    StatesAreLinked(steps, ids, oracle, seed, run, 2);
    DecidedNext(steps, ids, oracle, seed, run, 0, c);
    StatesStayIdle(steps, ids, oracle, seed, run, 1);
    DecidedNext(steps, ids, oracle, seed, run, 1, b);
    DecidedStays(steps, ids, oracle, seed, run, 2, i, b);
  }

  lemma DecidedNext(steps: Table, ids: seq<string>, oracle: Oracle, seed: Results, run: Run, i: nat, id: string)
    requires IsTrace(steps, ids, oracle, seed, run) && i < |run.waves| && id in steps
    requires Linked(steps, StateAt(run, i))
    requires forall d :: d in steps[id].dependsOn ==> Terminal(StateAt(run, i)[d].status)
    ensures id in StateAt(run, i + 1) && StateAt(run, i + 1)[id].status != Pending
  {
    StateIsNext(steps, ids, oracle, seed, run, i);
    var r := StateAt(run, i);
    if r[id].status == Pending {
      FinishedDependenciesDecide(steps, ids, oracle, r, id);
    } else {
      NextKeeps(steps, ids, oracle, r, id);
    }
  }

  ghost predicate BranchTable(steps: Table, ids: seq<string>, a: PlanStep, b: PlanStep, c: PlanStep, n: PlanStep,
                              m: PlanStep)
  {
    && steps == map[a.id := a, b.id := b, c.id := c, n.id := n, m.id := m]
    && ids == [a.id, b.id, c.id, n.id, m.id]
  }

  lemma DistinctPairs(a: PlanStep, b: PlanStep, c: PlanStep, n: PlanStep, m: PlanStep)
    requires DistinctIds([a, b, c, n, m])
    ensures a.id != b.id && a.id != c.id && a.id != n.id && a.id != m.id && b.id != c.id
    ensures b.id != n.id && b.id != m.id && c.id != n.id && c.id != m.id && n.id != m.id
  {
    var listed := [a, b, c, n, m];
    assert listed[0] == a && listed[1] == b && listed[2] == c && listed[3] == n && listed[4] == m;
  }

  lemma BranchesAreLinked(steps: Table, ids: seq<string>, a: PlanStep, b: PlanStep, c: PlanStep, n: PlanStep,
                          m: PlanStep)
    requires TwoBranches(a, b, c, n, m) && BranchTable(steps, ids, a, b, c, n, m)
    ensures WellLinked(steps) && Listing(steps, ids)
    ensures Branches(steps, a.id, b.id, c.id, n.id, m.id) && c.id !in a.dependsOn && steps[a.id] == a
  {
    DistinctPairs(a, b, c, n, m);
    assert ids[0] == a.id && ids[1] == b.id && ids[2] == c.id && ids[3] == n.id && ids[4] == m.id;
    forall i | 0 <= i < |ids| ensures Position(ids, ids[i]) == i {
      assert ids[Position(ids, ids[i])] == ids[i];
    }
  }

  lemma BranchesAreAcyclic(steps: Table, ids: seq<string>, a: PlanStep, b: PlanStep, c: PlanStep, n: PlanStep,
                           m: PlanStep)
    requires TwoBranches(a, b, c, n, m) && BranchTable(steps, ids, a, b, c, n, m)
    ensures Acyclic(steps)
  {
    DistinctPairs(a, b, c, n, m);
    var g, order := GraphOf(steps), [c.id, n.id, b.id, m.id, a.id];
    assert order[..2] == [c.id, n.id] && order[..3] == [c.id, n.id, b.id];
    assert order[..4] == [c.id, n.id, b.id, m.id];
    assert DependenciesFirst(g, order);
    TopologicalHasNoCycle(g, order);
  }

  /** The plan by its step ids, without the dictionary that holds it. */
  ghost predicate Branches(steps: Table, a: string, b: string, c: string, n: string, m: string) {
    && steps.Keys == {a, b, c, n, m}
    && steps[a].dependsOn == [b, m] && steps[b].dependsOn == [c] && steps[c].dependsOn == []
    && steps[n].dependsOn == [] && steps[m].dependsOn == [n]
    && steps[b].required && steps[c].required && !steps[n].required && !steps[m].required
  }

  /** The second branch keeps the first step waiting until a skip of the first branch shows. */
  lemma FirstStepWaits(steps: Table, ids: seq<string>, oracle: Oracle, seed: Results, run: Run, i: nat,
                       a: string, b: string, c: string, n: string, m: string)
    requires Branches(steps, a, b, c, n, m) && seed == AllPending(steps)
    requires IsTrace(steps, ids, oracle, seed, run) && i < |run.waves| && a in run.waves[i].sent
    ensures Linked(steps, run.waves[i].passed) && !Blocked(steps, run.waves[i].passed, a)
  {
    assert m in steps[a].dependsOn && b in steps[a].dependsOn;
    DecidedEarlier(steps, ids, oracle, seed, run, i, a, m);
    SentWasPending(steps, ids, oracle, seed, run, i, a);
    DecidedFromSecondWave(steps, ids, oracle, seed, run, i, m, n);
    DecidedByTwoWaves(steps, ids, oracle, seed, run, i, b, c);
  }

  lemma SecondStepSeesFailure(steps: Table, ids: seq<string>, oracle: Oracle, seed: Results, run: Run, i: nat,
                              b: string, c: string)
    requires IsTrace(steps, ids, oracle, seed, run) && i < |run.waves| && b in run.waves[i].sent
    requires b in steps && c in steps && steps[b].dependsOn == [c] && steps[c].dependsOn == []
    ensures Linked(steps, run.waves[i].passed) && !Blocked(steps, run.waves[i].passed, b)
  {
    SentWasPending(steps, ids, oracle, seed, run, i, b);
    assert Iterates(steps, ids, oracle, run, i);
    assert c in steps[b].dependsOn;
    NeverSkipped(steps, ids, run.waves[i].before, c);
  }

  lemma NeverSentBlocked(steps: Table, ids: seq<string>, oracle: Oracle, seed: Results, run: Run, i: nat, id: string,
                         a: string, b: string, c: string, n: string, m: string)
    requires Branches(steps, a, b, c, n, m) && seed == AllPending(steps) && id in steps
    requires IsTrace(steps, ids, oracle, seed, run) && i < |run.waves| && id in run.waves[i].sent
    ensures Linked(steps, run.waves[i].passed) && !Blocked(steps, run.waves[i].passed, id)
  {
    if id == a {
      FirstStepWaits(steps, ids, oracle, seed, run, i, a, b, c, n, m);
    } else if id == b {
      SecondStepSeesFailure(steps, ids, oracle, seed, run, i, b, c);
    } else {
      SentWasPending(steps, ids, oracle, seed, run, i, id);
    }
  }

  lemma BranchesAreHandled(steps: Table, ids: seq<string>, oracle: Oracle,
                           a: string, b: string, c: string, n: string, m: string)
    requires WellLinked(steps) && Listing(steps, ids) && Acyclic(steps) && Branches(steps, a, b, c, n, m)
    ensures FollowsFrom(steps, ids, AllPending(steps), oracle)
  {
    var seed := AllPending(steps);
    var run := Loop(steps, ids, oracle, seed);
    LoopIsTrace(steps, ids, oracle, seed);
    forall id ensures !SentDespiteSkip(steps, run, id) {
      if SentDespiteSkip(steps, run, id) {
        var i :| 0 <= i < |run.waves| && id in run.waves[i].sent
                 && Linked(steps, run.waves[i].passed) && id in steps && Blocked(steps, run.waves[i].passed, id);
        NeverSentBlocked(steps, ids, oracle, seed, run, i, id, a, b, c, n, m);
      }
    }
    FollowsExactlyIfNothingMissed(steps, ids, seed, oracle);
  }

  /** Skip-safety is sufficient for `execute`, not necessary: here it fails, yet every run follows the rule. */
  lemma UnsafeListingMayBeHandled(oracle: Oracle, a: PlanStep, b: PlanStep, c: PlanStep, n: PlanStep, m: PlanStep)
    requires TwoBranches(a, b, c, n, m)
    ensures var steps, ids := map[a.id := a, b.id := b, c.id := c, n.id := n, m.id := m],
                              [a.id, b.id, c.id, n.id, m.id];
            && WellLinked(steps) && Listing(steps, ids) && Acyclic(steps) && !SkipSafe(steps, ids)
            && FollowsFrom(steps, ids, AllPending(steps), oracle)
  {
    var steps, ids := map[a.id := a, b.id := b, c.id := c, n.id := n, m.id := m], [a.id, b.id, c.id, n.id, m.id];
    BranchesAreLinked(steps, ids, a, b, c, n, m);
    BranchesAreAcyclic(steps, ids, a, b, c, n, m);
    assert ids[0] == a.id && ids[1] == b.id;
    assert Unsafe(steps, ids, 0, 1, c.id);
    BranchesAreHandled(steps, ids, oracle, a.id, b.id, c.id, n.id, m.id);
  }

  /** There are such steps. */
  lemma TwoBranchesExist()
    ensures exists a, b, c, n, m :: TwoBranches(a, b, c, n, m)
  {
    var a := PlanStep("reply", "biz_exec", "customer_service", ["policy", "stock"], true);
    var b := PlanStep("policy", "knowledge_rag", "knowledge_qa", ["order_data"], true);
    var c := PlanStep("order_data", "data_query", "order_query", [], true);
    var n := PlanStep("catalogue", "data_query", "goods_catalog", [], false);
    var m := PlanStep("stock", "data_query", "stock_analysis", ["catalogue"], false);
    assert |a.id| == 5 && |b.id| == 6 && |c.id| == 10 && |n.id| == 9 && |m.id| == 5 && a.id[0] != m.id[0];
    assert TwoBranches(a, b, c, n, m);
  }
}
