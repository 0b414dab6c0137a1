/** What every run of the wave loop keeps: termination, dispatch rules, and agreement with the recursive rule. */
module WaveLaws {
  import opened MasterPlan
  import opened WaveSchedule

  /** The results dictionary at the start of iteration `i`, and at the end for the last `i`. */
  function StateAt(run: Run, i: nat): Results
    requires i <= |run.waves|
  {
    if i < |run.waves| then run.waves[i].before else run.results
  }

  ghost predicate Iterates(steps: Table, ids: seq<string>, oracle: Oracle, run: Run, i: nat)
    requires Listing(steps, ids)
  {
    && i < |run.waves|
    && var w := run.waves[i];
    && Linked(steps, w.before)
    && PendingIds(w.before) != {}
    && w.passed == SkipPass(steps, ids, |ids|, w.before)
    && w.sent == ReadySet(steps, w.passed)
    && StateAt(run, i + 1) == Next(steps, ids, oracle, w.before)
  }

  ghost predicate IsTrace(steps: Table, ids: seq<string>, oracle: Oracle, seed: Results, run: Run) {
    && Linked(steps, seed) && Listing(steps, ids)
    && StateAt(run, 0) == seed
    && (forall i: nat {:trigger Iterates(steps, ids, oracle, run, i)} ::
          i < |run.waves| ==> Iterates(steps, ids, oracle, run, i))
  }

  lemma LaterIteration(steps: Table, ids: seq<string>, oracle: Oracle, w: Wave, rest: Run, run: Run, i: nat)
    requires Listing(steps, ids) && run == Run(rest.results, [w] + rest.waves, rest.stuck)
    requires Iterates(steps, ids, oracle, rest, i)
    ensures Iterates(steps, ids, oracle, run, i + 1)
  {
    assert run.waves[i + 1] == rest.waves[i];
    assert StateAt(run, i + 2) == StateAt(rest, i + 1);
  }

  lemma TraceExtends(steps: Table, ids: seq<string>, oracle: Oracle, w: Wave, rest: Run, run: Run)
    requires Linked(steps, w.before) && run == Run(rest.results, [w] + rest.waves, rest.stuck)
    requires IsTrace(steps, ids, oracle, StateAt(rest, 0), rest) && Iterates(steps, ids, oracle, run, 0)
    ensures IsTrace(steps, ids, oracle, w.before, run)
  {
    forall i: nat | i < |run.waves| ensures Iterates(steps, ids, oracle, run, i) {
      if i > 0 {
        LaterIteration(steps, ids, oracle, w, rest, run, i - 1);
      }
    }
  }

  /** An iteration that does something is the first wave of the loop; the loop from its outcome gives the others. */
  lemma FirstIteration(steps: Table, ids: seq<string>, oracle: Oracle, seed: Results) returns (w: Wave, rest: Run)
    requires Linked(steps, seed) && Listing(steps, ids) && PendingIds(seed) != {}
    requires var s := SkipPass(steps, ids, |ids|, seed); !(s == seed && ReadySet(steps, s) == {})
    ensures w.before == seed && w.passed == SkipPass(steps, ids, |ids|, seed) && w.sent == ReadySet(steps, w.passed)
    ensures rest == Loop(steps, ids, oracle, Next(steps, ids, oracle, seed))
    ensures Loop(steps, ids, oracle, seed) == Run(rest.results, [w] + rest.waves, rest.stuck)
    ensures |PendingIds(Next(steps, ids, oracle, seed))| < |PendingIds(seed)|
  {
    var s := SkipPass(steps, ids, |ids|, seed);
    w := Wave(seed, s, ReadySet(steps, s));
    rest := Loop(steps, ids, oracle, Next(steps, ids, oracle, seed));
    LoopUnfolds(steps, ids, oracle, seed);
    PendingShrinks(steps, ids, oracle, seed);
  }

  lemma {:induction false} LoopIsTrace(steps: Table, ids: seq<string>, oracle: Oracle, seed: Results)
    requires Linked(steps, seed) && Listing(steps, ids)
    ensures IsTrace(steps, ids, oracle, seed, Loop(steps, ids, oracle, seed))
    ensures Loop(steps, ids, oracle, seed).results.Keys == steps.Keys
    decreases |PendingIds(seed)|
  {
    var s := SkipPass(steps, ids, |ids|, seed);
    if PendingIds(seed) == {} {
    } else if s == seed && ReadySet(steps, s) == {} {
      LoopUnfolds(steps, ids, oracle, seed);
    } else {
      var w, rest := FirstIteration(steps, ids, oracle, seed);
      LoopIsTrace(steps, ids, oracle, Next(steps, ids, oracle, seed));
      TraceGoesOn(steps, ids, oracle, w, rest, Loop(steps, ids, oracle, seed));
    }
  }

  lemma TraceGoesOn(steps: Table, ids: seq<string>, oracle: Oracle, w: Wave, rest: Run, run: Run)
    requires Linked(steps, w.before) && Listing(steps, ids) && PendingIds(w.before) != {}
    requires w.passed == SkipPass(steps, ids, |ids|, w.before) && w.sent == ReadySet(steps, w.passed)
    requires run == Run(rest.results, [w] + rest.waves, rest.stuck)
    requires IsTrace(steps, ids, oracle, Next(steps, ids, oracle, w.before), rest)
    ensures IsTrace(steps, ids, oracle, w.before, run)
  {
    assert StateAt(run, 1) == StateAt(rest, 0);
    TraceExtends(steps, ids, oracle, w, rest, run);
  }

  /** A run is stuck exactly if it leaves a step pending. */
  lemma {:induction false} StuckExactlyWhen(steps: Table, ids: seq<string>, oracle: Oracle, seed: Results)
    requires Linked(steps, seed) && Listing(steps, ids)
    ensures var run := Loop(steps, ids, oracle, seed);
            run.stuck <==> exists id :: id in run.results && run.results[id].status == Pending
    decreases |PendingIds(seed)|
  {
    var s := SkipPass(steps, ids, |ids|, seed);
    if PendingIds(seed) == {} {
      assert forall id :: id in seed ==> id !in PendingIds(seed);
    } else if s == seed && ReadySet(steps, s) == {} {
      var id :| id in PendingIds(seed);
    } else {
      var w, rest := FirstIteration(steps, ids, oracle, seed);
      StuckExactlyWhen(steps, ids, oracle, Next(steps, ids, oracle, seed));
    }
  }

  /** From any dictionary without in-flight entries, a run of an acyclic plan ends with every step finished. */
  lemma {:induction false} RunFinishesEveryStep(steps: Table, ids: seq<string>, oracle: Oracle, seed: Results)
    requires Linked(steps, seed) && Listing(steps, ids) && Acyclic(steps) && Idle(seed)
    ensures var run := Loop(steps, ids, oracle, seed);
            !run.stuck && run.results.Keys == steps.Keys
            && forall id :: id in run.results ==> Terminal(run.results[id].status)
    decreases |PendingIds(seed)|
  {
    if PendingIds(seed) == {} {
      forall id | id in seed ensures Terminal(seed[id].status) {
        assert id !in PendingIds(seed);
      }
    } else {
      Progress(steps, ids, seed);
      PendingShrinks(steps, ids, oracle, seed);
      var next := Next(steps, ids, oracle, seed);
      forall id | id in next ensures next[id].status != Running {
        NextKeeps(steps, ids, oracle, seed, id);
      }
      RunFinishesEveryStep(steps, ids, oracle, next);
    }
  }

  /** What every iteration keeps. */
  ghost predicate Keeps(r: Results, next: Results) {
    && next.Keys == r.Keys
    && forall id :: id in r ==>
         && (r[id].status != Pending ==> next[id] == r[id])
         && (next[id].status == Pending ==> next[id] == r[id])
         && (r[id].status != Running ==> next[id].status != Running)
  }

  lemma NextKeepsAll(steps: Table, ids: seq<string>, oracle: Oracle, r: Results)
    requires Linked(steps, r) && Listing(steps, ids)
    ensures Keeps(r, Next(steps, ids, oracle, r))
  {
    var next := Next(steps, ids, oracle, r);
    forall id | id in r
      ensures r[id].status != Pending ==> next[id] == r[id]
      ensures next[id].status == Pending ==> next[id] == r[id]
      ensures r[id].status != Running ==> next[id].status != Running
    {
      NextKeeps(steps, ids, oracle, r, id);
    }
  }

  lemma IterationKeeps(steps: Table, ids: seq<string>, oracle: Oracle, seed: Results, run: Run, i: nat)
    requires IsTrace(steps, ids, oracle, seed, run) && i < |run.waves|
    ensures Linked(steps, StateAt(run, i)) && Linked(steps, StateAt(run, i + 1))
    ensures Keeps(StateAt(run, i), StateAt(run, i + 1))
  {
    assert Iterates(steps, ids, oracle, run, i);
    NextKeepsAll(steps, ids, oracle, run.waves[i].before);
  }

  lemma StateIsNext(steps: Table, ids: seq<string>, oracle: Oracle, seed: Results, run: Run, i: nat)
    requires IsTrace(steps, ids, oracle, seed, run) && i < |run.waves|
    ensures Linked(steps, StateAt(run, i)) && StateAt(run, i + 1) == Next(steps, ids, oracle, StateAt(run, i))
  {
    assert Iterates(steps, ids, oracle, run, i);
  }

  lemma StatesAreLinked(steps: Table, ids: seq<string>, oracle: Oracle, seed: Results, run: Run, i: nat)
    requires IsTrace(steps, ids, oracle, seed, run) && i <= |run.waves|
    ensures Linked(steps, StateAt(run, i))
  {
    if i > 0 {
      IterationKeeps(steps, ids, oracle, seed, run, i - 1);
    }
  }

  lemma {:induction false} StatesStayIdle(steps: Table, ids: seq<string>, oracle: Oracle, seed: Results, run: Run,
                                          i: nat)
    requires IsTrace(steps, ids, oracle, seed, run) && Idle(seed) && i <= |run.waves|
    ensures Idle(StateAt(run, i))
  {
    if i == 0 {
    } else {
      StatesStayIdle(steps, ids, oracle, seed, run, i - 1);
      IterationKeeps(steps, ids, oracle, seed, run, i - 1);
    }
  }

  /** A decided result is the same in every later dictionary. */
  lemma {:induction false} DecidedStays(steps: Table, ids: seq<string>, oracle: Oracle, seed: Results, run: Run,
                                        i: nat, j: nat, id: string)
    requires IsTrace(steps, ids, oracle, seed, run) && i <= j <= |run.waves|
    requires id in StateAt(run, i) && StateAt(run, i)[id].status != Pending
    ensures id in StateAt(run, j) && StateAt(run, j)[id] == StateAt(run, i)[id]
    decreases j
  {
    if i == j {
    } else {
      DecidedStays(steps, ids, oracle, seed, run, i, j - 1, id);
      IterationKeeps(steps, ids, oracle, seed, run, j - 1);
    }
  }

  /** A step still pending has the entry it started with. */
  lemma {:induction false} PendingIsOriginal(steps: Table, ids: seq<string>, oracle: Oracle, seed: Results, run: Run,
                                             i: nat, id: string)
    requires IsTrace(steps, ids, oracle, seed, run) && i <= |run.waves|
    requires id in StateAt(run, i) && StateAt(run, i)[id].status == Pending
    ensures id in seed && StateAt(run, i)[id] == seed[id]
  {
    if i == 0 {
    } else {
      IterationKeeps(steps, ids, oracle, seed, run, i - 1);
      PendingIsOriginal(steps, ids, oracle, seed, run, i - 1, id);
    }
  }

  /** Iteration `i` finds the step pending and leaves it decided. */
  ghost predicate DecidedIn(run: Run, i: nat, id: string) {
    && i < |run.waves|
    && id in StateAt(run, i) && StateAt(run, i)[id].status == Pending
    && id in StateAt(run, i + 1) && StateAt(run, i + 1)[id].status != Pending
  }

  lemma {:induction false} DecidingWave(steps: Table, ids: seq<string>, oracle: Oracle, seed: Results, run: Run,
                                        n: nat, id: string) returns (i: nat)
    requires IsTrace(steps, ids, oracle, seed, run) && n <= |run.waves|
    requires id in seed && seed[id].status == Pending
    requires id in StateAt(run, n) && StateAt(run, n)[id].status != Pending
    ensures i < n && DecidedIn(run, i, id)
  {
    StatesAreLinked(steps, ids, oracle, seed, run, n - 1);
    StatesAreLinked(steps, ids, oracle, seed, run, n);
    if StateAt(run, n - 1)[id].status == Pending {
      i := n - 1;
    } else {
      i := DecidingWave(steps, ids, oracle, seed, run, n - 1, id);
    }
  }

  // ---------- Dispatch rules, for plans listed in any order ----------

  ghost predicate MaySend(steps: Table, ids: seq<string>, w: Wave, id: string)
    requires Linked(steps, w.before) && Linked(steps, w.passed) && Listing(steps, ids) && id in steps
  {
    forall d :: d in steps[id].dependsOn ==>
      && Terminal(w.passed[d].status)
      && d !in w.sent
      && (steps[d].required ==> w.passed[d].status != Failed)
      // A skipped required dependency is overlooked only when this very pass skipped it, further down the listing.
      && (steps[d].required && w.passed[d].status == Skipped ==>
            w.before[d].status == Pending && Position(ids, id) < Position(ids, d))
  }

  lemma SentNotBlockedAtVisit(steps: Table, ids: seq<string>, r: Results, id: string)
    requires Linked(steps, r) && Listing(steps, ids)
    requires id in ReadySet(steps, SkipPass(steps, ids, |ids|, r))
    ensures r[id].status == Pending && !Blocked(steps, SkipPass(steps, ids, Position(ids, id), r), id)
  {
    SkipPassKeeps(steps, ids, |ids|, r);
    SkipPassDecides(steps, ids, Position(ids, id), |ids|, r);
  }

  lemma VisitIsFinal(steps: Table, ids: seq<string>, k: nat, j: nat, r: Results)
    requires Linked(steps, r) && Listing(steps, ids) && k < j <= |ids|
    ensures SkipPass(steps, ids, j, r)[ids[k]] == SkipPass(steps, ids, |ids|, r)[ids[k]]
  {
    SkipPassDecides(steps, ids, k, |ids|, r);
    SkipPassDecides(steps, ids, k, j, r);
  }

  lemma OverlookedWasSkippedLater(steps: Table, ids: seq<string>, r: Results, id: string, d: string)
    requires Linked(steps, r) && Listing(steps, ids) && id in steps && d in steps[id].dependsOn && steps[d].required
    requires r[id].status == Pending && !Blocked(steps, SkipPass(steps, ids, Position(ids, id), r), id)
    requires SkipPass(steps, ids, |ids|, r)[d].status in {Failed, Skipped}
    ensures SkipPass(steps, ids, |ids|, r)[d].status == Skipped && r[d].status == Pending
    ensures Position(ids, id) <= Position(ids, d)
  {
    var j, k := Position(ids, id), Position(ids, d);
    var s, atVisit := SkipPass(steps, ids, |ids|, r), SkipPass(steps, ids, j, r);
    assert atVisit[d].status !in {Failed, Skipped};
    SkipPassKeepsEntry(steps, ids, j, r, d);
    SkipPassKeepsEntry(steps, ids, |ids|, r, d);
    if k < j {
      VisitIsFinal(steps, ids, k, j, r);
    }
  }

  lemma DispatchRule(steps: Table, ids: seq<string>, w: Wave, id: string)
    requires Linked(steps, w.before) && Listing(steps, ids)
    requires w.passed == SkipPass(steps, ids, |ids|, w.before) && w.sent == ReadySet(steps, w.passed)
    requires id in w.sent
    ensures MaySend(steps, ids, w, id)
  {
    SentNotBlockedAtVisit(steps, ids, w.before, id);
    forall d | d in steps[id].dependsOn && steps[d].required && w.passed[d].status in {Failed, Skipped}
      ensures w.passed[d].status == Skipped && w.before[d].status == Pending && Position(ids, id) < Position(ids, d)
    {
      OverlookedWasSkippedLater(steps, ids, w.before, id, d);
      assert d != id;
      assert ids[Position(ids, d)] == d;
    }
  }

  lemma SentWasPending(steps: Table, ids: seq<string>, oracle: Oracle, seed: Results, run: Run, i: nat, id: string)
    requires IsTrace(steps, ids, oracle, seed, run) && i < |run.waves| && id in run.waves[i].sent
    ensures id in steps && DecidedIn(run, i, id) && seed[id].status == Pending
    ensures Linked(steps, run.waves[i].before) && Linked(steps, run.waves[i].passed)
    ensures StateAt(run, i + 1)[id] == Outcome(steps, oracle, run.waves[i].passed, id)
    ensures MaySend(steps, ids, run.waves[i], id)
  {
    assert Iterates(steps, ids, oracle, run, i);
    SkipPassKeeps(steps, ids, |ids|, run.waves[i].before);
    DispatchRule(steps, ids, run.waves[i], id);
    PendingIsOriginal(steps, ids, oracle, seed, run, i, id);
  }

  lemma DecidedOnce(steps: Table, ids: seq<string>, oracle: Oracle, seed: Results, run: Run, i: nat, j: nat, id: string)
    requires IsTrace(steps, ids, oracle, seed, run) && DecidedIn(run, i, id) && DecidedIn(run, j, id)
    ensures i == j
  {
    if i < j {
      DecidedStays(steps, ids, oracle, seed, run, i + 1, j, id);
    } else if j < i {
      DecidedStays(steps, ids, oracle, seed, run, j + 1, i, id);
    }
  }

  ghost predicate AllowedWave(steps: Table, ids: seq<string>, seed: Results, w: Wave)
    requires Listing(steps, ids)
  {
    && Linked(steps, w.before) && Linked(steps, w.passed)
    && forall id :: id in w.sent ==>
         id in steps && id in seed && seed[id].status == Pending && MaySend(steps, ids, w, id)
  }

  /** Only steps that were pending at the start are sent, each at most once and to `MaySend`'s rules. */
  lemma EveryDispatchIsAllowed(steps: Table, ids: seq<string>, oracle: Oracle, seed: Results)
    requires Linked(steps, seed) && Listing(steps, ids)
    ensures forall w :: w in Loop(steps, ids, oracle, seed).waves ==> AllowedWave(steps, ids, seed, w)
    ensures forall i, j :: 0 <= i < j < |Loop(steps, ids, oracle, seed).waves| ==>
              Loop(steps, ids, oracle, seed).waves[i].sent !! Loop(steps, ids, oracle, seed).waves[j].sent
  {
    var run := Loop(steps, ids, oracle, seed);
    LoopIsTrace(steps, ids, oracle, seed);
    forall i: nat | i < |run.waves| ensures AllowedWave(steps, ids, seed, run.waves[i]) {
      assert Iterates(steps, ids, oracle, run, i);
      forall id | id in run.waves[i].sent
        ensures id in steps && seed[id].status == Pending && MaySend(steps, ids, run.waves[i], id)
      {
        SentWasPending(steps, ids, oracle, seed, run, i, id);
      }
    }
    forall i, j | 0 <= i < j < |run.waves| ensures run.waves[i].sent !! run.waves[j].sent {
      forall id | id in run.waves[i].sent && id in run.waves[j].sent ensures false {
        SentWasPending(steps, ids, oracle, seed, run, i, id);
        SentWasPending(steps, ids, oracle, seed, run, j, id);
        DecidedOnce(steps, ids, oracle, seed, run, i, j, id);
      }
    }
  }

  // ---------- At most as many iterations as the longest dependency chain ----------

  /** Each step of `chain` depends on the one before it. */
  ghost predicate IsChain(steps: Table, chain: seq<string>) {
    && (forall i :: 0 <= i < |chain| ==> chain[i] in steps)
    && (forall i :: 0 <= i < |chain| - 1 ==> chain[i] in steps[chain[i + 1]].dependsOn)
  }

  lemma PendingDependency(steps: Table, ids: seq<string>, oracle: Oracle, r: Results, next: Results, id: string)
    returns (d: string)
    requires Linked(steps, r) && Listing(steps, ids) && Idle(r) && next == Next(steps, ids, oracle, r)
    requires id in steps && id in next && next[id].status == Pending
    ensures r[id].status == Pending && d in steps[id].dependsOn && d in r && r[d].status == Pending
  {
    NextKeeps(steps, ids, oracle, r, id);
    if forall e :: e in steps[id].dependsOn ==> Terminal(r[e].status) {
      FinishedDependenciesDecide(steps, ids, oracle, r, id);
      assert false;
    }
    d :| d in steps[id].dependsOn && !Terminal(r[d].status);
  }

  lemma ChainExtends(steps: Table, chain: seq<string>, id: string)
    requires IsChain(steps, chain) && chain != [] && id in steps
    requires chain[|chain| - 1] in steps[id].dependsOn
    ensures IsChain(steps, chain + [id])
  {
  }

  lemma EarlierPending(steps: Table, ids: seq<string>, oracle: Oracle, seed: Results, run: Run, i: nat, id: string)
    returns (d: string)
    requires IsTrace(steps, ids, oracle, seed, run) && Idle(seed) && i < |run.waves|
    requires id in StateAt(run, i + 1) && StateAt(run, i + 1)[id].status == Pending
    ensures id in steps && d in steps[id].dependsOn
    ensures d in StateAt(run, i) && StateAt(run, i)[d].status == Pending
  {
    StatesStayIdle(steps, ids, oracle, seed, run, i);
    StateIsNext(steps, ids, oracle, seed, run, i);
    d := PendingDependency(steps, ids, oracle, StateAt(run, i), StateAt(run, i + 1), id);
  }

  lemma {:induction false} PendingChain(steps: Table, ids: seq<string>, oracle: Oracle, seed: Results, run: Run,
                                        i: nat, id: string) returns (chain: seq<string>)
    requires IsTrace(steps, ids, oracle, seed, run) && Idle(seed)
    requires i < |run.waves| && id in StateAt(run, i) && StateAt(run, i)[id].status == Pending
    ensures IsChain(steps, chain) && |chain| == i + 1 && chain[i] == id
  {
    if i == 0 {
      chain := [id];
    } else {
      var d := EarlierPending(steps, ids, oracle, seed, run, i - 1, id);
      var shorter := PendingChain(steps, ids, oracle, seed, run, i - 1, d);
      ChainExtends(steps, shorter, id);
      chain := shorter + [id];
    }
  }

  lemma IterationsBoundedByChain(steps: Table, ids: seq<string>, oracle: Oracle, seed: Results, longest: nat)
    requires Linked(steps, seed) && Listing(steps, ids) && Idle(seed)
    requires forall chain :: IsChain(steps, chain) ==> |chain| <= longest
    ensures |Loop(steps, ids, oracle, seed).waves| <= longest
  {
    var run := Loop(steps, ids, oracle, seed);
    LoopIsTrace(steps, ids, oracle, seed);
    if run.waves != [] {
      var i := |run.waves| - 1;
      assert Iterates(steps, ids, oracle, run, i);
      var id :| id in PendingIds(run.waves[i].before);
      var chain := PendingChain(steps, ids, oracle, seed, run, i, id);
    }
  }

  // ---------- The recursive rule ----------

  /**
    The rule for one step, in terms of the results `m` of the other steps: a step that did not start pending keeps its
    entry; a step with a failed or skipped required dependency is skipped; any other step has its agent's answer.
   */
  ghost predicate FollowsRule(steps: Table, oracle: Oracle, seed: Results, m: Results, id: string)
    requires Linked(steps, seed) && Linked(steps, m) && id in steps
  {
    m[id] ==
      if seed[id].status != Pending then seed[id]
      else if Blocked(steps, m, id) then Skip(seed[id])
      else Outcome(steps, oracle, m, id)
  }

  ghost predicate IsSolution(steps: Table, oracle: Oracle, seed: Results, m: Results)
    requires Linked(steps, seed)
  {
    Linked(steps, m) && forall id :: id in steps ==> FollowsRule(steps, oracle, seed, m, id)
  }

  lemma SameDependencies(steps: Table, oracle: Oracle, m: Results, n: Results, id: string)
    requires Linked(steps, m) && Linked(steps, n) && id in steps
    requires forall d :: d in steps[id].dependsOn ==> m[d] == n[d]
    ensures Blocked(steps, m, id) == Blocked(steps, n, id)
    ensures Outcome(steps, oracle, m, id) == Outcome(steps, oracle, n, id)
  {
    assert UpstreamContext(steps, m, id) == UpstreamContext(steps, n, id);
  }

  lemma {:induction false} SolutionsAgree(steps: Table, oracle: Oracle, seed: Results, m: Results, n: Results,
                                          order: seq<string>, k: nat)
    requires Linked(steps, seed) && IsSolution(steps, oracle, seed, m) && IsSolution(steps, oracle, seed, n)
    requires DependenciesFirst(GraphOf(steps), order) && k <= |order|
    ensures forall i :: 0 <= i < k ==> m[order[i]] == n[order[i]]
  {
    if k == 0 {
    } else {
      SolutionsAgree(steps, oracle, seed, m, n, order, k - 1);
      var id := order[k - 1];
      forall d | d in steps[id].dependsOn ensures m[d] == n[d] {
        assert d in order[..k - 1];
        var i :| 0 <= i < k - 1 && order[i] == d;
      }
      SameDependencies(steps, oracle, m, n, id);
      assert FollowsRule(steps, oracle, seed, m, id) && FollowsRule(steps, oracle, seed, n, id);
    }
  }

  /** The recursive rule has at most one solution, whatever the listing. */
  lemma SolutionIsUnique(steps: Table, oracle: Oracle, seed: Results, m: Results, n: Results)
    requires Linked(steps, seed) && Acyclic(steps)
    requires IsSolution(steps, oracle, seed, m) && IsSolution(steps, oracle, seed, n)
    ensures m == n
  {
    var g := GraphOf(steps);
    AcyclicIffOrdered(g);
    var order :| IsTopological(g, order);
    SolutionsAgree(steps, oracle, seed, m, n, order, |order|);
    forall id | id in m ensures m[id] == n[id] {
      assert id in g && id in order && order[Position(order, id)] == id;
    }
  }

  /** The step was sent although a required dependency of it had been skipped. */
  ghost predicate SentDespiteSkip(steps: Table, run: Run, id: string)
  {
    exists i ::
      && 0 <= i < |run.waves| && id in run.waves[i].sent
      && Linked(steps, run.waves[i].passed) && id in steps && Blocked(steps, run.waves[i].passed, id)
  }

  /** What a skip pass has decided is what the run ends with. */
  lemma PassedIsFinal(steps: Table, ids: seq<string>, oracle: Oracle, seed: Results, run: Run, i: nat, d: string)
    requires IsTrace(steps, ids, oracle, seed, run) && i < |run.waves|
    requires d in run.waves[i].passed && run.waves[i].passed[d].status != Pending
    ensures d in run.results && run.results[d] == run.waves[i].passed[d]
  {
    assert Iterates(steps, ids, oracle, run, i);
    assert StateAt(run, i + 1)[d] == run.waves[i].passed[d];
    DecidedStays(steps, ids, oracle, seed, run, i + 1, |run.waves|, d);
  }

  /** A step that was sent has its agent's answer to the final results of its dependencies. */
  lemma SentHasAnswer(steps: Table, ids: seq<string>, oracle: Oracle, seed: Results, run: Run, i: nat, id: string)
    requires IsTrace(steps, ids, oracle, seed, run) && i < |run.waves| && id in run.waves[i].sent
    ensures Linked(steps, run.results) && Linked(steps, run.waves[i].passed) && id in steps
    ensures run.results[id] == Outcome(steps, oracle, run.results, id) && run.results[id].status in {Success, Failed}
    ensures Blocked(steps, run.results, id) == Blocked(steps, run.waves[i].passed, id)
  {
    SentWasPending(steps, ids, oracle, seed, run, i, id);
    StatesAreLinked(steps, ids, oracle, seed, run, |run.waves|);
    DecidedStays(steps, ids, oracle, seed, run, i + 1, |run.waves|, id);
    forall d | d in steps[id].dependsOn ensures run.results[d] == run.waves[i].passed[d] {
      PassedIsFinal(steps, ids, oracle, seed, run, i, d);
    }
    SameDependencies(steps, oracle, run.waves[i].passed, run.results, id);
  }

  /** A step decided by a pass, not by an agent, is skipped, and finally blocked. */
  lemma UnsentIsSkipped(steps: Table, ids: seq<string>, oracle: Oracle, seed: Results, run: Run, i: nat, id: string)
    requires IsTrace(steps, ids, oracle, seed, run) && DecidedIn(run, i, id) && id !in run.waves[i].sent
    ensures Linked(steps, run.results) && id in steps && id in seed
    ensures run.results[id] == Skip(seed[id]) && Blocked(steps, run.results, id)
  {
    assert Iterates(steps, ids, oracle, run, i);
    StatesAreLinked(steps, ids, oracle, seed, run, |run.waves|);
    PendingIsOriginal(steps, ids, oracle, seed, run, i, id);
    SkipPassKeeps(steps, ids, |ids|, run.waves[i].before);
    PassedIsFinal(steps, ids, oracle, seed, run, i, id);
    var d := SkipCause(steps, ids, run.waves[i].before, id);
    PassedIsFinal(steps, ids, oracle, seed, run, i, d);
  }

  /** A step that the pass skips has a blocking dependency, and the pass leaves that dependency as it was. */
  lemma SkipCause(steps: Table, ids: seq<string>, r: Results, id: string) returns (d: string)
    requires Linked(steps, r) && Listing(steps, ids) && id in steps
    requires SkipPass(steps, ids, |ids|, r)[id] != r[id]
    ensures d in steps[id].dependsOn && steps[d].required
    ensures SkipPass(steps, ids, |ids|, r)[d].status in {Failed, Skipped}
    ensures r[d].status == Pending ==> Position(ids, d) < Position(ids, id)
  {
    var j := Position(ids, id);
    SkipPassDecides(steps, ids, j, |ids|, r);
    var atVisit := SkipPass(steps, ids, j, r);
    d :| d in steps[id].dependsOn && atVisit[d].status in {Failed, Skipped} && steps[d].required;
    SkipPassMonotone(steps, ids, j, |ids|, r);
    SkipPassKeeps(steps, ids, j, r);
    assert ids[Position(ids, d)] == d;
  }

  lemma TraceBreaksRule(steps: Table, ids: seq<string>, oracle: Oracle, seed: Results, run: Run, id: string)
    requires IsTrace(steps, ids, oracle, seed, run) && id in steps
    requires id in run.results && run.results[id].status != Pending
    ensures Linked(steps, run.results)
    ensures FollowsRule(steps, oracle, seed, run.results, id) <==> !SentDespiteSkip(steps, run, id)
  {
    StatesAreLinked(steps, ids, oracle, seed, run, |run.waves|);
    if seed[id].status != Pending {
      DecidedStays(steps, ids, oracle, seed, run, 0, |run.waves|, id);
      if i: nat :| i < |run.waves| && id in run.waves[i].sent {
        SentWasPending(steps, ids, oracle, seed, run, i, id);
      }
    } else if i: nat :| i < |run.waves| && id in run.waves[i].sent {
      SentHasAnswer(steps, ids, oracle, seed, run, i, id);
      forall k: nat | k < |run.waves| && id in run.waves[k].sent ensures k == i {
        SentWasPending(steps, ids, oracle, seed, run, i, id);
        SentWasPending(steps, ids, oracle, seed, run, k, id);
        DecidedOnce(steps, ids, oracle, seed, run, k, i, id);
      }
    } else {
      var i := DecidingWave(steps, ids, oracle, seed, run, |run.waves|, id);
      UnsentIsSkipped(steps, ids, oracle, seed, run, i, id);
    }
  }

  /** For plans listed in any order: a step's final entry breaks the rule exactly if it was sent despite a skip. */
  lemma RuleBrokenExactlyBySentDespiteSkip(steps: Table, ids: seq<string>, oracle: Oracle, seed: Results, id: string)
    requires Linked(steps, seed) && Listing(steps, ids) && Acyclic(steps) && Idle(seed) && id in steps
    ensures Linked(steps, Loop(steps, ids, oracle, seed).results)
    ensures FollowsRule(steps, oracle, seed, Loop(steps, ids, oracle, seed).results, id) <==>
            !SentDespiteSkip(steps, Loop(steps, ids, oracle, seed), id)
  {
    LoopIsTrace(steps, ids, oracle, seed);
    RunFinishesEveryStep(steps, ids, oracle, seed);
    TraceBreaksRule(steps, ids, oracle, seed, Loop(steps, ids, oracle, seed), id);
  }

  // ---------- Which listings are faithful to the rule ----------

  /** Dependencies are listed before their dependents. */
  ghost predicate ListedFirst(steps: Table, ids: seq<string>)
    requires Listing(steps, ids) && WellLinked(steps)
  {
    forall j, k :: 0 <= j < k < |ids| ==> ids[k] !in steps[ids[j]].dependsOn
  }

  /** The step at `j` is listed before its required dependency at `k`, which `c` can block without blocking the step. */
  ghost predicate Unsafe(steps: Table, ids: seq<string>, j: nat, k: nat, c: string)
    requires Listing(steps, ids) && WellLinked(steps)
  {
    && j < k < |ids| && ids[k] in steps[ids[j]].dependsOn && steps[ids[k]].required
    && c in steps[ids[k]].dependsOn && steps[c].required && c !in steps[ids[j]].dependsOn
  }

  /**
    Whenever a required dependency is listed after its dependent, the dependent also names every required dependency of
    that dependency. Checked on the plan alone.
   */
  ghost predicate SkipSafe(steps: Table, ids: seq<string>)
    requires Listing(steps, ids) && WellLinked(steps)
  {
    forall j: nat, k: nat, c :: !Unsafe(steps, ids, j, k, c)
  }

  lemma ListedFirstIsSkipSafe(steps: Table, ids: seq<string>)
    requires Listing(steps, ids) && WellLinked(steps) && ListedFirst(steps, ids)
    ensures SkipSafe(steps, ids)
  {
  }

  lemma {:induction false} SafeListingMissesNoSkip(steps: Table, ids: seq<string>, w: Wave, j: nat, k: nat)
    requires Linked(steps, w.before) && Listing(steps, ids) && SkipSafe(steps, ids)
    requires w.passed == SkipPass(steps, ids, |ids|, w.before) && w.sent == ReadySet(steps, w.passed)
    requires j < |ids| && k < |ids| && ids[j] in w.sent
    requires ids[k] in steps[ids[j]].dependsOn && steps[ids[k]].required
    ensures w.passed[ids[k]].status != Skipped
    decreases k
  {
    var s, id, d := w.passed, ids[j], ids[k];
    if s[d].status == Skipped {
      DispatchRule(steps, ids, w, id);
      assert Position(ids, id) == j && Position(ids, d) == k;
      var c := SkipCause(steps, ids, w.before, d);
      assert !Unsafe(steps, ids, j, k, c);
      SafeListingMissesNoSkip(steps, ids, w, j, Position(ids, c));
    }
  }

  lemma SafeTraceMissesNoSkip(steps: Table, ids: seq<string>, oracle: Oracle, seed: Results, run: Run, id: string)
    requires IsTrace(steps, ids, oracle, seed, run) && SkipSafe(steps, ids)
    ensures !SentDespiteSkip(steps, run, id)
  {
    forall i: nat | i < |run.waves| && id in run.waves[i].sent
      ensures Linked(steps, run.waves[i].passed) && id in steps && !Blocked(steps, run.waves[i].passed, id)
    {
      assert Iterates(steps, ids, oracle, run, i);
      SentWasPending(steps, ids, oracle, seed, run, i, id);
      forall d | d in steps[id].dependsOn && steps[d].required
        ensures run.waves[i].passed[d].status !in {Failed, Skipped}
      {
        SafeListingMissesNoSkip(steps, ids, run.waves[i], Position(ids, id), Position(ids, d));
      }
    }
  }

  lemma SafeListingFollowsRule(steps: Table, ids: seq<string>, oracle: Oracle, seed: Results)
    requires Linked(steps, seed) && Listing(steps, ids) && Acyclic(steps) && Idle(seed) && SkipSafe(steps, ids)
    ensures IsSolution(steps, oracle, seed, Loop(steps, ids, oracle, seed).results)
  {
    LoopIsTrace(steps, ids, oracle, seed);
    RunFinishesEveryStep(steps, ids, oracle, seed);
    forall id | id in steps ensures FollowsRule(steps, oracle, seed, Loop(steps, ids, oracle, seed).results, id) {
      RuleBrokenExactlyBySentDespiteSkip(steps, ids, oracle, seed, id);
      SafeTraceMissesNoSkip(steps, ids, oracle, seed, Loop(steps, ids, oracle, seed), id);
    }
  }

  function Entry(step: PlanStep, status: Status): StepResult {
    StepResult(step.agent, step.taskType, status, "", "")
  }

  /** A dictionary from which an unsafe listing sends `a` although its required dependency `b` is skipped. */
  function Trap(steps: Table, a: string, b: string, c: string): Results
    requires WellLinked(steps)
  {
    map id | id in steps ::
      Entry(steps[id], if id == a || id == b then Pending else if id == c then Failed else Success)
  }

  lemma TrapIsIdle(steps: Table, a: string, b: string, c: string)
    requires WellLinked(steps)
    ensures Linked(steps, Trap(steps, a, b, c)) && Idle(Trap(steps, a, b, c))
  {
  }

  lemma {:induction false} TrapPassesOver(steps: Table, ids: seq<string>, j: nat, k: nat, c: string, n: nat)
    requires WellLinked(steps) && Listing(steps, ids) && n <= j < k < |ids|
    ensures SkipPass(steps, ids, n, Trap(steps, ids[j], ids[k], c)) == Trap(steps, ids[j], ids[k], c)
  {
    if n == 0 {
    } else {
      TrapPassesOver(steps, ids, j, k, c, n - 1);
    }
  }

  lemma UnsafeNamesDistinct(steps: Table, ids: seq<string>, j: nat, k: nat, c: string)
    requires WellLinked(steps) && Listing(steps, ids) && Acyclic(steps) && Unsafe(steps, ids, j, k, c)
    ensures c != ids[k] && c != ids[j] && ids[j] !in steps[ids[j]].dependsOn
  {
    var a, b, g := ids[j], ids[k], GraphOf(steps);
    if c == a {
      assert IsCycle(g, [a, b, a]);
    } else if a in steps[a].dependsOn {
      assert IsCycle(g, [a, a]);
    }
  }

  lemma TrapLeavesFirstStep(steps: Table, ids: seq<string>, j: nat, k: nat, c: string)
    requires WellLinked(steps) && Listing(steps, ids) && Acyclic(steps) && Unsafe(steps, ids, j, k, c)
    ensures SkipPass(steps, ids, |ids|, Trap(steps, ids[j], ids[k], c))[ids[j]].status == Pending
  {
    var r := Trap(steps, ids[j], ids[k], c);
    UnsafeNamesDistinct(steps, ids, j, k, c);
    TrapPassesOver(steps, ids, j, k, c, j);
    assert !Blocked(steps, r, ids[j]);
    SkipPassDecides(steps, ids, j, |ids|, r);
  }

  lemma TrapSkipsDependency(steps: Table, ids: seq<string>, j: nat, k: nat, c: string)
    requires WellLinked(steps) && Listing(steps, ids) && Acyclic(steps) && Unsafe(steps, ids, j, k, c)
    ensures SkipPass(steps, ids, |ids|, Trap(steps, ids[j], ids[k], c))[ids[k]].status == Skipped
  {
    var r := Trap(steps, ids[j], ids[k], c);
    UnsafeNamesDistinct(steps, ids, j, k, c);
    assert c != ids[k] by {
      assert ids[k] in steps[ids[j]].dependsOn;
    }
    SkipPassKeepsEntry(steps, ids, k, r, c);
    assert Blocked(steps, SkipPass(steps, ids, k, r), ids[k]);
    SkipPassDecides(steps, ids, k, |ids|, r);
  }

  lemma TrapSendsFirstStep(steps: Table, ids: seq<string>, j: nat, k: nat, c: string)
    requires WellLinked(steps) && Listing(steps, ids) && Acyclic(steps) && Unsafe(steps, ids, j, k, c)
    ensures var s := SkipPass(steps, ids, |ids|, Trap(steps, ids[j], ids[k], c));
            ids[j] in ReadySet(steps, s) && Blocked(steps, s, ids[j])
  {
    var r := Trap(steps, ids[j], ids[k], c);
    var s := SkipPass(steps, ids, |ids|, r);
    UnsafeNamesDistinct(steps, ids, j, k, c);
    TrapLeavesFirstStep(steps, ids, j, k, c);
    TrapSkipsDependency(steps, ids, j, k, c);
    forall d | d in steps[ids[j]].dependsOn ensures Terminal(s[d].status) {
      SkipPassKeepsEntry(steps, ids, |ids|, r, d);
    }
  }

  lemma UnsafeListingSendsDespiteSkip(steps: Table, ids: seq<string>, oracle: Oracle, j: nat, k: nat, c: string)
    requires WellLinked(steps) && Listing(steps, ids) && Acyclic(steps) && Unsafe(steps, ids, j, k, c)
    ensures SentDespiteSkip(steps, Loop(steps, ids, oracle, Trap(steps, ids[j], ids[k], c)), ids[j])
  {
    var r := Trap(steps, ids[j], ids[k], c);
    TrapSendsFirstStep(steps, ids, j, k, c);
    assert ids[j] in PendingIds(r);
    var s := SkipPass(steps, ids, |ids|, r);
    assert Loop(steps, ids, oracle, r).waves[0] == Wave(r, s, ReadySet(steps, s));
  }

  /** From every starting dictionary the loop gives the solution of the recursive rule. */
  ghost predicate Faithful(steps: Table, ids: seq<string>, oracle: Oracle)
    requires Listing(steps, ids)
  {
    forall seed :: Linked(steps, seed) && Idle(seed) ==>
      IsSolution(steps, oracle, seed, Loop(steps, ids, oracle, seed).results)
  }

  /** An unsafe listing leaves the rule from its trap. */
  lemma TrapBreaksRule(steps: Table, ids: seq<string>, oracle: Oracle, j: nat, k: nat, c: string)
    requires WellLinked(steps) && Listing(steps, ids) && Acyclic(steps) && Unsafe(steps, ids, j, k, c)
    ensures var seed := Trap(steps, ids[j], ids[k], c);
            && Linked(steps, seed) && Idle(seed)
            && !IsSolution(steps, oracle, seed, Loop(steps, ids, oracle, seed).results)
  {
    var seed := Trap(steps, ids[j], ids[k], c);
    TrapIsIdle(steps, ids[j], ids[k], c);
    UnsafeListingSendsDespiteSkip(steps, ids, oracle, j, k, c);
    RuleBrokenExactlyBySentDespiteSkip(steps, ids, oracle, seed, ids[j]);
  }

  /** Over all starting dictionaries, and for any agents: the loop is faithful exactly if the listing is skip-safe. */
  lemma FaithfulIffSkipSafe(steps: Table, ids: seq<string>, oracle: Oracle)
    requires WellLinked(steps) && Listing(steps, ids) && Acyclic(steps)
    ensures Faithful(steps, ids, oracle) <==> SkipSafe(steps, ids)
  {
    if SkipSafe(steps, ids) {
      forall seed | Linked(steps, seed) && Idle(seed)
        ensures IsSolution(steps, oracle, seed, Loop(steps, ids, oracle, seed).results)
      {
        SafeListingFollowsRule(steps, ids, oracle, seed);
      }
    } else {
      var j: nat, k: nat, c :| Unsafe(steps, ids, j, k, c);
      TrapBreaksRule(steps, ids, oracle, j, k, c);
    }
  }

  /** Two skip-safe listings of the same steps give the same results. */
  lemma ListingOrderDoesNotMatter(steps: Table, ids: seq<string>, others: seq<string>, oracle: Oracle, seed: Results)
    requires Linked(steps, seed) && Acyclic(steps) && Idle(seed)
    requires Listing(steps, ids) && SkipSafe(steps, ids) && Listing(steps, others) && SkipSafe(steps, others)
    ensures Loop(steps, ids, oracle, seed).results == Loop(steps, others, oracle, seed).results
  {
    SafeListingFollowsRule(steps, ids, oracle, seed);
    SafeListingFollowsRule(steps, others, oracle, seed);
    SolutionIsUnique(steps, oracle, seed,
                     Loop(steps, ids, oracle, seed).results, Loop(steps, others, oracle, seed).results);
  }
}
