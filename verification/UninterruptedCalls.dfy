/**
  What one call of `execute` does when nothing interrupts it, in terms of the caller, the grant, the stores and the way
  the skill ends. The cases are those of the source, in its order; together they cover every call.
 */
module UninterruptedCalls {
  import opened Wrappers
  import opened Approval
  import opened Idempotency
  import opened SkillExecution
  import opened SkillExecutionLaws

  // ---------- What the checks mean ----------

  /** A pure read without scopes or approval. */
  predicate Harmless(spec: Spec) {
    spec.readOnly && !spec.sideEffect && !spec.approvalRequired && spec.requiredScopes == {}
  }

  /**
    A harmless skill may be called without an identity, or by one of the two executing agents. Any other skill needs a
    trusted, complete identity with the scopes, and the query agent may only read.
   */
  predicate MayCall(spec: Spec, context: Option<Context>) {
    if Harmless(spec) then context.Some? ==> context.value.agent in {"data_query", "biz_exec"}
    else
      && context.Some?
      && var c := context.value;
      && c.trusted && "" !in [c.tenant, c.store, c.user]
      && (c.agent == "biz_exec" || (c.agent == "data_query" && spec.readOnly && !spec.sideEffect))
      && forall scope :: scope in spec.requiredScopes ==> scope in c.scopes
  }

  predicate Admissible(reg: Registry, call: Call) {
    call.skill in reg && MayCall(reg[call.skill], call.context) && call.params.Some?
  }

  /** The call is protected against running twice. */
  predicate RunsOnce(reg: Registry, call: Call) {
    Admissible(reg, call) && reg[call.skill].idempotent && !Harmless(reg[call.skill])
  }

  lemma AdmittedExactlyWhen(reg: Registry, call: Call)
    ensures call.skill in reg ==> (Permitted(reg[call.skill], call.context) <==> MayCall(reg[call.skill], call.context))
    ensures Admitted(reg, call) <==> Admissible(reg, call)
    ensures NeedsApproval(reg, call) && Admitted(reg, call) ==> call.context.Some?
  {
  }

  /** A call has a key exactly if it runs once; the key consists of these five parts. */
  lemma KeyExactlyWhen(reg: Registry, call: Call)
    ensures KeyOf(reg, call).Some? <==> RunsOnce(reg, call)
    ensures RunsOnce(reg, call) ==>
              && call.context.Some?
              && var c := call.context.value;
                 KeyOf(reg, call) == Some(Key(c.tenant, c.store, c.taskId, call.skill, call.params.value))
  {
    AdmittedExactlyWhen(reg, call);
  }

  /** Two calls share a key exactly if they agree in tenant, store, task, skill and parameters. */
  lemma SameKeyExactlyWhen(reg: Registry, a: Call, b: Call)
    requires RunsOnce(reg, a) && RunsOnce(reg, b)
    ensures a.context.Some? && b.context.Some?
    ensures KeyOf(reg, a) == KeyOf(reg, b) <==>
            var c, d := a.context.value, b.context.value;
            && c.tenant == d.tenant && c.store == d.store && c.taskId == d.taskId
            && a.skill == b.skill && a.params == b.params
  {
    KeyExactlyWhen(reg, a);
    KeyExactlyWhen(reg, b);
  }

  /** In every reachable state, every skill that was started was called by someone who may call it. */
  lemma StartedOnlyIfAdmissible(reg: Registry, s: State, i: nat)
    requires Reachable(reg, s) && i in s.runs
    ensures i < |s.tasks| && Admissible(reg, s.tasks[i].call)
  {
    ReachableInv(reg, s);
    var a :| 0 <= a < |s.runs| && s.runs[a] == i;
    assert Staged(reg, s.tasks[i]);
    AdmittedExactlyWhen(reg, s.tasks[i].call);
  }

  /** In every reachable state, two starts of calls that run once differ in tenant, store, task, skill or parameters. */
  lemma OneRunPerIdentity(reg: Registry, s: State, a: nat, b: nat)
    requires Reachable(reg, s) && a < b < |s.runs|
    ensures s.runs[a] < |s.tasks| && s.runs[b] < |s.tasks|
    ensures var c, d := s.tasks[s.runs[a]].call, s.tasks[s.runs[b]].call;
            RunsOnce(reg, c) && RunsOnce(reg, d) ==>
              && c.context.Some? && d.context.Some?
              && !(c.context.value.tenant == d.context.value.tenant && c.context.value.store == d.context.value.store
                   && c.context.value.taskId == d.context.value.taskId && c.skill == d.skill && c.params == d.params)
  {
    ReachableInv(reg, s);
    OneRunPerKey(reg, s);
    var c, d := s.tasks[s.runs[a]].call, s.tasks[s.runs[b]].call;
    if RunsOnce(reg, c) && RunsOnce(reg, d) {
      KeyExactlyWhen(reg, c);
      KeyExactlyWhen(reg, d);
      SameKeyExactlyWhen(reg, c, d);
    }
  }

  // ---------- How a run ends ----------

  /** For each way in which a skill can end: what the caller is told, and the record that stays under its key. */
  predicate Ends(outcome: Outcome, reply: Reply, record: Record) {
    match outcome
    case TimedOut => reply == Error("SKILL_TIMEOUT") && record == Failed("SKILL_TIMEOUT")
    case Raised => reply == Error("SKILL_EXECUTION_ERROR") && record == Failed("SKILL_EXECUTION_ERROR")
    case NotASkillResult => reply == Error("OUTPUT_VALIDATION_ERROR") && record == Failed("OUTPUT_VALIDATION_ERROR")
    case Returned(result, check) =>
      if result.success then
        match check
        case NoOutputModel => reply == Result(result) && record == Succeeded(result)
        case OutputRejected => reply == Error("OUTPUT_VALIDATION_ERROR") && record == Failed("OUTPUT_VALIDATION_ERROR")
        case OutputAccepted(data) =>
          reply == Result(result.(data := data)) && record == Succeeded(result.(data := data))
      else
        var code := if result.errorCode == "" then "SKILL_FAILED" else result.errorCode;
        reply == Result(result.(errorCode := code)) && record == Failed(code)
  }

  /** A success is recorded and told exactly if the skill returned one and its output was not rejected. */
  lemma SucceedsExactlyWhen(outcome: Outcome, reply: Reply, record: Record)
    requires Ends(outcome, reply, record)
    ensures record.Succeeded? <==> outcome.Returned? && outcome.result.success && !outcome.check.OutputRejected?
    ensures record.Succeeded? <==> reply.Result? && reply.result.success
    ensures record.Succeeded? || record.Failed?
    ensures record.Succeeded? ==> reply == Result(record.result)
    ensures reply.Error? ==> record == Failed(reply.code)
  {
  }

  lemma OutcomeEnds(outcome: Outcome)
    ensures Ends(outcome, FinalReply(outcome), FinalRecord(outcome))
  {
  }

  // ---------- The calls ----------

  /** Task `i` is about to be executed. */
  predicate Entering(s: State, i: nat) {
    i < |s.tasks| && s.tasks[i] == Task(s.tasks[i].call, Entry, false, false, false, false, None)
  }

  /** Nothing is stored under the call's key. */
  predicate KeyUnused(reg: Registry, s: State, call: Call) {
    RunsOnce(reg, call) ==>
      && call.context.Some?
      && var c := call.context.value;
         Key(c.tenant, c.store, c.taskId, call.skill, call.params.value) !in s.records
  }

  /** The state with task `i` replaced, and the shared state as given. */
  function With(s: State, table: Table, records: Records, runs: seq<nat>, i: nat, t: Task): State
    requires i < |s.tasks|
  {
    State(table, records, s.now, s.tasks[i := t], s.approvers, runs)
  }

  function AtPc(s: State, i: nat, pc: Pc): State
    requires i < |s.tasks|
  {
    With(s, s.table, s.records, s.runs, i, s.tasks[i].(pc := pc))
  }

  lemma OneStep(reg: Registry, s: State, i: nat, freshId: string, outcome: Outcome)
    ensures i < |s.tasks| ==> Drive(reg, s, i, freshId, outcome, 1) == StepTask(reg, s, i, freshId, outcome)
  {
    if i < |s.tasks| {
      assert Drive(reg, StepTask(reg, s, i, freshId, outcome), i, freshId, outcome, 0) ==
             StepTask(reg, s, i, freshId, outcome);
    }
  }

  lemma TwoSteps(reg: Registry, s: State, i: nat, freshId: string, outcome: Outcome)
    requires i < |s.tasks|
    ensures var next := StepTask(reg, s, i, freshId, outcome);
            i < |next.tasks| && Drive(reg, s, i, freshId, outcome, 2) == StepTask(reg, next, i, freshId, outcome)
  {
    var next := StepTask(reg, s, i, freshId, outcome);
    OneStep(reg, next, i, freshId, outcome);
  }

  /** An unknown skill, a caller who may not call it, or invalid parameters: refused at once, and nothing changes. */
  lemma InadmissibleCallIsRefused(reg: Registry, s: State, i: nat, freshId: string, outcome: Outcome)
    requires Entering(s, i) && !Admissible(reg, s.tasks[i].call)
    ensures var call := s.tasks[i].call;
            Drive(reg, s, i, freshId, outcome, 1) ==
            AtPc(s, i, Done(Error(
              if call.skill !in reg then "SKILL_NOT_FOUND"
              else if !MayCall(reg[call.skill], call.context) then "PERMISSION_DENIED"
              else "VALIDATION_ERROR")))
  {
    AdmittedExactlyWhen(reg, s.tasks[i].call);
    OneStep(reg, s, i, freshId, outcome);
  }

  /** A key that is in use: a success is replayed and anything else refused, and nothing changes. */
  lemma LaterCallReplays(reg: Registry, s: State, i: nat, freshId: string, outcome: Outcome)
    requires Entering(s, i) && RunsOnce(reg, s.tasks[i].call) && !KeyUnused(reg, s, s.tasks[i].call)
    ensures var call := s.tasks[i].call;
            && call.context.Some?
            && var c := call.context.value;
               var record := s.records[Key(c.tenant, c.store, c.taskId, call.skill, call.params.value)];
               Drive(reg, s, i, freshId, outcome, 2) ==
               AtPc(s, i, Done(if record.Succeeded? then Replay(record.result) else Error("ALREADY_EXECUTED")))
  {
    KeyExactlyWhen(reg, s.tasks[i].call);
    var s1 := AtPc(s, i, Lookup);
    assert StepTask(reg, s, i, freshId, outcome) == s1;
    TwoSteps(reg, s, i, freshId, outcome);
  }

  /** The steps up to the approval: the checks, and the look-up for a call that runs once. */
  function StepsToApproval(reg: Registry, call: Call): nat {
    if RunsOnce(reg, call) then 2 else 1
  }

  /** Where an admissible call with an unused key goes after its look-up. */
  function ApprovalPc(reg: Registry, call: Call): Pc
    requires call.skill in reg
  {
    if reg[call.skill].approvalRequired then
      if call.context.Some? && call.context.value.approval.Some? then GrantChecks else NewApproval
    else if RunsOnce(reg, call) then Acquire
    else Launch
  }

  lemma ReachesApproval(reg: Registry, s: State, i: nat, freshId: string, outcome: Outcome)
    requires Entering(s, i) && Admissible(reg, s.tasks[i].call) && KeyUnused(reg, s, s.tasks[i].call)
    ensures var call := s.tasks[i].call;
            Drive(reg, s, i, freshId, outcome, StepsToApproval(reg, call)) == AtPc(s, i, ApprovalPc(reg, call))
  {
    var call := s.tasks[i].call;
    AdmittedExactlyWhen(reg, call);
    KeyExactlyWhen(reg, call);
    if RunsOnce(reg, call) {
      assert StepTask(reg, s, i, freshId, outcome) == AtPc(s, i, Lookup);
      TwoSteps(reg, s, i, freshId, outcome);
    } else {
      OneStep(reg, s, i, freshId, outcome);
    }
  }

  /**
    A call that needs an approval and brings no grant asks for one: a pending row, bound to caller, skill and parameters
    and valid for ten minutes, and its identifier for the caller. It starts nothing, and fails if the identifier is
    taken.
   */
  lemma UngrantedCallAsks(reg: Registry, s: State, i: nat, freshId: string, outcome: Outcome)
    requires Entering(s, i) && Admissible(reg, s.tasks[i].call) && KeyUnused(reg, s, s.tasks[i].call)
    requires reg[s.tasks[i].call.skill].approvalRequired
    requires s.tasks[i].call.context.Some? ==> s.tasks[i].call.context.value.approval.None?
    ensures var t, call := s.tasks[i], s.tasks[i].call;
            && call.context.Some?
            && var c := call.context.value;
               var row := Request(freshId, c.taskId, c.tenant, c.store, c.user, call.skill,
                                  ParamsHash(call.skill, call.params.value), Pending, s.now, s.now + 600, "", None,
                                  None, "");
               Drive(reg, s, i, freshId, outcome, StepsToApproval(reg, call) + 2) ==
               if freshId in s.table then AtPc(s, i, Done(Error("SKILL_EXECUTION_ERROR")))
               else With(s, s.table[freshId := row], s.records, s.runs, i, t.(pc := Done(ApprovalNeeded(freshId))))
  {
    var call := s.tasks[i].call;
    ReachesApproval(reg, s, i, freshId, outcome);
    DriveSplits(reg, s, i, freshId, outcome, StepsToApproval(reg, call), 2);
    TwoSteps(reg, AtPc(s, i, NewApproval), i, freshId, outcome);
  }

  /** The grant is not expired, and is for this tenant, store, skill and these parameters. */
  predicate GrantFits(grant: Grant, call: Call, now: Time) {
    && call.context.Some? && call.params.Some?
    && var c := call.context.value;
    && grant.expiresAt > now && grant.status == Approved && grant.tenant == c.tenant && grant.store == c.store
    && grant.skill == call.skill && grant.paramsHash == ParamsHash(call.skill, call.params.value)
  }

  /** The row is approved, not expired, and for this tenant, store, skill and these parameters. */
  predicate RowFits(table: Table, id: string, call: Call, now: Time) {
    && call.context.Some? && call.params.Some? && id in table
    && var c, row := call.context.value, table[id];
    && row.expiresAt > now && row.status == Approved && row.tenant == c.tenant && row.store == c.store
    && row.skill == call.skill && row.paramsHash == ParamsHash(call.skill, call.params.value)
  }

  /** The call needs no approval, or brings a grant that fits and that its row still backs. */
  predicate Cleared(reg: Registry, s: State, call: Call)
    requires call.skill in reg
  {
    reg[call.skill].approvalRequired ==>
      && call.context.Some? && call.context.value.approval.Some?
      && GrantFits(call.context.value.approval.value, call, s.now)
      && RowFits(s.table, call.context.value.approval.value.id, call, s.now)
  }

  /** A grant that is expired, for another call, or no longer backed is refused with its own error; nothing changes. */
  lemma BadGrantIsRefused(reg: Registry, s: State, i: nat, freshId: string, outcome: Outcome)
    requires Entering(s, i) && Admissible(reg, s.tasks[i].call) && KeyUnused(reg, s, s.tasks[i].call)
    requires s.tasks[i].call.context.Some? && s.tasks[i].call.context.value.approval.Some?
    requires !Cleared(reg, s, s.tasks[i].call)
    ensures var call, grant := s.tasks[i].call, s.tasks[i].call.context.value.approval.value;
            var n := StepsToApproval(reg, call) + if GrantFits(grant, call, s.now) then 2 else 1;
            Drive(reg, s, i, freshId, outcome, n) ==
            AtPc(s, i, Done(Error(
              if grant.expiresAt <= s.now then "APPROVAL_EXPIRED"
              else if !GrantFits(grant, call, s.now) then "APPROVAL_INVALID"
              else "APPROVAL_ALREADY_USED")))
  {
    var call, grant := s.tasks[i].call, s.tasks[i].call.context.value.approval.value;
    var n := if GrantFits(grant, call, s.now) then 2 else 1;
    ReachesApproval(reg, s, i, freshId, outcome);
    DriveSplits(reg, s, i, freshId, outcome, StepsToApproval(reg, call), n);
    GrantChecksDecide(reg, s, i, freshId, outcome);
  }

  lemma GrantChecksDecide(reg: Registry, s: State, i: nat, freshId: string, outcome: Outcome)
    requires i < |s.tasks| && s.tasks[i].call.params.Some?
    requires s.tasks[i].call.context.Some? && s.tasks[i].call.context.value.approval.Some?
    ensures var call, at := s.tasks[i].call, AtPc(s, i, GrantChecks);
            var grant := call.context.value.approval.value;
            if !GrantFits(grant, call, s.now) then
              Drive(reg, at, i, freshId, outcome, 1) ==
              AtPc(s, i, Done(Error(if grant.expiresAt <= s.now then "APPROVAL_EXPIRED" else "APPROVAL_INVALID")))
            else RowFits(s.table, grant.id, call, s.now) ||
                 Drive(reg, at, i, freshId, outcome, 2) == AtPc(s, i, Done(Error("APPROVAL_ALREADY_USED")))
  {
    var call, grant := s.tasks[i].call, s.tasks[i].call.context.value.approval.value;
    var at := AtPc(s, i, GrantChecks);
    GrantIsChecked(reg, s, i, freshId, outcome);
    if !GrantFits(grant, call, s.now) {
      OneStep(reg, at, i, freshId, outcome);
    } else if !RowFits(s.table, grant.id, call, s.now) {
      TwoSteps(reg, at, i, freshId, outcome);
      UnfitRowStops(reg, s, i, freshId, outcome);
    }
  }

  lemma GrantIsChecked(reg: Registry, s: State, i: nat, freshId: string, outcome: Outcome)
    requires i < |s.tasks| && s.tasks[i].call.params.Some?
    requires s.tasks[i].call.context.Some? && s.tasks[i].call.context.value.approval.Some?
    ensures var call, grant := s.tasks[i].call, s.tasks[i].call.context.value.approval.value;
            StepTask(reg, AtPc(s, i, GrantChecks), i, freshId, outcome) ==
            AtPc(s, i,
                 if GrantFits(grant, call, s.now) then ConsumeGrant(s.now)
                 else Done(Error(if grant.expiresAt <= s.now then "APPROVAL_EXPIRED" else "APPROVAL_INVALID")))
  {
  }

  lemma UnfitRowStops(reg: Registry, s: State, i: nat, freshId: string, outcome: Outcome)
    requires i < |s.tasks| && s.tasks[i].call.params.Some?
    requires s.tasks[i].call.context.Some? && s.tasks[i].call.context.value.approval.Some?
    requires !RowFits(s.table, s.tasks[i].call.context.value.approval.value.id, s.tasks[i].call, s.now)
    ensures StepTask(reg, AtPc(s, i, ConsumeGrant(s.now)), i, freshId, outcome) ==
            AtPc(s, i, Done(Error("APPROVAL_ALREADY_USED")))
  {
  }

  // ---------- The call that runs its skill ----------

  /** The table after the approval of a cleared call has been consumed. */
  function TableAfter(reg: Registry, s: State, call: Call): Table
    requires call.skill in reg && Cleared(reg, s, call)
  {
    if reg[call.skill].approvalRequired then
      var id := call.context.value.approval.value.id;
      s.table[id := s.table[id].(status := Consumed, consumedAt := Some(s.now))]
    else s.table
  }

  function StepsToRun(reg: Registry, call: Call): nat
    requires call.skill in reg
  {
    StepsToApproval(reg, call) + if reg[call.skill].approvalRequired then 2 else 0
  }

  /** Up to the consumed approval: the conditional update is the second step after the look-up. */
  lemma ReachesRun(reg: Registry, s: State, i: nat, freshId: string, outcome: Outcome)
    requires Entering(s, i) && Admissible(reg, s.tasks[i].call) && KeyUnused(reg, s, s.tasks[i].call)
    requires Cleared(reg, s, s.tasks[i].call)
    ensures var t, call := s.tasks[i], s.tasks[i].call;
            Drive(reg, s, i, freshId, outcome, StepsToRun(reg, call)) ==
            With(s, TableAfter(reg, s, call), s.records, s.runs, i,
                 t.(pc := if RunsOnce(reg, call) then Acquire else Launch,
                    consumed := reg[call.skill].approvalRequired))
  {
    var call := s.tasks[i].call;
    ReachesApproval(reg, s, i, freshId, outcome);
    if reg[call.skill].approvalRequired {
      DriveSplits(reg, s, i, freshId, outcome, StepsToApproval(reg, call), 2);
      GrantIsUsed(reg, s, i, freshId, outcome);
    }
  }

  lemma GrantIsUsed(reg: Registry, s: State, i: nat, freshId: string, outcome: Outcome)
    requires Entering(s, i) && Admissible(reg, s.tasks[i].call) && reg[s.tasks[i].call.skill].approvalRequired
    requires Cleared(reg, s, s.tasks[i].call)
    ensures var t, call := s.tasks[i], s.tasks[i].call;
            Drive(reg, AtPc(s, i, GrantChecks), i, freshId, outcome, 2) ==
            With(s, TableAfter(reg, s, call), s.records, s.runs, i,
                 t.(pc := if RunsOnce(reg, call) then Acquire else Launch, consumed := true))
  {
    var call, at := s.tasks[i].call, AtPc(s, i, GrantChecks);
    KeyExactlyWhen(reg, call);
    assert StepTask(reg, at, i, freshId, outcome) == AtPc(s, i, ConsumeGrant(s.now));
    TwoSteps(reg, at, i, freshId, outcome);
  }

  /** The records after the run: its own under its key, if it has one. */
  predicate RecordsAfter(reg: Registry, s: State, call: Call, record: Record, later: Records) {
    if RunsOnce(reg, call) then
      && call.context.Some?
      && var c := call.context.value;
         later == s.records[Key(c.tenant, c.store, c.taskId, call.skill, call.params.value) := record]
    else later == s.records
  }

  /** Without a key: the skill is started and its outcome reported. */
  lemma PlainRun(reg: Registry, s: State, i: nat, freshId: string, outcome: Outcome)
    requires i < |s.tasks| && s.tasks[i].pc.Launch? && KeyOf(reg, s.tasks[i].call).None?
    ensures Drive(reg, s, i, freshId, outcome, 3) ==
            With(s, s.table, s.records, s.runs + [i], i,
                 s.tasks[i].(pc := Done(FinalReply(outcome)), started := true))
  {
    var t := s.tasks[i].(started := true);
    var s1 := With(s, s.table, s.records, s.runs + [i], i, t.(pc := Pc.Running));
    var s2 := AtPc(s1, i, Report(FinalReply(outcome)));
    assert StepTask(reg, s, i, freshId, outcome) == s1;
    assert StepTask(reg, s1, i, freshId, outcome) == s2;
    TwoSteps(reg, s1, i, freshId, outcome);
  }

  /** With an unused key: the key is taken and the skill started. */
  lemma KeyedStart(reg: Registry, s: State, i: nat, freshId: string, outcome: Outcome)
    requires i < |s.tasks| && s.tasks[i].pc.Acquire?
    requires KeyOf(reg, s.tasks[i].call).Some? && KeyOf(reg, s.tasks[i].call).value !in s.records
    ensures var key := KeyOf(reg, s.tasks[i].call).value;
            Drive(reg, s, i, freshId, outcome, 2) ==
            With(s, s.table, s.records[key := Record.Running], s.runs + [i], i,
                 s.tasks[i].(pc := Pc.Running, acquired := true, started := true))
  {
    var key := KeyOf(reg, s.tasks[i].call).value;
    assert StepTask(reg, s, i, freshId, outcome) ==
           With(s, s.table, s.records[key := Record.Running], s.runs, i, s.tasks[i].(pc := Launch, acquired := true));
    TwoSteps(reg, s, i, freshId, outcome);
  }

  /** From there, its outcome is recorded and reported. */
  lemma KeyedEnd(reg: Registry, s: State, i: nat, freshId: string, outcome: Outcome)
    requires i < |s.tasks| && s.tasks[i].pc.Running? && KeyOf(reg, s.tasks[i].call).Some?
    ensures var key := KeyOf(reg, s.tasks[i].call).value;
            Drive(reg, s, i, freshId, outcome, 3) ==
            With(s, s.table, s.records[key := FinalRecord(outcome)], s.runs, i,
                 s.tasks[i].(pc := Done(FinalReply(outcome)), written := Some(FinalRecord(outcome))))
  {
    var key, settling := KeyOf(reg, s.tasks[i].call).value, AtPc(s, i, Settle(outcome));
    assert StepTask(reg, s, i, freshId, outcome) == settling;
    WriteReplaces(s.records, key, outcome);
    assert StepTask(reg, settling, i, freshId, outcome) ==
           With(s, s.table, s.records[key := FinalRecord(outcome)], s.runs, i,
                s.tasks[i].(pc := Report(FinalReply(outcome)), written := Some(FinalRecord(outcome))));
    TwoSteps(reg, settling, i, freshId, outcome);
  }

  lemma KeyedRun(reg: Registry, s: State, i: nat, freshId: string, outcome: Outcome)
    requires i < |s.tasks| && s.tasks[i].pc.Acquire?
    requires KeyOf(reg, s.tasks[i].call).Some? && KeyOf(reg, s.tasks[i].call).value !in s.records
    ensures var key := KeyOf(reg, s.tasks[i].call).value;
            Drive(reg, s, i, freshId, outcome, 5) ==
            With(s, s.table, s.records[key := FinalRecord(outcome)], s.runs + [i], i,
                 s.tasks[i].(pc := Done(FinalReply(outcome)), acquired := true, started := true,
                             written := Some(FinalRecord(outcome))))
  {
    var key := KeyOf(reg, s.tasks[i].call).value;
    KeyedStart(reg, s, i, freshId, outcome);
    KeyedEnd(reg, Drive(reg, s, i, freshId, outcome, 2), i, freshId, outcome);
    DriveSplits(reg, s, i, freshId, outcome, 2, 3);
    assert s.records[key := Record.Running][key := FinalRecord(outcome)] == s.records[key := FinalRecord(outcome)];
  }

  function StepsToEnd(reg: Registry, call: Call): nat
    requires call.skill in reg
  {
    StepsToRun(reg, call) + if RunsOnce(reg, call) then 5 else 3
  }

  /** The skill of task `i` was started once, its approval used, its outcome recorded and told to the caller. */
  ghost predicate Completed(reg: Registry, s: State, i: nat, outcome: Outcome, end: State, record: Record)
    requires i < |s.tasks| && s.tasks[i].call.skill in reg && Cleared(reg, s, s.tasks[i].call)
  {
    && end.runs == s.runs + [i] && end.now == s.now && OnlyTask(s, end, i)
    && end.table == TableAfter(reg, s, s.tasks[i].call)
    && RecordsAfter(reg, s, s.tasks[i].call, record, end.records)
    && end.tasks[i].pc.Done? && Ends(outcome, end.tasks[i].pc.reply, record)
  }

  /**
    An uninterrupted admissible call that is cleared and whose key is not in use starts its skill once, consumes its
    approval if it needs one, records the outcome if it has a key, and replies with it.
   */
  lemma GoodCallCompletes(reg: Registry, s: State, i: nat, freshId: string, outcome: Outcome) returns (record: Record)
    requires Entering(s, i) && Admissible(reg, s.tasks[i].call) && KeyUnused(reg, s, s.tasks[i].call)
    requires Cleared(reg, s, s.tasks[i].call)
    ensures Completed(reg, s, i, outcome, Drive(reg, s, i, freshId, outcome, StepsToEnd(reg, s.tasks[i].call)), record)
  {
    record := FinalRecord(outcome);
    OutcomeEnds(outcome);
    RunsToEnd(reg, s, i, freshId, outcome);
  }

  lemma RunsToEnd(reg: Registry, s: State, i: nat, freshId: string, outcome: Outcome)
    requires Entering(s, i) && Admissible(reg, s.tasks[i].call) && KeyUnused(reg, s, s.tasks[i].call)
    requires Cleared(reg, s, s.tasks[i].call)
    ensures var call := s.tasks[i].call;
            var end := Drive(reg, s, i, freshId, outcome, StepsToEnd(reg, call));
            && end.runs == s.runs + [i] && end.now == s.now && OnlyTask(s, end, i)
            && end.table == TableAfter(reg, s, call) && RecordsAfter(reg, s, call, FinalRecord(outcome), end.records)
            && end.tasks[i].pc == Done(FinalReply(outcome))
  {
    var call := s.tasks[i].call;
    ReachesRun(reg, s, i, freshId, outcome);
    var middle := Drive(reg, s, i, freshId, outcome, StepsToRun(reg, call));
    KeyExactlyWhen(reg, call);
    DriveSplits(reg, s, i, freshId, outcome, StepsToRun(reg, call), if RunsOnce(reg, call) then 5 else 3);
    if RunsOnce(reg, call) {
      KeyedRun(reg, middle, i, freshId, outcome);
    } else {
      PlainRun(reg, middle, i, freshId, outcome);
    }
  }

  /** Whoever finds the key taken at the insertion is refused, with the approval already used. */
  lemma TakenKeyRefuses(reg: Registry, s: State, i: nat, freshId: string, outcome: Outcome)
    requires i < |s.tasks| && s.tasks[i].pc.Acquire? && RunsOnce(reg, s.tasks[i].call)
    requires !KeyUnused(reg, s, s.tasks[i].call)
    ensures StepTask(reg, s, i, freshId, outcome) ==
            With(s, s.table, s.records, s.runs, i, s.tasks[i].(pc := Done(Error("ALREADY_EXECUTED")), refused := true))
  {
    KeyExactlyWhen(reg, s.tasks[i].call);
  }

  // ---------- Asking, approving and trying again ----------

  /** An `approve` call that nothing interrupts. */
  function DriveApprover(s: State, k: nat): State
    requires k < |s.approvers|
  {
    StepApprover(StepApprover(StepApprover(s, k), k), k)
  }

  /** The approver may approve the row now: their own tenant and store, and their own request only as administrator. */
  predicate MayApprove(table: Table, id: string, sec: Security, now: Time) {
    && id in table && table[id].status == Pending && table[id].expiresAt > now
    && table[id].tenant == sec.tenant && table[id].store == sec.store
    && (table[id].requester == sec.user ==> sec.isAdmin)
  }

  /** It approves the row exactly if the approver may; nothing else changes. */
  lemma UninterruptedApproval(s: State, k: nat)
    requires k < |s.approvers| && s.approvers[k] == Approver(s.approvers[k].id, s.approvers[k].sec, ReadRow, false)
    ensures var id, sec, end := s.approvers[k].id, s.approvers[k].sec, DriveApprover(s, k);
            if MayApprove(s.table, id, sec, s.now) then
              var reason := if s.table[id].requester == sec.user then "ADMIN_SELF_APPROVAL" else "";
              end == s.(table := s.table[id := s.table[id].(status := Approved, approver := sec.user,
                                                            approvedAt := Some(s.now), reason := reason)],
                        approvers := s.approvers[k := Approver(id, sec, Finished, true)])
            else end == s.(approvers := s.approvers[k := Approver(id, sec, Finished, false)])
  {
    var id, sec := s.approvers[k].id, s.approvers[k].sec;
    var read := s.(approvers := s.approvers[k := Approver(id, sec, Decide(Find(s.table, id, sec)), false)]);
    assert StepApprover(s, k) == read;
    ApproverDecides(s, read, k);
  }

  lemma ApproverDecides(s: State, read: State, k: nat)
    requires k < |s.approvers|
    requires var id, sec := s.approvers[k].id, s.approvers[k].sec;
             read == s.(approvers := s.approvers[k := Approver(id, sec, Decide(Find(s.table, id, sec)), false)])
    ensures var id, sec, end := s.approvers[k].id, s.approvers[k].sec, StepApprover(StepApprover(read, k), k);
            if MayApprove(s.table, id, sec, s.now) then
              var reason := if s.table[id].requester == sec.user then "ADMIN_SELF_APPROVAL" else "";
              end == s.(table := s.table[id := s.table[id].(status := Approved, approver := sec.user,
                                                            approvedAt := Some(s.now), reason := reason)],
                        approvers := s.approvers[k := Approver(id, sec, Finished, true)])
            else end == s.(approvers := s.approvers[k := Approver(id, sec, Finished, false)])
  {
  }

  lemma DrivingIsExecution(reg: Registry, s: State, k: nat)
    requires k < |s.approvers|
    ensures DriveApprover(s, k) == Execute(reg, s, [StepApproval(k), StepApproval(k), StepApproval(k)])
  {
    var one: seq<Event> := [StepApproval(k)];
    var s1 := StepApprover(s, k);
    var s2 := StepApprover(s1, k);
    assert Execute(reg, s2, one) == Execute(reg, Next(reg, s2, one[0]), one[1..]) == StepApprover(s2, k);
    assert (one + one)[1..] == one;
    assert Execute(reg, s1, one + one) == Execute(reg, s2, one);
    var three := one + one + one;
    assert three[1..] == one + one && three == [StepApproval(k), StepApproval(k), StepApproval(k)];
  }

  /** Cancelling stops a call that has not replied, or an approval, where it stands; the stores keep what they hold. */
  lemma CancellingStops(reg: Registry, s: State, i: nat, k: nat)
    ensures Next(reg, s, CancelCall(i)) ==
            if i < |s.tasks| && !s.tasks[i].pc.Done? then AtPc(s, i, Cancelled) else s
    ensures Next(reg, s, CancelApproval(k)) ==
            if k >= |s.approvers| then s
            else var a := s.approvers[k];
                 State(s.table, s.records, s.now, s.tasks,
                       s.approvers[k := Approver(a.id, a.sec, Finished, a.updated)], s.runs)
  {
  }

  /** The state after an approval that starts and finishes `wait` after `s`. */
  function AfterApproving(reg: Registry, s: State, wait: nat, id: string, sec: Security): State {
    DriveApprover(Next(reg, Next(reg, s, Tick(wait)), StartApproval(id, sec)), |s.approvers|)
  }

  /** The caller tries again, `wait` after `s`, with a grant in hand. */
  function TryAgain(reg: Registry, s: State, wait: nat, call: Call, grant: Grant): State
    requires call.context.Some?
  {
    Next(reg, Next(reg, s, Tick(wait)), StartCall(call.(context := Some(call.context.value.(approval := Some(grant))))))
  }

  lemma Approving(reg: Registry, s: State, wait: nat, id: string, sec: Security)
    requires MayApprove(s.table, id, sec, s.now + wait)
    ensures var after := AfterApproving(reg, s, wait, id, sec);
            && after.tasks == s.tasks && after.records == s.records && after.runs == s.runs && after.now == s.now + wait
            && after.table.Keys == s.table.Keys
            && after.table[id] == s.table[id].(status := Approved, approver := sec.user, approvedAt := Some(after.now),
                                               reason := after.table[id].reason)
  {
    var begun := Next(reg, Next(reg, s, Tick(wait)), StartApproval(id, sec));
    assert begun.approvers[|s.approvers|] == Approver(id, sec, ReadRow, false);
    UninterruptedApproval(begun, |s.approvers|);
  }

  /**
    The whole protocol: a call without a grant asks; someone else, or an administrator, approves; the same call with the
    grant, less than ten minutes after the first, starts the skill once and uses the approval up.
   */
  lemma AskApproveRun(reg: Registry, s: State, i: nat, freshId: string, sec: Security, early: nat, late: nat,
                      grant: Grant, outcome: Outcome) returns (asked: State, again: State, end: State, record: Record)
    requires Entering(s, i) && Admissible(reg, s.tasks[i].call) && KeyUnused(reg, s, s.tasks[i].call)
    requires reg[s.tasks[i].call.skill].approvalRequired && freshId !in s.table && early + late < 600
    requires s.tasks[i].call.context.Some? && s.tasks[i].call.context.value.approval.None?
    requires var call, c := s.tasks[i].call, s.tasks[i].call.context.value;
             && sec.tenant == c.tenant && sec.store == c.store && (sec.user == c.user ==> sec.isAdmin)
             && grant == Grant(freshId, c.taskId, c.tenant, c.store, c.user, sec.user, call.skill,
                               ParamsHash(call.skill, call.params.value), Approved, s.now + 600)
    ensures asked == Drive(reg, s, i, freshId, outcome, StepsToApproval(reg, s.tasks[i].call) + 2)
    ensures |asked.tasks| == |s.tasks| && asked.tasks[i].pc == Done(ApprovalNeeded(freshId)) && asked.runs == s.runs
    ensures var approved := AfterApproving(reg, asked, early, freshId, sec);
            && freshId in approved.table && Represents(grant, approved.table[freshId], sec.user)
            && again == TryAgain(reg, approved, late, s.tasks[i].call, grant)
    ensures end == Drive(reg, again, |s.tasks|, freshId, outcome, StepsToEnd(reg, s.tasks[i].call))
    ensures end.runs == s.runs + [|s.tasks|] && freshId in end.table && end.table[freshId].status == Consumed
    ensures |end.tasks| == |s.tasks| + 1 && end.tasks[|s.tasks|].pc.Done?
    ensures Ends(outcome, end.tasks[|s.tasks|].pc.reply, record)
  {
    var call := s.tasks[i].call;
    UngrantedCallAsks(reg, s, i, freshId, outcome);
    asked := Drive(reg, s, i, freshId, outcome, StepsToApproval(reg, call) + 2);
    Approving(reg, asked, early, freshId, sec);
    var approved := AfterApproving(reg, asked, early, freshId, sec);
    again := TryAgain(reg, approved, late, call, grant);
    SecondTry(reg, s, approved, i, late, call, grant);
    end := Drive(reg, again, |s.tasks|, freshId, outcome, StepsToEnd(reg, call));
    record := GoodCallCompletes(reg, again, |s.tasks|, freshId, outcome);
  }

  lemma SecondTry(reg: Registry, s: State, approved: State, i: nat, late: nat, call: Call, grant: Grant)
    requires Entering(s, i) && call == s.tasks[i].call && Admissible(reg, call) && KeyUnused(reg, s, call)
    requires reg[call.skill].approvalRequired && call.context.Some?
    requires |approved.tasks| == |s.tasks| && approved.records == s.records
    requires GrantFits(grant, call, approved.now + late) && RowFits(approved.table, grant.id, call, approved.now + late)
    ensures var again := TryAgain(reg, approved, late, call, grant);
            && again.runs == approved.runs && again.table == approved.table && |again.tasks| == |s.tasks| + 1
            && Entering(again, |s.tasks|)
            && var second := again.tasks[|s.tasks|].call;
            && Admissible(reg, second) && KeyUnused(reg, again, second) && Cleared(reg, again, second)
            && StepsToEnd(reg, second) == StepsToEnd(reg, call)
            && second.context.Some? && second.context.value.approval == Some(grant)
  {
  }
}
