/** Where the approvals behind started skills come from: each was given by an `approve` call of someone entitled. */
module ApprovalLaws {
  import opened Wrappers
  import opened Approval
  import opened SkillExecution
  import opened SkillExecutionLaws

  predicate Decided(status: Status) {
    status == Approved || status == Consumed
  }

  /**
    The `approve` call updated this row: it is a call of the row's tenant and store by the user that the row names, who
    is an administrator if the request is their own.
   */
  predicate Endorses(a: Approver, row: Request) {
    && a.updated && a.id == row.id && a.sec.tenant == row.tenant && a.sec.store == row.store
    && a.sec.user == row.approver && (row.requester == row.approver ==> a.sec.isAdmin)
  }

  predicate Endorsed(approvers: seq<Approver>, row: Request) {
    exists k :: 0 <= k < |approvers| && Endorses(approvers[k], row)
  }

  ghost predicate AllEndorsed(table: Table, approvers: seq<Approver>) {
    forall id :: id in table && Decided(table[id].status) ==> Endorsed(approvers, table[id])
  }

  /** A call about to update its own user's request is an administrator's; only a finished call has updated a row. */
  ghost predicate Entitled(table: Table, a: Approver) {
    && (a.pc.UpdateRow? ==> a.id in table && (table[a.id].requester == a.sec.user ==> a.sec.isAdmin))
    && (!a.pc.Finished? ==> !a.updated)
  }

  ghost predicate AllEntitled(table: Table, approvers: seq<Approver>) {
    forall k :: 0 <= k < |approvers| ==> Entitled(table, approvers[k])
  }

  ghost predicate ApprovalInv(s: State) {
    AllEndorsed(s.table, s.approvers) && AllEntitled(s.table, s.approvers)
  }

  /** The rows that are decided later were decided before, by the same approver and for the same request. */
  ghost predicate ApprovesNothing(table: Table, later: Table) {
    && TableMoves(table, later)
    && forall id :: id in later && Decided(later[id].status) ==> id in table && Decided(table[id].status)
  }

  lemma NothingApprovedKeeps(table: Table, later: Table, approvers: seq<Approver>)
    requires ApprovesNothing(table, later) && AllEndorsed(table, approvers) && AllEntitled(table, approvers)
    ensures AllEndorsed(later, approvers) && AllEntitled(later, approvers)
  {
    forall id | id in later && Decided(later[id].status) ensures Endorsed(approvers, later[id]) {
      assert RowMoves(table[id], later[id]);
      var k :| 0 <= k < |approvers| && Endorses(approvers[k], table[id]);
      assert Endorses(approvers[k], later[id]);
    }
    forall k | 0 <= k < |approvers| ensures Entitled(later, approvers[k]) {
      assert Entitled(table, approvers[k]);
    }
  }

  lemma InsertionApprovesNothing(s: State, i: nat, row: Request)
    requires i < |s.tasks| && row.status == Pending
    ensures ApprovesNothing(s.table, StoreApproval(s, i, row).table)
  {
  }

  lemma ConsumptionApprovesNothing(reg: Registry, s: State, i: nat, at: Time)
    requires i < |s.tasks| && TableOk(s.table)
    ensures ApprovesNothing(s.table, ConsumeApproval(reg, s, i, at).table)
  {
    var call := s.tasks[i].call;
    if call.context.Some? && call.context.value.approval.Some? && call.params.Some? {
      var c := call.context.value;
      ConsumeKeeps(s.table, c.approval.value.id, c.tenant, c.store, call.skill, HashOf(call), at);
    }
  }

  lemma EarlyStepKeepsTable(reg: Registry, s: State, i: nat, freshId: string, outcome: Outcome)
    requires i < |s.tasks|
    requires var pc := s.tasks[i].pc; pc.Entry? || pc.Lookup? || pc.NewApproval? || pc.GrantChecks?
    ensures StepTask(reg, s, i, freshId, outcome).table == s.table
  {
  }

  lemma LateStepKeepsTable(reg: Registry, s: State, i: nat, freshId: string, outcome: Outcome)
    requires i < |s.tasks| && !Early(s.tasks[i].pc)
    ensures StepTask(reg, s, i, freshId, outcome).table == s.table
  {
  }

  /** A step of an `execute` call approves no row. */
  lemma TaskStepApprovesNothing(reg: Registry, s: State, i: nat, freshId: string, outcome: Outcome)
    requires Inv(reg, s) && i < |s.tasks|
    ensures ApprovesNothing(s.table, StepTask(reg, s, i, freshId, outcome).table)
    ensures StepTask(reg, s, i, freshId, outcome).approvers == s.approvers
  {
    var next := StepTask(reg, s, i, freshId, outcome);
    assert OnlyTask(s, next, i);
    match s.tasks[i].pc
    case InsertApproval(row) =>
      assert Staged(reg, s.tasks[i]);
      InsertionApprovesNothing(s, i, row);
    case ConsumeGrant(at) => ConsumptionApprovesNothing(reg, s, i, at);
    case _ =>
      if Early(s.tasks[i].pc) {
        EarlyStepKeepsTable(reg, s, i, freshId, outcome);
      } else {
        LateStepKeepsTable(reg, s, i, freshId, outcome);
      }
  }

  /** Replacing a call by one that has updated the same row, if the old one had updated any, loses no endorsement. */
  lemma EndorsementsKept(table: Table, approvers: seq<Approver>, k: nat, a: Approver)
    requires AllEndorsed(table, approvers) && k < |approvers|
    requires approvers[k].updated ==> a == approvers[k].(pc := a.pc)
    ensures AllEndorsed(table, approvers[k := a])
  {
    forall id | id in table && Decided(table[id].status) ensures Endorsed(approvers[k := a], table[id]) {
      var j :| 0 <= j < |approvers| && Endorses(approvers[j], table[id]);
      assert Endorses(approvers[k := a][j], table[id]);
    }
  }

  /** An update that hits endorses its row and leaves the others as they were. */
  lemma UpdateEndorses(s: State, i: nat)
    requires i < |s.approvers| && s.approvers[i].pc.UpdateRow? && ApprovalInv(s) && TableOk(s.table)
    ensures AllEndorsed(StepApprover(s, i).table, StepApprover(s, i).approvers)
  {
    var a, next := s.approvers[i], StepApprover(s, i);
    assert Entitled(s.table, a);
    EndorsementsKept(s.table, s.approvers, i, next.approvers[i]);
    forall id | id in next.table && Decided(next.table[id].status) ensures Endorsed(next.approvers, next.table[id]) {
      if id == a.id && CanApprove(s.table, a.id, a.sec, a.pc.at) {
        assert Endorses(next.approvers[i], next.table[id]);
      } else {
        assert next.table[id] == s.table[id];
      }
    }
  }

  lemma ApproverStepKeeps(reg: Registry, s: State, i: nat)
    requires Inv(reg, s) && ApprovalInv(s) && i < |s.approvers|
    ensures ApprovalInv(StepApprover(s, i))
  {
    var a, next := s.approvers[i], StepApprover(s, i);
    assert Entitled(s.table, a) && ApproverOk(s.table, a);
    if a.pc.UpdateRow? {
      UpdateEndorses(s, i);
      ApproverStepMoves(s, i);
    } else {
      if a.pc.Decide? && a.pc.found.Some? && DecideApproval(a.pc.found, a.sec, s.now).Attempt? {
        AttemptIsSound(a.pc.found.value, a.sec, s.now);
      }
      EndorsementsKept(s.table, s.approvers, i, next.approvers[i]);
    }
    forall k | 0 <= k < |next.approvers| ensures Entitled(next.table, next.approvers[k]) {
      assert Entitled(s.table, s.approvers[k]);
    }
  }

  lemma NewApproverKeeps(s: State, id: string, sec: Security)
    requires ApprovalInv(s)
    ensures var more := s.approvers + [Approver(id, sec, ReadRow, false)];
            AllEndorsed(s.table, more) && AllEntitled(s.table, more)
  {
    var more := s.approvers + [Approver(id, sec, ReadRow, false)];
    forall row | row in s.table && Decided(s.table[row].status) ensures Endorsed(more, s.table[row]) {
      var j :| 0 <= j < |s.approvers| && Endorses(s.approvers[j], s.table[row]);
      assert Endorses(more[j], s.table[row]);
    }
  }

  lemma NextKeepsApprovalInv(reg: Registry, s: State, e: Event)
    requires Inv(reg, s) && ApprovalInv(s)
    ensures ApprovalInv(Next(reg, s, e))
  {
    match e
    case StepCall(i, freshId, outcome) =>
      if i < |s.tasks| {
        TaskStepApprovesNothing(reg, s, i, freshId, outcome);
        NothingApprovedKeeps(s.table, StepTask(reg, s, i, freshId, outcome).table, s.approvers);
      }
    case StepApproval(i) =>
      if i < |s.approvers| {
        ApproverStepKeeps(reg, s, i);
      }
    case StartApproval(id, sec) => NewApproverKeeps(s, id, sec);
    case CancelApproval(i) =>
      if i < |s.approvers| {
        EndorsementsKept(s.table, s.approvers, i, s.approvers[i].(pc := Finished));
      }
    case _ =>
  }

  lemma {:induction false} ExecuteKeepsApprovalInv(reg: Registry, s: State, events: seq<Event>)
    requires Inv(reg, s) && ApprovalInv(s)
    ensures ApprovalInv(Execute(reg, s, events))
    decreases |events|
  {
    if events == [] {
    } else {
      NextKeepsInv(reg, s, events[0]);
      NextKeepsApprovalInv(reg, s, events[0]);
      ExecuteKeepsApprovalInv(reg, Next(reg, s, events[0]), events[1..]);
    }
  }

  // ---------- Reachable states ----------

  /**
    Every approved or consumed row was approved by an `approve` call of its own tenant and store by the user that it
    names; if that user also made the request, the call was an administrator's.
   */
  lemma ApprovedByAnEntitledCall(reg: Registry, s: State, id: string)
    requires Reachable(reg, s) && id in s.table && Decided(s.table[id].status)
    ensures Endorsed(s.approvers, s.table[id])
  {
    var now, events :| s == Execute(reg, Initial(now), events);
    ExecuteKeepsApprovalInv(reg, Initial(now), events);
  }

  /**
    Whatever grant value the caller holds, a started skill that needs approval has a stored approval of the caller's own
    tenant and store, for this skill and these parameters. It was given by an entitled `approve` call and consumed, both
    before it expired. The caller is a trusted, fully scoped identity with the skill's scopes.
   */
  lemma ApprovedRunsAreBound(reg: Registry, s: State, i: nat)
    requires Reachable(reg, s) && i in s.runs
    ensures i < |s.tasks| && Admitted(reg, s.tasks[i].call)
    ensures var call := s.tasks[i].call;
            NeedsApproval(reg, call) ==>
              && Bound(s.table, call)
              && var row := s.table[ApprovalId(call)];
              && Endorsed(s.approvers, row)
              && row.approvedAt.Some? && row.approvedAt.value < row.expiresAt
              && row.consumedAt.Some? && row.consumedAt.value < row.expiresAt
              && (row.approver != row.requester || row.reason == ADMIN_SELF_APPROVAL)
              && call.context.value.trusted && reg[call.skill].requiredScopes <= call.context.value.scopes
  {
    ReachableInv(reg, s);
    var a :| 0 <= a < |s.runs| && s.runs[a] == i;
    assert Staged(reg, s.tasks[i]) && Backed(reg, s.table, s.records, s.tasks[i]);
    if NeedsApproval(reg, s.tasks[i].call) {
      ApprovedByAnEntitledCall(reg, s, ApprovalId(s.tasks[i].call));
    }
  }
}
