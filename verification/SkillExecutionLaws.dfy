/** Safety of the guarded execution protocol in every interleaving, with cancellation at any await. */
module SkillExecutionLaws {
  import opened Wrappers
  import opened Approval
  import opened Idempotency
  import opened SkillExecution

  function ApprovalId(call: Call): string {
    if call.context.Some? && call.context.value.approval.Some? then call.context.value.approval.value.id else ""
  }

  /** The approval row that a call consumed is the row of its own tenant, store, skill and parameters. */
  ghost predicate Bound(table: Table, call: Call) {
    && call.context.Some? && call.context.value.approval.Some? && call.params.Some?
    && var id, c := ApprovalId(call), call.context.value;
    && id in table && table[id].status == Consumed
    && table[id].tenant == c.tenant && table[id].store == c.store
    && table[id].skill == call.skill && table[id].paramsHash == HashOf(call)
  }

  /** Still before any lasting effect. */
  predicate Early(pc: Pc) {
    pc.Entry? || pc.Lookup? || pc.NewApproval? || pc.InsertApproval? || pc.GrantChecks? || pc.ConsumeGrant?
  }

  /** The record says what the caller was told: a success with its result, anything else with its error code. */
  predicate Tells(record: Record, reply: Reply) {
    match reply
    case Result(r) => record == if r.success then Succeeded(r) else Failed(r.errorCode)
    case Error(code) => record == Failed(code)
    case _ => false
  }

  /** What the flags of a task say about where it is suspended. */
  ghost predicate Staged(reg: Registry, t: Task) {
    var keyed, gated := KeyOf(reg, t.call).Some?, NeedsApproval(reg, t.call);
    && (Early(t.pc) ==> !t.consumed && !t.acquired && !t.refused && !t.started)
    && (t.pc.Acquire? ==> keyed && (gated ==> t.consumed) && !t.acquired && !t.refused && !t.started)
    && (t.pc.Launch? ==> (keyed ==> t.acquired) && (gated ==> t.consumed) && !t.refused && !t.started)
    && (t.pc.Running? || t.pc.Settle? ==> t.started && t.written == None)
    && (t.pc.Settle? ==> keyed)
    && (t.pc.Report? ==> !t.pc.reply.Replay?)
    && (!t.pc.Entry? && !t.pc.Done? && !t.pc.Cancelled? ==> Admitted(reg, t.call))
    && (t.consumed ==> gated)
    && (t.acquired ==> keyed)
    && (t.refused ==> keyed && (gated ==> t.consumed) && !t.acquired && !t.started)
    && (t.started ==> Admitted(reg, t.call) && (keyed ==> t.acquired) && (gated ==> t.consumed))
    && (t.written.Some? ==> t.acquired && t.started)
    && (t.acquired && !t.started ==> t.pc.Launch? || t.pc.Cancelled?)
    && (keyed && t.started && t.pc.Report? ==> t.written.Some? && Tells(t.written.value, t.pc.reply))
    && (keyed && t.started && t.pc.Done? ==> t.written.Some? && Tells(t.written.value, t.pc.reply))
    && (t.pc.NewApproval? || t.pc.GrantChecks? || t.pc.ConsumeGrant? || t.pc.InsertApproval? ==> gated)
    && (t.pc.GrantChecks? || t.pc.ConsumeGrant? ==> t.call.context.value.approval.Some?)
    && (t.pc.InsertApproval? ==> RowOk(t.pc.row) && t.pc.row.status == Pending)
  }

  /** What a task's flags say about the shared state. */
  ghost predicate Backed(reg: Registry, table: Table, records: Records, t: Task) {
    && (t.consumed ==> Bound(table, t.call))
    && (t.acquired && KeyOf(reg, t.call).Some? ==>
          && KeyOf(reg, t.call).value in records
          && records[KeyOf(reg, t.call).value] == (if t.written.Some? then t.written.value else Record.Running))
    && (t.written.Some? ==> !t.written.value.Running?)
    && (t.pc.Done? && t.pc.reply.Replay? ==>
          && KeyOf(reg, t.call).Some? && KeyOf(reg, t.call).value in records
          && records[KeyOf(reg, t.call).value] == Succeeded(t.pc.reply.result))
  }

  ghost predicate TasksOk(reg: Registry, table: Table, records: Records, tasks: seq<Task>) {
    forall i :: 0 <= i < |tasks| ==> Staged(reg, tasks[i]) && Backed(reg, table, records, tasks[i])
  }

  /** No two tasks consumed one approval, and no two acquired one key. */
  ghost predicate Exclusive(reg: Registry, tasks: seq<Task>) {
    forall i, j :: 0 <= i < j < |tasks| ==>
      && (tasks[i].consumed && tasks[j].consumed ==> ApprovalId(tasks[i].call) != ApprovalId(tasks[j].call))
      && (tasks[i].acquired && tasks[j].acquired ==> KeyOf(reg, tasks[i].call) != KeyOf(reg, tasks[j].call))
  }

  ghost predicate ConsumedBySome(tasks: seq<Task>, id: string) {
    exists i :: 0 <= i < |tasks| && tasks[i].consumed && ApprovalId(tasks[i].call) == id
  }

  ghost predicate BegunBySome(reg: Registry, tasks: seq<Task>, key: Key) {
    exists i :: 0 <= i < |tasks| && tasks[i].acquired && KeyOf(reg, tasks[i].call) == Some(key)
  }

  /** Every consumed approval was consumed by some task, and every record was begun by some task. */
  ghost predicate Owned(reg: Registry, table: Table, records: Records, tasks: seq<Task>) {
    && (forall id :: id in table && table[id].status == Consumed ==> ConsumedBySome(tasks, id))
    && (forall k :: k in records ==> BegunBySome(reg, tasks, k))
  }

  /** The log names each started task once. */
  ghost predicate RunsOk(tasks: seq<Task>, runs: seq<nat>) {
    && (forall a :: 0 <= a < |runs| ==> runs[a] < |tasks| && tasks[runs[a]].started)
    && (forall i :: 0 <= i < |tasks| && tasks[i].started ==> i in runs)
    && (forall a, b :: 0 <= a < b < |runs| ==> runs[a] != runs[b])
  }

  /** An approver about to update has the right reason in hand. */
  ghost predicate ApproverOk(table: Table, a: Approver) {
    && (a.pc.Decide? && a.pc.found.Some? ==>
          a.id in table && table[a.id].requester == a.pc.found.value.requester)
    && (a.pc.UpdateRow? ==>
          a.id in table && (table[a.id].requester == a.sec.user ==> a.pc.reason == ADMIN_SELF_APPROVAL))
  }

  ghost predicate ApproversOk(table: Table, approvers: seq<Approver>) {
    forall i :: 0 <= i < |approvers| ==> ApproverOk(table, approvers[i])
  }

  ghost predicate Inv(reg: Registry, s: State) {
    && TableOk(s.table)
    && TasksOk(reg, s.table, s.records, s.tasks)
    && Exclusive(reg, s.tasks)
    && Owned(reg, s.table, s.records, s.tasks)
    && RunsOk(s.tasks, s.runs)
    && ApproversOk(s.table, s.approvers)
  }

  // ---------- Every step keeps the invariant ----------

  lemma BackedPersists(reg: Registry, table: Table, later: Table, records: Records, laterRecords: Records, t: Task)
    requires Backed(reg, table, records, t) && TableMoves(table, later)
    requires KeyOf(reg, t.call).Some? && KeyOf(reg, t.call).value in records ==>
               && KeyOf(reg, t.call).value in laterRecords
               && (laterRecords[KeyOf(reg, t.call).value] == records[KeyOf(reg, t.call).value]
                   || (!t.acquired && records[KeyOf(reg, t.call).value].Running?))
    ensures Backed(reg, later, laterRecords, t)
  {
  }

  lemma ApproversPersist(table: Table, later: Table, approvers: seq<Approver>)
    requires ApproversOk(table, approvers) && TableMoves(table, later)
    ensures ApproversOk(later, approvers)
  {
    forall i | 0 <= i < |approvers| ensures ApproverOk(later, approvers[i]) {
      assert ApproverOk(table, approvers[i]);
    }
  }

  /** All other tasks stay backed while task `i` moves the shared state on. */
  lemma OthersStayBacked(reg: Registry, s: State, later: Table, laterRecords: Records, i: nat, t: Task)
    requires Inv(reg, s) && i < |s.tasks| && TableMoves(s.table, later)
    requires forall k :: k in s.records && (KeyOf(reg, s.tasks[i].call) != Some(k) || !s.tasks[i].acquired) ==>
               k in laterRecords && laterRecords[k] == s.records[k]
    requires forall k :: k in s.records ==> k in laterRecords && (laterRecords[k] == s.records[k] || s.records[k].Running?)
    requires Staged(reg, t) && Backed(reg, later, laterRecords, t)
    ensures TasksOk(reg, later, laterRecords, s.tasks[i := t])
  {
    forall j | 0 <= j < |s.tasks| && j != i ensures Backed(reg, later, laterRecords, s.tasks[j]) {
      if s.tasks[j].acquired && s.tasks[i].acquired {
        assert KeyOf(reg, s.tasks[i].call) != KeyOf(reg, s.tasks[j].call) by {
          assert i < j || j < i;
        }
      }
      BackedPersists(reg, s.table, later, s.records, laterRecords, s.tasks[j]);
    }
  }

  /** The two differ in their suspension point, not in what they have done to the shared state. */
  predicate SameFlags(t: Task, u: Task) {
    t.call == u.call && t.consumed == u.consumed && t.acquired == u.acquired && t.started == u.started
    && t.written == u.written
  }

  lemma ConsumerKept(tasks: seq<Task>, i: nat, t: Task, id: string)
    requires i < |tasks| && t.call == tasks[i].call && (tasks[i].consumed ==> t.consumed) && ConsumedBySome(tasks, id)
    ensures ConsumedBySome(tasks[i := t], id)
  {
    var j :| 0 <= j < |tasks| && tasks[j].consumed && ApprovalId(tasks[j].call) == id;
    var after := tasks[i := t];
    assert after[j].consumed && ApprovalId(after[j].call) == id;
  }

  lemma BeginnerKept(reg: Registry, tasks: seq<Task>, i: nat, t: Task, key: Key)
    requires i < |tasks| && t.call == tasks[i].call && (tasks[i].acquired ==> t.acquired) && BegunBySome(reg, tasks, key)
    ensures BegunBySome(reg, tasks[i := t], key)
  {
    var j :| 0 <= j < |tasks| && tasks[j].acquired && KeyOf(reg, tasks[j].call) == Some(key);
    var after := tasks[i := t];
    assert after[j].acquired && KeyOf(reg, after[j].call) == Some(key);
  }

  lemma OwnersKept(reg: Registry, table: Table, records: Records, tasks: seq<Task>, i: nat, t: Task)
    requires i < |tasks| && Owned(reg, table, records, tasks) && t.call == tasks[i].call
    requires (tasks[i].consumed ==> t.consumed) && (tasks[i].acquired ==> t.acquired)
    ensures Owned(reg, table, records, tasks[i := t])
  {
    forall id | id in table && table[id].status == Consumed ensures ConsumedBySome(tasks[i := t], id) {
      ConsumerKept(tasks, i, t, id);
    }
    forall k | k in records ensures BegunBySome(reg, tasks[i := t], k) {
      BeginnerKept(reg, tasks, i, t, k);
    }
  }

  lemma ExclusiveKept(reg: Registry, tasks: seq<Task>, i: nat, t: Task)
    requires i < |tasks| && Exclusive(reg, tasks)
    requires t.call == tasks[i].call && t.consumed == tasks[i].consumed && t.acquired == tasks[i].acquired
    ensures Exclusive(reg, tasks[i := t])
  {
  }

  lemma RunsKept(tasks: seq<Task>, runs: seq<nat>, i: nat, t: Task)
    requires i < |tasks| && RunsOk(tasks, runs) && t.started == tasks[i].started
    ensures RunsOk(tasks[i := t], runs)
  {
  }

  /** The parts of the invariant, put together after a step of task `i` that moved the shared state on. */
  lemma Assemble(reg: Registry, s: State, later: Table, laterRecords: Records, runs: seq<nat>, i: nat, t: Task)
    requires Inv(reg, s) && i < |s.tasks| && TableMoves(s.table, later) && TableOk(later)
    requires TasksOk(reg, later, laterRecords, s.tasks[i := t])
    requires Exclusive(reg, s.tasks[i := t]) && Owned(reg, later, laterRecords, s.tasks[i := t])
    requires RunsOk(s.tasks[i := t], runs)
    ensures Inv(reg, State(later, laterRecords, s.now, s.tasks[i := t], s.approvers, runs))
  {
    ApproversPersist(s.table, later, s.approvers);
  }

  /** A step that only moves the task itself. */
  lemma LocalStep(reg: Registry, s: State, i: nat, t: Task)
    requires Inv(reg, s) && i < |s.tasks| && SameFlags(s.tasks[i], t)
    requires Staged(reg, t) && Backed(reg, s.table, s.records, t)
    ensures Inv(reg, WithTask(s, i, t))
  {
    OthersStayBacked(reg, s, s.table, s.records, i, t);
    OwnersKept(reg, s.table, s.records, s.tasks, i, t);
    ExclusiveKept(reg, s.tasks, i, t);
    RunsKept(s.tasks, s.runs, i, t);
    Assemble(reg, s, s.table, s.records, s.runs, i, t);
  }

  lemma InsertStep(reg: Registry, s: State, i: nat, row: Request)
    requires Inv(reg, s) && i < |s.tasks| && s.tasks[i].pc == InsertApproval(row) && row.id !in s.table
    ensures Inv(reg, StoreApproval(s, i, row))
  {
    var later := s.table[row.id := row];
    var t := s.tasks[i].(pc := Done(ApprovalNeeded(row.id)));
    assert Staged(reg, s.tasks[i]) && Backed(reg, s.table, s.records, s.tasks[i]);
    BackedPersists(reg, s.table, later, s.records, s.records, s.tasks[i]);
    OthersStayBacked(reg, s, later, s.records, i, t);
    OwnersKept(reg, s.table, s.records, s.tasks, i, t);
    ExclusiveKept(reg, s.tasks, i, t);
    RunsKept(s.tasks, s.runs, i, t);
    Assemble(reg, s, later, s.records, s.runs, i, t);
  }

  /** The task's own part of a successful consumption. */
  lemma ConsumedIsBacked(reg: Registry, table: Table, records: Records, task: Task, at: Time)
    requires Staged(reg, task) && Backed(reg, table, records, task) && task.pc == ConsumeGrant(at)
    requires var c := task.call.context.value;
             CanConsume(table, ApprovalId(task.call), c.tenant, c.store, task.call.skill, HashOf(task.call), at)
    ensures var c, t := task.call.context.value, task.(pc := AfterApproval(reg, task.call), consumed := true);
            var later := ConsumeUpdate(table, ApprovalId(task.call), c.tenant, c.store, task.call.skill,
                HashOf(task.call), at);
            Staged(reg, t) && Backed(reg, later, records, t)
  {
  }

  lemma ConsumeStep(reg: Registry, s: State, i: nat, at: Time)
    requires Inv(reg, s) && i < |s.tasks| && s.tasks[i].pc == ConsumeGrant(at)
    ensures Inv(reg, ConsumeApproval(reg, s, i, at))
  {
    var task := s.tasks[i];
    assert Staged(reg, task) && Backed(reg, s.table, s.records, task);
    var c, id, hash := task.call.context.value, ApprovalId(task.call), HashOf(task.call);
    if CanConsume(s.table, id, c.tenant, c.store, task.call.skill, hash, at) {
      var later := ConsumeUpdate(s.table, id, c.tenant, c.store, task.call.skill, hash, at);
      var t := task.(pc := AfterApproval(reg, task.call), consumed := true);
      ConsumeKeeps(s.table, id, c.tenant, c.store, task.call.skill, hash, at);
      ConsumedIsBacked(reg, s.table, s.records, task, at);
      OthersStayBacked(reg, s, later, s.records, i, t);
      ConsumedOnce(reg, s, i, t, later);
      RunsKept(s.tasks, s.runs, i, t);
      Assemble(reg, s, later, s.records, s.runs, i, t);
    } else {
      LocalStep(reg, s, i, task.(pc := Done(Error("APPROVAL_ALREADY_USED"))));
    }
  }

  lemma ConsumedOnce(reg: Registry, s: State, i: nat, t: Task, later: Table)
    requires Inv(reg, s) && i < |s.tasks|
    requires t == s.tasks[i].(pc := t.pc, consumed := true) && ApprovalId(t.call) in s.table
    requires s.table[ApprovalId(t.call)].status != Consumed
    requires later.Keys == s.table.Keys && forall id :: id in later && id != ApprovalId(t.call) ==> later[id] == s.table[id]
    ensures Exclusive(reg, s.tasks[i := t]) && Owned(reg, later, s.records, s.tasks[i := t])
  {
    forall j | 0 <= j < |s.tasks| && s.tasks[j].consumed ensures ApprovalId(s.tasks[j].call) != ApprovalId(t.call) {
      assert Backed(reg, s.table, s.records, s.tasks[j]);
    }
    OwnersKept(reg, s.table, s.records, s.tasks, i, t);
    var after := s.tasks[i := t];
    assert after[i].consumed && ApprovalId(after[i].call) == ApprovalId(t.call);
    assert ConsumedBySome(after, ApprovalId(t.call));
  }

  lemma AcquireStep(reg: Registry, s: State, i: nat)
    requires Inv(reg, s) && i < |s.tasks| && s.tasks[i].pc.Acquire?
    ensures Inv(reg, AcquireKey(reg, s, i))
  {
    var task := s.tasks[i];
    assert Staged(reg, task) && Backed(reg, s.table, s.records, task);
    var key := KeyOf(reg, task.call).value;
    if key in s.records {
      LocalStep(reg, s, i, task.(pc := Done(Error("ALREADY_EXECUTED")), refused := true));
    } else {
      var t := task.(pc := Launch, acquired := true);
      OthersStayBacked(reg, s, s.table, Begin(s.records, key), i, t);
      AcquiredOnce(reg, s, i, t, key);
      RunsKept(s.tasks, s.runs, i, t);
      Assemble(reg, s, s.table, Begin(s.records, key), s.runs, i, t);
    }
  }

  lemma AcquiredOnce(reg: Registry, s: State, i: nat, t: Task, key: Key)
    requires Inv(reg, s) && i < |s.tasks| && key !in s.records && KeyOf(reg, t.call) == Some(key)
    requires t == s.tasks[i].(pc := t.pc, acquired := true)
    ensures Exclusive(reg, s.tasks[i := t]) && Owned(reg, s.table, Begin(s.records, key), s.tasks[i := t])
  {
    forall j | 0 <= j < |s.tasks| && s.tasks[j].acquired ensures KeyOf(reg, s.tasks[j].call) != Some(key) {
      assert Backed(reg, s.table, s.records, s.tasks[j]);
    }
    OwnersKept(reg, s.table, s.records, s.tasks, i, t);
    var after := s.tasks[i := t];
    assert after[i].acquired && KeyOf(reg, after[i].call) == Some(key);
    assert BegunBySome(reg, after, key);
  }

  lemma LaunchStep(reg: Registry, s: State, i: nat)
    requires Inv(reg, s) && i < |s.tasks| && s.tasks[i].pc.Launch?
    ensures Inv(reg, StartSkill(s, i))
  {
    var task := s.tasks[i];
    assert Staged(reg, task) && Backed(reg, s.table, s.records, task);
    var t := task.(pc := Pc.Running, started := true);
    OthersStayBacked(reg, s, s.table, s.records, i, t);
    OwnersKept(reg, s.table, s.records, s.tasks, i, t);
    ExclusiveKept(reg, s.tasks, i, t);
    StartedOnce(s.tasks, s.runs, i, t);
    Assemble(reg, s, s.table, s.records, s.runs + [i], i, t);
  }

  lemma StartedOnce(tasks: seq<Task>, runs: seq<nat>, i: nat, t: Task)
    requires i < |tasks| && !tasks[i].started && t.started && RunsOk(tasks, runs)
    ensures RunsOk(tasks[i := t], runs + [i])
  {
    assert i !in runs;
    forall j | 0 <= j < |tasks| && tasks[i := t][j].started ensures j in runs + [i] {
      if j != i {
        assert j in runs;
      }
    }
  }

  lemma RecordTellsReply(outcome: Outcome)
    ensures Tells(FinalRecord(outcome), FinalReply(outcome))
  {
  }

  lemma WriteReplaces(records: Records, key: Key, outcome: Outcome)
    ensures Write(records, key, FinalRecord(outcome)) == records[key := FinalRecord(outcome)]
    ensures !FinalRecord(outcome).Running?
  {
  }

  lemma SettledIsBacked(reg: Registry, table: Table, records: Records, t: Task, key: Key, outcome: Outcome)
    requires Staged(reg, t) && Backed(reg, table, records, t) && t.pc == Settle(outcome) && KeyOf(reg, t.call) == Some(key)
    ensures var u := t.(pc := Report(FinalReply(outcome)), written := Some(FinalRecord(outcome)));
            Staged(reg, u) && Backed(reg, table, records[key := FinalRecord(outcome)], u)
    ensures key in records && records[key] == Record.Running
  {
    RecordTellsReply(outcome);
    WriteReplaces(records, key, outcome);
  }

  lemma SettleStep(reg: Registry, s: State, i: nat, outcome: Outcome)
    requires Inv(reg, s) && i < |s.tasks| && s.tasks[i].pc == Settle(outcome)
    ensures Inv(reg, StoreOutcome(reg, s, i, outcome))
  {
    var task := s.tasks[i];
    assert Staged(reg, task) && Backed(reg, s.table, s.records, task);
    var key := KeyOf(reg, task.call).value;
    var later := s.records[key := FinalRecord(outcome)];
    var t := task.(pc := Report(FinalReply(outcome)), written := Some(FinalRecord(outcome)));
    SettledIsBacked(reg, s.table, s.records, task, key, outcome);
    WriteReplaces(s.records, key, outcome);
    OthersStayBacked(reg, s, s.table, later, i, t);
    OwnersKeptBy(reg, s, later, i, t);
    ExclusiveKept(reg, s.tasks, i, t);
    RunsKept(s.tasks, s.runs, i, t);
    Assemble(reg, s, s.table, later, s.runs, i, t);
  }

  lemma OwnersKeptBy(reg: Registry, s: State, later: Records, i: nat, t: Task)
    requires i < |s.tasks| && Owned(reg, s.table, s.records, s.tasks) && t.call == s.tasks[i].call
    requires t.consumed == s.tasks[i].consumed && t.acquired == s.tasks[i].acquired && later.Keys == s.records.Keys
    ensures Owned(reg, s.table, later, s.tasks[i := t])
  {
    OwnersKept(reg, s.table, s.records, s.tasks, i, t);
    assert forall k :: k in later ==> k in s.records;
  }

  lemma EntryStep(reg: Registry, s: State, i: nat)
    requires Inv(reg, s) && i < |s.tasks| && s.tasks[i].pc.Entry?
    ensures Inv(reg, SuspendAt(s, i, EntryChecks(reg, s.tasks[i].call)))
  {
    assert Staged(reg, s.tasks[i]) && Backed(reg, s.table, s.records, s.tasks[i]);
    LocalStep(reg, s, i, s.tasks[i].(pc := EntryChecks(reg, s.tasks[i].call)));
  }

  lemma LookUpStep(reg: Registry, s: State, i: nat)
    requires Inv(reg, s) && i < |s.tasks| && s.tasks[i].pc.Lookup?
    ensures Inv(reg, LookUpRecord(reg, s, i))
  {
    assert Staged(reg, s.tasks[i]) && Backed(reg, s.table, s.records, s.tasks[i]);
    if KeyOf(reg, s.tasks[i].call).Some? {
      LocalStep(reg, s, i, s.tasks[i].(pc := AfterRecord(reg, s.tasks[i].call, s.records)));
    }
  }

  lemma BuildStep(reg: Registry, s: State, i: nat, freshId: string)
    requires Inv(reg, s) && i < |s.tasks| && s.tasks[i].pc.NewApproval?
    ensures Inv(reg, BuildApproval(s, i, freshId))
  {
    assert Staged(reg, s.tasks[i]) && Backed(reg, s.table, s.records, s.tasks[i]);
    LocalStep(reg, s, i, BuildApproval(s, i, freshId).tasks[i]);
  }

  lemma StoreStep(reg: Registry, s: State, i: nat, row: Request)
    requires Inv(reg, s) && i < |s.tasks| && s.tasks[i].pc == InsertApproval(row)
    ensures Inv(reg, StoreApproval(s, i, row))
  {
    assert Staged(reg, s.tasks[i]) && Backed(reg, s.table, s.records, s.tasks[i]);
    if row.id in s.table {
      LocalStep(reg, s, i, s.tasks[i].(pc := Done(Error("SKILL_EXECUTION_ERROR"))));
    } else {
      InsertStep(reg, s, i, row);
    }
  }

  lemma CheckStep(reg: Registry, s: State, i: nat)
    requires Inv(reg, s) && i < |s.tasks| && s.tasks[i].pc.GrantChecks?
    ensures Inv(reg, CheckCallersGrant(s, i))
  {
    assert Staged(reg, s.tasks[i]) && Backed(reg, s.table, s.records, s.tasks[i]);
    LocalStep(reg, s, i, CheckCallersGrant(s, i).tasks[i]);
  }

  lemma EndStep(reg: Registry, s: State, i: nat, outcome: Outcome)
    requires Inv(reg, s) && i < |s.tasks| && s.tasks[i].pc.Running?
    ensures Inv(reg, EndSkill(reg, s, i, outcome))
  {
    assert Staged(reg, s.tasks[i]) && Backed(reg, s.table, s.records, s.tasks[i]);
    LocalStep(reg, s, i, EndSkill(reg, s, i, outcome).tasks[i]);
  }

  lemma ReportStep(reg: Registry, s: State, i: nat, reply: Reply)
    requires Inv(reg, s) && i < |s.tasks| && s.tasks[i].pc == Report(reply)
    ensures Inv(reg, SuspendAt(s, i, Done(reply)))
  {
    assert Staged(reg, s.tasks[i]) && Backed(reg, s.table, s.records, s.tasks[i]);
    LocalStep(reg, s, i, s.tasks[i].(pc := Done(reply)));
  }

  lemma TaskStepKeepsInv(reg: Registry, s: State, i: nat, freshId: string, outcome: Outcome)
    requires Inv(reg, s) && i < |s.tasks|
    ensures Inv(reg, StepTask(reg, s, i, freshId, outcome))
  {
    match s.tasks[i].pc
    case Entry => EntryStep(reg, s, i);
    case Lookup => LookUpStep(reg, s, i);
    case NewApproval => BuildStep(reg, s, i, freshId);
    case InsertApproval(row) => StoreStep(reg, s, i, row);
    case GrantChecks => CheckStep(reg, s, i);
    case ConsumeGrant(at) => ConsumeStep(reg, s, i, at);
    case Acquire => AcquireStep(reg, s, i);
    case Launch => LaunchStep(reg, s, i);
    case Running => EndStep(reg, s, i, outcome);
    case Settle(ended) => SettleStep(reg, s, i, ended);
    case Report(reply) => ReportStep(reg, s, i, reply);
    case Done(_) =>
    case Cancelled =>
  }

  /** A table that moves on without consuming anything leaves the tasks as they were. */
  lemma TasksUnaffected(reg: Registry, s: State, later: Table)
    requires Inv(reg, s) && TableMoves(s.table, later)
    requires forall id :: id in later && later[id].status == Consumed ==> id in s.table && s.table[id].status == Consumed
    ensures TasksOk(reg, later, s.records, s.tasks) && Owned(reg, later, s.records, s.tasks)
  {
    forall j | 0 <= j < |s.tasks| ensures Staged(reg, s.tasks[j]) && Backed(reg, later, s.records, s.tasks[j]) {
      BackedPersists(reg, s.table, later, s.records, s.records, s.tasks[j]);
    }
  }

  lemma UpdateKeepsInv(reg: Registry, s: State, i: nat)
    requires Inv(reg, s) && i < |s.approvers| && s.approvers[i].pc.UpdateRow?
    ensures Inv(reg, StepApprover(s, i))
  {
    var a := s.approvers[i];
    assert ApproverOk(s.table, a);
    var later := ApproveUpdate(s.table, a.id, a.sec, a.pc.at, a.pc.reason);
    ApproveKeeps(s.table, a.id, a.sec, a.pc.at, a.pc.reason);
    ApproversPersist(s.table, later, s.approvers);
    TasksUnaffected(reg, s, later);
  }

  lemma ApproverStepKeepsInv(reg: Registry, s: State, i: nat)
    requires Inv(reg, s) && i < |s.approvers|
    ensures Inv(reg, StepApprover(s, i))
  {
    assert ApproverOk(s.table, s.approvers[i]);
    if s.approvers[i].pc.UpdateRow? {
      UpdateKeepsInv(reg, s, i);
    }
  }

  /** The invariant survives every event. */
  lemma NextKeepsInv(reg: Registry, s: State, e: Event)
    requires Inv(reg, s)
    ensures Inv(reg, Next(reg, s, e))
  {
    match e
    case StepCall(i, freshId, outcome) =>
      if i < |s.tasks| {
        TaskStepKeepsInv(reg, s, i, freshId, outcome);
      }
    case CancelCall(i) =>
      if i < |s.tasks| {
        assert Staged(reg, s.tasks[i]) && Backed(reg, s.table, s.records, s.tasks[i]);
        LocalStep(reg, s, i, s.tasks[i].(pc := Cancelled));
      }
    case StartCall(call) => NewTaskKeepsInv(reg, s, call);
    case StepApproval(i) =>
      if i < |s.approvers| {
        ApproverStepKeepsInv(reg, s, i);
      }
    case _ =>
  }

  lemma NewTaskKeepsInv(reg: Registry, s: State, call: Call)
    requires Inv(reg, s)
    ensures Inv(reg, Next(reg, s, StartCall(call)))
  {
    var t := Task(call, Entry, false, false, false, false, None);
    assert Staged(reg, t) && Backed(reg, s.table, s.records, t);
    OwnersStay(reg, s.table, s.records, s.tasks, s.tasks + [t]);
    IdleTaskAdded(reg, s.tasks, s.runs, t);
  }

  lemma IdleTaskAdded(reg: Registry, tasks: seq<Task>, runs: seq<nat>, t: Task)
    requires Exclusive(reg, tasks) && RunsOk(tasks, runs) && !t.consumed && !t.acquired && !t.started
    ensures Exclusive(reg, tasks + [t]) && RunsOk(tasks + [t], runs)
  {
  }

  lemma OwnersStay(reg: Registry, table: Table, records: Records, tasks: seq<Task>, after: seq<Task>)
    requires Owned(reg, table, records, tasks) && |tasks| <= |after| && after[..|tasks|] == tasks
    ensures Owned(reg, table, records, after)
  {
    forall id | id in table && table[id].status == Consumed ensures ConsumedBySome(after, id) {
      var j :| 0 <= j < |tasks| && tasks[j].consumed && ApprovalId(tasks[j].call) == id;
      assert after[j] == tasks[j];
    }
    forall k | k in records ensures BegunBySome(reg, after, k) {
      var j :| 0 <= j < |tasks| && tasks[j].acquired && KeyOf(reg, tasks[j].call) == Some(k);
      assert after[j] == tasks[j];
    }
  }

  lemma {:induction false} ExecuteKeepsInv(reg: Registry, s: State, events: seq<Event>)
    requires Inv(reg, s)
    ensures Inv(reg, Execute(reg, s, events))
    decreases |events|
  {
    if events == [] {
    } else {
      NextKeepsInv(reg, s, events[0]);
      ExecuteKeepsInv(reg, Next(reg, s, events[0]), events[1..]);
    }
  }

  ghost predicate Reachable(reg: Registry, s: State) {
    exists now, events :: s == Execute(reg, Initial(now), events)
  }

  lemma ReachableInv(reg: Registry, s: State)
    requires Reachable(reg, s)
    ensures Inv(reg, s)
  {
    var now, events :| s == Execute(reg, Initial(now), events);
    ExecuteKeepsInv(reg, Initial(now), events);
  }

  // ---------- Safety of every reachable state ----------

  /** Each approval identifier is followed by at most one start of an approval-required skill. */
  lemma OneRunPerApproval(reg: Registry, s: State)
    requires Reachable(reg, s)
    ensures forall a, b :: 0 <= a < b < |s.runs| ==>
              && s.runs[a] < |s.tasks| && s.runs[b] < |s.tasks|
              && var c, d := s.tasks[s.runs[a]].call, s.tasks[s.runs[b]].call;
                 c.skill in reg && reg[c.skill].approvalRequired && d.skill in reg && reg[d.skill].approvalRequired ==>
                   && c.context.Some? && c.context.value.approval.Some?
                   && d.context.Some? && d.context.value.approval.Some?
                   && c.context.value.approval.value.id != d.context.value.approval.value.id
  {
    ReachableInv(reg, s);
    forall a, b |
      && 0 <= a < b < |s.runs|
      && NeedsApproval(reg, s.tasks[s.runs[a]].call) && NeedsApproval(reg, s.tasks[s.runs[b]].call)
      ensures Bound(s.table, s.tasks[s.runs[a]].call) && Bound(s.table, s.tasks[s.runs[b]].call)
      ensures ApprovalId(s.tasks[s.runs[a]].call) != ApprovalId(s.tasks[s.runs[b]].call)
    {
      var i, j := s.runs[a], s.runs[b];
      assert Staged(reg, s.tasks[i]) && Staged(reg, s.tasks[j]);
      assert Backed(reg, s.table, s.records, s.tasks[i]) && Backed(reg, s.table, s.records, s.tasks[j]);
      assert i < j || j < i;
    }
  }

  /** Each idempotency key is followed by at most one start. */
  lemma OneRunPerKey(reg: Registry, s: State)
    requires Reachable(reg, s)
    ensures forall a, b :: 0 <= a < b < |s.runs| ==>
              && s.runs[a] < |s.tasks| && s.runs[b] < |s.tasks|
              && var c, d := s.tasks[s.runs[a]].call, s.tasks[s.runs[b]].call;
                 KeyOf(reg, c).Some? && KeyOf(reg, d).Some? ==> KeyOf(reg, c) != KeyOf(reg, d)
  {
    ReachableInv(reg, s);
    forall a, b | 0 <= a < b < |s.runs| && KeyOf(reg, s.tasks[s.runs[a]].call).Some? && KeyOf(reg, s.tasks[s.runs[b]].call).Some?
      ensures KeyOf(reg, s.tasks[s.runs[a]].call) != KeyOf(reg, s.tasks[s.runs[b]].call)
    {
      var i, j := s.runs[a], s.runs[b];
      assert Staged(reg, s.tasks[i]) && Staged(reg, s.tasks[j]);
      assert i < j || j < i;
    }
  }

  /** When a run with a key has replied, its record is in the store and says what the caller was told. */
  lemma FinishedRunIsRecorded(reg: Registry, s: State, i: nat)
    requires Reachable(reg, s) && i in s.runs && i < |s.tasks| && s.tasks[i].pc.Done? && KeyOf(reg, s.tasks[i].call).Some?
    ensures var key := KeyOf(reg, s.tasks[i].call).value;
            key in s.records && Tells(s.records[key], s.tasks[i].pc.reply)
  {
    ReachableInv(reg, s);
    var a :| 0 <= a < |s.runs| && s.runs[a] == i;
    assert Staged(reg, s.tasks[i]) && Backed(reg, s.table, s.records, s.tasks[i]);
  }

  /** A replay returns what the one run of its key stored as its success, which is what that run's caller was told. */
  lemma ReplayIsTheOneRunsResult(reg: Registry, s: State, i: nat)
    requires Reachable(reg, s) && i < |s.tasks| && s.tasks[i].pc.Done? && s.tasks[i].pc.reply.Replay?
    ensures KeyOf(reg, s.tasks[i].call).Some?
    ensures exists j :: j in s.runs && j < |s.tasks| && KeyOf(reg, s.tasks[j].call) == KeyOf(reg, s.tasks[i].call)
              && s.tasks[j].written == Some(Succeeded(s.tasks[i].pc.reply.result))
              && (s.tasks[j].pc.Done? ==> s.tasks[j].pc.reply == Result(s.tasks[i].pc.reply.result))
  {
    ReachableInv(reg, s);
    assert Backed(reg, s.table, s.records, s.tasks[i]);
    var key := KeyOf(reg, s.tasks[i].call).value;
    assert BegunBySome(reg, s.tasks, key);
    var j :| 0 <= j < |s.tasks| && s.tasks[j].acquired && KeyOf(reg, s.tasks[j].call) == Some(key);
    assert Staged(reg, s.tasks[j]) && Backed(reg, s.table, s.records, s.tasks[j]);
    assert j in s.runs;
  }

  // ---------- Conservation ----------

  /** The consumed approvals for the skills in `skills`. */
  function ConsumedIds(table: Table, skills: set<string>): set<string> {
    set id | id in table && table[id].status == Consumed && table[id].skill in skills
  }

  function Consumers(s: State, skills: set<string>): set<nat> {
    set i: nat | i < |s.tasks| && s.tasks[i].consumed && s.tasks[i].call.skill in skills
  }

  /** Starts of approval-required skills in `skills`. */
  function Starts(reg: Registry, s: State, skills: set<string>): set<nat> {
    set i | i in s.runs && i < |s.tasks| && NeedsApproval(reg, s.tasks[i].call) && s.tasks[i].call.skill in skills
  }

  /** Calls of approval-required skills that found their idempotency key taken. */
  function Refusals(reg: Registry, s: State, skills: set<string>): set<nat> {
    set i: nat | i < |s.tasks| && s.tasks[i].refused && NeedsApproval(reg, s.tasks[i].call)
                 && s.tasks[i].call.skill in skills
  }

  /** Calls in flight or cancelled after consuming and before starting or being refused. */
  function Between(s: State, skills: set<string>): set<nat> {
    set i: nat | i < |s.tasks| && s.tasks[i].consumed && !s.tasks[i].started && !s.tasks[i].refused
                 && s.tasks[i].call.skill in skills
  }

  lemma {:induction false} BijectionSize(tasks: seq<Task>, consumers: set<nat>, ids: set<string>)
    requires forall i :: i in consumers ==> i < |tasks| && ApprovalId(tasks[i].call) in ids
    requires forall i, j :: i in consumers && j in consumers && i != j ==>
               ApprovalId(tasks[i].call) != ApprovalId(tasks[j].call)
    requires forall id :: id in ids ==> exists i :: i in consumers && ApprovalId(tasks[i].call) == id
    ensures |consumers| == |ids|
    decreases consumers
  {
    if i :| i in consumers {
      var id := ApprovalId(tasks[i].call);
      forall other | other in ids - {id}
        ensures exists j :: j in consumers - {i} && ApprovalId(tasks[j].call) == other
      {
        var j :| j in consumers && ApprovalId(tasks[j].call) == other;
      }
      BijectionSize(tasks, consumers - {i}, ids - {id});
      assert ids == (ids - {id}) + {id};
    } else {
      assert ids == {};
    }
  }

  /** One consuming task for each consumed approval. */
  lemma ConsumersMatchApprovals(reg: Registry, s: State, skills: set<string>)
    requires Inv(reg, s)
    ensures |ConsumedIds(s.table, skills)| == |Consumers(s, skills)|
  {
    var ids, consumers := ConsumedIds(s.table, skills), Consumers(s, skills);
    forall i | i in consumers ensures ApprovalId(s.tasks[i].call) in ids {
      assert Backed(reg, s.table, s.records, s.tasks[i]);
    }
    forall i, j | i in consumers && j in consumers && i != j
      ensures ApprovalId(s.tasks[i].call) != ApprovalId(s.tasks[j].call)
    {
      assert i < j || j < i;
    }
    forall id | id in ids ensures exists i :: i in consumers && ApprovalId(s.tasks[i].call) == id {
      assert ConsumedBySome(s.tasks, id);
      var i: nat :| i < |s.tasks| && s.tasks[i].consumed && ApprovalId(s.tasks[i].call) == id;
      assert Backed(reg, s.table, s.records, s.tasks[i]);
      assert i in consumers;
    }
    BijectionSize(s.tasks, consumers, ids);
  }

  /** A task that consumed has been started, refused or neither; started and refused tasks of gated skills consumed. */
  lemma ConsumersSplit(reg: Registry, s: State, skills: set<string>, i: nat)
    requires Inv(reg, s) && i < |s.tasks|
    ensures i in Consumers(s, skills) <==>
            i in Starts(reg, s, skills) || i in Refusals(reg, s, skills) || i in Between(s, skills)
    ensures i in Starts(reg, s, skills) ==> i !in Refusals(reg, s, skills) && i !in Between(s, skills)
    ensures i in Refusals(reg, s, skills) ==> i !in Between(s, skills)
  {
    assert Staged(reg, s.tasks[i]);
    assert s.tasks[i].started <==> i in s.runs;
  }

  /**
    For any set of skills: the approvals consumed are the skills started, plus the refusals for a taken key, plus the
    calls in flight or cancelled in between.
   */
  lemma Conservation(reg: Registry, s: State, skills: set<string>)
    requires Reachable(reg, s)
    ensures |ConsumedIds(s.table, skills)| ==
            |Starts(reg, s, skills)| + |Refusals(reg, s, skills)| + |Between(s, skills)|
  {
    ReachableInv(reg, s);
    ConsumersMatchApprovals(reg, s, skills);
    ConsumersArePartitioned(reg, s, skills);
    ThreeParts(Consumers(s, skills), Starts(reg, s, skills), Refusals(reg, s, skills), Between(s, skills));
  }

  lemma ConsumersArePartitioned(reg: Registry, s: State, skills: set<string>)
    requires Inv(reg, s)
    ensures var a, b, c := Starts(reg, s, skills), Refusals(reg, s, skills), Between(s, skills);
            Consumers(s, skills) == a + b + c && a !! b && (a + b) !! c
  {
    var a, b, c := Starts(reg, s, skills), Refusals(reg, s, skills), Between(s, skills);
    forall i: nat | i < |s.tasks|
      ensures i in Consumers(s, skills) <==> i in a || i in b || i in c
      ensures (i in a ==> i !in b && i !in c) && (i in b ==> i !in c)
    {
      ConsumersSplit(reg, s, skills, i);
    }
    assert Consumers(s, skills) == a + b + c;
  }

  lemma ThreeParts(whole: set<nat>, a: set<nat>, b: set<nat>, c: set<nat>)
    requires whole == a + b + c && a !! b && (a + b) !! c
    ensures |whole| == |a| + |b| + |c|
  {
    assert |a + b| == |a| + |b|;
  }

  // ---------- Records over time ----------

  /** Absent, then running, then succeeded or failed for good. */
  ghost predicate RecordsMove(a: Records, b: Records) {
    && (forall k :: k in a ==> k in b && (b[k] == a[k] || a[k].Running?))
    && (forall k :: k in b && k !in a ==> b[k].Running?)
  }

  /** Only four of the steps touch the shared state. */
  lemma TaskStepMoves(reg: Registry, s: State, i: nat, freshId: string, outcome: Outcome)
    requires Inv(reg, s) && i < |s.tasks|
    ensures RecordsMove(s.records, StepTask(reg, s, i, freshId, outcome).records)
    ensures TableMoves(s.table, StepTask(reg, s, i, freshId, outcome).table)
  {
    var task := s.tasks[i];
    assert Staged(reg, task) && Backed(reg, s.table, s.records, task);
    if task.pc.Settle? {
      SettleStepMoves(reg, s, i, freshId, outcome);
    } else if task.pc.ConsumeGrant? {
      var c := task.call.context.value;
      ConsumeKeeps(s.table, ApprovalId(task.call), c.tenant, c.store, task.call.skill, HashOf(task.call), task.pc.at);
    } else {
      QuietStepMoves(reg, s, i, freshId, outcome);
    }
  }

  lemma SettleStepMoves(reg: Registry, s: State, i: nat, freshId: string, outcome: Outcome)
    requires Inv(reg, s) && i < |s.tasks| && s.tasks[i].pc.Settle?
    ensures RecordsMove(s.records, StepTask(reg, s, i, freshId, outcome).records)
    ensures TableMoves(s.table, StepTask(reg, s, i, freshId, outcome).table)
  {
    var task := s.tasks[i];
    assert Staged(reg, task) && Backed(reg, s.table, s.records, task);
    SettledIsBacked(reg, s.table, s.records, task, KeyOf(reg, task.call).value, task.pc.outcome);
    WriteReplaces(s.records, KeyOf(reg, task.call).value, task.pc.outcome);
  }

  lemma QuietStepMoves(reg: Registry, s: State, i: nat, freshId: string, outcome: Outcome)
    requires i < |s.tasks| && Staged(reg, s.tasks[i]) && !s.tasks[i].pc.Settle? && !s.tasks[i].pc.ConsumeGrant?
    ensures RecordsMove(s.records, StepTask(reg, s, i, freshId, outcome).records)
    ensures TableMoves(s.table, StepTask(reg, s, i, freshId, outcome).table)
  {
  }

  lemma ApproverStepMoves(s: State, i: nat)
    requires TableOk(s.table) && ApproversOk(s.table, s.approvers) && i < |s.approvers|
    ensures StepApprover(s, i).records == s.records && TableMoves(s.table, StepApprover(s, i).table)
  {
    var a := s.approvers[i];
    assert ApproverOk(s.table, a);
    if a.pc.UpdateRow? {
      ApproveKeeps(s.table, a.id, a.sec, a.pc.at, a.pc.reason);
    }
  }

  /** In one event a record moves along its path and an approval row along its own. */
  lemma EventMoves(reg: Registry, s: State, e: Event)
    requires Inv(reg, s)
    ensures RecordsMove(s.records, Next(reg, s, e).records) && TableMoves(s.table, Next(reg, s, e).table)
  {
    if e.StepCall? && e.task < |s.tasks| {
      TaskStepMoves(reg, s, e.task, e.freshId, e.outcome);
    } else if e.StepApproval? && e.approver < |s.approvers| {
      ApproverStepMoves(s, e.approver);
    } else {
      assert Next(reg, s, e).records == s.records && Next(reg, s, e).table == s.table;
    }
  }

  /** A task that was cancelled is never touched again. */
  lemma CancelledStays(reg: Registry, s: State, e: Event, i: nat)
    requires i < |s.tasks| && s.tasks[i].pc.Cancelled?
    ensures i < |Next(reg, s, e).tasks| && Next(reg, s, e).tasks[i] == s.tasks[i]
  {
    if e.StepCall? && e.task < |s.tasks| {
      assert OnlyTask(s, StepTask(reg, s, e.task, e.freshId, e.outcome), e.task);
    }
  }

  /**
    If a call acquired its key and was cancelled before it settled, the record is running for ever after, and no other
    call with this key is ever started: not at all, if the cancelled call itself had not started its skill.
   */
  lemma {:induction false} AbandonedKeyBlocksForever(reg: Registry, s: State, events: seq<Event>, i: nat)
    requires Inv(reg, s) && i < |s.tasks|
    requires s.tasks[i].pc.Cancelled? && s.tasks[i].acquired && s.tasks[i].written == None
    ensures KeyOf(reg, s.tasks[i].call).Some?
    ensures var key, later := KeyOf(reg, s.tasks[i].call).value, Execute(reg, s, events);
            && key in later.records && later.records[key] == Record.Running
            && forall j :: j in later.runs && j < |later.tasks| && KeyOf(reg, later.tasks[j].call) == Some(key) ==>
                 j == i && s.tasks[i].started
    decreases |events|
  {
    assert Staged(reg, s.tasks[i]) && Backed(reg, s.table, s.records, s.tasks[i]);
    if events == [] {
      forall j | j in s.runs && j < |s.tasks| && KeyOf(reg, s.tasks[j].call) == KeyOf(reg, s.tasks[i].call)
        ensures j == i && s.tasks[i].started
      {
        var a :| 0 <= a < |s.runs| && s.runs[a] == j;
        assert Staged(reg, s.tasks[j]);
        assert i < j || j < i || i == j;
      }
    } else {
      NextKeepsInv(reg, s, events[0]);
      CancelledStays(reg, s, events[0], i);
      AbandonedKeyBlocksForever(reg, Next(reg, s, events[0]), events[1..], i);
    }
  }

  /** The steps that an uncancelled holder of a key still has to make until its outcome is recorded. */
  function StepsToSettle(pc: Pc): nat {
    match pc
    case Launch => 3
    case Running => 2
    case Settle(_) => 1
    case _ => 0
  }

  /** Left alone, the holder of a key records an outcome. */
  lemma HolderSettles(reg: Registry, s: State, i: nat, freshId: string, outcome: Outcome)
    requires i < |s.tasks| && KeyOf(reg, s.tasks[i].call).Some?
    requires s.tasks[i].pc.Launch? || s.tasks[i].pc.Running? || s.tasks[i].pc.Settle?
    ensures var key, end := KeyOf(reg, s.tasks[i].call).value,
                            Drive(reg, s, i, freshId, outcome, StepsToSettle(s.tasks[i].pc));
            key in end.records && !end.records[key].Running?
    decreases StepsToSettle(s.tasks[i].pc)
  {
    var next := StepTask(reg, s, i, freshId, outcome);
    if s.tasks[i].pc.Settle? {
      WriteReplaces(s.records, KeyOf(reg, s.tasks[i].call).value, s.tasks[i].pc.outcome);
      assert Drive(reg, next, i, freshId, outcome, 0) == next;
    } else {
      HolderSettles(reg, next, i, freshId, outcome);
    }
  }

  /** The task that acquired a running record's key: it is about to start, running, about to settle, or cancelled. */
  lemma HolderOf(reg: Registry, s: State, key: Key) returns (i: nat)
    requires Inv(reg, s) && key in s.records && s.records[key].Running?
    ensures i < |s.tasks| && s.tasks[i].acquired && KeyOf(reg, s.tasks[i].call) == Some(key)
    ensures s.tasks[i].written == None
    ensures s.tasks[i].pc.Launch? || s.tasks[i].pc.Running? || s.tasks[i].pc.Settle? || s.tasks[i].pc.Cancelled?
  {
    assert BegunBySome(reg, s.tasks, key);
    i :| 0 <= i < |s.tasks| && s.tasks[i].acquired && KeyOf(reg, s.tasks[i].call) == Some(key);
    assert Staged(reg, s.tasks[i]) && Backed(reg, s.table, s.records, s.tasks[i]);
  }

  /** The record is running in this state and in every continuation. */
  ghost predicate BlockedForever(reg: Registry, s: State, key: Key) {
    forall events :: key in Execute(reg, s, events).records && Execute(reg, s, events).records[key].Running?
  }

  /** A running record stays running in every continuation exactly if the call that acquired its key was cancelled. */
  lemma BlockedForeverExactlyWhen(reg: Registry, s: State, key: Key)
    requires Reachable(reg, s) && key in s.records && s.records[key].Running?
    ensures BlockedForever(reg, s, key) <==>
            exists i :: 0 <= i < |s.tasks| && s.tasks[i].acquired && KeyOf(reg, s.tasks[i].call) == Some(key)
                        && s.tasks[i].pc.Cancelled?
  {
    ReachableInv(reg, s);
    var i := HolderOf(reg, s, key);
    if s.tasks[i].pc.Cancelled? {
      forall events ensures key in Execute(reg, s, events).records && Execute(reg, s, events).records[key].Running? {
        AbandonedKeyBlocksForever(reg, s, events, i);
      }
    } else {
      var n := StepsToSettle(s.tasks[i].pc);
      HolderSettles(reg, s, i, "", TimedOut);
      DriveIsExecution(reg, s, i, "", TimedOut, n);
      assert !BlockedForever(reg, s, key);
      forall j | 0 <= j < |s.tasks| && s.tasks[j].acquired && KeyOf(reg, s.tasks[j].call) == Some(key) ensures j == i {
        assert i < j || j < i || i == j;
      }
    }
  }

  /** A finished record never changes again. */
  lemma {:induction false} FinishedRecordStays(reg: Registry, s: State, events: seq<Event>, key: Key)
    requires Inv(reg, s) && key in s.records && !s.records[key].Running?
    ensures key in Execute(reg, s, events).records && Execute(reg, s, events).records[key] == s.records[key]
    decreases |events|
  {
    if events == [] {
    } else {
      NextKeepsInv(reg, s, events[0]);
      EventMoves(reg, s, events[0]);
      FinishedRecordStays(reg, Next(reg, s, events[0]), events[1..], key);
    }
  }

  /** A consumed approval never changes again. */
  lemma {:induction false} ConsumedApprovalStays(reg: Registry, s: State, events: seq<Event>, id: string)
    requires Inv(reg, s) && id in s.table && s.table[id].status == Consumed
    ensures id in Execute(reg, s, events).table && Execute(reg, s, events).table[id] == s.table[id]
    decreases |events|
  {
    if events == [] {
    } else {
      NextKeepsInv(reg, s, events[0]);
      EventMoves(reg, s, events[0]);
      ConsumedApprovalStays(reg, Next(reg, s, events[0]), events[1..], id);
    }
  }

  // ---------- Uninterrupted calls ----------

  /** `n` consecutive steps of task `i`. */
  function Drive(reg: Registry, s: State, i: nat, freshId: string, outcome: Outcome, n: nat): State
    decreases n
  {
    if n == 0 || i >= |s.tasks| then s
    else Drive(reg, StepTask(reg, s, i, freshId, outcome), i, freshId, outcome, n - 1)
  }

  /** Driving a task is one of the executions that the safety results are about. */
  lemma {:induction false} DriveIsExecution(reg: Registry, s: State, i: nat, freshId: string, outcome: Outcome, n: nat)
    requires i < |s.tasks|
    ensures Drive(reg, s, i, freshId, outcome, n) == Execute(reg, s, seq(n, k => StepCall(i, freshId, outcome)))
    decreases n
  {
    var events: seq<Event> := seq(n, k => StepCall(i, freshId, outcome));
    if n > 0 {
      var next := StepTask(reg, s, i, freshId, outcome);
      assert OnlyTask(s, next, i);
      DriveIsExecution(reg, next, i, freshId, outcome, n - 1);
      assert events[0] == StepCall(i, freshId, outcome);
      assert events[1..] == seq(n - 1, k => StepCall(i, freshId, outcome));
    }
  }

  lemma {:induction false} DriveSplits(reg: Registry, s: State, i: nat, freshId: string, outcome: Outcome, m: nat,
                                       n: nat)
    ensures Drive(reg, s, i, freshId, outcome, m + n) ==
            Drive(reg, Drive(reg, s, i, freshId, outcome, m), i, freshId, outcome, n)
    decreases m
  {
    if m == 0 || i >= |s.tasks| {
    } else {
      DriveSplits(reg, StepTask(reg, s, i, freshId, outcome), i, freshId, outcome, m - 1, n);
    }
  }
}
