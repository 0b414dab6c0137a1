/**
  The guarded execution protocol as a transition system. Any number of `execute` and `approve` calls are in flight; each
  step is one store call, one clock reading or one stretch of code between two awaits, and any call may be cancelled
  between its steps.
 */
module SkillExecution {
  import opened Wrappers
  import opened Approval
  import opened Idempotency

  const AGENT_QUERY := "data_query"
  const AGENT_EXEC := "biz_exec"

  datatype Spec = Spec(readOnly: bool, sideEffect: bool, idempotent: bool, approvalRequired: bool,
                       requiredScopes: set<string>)

  type Registry = map<string, Spec>

  /** The caller's identity. `scopes` are the effective ones; `approval` is whatever grant value the caller holds. */
  datatype Context = Context(agent: string, taskId: string, tenant: string, store: string, user: string,
                             trusted: bool, scopes: set<string>, approval: Option<Grant>)

  /** One call of `execute`; `params` is `None` when input validation rejects them. */
  datatype Call = Call(skill: string, context: Option<Context>, params: Option<string>)

  datatype OutputCheck = NoOutputModel | OutputRejected | OutputAccepted(data: string)

  /** How a skill's `run` can end. */
  datatype Outcome = TimedOut | Raised | NotASkillResult | Returned(result: SkillResult, check: OutputCheck)

  datatype Reply = Error(code: string) | ApprovalNeeded(id: string) | Result(result: SkillResult) | Replay(result: SkillResult)

  /** Where a call is suspended. */
  datatype Pc =
    | Entry
    | Lookup                       // awaiting the idempotency record
    | NewApproval                  // about to build a pending approval
    | InsertApproval(row: Request) // awaiting its insertion
    | GrantChecks                  // about to check the caller's grant
    | ConsumeGrant(at: Time)       // awaiting the conditional update, with the time read before it
    | Acquire                      // awaiting the idempotency insertion
    | Launch                       // about to start the skill
    | Running                      // awaiting the skill
    | Settle(outcome: Outcome)     // awaiting the idempotency write
    | Report(reply: Reply)         // awaiting the last audit event
    | Done(reply: Reply)
    | Cancelled

  /** A call in flight, with what it has already done to the shared state. */
  datatype Task = Task(call: Call, pc: Pc, consumed: bool, acquired: bool, refused: bool, started: bool,
                       written: Option<Record>)

  datatype ApproverPc = ReadRow | Decide(found: Option<Request>) | UpdateRow(at: Time, reason: string) | Finished

  /** One call of `approve` in flight; `updated` says that its update hit the row. */
  datatype Approver = Approver(id: string, sec: Security, pc: ApproverPc, updated: bool)

  /** `runs` records, in order, the tasks whose skill was started. */
  datatype State = State(table: Table, records: Records, now: Time, tasks: seq<Task>, approvers: seq<Approver>,
                         runs: seq<nat>)

  // ---------- Pure parts of `execute` ----------

  predicate Protected(spec: Spec) {
    !spec.readOnly || spec.sideEffect || spec.requiredScopes != {} || spec.approvalRequired
  }

  /** `_permission_denied_reason` and the scope check find nothing to object to. */
  predicate Permitted(spec: Spec, context: Option<Context>) {
    if !Protected(spec) then
      context.None? || context.value.agent in {AGENT_QUERY, AGENT_EXEC}
    else
      && context.Some?
      && !(context.value.agent == AGENT_QUERY && !(spec.readOnly && !spec.sideEffect))
      && context.value.trusted
      && context.value.tenant != "" && context.value.store != "" && context.value.user != ""
      && context.value.agent in {AGENT_QUERY, AGENT_EXEC}
      && spec.requiredScopes <= context.value.scopes
  }

  /** The call passes every check made before the first await. */
  predicate Admitted(reg: Registry, call: Call) {
    call.skill in reg && Permitted(reg[call.skill], call.context) && call.params.Some?
  }

  predicate NeedsApproval(reg: Registry, call: Call) {
    call.skill in reg && reg[call.skill].approvalRequired
  }

  /** The idempotency key, for calls that have one. */
  function KeyOf(reg: Registry, call: Call): Option<Key> {
    if Admitted(reg, call) && reg[call.skill].idempotent && Protected(reg[call.skill])
    then Some(Key(call.context.value.tenant, call.context.value.store, call.context.value.taskId, call.skill,
                  call.params.value))
    else None
  }

  function HashOf(call: Call): ParamsHash
    requires call.params.Some?
  {
    ParamsHash(call.skill, call.params.value)
  }

  function EntryChecks(reg: Registry, call: Call): Pc {
    if call.skill !in reg then Done(Error("SKILL_NOT_FOUND"))
    else if !Permitted(reg[call.skill], call.context) then Done(Error("PERMISSION_DENIED"))
    else if call.params.None? then Done(Error("VALIDATION_ERROR"))
    else if KeyOf(reg, call).Some? then Lookup
    else AfterLookup(reg, call)
  }

  function AfterLookup(reg: Registry, call: Call): Pc
    requires Admitted(reg, call)
  {
    if !reg[call.skill].approvalRequired then AfterApproval(reg, call)
    else if call.context.value.approval.None? then NewApproval
    else GrantChecks
  }

  function AfterApproval(reg: Registry, call: Call): Pc {
    if KeyOf(reg, call).Some? then Acquire else Launch
  }

  function AfterRecord(reg: Registry, call: Call, records: Records): Pc
    requires KeyOf(reg, call).Some?
  {
    var key := KeyOf(reg, call).value;
    if key !in records then AfterLookup(reg, call)
    else if records[key].Succeeded? then Done(Replay(records[key].result))
    else Done(Error("ALREADY_EXECUTED"))
  }

  function ErrorName(error: Approval.Error): string {
    match error
    case GrantExpired => "APPROVAL_EXPIRED"
    case AlreadyUsed => "APPROVAL_ALREADY_USED"
    case _ => "APPROVAL_INVALID"
  }

  /** The final result of a returned skill, or the error that replaces it. */
  function FinalReply(outcome: Outcome): Reply {
    match outcome
    case TimedOut => Error("SKILL_TIMEOUT")
    case Raised => Error("SKILL_EXECUTION_ERROR")
    case NotASkillResult => Error("OUTPUT_VALIDATION_ERROR")
    case Returned(result, check) =>
      if !result.success then
        Result(if result.errorCode == "" then result.(errorCode := "SKILL_FAILED") else result)
      else match check
        case NoOutputModel => Result(result)
        case OutputRejected => Error("OUTPUT_VALIDATION_ERROR")
        case OutputAccepted(data) => Result(result.(data := data))
  }

  /** The record that a finished run leaves. */
  function FinalRecord(outcome: Outcome): Record {
    match FinalReply(outcome)
    case Result(result) => if result.success then Succeeded(result) else Failed(result.errorCode)
    case Error(code) => Failed(code)
    case _ => Failed("")
  }

  // ---------- Transitions ----------

  datatype Event =
    | Tick(elapsed: nat)
    | StartCall(call: Call)
    | StepCall(task: nat, freshId: string, outcome: Outcome)
    | CancelCall(task: nat)
    | StartApproval(id: string, sec: Security)
    | StepApproval(approver: nat)
    | CancelApproval(approver: nat)

  function Initial(now: Time): State {
    State(map[], map[], now, [], [], [])
  }

  function WithTask(s: State, i: nat, t: Task): State
    requires i < |s.tasks|
  {
    s.(tasks := s.tasks[i := t])
  }

  /** `complete` or `fail`, as the record says. */
  function Write(records: Records, key: Key, record: Record): Records {
    match record
    case Succeeded(result) => Complete(records, key, result)
    case Failed(code) => Fail(records, key, code)
    case Running => records
  }

  /** No task other than `i` differs, and no approver. */
  ghost predicate OnlyTask(s: State, next: State, i: nat) {
    && next.approvers == s.approvers
    && |next.tasks| == |s.tasks| && forall j :: 0 <= j < |s.tasks| && j != i ==> next.tasks[j] == s.tasks[j]
  }

  function SuspendAt(s: State, i: nat, pc: Pc): (next: State)
    requires i < |s.tasks|
    ensures OnlyTask(s, next, i)
  {
    WithTask(s, i, s.tasks[i].(pc := pc))
  }

  function LookUpRecord(reg: Registry, s: State, i: nat): (next: State)
    requires i < |s.tasks|
    ensures OnlyTask(s, next, i)
  {
    var call := s.tasks[i].call;
    if KeyOf(reg, call).None? then s else SuspendAt(s, i, AfterRecord(reg, call, s.records))
  }

  function BuildApproval(s: State, i: nat, freshId: string): (next: State)
    requires i < |s.tasks|
    ensures OnlyTask(s, next, i)
  {
    var call := s.tasks[i].call;
    if call.context.None? || call.params.None? then s else
    var c := call.context.value;
    SuspendAt(s, i, InsertApproval(
      NewRequest(freshId, c.taskId, c.tenant, c.store, c.user, call.skill, HashOf(call), s.now)))
  }

  function StoreApproval(s: State, i: nat, row: Request): (next: State)
    requires i < |s.tasks|
    ensures OnlyTask(s, next, i)
  {
    if row.id in s.table then SuspendAt(s, i, Done(Error("SKILL_EXECUTION_ERROR")))
    else SuspendAt(s.(table := s.table[row.id := row]), i, Done(ApprovalNeeded(row.id)))
  }

  function CheckCallersGrant(s: State, i: nat): (next: State)
    requires i < |s.tasks|
    ensures OnlyTask(s, next, i)
  {
    var call := s.tasks[i].call;
    if call.context.None? || call.context.value.approval.None? || call.params.None? then s else
    var c := call.context.value;
    var failure := CheckGrant(c.approval.value, c.tenant, c.store, call.skill, HashOf(call), s.now);
    SuspendAt(s, i, if failure.Some? then Done(Error(ErrorName(failure.value))) else ConsumeGrant(s.now))
  }

  function ConsumeApproval(reg: Registry, s: State, i: nat, at: Time): (next: State)
    requires i < |s.tasks|
    ensures OnlyTask(s, next, i)
  {
    var t := s.tasks[i];
    var call := t.call;
    if call.context.None? || call.context.value.approval.None? || call.params.None? then s else
    var c := call.context.value;
    var id := c.approval.value.id;
    if CanConsume(s.table, id, c.tenant, c.store, call.skill, HashOf(call), at) then
      WithTask(s.(table := ConsumeUpdate(s.table, id, c.tenant, c.store, call.skill, HashOf(call), at)), i,
               t.(pc := AfterApproval(reg, call), consumed := true))
    else SuspendAt(s, i, Done(Error(ErrorName(AlreadyUsed))))
  }

  function AcquireKey(reg: Registry, s: State, i: nat): (next: State)
    requires i < |s.tasks|
    ensures OnlyTask(s, next, i)
  {
    var t := s.tasks[i];
    if KeyOf(reg, t.call).None? then s else
    var key := KeyOf(reg, t.call).value;
    if key in s.records then WithTask(s, i, t.(pc := Done(Error("ALREADY_EXECUTED")), refused := true))
    else WithTask(s.(records := Begin(s.records, key)), i, t.(pc := Launch, acquired := true))
  }

  function StartSkill(s: State, i: nat): (next: State)
    requires i < |s.tasks|
    ensures OnlyTask(s, next, i)
  {
    WithTask(s.(runs := s.runs + [i]), i, s.tasks[i].(pc := Pc.Running, started := true))
  }

  function EndSkill(reg: Registry, s: State, i: nat, outcome: Outcome): (next: State)
    requires i < |s.tasks|
    ensures OnlyTask(s, next, i)
  {
    SuspendAt(s, i, if KeyOf(reg, s.tasks[i].call).Some? then Settle(outcome) else Report(FinalReply(outcome)))
  }

  function StoreOutcome(reg: Registry, s: State, i: nat, outcome: Outcome): (next: State)
    requires i < |s.tasks|
    ensures OnlyTask(s, next, i)
  {
    var t := s.tasks[i];
    if KeyOf(reg, t.call).None? then s else
    WithTask(s.(records := Write(s.records, KeyOf(reg, t.call).value, FinalRecord(outcome))), i,
             t.(pc := Report(FinalReply(outcome)), written := Some(FinalRecord(outcome))))
  }

  /** The next step of task `i`. `freshId` and `outcome` are the outside world's choices, used where they apply. */
  function StepTask(reg: Registry, s: State, i: nat, freshId: string, outcome: Outcome): (next: State)
    requires i < |s.tasks|
    ensures OnlyTask(s, next, i)
  {
    match s.tasks[i].pc
    case Entry => SuspendAt(s, i, EntryChecks(reg, s.tasks[i].call))
    case Lookup => LookUpRecord(reg, s, i)
    case NewApproval => BuildApproval(s, i, freshId)
    case InsertApproval(row) => StoreApproval(s, i, row)
    case GrantChecks => CheckCallersGrant(s, i)
    case ConsumeGrant(at) => ConsumeApproval(reg, s, i, at)
    case Acquire => AcquireKey(reg, s, i)
    case Launch => StartSkill(s, i)
    case Running => EndSkill(reg, s, i, outcome)
    case Settle(ended) => StoreOutcome(reg, s, i, ended)
    case Report(reply) => SuspendAt(s, i, Done(reply))
    case Done(_) => s
    case Cancelled => s
  }

  function StepApprover(s: State, i: nat): State
    requires i < |s.approvers|
  {
    var a := s.approvers[i];
    match a.pc
    case ReadRow => s.(approvers := s.approvers[i := a.(pc := Decide(Find(s.table, a.id, a.sec)))])
    case Decide(found) =>
      var decision := DecideApproval(found, a.sec, s.now);
      s.(approvers := s.approvers[i := a.(pc :=
        if decision.Attempt? then UpdateRow(s.now, decision.reason) else Finished)])
    case UpdateRow(at, reason) =>
      s.(table := ApproveUpdate(s.table, a.id, a.sec, at, reason),
         approvers := s.approvers[i := a.(pc := Finished, updated := CanApprove(s.table, a.id, a.sec, at))])
    case Finished => s
  }

  function Next(reg: Registry, s: State, e: Event): State {
    match e
    case Tick(elapsed) => s.(now := s.now + elapsed)
    case StartCall(call) => s.(tasks := s.tasks + [Task(call, Entry, false, false, false, false, None)])
    case StepCall(i, freshId, outcome) => if i < |s.tasks| then StepTask(reg, s, i, freshId, outcome) else s
    case CancelCall(i) =>
      if i < |s.tasks| && !s.tasks[i].pc.Done? then WithTask(s, i, s.tasks[i].(pc := Cancelled)) else s
    case StartApproval(id, sec) => s.(approvers := s.approvers + [Approver(id, sec, ReadRow, false)])
    case StepApproval(i) => if i < |s.approvers| then StepApprover(s, i) else s
    case CancelApproval(i) =>
      if i < |s.approvers| then s.(approvers := s.approvers[i := s.approvers[i].(pc := Finished)]) else s
  }

  /** The state after a sequence of events. */
  function Execute(reg: Registry, s: State, events: seq<Event>): State
    decreases |events|
  {
    if events == [] then s else Execute(reg, Next(reg, s, events[0]), events[1..])
  }
}
