# E-commerce agent matrix: a verified model

This project models the parts of the e-commerce agent matrix whose correctness is hardest to see from the code, and
proves what they are relied on for. `dafny verify dfyconfig.toml` checks everything.

## What is modelled

**Guarded skill execution** (`Approval`, `Idempotency`, `SkillExecution`, `SkillExecutionLaws`, `ApprovalLaws`,
`UninterruptedCalls`). `SkillExecutor.execute` reads the idempotency record, consumes an approval, acquires the
idempotency key, runs the skill and records the outcome. Every one of these is an await. The model is a transition
system with any number of `execute` and `approve` calls in flight. A step is one statement on a store, one clock
reading, or one stretch of code between two awaits; time may pass and any call may be cancelled between any two steps.
The only atomic operations are the conditional `UPDATE` of an approval row and the insert-if-absent of an idempotency
record. The results hold in every reachable state.

**Master plans** (`MasterPlan`, `MasterPolicy`, `WaveSchedule`, `WaveLaws`, `WaveOutcomes`, `FailingSets`,
`MasterExecutor`, `MasterExecutorLaws`). The validator's depth-first search with its two mutable sets, the wave
scheduler over the dictionary of results, and resume. The agents are a function from a step and its successful upstream
results to a reply. The scheduler's loop is proved equal to a recursive description of its iterations, and the laws are
proved of that description.

**SQL scripts** (`SqlTokens`, `SqlSplitter`, `SqlSplitterLaws`, `SqlEquations`, `SqlRoundTrip`). The splitter's loop
with its index, buffer and four flags is proved to return the trimmed, non-blank pieces between the top-level semicolons
of a token grammar that is stated without the loop.

**Retrieval, linking and grounding** (`Rrf`, `RagEvaluation`, `RankedOrder`, `SchemaLinker`, `LinkLaws`,
`EvidenceStore`, `Grounding`, `EvidenceSynthesis`, `SemanticScorer`, `SqlRepair`). Rank fusion, retrieval metrics, the
selection and foreign-key expansion of the schema linker, the evidence store with its claims and grounding check, the
shared vector cache under interleaved calls, and the bounded SQL repair loop. `Wrappers`, `Sequences` and `Reals` hold
an option type and facts about sequences and real numbers.

## What the proofs found

- **A skipped dependency can be overlooked.** The skip pass of the scheduler walks the plan in list order once. If a
  step is listed before its dependency, and that dependency is skipped in the same pass, the step is sent although a
  required dependency was skipped (`MasterExecutor.BackwardListingSendsBlockedStep`). A listing is *skip-safe* if this
  cannot happen in any single pass; that is checked on the list before the run, and every listing with dependencies
  first is skip-safe. The recursive rule "skipped if a required dependency failed or was skipped" is then met as follows.
  The loop follows it from all starting dictionaries with nothing in flight exactly if the listing is skip-safe
  (`WaveLaws.FaithfulIffSkipSafe`), and so does resume for all earlier results with nothing in flight
  (`MasterExecutor.ResumeFaithfulIffSkipSafe`). `execute` starts from fresh entries only. For it skip-safety is
  sufficient but not necessary (`MasterExecutorLaws.UnsafeListingMayBeHandled`); it follows the rule for all agents
  exactly if none of the finitely many sets of failing steps makes it send a step past a skipped required dependency
  (`MasterExecutorLaws.ExecuteFollowsRuleExactlyWhen`), because the schedule depends on the agents only through the set
  of steps that fail (`FailingSets.EveryScheduleIsFixed`).
- **An abandoned key blocks its call forever.** A call cancelled between acquiring its idempotency key and recording the
  outcome leaves the record `running`; no call with this key ever starts again
  (`SkillExecutionLaws.AbandonedKeyBlocksForever`). This is the only way: a running record stays running in every
  continuation exactly if the call that acquired its key was cancelled (`SkillExecutionLaws.BlockedForeverExactlyWhen`).
- **The resume test on agent and task type has no effect.** Resume asks whether a successful entry has the step's agent
  and task type, but its fallback keeps an entry that fails this test as well (`MasterExecutor.BuildResumeSeed`).
- **nDCG can leave its range.** It is at most 1 for every discount exactly when the top k hold no more relevant places
  than there are relevant items (`RagEvaluation.NdcgWithinOneExactlyWhen`). One relevant id listed twice makes the
  evaluation raise, because the metrics record rejects values above 1 (`RagEvaluation.RepeatedItemRaises`).
- **The linker's limit can be exceeded by one**, exactly if the question asks for a join, the selection is full and the
  first relation reaches one more strong table (`SchemaLinker.LimitExceededExactlyWhen`).
- **Synthesis can fail its own grounding check**, exactly if a record it uses is contradictory or one of the first five
  documents yields a text that states a quantity (`EvidenceSynthesis.GroundedExactlyIfClean`).
- **Removing a comment can create one.** `-/**/-` splits into the statement `--`, which no longer splits into itself
  (`SqlSplitterLaws.RemovedCommentGluesDashes`). Joining a list of statements and splitting the text gives the list back
  exactly if every statement is trimmed, not empty, and reads on its own without comment, semicolon or open token, where
  the last one may leave a token open (`SqlRoundTrip.SplitUndoesJoinExactlyWhen`). Splitting a text is therefore stable
  exactly if the statements it gives read on their own in this way (`SqlRoundTrip.SplitIsStableExactlyWhen`). A text
  without comments and open tokens always passes (`SqlSplitterLaws.SplitIsStable`).

## Model

| member | source | states |
|---|---|---|
| `Approval.ApprovalService.CreatePending` | ecom_agent_matrix/core/security/approval.py:62-116 | A new pending row with its expiry is stored, or nothing changes; all rows keep their history. |
| `Approval.ApprovalService.Approve` | ecom_agent_matrix/core/security/approval.py:131-205 | A grant is handed out exactly for an approved row of this tenant and store, or a pending, unexpired one that this user may approve; then the row becomes approved by them now, with the self-approval reason exactly for an own request. The grant names the row field by field. Each error has its own condition. |
| `Approval.ApprovalService.GetGrant` | ecom_agent_matrix/core/security/approval.py:207-223 | A grant, with the row's fields, exactly for an approved, unexpired row of the tenant and store; invalid and expired are told apart. |
| `Approval.ApprovalService.Consume` | ecom_agent_matrix/core/security/approval.py:225-255 | Expired exactly if the grant is; invalid exactly if an unexpired grant is for another tenant, store, skill or parameters; consumed exactly if also its row is approved, unexpired and for the same; then the row can never be consumed again. Requester and task are not compared. |
| `Approval.GrantIsConsumed` | ecom_agent_matrix/core/security/approval.py:225-255 | A grant that names an approved, unexpired row is accepted for the row's own tenant, store, skill and parameters, and consumes the row. |
| `Approval.ApproveKeeps` | ecom_agent_matrix/core/security/approval.py:172-182 | The approving update keeps every row well formed and moves rows forward only. |
| `Approval.ConsumeKeeps` | ecom_agent_matrix/core/security/approval.py:244-253 | The consuming update keeps every row well formed and moves rows forward only. |
| `Approval.AttemptIsSound` | ecom_agent_matrix/core/security/approval.py:152-171 | An update is attempted only on a pending, unexpired row, and on the requester's own row only by an administrator, with that reason recorded. |
| `Idempotency.MemoryIdempotencyStore.Get` | ecom_agent_matrix/core/skill/idempotency.py:50-51 | The record of a key, if there is one. |
| `Idempotency.MemoryIdempotencyStore.BeginRun` | ecom_agent_matrix/core/skill/idempotency.py:53-58 | Only the first caller of a key acquires it; the others change nothing. |
| `Idempotency.MemoryIdempotencyStore.CompleteRun` | ecom_agent_matrix/core/skill/idempotency.py:60-61 | The record becomes succeeded with this result; no other record changes. |
| `Idempotency.MemoryIdempotencyStore.FailRun` | ecom_agent_matrix/core/skill/idempotency.py:63-64 | The record becomes failed with this code; no other record changes. |
| `Idempotency.StoresAgree` | ecom_agent_matrix/core/skill/idempotency.py:67-121 | For callers that scope by the tenant and store in the key and write only after acquiring, the database store answers as the in-memory store does and stays its mirror. |
| `Idempotency.ForeignScopeIsShutOut` | ecom_agent_matrix/core/skill/idempotency.py:67-121 | A caller of another tenant or store neither sees, takes nor changes a record. |
| `SkillExecutionLaws.TaskStepKeepsInv` | ecom_agent_matrix/core/skill/executor.py:93-372 | Each step of a call keeps the global invariant that ties program counters to rows, records and starts. |
| `SkillExecutionLaws.ApproverStepKeepsInv` | ecom_agent_matrix/core/security/approval.py:131-205 | Each step of an approval call keeps the invariant, although the row may change between its read and its update. |
| `SkillExecutionLaws.ExecuteKeepsInv` | ecom_agent_matrix/core/skill/executor.py:62-372 | Every sequence of steps, clock ticks, new calls and cancellations keeps the invariant. |
| `SkillExecutionLaws.OneRunPerApproval` | ecom_agent_matrix/core/skill/executor.py:163-246 | In every reachable state, two starts of approval-required skills never share an approval id. |
| `SkillExecutionLaws.OneRunPerKey` | ecom_agent_matrix/core/skill/executor.py:225-246 | In every reachable state, two starts never share an idempotency key. |
| `ApprovalLaws.ExecuteKeepsApprovalInv` | ecom_agent_matrix/core/security/approval.py:131-205 | In every execution, each approved or consumed row was updated by an `approve` call of its tenant and store by the user it names, and no unfinished call has updated a row. |
| `ApprovalLaws.ApprovedByAnEntitledCall` | ecom_agent_matrix/core/security/approval.py:152-182 | In every reachable state, each approved or consumed row has such a call behind it; an administrator's, if the user approved their own request. |
| `ApprovalLaws.ApprovedRunsAreBound` | ecom_agent_matrix/core/skill/executor.py:195-202 | Whatever grant the caller holds, a started approval-required skill has a stored approval of its tenant, store, skill and parameters, given by such an entitled call and consumed, both before expiry; the caller is trusted and has the scopes. |
| `SkillExecutionLaws.FinishedRunIsRecorded` | ecom_agent_matrix/core/skill/executor.py:247-372 | When a run with a key has replied, its record is in the store and says what the caller was told: the result of a success, or the error code. |
| `SkillExecutionLaws.ReplayIsTheOneRunsResult` | ecom_agent_matrix/core/skill/executor.py:149-154 | A replay returns what the one started run of its key stored as its success, and what that run's caller was told. |
| `SkillExecutionLaws.Conservation` | ecom_agent_matrix/core/skill/executor.py:195-246 | For any set of skills, consumed approvals = starts + refused acquisitions + calls in flight or cancelled in between. |
| `SkillExecutionLaws.EventMoves` | ecom_agent_matrix/core/skill/executor.py:225-240 | In one event a record moves only from absent to running to finished, and a row only from pending to approved to consumed. |
| `SkillExecutionLaws.CancelledStays` | ecom_agent_matrix/core/skill/executor.py:242-295 | A cancelled call is never touched again: cancellation is not caught. |
| `SkillExecutionLaws.AbandonedKeyBlocksForever` | ecom_agent_matrix/core/skill/executor.py:225-246 | A call cancelled after acquiring its key leaves it running forever, and no other call with the key ever starts. |
| `SkillExecutionLaws.BlockedForeverExactlyWhen` | ecom_agent_matrix/core/skill/executor.py:225-372 | A running record stays running in every continuation exactly if the call that acquired its key was cancelled; otherwise that call can still settle it. |
| `SkillExecutionLaws.FinishedRecordStays` | ecom_agent_matrix/core/skill/idempotency.py:53-64 | A succeeded or failed record never changes again, in any execution. |
| `SkillExecutionLaws.ConsumedApprovalStays` | ecom_agent_matrix/core/security/approval.py:244-253 | A consumed row never changes again, in any execution. |
| `UninterruptedCalls.AdmittedExactlyWhen` | ecom_agent_matrix/core/skill/executor.py:416-444 | Who may call which skill: a pure read by anyone or an executing agent, everything else only with a trusted, complete identity and all scopes, the query agent only to read. |
| `UninterruptedCalls.KeyExactlyWhen` | ecom_agent_matrix/core/skill/executor.py:136-148 | A call has an idempotency key exactly if it is admissible and its skill is idempotent and not a pure read; the key consists of tenant, store, task, skill and parameters. |
| `UninterruptedCalls.SameKeyExactlyWhen` | ecom_agent_matrix/core/skill/idempotency.py:32-42 | Two such calls share a key exactly if they agree in these five. |
| `UninterruptedCalls.StartedOnlyIfAdmissible` | ecom_agent_matrix/core/skill/executor.py:82-134 | In every reachable state, every started skill was called by someone who may call it, with valid parameters. |
| `UninterruptedCalls.OneRunPerIdentity` | ecom_agent_matrix/core/skill/executor.py:225-246 | In every reachable state, two starts of such calls differ in tenant, store, task, skill or parameters. |
| `UninterruptedCalls.SucceedsExactlyWhen` | ecom_agent_matrix/core/skill/executor.py:247-356 | A run is recorded and told as a success exactly if the skill returned one and its output was not rejected; every other ending has its own error code in reply and record. |
| `UninterruptedCalls.InadmissibleCallIsRefused` | ecom_agent_matrix/core/skill/executor.py:76-134 | An unknown skill, a caller without permission and invalid parameters are refused in this order, each with its code, and nothing changes. |
| `UninterruptedCalls.GoodCallCompletes` | ecom_agent_matrix/core/skill/executor.py:136-372 | An uninterrupted admissible call that needs no approval or has a good grant, and whose key is unused, starts its skill once, consumes the approval, records the outcome under its key and replies with it, with or without approval and key. |
| `UninterruptedCalls.BadGrantIsRefused` | ecom_agent_matrix/core/skill/executor.py:195-216 | A grant that is expired, for another call, or no longer backed by its row is refused with its own error; nothing changes. |
| `UninterruptedCalls.TakenKeyRefuses` | ecom_agent_matrix/core/skill/executor.py:225-240 | Whoever finds the key taken when inserting it is refused, with the approval already used. |
| `UninterruptedCalls.UninterruptedApproval` | ecom_agent_matrix/core/security/approval.py:131-205 | An uninterrupted approval call approves the row exactly if its user may, and changes nothing else. |
| `UninterruptedCalls.CancellingStops` | ecom_agent_matrix/core/skill/executor.py:242-295 | Cancelling stops a call that has not replied where it stands, and undoes nothing. |
| `UninterruptedCalls.AskApproveRun` | ecom_agent_matrix/core/skill/executor.py:163-246 | A call without a grant asks; another user or an administrator approves; the same call with the grant, within ten minutes, starts the skill once and uses the approval up. |
| `UninterruptedCalls.LaterCallReplays` | ecom_agent_matrix/core/skill/executor.py:149-162 | A call whose key has a record replays a success and otherwise reports an earlier execution; nothing else changes. |
| `UninterruptedCalls.UngrantedCallAsks` | ecom_agent_matrix/core/skill/executor.py:163-194 | An admissible call without a grant stores one pending approval bound to its caller, skill and parameters for ten minutes, and starts nothing; it fails if the identifier is taken. |
| `MasterPlan.AcyclicIffOrdered` | ecom_agent_matrix/orchestration/master/policy.py:126-142 | A closed graph has no cycle exactly if its nodes can be listed dependencies first. |
| `MasterPolicy.CycleCheck.constructor` | ecom_agent_matrix/orchestration/master/policy.py:126-128 | The search starts with both sets empty. |
| `MasterPolicy.CycleCheck.Visit` | ecom_agent_matrix/orchestration/master/policy.py:130-139 | Fails only if there is a cycle; otherwise the step and all it depends on are finished and the active calls are as before. Terminates on the steps outside both sets. |
| `MasterPolicy.CheckCycles` | ecom_agent_matrix/orchestration/master/policy.py:126-142 | Reports a cycle exactly if the graph has one. |
| `MasterPolicy.CheckStep` | ecom_agent_matrix/orchestration/master/policy.py:111-124 | The first rule that a step breaks, or none exactly if it is well formed. |
| `MasterPolicy.CheckSteps` | ecom_agent_matrix/orchestration/master/policy.py:110-124 | The first failure in list order, or none exactly if all steps are well formed. |
| `MasterPolicy.ValidateMasterPlan` | ecom_agent_matrix/orchestration/master/policy.py:101-143 | The verdict explains the plan: accepted only if valid, and each rejection only for its own reason. |
| `MasterPolicy.VerdictIsUnique` | ecom_agent_matrix/orchestration/master/policy.py:101-143 | No plan is explained by two verdicts, so acceptance and every rejection hold in both directions. |
| `MasterPolicy.DistinctByCardinality` | ecom_agent_matrix/orchestration/master/policy.py:106-108 | Comparing the number of ids with the size of their set tells exactly whether they are distinct. |
| `MasterExecutor.ValidPlanIsRunnable` | ecom_agent_matrix/orchestration/master/executor.py:104-115 | A validated plan gives the scheduler a linked, acyclic table of its steps. |
| `MasterExecutor.SkipBlocked` | ecom_agent_matrix/orchestration/master/executor.py:174-196 | The pass over the plan yields the specified dictionary, and its flag says whether anything changed. |
| `MasterExecutor.CollectReady` | ecom_agent_matrix/orchestration/master/executor.py:198-203 | The ready list holds, once each, exactly the pending steps whose dependencies have succeeded, failed or been skipped. |
| `MasterExecutor.DispatchWave` | ecom_agent_matrix/orchestration/master/executor.py:211-226 | After marking, asking and storing, each ready step has its agent's reply to the data of exactly its successful dependencies before the wave; every other entry is unchanged. |
| `MasterExecutor.Iterate` | ecom_agent_matrix/orchestration/master/executor.py:173-226 | One turn of the loop is one unfolding of the recursive run, or the error for a state with nothing to do. |
| `MasterExecutor.RunPlan` | ecom_agent_matrix/orchestration/master/executor.py:164-238 | The loop's report and its sequence of waves are those of the recursive run. |
| `MasterExecutor.SummarySaysWhich` | ecom_agent_matrix/orchestration/master/executor.py:228-238 | The report says exactly whether all steps succeeded, some but not all did, and whether one timed out. |
| `MasterExecutor.Execute` | ecom_agent_matrix/orchestration/master/executor.py:99-116 | An invalid plan sends nothing. A valid plan in any list order completes, and every step starts fresh and is either sent, after its dependencies, with its agent's reply as its entry, or skipped for a required dependency that failed or was skipped. |
| `MasterExecutor.BuildResumeSeed` | ecom_agent_matrix/orchestration/master/executor.py:135-161 | A finished or in-flight entry that is not retried is kept, every other step starts fresh; the agent and task type make no difference. |
| `MasterExecutor.Resume` | ecom_agent_matrix/orchestration/master/executor.py:118-162 | Unknown retry ids and invalid plans send nothing. Otherwise, if no entry was in flight, the run completes and explains each step from its kept or fresh entry as `Execute` does. |
| `MasterExecutor.ResumeRetries` | ecom_agent_matrix/orchestration/master/executor.py:135-162 | Every retried step, and every one that was missing, pending or skipped, is sent again or is skipped for a required dependency that failed or was skipped; all others are kept and not sent. |
| `MasterExecutor.ResumeKeepsFinishedSteps` | ecom_agent_matrix/orchestration/master/executor.py:135-162 | A finished step that is not retried is never sent again and keeps its entry. |
| `MasterExecutor.ResumeFollowsRule` | ecom_agent_matrix/orchestration/master/executor.py:118-162 | A resume of a skip-safe plan solves the recursive rule with the kept steps pinned. |
| `MasterExecutor.ResumeFaithfulIffSkipSafe` | ecom_agent_matrix/orchestration/master/executor.py:118-162 | For any agents, resume follows the recursive rule from all earlier results with nothing in flight, for all retry sets, exactly if the listing is skip-safe. |
| `MasterExecutor.EmptyResumeIsIdentity` | ecom_agent_matrix/orchestration/master/executor.py:118-162 | Resuming a finished run of a skip-safe plan with nothing to retry changes no entry and sends nothing, whatever the agents would say. |
| `MasterExecutor.EmptyResumeRepeats` | ecom_agent_matrix/orchestration/master/executor.py:99-162 | For a skip-safe plan, resuming what `execute` or an earlier resume returned, with nothing to retry, gives the same results and report and sends nothing. |
| `MasterExecutor.BackwardListingSendsBlockedStep` | ecom_agent_matrix/orchestration/master/executor.py:175-203 | Three required steps in a row, listed backwards with the last one failing: the middle one is skipped, yet the first is sent and succeeds. |
| `MasterExecutor.BackwardListingExists` | ecom_agent_matrix/orchestration/master/executor.py:175-203 | There are such steps and agents. |
| `MasterExecutorLaws.ExecuteFollowsRuleExactlyWhen` | ecom_agent_matrix/orchestration/master/executor.py:99-116 | `execute` follows the recursive rule for all agents exactly if for no set of failing steps a step is sent past a skipped required dependency; a skip-safe listing passes. |
| `MasterExecutorLaws.UnsafeListingMayBeHandled` | ecom_agent_matrix/orchestration/master/executor.py:164-238 | Five steps whose listing is not skip-safe and yet every run from fresh entries follows the rule. |
| `MasterExecutorLaws.TwoBranchesExist` | ecom_agent_matrix/orchestration/master/executor.py:164-238 | There are such steps. |
| `FailingSets.EveryScheduleIsFixed` | ecom_agent_matrix/orchestration/master/executor.py:173-226 | Every run sends the same waves and reaches the same statuses as the run in which just the steps that failed in it fail. |
| `FailingSets.FollowsForAllAgentsExactlyWhen` | ecom_agent_matrix/orchestration/master/executor.py:164-238 | From any one starting dictionary, the loop follows the rule for all agents exactly if for no set of failing steps a step is sent past a skipped required dependency. |
| `WaveSchedule.PendingShrinks` | ecom_agent_matrix/orchestration/master/executor.py:173-226 | An iteration that is not stuck decides at least one pending step. |
| `WaveSchedule.Progress` | ecom_agent_matrix/orchestration/master/executor.py:204-209 | For an acyclic plan with nothing in flight, a pass with pending steps left skips something or finds a ready step. |
| `WaveSchedule.SkipPassMonotone` | ecom_agent_matrix/orchestration/master/executor.py:175-196 | During the pass, entries that are decided stay as they are. |
| `WaveLaws.LoopIsTrace` | ecom_agent_matrix/orchestration/master/executor.py:173-226 | The recorded waves form a chain of iterations from the first dictionary to the last. |
| `WaveLaws.RunFinishesEveryStep` | ecom_agent_matrix/orchestration/master/executor.py:173-226 | For any list order of an acyclic plan, the run ends without the missing-ready-step error and with every step finished. |
| `WaveOutcomes.EveryStepIsExplained` | ecom_agent_matrix/orchestration/master/executor.py:173-226 | In any run without in-flight entries, for any list order: a step that does not start pending is kept; any other is sent when its dependencies have finished and ends with its agent's reply to the data of its successful ones, or is skipped and has a required dependency that failed or was skipped. |
| `WaveOutcomes.SafeListingSendsExactly` | ecom_agent_matrix/orchestration/master/executor.py:173-226 | In a skip-safe listing a pending step is sent exactly if no required dependency fails or is skipped. |
| `WaveLaws.DecidedStays` | ecom_agent_matrix/orchestration/master/executor.py:175-226 | Once a step is decided, its entry is the final one. |
| `WaveLaws.DispatchRule` | ecom_agent_matrix/orchestration/master/executor.py:198-203 | A sent step has finished dependencies, none of them in its own wave and no required one failed; a required skipped one was skipped in this very pass and is listed later. |
| `WaveLaws.EveryDispatchIsAllowed` | ecom_agent_matrix/orchestration/master/executor.py:173-226 | This holds of every dispatch of every run in any list order, and each step is sent at most once and only if it was pending. |
| `WaveLaws.IterationsBoundedByChain` | ecom_agent_matrix/orchestration/master/executor.py:173-226 | The loop makes at most as many iterations as the longest dependency chain has steps. |
| `WaveLaws.SolutionIsUnique` | ecom_agent_matrix/orchestration/master/executor.py:175-226 | The recursive rule determines every entry. |
| `WaveLaws.RuleBrokenExactlyBySentDespiteSkip` | ecom_agent_matrix/orchestration/master/executor.py:175-203 | In any run, a step's final entry breaks the recursive rule exactly if it was sent although a required dependency was skipped. |
| `WaveLaws.SafeListingFollowsRule` | ecom_agent_matrix/orchestration/master/executor.py:164-238 | A run of a skip-safe listing ends in the solution of the recursive rule. |
| `WaveLaws.ListedFirstIsSkipSafe` | ecom_agent_matrix/orchestration/master/executor.py:175-196 | A listing with dependencies first is skip-safe. |
| `WaveLaws.UnsafeListingSendsDespiteSkip` | ecom_agent_matrix/orchestration/master/executor.py:175-203 | For every listing that is not skip-safe there is a start from which a step is sent despite a skipped required dependency. |
| `WaveLaws.FaithfulIffSkipSafe` | ecom_agent_matrix/orchestration/master/executor.py:164-238 | For any agents, the loop follows the recursive rule from all starting dictionaries with nothing in flight exactly if the listing is skip-safe. |
| `WaveLaws.ListingOrderDoesNotMatter` | ecom_agent_matrix/orchestration/master/executor.py:164-238 | Two skip-safe listings of the same steps end with the same results. |
| `SqlTokens.PrintLex` | ecom_agent_matrix/scripts/init_db.py:22-91 | Printing the tokens of a text gives the text back: no character is lost or duplicated by reading. |
| `SqlTokens.LexPrintsBack` | ecom_agent_matrix/scripts/init_db.py:22-91 | Reading the print of a canonical token list gives that list. |
| `SqlTokens.LexIsTheCanonicalReading` | ecom_agent_matrix/scripts/init_db.py:22-91 | The reading of a text is the one canonical token list that prints it. |
| `SqlSplitter.ContinueComment` | ecom_agent_matrix/scripts/init_db.py:25-37 | A step inside a comment advances the index and leaves what is still to come unchanged. |
| `SqlSplitter.ContinueQuote` | ecom_agent_matrix/scripts/init_db.py:38-56 | A step inside a dollar block or a quote does so too, also for doubled quotes. |
| `SqlSplitter.ReadTag` | ecom_agent_matrix/scripts/init_db.py:70-76 | The look-ahead finds a tag exactly if the text goes on with tag characters and another dollar sign. |
| `SqlSplitter.OpenComment` | ecom_agent_matrix/scripts/init_db.py:57-64 | Opening a comment leaves what is still to come unchanged. |
| `SqlSplitter.OpenQuote` | ecom_agent_matrix/scripts/init_db.py:65-79 | A quote or dollar block is opened exactly if one begins here. |
| `SqlSplitter.SplitSqlStatements` | ecom_agent_matrix/scripts/init_db.py:12-91 | The loop returns the trimmed, non-blank pieces between the top-level semicolons of the token reading; the index grows strictly and at most one flag is set. |
| `SqlEquations.AtTheEnd` | ecom_agent_matrix/scripts/init_db.py:88-91 | What is left at the end is the last statement, trimmed, unless it is blank. |
| `SqlEquations.AtSemicolon` | ecom_agent_matrix/scripts/init_db.py:80-84 | A semicolon at the top level ends the statement. |
| `SqlEquations.AtLineComment` | ecom_agent_matrix/scripts/init_db.py:25-30 | A line comment leaves its newline only, or reaches to the end. |
| `SqlEquations.AtBlockComment` | ecom_agent_matrix/scripts/init_db.py:31-37 | A block comment reaches to the first end mark, or to the end, and leaves nothing. |
| `SqlEquations.AtQuote` | ecom_agent_matrix/scripts/init_db.py:46-56 | A string in either quote, with any number of doubled quotes in it, is kept whole; unclosed, it reaches to the end. |
| `SqlEquations.AtDollarBlock` | ecom_agent_matrix/scripts/init_db.py:38-45 | A block whose tag is empty or made of letters, digits and underscores reaches to the next occurrence of the tag, or to the end, and is kept whole. |
| `SqlEquations.AtOrdinary` | ecom_agent_matrix/scripts/init_db.py:85-87 | Every other character is kept, also a dash, slash or dollar sign that begins nothing. |
| `SqlEquations.DollarBlockIsOneStatement` | ecom_agent_matrix/scripts/init_db.py:70-79 | A dollar block on its own is one statement, with all the semicolons in it. |
| `SqlEquations.QuotedIsOneStatement` | ecom_agent_matrix/scripts/init_db.py:65-69 | So is a quoted string. |
| `SqlEquations.StripRemoves` | ecom_agent_matrix/scripts/init_db.py:81-89 | Trimming removes from both ends exactly the characters of the trimmed class. |
| `SqlSplitterLaws.LexJoin` | ecom_agent_matrix/scripts/init_db.py:22-91 | A text that leaves nothing open is read the same in front of a semicolon and any further text. |
| `SqlSplitterLaws.SplitJoin` | ecom_agent_matrix/scripts/init_db.py:12-91 | Splitting distributes over a semicolon after a text that leaves nothing open. |
| `SqlSplitterLaws.SplitUndoesJoin` | ecom_agent_matrix/scripts/init_db.py:12-91 | Joining trimmed statements that read on their own, the last possibly open, and splitting gives them back. |
| `SqlSplitterLaws.SplitGivesWellFormed` | ecom_agent_matrix/scripts/init_db.py:80-91 | Every statement split off a text without comments or open tokens is well formed. |
| `SqlSplitterLaws.RemovedCommentGluesDashes` | ecom_agent_matrix/scripts/init_db.py:57-64 | With a comment in the text it may. |
| `SqlRoundTrip.SplitUndoesJoinExactlyWhen` | ecom_agent_matrix/scripts/init_db.py:12-91 | Splitting gives a joined list back exactly if each statement is trimmed, not empty and reads on its own without comment, semicolon or open token, except that the last may be open. |
| `SqlRoundTrip.SplitIsStableExactlyWhen` | ecom_agent_matrix/scripts/init_db.py:12-91 | Joining the statements of any text and splitting again changes nothing exactly if each of them reads on its own. |
| `Rrf.AddChannel` | ecom_agent_matrix/modules/rag/retriever.py:169-175 | After a channel, each source's score has grown by the sum of the shares of its ranks there. |
| `Rrf.MergeItems` | ecom_agent_matrix/modules/rag/retriever.py:177-180 | The dictionary holds each source once, in order of first appearance, with the merge of its items. |
| `Rrf.FieldsAreTheLastOnes` | ecom_agent_matrix/modules/rag/retriever.py:180 | A source's field is present exactly if an item of it has it, and has the value of the last such item. |
| `Rrf.RrfFuse` | ecom_agent_matrix/modules/rag/retriever.py:168-186 | The output holds an entry for each source, with its merged fields and the sum of 1/(61+rank) over its occurrences, by descending score, equal scores in order of first appearance. |
| `Rrf.FusedScore` | ecom_agent_matrix/modules/rag/retriever.py:169-175 | Without duplicates, a source at places r and s of the channels has the score 1/(61+r) + 1/(61+s), and a channel without it adds nothing. |
| `Rrf.OneMorePlace` | ecom_agent_matrix/modules/rag/retriever.py:169-175 | With duplicates, each further place of a source adds its share. |
| `Rrf.FusionIsUnique` | ecom_agent_matrix/modules/rag/retriever.py:168-186 | This describes exactly one output. |
| `Rrf.PlaceOf` | ecom_agent_matrix/modules/rag/retriever.py:177-186 | Each source of the two channels occurs exactly once in the output. |
| `Rrf.BetterRanksComeFirst` | ecom_agent_matrix/modules/rag/retriever.py:168-186 | For channels without duplicates, a source that is ranked better than another wherever the other occurs comes before it. |
| `RagEvaluation.FindRanks` | ecom_agent_matrix/modules/rag/evaluation.py:68-70 | The ranks are exactly the places that hold a relevant id. |
| `RagEvaluation.EvaluateRankedResults` | ecom_agent_matrix/modules/rag/evaluation.py:45-88 | k below 1 raises, no cases give zeros, and otherwise the result is the averages over the cases, or an error if one leaves its range. |
| `RagEvaluation.CaseMetrics` | ecom_agent_matrix/modules/rag/evaluation.py:66-78 | Of one case: the hit, the found part of the relevant items, the reciprocal of the first place that holds one, and the gain of all such places by the ideal gain. |
| `RagEvaluation.IdealIsPlaceGain` | ecom_agent_matrix/modules/rag/evaluation.py:76-77 | The ideal gain is that of a list of relevant items only. |
| `RagEvaluation.MetricsAreAverages` | ecom_agent_matrix/modules/rag/evaluation.py:64-88 | Each reported metric is the sum of its own quantity at the top k of each case, divided by the number of cases. |
| `RagEvaluation.RecallAndRankAreAtMostHit` | ecom_agent_matrix/modules/rag/evaluation.py:71-74 | Recall and reciprocal rank of a case are between 0 and its hit, with or without repeats. |
| `RagEvaluation.GainIsAtMostIdeal` | ecom_agent_matrix/modules/rag/evaluation.py:75-77 | The gain is at most that of as many leading places, and equal exactly if those are the relevant places. |
| `RagEvaluation.MetricBounds` | ecom_agent_matrix/modules/rag/evaluation.py:66-78 | Without repeated relevant ids, recall, reciprocal rank and nDCG are at most the hit, and nDCG is 1 exactly if relevant items fill the first min(number relevant, k) places. |
| `RagEvaluation.NdcgWithinOneExactlyWhen` | ecom_agent_matrix/modules/rag/evaluation.py:75-78 | nDCG is at most 1 for every decreasing discount exactly if the relevant places are no more than the relevant ids. |
| `RagEvaluation.AverageBounds` | ecom_agent_matrix/modules/rag/evaluation.py:80-88 | Only the nDCG average can leave its range; without repeats all averages are at most the hit rate, which is at most 1. |
| `RagEvaluation.RepeatedItemRaises` | ecom_agent_matrix/modules/rag/evaluation.py:26-34 | One relevant id listed twice makes the metrics record reject the result, for every discount. |
| `SchemaLinker.ScoreTable` | ecom_agent_matrix/modules/data_intelligence/schema_linker.py:125-159 | The linked columns are exactly those that the question names or shares two words with; the strongest score is their greatest, or zero; each reason is present exactly if its signal is, and no other. |
| `SchemaLinker.ColumnGrades` | ecom_agent_matrix/modules/data_intelligence/schema_linker.py:137-147 | A column has one of five scores, and reaches one half exactly if it is named or shares two words; a named column scores at least as much as any that is not. |
| `SchemaLinker.RankedExactlyWithReason` | ecom_agent_matrix/modules/data_intelligence/schema_linker.py:149-159 | A table is ranked exactly if there is a reason for it. |
| `SchemaLinker.MoreEvidenceScoresMore` | ecom_agent_matrix/modules/data_intelligence/schema_linker.py:149-154 | A table with at least the signals and column scores of another scores at least as much, and equally much only if name match, lexical and semantic signal agree. |
| `SchemaLinker.RankTables` | ecom_agent_matrix/modules/data_intelligence/schema_linker.py:123-161 | The tables with a positive score, sorted by score and name. |
| `LinkLaws.RankedExactly` | ecom_agent_matrix/modules/data_intelligence/schema_linker.py:158-161 | The ranking holds exactly the tables with a positive score, each as often as the catalogue, by descending score and then name. |
| `LinkLaws.SelectedExactly` | ecom_agent_matrix/modules/data_intelligence/schema_linker.py:162-172 | Selected are the tables above the absolute threshold that are also close to the best score or named by the question, best first and as many as fit; if there are none, the best table. |
| `LinkLaws.OneRelation` | ecom_agent_matrix/modules/data_intelligence/schema_linker.py:177-195 | One relation adds a strong neighbour of a selected table exactly if the question asks for a join: the target if only the source is selected, else the source if only the target is. |
| `LinkLaws.WalkComposes` | ecom_agent_matrix/modules/data_intelligence/schema_linker.py:177-195 | The walk over the relations stops exactly when the limit is reached. |
| `LinkLaws.FallbackExactlyWhen` | ecom_agent_matrix/modules/data_intelligence/schema_linker.py:197-199 | The first table of the catalogue stands in exactly if no table has a positive score. |
| `RankedOrder.SortOrders` | ecom_agent_matrix/modules/data_intelligence/schema_linker.py:161 | The sort by descending score and then name orders its elements. |
| `SchemaLinker.SelectedAreTheBest` | ecom_agent_matrix/modules/data_intelligence/schema_linker.py:162-170 | No qualifying table is passed over for one that ranks lower, and one is passed over only if the limit is reached. |
| `SchemaLinker.ExpandSelection` | ecom_agent_matrix/modules/data_intelligence/schema_linker.py:177-195 | The walk over relations and directions yields the specified expansion. |
| `SchemaLinker.ExpandLaws` | ecom_agent_matrix/modules/data_intelligence/schema_linker.py:177-195 | Expansion keeps the selection, exceeds the limit by at most one, never repeats a name, and adds a table only for join intent, strong evidence and a relation to a linked table. |
| `SchemaLinker.LimitExceededExactlyWhen` | ecom_agent_matrix/modules/data_intelligence/schema_linker.py:177-195 | Expansion exceeds the limit exactly if the selection was already full and the first relation adds a table. |
| `SchemaLinker.SelectionLaws` | ecom_agent_matrix/modules/data_intelligence/schema_linker.py:161-199 | The selection has at most max(1, top_k) + 1 tables, is empty only for an empty catalogue, names catalogue tables, and each member has its reason. |
| `SchemaLinker.CompleteColumns` | ecom_agent_matrix/modules/data_intelligence/schema_linker.py:211-231 | A linked table keeps its columns and gains exactly the join columns it lacks. |
| `SchemaLinker.Link` | ecom_agent_matrix/modules/data_intelligence/schema_linker.py:109-239 | The result is the sorted selection with completed columns and the relations between linked tables. |
| `SchemaLinker.LinkedTablesLaws` | ecom_agent_matrix/modules/data_intelligence/schema_linker.py:161-232 | Linked tables are distinct catalogue tables, best first, at most max(1, top_k) + 1, and at least one if the catalogue has any. |
| `SchemaLinker.LinkedRelationsLaws` | ecom_agent_matrix/modules/data_intelligence/schema_linker.py:201-232 | The returned relations are exactly those between two linked tables, and both tables list the join columns. |
| `EvidenceStore.EvidenceStore.constructor` | ecom_agent_matrix/modules/evidence/store.py:9-13 | An empty store for one tenant and store with room for at least one record. |
| `EvidenceStore.EvidenceStore.Add` | ecom_agent_matrix/modules/evidence/store.py:15-21 | Foreign records are refused, new ids are refused exactly if the store is full, and otherwise the record is stored under its id; ids stay unique. |
| `EvidenceStore.EvidenceStore.Get` | ecom_agent_matrix/modules/evidence/store.py:23-24 | The record of an id, or none if no record has it. |
| `EvidenceStore.EvidenceStore.ByType` | ecom_agent_matrix/modules/evidence/store.py:29-30 | The records of a type, in the store's order. |
| `EvidenceStore.PutThenFind` | ecom_agent_matrix/modules/evidence/store.py:15-24 | After storing, the id gives the new record, every other id gives what it gave, and ids are unique. |
| `EvidenceStore.PutPlaces` | ecom_agent_matrix/modules/evidence/store.py:15-21 | A known id keeps its place, a new one goes last. |
| `Grounding.CollectRecords` | ecom_agent_matrix/modules/evidence/grounding.py:26-34 | The records behind a claim, and an issue for exactly the ids that the store does not hold. |
| `Grounding.CheckCitations` | ecom_agent_matrix/modules/evidence/grounding.py:35-39 | An issue for exactly the citations that no document record has. |
| `Grounding.CheckRules` | ecom_agent_matrix/modules/evidence/grounding.py:40-76 | An issue for exactly the rules that a claim breaks on the records behind it. |
| `Grounding.ValidateClaims` | ecom_agent_matrix/modules/evidence/grounding.py:18-77 | The report holds exactly the issues that the claims raise, and is valid exactly if every claim is grounded. |
| `Grounding.GroundedRaisesNothing` | ecom_agent_matrix/modules/evidence/grounding.py:25-77 | A claim is grounded (named evidence exists, its type is supported, nothing contradicts) exactly if it raises no issue. |
| `EvidenceSynthesis.MakeClaims` | ecom_agent_matrix/modules/evidence/synthesis.py:23-66 | One claim per SQL record, one per document among the first five, a co-occurrence claim exactly if there are both, and the matching caveat. |
| `EvidenceSynthesis.SelectionsKeepOrder` | ecom_agent_matrix/modules/evidence/synthesis.py:15-22 | The SQL records and the first five document records are used, each in the store's order. |
| `EvidenceSynthesis.ClaimContents` | ecom_agent_matrix/modules/evidence/synthesis.py:23-60 | Each claim names its records and citations; a query result states its row count and up to eight fields of the first row, a document up to 220 characters, and a co-occurrence is never surer than either record or three quarters. |
| `EvidenceSynthesis.DigitsDenote` | ecom_agent_matrix/modules/evidence/synthesis.py:26 | Row counts are written in decimal. |
| `EvidenceSynthesis.FieldsAreListed` | ecom_agent_matrix/modules/evidence/synthesis.py:25 | Fields are listed as name=value with a comma between any two. |
| `EvidenceSynthesis.GroundedExactlyIfClean` | ecom_agent_matrix/modules/evidence/synthesis.py:12-67 | The claims pass the grounding check exactly if no record used is contradictory and no document text states a quantity. |
| `EvidenceSynthesis.OnlyTwoIssues` | ecom_agent_matrix/modules/evidence/synthesis.py:12-67 | Whatever the evidence, no claim lacks evidence, citations or co-occurrence support: only two issues are possible. |
| `EvidenceSynthesis.Synthesize` | ecom_agent_matrix/modules/evidence/synthesis.py:12-95 | The result carries these claims, each citation once, the caveat, and a valid report exactly for clean evidence. |
| `SemanticScorer.KeyFixesText` | ecom_agent_matrix/modules/data_intelligence/semantic_schema.py:39-42 | Equal cache keys come from equal texts, although the other parts of a key may contain the separator. |
| `SemanticScorer.SchemaSemanticScorer.FindMissing` | ecom_agent_matrix/modules/data_intelligence/semantic_schema.py:49 | Exactly the tables whose key is not cached. |
| `SemanticScorer.SchemaSemanticScorer.StoreVectors` | ecom_agent_matrix/modules/data_intelligence/semantic_schema.py:53-57 | A batch of the wrong size stores nothing; any other is stored under the keys in order. |
| `SemanticScorer.SchemaSemanticScorer.Score` | ecom_agent_matrix/modules/data_intelligence/semantic_schema.py:59 | The scores of the cached vectors, in the catalogue's order. |
| `SemanticScorer.StoringKeepsCacheOk` | ecom_agent_matrix/modules/data_intelligence/semantic_schema.py:53-57 | Storing a batch keeps every cached vector the embedding of its key's text and removes no key. |
| `SemanticScorer.StepKeepsInv` | ecom_agent_matrix/modules/data_intelligence/semantic_schema.py:44-59 | Every step of every call keeps the cache correct and what the other calls rely on. |
| `SemanticScorer.ScoresAreUncached` | ecom_agent_matrix/modules/data_intelligence/semantic_schema.py:44-59 | Under every interleaving, a call that returns gives the scores that uncached scoring would give, and no cache lookup fails. |
| `SemanticScorer.CachedStaysCached` | ecom_agent_matrix/modules/data_intelligence/semantic_schema.py:53-57 | A cached key stays cached with the same vector throughout every run. |
| `SemanticScorer.UndisturbedCallScores` | ecom_agent_matrix/modules/data_intelligence/semantic_schema.py:44-59 | An undisturbed call returns the uncached scores; it asks for a batch exactly if a table is not cached, for exactly those, and leaves all its tables cached. |
| `SemanticScorer.UndisturbedStepsScore` | ecom_agent_matrix/modules/data_intelligence/semantic_schema.py:44-59 | Beside other calls, the steps of one call taken together return its uncached scores and leave the other calls as they are. |
| `SemanticScorer.DisturbedCallRaises` | ecom_agent_matrix/modules/data_intelligence/semantic_schema.py:51-53 | A batch of the wrong size or an await that raises ends the call and leaves the cache alone; a finished call stays as it is. |
| `SqlRepair.ExecuteWithRepair` | ecom_agent_matrix/modules/data_intelligence/service.py:324-371 | The loop is a run: each repeated execution follows a repairable failure, its repair and its validation, and the outcome is that of the last execution, repair or validation. |
| `SqlRepair.ExecutionsAreBounded` | ecom_agent_matrix/modules/data_intelligence/service.py:351-354 | At most 1 + SQL_REPAIR_MAX_ATTEMPTS executions. |
| `SqlRepair.OnlyValidatedSqlRuns` | ecom_agent_matrix/modules/data_intelligence/service.py:334-371 | Every executed query is what the validator returned for the query of that step; a returned result has validated = validate(generated) and attempts = executions - 1. |
| `SqlRepair.RunIsUnique` | ecom_agent_matrix/modules/data_intelligence/service.py:334-371 | The executions and the outcome follow from the validator, executor and repairer, of which the last two may answer by what was run before. |
| `SqlRepair.RunGenerated` | ecom_agent_matrix/modules/data_intelligence/service.py:215-305 | A rejected first query is never executed. The analysis succeeds exactly if the last execution fetched rows, and reports them; it is aborted exactly if that one crashed; the exhausted code stands for a repairable failure, the execution code for any other; a rejected repair is reported as invalid. |

## Left out

- Digests: SHA-256 and JSON are free constructors in the execution protocol, and in the vector cache a fixed-length digest without collisions among the texts that occur.
- Numbers: floats are real numbers, `log2` is any positive strictly decreasing discount, and the cosine is any function.
- Characters: `isalnum` and the characters removed by `strip` are parameters of the splitter.
- Storage failures: an exception of a store or of the audit trail that the code does not catch stops a call like a cancellation; a lost reply to a statement that did commit is not distinguished. `create_pending` fails only for an identifier that is taken.
- Skill results: metadata, latency, deprecation notices and the wording of messages.
- Master plan steps: payloads, `authorize_task_types`, the concurrency limit, correlation ids and the compaction of upstream data are folded into the agents' function; a reply is success or failure with a code.
- Message bus, reply registry, router, planner and recovery controller: not part of this model.
- MasterExecutor.Resume: a previous result with an entry still in flight can end in the missing-ready-step error; the finishing guarantee is stated for results without one, which is what every finished run returns.
- Schema linker signals: tokenising, BM25, semantic scores, term matching and the join-intent pattern are inputs.
- SchemaLinker.CompleteColumns: the source appends the missing join columns sorted by name and then sorts all columns by score and name; the model appends them in any order before that final sort.
- Rank fusion: `stable_source_id` is any function of an item; vector and lexical retrieval, reranking, caching and `candidate_limit` are not modelled.
- Evidence: record fields that no rule reads, the summary text, `all` and `bounded_package`; the pattern for quantities is any predicate on texts.
- `SQLSafetyValidator`, SQL generation, executor and repairer are arbitrary functions; the last two may depend on what was run before.
- HTTP routes, authentication headers, logging, metrics, audit events, prompts, presentation and the Redis limiter.
