# Saz: models and proofs

Saz runs workflows as a state machine over database rows, with worker threads, callers that
resume or retry a run, and a sweeper that times suspended runs out. Beside it stand a few
self-contained algorithms. This project models these parts in Dafny and proves what they promise.

- `Scheduler.dfy`: the shared set of running ids, and the whole process as a transition system over
  threads. Mutual exclusion, and no queued run is ever lost.
- `Lifecycle.dfy`, `LifecycleSafety.dfy`, `LifecycleRefinement.dfy`: one run as a transition system
  over its status, its step rows and the segment executing it. What every history keeps, and that
  execution cut into segments gives the results of one straight pass.
- `Process.dfy`: the two joined. Which interleavings keep what one run's life promises, and concrete
  ones that do not.
- `Gate.dfy`: grounding, allowlist, policy, budget, verifier, replan and retry loops around a tool,
  with every agent an arbitrary oracle.
- `RunStore.dfy`, `Executor.dfy`: the code that moves a run, shown to take only steps of that machine.
- `Lexer.dfy`, `Grammar.dfy`, `Conditions.dfy`: the condition language, with a grammar, trees and
  their meaning; the tokenizer and the parser that evaluates while parsing are proved against them.
- `Splice.dfy`, `Substitution.dfy`, `Vault.dfy`: replacing spans of a text, scanning substitution, and
  the reversible token vault built on both.
- `Dedupe.dfy`, `Redaction.dfy`: choosing among overlapping findings, and what redacting and tokenizing
  make of the ones chosen.
- `Scrub.dfy`: removing secrets from nested data.
- `RateLimiter.dfy`: pruned buckets against the full history.
- `Checksums.dfy`: Luhn (ISO/IEC 7812-1, Annex B) and IBAN (ISO/IEC 7064, MOD 97-10).
- `EventMerge.dfy`: merging fetched and live events.
- `RefreshSessions.dfy`: rotating refresh secrets (section 4.14.2 of RFC 9700).
- `Ordering.dfy`, `RunModel.dfy`, `Basics.dfy`: stable sorting and shared names.

Agents, tools, planners, the clock, the database session and the network are parameters: functions
with arbitrary answers, or values passed in. An action of a machine is whatever one of them chose.

## Where the code does less than it seems to

- `execute_run` never looks at the status it finds. A `schedule` call that arrives late can start a
  worker on a run that is suspended by then (`Scheduler.StaleStart`). The worker commits `running`
  over `suspended`, so two rows can be suspended at once (`Process.LateSegmentReopensGate`) and a
  settled gate can be opened again (`Process.LateSegmentForgets`). `Process.LoadsStaleIffLate` gives
  the exact condition, and the results after it hold without such calls.
- `resume_run`, the reject path and the callback check only the status when they claim a run, and then
  write the row they read before. A caller that read at one gate and claims at the next one writes the
  wrong row: the waiting one is left waiting, and a settled one is replaced or failed, even when all
  schedule calls are in time (`Process.StaleResume`, `Process.StaleReject`). The exact conditions are
  in `LifecycleSafety.OneWaitingIff`, `LifecycleSafety.ForgettingIffHarm`,
  `LifecycleSafety.SettledKeptIff` and `LifecycleSafety.ApprovedStaysPendingIff`.
- The callback reads the error and the row at two moments. When the run goes from one suspension to the
  next in between, the row is resolved by the error of the first: a step that was escalated before its
  tool ran is settled with the caller's data, or a gate is approved as an escalation and asked again
  (`Process.MixedReads`; `LifecycleSafety.ResumeSuitsRowIff` says when).
- `retry` has the same gap between its read and its write, and writes without a guard: a late retry can
  write `queued` over a run that waits at a gate (`Process.LateRetry`).
- The sweeper counts a run as timed out even when its guarded update did nothing
  (`RunStore.FailSelected`).
- `_execute_plan_step` retries more than its comment says: a `ReplanRequired` or a failed critique is
  retried, and so is the policy engine's own `PolicyViolation`; only the executor's class is not.
- Approvals are looked up by the id of the step in hand. In agentic mode a replan may carry another id. If
  that id has a row of its own and no approval, an approved step is suspended for an escalation again
  (`Gate.RenamedIsSuspended`), and this is the only way (`Gate.ApprovedSuspendedIff`); if it has no row, the
  lookup raises and the attempt ends in an ordinary error, which is retried (`Gate.UnknownNeverEscalates`).
- The last raise of the replan loop is reached exactly when `max_replan` is negative, which the schema does
  not allow in a validated workflow.
- A negative `max_retries` leaves the step's row running.
- A step whose error handling escalates suspends the run while its row stays failed.
- A token of a type with a digit (`ipv4`, `ipv6`) is never read back (`Vault.MatchedIffReadable`), and
  types that differ only in case share tokens (`Vault.InverseIffDistinctTypes`).
- `_dedupe` resolves an overlap only when one of the two findings lies in another one of at least its
  priority (`Dedupe.DisjointIffResolvable`). Otherwise both stay, and `redact` replaces the later one first, which
  shifts the text under the end of the other: with a replacement longer than the inner span a part of the
  outer one stays (`Redaction.OverlapSplice`, `Redaction.OverlapsCanRemain`), with one shorter than the
  overlap text behind it is lost.
- The uniqueness pass of `_dedupe` never removes anything, because an equal finding is already covered.
- A secret behind its key is reported with the span of both and the value of the secret alone, so the text
  does not come back from its tokens: the key is lost (`Vault.RoundTrip`, `Vault.KeyIsLost`).
- A secret that overlaps an end of the replacement, lies in it or contains it can survive scrubbing
  (`Scrub.RemovedIffRemovable`), and replacing one secret can put such another one together
  (`Scrub.StarsCanLeak`).
- `<` in conditions is not transitive on mixed values (`Conditions.LessNeedNotBeTransitive`).

## Model

| member | source | states |
|---|---|---|
| Scheduler.RunScheduler.Schedule | backend/saz/engine/scheduler.py:52-62 | the critical section: accepts exactly the ids not running, and submits one task for each accepted id |
| Scheduler.RunScheduler.Teardown | backend/saz/engine/scheduler.py:119-125 | after a run the id is free, or taken again for a new task exactly when the re-check read `queued` and the thread did not crash |
| Scheduler.RunScheduler.RescheduleIfRequeued | backend/saz/engine/scheduler.py:127-150 | only a run read as `queued` is handed to `schedule` again |
| Scheduler.EveryInterleaving | backend/saz/engine/scheduler.py:52-150 | for every interleaving of creators, resumers, retriers, timeouts and workers: at most one thread per run is inside `execute_run`, and every queued run has a thread that still has its run, its re-check or a `schedule` call ahead |
| Scheduler.QueuedRunIsNeverStranded | backend/saz/engine/scheduler.py:119-150 | a queued run can always be brought back into `execute_run` in at most five steps of threads that already exist |
| Scheduler.StaleStart | backend/saz/engine/scheduler.py:52-62 | a reachable interleaving in which a late `schedule` starts a worker on a run that is suspended by then |
| Lifecycle.AttachTimeout | backend/saz/engine/executor.py:235-277 | a number of minutes, else of seconds divided by 60, at least one minute; 1440 minutes when neither is a positive number |
| Lifecycle.StepChangesRows | backend/saz/engine/executor.py:536-849 | every committed change appends one row, writes one, or leaves the rows alone; a resume or rejection writes the row its caller read, whatever has become of it |
| Lifecycle.ChangeKeepsOrder | backend/saz/engine/executor.py:985-998 | appending as max attempt + 1 and closing rows in place keep the attempts of every name at 1..n in append order |
| LifecycleSafety.EveryHistory | backend/saz/engine/executor.py:235-277 | in every history attempts are 1..n in append order, and a suspended run carries its payload and a deadline at least a minute after suspension |
| LifecycleSafety.OneWaitingIff | backend/saz/services/run_service.py:171-199 | at most one row is suspended, and only while the run is, in all states of a history if and only if no step overwrites the status of a run that has a suspended row, and no resume or rejection claims such a run with another row in hand |
| LifecycleSafety.OneWaitingKeptIff | backend/saz/services/run_service.py:145-149 | the same for one step: exactly the unguarded writes over a waiting row and the claims that miss it break it |
| LifecycleSafety.SuspensionsConserved | backend/saz/services/run_service.py:182-199 | over every history: suspensions entered = answered by one resume, rejection or timeout + lost to an unguarded write + still open |
| LifecycleSafety.SecondAnswerChangesNothing | backend/saz/engine/suspension_sweeper.py:186-192 | of two callers answering one suspension the second changes nothing, whatever happens in between, unless the run is suspended anew |
| LifecycleSafety.SettledForever | backend/saz/engine/executor.py:437-450 | once the last row of a name is completed with a truthy output it stays the last row and stays completed with one, and no segment under any planner reaches the step again, whoever writes the status, as long as no resume is blind (completes a step behind a segment that has already read its rows) and no claim fails a row that was settled since its caller read it |
| LifecycleSafety.SettledKeptIff | backend/saz/services/run_service.py:182-199 | the exact condition for one step: a settled step stays settled unless a claim with an older read fails its row |
| LifecycleSafety.SettledRowNeverChanges | backend/saz/services/run_service.py:182-199 | and the row itself never changes if no claim writes it after it was closed |
| LifecycleSafety.ForgettingIffHarm | backend/saz/engine/executor.py:437-450 | the exact condition: one step lets some settled step be lost, at once or by later steps harmless in themselves, if and only if it is a blind resume or fails a settled row |
| LifecycleSafety.ApprovedEscalationReruns | backend/saz/services/run_service.py:30-39 | an approved pre-execution escalation, read as one, stays on record until a segment starts the step as attempt n+1 or its guard skips it, whatever else happens, unless a claim with an older read revokes it |
| LifecycleSafety.ApprovedStaysPendingIff | backend/saz/api/routes/webhooks.py:124-135 | the exact condition for one step: the approval stays on record unless a claim with an older read completes the row or rejects it with a denial |
| LifecycleSafety.OtherApprovalNeverReruns | backend/saz/services/run_service.py:40-44 | approving a gate, or an escalation after the tool ran, settles the row and no later segment reaches the step, unless a resume is blind or a claim fails the settled row; the resume data stays for ever unless a claim writes the row again |
| LifecycleSafety.ResumeSuitsRowIff | backend/saz/api/routes/webhooks.py:228-272 | one resume, with any error and row read: it records an approval exactly when the error was that of a pre-execution escalation, so it suits the waiting row if and only if that is so of the error now |
| LifecycleRefinement.Plan | backend/saz/agents/deterministic_planner.py:50-67 | the plan is the listed steps that are not completed, in order |
| LifecycleRefinement.SegmentsRefineOnePass | backend/saz/engine/executor.py:437-450 | for a deterministic plan cut by any suspensions, resumes, retries and timeouts that neither overwrite a waiting status, nor claim the run with a row that waits no longer, nor resume blindly, the restorable results are those of the straight pass over a prefix, and of the whole pass when the run is completed |
| LifecycleRefinement.RemainingIsRest | backend/saz/agents/deterministic_planner.py:50-67 | when exactly a prefix is completed, the filtered plan is the rest of the list |
| Process.HistoryProjects | backend/saz/engine/scheduler.py:52-150 | every history of scheduler and run together is a history of each, so the results about all histories of either hold of it |
| Process.PossibleForBoth | backend/saz/engine/scheduler.py:64-125 | joining the machines blocks neither: whatever a thread may do next is possible for the run; in particular a worker handed the run finds no segment in progress |
| Process.SegmentsBeginQueued | backend/saz/engine/scheduler.py:119-150 | in every interleaving without a schedule call that is accepted after a re-check consumed its queueing, every segment begins on a queued run |
| Process.LoadsStaleIffLate | backend/saz/engine/scheduler.py:52-62 | the exact condition: an accepted schedule call lets some segment begin on a run that is not queued, all later calls being in time, if and only if the run is not queued when the call is accepted |
| Process.OnTimeIsQuiet | backend/saz/engine/executor.py:434-450 | without late schedule calls nobody answers a run that a segment works on, no resume is blind, and no segment step replaces `suspended` |
| Process.OneWaitingOnTime | backend/saz/services/run_service.py:145-199 | without late schedule calls: at most one row waits, and only while the run is suspended, in all states, if and only if no retry writes over a waiting row and no claim misses it |
| Process.SettledOnTime | backend/saz/engine/executor.py:437-450 | without late schedule calls and claims that fail a settled row: a step settled at any moment is settled ever after, by the same row |
| Process.OrderlyRefinesOnePass | backend/saz/engine/executor.py:437-450 | threads in any interleaving without late schedule calls, retries over a waiting row and claims on a stale read give the results of the straight pass |
| Process.StaleResume | backend/saz/services/run_service.py:171-199 | all schedule calls in time: a resume whose caller read at the first gate answers the second one, leaving its row waiting in a queued run and replacing the first answer |
| Process.StaleReject | backend/saz/api/routes/webhooks.py:108-135 | likewise a rejection fails the settled first gate and leaves the second waiting in a failed run |
| Process.MixedReads | backend/saz/api/routes/webhooks.py:228-272 | all schedule calls in time, for any two kinds of suspension: a callback that reads the error at the first and the row at the second answers the second by the kind of the first; an escalated step is settled although its tool never ran, or a gate is approved as an escalation |
| Process.LateRetry | backend/saz/services/run_service.py:128-149 | all schedule calls in time and nobody answering: the second of two retries that saw the run failed writes `queued` over a run that waits at a gate by now |
| Process.LateSegmentReopensGate | backend/saz/engine/executor.py:437-450 | a late schedule call starts a segment on a run suspended at the second gate, and that gate is opened a second time: two rows are suspended at once |
| Process.LateSegmentForgets | backend/saz/engine/executor.py:437-450 | the second gate is answered behind that segment, blindly, and the settled gate is opened again |
| RunStore.Run.MarkQueuedIfSuspended | backend/saz/repositories/write/run_repository.py:133-167 | the guarded update: applied exactly to a suspended run, with the error it is given |
| RunStore.Run.MarkFailedIfSuspended | backend/saz/repositories/write/run_repository.py:99-131 | the guarded update: applied exactly to a suspended run |
| RunStore.Run.ResolveSuspendedStepOnApproval | backend/saz/services/run_service.py:8-44 | an error that is a pre-execution escalation fails the row with the approval recorded; any other, or none, completes the row with the data |
| RunStore.Run.ReadError | backend/saz/api/routes/webhooks.py:228 | the callback reads the run: one `ReadRun` step |
| RunStore.Run.ReadSuspended | backend/saz/api/routes/webhooks.py:272 | and later some row that waits, if one does: one `ReadRow` step |
| RunStore.Run.ReadDetail | backend/saz/services/run_service.py:171-174 | the API reads both at one moment |
| RunStore.Run.ResumeRun | backend/saz/services/run_service.py:176-199 | one `Resume` step on what the caller read, whenever that was: of a suspended run the row read is failed with an approval or completed with the data as the error read demands, and no other row changes; nothing at all when the run is not suspended |
| RunStore.Run.RejectRun | backend/saz/api/routes/webhooks.py:124-135 | one `Reject` step on what the caller read, whenever that was: the run and the row read are failed, the denial, if any, replacing its output; nothing when the run is not suspended |
| RunStore.Run.FailOne | backend/saz/engine/suspension_sweeper.py:159-209 | one `TimeOut` step: a suspended run fails, and with it a row that waits, if one does, its output kept; nothing when the run is not suspended |
| RunStore.Run.FirstFailed | backend/saz/repositories/write/step_repository.py:121-147 | a failed row that no row of its name exceeds in attempts, or the proof that every failed row is exceeded |
| RunStore.Run.MayRetry | backend/saz/services/run_service.py:128-138 | a retry is admitted if and only if the run is failed and some failed row has the highest attempt of its name; with attempts in order that is one `RetryRead` step |
| RunStore.Run.RequeueForRetry | backend/saz/services/run_service.py:140-149 | and then written whatever the run has become: one `RetryWrite` step |
| RunStore.Run.Retry | backend/saz/services/run_service.py:116-149 | the read and the write with nothing in between: the run is queued again if and only if it was failed and some failed row had the highest attempt of its name |
| RunStore.FailedAtHighestIsLatest | backend/saz/repositories/write/step_repository.py:121-147 | with attempts in order, a failed row with the highest attempt of its name exists if and only if the last row of some name is failed |
| RunStore.FindExpired | backend/saz/repositories/write/run_repository.py:213-246 | selects runs that are suspended and whose deadline has come, at most the limit, and all of them below it |
| RunStore.FailSelected | backend/saz/engine/suspension_sweeper.py:133-139 | each selected run, whatever its state by then, takes one `TimeOut` step, failed if it was still suspended, and is counted; no other run changes |
| RunStore.SweepOnce | backend/saz/engine/suspension_sweeper.py:124-155 | with nothing between selection and updates: the runs counted are exactly the ones that change, each was suspended past its deadline and is failed; below the limit none past its deadline is left |
| RunStore.RestoreContext | backend/saz/engine/executor.py:437-470 | from rows in any order: a name is completed, with its output, if and only if the row with its highest attempt is completed with a truthy output, and approved if and only if that row is failed with an approval |
| Gate.DeriveDeclaredTools | backend/saz/engine/executor.py:58-87 | a tool is declared if and only if it is listed, named by a tool step, the kind of an `ai.` or artifact step, or the webhook wait of such a step |
| Gate.GatedAt | backend/saz/engine/executor.py:1249-1270 | each execution in a gated log comes straight after grounding, an allowed policy check, a within-budget check and a PASS (or approved ESCALATE) verdict for the same tool, which the allowlist contains |
| Gate.LoopIsHonest | backend/saz/engine/executor.py:1505-1797 | whatever the oracles answer: every event of the replan loop is what its oracle answered at that moment, the last event decides how the loop fails, and it gives up as exhausted only after max_replan+1 verifications |
| Gate.ToolExecutor.TakeTurn | backend/saz/engine/executor.py:1530-1785 | one turn of the replan loop is what the parts say: grounding, the lookup of the row, the declared set, the checks, the verdict, the revision |
| Gate.ToolExecutor.GroundAndVerify | backend/saz/engine/executor.py:1505-1797 | whatever agents answer: no tool runs, at most max_replan+1 verifications, success only with the returned tool cleared; a pre-execution escalation if and only if the last verdict is one for an id that has a row and no approval, which is the id of the step itself unless a replan renames it; the final raise if and only if max_replan is negative |
| Gate.ApprovedSuspendedIff | backend/saz/engine/executor.py:1655-1685 | an approved step is suspended by its verifier again if and only if replans lead to another id that has a row and no approval, and that one is escalated |
| Gate.RenamedIsSuspended | backend/saz/engine/executor.py:2129-2135 | for any two ids, oracles under which the approved first is replanned to the second and suspended when the second has a row, and ends in an ordinary error when it has none |
| Gate.UnknownNeverEscalates | backend/saz/engine/executor.py:2129-2135 | a turn for an id without a row ends in an ordinary or structural error, whatever the oracles answer |
| Gate.ToolExecutor.ExecuteToolCall | backend/saz/engine/executor.py:1200-1503 | one attempt executes at most one tool, only after its clearance. It succeeds only with what that tool returned, within the budget and passed by the critic, and does succeed when a verdict cleared the tool, the tool returns, the budget is kept and the critic passes; a critic's FAIL or REPLAN is a critique failure and its ESCALATE an escalation after execution; every other end is decided by its last event, which is what its oracle answered. An escalation is pre-execution exactly when no tool ran, and such a one is raised if and only if the log ends in it for an id with a row and no approval |
| Gate.ToolExecutor.ExecuteStepAction | backend/saz/engine/executor.py:1140-1181 | gates suspend, only tool steps reach a tool, a condition comes to what it evaluates to, and an unknown type is a structural error |
| Gate.ToolExecutor.ExecutePlanStep | backend/saz/engine/executor.py:957-1138 | at most max_retries+1 attempts, each cleared and come to what its events decide; each but the last failed with an ordinary error, a failed critique or a required replan; the last one's result is the step's, and it is a success, one of the four re-raised kinds, or that of the last attempt allowed; the row is left completed, suspended, failed or running accordingly |
| Executor.ExecuteRun | backend/saz/engine/executor.py:328-877 | one segment: committed state moves only by actions of a segment, each possible when taken and called for by planner, budget, guards and error handling; it ends completed, failed or suspended; every attempt is cleared; the attempts are those of the steps that were given a row, in that order, each come to what its events decide; and the rows are the old ones unchanged, skipped ones, and one for each step that ran, closed as its attempts came out |
| Executor.GuardsAreObeyed | backend/saz/engine/executor.py:570-613 | of every action a segment took: a step is started only where its guard answered that it runs, and skipped with a marker only where the guard answered that, within the budget, and never when completed |
| Executor.ApprovedNotSuspendedAgain | backend/saz/engine/executor.py:437-470 | nowhere in a segment does the verifier suspend the run for a step whose approval is on record, unless a replan renames it |
| Executor.CompletedWasPassed | backend/saz/engine/executor.py:1484-1486 | a completed row of a tool step holds what its tool returned in an attempt that cleared the tool, ran it, kept the budget and was passed by the critic |
| Executor.Segment.ExecuteNext | backend/saz/engine/executor.py:534-849 | one turn of the main loop: a completed step is passed over; over budget or with a malformed guard the run fails without a row or an attempt; a step whose guard is false gets a skipped row and no attempt, and its marker is its result; a step whose guard is true gets one row, and its outcome closes that row and decides results, status and suspension |
| Executor.Segment.Conclude | backend/saz/engine/executor.py:660-877 | each outcome of a step closes its row, ends or continues the segment and names what the run waits for, with callback and time, as the kind of failure and, for ordinary errors only, the error handling demand |
| Lexer.Tokenize | backend/saz/engine/expressions.py:69-82 | the loop over positions and rules computes the ordered-rule scan |
| Lexer.NothingIsLost | backend/saz/engine/expressions.py:69-82 | lexemes and skipped pieces concatenate to the input |
| Lexer.OnlySpaceIsSkipped | backend/saz/engine/expressions.py:69-82 | every piece is non-empty and only whitespace is skipped |
| Lexer.LexemeIsNext | backend/saz/engine/expressions.py:40-59 | a lexeme followed by a blank is scanned whole under the same rule, whatever comes next |
| Lexer.RenderThenTokenize | backend/saz/engine/expressions.py:69-82 | tokens separated by blanks are scanned back exactly |
| Lexer.MatchAt | backend/saz/engine/expressions.py:72-80 | the first rule that matches, or an error when none does |
| Grammar.ParserIsExact | backend/saz/engine/expressions.py:161-218 | the recursive descent accepts exactly the sentences of the grammar, and a sentence has one derivation, the one it returns |
| Grammar.OrComplete | backend/saz/engine/expressions.py:167-173 | any derivable or-expression in front of any continuation is read whole |
| Grammar.OrSound | backend/saz/engine/expressions.py:167-173 | whatever is read is derived by the grammar and spelled by the tokens consumed |
| Grammar.BracketDerives | backend/saz/engine/expressions.py:167-218 | adding parentheses where precedence needs them makes any tree derivable |
| Grammar.BracketAddsOnlyNeeded | backend/saz/engine/expressions.py:167-218 | a derivable tree gets no parentheses |
| Conditions.Parser.Parse | backend/saz/engine/expressions.py:161-165 | the fused parser and evaluator returns the value of the tree the grammar gives, and calls the resolver once per reference, left to right |
| Conditions.Parser.ParseOr | backend/saz/engine/expressions.py:167-173 | refines the grammar and the meaning of its trees from any position; no short-circuiting of resolver calls |
| Conditions.Parser.ParseAnd | backend/saz/engine/expressions.py:175-181 | refines the grammar from any position |
| Conditions.Parser.ParseNot | backend/saz/engine/expressions.py:183-187 | refines the grammar from any position |
| Conditions.Parser.ParseComparison | backend/saz/engine/expressions.py:189-195 | refines the grammar from any position |
| Conditions.Parser.ParsePrimary | backend/saz/engine/expressions.py:197-218 | refines the grammar from any position |
| Conditions.EvaluateCondition | backend/saz/engine/expressions.py:238-256 | the meaning of any condition value: booleans as they are, null false, numbers unless zero, lists and objects unless empty, texts parsed; on success the resolver calls are the references of the text |
| Conditions.ValidateConditionSyntax | backend/saz/engine/expressions.py:221-229 | accepts a condition if and only if evaluating it succeeds, for every resolver |
| Conditions.AcceptsExactlySentences | backend/saz/engine/expressions.py:238-256 | a text is accepted, whatever the resolver, if and only if its tokens are a sentence |
| Conditions.EvaluatesToDenotation | backend/saz/engine/expressions.py:238-256 | the value of a sentence is the denotation of its derivation |
| Conditions.PrintThenEvaluate | backend/saz/engine/expressions.py:62-66 | printing any tree with the parentheses it needs, with or without outer braces, and evaluating the text gives the value of the tree |
| Conditions.ConnectivesMean | backend/saz/engine/expressions.py:167-187 | on printed texts: if two conditions evaluate to x and y, those that join them by `||` and `&&` evaluate to x or y and to x and y, the first negated by `!` to not x, and in parentheses to x |
| Conditions.OperandMeans | backend/saz/engine/expressions.py:84-98 | a single operand evaluates to its truth: text unless blank, false, no, 0, null or none up to case and blanks, numbers unless zero, lists and objects unless empty |
| Conditions.ComparisonMeans | backend/saz/engine/expressions.py:121-144 | two operands with a comparator between them: compared as numbers when both are, never so for booleans, and otherwise as text, in the order of their characters |
| Conditions.AndBeforeOr | backend/saz/engine/expressions.py:167-181 | on texts of any three operands: `&&` binds more strongly than `||` on either side, and parentheses come first |
| Conditions.NotBeforeAnd | backend/saz/engine/expressions.py:183-187 | `!` binds more strongly than both |
| Conditions.NotAfterComparison | backend/saz/engine/expressions.py:183-195 | and negates a whole comparison |
| Conditions.NumberIsOperand | backend/saz/engine/expressions.py:54 | digits, with or without a minus before and a point and digits after them, are one number |
| Conditions.OnlyNumbers | backend/saz/engine/expressions.py:54 | and no other text is |
| Conditions.FormReference | backend/saz/engine/expressions.py:34 | a path into the form is one reference |
| Conditions.StepReferenceByPath | backend/saz/engine/expressions.py:35 | so is a path into the output of a step with a quoted id |
| Conditions.EnvReferenceWithDefault | backend/saz/engine/expressions.py:36 | so is a quoted environment variable with a quoted default |
| Conditions.SecretReference | backend/saz/engine/expressions.py:37 | and a quoted secret |
| Conditions.QuotedText | backend/saz/engine/expressions.py:211-212 | any text in quotes it does not contain is one string token whose value is the text |
| Conditions.KeywordMeaning | backend/saz/engine/expressions.py:213-215 | the keywords are true, false and null in any case, and nothing else |
| Conditions.CompareComplements | backend/saz/engine/expressions.py:121-144 | NE, GE and LE are the complements of EQ, LT and GT, and LE is LT or EQ, on all pairs of values |
| Conditions.LessIsTransitive | backend/saz/engine/expressions.py:128-144 | `<` is transitive on three values unless exactly two of them are numeric |
| Conditions.LessNeedNotBeTransitive | backend/saz/engine/expressions.py:128-144 | with exactly two numeric values it can fail, whichever two they are |
| Splice.Redact | backend/saz/policies/pii_detector.py:330-344 | the loop is right-to-left splicing of the findings sorted by start |
| Splice.DisjointSplice | backend/saz/policies/pii_detector.py:337-344 | for disjoint findings the result is the untouched gaps in order with each span replaced once, whatever the replacement lengths |
| Splice.FindingOrderIsIrrelevant | backend/saz/policies/pii_detector.py:337-344 | the order in which disjoint findings are given does not matter |
| Splice.TextIsWoven | backend/saz/policies/pii_token_vault.py:145-154 | the text itself is the same gaps with the original spans |
| Substitution.SubstituteAll | backend/saz/policies/pii_token_vault.py:176-198 | the left-to-right scan of a substitution: matches replaced, nothing rescanned |
| Vault.TokenTextInjective | backend/saz/policies/pii_token_vault.py:87-98 | tokens of types that differ in more than case, or of different numbers, differ |
| Vault.InverseIffDistinctTypes | backend/saz/policies/pii_token_vault.py:74-109 | after any sequence of calls the two maps are mutually inverse if and only if no two of the types used differ only in case |
| Vault.TokensAreKept | backend/saz/policies/pii_token_vault.py:87-109 | no later call changes a token already given |
| Vault.CountersCount | backend/saz/policies/pii_token_vault.py:87-98 | each type's counter is the number of its different values so far |
| Vault.DecimalSpells | backend/saz/policies/pii_token_vault.py:96 | the number in a token is written in decimal, without leading zeros |
| Vault.MatchedIffReadable | backend/saz/policies/pii_token_vault.py:51 | the pattern matches a token whole if and only if the type is non-empty letters and underscores |
| Vault.MatchedText | backend/saz/policies/pii_token_vault.py:51 | the prefix, letters and underscores, an underscore, digits and the suffix are matched whole, whatever follows |
| Vault.OnlyTokensMatch | backend/saz/policies/pii_token_vault.py:51 | and nothing else is |
| Vault.TokenIsRead | backend/saz/policies/pii_token_vault.py:176-198 | any token at the start of a text becomes its value when the vault knows it and stays otherwise |
| Vault.TokenVault.Tokenize | backend/saz/policies/pii_token_vault.py:74-109 | the token on record; for a new value `__PII_`, the type in upper case, the next number of its type and `__`, with both maps and the counter extended |
| Vault.TokenVault.TokenizeText | backend/saz/policies/pii_token_vault.py:130-164 | splices the tokens of the findings, handing numbers out from the last finding to the first |
| Vault.TokenVault.DetokenizeText | backend/saz/policies/pii_token_vault.py:166-198 | replaces every match by its value, or leaves it when unknown |
| Vault.ValuesComeBack | backend/saz/policies/pii_token_vault.py:142-198 | for disjoint findings of readable types and no mark outside them, after any earlier and later calls, what is detokenized is the text with each value in the place of its span |
| Vault.RoundTrip | backend/saz/policies/pii_token_vault.py:142-198 | so the text comes back as it was if and only if every value is the whole text of its span |
| Vault.KeyIsLost | backend/saz/policies/pii_detector.py:315-322 | a secret reported with the span of key and secret and the value of the secret alone comes back without its key |
| Vault.WovenReadsBack | backend/saz/policies/pii_token_vault.py:176-198 | scanning a weave of unmarked gaps and known tokens yields the weave of the same gaps and the values |
| Dedupe.Dedupe | backend/saz/policies/pii_detector.py:561-590 | the sort, the covering loop and the final sort by start, with the uniqueness pass shown to change nothing |
| Dedupe.CoverageIsKept | backend/saz/policies/pii_detector.py:561-590 | nothing is invented; every finding lies inside a kept one of at least its priority, and a dropped one is covered by one ranked before it |
| Dedupe.NoneInsideEarlier | backend/saz/policies/pii_detector.py:572-582 | no kept finding lies inside one ranked before it, except the identical span under another type |
| Dedupe.DedupeIsIdempotent | backend/saz/policies/pii_detector.py:561-590 | a second pass returns the same list |
| Dedupe.KeptIffUndominated | backend/saz/policies/pii_detector.py:561-590 | the exact condition: a finding is kept if and only if every other one of at least its priority that encloses it has the same span and another type |
| Dedupe.DisjointIffResolvable | backend/saz/policies/pii_detector.py:561-590 | the kept findings are disjoint if and only if of any two overlapping findings one is superfluous |
| Redaction.RedactMatches | backend/saz/policies/pii_detector.py:309-344 | detection's de-duplication and the splicing of what is left, as one function of the matches |
| Redaction.RedactionIsExact | backend/saz/policies/pii_detector.py:330-344 | under that condition: the text between the kept findings stays, each of them is replaced exactly, and every match lies inside one that is replaced |
| Redaction.MatchesRoundTrip | backend/saz/policies/pii_token_vault.py:200-225 | under that condition: a text whose de-duplicated matches were tokenized comes back, after any earlier and later calls, if and only if their values are their spans |
| Redaction.OverlapSplice | backend/saz/policies/pii_detector.py:337-344 | for any two findings of which the one replaced first begins inside the other or with it, and any replacements: the exact result; a part of the findings is left in the text if and only if the inner one ends first and its replacement is longer than its span, and other text is lost if and only if the replacement is shorter than the overlap |
| Redaction.EndStays | backend/saz/policies/pii_detector.py:561-590 | a finding inside one of lower priority is kept beside it, and a replacement longer than its span leaves the end of the outer one in the text |
| Redaction.OverlapsCanRemain | backend/saz/policies/pii_detector.py:330-344 | a password with an address inside is redacted to the replacement followed by the end of the password |
| Scrub.ScrubString | backend/saz/security/redaction.py:123-129 | the loop over secrets computes the successive replacements |
| Scrub.ScrubbingIsComplete | backend/saz/security/redaction.py:108-136 | when no long secret lies in the replacement, overlaps one of its ends or contains it: no secret in any string at any depth, keys, lengths and shape kept, idempotent, and clean data untouched |
| Scrub.RemovedIffRemovable | backend/saz/security/redaction.py:123-129 | the exact condition for one secret: it is removed from every text if and only if it neither lies in the replacement, nor overlaps one of its ends, nor contains it |
| Scrub.CompleteIffNotInReplacement | backend/saz/security/redaction.py:15 | any number of secrets without stars are removed from every text if and only if none of them is part of the replacement |
| Scrub.SecretBecomesReplacement | backend/saz/security/redaction.py:114-120 | longest first: a string that is a secret becomes exactly the replacement even if it contains shorter secrets |
| Scrub.SecretIsBlanked | backend/saz/security/redaction.py:108-120 | so a value that is a secret of at least four characters is blanked, whatever the other secrets are |
| Scrub.SensitiveIsComplete | backend/saz/security/redaction.py:73-105 | the variant for logs is as complete; it blanks the value of every sensitive key and keeps every other item, entry, key and non-string in its place |
| Scrub.StarsCanLeak | backend/saz/security/redaction.py:123-129 | a secret with a star can be assembled by replacing another one |
| RateLimiter.Limiter.CheckAndRecord | backend/saz/policies/rate_limiter.py:33-84 | the check of both buckets and the recording, as one step on the buckets |
| RateLimiter.Limiter.GetStats | backend/saz/policies/rate_limiter.py:106-128 | prunes and counts the bucket of the hour |
| RateLimiter.BucketsAgree | backend/saz/policies/rate_limiter.py:86-104 | every pruned bucket is the full accepted history as far as any later window can see |
| RateLimiter.PruningChangesNothing | backend/saz/policies/rate_limiter.py:44-84 | for every mix of checks and statistics under a clock that does not go back, exactly the calls are accepted that counting in the full history accepts; refused calls leave no trace |
| RateLimiter.EveryWindowIsWithinLimits | backend/saz/policies/rate_limiter.py:44-84 | every window of a minute holds at most the tool limit of accepted calls, every window of an hour at most the run limit |
| RateLimiter.AllowedIff | backend/saz/policies/rate_limiter.py:44-104 | a call is allowed if and only if fewer calls of its tool than the tool's own limit, or else the common one, were allowed in the last 60 seconds, and fewer of its run than the hourly limit in the last 3600 |
| RateLimiter.NoWindowHoldsMore | backend/saz/policies/rate_limiter.py:44-84 | counting calls: no 60 seconds hold more allowed calls of a tool than its limit, and no 3600 more of a run than the hourly one |
| RateLimiter.StatsCountCalls | backend/saz/policies/rate_limiter.py:106-128 | the statistics count the run's calls allowed in the last 3600 seconds |
| RateLimiter.StatsCountTheHour | backend/saz/policies/rate_limiter.py:106-128 | the statistics count the accepted calls of the last hour |
| RateLimiter.ClockMustNotGoBack | backend/saz/policies/rate_limiter.py:86-104 | with a clock that goes back the bound fails |
| Checksums.LuhnOk | backend/saz/policies/pii_detector.py:95-104 | the loop computes the sum from the right; digits are valid if and only if the standard's sum is a multiple of ten |
| Checksums.LuhnMeetsStandard | backend/saz/policies/pii_detector.py:95-104 | that sum is the one of ISO/IEC 7812-1, Annex B: the digits of each digit times its weight |
| Checksums.LuhnCheckDigit | backend/saz/policies/pii_detector.py:95-104 | exactly one check digit makes a number valid: what the standard's sum lacks to a multiple of ten |
| Checksums.LuhnCatchesOneDigit | backend/saz/policies/pii_detector.py:95-104 | changing one digit of a valid number makes it invalid |
| Checksums.LuhnAndSwaps | backend/saz/policies/pii_detector.py:95-104 | swapping neighbours in a valid number goes unnoticed if and only if they are equal or are 0 and 9 |
| Checksums.IbanOk | backend/saz/policies/pii_detector.py:108-117 | valid if and only if the compact text has 15 to 34 letters and digits and, rearranged and converted, is 1 modulo 97 |
| Checksums.Remainder | backend/saz/policies/pii_detector.py:114-117 | the loop computes the big number modulo 97 |
| Checksums.IbanCatchesOneCharacter | backend/saz/policies/pii_detector.py:108-117 | replacing one digit by another digit or one letter by another letter, anywhere in a valid IBAN, makes it invalid |
| Checksums.CheckDigitsIff | backend/saz/policies/pii_detector.py:108-117 | check digits make a country code and an account number valid if and only if, added to the number with zeros in their place, they leave 1 modulo 97 |
| Checksums.CheckDigitsExist | backend/saz/policies/pii_detector.py:108-117 | so those of the standard, 98 less the remainder, always do |
| Checksums.CharactersCount | backend/saz/policies/pii_detector.py:113 | A counts as 10, Z as 35, digits as themselves |
| EventMerge.MergeEvents | frontend/lib/use-run-events.ts:26-31 | the two loops over the map and the sort |
| EventMerge.MergeIsUnion | frontend/lib/use-run-events.ts:26-31 | a merge is the strictly ascending list of the union, each event once |
| EventMerge.MergeCommutes | frontend/lib/use-run-events.ts:26-31 | commutative |
| EventMerge.MergeAssociates | frontend/lib/use-run-events.ts:26-31 | associative |
| EventMerge.MergeIsIdempotent | frontend/lib/use-run-events.ts:26-31 | merging in any part of what is there changes nothing |
| EventMerge.InOrderIsOrder | frontend/lib/use-run-events.ts:15-23 | the comparison is a total preorder |
| EventMerge.ShowsWhatWasReceived | frontend/lib/use-run-events.ts:58-73 | however fetches and live events interleave, the page shows each received event once, strictly ascending |
| EventMerge.PageIsOrdered | frontend/lib/use-run-events.ts:15-23 | spelled out: an event is shown if and only if it was fetched or came live for this run, and events ascend by timestamp, then by number with unnumbered ones last, then by id |
| EventMerge.Converges | frontend/lib/use-run-events.ts:58-73 | the final list depends only on the set of events received |
| EventMerge.IncoherentDiverges | frontend/lib/use-run-events.ts:26-31 | two different events with one id make the order of fetches visible |
| RefreshSessions.AuthService.RefreshSession | backend/saz/services/auth_service.py:178-215 | rotation, replay revocation and every refusal, as the one step on the rows that the results below are about |
| RefreshSessions.AuthService.StartSession | backend/saz/services/auth_service.py:143-176 | a new row with both expiries counted from now |
| RefreshSessions.AuthService.RevokeSessionBySecret | backend/saz/services/auth_service.py:217-224 | revokes the session of a current secret and nothing else |
| RefreshSessions.AuthService.Revoke | backend/saz/repositories/write/auth_session_repository.py:67-70 | the first revocation stays |
| RefreshSessions.OnlyTheLatestSecretRefreshes | backend/saz/services/auth_service.py:185-215 | a refresh succeeds on a session if and only if the secret is the last one the session was given, the session is active and the user available |
| RefreshSessions.EachSecretRefreshesOnce | backend/saz/services/auth_service.py:185-215 | no secret is exchanged twice, and an exchanged one is never current again |
| RefreshSessions.ReplayRevokes | backend/saz/services/auth_service.py:189-195 | the last but one secret of a session is refused and revokes it; an older or unknown one changes nothing |
| RefreshSessions.RevokedForEver | backend/saz/services/auth_service.py:280-286 | a revoked session never refreshes or authenticates again, and absolute expiry never moves |
| RefreshSessions.AbsoluteExpiryEnds | backend/saz/db/models.py:113-127 | past the absolute expiry set at the start a session neither refreshes nor authenticates, however it was used |
| RefreshSessions.TimesDecide | backend/saz/db/models.py:113-127 | for a session started by one act and last started or refreshed by another: its tokens are accepted if and only if it is not revoked and it is before that last use plus the idle limit and before the start plus the absolute one; and a refresh succeeds if and only if so, for an available user and the secret of that last use |
| RefreshSessions.EachHasLastUse | backend/saz/services/auth_service.py:161-213 | every session has such a last use |
| RefreshSessions.WhatRevokes | backend/saz/services/auth_service.py:189-256 | what one act revokes a session: a logout with its last secret, a revocation by its own user, all of its user's sessions, the last but one secret, or the last one in time when the user is not available; nothing else, and with the time and reason of that act |
| Ordering.SortIsUnique | backend/saz/policies/pii_detector.py:569-570 | a stable sort is determined by its order and the order of ties, so nothing depends on how the models sort |
| Ordering.LexLessIff | frontend/lib/use-run-events.ts:16-22 | text order: the first place where two texts differ decides, and a text comes after its beginnings |

## Left out

- LifecycleSafety.SettledForever: excludes blind resumes and claims that fail a row settled since it was read; LifecycleSafety.ForgettingIffHarm shows that exactly these have to be excluded, Process.OnTimeIsQuiet that late schedule calls are the only source of blind resumes.
- LifecycleSafety.OtherApprovalNeverReruns: excludes the same.
- LifecycleSafety.ApprovedEscalationReruns: excludes claims that revoke the approval (the exact condition of LifecycleSafety.ApprovedStaysPendingIff) and resumes whose caller read another error (LifecycleSafety.ResumeSuitsRowIff).
- LifecycleRefinement.SegmentsRefineOnePass: without blind resumes, unguarded writes over a waiting row, and claims on a row that waits no longer; a stale claim can be harmless by chance, so this last condition is sufficient only. For workflows without skipped or continued-on-failure steps, with non-empty outputs that secret redaction leaves alone; skipped and continued steps are not restored and run again, so the claim is false for them.
- RunStore.Run.Retry: the case in which nothing happens between read and write; RunStore.Run.MayRetry and RunStore.Run.RequeueForRetry are the two steps.
- RunStore.Run.FirstFailed: the row with the lowest step number among several failed ones is not singled out; only whether there is one matters.
- RunStore.SweepOnce: the case in which nothing happens between selection and updates; RunStore.FailSelected makes no assumption on the states it finds. The exception swallowed for a single run is not modelled.
- Lifecycle.StepChangesRows: an exception after a step succeeded but before the loop goes on (recording usage, the row lookup, broadcasting) reaches the step's error handling with a completed row; the machine has no such action beyond `Crash`.
- Redaction.MatchesRoundTrip: disjoint findings only; what tokenizing overlapping findings gives is that of Redaction.OverlapSplice with tokens as replacements.
- Executor.ExecuteRun: the method shows a segment that nobody interrupts; other callers' steps between those of a segment are in `Lifecycle` and `Process`.
- Scrub.ScrubbingIsComplete: sufficient for several secrets; the exact condition is given for one (Scrub.RemovedIffRemovable) and for any number without stars (Scrub.CompleteIffNotInReplacement).
- What a caller reads is its run's error and one waiting row; status checks before the claim only refuse earlier, and a deleted row is not modelled (rows are never deleted).
- Server shutdown and worker threads that die: they drop the re-check by design and are no transitions here.
- The flow that is missing or has no workflow, replay of used budget, and what a run's error says beyond its suspension payload.
- The policy engine, the budget tracker and the verifier are oracles of `Gate`; their own counters and allow-lists are not modelled.
- `detokenize_dict`, `path_matches_allowed`, `tokenize_dict` and `scan_for_tokens`: walks over nested data around the functions that are modelled.
- The detectors' patterns (only that type and span identify a match is used), validators other than the two checksums, and the maskers: findings are inputs, a masker is any function of a finding.
- Findings' `note`: not part of identity in the uniqueness pass, and unused by the parts modelled.
- Conditions.Parser.Parse: a resolver that raises, `float` and `str` of Python, and NaN and infinities are outside; numbers are reals, and the two conversions are parameters.
- Character classes and case are ASCII; Unicode digits, letters and spaces are not modelled.
- RateLimiter.EveryWindowIsWithinLimits: fixed limits and no `reset`; `Reset` itself is a method.
- Checksums.IbanOk: a character that `int` refuses makes the verdict `NotANumber`; the original raises ValueError there.
- EventMerge.Converges: the socket, reconnecting, query caches and rendering are not modelled; a fetch delivers any list of events.
- RefreshSessions.OnlyTheLatestSecretRefreshes: the hash is free of collisions and the generator never returns a secret issued before; JWT encoding, cookies and the user row's own checks are not modelled.
- Templates, prompts, artifacts, events' texts, error categories and telemetry.
