# CloudGuard AI: a verified model of its control logic

This project models, in Dafny, the parts of CloudGuard AI whose correctness rests on protocols,
state machines and arithmetic, and proves what their code and documentation promise.

| module | what it models |
|---|---|
| `ApprovalModel`, `ApprovalStore` | human decisions, the projection to the only executable action, its allowlist; the approvals table, the conditional statements on one row, and the services that read, compare and set |
| `WorkflowGraph` | the fixed Step Functions graph, built edge by edge |
| `ApprovalProtocol`, `ApprovalSafety`, `ApprovalLeases`, `ApprovalTheorems`, `ApprovalOutcomes` | the whole human-gated workflow as a transition system: workflow runs, racing Managers, recovery workers that crash and go stale, executors that outlive their state, a clock; its invariant; what each step does to markers and leases; the theorems over every interleaving; how executions end and along which edges runs move |
| `RecoveryWorker` | the scheduled recovery run's pagination and counters |
| `Redaction`, `PromptFraming` | span merging and masking; the nonce-framed prompt and a parser for it |
| `DocumentChunks`, `DocumentProcessing`, `DocumentRace` | chunking, mask-then-slice, embedding budgets; processing one document from claim to terminal status; any number of workers interleaved on one document |
| `Scoring`, `AssessmentLifecycle`, `AssessmentHistory` | the scoring engine with its two roundings; assessments, snapshots, overrides and finalisation over whole runs; what each operation changes and what the stored rows hold after any run |
| `WorkAdmission`, `RateLimits` | expiring owner-checked slots; fixed-window quotas |
| `ContextPacking`, `AgentWorkflow`, `RagAnswer`, `CandidateExtraction` | the greedy context packers and what the agents and services check against the packed evidence |
| `CiVerification`, `Percentile` | the deployment gate over CI check runs; the interpolated latency percentile |

Classes carry the state the repository updates in place: tables, stores, services. Each of their
methods is proved equal, in result and new state, to a function of the old state; the theorems are
about those functions and their runs. Concurrency is modelled by steps of a transition system, or by
the acts of other sessions passed to a method and applied between its own statements. Whatever comes
from outside (clock readings, random tokens, replies of models, storage and queues, what a detector
finds) is a parameter, so every theorem holds for all of it.

Where the code and its documentation part, the model follows the code:

- The override that counts is the one with the latest transaction start, not the last one written
  (`backend/app/adapters/local/compliance_repository.py:610-618`), so an accepted override can have no
  effect: see `OverrideTakesEffectExactlyWhenNewest`.
- A submitted control weight is stored with one decimal place
  (`backend/app/repositories/tables.py:334-336`), so it is the stored weight that is scored.

The bound on concurrent bodies of admitted work (`BodiesAreBounded`) counts bodies still inside their
lease. The code relies on the lease of 600 seconds, which starts at the clock reading taken before the
slot is acquired, outlasting every worker's runtime
(`backend/app/services/work_admission.py:21`, `:45-54`); `AnOverrunBodyOverlaps` shows why that
hypothesis is needed.

Run `dafny verify dfyconfig.toml`.

## Model

| member | source | states |
|---|---|---|
| `ApprovalModel.CheckRequest` | backend/app/models/approval.py:138-156 | A decision body is accepted exactly when a replacement action is present for "modified" and only then, and a justification is present for every decision but "approved"; it is returned unchanged. |
| `ApprovalModel.BuildEvidence` | backend/app/services/workflow_recommendation.py:21-37 | Accepted exactly when both ids of every item parse; then the references are those ids, in order, one for each item. |
| `ApprovalModel.Project` | backend/app/services/approved_action_projection.py:23-42 | Exactly a decided approval of a valid decision is projected: approved keeps the proposed action, modified takes the replacement, rejected names none. |
| `ApprovalModel.KeysIdentifyProjections` | backend/app/services/approved_action_projection.py:31-42 | Two projections carry the same idempotency key exactly when they are the same projection. |
| `ApprovalModel.PolicyAcceptsOnlySummaryEdits` | backend/app/services/approved_action_policy.py:23-56 | For an approval created from a workflow: accepted unmodified the policy returns the proposal, and a replacement passes if and only if it differs from the proposal in its summary alone. |
| `ApprovalStore.ApprovalTable.CreatePending` | backend/app/adapters/aws/approval_creation_repository.py:193-225 | Insert, keep an identical pending row as it is, or refuse; no other row changes. |
| `ApprovalStore.ApprovalTable.DecidePending` | backend/app/adapters/local/approval_repository.py:130-172 | Compare-and-set: succeeds exactly on a pending undecided row and then records this decision; otherwise the table is unchanged. |
| `ApprovalStore.ApprovalTable.Claim` | backend/app/adapters/aws/approval_callback_recovery_repository.py:324-458 | A lease is given exactly on a decided, undelivered row without a live lease; the payload is the one the row determines. |
| `ApprovalStore.ApprovalTable.MarkDelivered` | backend/app/adapters/aws/approval_callback_recovery_repository.py:460-518 | Marks exactly when the caller still holds the lease; otherwise nothing changes. |
| `ApprovalStore.ApprovalTable.ReleaseClaim` | backend/app/adapters/aws/approval_callback_recovery_repository.py:520-577 | Releases exactly when the caller still holds the lease; otherwise nothing changes. |
| `ApprovalStore.ApprovalTable.ExecuteForWorkflow` | backend/app/adapters/aws/approval_execution_repository.py:438-494 | The bounded readiness polls followed by one locked transaction: the row after the polls decides the outcome, and only this row and the reviews change. |
| `ApprovalStore.PollsUntilDelivery` | backend/app/adapters/aws/approval_execution_repository.py:438-494 | Polling waits exactly as long as the recorded decision is undelivered and polls are left; the row found is the one after those waits. |
| `ApprovalStore.ExecutionIsExact` | backend/app/adapters/aws/approval_execution_repository.py:622-859 | On a delivered decision without a review: a rejection changes nothing, an action whose type, resource type and identifier fit inserts its one review and succeeds, any other fails with the code of the rule its fields break. |
| `ApprovalStore.OnlyStalenessStealsALease` | backend/app/adapters/aws/approval_callback_recovery_repository.py:344-400 | Over any statements of other sessions on the row, a holder keeps its lease exactly unless one of them claimed it after it went stale, and until then row and reviews do not change at all. |
| `ApprovalStore.ApprovalService.Decide` | backend/app/services/approval.py:81-107 | Success exactly when nobody else decided before or between read and write; a loser reports a conflict and leaves the winner's decision in place. |
| `ApprovalStore.ApprovalCallbackService.ResumeDecided` | backend/app/services/approval_callback.py:26-70 | One attempt under interference: what is sent, which of the four results is reported, and the row and reviews that are left, for every send reply and everything other recovery sessions and the executor commit on the row in between. |
| `ApprovalStore.ApprovalCreationService.CreateFromWorkflow` | backend/app/services/approval_creation.py:21-57 | Refused for exactly the first of six reasons that applies, the table unchanged; otherwise the row is pending, proposes exactly the action bound to this execution, and each reference holds its item's chunk and document identifiers. |
| `ApprovalStore.RefusalsInOrder` | backend/app/services/approval_creation.py:21-57 | Each of the six reasons on the request's own fields and the stored row. |
| `WorkflowGraph.BuildAgentWorkflow` | infrastructure/stacks/agent_workflow_stack.py:514-578 | The constructor calls leave exactly the edges, catches, branches and defaults of the fixed workflow. |
| `WorkflowGraph.MovesAreSuccessors` | infrastructure/stacks/agent_workflow_stack.py:536-578 | The moves of the built graph under given state data are exactly the listed successor relation. |
| `WorkflowGraph.ExecutionIsGated` | infrastructure/stacks/agent_workflow_stack.py:536-578 | The action state is reached by one path only, behind a PASS and a decision that is not a rejection; no path has more than nine states. |
| `WorkflowGraph.OnlyTerminalsStop` | infrastructure/stacks/agent_workflow_stack.py:468-512 | A state can move, whatever the data, if and only if it is not one of the six terminals. |
| `ApprovalOutcomes.RunsFollowTheWorkflow` | infrastructure/stacks/agent_workflow_stack.py:536-578 | In every reachable state each step moves every run along an edge of the workflow under the run's own data, or not at all, and only the Reviewer's task sets the verdict. |
| `ApprovalOutcomes.TasksGoOnOrFail` | infrastructure/stacks/agent_workflow_stack.py:514-534 | A finished task goes on; a failed one ends the run in the failure of its kind. |
| `ApprovalSafety.ExecutionTransaction` | backend/app/adapters/aws/approval_execution_repository.py:550-859 | On a reachable row the transaction inserts at most the one projected review, never takes the inconsistency branches, takes only allowed status transitions, and executes every unmodified delivered approval. |
| `ApprovalSafety.TokenFindsItsRun` | backend/app/adapters/aws/approval_callback.py:39-68 | The run a delivered token resumes is the run whose approval carried it. |
| `ApprovalSafety.StepKeeps` | backend/app/services/approval_callback.py:35-70 | Every one of the fifteen kinds of step, by any actor, keeps the protocol invariant and extends the history: decisions, sent payloads, reviews, tokens and markers are never taken back. |
| `ApprovalTheorems.InterleavingsKeep` | backend/app/models/approval.py:206-226 | Over any interleaving the invariant holds and recorded facts never change. |
| `ApprovalTheorems.OnlyAuthorisedActionsExecute` | infrastructure/stacks/agent_workflow_stack.py:536-578 | In every reachable state a workflow has at most one executed review, only behind a PASS and its one recorded decision, and it is exactly the projected action; a run that ended executed has one, a rejected run none. |
| `ApprovalTheorems.OutcomesAreFinal` | backend/app/services/approval.py:91-107 | Whatever happens later, a recorded decision, an executed action, a rejection and a refused execution stay as they are. |
| `ApprovalTheorems.UnmodifiedApprovalsAreNeverRefused` | backend/app/services/approved_action_policy.py:19-56 | In every reachable state, executing a delivered approval accepted unmodified succeeds or replays, with the proposed action. |
| `ApprovalOutcomes.ExecutionEndsAsDecided` | backend/app/adapters/aws/approval_execution_repository.py:622-859 | In every reachable state the transaction on a delivered decision succeeds with one review if and only if it is approved or its replacement equals the proposal apart from the summary; otherwise it fails with the code of the rule the replacement breaks, and the run ends accordingly. |
| `ApprovalOutcomes.ExecutionsAreAnsweredAgain` | backend/app/adapters/aws/approval_execution_repository.py:565-620 | In every reachable state a transaction on a terminal or undelivered row changes neither row nor reviews, and reports a success only where one is stored. |
| `ApprovalTheorems.OneManagerWins` | backend/app/services/approval.py:79-107 | Of any number of racing Managers at most one decision is recorded, and it is the row's. |
| `ApprovalOutcomes.DecisionsAreRecordedAsGiven` | backend/app/services/approval.py:79-107 | A decision appears in a row by the write of a Manager who read it pending, and with exactly that Manager's request, name and time. |
| `ApprovalTheorems.LateManagersChangeNothing` | backend/app/services/approval.py:102-105 | Once a decision is recorded, then after any further interleaving a write based on an earlier pending read changes no run. |
| `ApprovalTheorems.OnlyTheHolderMarksDelivery` | backend/app/services/approval_callback.py:44-70 | The delivery marker turns on only by a worker whose own send was accepted and whose claim is the current lease, held by no other worker. |
| `ApprovalTheorems.StaleWorkersChangeNothing` | backend/app/ports/approval_callback_recovery_repository.py:55-71 | Once another worker's claim succeeded, then over any further interleaving every mark or release under a claim issued before changes no run. |
| `ApprovalLeases.SupersededForGood` | backend/app/adapters/aws/approval_callback_recovery_repository.py:344-400 | Over any interleaving a claim that does not hold a row's lease never holds it again. |
| `ApprovalTheorems.PayloadsNeverDiffer` | backend/app/services/approval_callback.py:44-49 | Every payload ever sent for one approval is the same one, determined by its recorded decision and token. |
| `ApprovalOutcomes.SentPayloadsSayWhatWasDecided` | backend/app/services/approval_callback.py:44-49 | Every payload sent carries the approval's token, its recorded decision, and the action that decision leaves. |
| `ApprovalTheorems.LeasesAreRespected` | backend/app/deployed_approval_callback_recovery_worker.py:62-64 | A lease is taken over only when it is more than 300 seconds old. |
| `ApprovalTheorems.DecisionsStayRecoverable` | backend/app/services/approval_callback.py:35-70 | From every reachable state, crashes included, any idle worker can claim a decided undelivered approval once the lease time has passed, and delivers it when its send is accepted. |
| `ApprovalTheorems.ExecutionIsReachable` | infrastructure/stacks/agent_workflow_stack.py:536-578 | For every workflow id that is a UUID and every evidence, an interleaving leads from the empty system to the executed end, with the one review the recommendation proposed. |
| `RecoveryWorker.Run` | backend/app/deployed_approval_callback_recovery_worker.py:53-118 | Over tables that may change between pages: organisations are visited in ascending order, none twice, every one present throughout, and the four counters are those of the visited ones. |
| `RecoveryWorker.VisitOne` | backend/app/deployed_approval_callback_recovery_worker.py:94-106 | Delivered and failed count the resumed and the raised attempts of the batch; a failure does not stop it. |
| `RecoveryWorker.EveryVisitTakesTheFirst` | backend/app/deployed_approval_callback_recovery_worker.py:82-92 | Each visit takes on the first 25 listed approvals, or all of fewer, at its place in the run. |
| `RecoveryWorker.ReportCountsTheAttempts` | backend/app/deployed_approval_callback_recovery_worker.py:94-118 | The candidates are those first ones of every visited organisation, and delivered and failed the multiplicities of resumed and raised among them. |
| `RecoveryWorker.PagesAreFull` | backend/app/deployed_approval_callback_recovery_worker.py:72-80 | A page holds the next 500 organisations or all that are left. |
| `RecoveryWorker.StableTableIsVisitedExactly` | backend/app/deployed_approval_callback_recovery_worker.py:72-111 | Over tables that are all the same, any ascending visited sequence that is complete and holds only existing organisations, as the run's is, is the table. |
| `RecoveryWorker.ReportIsConsistent` | backend/app/deployed_approval_callback_recovery_worker.py:113-118 | Delivered plus failed never exceed the candidates, which are at most 25 for each organisation. |
| `Redaction.SortFindings` | backend/app/security/sensitive_data.py:108 | A permutation of the findings, ordered by start and end. |
| `Redaction.MergeSpans` | backend/app/security/sensitive_data.py:107-113 | The merged spans are sorted, disjoint and non-touching, and cover exactly the positions some finding covers. |
| `Redaction.CanonicalSpansAreUnique` | backend/app/security/sensitive_data.py:107-113 | Sorted, disjoint, non-touching spans are determined by the positions they cover. |
| `Redaction.Redact` | backend/app/security/sensitive_data.py:95-122 | Refused exactly on an invalid finding; otherwise the position-wise masked text, or the text with each maximal covered run replaced by the placeholder. |
| `Redaction.RedactionReplacesRuns` | backend/app/security/sensitive_data.py:107-122 | Uncovered stretches are kept as they are and each maximal covered run becomes one placeholder. |
| `Redaction.OrderAndRepetitionDoNotMatter` | backend/app/security/sensitive_data.py:108-121 | Permuting or repeating findings does not change the output. |
| `Redaction.RedactionCreatesNoHexWord` | backend/app/security/sensitive_data.py:115-122 | A non-empty word of lower-case hex digits that occurs in the redacted text occurs in the original: redaction creates no nonce. |
| `PromptFraming.NewBoundaryNonce` | backend/app/security/prompt_isolation.py:138-144 | The nonce is absent from every untrusted value; it fails exactly when all eight draws collide. |
| `PromptFraming.BuildIsolatedUserPrompt` | backend/app/security/prompt_isolation.py:61-135 | Built exactly when task and contract are not blank, every identifier key is well formed, some draw collides with nothing and every finding is valid, each refusal with its own condition; the nonce is absent from all raw values, and parsing the prompt under it gives back the task, the identifiers, the redacted request, the sections in order and the contract. |
| `PromptFraming.FramingRoundTrip` | backend/app/security/prompt_isolation.py:92-135 | A parser that trusts only exact-nonce markers recovers the redacted request, the ordered section names and redacted contents, and the contract, whatever the untrusted texts contain. |
| `PromptFraming.HeadRoundTrip` | backend/app/security/prompt_isolation.py:92-104 | The parser also recovers the task and the serialised identifiers, whatever task and untrusted texts contain, when the serialisation is one line. |
| `PromptFraming.MarkersNameTheirBlock` | backend/app/security/prompt_isolation.py:106-132 | The markers of a section carry its name and the nonce, those of the request the nonce. |
| `PromptFraming.KeysStartWithALetter` | backend/app/security/prompt_isolation.py:21-21 | A key is accepted exactly when it is a small letter and at most 63 small letters, digits and underscores. |
| `DocumentChunks.PiecesConcatenate` | backend/app/services/document_processing.py:439-442 | The pieces of any text concatenate to it. |
| `DocumentChunks.ChunksAreTheStrippedText` | backend/app/services/document_processing.py:426-464 | Chunking succeeds exactly within the character limit: then at most 200 non-empty chunks of at most 1000 characters that concatenate to the stripped text; the chunk limit is never hit. |
| `DocumentChunks.AllButTheLastAreFull` | backend/app/services/document_processing.py:439-442 | Every chunk but the last has 1000 characters. |
| `DocumentChunks.MaskThenSlice` | backend/app/services/document_processing.py:259-271 | The embedded slices concatenate to the masked document; slice k is as long as chunk k and differs from it, by an asterisk, exactly at covered positions, findings across boundaries included. |
| `DocumentChunks.CategoriesAreExact` | backend/app/services/document_processing.py:456-460 | Chunk k lists a category exactly when a finding of that category covers one of its positions. |
| `DocumentChunks.CheckedEmbeddingInputs` | backend/app/security/model_budgets.py:45-54 | Accepted, unchanged, exactly when the batch, every text and the running octet total are within their ceilings. |
| `DocumentChunks.AcceptedDocumentsFitTheEmbeddingBudget` | backend/app/security/ingestion_limits.py:6-9 | No document within the ingestion limits can fail the embedding budget, whatever is masked. |
| `DocumentChunks.TheTotalCeilingIsMetExactly` | backend/app/security/model_budgets.py:12-14 | 200,000 characters of four octets each meet the 800,000-octet ceiling exactly. |
| `DocumentProcessing.CollectPages` | backend/app/services/document_processing.py:406-415 | The running counter is the length of the joined text; refused exactly when that length passes the limit. |
| `DocumentProcessing.PagesStandInOrder` | backend/app/services/document_processing.py:406-415 | Page k stands in the joined text at the offset of the earlier pages and their line feeds, before a line feed or the end. |
| `DocumentProcessing.ExtractPdfText` | backend/app/services/document_processing.py:384-424 | Text exactly for a readable, unencrypted PDF within page and character limits whose joined pages are not blank; quarantine exactly for an encrypted one. |
| `DocumentProcessing.DocumentRecord.ClaimForProcessing` | backend/app/adapters/aws/document_processing_repository.py:180-222 | The claim succeeds exactly on a queued document and moves it to extracting. |
| `DocumentProcessing.DocumentRecord.Extract` | backend/app/services/document_processing.py:153-254 | Extraction ends in indexing with the stored chunks, in quarantine with its event, or in failure with its event, by what the body holds. |
| `DocumentProcessing.DocumentRecord.Embed` | backend/app/services/document_processing.py:256-275 | Embedding yields a vector count exactly when the findings are valid and the count equals the chunk count; the embedding ceilings never refuse. |
| `DocumentProcessing.DocumentRecord.Index` | backend/app/services/document_processing.py:256-382 | Ready with the indexed event exactly when the findings are valid and both vector counts equal the chunk count; otherwise failed with the failure event. |
| `DocumentProcessing.DocumentRecord.ProcessDocument` | backend/app/services/document_processing.py:62-382 | Without the claim nothing changes; with it exactly one terminal status with exactly one matching event, the chunks of the text whenever there is one, and the error of the fault. |
| `DocumentProcessing.OutcomeIsExact` | backend/app/services/document_processing.py:78-382 | Quarantined exactly when unsupported or encrypted, ready exactly when the body holds a text and both vector counts are its number of begun thousands, failed otherwise; the event says the same. |
| `DocumentProcessing.FailuresAreNamed` | backend/app/services/document_processing.py:116-254 | A failure is reported as a conflict exactly when the body is too large or yields no text. |
| `DocumentProcessing.DocumentRecord.ProcessClaimed` | backend/app/services/document_processing.py:78-382 | Every claimed run ends in the status its environment determines, with one matching event, and raises an error exactly when that status is failed. |
| `DocumentRace.AtMostOneWinner` | backend/app/services/document_processing.py:62-382 | However any number of workers interleave statement by statement and crash, at most one passes the claim and at most one event is published; once the winner has ended there is exactly its event, with the status and chunks of an undisturbed run. |
| `DocumentRace.FirstToTryWins` | backend/app/adapters/aws/document_processing_repository.py:180-222 | In every reachable state a try at the claim succeeds exactly when no worker passed it before. |
| `DocumentRace.EndedDocumentsStay` | backend/app/services/document_processing.py:65-77 | Over any further interleaving the record of an ended run does not change. |
| `DocumentRace.SoloRunEnds` | backend/app/services/document_processing.py:62-382 | For every environment, one worker's statements in order end with the status and event of its whole run. |
| `Scoring.Compute` | backend/app/services/compliance_scoring.py:85-179 | Succeeds exactly on distinct identifiers and well-formed inputs; each entry earns 100 when satisfied, 50 when partially satisfied, seven tenths of that without evidence, 0 otherwise; sums, counts, override flag and class are those of the list in any order. |
| `Scoring.ResultIsExplained` | backend/app/services/compliance_scoring.py:57-155 | What each entry of a result earned, how many controls apply, that the flag means a deficient control of weight 5, and the class by the thresholds on the risk. |
| `Scoring.OverallIsTheMeanOfItsEntries` | backend/app/services/compliance_scoring.py:107-141 | The overall score is within 0.01 of the weighted mean of the points in the result's own entries. |
| `Scoring.ScoreStaysInRange` | backend/app/services/compliance_scoring.py:133-151 | A score exists exactly when some control applies; then score and risk lie in 0.00..100.00 and add up to 100, for all weights in 1..5 and both roundings. |
| `Scoring.ScoreIsAccurate` | backend/app/services/compliance_scoring.py:72-82 | The score is within 0.01 of the exact weighted average. |
| `Scoring.ClassificationFollowsTheScore` | backend/app/services/compliance_scoring.py:143-199 | The class is the public classification of the score, except that the critical override makes it critical. |
| `Scoring.OrderDoesNotMatter` | backend/app/services/compliance_scoring.py:104-105 | A result promised for a list is promised for every permutation of it. |
| `Scoring.EngineIsOrderBlind` | backend/app/services/compliance_scoring.py:104-155 | Permuted inputs give the same result, per-control scores included. |
| `Scoring.UniformScoresAreExact` | backend/app/services/compliance_scoring.py:25-36 | When all applicable controls earn the same raw score, that score is the result exactly, whatever their weights. |
| `Scoring.ImprovingNeverHurts` | backend/app/services/compliance_scoring.py:59-82 | Raising any statuses to partially satisfied or satisfied, or adding evidence, with weights fixed, never lowers the score and never worsens the class. |
| `AssessmentLifecycle.ApplyKeepsInv` | backend/app/services/compliance.py:268-405 | Every operation, accepted or refused, keeps: consecutive revisions, faithful snapshots, anchored overrides, a current score, and no completion without one. |
| `AssessmentHistory.RowsShowTheLastUpdates` | backend/app/adapters/local/compliance_repository.py:249-287 | After any run from creation each row is the framework's, with the status of the last accepted update that gave it one, else unassessed, and the weight of the last that gave one to the nearest tenth, else the default. |
| `AssessmentHistory.EvidenceIsWhatWasAdmitted` | backend/app/services/compliance.py:325-405 | After any run the evidence is exactly what was admitted, and nothing is attached twice. |
| `AssessmentHistory.UpdateChangesOneRow` | backend/app/services/compliance.py:299-323 | An accepted update changes only the row it names, in the fields it gives, and withdraws the score. |
| `AssessmentHistory.InputsAreTheRows` | backend/app/services/compliance.py:453-480 | The engine's inputs are each row's control, status and weight and the number of its evidence rows. |
| `AssessmentHistory.ComputationWritesASnapshot` | backend/app/services/compliance.py:482-535 | One new snapshot with the next revision, of the inputs as they are, sorted; the stored score is the snapshot's. |
| `AssessmentHistory.OverrideIsAppendedAsGiven` | backend/app/services/compliance.py:715-759 | One new row that names the latest snapshot and its score, with the given score to the hundredth and its class by the thresholds. |
| `AssessmentHistory.UpdateRefusals` | backend/app/services/compliance.py:285-304 | Not found, conflict and invalid, each exactly on the row, the status and the weight. |
| `AssessmentHistory.AdmissionRefusals` | backend/app/services/compliance.py:340-400 | Each refusal of evidence exactly on the row, the status, the document, the chunk's owner and what is attached already. |
| `AssessmentHistory.OverrideRefusals` | backend/app/services/compliance.py:690-713 | From a reachable state an override is accepted exactly with a score in range, a reason, no archive and a current score. |
| `AssessmentLifecycle.StoredScoreIsTheEnginesScore` | backend/app/services/compliance.py:407-535 | In every reachable state a stored version means the stored score is the engine's on the inputs as stored now, and equals the latest snapshot. |
| `AssessmentLifecycle.HistoryOnlyGrows` | backend/app/adapters/local/compliance_repository.py:483-516 | Snapshots and overrides are append-only over any run, and revisions are 1, 2, 3, … |
| `AssessmentLifecycle.FreshnessGuardIsExact` | backend/app/services/compliance.py:703-713 | The freshness guard passes if and only if a computation was accepted and no accepted input change followed it. |
| `AssessmentLifecycle.EffectiveOverrideNamesTheLatestSnapshot` | backend/app/services/compliance.py:133-167 | In every reachable state an effective override names the latest snapshot of a current score and its class fits its score; without one the own score is effective. |
| `AssessmentLifecycle.RecomputeRetiresOverrides` | backend/app/services/compliance.py:157-161 | A recompute retires every earlier override, even with an equal score, through any later operations that write no new one. |
| `AssessmentLifecycle.OverrideTakesEffectExactlyWhenNewest` | backend/app/adapters/local/compliance_repository.py:604-622 | An accepted override becomes effective if and only if no stored override has a later timestamp, or the same one with a greater identifier. |
| `AssessmentLifecycle.EarlierStampIsShadowed` | backend/app/adapters/local/compliance_repository.py:610-618 | A second override of one snapshot whose transaction started earlier is accepted and leaves the effective scores as they were. |
| `AssessmentLifecycle.AnAcceptedOverrideCanBeShadowed` | backend/app/adapters/local/compliance_repository.py:610-618 | A concrete case reached from creation: scores 90 and 80 over one computation, stamped 20 and 10; the second is accepted and the first one's 90 stays effective. |
| `AssessmentLifecycle.FinalizeExactly` | backend/app/services/compliance.py:782-811 | Finalisation succeeds exactly on an open assessment with a current score. |
| `AssessmentLifecycle.CompletedIsFrozen` | backend/app/services/compliance.py:293-296 | After completion only the list of overrides can change, and the score stays the engine's. |
| `AssessmentLifecycle.ComputeIsRefusedOnlyWhenClosed` | backend/app/services/compliance.py:431-434 | With a well-formed framework no reachable state makes the engine refuse, stored weights rounded to one place included. |
| `AssessmentLifecycle.AssessmentRecord.UpdateControlAssessment` | backend/app/services/compliance.py:268-323 | The method's result and whole new state are those of the update operation. |
| `AssessmentLifecycle.AssessmentRecord.Admit` | backend/app/services/compliance.py:325-405 | The same for evidence: the store touches first, a duplicate rolls everything back. |
| `AssessmentLifecycle.AssessmentRecord.GroupEvidence` | backend/app/services/compliance.py:453-457 | The control rows are exactly the groups, and each holds the identifiers of its evidence in the order read, an empty one for a row without evidence. |
| `AssessmentLifecycle.GroupsHoldTheirEvidence` | backend/app/services/compliance.py:453-457 | An identifier is in a row's group exactly when a piece of evidence with that identifier is attached to that row. |
| `AssessmentLifecycle.AssessmentRecord.Compute` | backend/app/services/compliance.py:407-535 | The same for computing: grouped evidence, sorted inputs, one new snapshot with the next revision. |
| `AssessmentLifecycle.AssessmentRecord.Override` | backend/app/services/compliance.py:668-759 | The same for an override: guards in order, rounded score, derived class. |
| `AssessmentLifecycle.AssessmentRecord.FinalizeAssessment` | backend/app/services/compliance.py:761-813 | The same for finalisation. |
| `WorkAdmission.SlotStore.TryAcquire` | backend/app/adapters/aws/work_lease_store.py:48-61 | Acquires exactly an absent or expired slot; an expiry not in the future is an error. |
| `WorkAdmission.SlotStore.Release` | backend/app/adapters/aws/work_lease_store.py:63-69 | Deletes exactly a slot still owned by the caller. |
| `WorkAdmission.WorkAdmission.Admit` | backend/app/services/work_admission.py:44-104 | Takes the first free slot or none; whatever follows, exactly that slot is offered back once by its owner; the body runs exactly when the rate debit is admitted. Every error, counter and table entry is determined, also when the reply to an acquire, a debit or a release is lost after or before its write. |
| `WorkAdmission.BodiesAreBounded` | backend/app/services/work_admission.py:45-58 | Under every interleaving, bodies of one tenant and kind still inside their lease are at most two for model work and one for ingestion. |
| `WorkAdmission.UnexpiredOwnersAreBounded` | backend/app/services/work_admission.py:48-58 | The same bound on the owners of unexpired slots. |
| `WorkAdmission.OnlyTheOwnerOrExpiryFreesASlot` | backend/app/ports/work_lease_store.py:8-15 | One step takes a recorded lease away only by its owner's release or after expiry: a late release never frees a slot that changed hands. |
| `WorkAdmission.UnexpiredLeasesPersist` | backend/app/ports/work_lease_store.py:8-15 | Over whole runs an unexpired lease is still there unless its owner gave it back. |
| `WorkAdmission.TimelyReleaseFreesTheSlot` | backend/app/services/work_admission.py:92-97 | A worker leaving inside its lease frees exactly its slot. |
| `WorkAdmission.FreeSlotIsFound` | backend/app/services/work_admission.py:52-58 | Abandoned capacity comes back: a fresh worker gets the first slot free as of its whole second. |
| `WorkAdmission.FirstFreeExactly` | backend/app/services/work_admission.py:48-58 | The slot taken is the first of two, or of one for ingestion, that is absent or expired; none exactly when all are live. |
| `WorkAdmission.AnOverrunBodyOverlaps` | backend/app/services/work_admission.py:21 | A concrete run: an ingestion body past its 600 seconds overlaps the next one, so the lease hypothesis is needed. |
| `RateLimits.WaitingReachesALaterWindow` | backend/app/security/rate_limits.py:79-91 | Retry-after is between 1 and the window length, and waiting it lands in the next window. |
| `RateLimits.NoShorterWaitHelps` | backend/app/security/rate_limits.py:88-91 | No shorter positive number of whole seconds leaves the window. |
| `RateLimits.CountersAreSeparate` | backend/app/security/rate_limits.py:70-87 | Two requests draw on one counter exactly when scope, policy, window length, subject and window are the same. |
| `RateLimits.RateLimitStore.Consume` | backend/app/adapters/aws/rate_limit_store.py:26-65 | Admits exactly below the limit and then counts one. |
| `RateLimits.EnforceRateLimit` | backend/app/security/rate_limits.py:70-91 | The counter drawn on, the verdict and the retry-after, for every reading of the clock; a request whose reply is lost, counted or not, is refused. |
| `RateLimits.WindowAdmitsExactlyTheLimit` | backend/app/security/rate_limits.py:79-87 | Over any interleaved trace, each window counts exactly the first `limit` calls that reach it and admits no more than it counts; when every call is answered it admits exactly those. |
| `RateLimits.AnyIntervalAdmitsAtMostTwice` | backend/app/security/rate_limits.py:80-83 | At most twice the limit in any interval one window long, wherever it starts. |
| `RateLimits.TwiceTheLimitIsReached` | backend/app/security/rate_limits.py:80-83 | For every policy a trace reaches twice the limit in such an interval. |
| `ContextPacking.PackTruncating` | backend/app/services/risk_agent.py:73-97 | The loop packs the specified blocks; its counter is the length of their join and never passes the ceiling. |
| `ContextPacking.PackedTextIsATruncation` | backend/app/services/risk_agent.py:77-97 | The packed text is the first characters, up to the ceiling, of the admitted items joined in full. |
| `ContextPacking.AdmittedIsMaximal` | backend/app/services/risk_agent.py:82-86 | An item is admitted if and only if its header and one more character fit after all earlier items in full. |
| `ContextPacking.AdmissionIsMonotone` | backend/app/services/risk_agent.py:82-97 | A larger ceiling admits at least as many items. |
| `ContextPacking.PackComplete` | backend/app/services/rag.py:133-180 | The join is the specified source text, its counter its length, never above the ceiling; complete items, or one cut first item. |
| `ContextPacking.WholeIsMaximal` | backend/app/services/rag.py:143-180 | k complete items fit if and only if the packer takes at least k. |
| `ContextPacking.BlockStandsInText` | backend/app/services/rag.py:143-180 | Every block stands whole in the joined text, after the earlier ones and before two line feeds or the end. |
| `AgentWorkflow.Assess` | backend/app/services/risk_agent.py:62-207 | Estimates pass exactly when at most ten, distinct and inside the packed context; without context the model is not asked. |
| `AgentWorkflow.Review` | backend/app/services/reviewer_agent.py:66-269 | Which of the three checks made before the model decides, and when the verdict is the model's own. |
| `AgentWorkflow.RunSteps` | backend/app/services/agent_workflow.py:151-200 | No request is rejected after a valid research result; with the Reviewer ceiling at least the Risk ceiling and evidence, every decision is the Reviewer model's own; it fails exactly when an agent does, and success means the model's PASS. |
| `AgentWorkflow.ReviewerReadsWhatRiskRead` | backend/app/services/reviewer_agent.py:117-141 | The Risk text is a prefix of the text of a Reviewer with a larger ceiling. |
| `AgentWorkflow.ContextsAgreeExactly` | backend/app/services/reviewer_agent.py:143-162 | All estimate lists Risk can accept are inside the Reviewer context if and only if the Reviewer admits at least as many items. |
| `AgentWorkflow.ContextNamesItsEvidence` | backend/app/services/risk_agent.py:71-97 | The text printed for admitted evidence names its chunk and document and goes on with its content, cut only when it is the last and the text is full. |
| `RagAnswer.GenerateAnswer` | backend/app/services/rag.py:100-367 | The response for every outcome: no evidence, generation failure, foreign citation, or the model's answer to the shown text with exactly the shown sources, each printed there under its own name. |
| `RagAnswer.CitationsNameTheirSource` | backend/app/services/rag.py:346-367 | Every citation in an accepted answer names exactly one returned source, and the block the model was shown under that label carries that source's identifiers and its match's content. |
| `RagAnswer.CitationShape` | backend/app/services/rag.py:47-47 | A citation is a bracket, an S in either case or long, digits and a bracket; its label is S and the digits. |
| `RagAnswer.LabelsCountFromOne` | backend/app/services/rag.py:138-139 | The label of a match is S and its place in decimal, from one. |
| `RagAnswer.PaddedLabelIsRefused` | backend/app/services/rag.py:47-47 | A zero-padded label is a citation and names no source, whatever their number. |
| `CandidateExtraction.ControlText` | backend/app/services/compliance_candidate_extraction.py:276-312 | Refused exactly when the identities do not fit; otherwise every header whole, every description cut at the common cap, and the join within the ceiling. |
| `CandidateExtraction.CapIsTheFairShare` | backend/app/services/compliance_candidate_extraction.py:276-312 | When everything fits no description is cut; otherwise one more character for each would not fit. |
| `CandidateExtraction.CheckSources` | backend/app/services/compliance_candidate_extraction.py:596-666 | The references are the first distinct labels in citation order, up to the cap, resolved to admitted matches; refused exactly when an unknown label is reached before the cap. |
| `CandidateExtraction.FirstCitedIsInOrder` | backend/app/services/compliance_candidate_extraction.py:596-666 | The distinct labels are each kept once, in the order of their first places. |
| `CandidateExtraction.ValidateFindings` | backend/app/services/compliance_candidate_extraction.py:450-676 | Accepted exactly when the findings are few enough, each is well formed, about a target control and reaches no unknown label, and no control is named twice; then one candidate each, in order, with its fields and resolved references. |
| `CandidateExtraction.CheckFinding` | backend/app/services/compliance_candidate_extraction.py:476-594 | A finding passes exactly when its fields are present and well formed, its control is a target and its labels resolve; then its rationale is stripped and cut and its confidence kept. |
| `CandidateExtraction.ExtractCandidates` | backend/app/services/compliance_candidate_extraction.py:230-694 | The result for every outcome of the model on the shown texts; an accepted finding names a target control, and each piece of its evidence quotes the chunk whose block was shown under the cited label. |
| `CiVerification.VerifyDeploymentCi` | scripts/verify_deployment_ci.py:89-213 | The gate opens exactly when the SHA has its shape, no item is refused and the trusted items are accepted; then for each of the four names some item vouches for this very commit, app, workflow and repository with success; and otherwise the error is the first that applies. |
| `CiVerification.TrustedExactly` | scripts/verify_deployment_ci.py:104-151 | Which items are trusted and which refuse the list, field by field: name, commit, app and workflow path up to case and slashes, repository when one is given. |
| `CiVerification.OpenGateIsVouchedFor` | scripts/verify_deployment_ci.py:192-213 | Behind an open gate each required name has an item with the expected commit, app, workflow and repository that is completed with success. |
| `CiVerification.ShaIsHexadecimal` | scripts/verify_deployment_ci.py:43-43 | A SHA has its shape exactly when it is forty small hexadecimal digits. |
| `CiVerification.GroupByRun` | scripts/verify_deployment_ci.py:160-166 | Each run's group is its items in order; a missing run identity is an error. |
| `CiVerification.LatestByName` | scripts/verify_deployment_ci.py:179-190 | Each name maps to its greatest-id item, the later among equals. |
| `CiVerification.GateMeaning` | scripts/verify_deployment_ci.py:168-213 | On well-formed items it opens exactly when, in the greatest trusted run, the greatest job of each required name is completed with success. |
| `CiVerification.OrderAndRepetitionDoNotMatter` | scripts/verify_deployment_ci.py:168-190 | Reordering or repeating items does not change the verdict. |
| `CiVerification.OlderRunsDoNotMatter` | scripts/verify_deployment_ci.py:168-177 | Adding items of older runs anywhere does not change the verdict. |
| `Percentile.PercentileIsMonotone` | backend/app/evaluations/metrics.py:348-365 | Non-decreasing in the requested percentile, across all segment joins and both early returns. |
| `Percentile.PercentileStaysInRange` | backend/app/evaluations/metrics.py:352-365 | Between the rounded least and greatest samples. |
| `Percentile.PercentileIgnoresOrder` | backend/app/evaluations/metrics.py:356 | Invariant under permuting the samples. |
| `Percentile.PercentileHitsTheSamples` | backend/app/evaluations/metrics.py:359-365 | At the percentile of an index the value is the sample of that rank, rounded. |
| `Percentile.SegmentsAreStraight` | backend/app/evaluations/metrics.py:359-365 | Between neighbouring ranks the value runs straight from one sample to the next. |
| `Percentile.PercentileInterpolates` | backend/app/evaluations/metrics.py:359-365 | At every percentile between two neighbouring samples' own the value is their linear mix, rounded. |
| `Percentile.RoundingIsToThousandths` | backend/app/evaluations/metrics.py:353-365 | Rounding gives the nearest whole number of thousandths, the even one of two. |
| `Percentile.OneFormula` | backend/app/evaluations/metrics.py:350-365 | The early returns agree with interpolation at the clamped percentile. |

## Left out

- Tenancy: one organisation is modelled at a time, so tenant filters, row-level security, the role matrix and clearance checks beyond their yes-or-no answer are absent.
- The sensitive-data patterns, PDF parsing, SHA-256, UUID generation and JSON serialisation: the detector is an arbitrary function to findings, digests are their contents, and identifiers are numbers.
- The readiness poll's sleep and the number of its attempts: the polls end after any given number of waits.
- Whether a second send on a closed task token is accepted: both replies are allowed, so eventual setting of the delivery marker is not claimed.
- Retries of tasks that were throttled before they started, and timeouts of the workflow: a task either finishes or fails.
- The callback worker's listing query: claiming is attempted on any approval, listed or not; in `RecoveryWorker` the listed batch and the result of each attempt are given.
- An error raised while listing organisations or approvals, which ends the recovery run early.
- ApprovalStore.ApprovalCreationService.CreateFromWorkflow: the recommendation id, score context, trace ids and model ids are not part of the compared row, because they are constants or follow from the execution id and the reviewer.
- Decimal's 28-digit context and binary floating point: weights, scores, clocks and latencies are exact reals with explicit rounding.
- Case folding of characters outside ASCII in the CI gate, and run identities that are texts: run identities are integers, as GitHub's are.
- Control identifiers are numbers; only their order and equality are used.
- Surrogates that are not Unicode scalar values, which the embedding budget refuses as invalid UTF-8.
- Document outcomes outside the handled set: a missing stored object, an error while storing chunks or publishing the event, a page that fails to parse.
- A chunk's token count and file metadata, and the alphabetical order of its listed categories.
- Framework lookup failures, snippets, evidence projections by clearance, and the audit copy of evidence identifiers in a snapshot.
- Deletion of expired rate counters by the table's time-to-live, and the capacity bound of the in-process stores used in development.
- Parsing of the model's JSON text, the trimming and upper-casing of source labels, and the relevance explanation of a match: a reply is the parsed value, with malformed parts marked, or a failure.
- PromptFraming.BuildIsolatedUserPrompt: the JSON text of the identifiers is that of an arbitrary serialisation function, so the round trip asks that this text and the other application-supplied parts hold no nonce, and recovering task and identifiers that it is one line.
- CandidateExtraction.ExtractCandidates: the distinct retrieved chunks and the target controls are given, and a retrieved chunk's document id is taken to be a UUID.
- CandidateExtraction.CheckSources: labels after the evidence cap are not checked by the code, so nothing is claimed about them.
- Model calls and prompt wording, telemetry, pricing and logging, settings and wiring, HTTP routes, ORM tables, the other infrastructure stacks, the frontend, benchmark and seeding scripts.
