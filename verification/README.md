# Lietou runtime: a verified model

A Dafny model of the durable core of the recruitment runtime: the outbox and its
workers, human approval of side effects, the idempotent stores, message intake, the
war-room graph with its review gate, retrieval and retention of memory, and the text
algorithms of the LLM gateway and the local doctor. `dafny verify dfyconfig.toml`
checks all of it.

Tables are maps and sequences with their unique constraints. A database transaction is
one step, and each repository is a class whose methods are proved equal to a function on
the table values; the protocols are state machines over those functions, so what is
proved of their runs is about the same code. Replies of the outside world (handlers,
agents, people, the Bitable service, the JSON parser, random secrets) are parameters or
events over which the theorems quantify. Texts are sequences of Unicode code points;
times are whole seconds; relevance scores are reals.

| file | models |
|---|---|
| `OutboxTable.dfy` | one row, the repository's updates, one dispatch with its commits and rollbacks |
| `OutboxProtocol.dfy` | many workers, leases, crashes and a clock over that table |
| `OutboxDrain.dfy` | draining the outbox although handlers enqueue, and the retry schedule |
| `OutboxStores.dfy` | the write-once payload store and `enqueue_json` |
| `Intake.dfy` | messages and task confirmations as transactions |
| `Approvals.dfy`, `ApprovalProtocol.dfy` | proposals, two decision channels, execution, the write row, all interleaved |
| `CallbackFidelity.dfy` | when a stored card callback is executed as it was recorded |
| `BitableSync.dfy` | the client-token tables and lost external writes |
| `ApprovedDelivery.dfy` | approval, external service and client-token tables together |
| `Policy.dfy`, `ReviewGate.dfy`, `WarRoom.dfy` | task planning, review and repair, the graph |
| `MemoryRetention.dfy`, `MemorySelection.dfy`, `MemoryGateway.dfy` | retention, search and sorting, greedy retrieval |
| `JsonScanner.dfy`, `ChatJson.dfy`, `StrictSchema.dfy` | the brace scanner, the candidates of a reply, strict JSON Schema |
| `EnvFile.dfy` | reading and rewriting `.env` |
| `Text.dfy`, `Wrappers.dfy` | `str.strip`, containment, option and result types |

Where the code does not keep a promise, the model keeps the code, shows an input or a run
that breaks the promise, and states the condition under which it holds:

- `OutboxProtocol.LateFailureReopensSucceeded`: completions do not compare `claimed_by`,
  so a worker slower than its lease reopens a row that succeeded.
  `FinishedIsFinalIffUnheld` and `FinishedReopensIffRetriesLeft` say exactly when a
  finished row can still change and can be handled again; with handlers that end before
  their lease it never can (`TimelyFinishIsFinal`).
- `CallbackFidelity.UnfaithfulDiverges`, `UnfaithfulIsSent`, `UndecidedIsSent`: a card
  callback that carries a second `human_approval` beside its event is recorded with one
  decision and edit and executed with the other, even for another proposal on which nobody
  decided. `ReadBackIffFaithful` is the exact condition on the callback. What does not
  depend on it (`ApprovalProtocol`, `ApprovedDelivery.DeliveredOnce`) is proved for all
  callbacks; what does (`SentWritesAreApproved`, `StatusesAreDecided`,
  `DecisionsTakeEffect`, `DeliveredAsApproved`) assumes it of each callback.
- `CallbackFidelity.TopEditIsCompared`: a second edit at the top level of a card is compared
  in place of the recorded one.
- `Intake.ColonsMixMessages`: dedupe keys are joined with `:`, so a type or tenant with one in
  it can make two messages one; `NewMessageIsQueued` is for those without.
- `CallbackFidelity.RefusedIffUnreadable`: exactly which accepted callbacks cannot be read
  at resume.
- `JsonScanner.StrayBraceHidesObject`: one unmatched opening brace before the object
  hides it; `ObjectFoundIffFirst` is the exact condition.
- `StrictSchema.RequiredNarrowsIffDeclared`, `EnumNarrowsIffKept`, `ConstNarrowsIffStrict`,
  `NotNarrowsIffWidens`: exactly when required names, enumerations, constants and
  negations are narrowed;
  `NestedMapRejectsObjects` is a property map that narrows to nothing.
- `WarRoom.UngatedRunReusesApproval`: without an action gate the executor is called with
  the approval of an earlier run of the thread.
- `MemoryRetention.SearchWithoutRun`: what the search shows wrongly while no retention
  pass has run.
- `Intake.SecondApprovalConflicts`: a task approved again through another card is refused,
  since the authorized payload holds the time.

## Model

| member | source | states |
|---|---|---|
| OutboxTable.OutboxRepository.ClaimNext | app/storage/repositories.py:314-341 | claims a row only if it is pending and due or its lease has run out, with one attempt more, the worker's name and a lease; cards and task preparations come first, then writes and resumes, then dispatches, each by due time, lease and age; nothing is claimed exactly when every row is finished, waiting or held under a lease or without one |
| OutboxTable.OutboxDispatcher.DispatchOnce | app/feishu/dispatcher.py:48-150 | the committed table after one dispatch is the claimed row with its outcome, whoever holds it by then: succeeded with the handler's rows, or without them dead, or pending until the handler's hint or the backoff has passed |
| OutboxProtocol.HistoryRun | app/feishu/dispatcher.py:98-150 | in every run, with crashes, expired leases and stale workers, the claims of a row are numbered 1, 2, 3 and so on, and each is released at most once and only while retries remain |
| OutboxProtocol.ClaimsIncreaseReleasesBounded | app/storage/repositories.py:329-339 | attempt numbers strictly increase and a row is released for retry at most `max_attempts - 1` times |
| OutboxProtocol.LeaseStep | app/storage/repositories.py:314-341 | a timely step keeps every worker the owner of its row and every finished row as it is |
| OutboxProtocol.LeaseProtects | app/storage/repositories.py:314-390 | if handlers end or die before their lease, succeeded and dead-lettered rows never change again in the run |
| OutboxProtocol.FinishedIsFinalIffUnheld | app/storage/repositories.py:343-390 | in any reachable state, a finished row stays as it is in every future exactly when no process is still handling it |
| OutboxProtocol.FinishedReopensIffRetriesLeft | app/feishu/dispatcher.py:105-138 | and it stays finished in every future exactly when every process that still handles it has claimed it with the last attempt allowed |
| OutboxProtocol.TimelyFinishIsFinal | app/storage/repositories.py:314-390 | what a run with timely handlers has finished is final, however late things get afterwards |
| OutboxProtocol.OneWorkerPerRow | app/runtime/worker.py:96-97 | under the same assumption two live processes never handle one row, even if they claim under one name |
| OutboxProtocol.LateFailureReopensSucceeded | app/storage/repositories.py:357-376 | a run that reaches such a state: for any row, two processes of one name, and either attempt count the dispatcher may read after the rollback, a succeeded row goes back to pending |
| OutboxProtocol.WaitsIffUnheld | app/storage/repositories.py:712-743 | until its time comes nothing can happen to a released row in any future exactly when no process is still handling it |
| OutboxProtocol.NoClaimBeforeRelease | app/feishu/dispatcher.py:126-138 | after a failure of the one process that handles a row, however the run goes on, no claim of it comes before the hint, or else `base * 2^(read - 1)` seconds, have passed since the failed claim |
| OutboxProtocol.AloneIsDispatch | app/feishu/dispatcher.py:48-96 | a claim and its completion with nothing between them are one dispatch |
| OutboxDrain.DispatchDecreases | app/feishu/outbox_handlers.py:78-101 | every dispatch lowers the remaining attempts of front rows, or keeps them and lowers those of the others, although handlers enqueue |
| OutboxDrain.DispatchKeepsDrained | app/feishu/dispatcher.py:98-150 | a dispatch keeps rows either untouched or on their way to an end |
| OutboxDrain.Drain | app/feishu/dispatcher.py:48-96 | dispatching while a row is live terminates for every handler, and then every row has succeeded or is dead lettered |
| OutboxDrain.RetrySchedule | app/feishu/dispatcher.py:126-138 | a row claimed when due whose handler fails without a hint is due again, after the n-th failure, `base * (2^n - 1)` seconds after its first due time; failure `max_attempts` is the dead letter |
| OutboxStores.OutboxWriter.StoreJsonPayload | app/storage/repositories.py:51-87 | stores a new payload, accepts the same one again, refuses another and changes nothing |
| OutboxStores.OutboxWriter.EnqueueJson | app/storage/repositories.py:101-166 | a known key changes no table and is accepted for its own payload; a new one gets a row of the call's kind and a reference that is chosen or the payload's own, unless that has other content |
| OutboxStores.EnqueueOnce | app/storage/repositories.py:101-166 | a known key changes nothing, is accepted exactly for its own payload and answers the first reference; a new key is bound to its payload; no stored payload changes |
| OutboxStores.EnqueueRefinesFirstWriter | app/storage/repositories.py:101-148 | any sequence of calls binds keys to payloads as a first-writer-wins map over the accepted calls |
| OutboxStores.UnnamedCallsAreFirstWriter | app/storage/repositories.py:101-148 | without chosen references it is that map over all the calls |
| OutboxStores.EnqueueExtends | app/storage/repositories.py:51-87 | payloads and rows are only ever added |
| OutboxStores.ReplayChangesNothing | app/storage/repositories.py:150-166 | replaying any part of the calls in any order changes nothing |
| Intake.FeishuCallbackService.EnqueueEvent | app/feishu/service.py:75-137 | tables and reply of a delivery; it is queued exactly when the tables change, and anything else leaves all of them as they were |
| Intake.FeishuCallbackService.ConfirmTask | app/feishu/service.py:208-263 | tables and reply of a confirmation; it is recorded only for a stored, valid task under a new event id and key, and a duplicate or a refusal leaves all tables as they were |
| Intake.RunKeeps | app/storage/repositories.py:173-257 | over all runs, beside any other writers, event rows match outbox rows, dispatch rows match approvals, event ids differ, and every payload pointed to is stored |
| Intake.DispatchedIffApproved | app/feishu/service.py:235-251 | after every run a `graph_dispatch` row exists for a confirmation key exactly when its recorded decision is to approve |
| Intake.RedeliveriesVanish | app/feishu/service.py:118-129 | once a message is queued, its redeliveries, of any body and anywhere among other transactions, can be struck out of the run |
| Intake.RedeliveryIsAnswered | app/feishu/callbacks.py:346-358 | and each of them is answered as a duplicate or refused |
| Intake.NewMessageIsQueued | app/feishu/callbacks.py:346-358 | no new message is lost: where no tenant or type has a `:`, after every run a message whose texts can be stored is queued with its event, payload, kind and thread, unless a message queued before has the same tenant, type and identity, or the same event id |
| Intake.KeysTellApart | app/feishu/callbacks.py:346-354 | messages whose tenants and types have no `:` share a dedupe key only if they are the same |
| Intake.ColonsMixMessages | app/feishu/callbacks.py:346-354 | with a `:` in a type, different messages share one |
| Intake.NewDecisionIsRecorded | app/feishu/service.py:208-263 | a decision on a stored, valid task under a new event id and key is recorded: a rejection without a row, an approval with the dispatch of the authorized task, unless another text was authorized before |
| Intake.FirstConfirmationStays | app/storage/repositories.py:219-257 | the first recorded decision on a key is never changed and later confirmations of it change nothing |
| Intake.SecondApprovalConflicts | app/feishu/service.py:576-592 | a task approved again under another key, once the other checks pass, is queued exactly when its authorized payload is the same text, and refused otherwise |
| Approvals.ApprovalSession.ProposeAction | app/runtime/action_gate.py:36-135 | a new idempotency key gets a pending proposal with the given thread, interrupt and draft; a known one is found and nothing changes |
| Approvals.ApprovalSession.RecordActionAndEnqueueResume | app/storage/repositories.py:403-477 | queued exactly for a complete callback that names an undecided pending proposal under a new event id; then card action, approval and resume row are inserted together, else nothing is |
| Approvals.ApprovalSession.SubmitDecision | app/runtime/approvals.py:47-174 | its inserts and refusals give exactly the answer and the tables that the next two rows state |
| Approvals.AdminIsAnswered | app/runtime/approvals.py:47-107 | which answer a request gets, by its words, the interrupt's latest proposal and what is recorded for it |
| Approvals.AdminIsRecorded | app/runtime/approvals.py:193-211 | a queued request adds the approval and its resume row, document and edit included, any other adds nothing |
| Approvals.ApprovalSession.ExecuteApproval | app/runtime/action_executor.py:44-159 | for a pending proposal that the approval names: a reject marks it rejected; an approve, or an edit with content, marks it approved with the row of its write, if it has a draft of a configured kind; anything else changes nothing |
| Approvals.ApprovalSession.WriteToSend | app/feishu/outbox_handlers.py:124-135 | the write handler sends a claimed write exactly when its proposal is approved or executed |
| ApprovalProtocol.InvStep | app/runtime/action_executor.py:44-105 | every step of every participant keeps the protocol's invariant, whatever callbacks come |
| ApprovalProtocol.InvRun | app/runtime/action_executor.py:44-105 | so does every run |
| ApprovalProtocol.SentWritesAreQueued | app/feishu/outbox_handlers.py:124-147 | in every run, whatever was sent outside is the queued write of an approved proposal, with its fields and token, and all that was sent for one proposal is the same |
| ApprovalProtocol.WriteRowsAreTheApproved | app/runtime/action_executor.py:79-105 | in every run a write row exists exactly for approved proposals, one each, under their own key; nothing was sent for any other; none is ever executed |
| ApprovalProtocol.ApprovalIffResumeRow | app/storage/repositories.py:433-477 | in every run an approval is recorded exactly when its resume row exists, and it has the action, key, decision and edit reference of the event stored there |
| ApprovalProtocol.UndecidedIsOpen | app/runtime/approvals.py:47-107 | in every run an undecided pending proposal is open: the first valid callback under a new event id, or the first valid request, is queued |
| ApprovalProtocol.FirstDecisionWins | app/runtime/approvals.py:47-107 | from the moment a proposal is decided, however the run goes on, its approval and resume row stay and no submission through either channel changes any table |
| ApprovalProtocol.DecisionsAreFinal | app/runtime/action_executor.py:172-188 | from any state, approvals, rows, finished statuses and sent writes are never taken back |
| CallbackFidelity.CardRecordsEdit | app/feishu/callbacks.py:361-397 | the edit on record after a card decision is the one the callback parser accepted |
| CallbackFidelity.AdminRecordsEdit | app/runtime/approvals.py:47-107 | after an admin decision it is the one in the request |
| CallbackFidelity.AdminIsReadBack | app/runtime/approvals.py:193-211 | and what it stores is always read back as it was requested |
| CallbackFidelity.EarlierEditIsOnRecord | app/runtime/approvals.py:136-163 | a later request is compared with the edit on record, for admin decisions and cards with nothing beside their event |
| CallbackFidelity.TopEditIsCompared | app/runtime/approvals.py:214-234 | after a card with another edit at its top level, a request with the recorded edit conflicts and one with the other counts as the same |
| CallbackFidelity.RefusedIffUnreadable | app/runtime/outbox.py:169-229 | an accepted callback is refused at resume exactly when the approval beside its event lacks a required member, or its edit is no object there |
| CallbackFidelity.ReadBackIffFaithful | app/runtime/outbox.py:169-229 | for every callback the parser accepts, the handler reads nothing but the recorded action, decision and accepted edit exactly when no other readable approval stands beside the event |
| CallbackFidelity.FaithfulRun | app/runtime/action_executor.py:44-105 | with such callbacks every run executes each proposal as its recorded approval says |
| CallbackFidelity.SentWritesAreApproved | app/feishu/outbox_handlers.py:124-147 | and whatever was sent is the write of a proposal whose one approval says approve or edit, with exactly the edit on record |
| CallbackFidelity.StatusesAreDecided | app/runtime/action_executor.py:66-77 | and a rejected proposal's recorded decision is to reject, and every resume row reads as the recorded approval |
| CallbackFidelity.DecisionsTakeEffect | app/runtime/action_executor.py:44-105 | in every run with such callbacks the resume of a readable approval does what its decision says, for good: a rejected proposal is rejected and never sent, an approved or edited one is approved with the row of its write and the edit on record if it can be written |
| CallbackFidelity.ApprovedIsSent | app/feishu/outbox_handlers.py:124-147 | in every run a worker that claims an approved proposal's write sends it, with its fields and token |
| CallbackFidelity.UnfaithfulDiverges | app/runtime/outbox.py:169-229 | in whatever state an unfaithful callback is accepted, recorded and stored approval differ in action, decision or edit |
| CallbackFidelity.NamedIsSent | app/runtime/outbox.py:169-229 | in whatever state a callback is accepted that names a pending proposal beside its event, the run that handles it sends that proposal's write |
| CallbackFidelity.UnfaithfulIsSent | app/runtime/outbox.py:169-229 | so the same action named again is sent although the recorded decision is to reject, or with another edit than the recorded one |
| CallbackFidelity.UndecidedIsSent | app/runtime/outbox.py:169-229 | and another, undecided proposal is sent with no approval recorded for it |
| BitableSync.BitableSyncRepository.RecordChunkSuccess | app/storage/repositories.py:493-564 | the tables after a success, column by column, or the refusal and what it leaves: by lengths, references, digest, record ids or constraints, record map loop included |
| BitableSync.BitableSyncRepository.RecordChunkFailure | app/storage/repositories.py:566-604 | the chunk after a failure, digest and record ids kept |
| BitableSync.TokenBindingsKept | app/storage/repositories.py:547-604 | over any operations a token keeps its digest, its place and its non-empty record ids |
| BitableSync.UniqueKept | app/storage/repositories.py:493-604 | no sequence of operations breaks the unique constraints on chunks and on records |
| BitableSync.EntitiesHaveRecords | app/storage/repositories.py:606-642 | after a success each entity of the write has its record and the records of all others are as before |
| BitableSync.RecordAgain | app/storage/repositories.py:606-642 | recording a success twice is recording it once |
| BitableSync.NewWriteAccepted | app/storage/repositories.py:493-564 | a write under a new token whose record ids are unused is accepted |
| BitableSync.LostWritesEndAsOne | app/feishu/outbox_handlers.py:136-161 | with a service that deduplicates tokens, any crashes and retries create the records once and leave the tables as after a single success |
| ApprovedDelivery.InvRun | app/feishu/outbox_handlers.py:124-161 | over all interleavings of approval and delivery, whatever callbacks come, the service knows exactly the tokens sent, created each once, and every recorded chunk is that of a single success |
| ApprovedDelivery.DeliveredOnce | app/feishu/outbox_handlers.py:124-161 | all requests for one proposal are the same, with its fields and one token, and its records are created at most once, whatever crashes or is lost |
| ApprovedDelivery.DeliveredAsApproved | app/feishu/outbox_handlers.py:124-161 | with faithful callbacks each request is for a recorded approval or edit, with exactly the approved edit |
| ApprovedDelivery.RecordedAsCreated | app/storage/repositories.py:493-564 | a recorded chunk, if no other proposal shares the token, holds the service's first answer |
| ReviewGate.ReviewArtifact | app/runtime/review_gate.py:45-80 | a pass, a fix or a person, exactly by evidence, summary, budget, PII, claims and attempts; there is a schema finding exactly for a malformed artifact, and no finding exactly for a pass |
| ReviewGate.ContextBudgetFindings | app/runtime/review_gate.py:132-168 | no finding exactly without raw keys, up to 10 memory references and up to 3500 tokens |
| ReviewGate.SafetyFindings | app/runtime/review_gate.py:170-196 | no finding exactly without high PII and claimed side effects |
| ReviewGate.ClaimsAreFound | app/runtime/review_gate.py:170-196 | a claim is found exactly when some part of the summary is, in any case, one of the eleven phrases |
| ReviewGate.RepairKeepsDraft | app/runtime/review_gate.py:199-212 | a repair is the same draft in the next version, with a source and perhaps a note added |
| ReviewGate.RepairSettles | app/runtime/review_gate.py:199-212 | a repair that was asked for is followed by a pass, or by a person's review exactly when the tokens exceed the budget, and never by another repair |
| WarRoom.EveryRunIsAWay | app/graphs/war_room.py:180-225 | from any checkpoint, with any agents and answers, a run is on one of four ways, and asks the user exactly for a triage plan |
| WarRoom.ProgramAsksForShortTexts | app/policy/engine.py:35-95 | in the program that is exactly when the text has none of the four full-council words and is under twenty characters, and every text has a business subgraph |
| WarRoom.GraphFollowsText | app/policy/engine.py:84-95 | which subgraph drafts is decided by the first group of words that the text mentions |
| Policy.ModeFollowsText | app/policy/engine.py:35-66 | a full council if it is asked for, else triage for short texts, else a standard council for risky ones |
| WarRoom.EveryRunEnds | app/graphs/war_room.py:479-492 | at most eleven nodes and one repair; `reject_with_reason` and `save_as_case_data` are never reached; each step completes a node unless an acceptable answer is missing |
| WarRoom.OneRepair | app/graphs/war_room.py:627-674 | at most one repair whatever the policy engine plans and the review gate answers |
| WarRoom.ProposalsAreReviewed | app/graphs/war_room.py:764-802 | a run proposes at most its latest draft, well formed and reviewed without a repair pending |
| WarRoom.DraftsOfRun | app/graphs/war_room.py:435-592 | a person is asked about a draft that an agent made in the run, as it was or repaired once, behind the council's artifacts |
| WarRoom.ProposedIsTheDraft | app/graphs/war_room.py:764-909 | what is proposed is that draft, under a key of its thread, kind, id and version |
| WarRoom.DraftsComeReviewed | app/graphs/war_room.py:604-633 | with the program's review gate it comes with a pass exactly when it has support, is safe, long enough and within budget |
| WarRoom.BudgetOfRun | app/graphs/war_room.py:881-898 | the budget counts the checkpoint, opinions, decision and draft, the draft twice after a repair |
| WarRoom.ExecutionIsDecided | app/graphs/war_room.py:677-761 | the executor is called at most once, past review and approval, with an answer accepted in this run for the proposed draft |
| WarRoom.ExecutedAsAnswered | app/graphs/war_room.py:925-963 | whatever is executed was said by an answer of the run, for this thread and the proposed draft, with exactly that answer's decision |
| WarRoom.AnswerIsExecuted | app/graphs/war_room.py:925-963 | and where a run waits, an answer is executed as it is exactly when it names thread and draft and decides; with any other the run waits on |
| WarRoom.UngatedRunReusesApproval | app/graphs/war_room.py:677-690 | without an action gate it is called exactly when the checkpoint holds an earlier approval |
| WarRoom.RepairedDraftPasses | app/graphs/war_room.py:604-674 | with the program's review gate a repaired draft arrives with a pass unless its tokens, counted for both versions, exceed the budget |
| MemoryRetention.MemoryRetentionService.Run | app/memory/retention.py:43-111 | every row after a pass and the counts; a dry run has the same counts and changes nothing |
| MemoryRetention.RowAfterPass | app/memory/retention.py:114-153 | each managed row after a pass, in seconds: permanent, with its own expiry, or with 30 or 90 days from its creation by policy or scope |
| MemoryRetention.SummariseNext | app/memory/retention.py:60-111 | what one more row adds to each of the five counts |
| MemoryRetention.PassesCompose | app/memory/retention.py:66-100 | two passes at any two times give the status and expiry of one at the later time |
| MemoryRetention.RunsAreOneRun | app/memory/retention.py:43-111 | so does any number of passes |
| MemoryRetention.RunAgainChangesNothing | app/memory/retention.py:43-111 | a second pass at the same time changes nothing at all |
| MemoryRetention.CountsAreChanges | app/memory/retention.py:60-111 | the reported counts are the numbers of rows that become expired and that get an expiry |
| MemoryRetention.NothingLeft | app/memory/retention.py:60-111 | right after a pass nothing is left to default or to expire |
| MemoryRetention.NoneSkipped | app/memory/retention.py:144-153 | with the scopes that the table allows no row is skipped |
| MemoryRetention.ActiveIsFound | app/memory/vector_store.py:167-168 | right after a pass the search's expiry test is true of every active row |
| MemoryRetention.SearchAnticipatesRun | app/memory/vector_store.py:167-168 | later the search still shows exactly what a pass at that time would leave active |
| MemoryRetention.SearchWithoutRun | app/memory/vector_store.py:167-168 | exactly which rows the search shows or hides wrongly before any pass |
| MemorySelection.Search | app/memory/vector_store.py:121-170 | the references of the nearest admitted rows, as many as asked for |
| MemorySelection.AdmittedConcat | app/memory/vector_store.py:121-153 | farther rows never come before or push out nearer ones |
| MemorySelection.PlainFilter | app/memory/vector_store.py:155-212 | a metadata filter of plain values asks for exactly these values under these keys |
| MemorySelection.PiiFiltersAgree | app/memory/vector_store.py:239-242 | the store's PII filter and the gateway's check are the same for all levels, known or not |
| MemorySelection.ScopesAllowedByFilters | app/memory/gateway.py:311-330 | splits the scopes: run memory by a thread id, all others by some long-term boundary |
| MemorySelection.IntersectInOrder | app/memory/gateway.py:306-308 | the allowed of the requested scopes keep their order |
| MemorySelection.ScopesInOrder | app/memory/gateway.py:311-330 | so do those that the filters let in and those that they shut out |
| MemorySelection.SortedIsStableSort | app/memory/gateway.py:346-346 | the sort is by falling relevance and keeps the order of equals |
| MemorySelection.StableSortUnique | app/memory/gateway.py:346-346 | and it is the only such order |
| MemoryGateway.SelectRefs | app/memory/gateway.py:333-368 | the loop with its early stop is the specified pass over the sorted candidates |
| MemoryGateway.SelectionIsGreedy | app/memory/gateway.py:333-368 | at most `top_k`, distinct, affordable, allowed and in falling relevance; selected, excluded (each for a reason that still holds) and unvisited make up the sorted candidates in order |
| MemoryGateway.SelectionIsMaximal | app/memory/gateway.py:346-368 | below `top_k` every allowed candidate is selected, duplicates a selected one or would exceed the budget |
| MemoryGateway.AdmitsIsolated | app/memory/vector_store.py:155-242 | the query of the gateway admits exactly the rows that may be shown |
| MemoryGateway.Retrieve | app/memory/gateway.py:108-190 | every reference stands for an active, unexpired row of a requested and allowed scope, at most the policy's PII level, within boundaries, thread, owner, confidence and metadata, and only run memory without a long-term boundary; within the limits of request and policy; and no such row is missing when no limit was hit |
| JsonScanner.ExtractFirstJsonObjectText | app/gateways/llm.py:447-473 | the shortest slice from the first brace whose depth outside strings returns to zero, or none if there is none |
| JsonScanner.FirstObjectUnique | app/gateways/llm.py:447-473 | that answer is unique |
| JsonScanner.JsonBalanced | app/gateways/llm.py:453-472 | reading any JSON text of RFC 8259 returns to its depth and never goes below it |
| JsonScanner.PrintedObjectExtracted | app/gateways/llm.py:447-473 | any object text, with white space and escapes, after any prefix without `{` and before any suffix, is cut out whole |
| JsonScanner.ObjectFoundIffFirst | app/gateways/llm.py:447-473 | in any text, an object's printed text is what is found exactly when it starts at the first brace |
| JsonScanner.StrayBraceHidesObject | app/gateways/llm.py:447-473 | after one stray opening brace nothing is found |
| ChatJson.SplitParts | app/gateways/llm.py:437-437 | splitting at fences loses nothing and leaves no fence in a part |
| ChatJson.JsonFenceCandidates | app/gateways/llm.py:433-444 | every second part, without its tag |
| ChatJson.FencedObjectIsUntagged | app/gateways/llm.py:438-443 | a fenced object, tagged in any case or not, in white space, is read as its own text |
| ChatJson.FencedObjectIsParsed | app/gateways/llm.py:416-444 | a reply whose first fenced block is an object is read as that object, whatever stands around, unless the whole reply is accepted |
| ChatJson.ParseChatCompletionJsonText | app/gateways/llm.py:416-430 | takes the first non-empty candidate that the parser accepts, and fails exactly when there is none |
| ChatJson.EmbeddedObjectIsParsed | app/gateways/llm.py:416-430 | it is read as that object unless the whole reply or a fenced block is accepted before |
| ChatJson.EmbeddedObjectIsTaken | app/gateways/llm.py:416-430 | a reply with an object after any text without `{` never fails if the parser accepts that object |
| StrictSchema.ConversionIsStrict | app/gateways/llm.py:387-405 | no node of the result has `default` or `format`, and every object node is closed with all its properties required |
| StrictSchema.ConvertedGet | app/gateways/llm.py:387-405 | what the converted node says under each keyword: dropped, closed, required, or its argument converted |
| StrictSchema.FixedPointsAreStrict | app/gateways/llm.py:387-405 | a schema is unchanged exactly when it is already so |
| StrictSchema.ConversionIdempotent | app/gateways/llm.py:383-405 | converting twice is converting once |
| StrictSchema.ConversionNarrows | app/gateways/llm.py:387-405 | every instance valid under the converted schema is valid under the original, for schemas that require only declared and kept properties, whose enums keep their items and whose other arguments are already strict, without references and keywords that depend on others |
| StrictSchema.UndeclaredRequiredIsLost | app/gateways/llm.py:394-403 | for every node that requires an undeclared property, or one named `default` or `format`, each object the converted node accepts is rejected by the original |
| StrictSchema.RequiredNarrowsIffDeclared | app/gateways/llm.py:400-403 | so it narrows on objects exactly when all it requires is declared and kept, or when the converted node accepts no object |
| StrictSchema.EnumNarrowsIffKept | app/gateways/llm.py:387-398 | an enumeration narrows exactly when every converted item equals one of the items |
| StrictSchema.ConstNarrowsIffStrict | app/gateways/llm.py:387-405 | a constant, compared as JSON Schema does without regard to member order, narrows exactly when it is strict already |
| StrictSchema.NotNarrowsIffWidens | app/gateways/llm.py:387-405 | under `not` the conversion narrows exactly when it takes nothing from what is negated |
| StrictSchema.NegatedPropertiesAreLost | app/gateways/llm.py:400-403 | so every negated list of properties is widened |
| StrictSchema.NestedMapRejectsObjects | app/gateways/llm.py:400-403 | a property named `properties` makes the converted map reject every object |
| EnvFile.EnvPath.LoadEnvFile | app/runtime/local_doctor.py:179-194 | the map that the lines assign, the last assignment of a key winning |
| EnvFile.EnvPath.GenerateLocalRuntimeSecrets | app/runtime/local_doctor.py:197-232 | the new file text and the names of the generated keys |
| EnvFile.LoadedIffSeen | app/runtime/local_doctor.py:179-194 | a key is loaded exactly when some line assigns it |
| EnvFile.LineReads | app/runtime/local_doctor.py:183-193 | how a line is read: spaces around key, `=` and value are nothing, one pair of equal quotes is taken off |
| EnvFile.NothingRead | app/runtime/local_doctor.py:183-193 | blank lines, comments and lines without `=` or a key assign nothing |
| EnvFile.RewriteUpdatesMap | app/runtime/local_doctor.py:197-232 | the rewritten lines load as the old map with exactly the generated keys replaced |
| EnvFile.SplitJoined | app/runtime/local_doctor.py:183-231 | splitting the written text gives back its lines |
| EnvFile.LineEnds | app/runtime/local_doctor.py:183-183 | a line ends at any of the three line ends alike |
| EnvFile.RewriteTextUpdatesMap | app/runtime/local_doctor.py:197-232 | the same for the file's text |
| EnvFile.PlaceholdersAreReplaced | app/runtime/local_doctor.py:197-206 | of the three runtime keys exactly those missing or holding a placeholder are generated, and nothing else changes |
| EnvFile.OtherLinesKept | app/runtime/local_doctor.py:210-232 | comments, blank lines and the lines of other keys stay as and where they are |
| EnvFile.SecretNotPlaceholder | app/runtime/local_doctor.py:331-341 | a generated secret is no placeholder for any key |
| EnvFile.SecondRewriteGeneratesNothing | app/runtime/local_doctor.py:197-232 | a second rewrite generates nothing and leaves the file alone |

## Left out

- Digests, UUIDs and references derived from them: taken as the texts they stand for, so that they are equal exactly when those are.
- Transactions are atomic steps and row locks are atomic claims; the checkpointer's own connection is not modelled. The `on_conflict_do_nothing` branches of the stores cannot be taken then.
- Fairness and crash loops: claims after repeated crashes are unbounded and low priorities may starve, so neither is claimed; `Drain` is without crashes and claims each row when it is due.
- Thread status updates and stored summaries in the approval protocol, and counts or times that are only reported.
- CallbackFidelity.SentWritesAreApproved: assumes of every card callback that a readable `human_approval` beside its event names the same action, decision and edit, because otherwise it is false (`UnfaithfulIsSent`, `UndecidedIsSent`); so do `StatusesAreDecided`, `DecisionsTakeEffect` and `ApprovedDelivery.DeliveredAsApproved`, and no other result.
- WarRoom.DraftsOfRun: assumes that agents draft business artifacts, and none of the two kinds the council keeps for itself, as the schemas they are called with ask for.
- Interrupt ids of new proposals are taken to be new, as generated UUIDs are.
- The resumed graph may run the executor at any time and more than once: more runs than the graph allows, not fewer.
- Parsing of entity ids as UUIDs in the record map, and time stamps of chunks.
- StrictSchema.ConversionNarrows: its conditions suffice for any schema; they are shown exact for required names, enumerations, constants and negated properties, not for arbitrary combinations of keywords, where an unsatisfiable part may hide a widened one.
- `$ref`, `if`, `contains`, `patternProperties`, `prefixItems` and the unevaluated keywords of JSON Schema, whose meaning depends on other keywords or places; all other keywords (`not` and `oneOf` among them) are any fixed reading of their argument, and `format` and `default` are annotations.
- Which agents a task plan asks for, council opinions' content, and the node history; a failing agent ends a run where it is.
- How similarity is computed: rows come in any order with any scores.
- Rendering of excluded references as text, and the retrieval audit row.
- ReviewGate.ContextBudgetFindings: models the forbidden context keys as the set of those present; the graph's own context has none.
- Lower-casing is ASCII, which is exact for the words compared with.
- The model-setup callback, task parsing, card rendering, signature checks, HTTP, embeddings and the admin task authorization, whose payload holds the current time.
- File encoding and errors when reading or writing `.env`.
