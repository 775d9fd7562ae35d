# A verified model of Cyclope Central's device work engine

Cyclope Central manages endpoints: an agent enrolls a machine, checks in with inventory, and polls for predefined jobs;
the backend evaluates alert rules on every check-in, fans new alerts out to notification channels, and works off a queue
of deliveries. This project models the backend's four state machines and the Go agent's half of the job protocol, and
proves what holds of every call and of every run.

- **Jobs.** `Jobs.dfy` states each request's effect on the job tables; `JobStore.dfy` is the server code over an ORM
  session with two layers, database rows and session objects, proved equal to it; `JobLifecycle.dfy`, `JobRuns.dfy` and
  `JobWords.dfy` prove the whole-run theorems, `JobRecords.dfy` which request every field of a job and of its result comes
  from, `JobDeadlines.dfy` when a deadline takes effect and `JobTies.dfy` which tables let a poll hand out an overdue job.
  `Payload.dfy` is payload validation on the server and payload use in the agent, `PayloadMeaning.dfy` what they accept,
  store and report, field by field. `AgentCycle.dfy` is the agent's loop, `CycleReports.dfy` what one turn of it reports,
  `Fleet.dfy` and `FleetRuns.dfy` many agents and operators over a network that loses requests and responses,
  `CycleInFleet.dfy` ties the loop to the fleet, `QueueDrain.dfy` bounds the drain.
- **Alerts.** `Alerts.dfy` has the default rules, the nine conditions and each step's effect; `AlertStore.dfy` is the code
  in place; `AlertHistory.dfy`, `AlertBlocks.dfy` and `AlertRuns.dfy` prove that the alert table is a run-length code of
  the evaluation history; `AlertConditions.dfy` writes the default rules, the conditions and the messages out and
  proves that an evaluation follows them; `AlertEvents.dfy` that the event log determines every alert; `Dashboard.dfy` the
  dashboard's counts and the bounds between them.
- **Notifications.** `Notifications.dfy` is the fan-out and its specification, `DeliveryQueue.dfy` the delivery code,
  `DeliveryRuns.dfy` the accounting of attempts, `DeliveryOutcomes.dfy` that every row is as its last attempt left it,
  `DeliveryDrain.dfy` and `DeliveryTies.dfy` the drain bounds,
  `AlertFanOut.dfy` the alert tables and the queue together.
- **Enrollment and inventory.** `Enrollment.dfy` and `Inventory.dfy` are the handlers in place; `EnrollmentRuns.dfy`,
  `EnrollmentTrail.dfy` and `InventoryRuns.dfy` prove the tables to be folds of what was received, `EnrollmentEffects.dfy`
  who is admitted and what each contact writes, on the rows' own fields.
- **The whole backend.** `Backend.dfy` couples everything into one world in which each HTTP request is one step,
  `BackendStore.dfy` is the handlers over the in-place tables, `BackendRuns.dfy` proves what every reachable world keeps
  (tenant coherence above all; `JobTenancy.dfy`, `AlertTenancy.dfy` and `InventoryTenancy.dfy` are its parts),
  `BackendGuards.dfy` who may do what, `BackendProjections.dfy` that a run of the world is moment by moment a run of each machine, `BackendTheorems.dfy` the
  theorems that follow for the whole, and `CheckInResults.dfy` that what a device reports decides its alerts. `Base.dfy`
  holds shared vocabulary.

Ids are positions in tables that only grow. A query whose answer the database may order or cut freely is an argument
constrained by what SQL guarantees (`AnswersDue`, `AnswersOldest`, `AnswersPending`), so every tie order is covered;
`QueryAnswers.dfy` says which lists those are. The notification-rule query is the exception: it answers in table order, which a configuration step may change, and
`Notifications.FanOutAnyOrder` shows that another order permutes the deliveries and changes nothing else.
Times of alerts are in microseconds; other times are instants in any fixed unit.

Where the code departs from its documentation, the model follows the code:

- `docs/Architecture.md:75` says that only unexpired queued jobs are assigned. The session does not flush on its own
  (`backend/app/db/session.py:15`), so the second query of a poll does not see the expirations the same poll has just made
  in memory, and a job that expires in a poll can be handed out by that poll, with `completed_at` already set.
  `JobRuns.ShippedResurrects` is such a run and `JobRuns.ShippedIsCleanIff` says exactly when it does not happen. All job
  theorems carry a parameter `flush` and state what survives in the shipped reading (`flush == false`).
- `docs/Architecture.md:77` names four job types; the code allows eight (`backend/app/core/jobs.py:17`).
- `docs/Architecture.md:69` says that deliveries are enqueued for enabled channels; the code also writes a skipped
  delivery for a channel that is missing, disabled or foreign (`backend/app/core/notifications.py:83-92`).
- Starting and completing a job do not look at its deadline. `JobDeadlines.ExpiredIffCaught`, `StartAcceptedIff` and
  `CompletionAcceptedIff` say exactly when the deadline takes effect; in the run of `JobRuns.LateSuccess` it never does.

## Model

| member | source | states |
|---|---|---|
| `JobPayload.ValidateRetracts` | backend/app/core/jobs.py:25-55 | validation accepts its own output unchanged, and the payloads it leaves unchanged are exactly the normal forms |
| `JobPayload.ExecuteJob` | agent/internal/checkin/jobs.go:101-137 | the handler dispatch fills the result field by field into what the handler of that type reports, failures and unknown types included |
| `JobPayload.StoredPayloadIsUsedVerbatim` | agent/internal/checkin/jobs.go:152-173 | for every payload the server stores, the agent recognises the type and uses exactly the stored line count, subnet or service name, never its fallback |
| `PayloadMeaning.SubnetStored` | backend/app/core/jobs.py:34-38 | a discovery stores the text of the subnet given, or `local` where none is, if it is 1 to 128 letters, digits or `_./:-`, and is refused otherwise |
| `PayloadMeaning.LineCountStored` | backend/app/core/jobs.py:39-51 | the line count stored is the whole number given, or 100 where none is, if it is from 1 to 200; what int() cannot read is refused, and an infinite number is a server error |
| `PayloadMeaning.ServiceStored` | backend/app/core/jobs.py:52-55 | a service name must be given and be 1 to 128 letters, digits or `_. -`, and is stored as its text |
| `PayloadMeaning.NothingStored` | backend/app/core/jobs.py:26-33 | a ping or refresh takes only an empty payload; an unknown type is refused whatever it carries |
| `PayloadMeaning.IntegerTexts` | backend/app/core/jobs.py:41 | int() on text, independently of the scan: blanks, one sign, digits with single underscores between them, and the number they write |
| `PayloadMeaning.DecimalReadsBack` | backend/app/core/jobs.py:35-41 | a number written by str() is read back by int() as itself |
| `PayloadMeaning.DecimalForm` | backend/app/core/jobs.py:35 | a number is written with a minus exactly if it is negative, and without leading zeros |
| `PayloadMeaning.HandlerReports` | agent/internal/checkin/jobs.go:101-165 | every handler: when it fails, its exit code, error and output, and what a success puts into the output |
| `PayloadMeaning.LogsReport` | agent/internal/checkin/jobs.go:167-173 | the log handler announces the whole part of a number above 0 and at most 200, and 100 lines otherwise |
| `JobStore.JobSession.CreateJob` | backend/app/core/jobs.py:58-73 | a refused payload leaves the tables alone; an accepted one adds a queued row with its event and audit |
| `JobStore.JobSession.ExpireJobs` | backend/app/core/jobs.py:76-86 | every due row, and no other, becomes expired in the session while the rows a query sees stay as they were |
| `JobStore.JobSession.AssignJobsForAgent` | backend/app/core/jobs.py:89-103 | expiring, then selecting against the rows (flushed or not), then marking, is the poll's specified effect |
| `JobStore.JobSession.MarkAssigned` | backend/app/core/jobs.py:97-101 | every selected row is handed to the agent, each with one event and audit, all other rows untouched |
| `JobStore.JobSession.StartJob` | backend/app/core/jobs.py:106-115 | 404, 403 and 409 leave the tables alone; otherwise the row runs under this agent |
| `JobStore.JobSession.CompleteJob` | backend/app/core/jobs.py:118-149 | only a running job of this agent is completed, with its result row, summary, event and audit |
| `JobStore.JobSession.CancelJob` | backend/app/core/jobs.py:152-159 | a terminal job is left alone, any other is canceled and logged |
| `JobStore.JobSession.PollJobs` | backend/app/api/agent.py:230-254 | the response is the selected rows as committed, oldest first, all assigned |
| `JobStore.JobSession.SweepDevice` | backend/app/api/jobs.py:92-122 | reading a device's jobs first commits the expiration of the due ones |
| `JobLifecycle.LogsStep` | backend/app/core/jobs.py:171-201 | after any request the audit log mirrors the event log entry by entry, and every event names an existing job under that job's organization |
| `JobLifecycle.InvStep` | backend/app/core/jobs.py:58-159 | any request keeps: each row follows from its event word, audits mirror events, results mirror succeeded and failed rows |
| `JobLifecycle.LanguageShape` | backend/app/core/jobs.py:76-159 | no event kind occurs twice (as shipped, except a second expiration at the very end), an outcome comes only right after a start, and nothing follows an outcome or a cancellation |
| `JobRuns.Reachable` | backend/app/core/jobs.py:58-201 | in every reachable state a job's status and fields are a function of its event word, its word is legal, the audit log equals the event log, and result rows are exactly those of succeeded and failed jobs |
| `JobRuns.Progress` | backend/app/core/jobs.py:76-159 | over any run rows are never dropped, event words only grow, and a row changes only with its word, to a strictly lower rank |
| `JobRuns.TerminalForever` | backend/app/core/jobs.py:76-159 | a committed terminal job is frozen forever and its log closed, under both readings of the session |
| `JobRuns.HandedOutOnce` | backend/app/core/jobs.py:89-103 | no two polls of any run select the same job |
| `JobRuns.ReadingsAgree` | backend/app/core/jobs.py:76-96 | on a given answer, the flushed and the shipped poll agree if and only if no selected job is due |
| `JobRuns.FlushedIsClean` | backend/app/core/jobs.py:76-103 | with a flush between expiry and selection, no event follows an expiration and `completed_at` is set exactly on terminal rows |
| `JobRuns.ShippedIsCleanIff` | backend/app/db/session.py:15 | as shipped, a run ends clean if and only if none of its polls selected a job that was due |
| `JobRuns.ShippedResurrects` | backend/app/core/jobs.py:82-99 | a concrete run in which an expired job is handed out by the poll that expired it |
| `JobRuns.DirtyForever` | backend/app/core/jobs.py:82-99 | once that has happened, no later state of any run is clean again |
| `JobRuns.Potential` | backend/app/core/jobs.py:76-159 | events written plus remaining rank is at most four per job with the flush and five as shipped |
| `JobRuns.TimesAreOrdered` | backend/app/core/jobs.py:82-158 | under a clock that never goes back, a terminal job started no later than it completed, and an expired one completed no earlier than its deadline |
| `JobRuns.LateSuccess` | backend/app/core/jobs.py:106-149 | the witness that the deadline alone stops nothing: a concrete run in which a job starts and succeeds after it |
| `JobRecords.RequestWrites` | backend/app/core/jobs.py:76-159 | one request on one job, field by field: when each request takes effect on it, and the status, agent, times and summary it leaves |
| `JobRecords.RequestCreates` | backend/app/core/jobs.py:58-73 | an accepted creation adds one queued row with its device, organization, type, validated payload and the request's time plus the timeout as deadline; nothing else adds a row |
| `JobRecords.RequestAnswers` | backend/app/core/jobs.py:106-168 | the reply to every request by its guards on the job's own fields, and whatever is not accepted changes nothing |
| `JobRecords.JobIsItsCreation` | backend/app/core/jobs.py:58-67 | in every reachable state a job's organization, device, type, payload, creation time and deadline are those of the creation that made it |
| `JobRecords.RowsRememberRequests` | backend/app/core/jobs.py:76-159 | in every reachable state a job's start, end, agent and summary are those of the last request with that effect, and missing if there was none |
| `JobRecords.ResultIsItsReport` | backend/app/core/jobs.py:118-149 | every result row belongs to exactly one accepted completion: output and error are the first 20000 characters of its report, exit code and status are its own, the job's summary is the first 512 characters of output, else error, else the status word, and the job's times are those of that completion and of the last accepted start before it |
| `JobRecords.ReportHasItsResult` | backend/app/core/jobs.py:135-144 | every accepted completion has its result row from then on |
| `JobRecords.EveryEventIsAudited` | backend/app/core/jobs.py:171-201 | in every reachable state the audits are the events one for one, with the same organization, job and action |
| `JobDeadlines.ExpiredIffCaught` | backend/app/core/jobs.py:76-103 | under either reading a job is expired if and only if an earlier expiry step for its device met it unfinished and past its deadline and did not itself hand it out |
| `JobDeadlines.StartAcceptedIff` | backend/app/core/jobs.py:106-115 | a start by an admitted agent is accepted if and only if no earlier request started, canceled or caught the job; the time of the start plays no part |
| `JobDeadlines.CompletionAcceptedIff` | backend/app/core/jobs.py:118-149 | a completion by an admitted agent is accepted if and only if a start was accepted and nothing completed, canceled or caught the job since |
| `JobDeadlines.LateOnlyIfNotCaught` | backend/app/core/jobs.py:106-149 | in particular a late start or completion is accepted only if no expiry step caught the job before |
| `JobTies.HazardIsInTheTable` | backend/app/core/jobs.py:90-97 | the database may answer a shipped poll with a job past its deadline if and only if the device has a queued job past its deadline with fewer than five strictly older queued ones |
| `QueryAnswers.DueIffOverdue` | backend/app/core/jobs.py:77-82 | the expiry query may answer exactly the lists of all unfinished rows past their deadline, of one device or of all |
| `QueryAnswers.OldestIff` | backend/app/core/jobs.py:91-96 | the selection may answer exactly the lists, by creation time, of min(5, q) queued rows of the device with none older left behind |
| `QueryAnswers.PendingIff` | backend/app/core/notifications.py:119-124 | the batch query may answer exactly the lists, by creation time, of min(size, P) pending rows with none older left behind |
| `JobWords.WordIsRealised` | backend/app/core/jobs.py:58-159 | every word of the language is the log of a job in some run |
| `JobWords.LogsAreExactlyTheLanguage` | backend/app/core/jobs.py:58-159 | a word is a job's log in some reachable state if and only if it is in the language |
| `AgentCycle.Client.PollJobs` | agent/internal/checkin/jobs.go:60-86 | the list comes back only when request and response both arrive; the server changes whenever the request does |
| `AgentCycle.Client.StartJob` | agent/internal/checkin/jobs.go:88-94 | success is seen only when the response arrives and the server agreed |
| `AgentCycle.Client.CompleteJob` | agent/internal/checkin/jobs.go:96-99 | success is seen only when the response arrives and the server agreed |
| `AgentCycle.Client.RunJob` | agent/internal/checkin/jobs.go:43-55 | one turn of the loop: start, execute, check in after a refresh, complete, stopping at the first error |
| `AgentCycle.Client.ProcessJobs` | agent/internal/checkin/jobs.go:38-58 | the whole cycle with its early returns leaves the server in the state of the specified cycle and executes exactly its jobs |
| `CycleReports.ReportSent` | agent/internal/checkin/jobs.go:47-55 | the report sent is a success exactly if the handler succeeded and, for a refresh, its check-in did; with the handler's output, or the error that stopped it and exit code 1 |
| `CycleReports.FinishedRow` | agent/internal/checkin/jobs.go:43-55 | a turn without faults leaves the job with the turn's times, this agent, the outcome reported and its summary |
| `CycleInFleet.CycleIsMoves` | agent/internal/checkin/jobs.go:38-58 | every run of the agent's loop is a stretch of moves of the fleet, with the same server state and the same executions |
| `FleetRuns.Reachable` | agent/internal/checkin/jobs.go:38-58 | what every state of the fleet keeps: processes hold disjoint jobs that the server assigned them, and executed jobs were started |
| `FleetRuns.AtMostOnce` | agent/internal/checkin/jobs.go:38-58 | under any loss, crash and interleaving, a job is executed at most once, and has at most one result, exactly when it succeeded or failed, with that status, and only if executed |
| `FleetRuns.HandedOutOnce` | backend/app/core/jobs.py:89-103 | at most one poll whose request arrives returns a job |
| `FleetRuns.AbortedCycle` | agent/internal/checkin/jobs.go:38-46 | a job handed out to a cycle that ended before its start reached the server, because the poll's response was lost or the process went idle holding it, is never returned nor executed again, and stays assigned or ends canceled or expired |
| `FleetRuns.DroppedForever` | agent/internal/checkin/jobs.go:38-58 | a job in nobody's hands is never handed out, started or executed by any later move |
| `QueueDrain.SelectionIsExact` | backend/app/core/jobs.py:91-96 | a poll takes exactly min(5, q) queued jobs of the device, and whatever it leaves is no older |
| `QueueDrain.CycleFinishes` | agent/internal/checkin/jobs.go:38-58 | a fault-free cycle finishes exactly the selected jobs in order and changes no other row |
| `QueueDrain.QueueShrinks` | backend/app/core/jobs.py:89-103 | such a cycle leaves the device's queue without its min(5, q) oldest jobs |
| `QueueDrain.Drain` | backend/app/core/jobs.py:89-149 | without faults, expiry, cancels or new jobs, ceil(q/5) cycles bring all q jobs to succeeded or failed, in creation order |
| `Notifications.SlotHasDelivery` | backend/app/core/notifications.py:67-94 | every matching rule's well-formed channel entry gets a delivery at its own position |
| `Notifications.PositionsIncrease` | backend/app/core/notifications.py:73-94 | two entries never share a delivery, and deliveries follow the order of rules and entries |
| `Notifications.DeliveryHasSlot` | backend/app/core/notifications.py:73-94 | there is no other delivery: each one belongs to an entry of a matching enabled rule |
| `Notifications.FanOutRows` | backend/app/core/notifications.py:83-93 | deliveries carry the alert and its organization, unattempted, and are pending exactly when the channel exists, is enabled and is in that organization |
| `Notifications.FanOutAnyOrder` | backend/app/core/notifications.py:67-72 | whatever order the rule query answers in, the deliveries are the same, occurrence for occurrence |
| `Notifications.FanOutIsOwned` | backend/app/core/notifications.py:67-94 | fan-out, on the rules' own fields: one delivery, in order, for exactly the ids listed by enabled rules of the alert's organization whose severity list is empty or holds its severity and whose key list is empty or holds its key; pending exactly if the channel is the organization's and enabled |
| `DeliveryQueue.DeskStore.EnqueueAlertNotifications` | backend/app/core/notifications.py:59-102 | the nested loops with their skips append exactly the specified fan-out and one audit per delivery |
| `DeliveryQueue.DeskStore.GetEnabledChannel` | backend/app/core/notifications.py:105-115 | a channel is returned if and only if it exists, is in the organization and is enabled |
| `DeliveryQueue.DeskStore.ProcessDelivery` | backend/app/core/notifications.py:131-181 | a settled row is left alone; a pending one is skipped, sent, failed or kept pending as the attempt turns out |
| `DeliveryQueue.DeskStore.ProcessPendingDeliveries` | backend/app/core/notifications.py:118-128 | the loop processes the rows of the batch in order and no others |
| `DeliveryRuns.AttemptsAreAccounted` | backend/app/core/notifications.py:131-181 | in every reachable state attempts equal the recorded tries, pending rows have attempts left, failed ones used exactly the limit, and `sent_at` is set exactly on sent ones |
| `DeliveryRuns.SettledForever` | backend/app/core/notifications.py:132-133 | sent, failed and skipped deliveries are never written again |
| `DeliveryOutcomes.AttemptLeaves` | backend/app/core/notifications.py:131-181 | one attempt on fields: skipped without its alert or an enabled channel; sent, at the attempt's time, exactly if the channel is mail or webhook and the send reports no error; otherwise its error text and one attempt less; each with its audit |
| `DeliveryOutcomes.RowIsItsLastAttempt` | backend/app/core/notifications.py:118-181 | in every reachable state a delivery is as its last attempt left it, sent exactly if that attempt was such a success; one never attempted is as fan-out wrote it |
| `DeliveryOutcomes.EveryDeliveryIsNoted` | backend/app/core/notifications.py:84-102 | in every reachable state the enqueue audits are the deliveries, one for one and in order |
| `DeliveryDrain.PotentialFalls` | backend/app/core/notifications.py:118-181 | for any tie order, a call lowers the open attempts by at least min(batch size, pending) |
| `DeliveryDrain.ReachableLeavesAttempts` | backend/app/core/notifications.py:148-160 | the condition the drain bounds start from holds in every reachable state |
| `DeliveryDrain.FirstBatchSettles` | backend/app/core/notifications.py:118-160 | under a total creation order, L calls settle everything the first of them took |
| `DeliveryDrain.Drains` | backend/app/core/notifications.py:118-181 | under a total creation order, L * ceil(P / size) calls leave none of P pending deliveries, whatever sends and channel switches do |
| `DeliveryTies.DrainsUnderTies` | backend/app/core/notifications.py:119-124 | for any tie order, floor(L * (P - 1) / size) + L calls leave none of P pending deliveries |
| `DeliveryTies.SmallQueueDrains` | backend/app/core/notifications.py:118-160 | a queue that fits one batch empties in L calls |
| `DeliveryTies.TieBoundIsTight` | backend/app/core/notifications.py:119-124 | for every P > size there is a run over tied deliveries in which one call fewer than floor(L * (P - 1) / size) + L leaves one pending |
| `DeliveryTies.SmallBoundIsTight` | backend/app/core/notifications.py:119-124 | for every P <= size there is a run in which L - 1 calls leave deliveries pending |
| `DeliveryTies.TiesNeedMore` | backend/app/core/notifications.py:119-124 | so L * ceil(P / size) calls are too few for some tied queue |
| `Alerts.LowDiskExists` | backend/app/core/alerts.py:197-206 | the low-disk condition holds if and only if some disk of known positive size has a known free share below the threshold |
| `Alerts.TimeOnlyAggravates` | backend/app/core/alerts.py:185-277 | with nothing new reported, a condition that holds keeps holding as time passes |
| `Alerts.CheckinNeverOffline` | backend/app/api/agent.py:176-188 | on a check-in's facts the memory condition never holds, and the offline condition only for a negative window |
| `Alerts.EnsuredHas` | backend/app/core/alerts.py:118-140 | after ensuring, every default key has a rule of the organization |
| `Alerts.EnsuredExtends` | backend/app/core/alerts.py:125-139 | ensuring keeps every existing rule and adds only default ones |
| `AlertConditions.ConditionsAreTheseNine` | backend/app/core/alerts.py:185-277 | the nine conditions and their messages written out: every comparison, with the rule's stored figure or the setting where it stores none |
| `AlertConditions.EvaluationEnsuresRules` | backend/app/core/alerts.py:50-140 | an evaluation leaves the organization a rule for each of the nine keys: its own as they were, and for the missing ones an enabled rule with the severity and threshold of the definitions |
| `AlertStore.AlertTables.EnsureDefaultAlertRules` | backend/app/core/alerts.py:118-140 | the dictionary-and-loop form adds exactly the missing rules and returns each key's rule |
| `AlertStore.AlertTables.CheckDisks` | backend/app/core/alerts.py:197-211 | the accumulating loop with its `continue` computes the low-disk result |
| `AlertStore.AlertTables.Apply` | backend/app/core/alerts.py:280-315 | create, repeat and auto-resolve change the tables as specified, fanning out only on creation |
| `AlertStore.AlertTables.EvaluateDeviceAlerts` | backend/app/core/alerts.py:143-182 | computing all nine results first and then applying the enabled ones is the specified evaluation |
| `AlertStore.AlertTables.AcknowledgeAlert` | backend/app/api/alerts.py:88-113 | foreign alerts are not found; only an active alert changes |
| `AlertStore.AlertTables.ResolveAlert` | backend/app/api/alerts.py:116-141 | foreign alerts are not found; an open alert is resolved without moving when it was last seen |
| `AlertHistory.ResultExtends` | backend/app/core/alerts.py:280-315 | a result extends the pair's episodes by exactly one history item |
| `AlertHistory.ResultElsewhere` | backend/app/core/alerts.py:283-289 | and leaves every other pair's episodes alone |
| `AlertHistory.ResultAgrees` | backend/app/core/alerts.py:290-315 | after a result the pair has an open alert if and only if the condition holds |
| `AlertHistory.OperatorRefines` | backend/app/api/alerts.py:97-140 | an operator's step on an open alert keeps the table equal to the fold of the history |
| `AlertBlocks.FoldIsBlocks` | backend/app/core/alerts.py:280-315 | the fold of any history is the list of its maximal blocks of active evaluations, each field read off its block |
| `AlertBlocks.BeginningsAreAll` | backend/app/core/alerts.py:290-304 | the blocks listed are all the blocks there are, in order |
| `AlertRuns.AlwaysSound` | backend/app/core/alerts.py:118-182 | in every reachable state only a pair's newest alert can be open, an organization has one rule per key, alerts fit their rules, and the table equals the fold of the history |
| `AlertRuns.OpenIsUnique` | backend/app/core/alerts.py:283-307 | at most one alert per device and rule is not resolved, in every reachable state |
| `AlertRuns.EvaluationAgrees` | backend/app/core/alerts.py:143-182 | after an evaluation every enabled default rule has an open alert if and only if its condition holds; alerts of disabled rules and other devices are as before |
| `AlertConditions.EvaluationDecides` | backend/app/core/alerts.py:143-182 | after an evaluation of any facts the device has an open alert under an enabled rule of its organization if and only if the condition of that rule's key, written out, holds of them |
| `AlertConditions.EvaluationRecords` | backend/app/core/alerts.py:179-182 | an evaluation adds one item to the history of each such rule, whether the written-out condition holds and the written-out message, and nothing to any other pair |
| `AlertRuns.EvaluationIsRecorded` | backend/app/core/alerts.py:179-182 | an evaluation adds its result to the history of each enabled default rule's pair, once, and to no other |
| `AlertRuns.TableIsRunLengthCode` | backend/app/core/alerts.py:280-315 | in every reachable state the alerts of each device and rule are the maximal blocks of that pair's history |
| `AlertEvents.EventsDetermineAlerts` | backend/app/core/alerts.py:305-327 | in every reachable state an alert's events form a legal history that determines its status, message and acknowledgement |
| `AlertFanOut.EvaluationFansOut` | backend/app/core/alerts.py:290-310 | an evaluation enqueues exactly the fan-out of the alerts it creates |
| `AlertFanOut.DeliveriesAreFixed` | backend/app/core/notifications.py:59-102 | once an alert exists no run adds, drops or redirects one of its deliveries |
| `AlertFanOut.FannedOutOnce` | backend/app/core/alerts.py:290-310 | at any later time an alert's deliveries are, row for row, the fan-out of the evaluation that created it |
| `AlertFanOut.EvaluationNotifies` | backend/app/core/alerts.py:290-310 | after an evaluation a new alert's deliveries are, row for row, those that its organization's rules ask for, on the rules' own fields |
| `AlertFanOut.DeliveriesAreWanted` | backend/app/core/notifications.py:59-102 | at any later time an alert's deliveries are one for each entry that wanted it when it appeared: same order, same channels, none more and none less |
| `AlertFanOut.AttemptsAreAccounted` | backend/app/core/notifications.py:131-181 | attempts stay accounted for when the alert tables fill the queue |
| `AlertFanOut.DeliveriesStayInTenant` | backend/app/core/notifications.py:83-94 | a delivery carries its alert's organization, and a pending one's channel belongs to it |
| `AlertFanOut.SettledForever` | backend/app/core/notifications.py:132-133 | sent, failed and skipped deliveries stay as they are, whatever the alert tables and the queue do |
| `AlertFanOut.ProjectsToAlerts` | backend/app/core/alerts.py:143-182 | the coupled runs are runs of the alert tables, so their theorems apply |
| `Dashboard.FiguresCount` | backend/app/api/dashboard.py:20-58 | each figure is the number of rows it names: devices, online and offline ones, active warnings, active critical alerts |
| `Dashboard.AttentionCounts` | backend/app/api/dashboard.py:59-67 | the devices needing attention are those that an active or acknowledged alert of the organization names, once each |
| `Dashboard.SummaryBounds` | backend/app/api/dashboard.py:17-84 | warnings plus critical are exactly the active alerts; devices needing attention are at most the open alerts, and these at most nine times them |
| `Enrollment.RegistryTables.EnrollAgent` | backend/app/api/agent.py:64-146 | an inadmissible token changes nothing; otherwise device, agent, token and audit are written as specified |
| `Enrollment.RegistryTables.AuthenticateAgentJobs` | backend/app/api/agent.py:221-227 | an agent is returned if and only if it is the device's and the secret is its own |
| `Enrollment.RegistryTables.CheckinAgent` | backend/app/api/agent.py:154-199 | a refused check-in changes nothing; an accepted one updates device and agent and adds its row |
| `EnrollmentRuns.AgentsAreLastEnrollments` | backend/app/api/agent.py:84-134 | over all runs the agent table is the map from each machine to its last successful enrollment |
| `EnrollmentRuns.OneAgentPerDevice` | backend/app/api/agent.py:118-134 | no two agents share a device |
| `EnrollmentRuns.OneDevicePerOrganization` | backend/app/api/agent.py:84-105 | an organization has at most one device per machine |
| `EnrollmentRuns.GuardNeverFires` | backend/app/api/agent.py:154-164 | whoever authenticates is let in: the organization guard of a check-in never fires |
| `EnrollmentRuns.CredentialWorksUntilReplaced` | backend/app/api/agent.py:117-134 | a credential handed out authenticates if and only if its machine has not enrolled again |
| `EnrollmentRuns.OnlyIssuedCredentials` | backend/app/api/agent.py:154-158 | nothing authenticates that was not handed out for that device |
| `EnrollmentRuns.MovingLeavesOldDevice` | backend/app/api/agent.py:129-134 | a machine that enrolls elsewhere leaves its old device without an agent |
| `EnrollmentRuns.TokensAreLimited` | backend/app/api/agent.py:74-82 | a token's uses are exactly the enrollments it admitted and never exceed its limit |
| `EnrollmentEffects.EnrollmentAdmittedIff` | backend/app/api/agent.py:69-82 | in every reachable state an enrollment is logged and answered with its credential if and only if some token has the hash, no revocation, its expiry after now and a use left; otherwise nothing changes |
| `EnrollmentEffects.EnrollmentWrites` | backend/app/api/agent.py:84-146 | an admitted enrollment writes its token's use, the device row of that organization and machine, the machine's agent row, one audit and one log entry, every field spelled out, and nothing else |
| `EnrollmentEffects.TokenIsMinted` | backend/app/api/agent.py:70-82 | in every reachable state a token has the organization, hash, expiry and limit it was minted with, and is revoked exactly if minted so or a revocation followed |
| `EnrollmentEffects.CheckInAcceptedIff` | backend/app/api/agent.py:154-199 | in every reachable state a check-in is accepted if and only if an agent of the device has the secret presented; it then writes that device, that agent, one check-in and one audit, every field spelled out, and otherwise nothing |
| `EnrollmentEffects.OtherStepsWrite` | backend/app/api/devices.py:39-102 | a reading sets the flag of exactly the devices it covers, by their last contact and its window; administration writes one token |
| `EnrollmentRuns.DeadCredentialsStayDead` | backend/app/api/agent.py:117-134 | a credential that has stopped working never works again |
| `EnrollmentTrail.TrailAlwaysFits` | backend/app/api/agent.py:106-144 | audits list exactly the enrollments and check-ins, in order, and each device shows the health, address and version of its last contact |
| `Enrollment.RegistryTables.ListDevices` | backend/app/api/devices.py:77-90 | lists exactly the organization's devices and sets each one's flag by its window, nothing else |
| `Enrollment.RegistryTables.GetDevice` | backend/app/api/devices.py:93-102 | a foreign or missing device is not found and nothing changes; otherwise its flag is set by its window |
| `EnrollmentTrail.OnlineIsLastReading` | backend/app/api/devices.py:39-51 | in every reachable state a device is online if and only if no reading followed its last contact, or the last such reading found that contact inside its window |
| `EnrollmentTrail.ReadingShowsContact` | backend/app/api/devices.py:39-51 | any reading shows a device online if and only if its last contact is inside the reading's window |
| `Inventory.InventoryTables.UpsertInventory` | backend/app/api/inventory.py:17-131 | the upserts and the three delete-then-insert loops are the specified update of all tables |
| `Inventory.InventoryTables.ReplaceItems` | backend/app/api/inventory.py:47-85 | each of the three tables loses the device's rows and gains exactly the payload's, in order |
| `InventoryRuns.ItemsReplaced` | backend/app/api/inventory.py:47-85 | delete-then-insert leaves exactly the new items and every other device's as they were |
| `InventoryRuns.OthersUntouched` | backend/app/api/inventory.py:17-117 | a payload touches no row of another device |
| `InventoryRuns.TablesAreTheFold` | backend/app/api/inventory.py:17-117 | after any sequence of payloads a device's rows are its last payload's, its summary is unique, and its security and update rows are those of the last payload that had the section |
| `InventoryRuns.LogIsReceived` | backend/app/api/agent.py:200-201 | the log that is folded is what was received, in order |
| `InventoryRuns.AuditsAreReceipts` | backend/app/api/inventory.py:118-131 | every payload received is audited with its device, organization and the numbers of disks, interfaces and software items |
| `JobTenancy.StepHome` | backend/app/core/jobs.py:58-67 | any job request keeps every job, event, audit and result in its device's organization |
| `AlertTenancy.StepHome` | backend/app/core/alerts.py:292-307 | any alert step keeps every alert and alert event in its device's organization |
| `AlertTenancy.OperatorWrites` | backend/app/api/alerts.py:88-141 | an operator's step writes the status, the time and one event of one alert of the operator's organization in a status it applies to, and on any other changes nothing |
| `InventoryTenancy.UpsertHome` | backend/app/api/inventory.py:17-131 | a payload keeps every inventory row in its device's organization |
| `BackendStore.Handlers.CheckinAgent` | backend/app/api/agent.py:149-218 | the handler authenticates, updates, stores the inventory and evaluates, to exactly the specified world |
| `BackendStore.Handlers.PollJobs` | backend/app/api/agent.py:230-254 | credentials that do not authenticate are refused without effect; others poll as their agent |
| `BackendStore.Handlers.StartPolledJob` | backend/app/api/agent.py:257-267 | credentials that do not authenticate are refused without effect; others start as their agent |
| `BackendStore.Handlers.CompletePolledJob` | backend/app/api/agent.py:270-289 | credentials that do not authenticate are refused without effect; others complete as their agent |
| `BackendStore.Handlers.CreateDeviceJob` | backend/app/api/jobs.py:73-89 | a foreign or missing device is not found; otherwise the job is created under the device's organization |
| `BackendStore.Handlers.CancelAgentJob` | backend/app/api/jobs.py:125-136 | a foreign or missing job is not found; otherwise it is canceled |
| `BackendRuns.CheckInSound` | backend/app/api/agent.py:149-218 | a check-in keeps the invariant of all four machines and the coherence between them |
| `BackendRuns.AlwaysSound` | backend/app/api/agent.py:64-289 | every reachable world keeps all the machines' invariants together |
| `BackendRuns.TenantsNeverMix` | backend/app/core/alerts.py:290-306 | in every reachable world every row of every table carries the organization of its device, and pending deliveries go to that organization's channels |
| `BackendGuards.JobRequestServedIff` | backend/app/api/agent.py:221-289 | in every reachable world a job request is served if and only if it is an operator's on a device or job of the operator's organization, or an agent's with its own device's secret; it changes the job tables alone, and a refused one changes nothing |
| `BackendGuards.JobsOfOthersUntouched` | backend/app/api/jobs.py:73-136 | a job request made for one organization changes no job of any other |
| `BackendProjections.RegistryRun` | backend/app/api/agent.py:64-218 | a run of the backend is, moment by moment, a run of the enrollment machine: an index map gives the state each world shows and the step each request takes |
| `BackendProjections.BoardRun` | backend/app/api/agent.py:205 | a run of the backend is, moment by moment, a run of the alert tables and the queue: an index map gives the state each world shows and the step each request takes |
| `BackendProjections.JobRun` | backend/app/api/agent.py:230-289 | a run of the backend is, moment by moment, a run of the job server: an index map gives the state each world shows and the step each request takes |
| `BackendTheorems.JobsEndForever` | backend/app/core/jobs.py:76-159 | in the whole backend a terminal job and its log never change |
| `BackendTheorems.JobsHandedOutOnce` | backend/app/core/jobs.py:89-103 | in the whole backend no two requests hand out the same job |
| `BackendTheorems.DeliveriesSettleForever` | backend/app/core/notifications.py:132-133 | in the whole backend a settled delivery is never written again |
| `BackendTheorems.DeliveriesAreFixed` | backend/app/core/notifications.py:59-102 | in the whole backend no request adds, drops or redirects a delivery of an existing alert |
| `BackendTheorems.FannedOutOnce` | backend/app/core/alerts.py:290-310 | an alert is created by an accepted check-in, and its deliveries are ever after that check-in's fan-out, row for row |
| `BackendTheorems.DeadCredentialsStayDead` | backend/app/api/agent.py:117-134 | in the whole backend a credential that has stopped working never works again |
| `CheckInResults.CheckInDecidesAlerts` | backend/app/api/agent.py:166-205 | after any accepted check-in the alert of every enabled key is open if and only if its condition holds of what the device reported |
| `CheckInResults.CheckInDecidesOnFields` | backend/app/api/agent.py:166-205 | after any accepted check-in an enabled rule's alert is open if and only if the device reported what its key is about, on the reported fields: Defender or firewall off in the last security section, a pending reboot or stale updates in the last updates section, a version that is not the current one, a low disk or an old date of the last inventory |
| `CheckInResults.CheckInIsReceived` | backend/app/api/agent.py:200-201 | an accepted check-in adds its inventory to what was received, if it carries one, and no other does |
| `CheckInResults.InventoryDecidesItsAlerts` | backend/app/api/agent.py:200-205 | with an inventory, the disk alert is open if and only if that inventory shows a low disk, and the freshness alert only under a negative window |
| `CheckInResults.NeverOfflineByCheckIn` | backend/app/api/agent.py:176-188 | the memory alert is never open after a check-in, the offline alert only under a negative window |
| `CheckInResults.CheckInIsLocal` | backend/app/api/agent.py:149-218 | a check-in leaves every other device's alerts, inventory and row, and all jobs, as they were |

## Left out

- Transaction races: poll and start take no row lock (`backend/app/core/jobs.py:91-96`, `backend/app/api/agent.py:262-265`); each request is one atomic step.
- The clock is read once per request; a job's creation time is its own argument, so equal and unordered creation times are covered.
- JobStore.JobSession.Load: the identity map holds row values, not shared ORM objects, so aliasing between two references to one object is not modelled.
- JobStore.JobSession.AddJobEvent: event messages, and the `job.` prefix of audit actions, are constructors instead of text; event and result metadata are not modelled.
- JobPayload.ValidateRetracts: a JSON value that is neither text nor an integer carries its Python `str()` and `int()` images; digits outside ASCII are not modelled.
- JobPayload.ExecuteJob: the text of outputs is kept as the arguments of its format; host probing, the service query and inventory collection are answers of the host, and the error for an unknown type leaves out the quoted name.
- AgentCycle.Client.ProcessJobs: context cancellation and the client's check that it is enrolled are not modelled; a lost request or response stands for every transport error.
- Alert and event messages are kept as the figures their text is formatted from, unrounded; titles and event metadata are not modelled.
- AlertStore.AlertTables.CheckDisks: percentages are exact reals, not floating point.
- AlertStore.AlertTables.Apply: where several open alerts existed the query could return any of them; the model takes the newest, and `AlertRuns.OpenIsUnique` shows there is never more than one.
- DeliveryQueue.DeskStore.EnqueueAlertNotifications: the foreign key from a delivery to its channel is not enforced, so a skipped delivery for a missing channel is stored rather than refused; the branch for an alert whose rule row is missing cannot occur, since the alert was just created from it. The audit's metadata is not modelled.
- DeliveryDrain.Drains: needs creation times that differ; deliveries of one transaction share theirs when the database stamps them (`backend/app/models/mixins.py:13`), and `DeliveryTies.DrainsUnderTies` is the bound for that case.
- DeliveryQueue.DeskStore.ProcessDelivery: sending is an outcome chosen by the environment; SMTP, webhooks, timeouts, payload building and secret masking are not modelled.
- Alert rules are never edited by an endpoint; a tuning step stands for administration of their switch and parameters in the database.
- Enrollment.RegistryTables.EnrollAgent: hashing is taken as injective and secrets as fresh; HMAC, PBKDF2 and random generation are not modelled. Token creation and revocation are steps of administration.
- The status text of a device is one flag with `is_online`, as the code always sets them together; column lengths and uniqueness errors of the database are not modelled.
- Enrollment.RegistryTables.CheckinAgent: the stored check-in payload document (local addresses, uptime, processor count) is not modelled.
- BackendStore.Handlers.CheckinAgent: the remote-access status a check-in may carry (`backend/app/api/agent.py:202-203`) is not part of this model.
- JobStore.JobSession.CompleteJob: the metadata documents of results and events are not modelled.
- Dashboard.SummaryBounds: the list of recent alerts in the response is not modelled.
- Of the read endpoints only those that write to the modelled tables are modelled: listing or showing devices sets their online flag, listing or showing jobs expires the due ones. The other reads change none of these tables, and what any of them returns is modelled only where the table above says so.
- Users, roles, permissions, refresh tokens, HTTP status bodies, tickets, assets, documentation, reports, workflows, backups, AI queries, the frontend and deployment would add only easy members.
