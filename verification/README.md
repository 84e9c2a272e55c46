# Patent publication service: a verified model

The service keeps patents and their reviews in Postgres, publishes what becomes public through an outbox table and a
relay to Kafka, issues rotating refresh tokens, and makes retried POSTs safe with idempotency keys. This project models
those parts in Dafny and proves what they promise over every run.

| modules | what they model |
|---|---|
| `Lifecycle`, `Events`, `PatentDb`, `History` | the patent state machine, the event contract, one transaction as one step, and whole runs of transactions |
| `Outbox`, `Pipeline` | the outbox statements; requests, relays, broker, clock and faults as one step system cut at every `await` |
| `Consumer`, `Ordering`, `Overtaking`, `Delivery`, `Drain` | the consumer rule, the order of the log, where that order breaks, copies in the log, and how the queue empties |
| `OutboxRelay` | the relay as imperative code over a table, proved to perform runs of the step system |
| `Scenarios`, `ServedRuns` | concrete runs from the empty system in which a promise of the documentation fails, and the requests that produce them |
| `Sessions`, `Browser` | the refresh-token table with refreshes cut between read and write, and one browser tab in front of it |
| `Idempotency` | the reservation protocol under interleaved requests |
| `Relations`, `ObjectKeys`, `Requests`, `PatentServices` | inventor lists, object keys, whole requests with documents and inventors, and the service as imperative code proved to serve them |
| `Outcomes` | for each request of the patent service: exactly when it succeeds, what it answers, and all it changes |
| `Listing` | visibility, filters and paging |

How time and failure are modelled. A run is any sequence of steps; a step that is not enabled does nothing. Every
`prisma.$transaction` is one step, and what a request read beforehand is an argument of its transaction, so prechecks
restrict nothing that the transaction does not check again. This includes the delete of an inventor, whose count of
credits is a statement of its own. Ids are drawn inside a transaction and become visible when it commits, so events of
different patents may commit out of id order; those of one patent cannot, because a review holds the lock on the patent's
row while it draws. A send or a database write may succeed, fail, or take effect
and report an error; a relay may crash between any two statements. Fresh ids, tokens and uuids are values never used
before; there is one clock and it never runs backwards. `RETURNING` is taken to yield rows in id order, which
`tests/outbox.test.js` expects and the SQL does not promise.

## Where the code and its documentation differ

The model follows the code; each of these is a lemma below. The runs of the examples are what the service makes of requests
it accepts (`ServedRuns.ExamplesAreServed`, `ServedRuns.RacersPassTheirChecks`).

- `src/workers/outboxRelay.js:29-37` and README.md:233-235 say that a failed publish never lets a later event go first.
  The rest of the failed batch stays claimed until the timeout, so the next pass takes newer rows
  (`Overtaking.FailedSendDisorders`); `Overtaking.OvertakingExact` says exactly when a pass does this, and
  `Scenarios.OvertakingExample` shows it happen to the events of one patent. Consumers that follow the documented rule are
  not affected (`Consumer.EndToEndAgreement`).
- `src/workers/outboxRelay.js:46-49` calls `sequence` monotonic across the whole log. Two approvals of different patents
  can commit in the other order than they drew their ids, and then a log without any fault is out of order
  (`Overtaking.LateCommitExact`, `Scenarios.LateCommitExample`). It is monotonic per patent (`PatentDb.TxKeepsIds`).
- `src/services/inventorService.js:103-107` says an inventor credited on a patent cannot be deleted. The count and the
  delete are two statements; a patent created and approved between them loses the credit its event carries
  (`PatentDb.DeleteInventorExactly`, `History.InventorRaceExample`), and so does one whose approval read its links before the
  delete (`PatentDb.StaleApprovalExactly`).
- `src/workers/outboxRelay.js:20-26` says oversized events are dead-lettered at once. They fail one attempt per
  pass, and a pass dead-letters one exactly when it was on its last (`Overtaking.OversizedDeadLetteredExactly`,
  `Scenarios.OversizedExample`).
- `src/services/patentService.js:212-215` says the re-read inside the transaction is the status the write lands on. Under
  read-committed it may be stale, and then the event log and the status disagree (`History.StaleDeclineExact`,
  `History.StaleDeclineExample`): the consumer goes on showing a declined patent (`Scenarios.StaleDeclineStaysPublic`).
- `src/services/patentService.js:143-145` decides the version bump from a row read before the transaction, so two
  concurrent edits can leave one version with two contents (`History.StaleEditExact`, `History.StaleEditExample`).
- `src/services/userService.js:106-109` and `194-200` revoke every session, but the rotating write checks only that the
  token is not rotated: a refresh already past its checks survives the revocation (`Sessions.RevocationFinalExactly`,
  `Sessions.RevocationEscapedExample`, `Sessions.AlarmEscapedExample`).
- `src/services/userService.js:143-146` says a logout with a token revokes that session. A token that was rotated since
  matches no row, and nothing ends (`Sessions.LogoutFinalExactly`). `frontend/src/services/authService.ts:22-30` sends such a
  token when the logout itself is retried after a refresh (`Browser.LogoutLeavesSessionOpen`).
- `src/services/patents/relations.js:42-47` looks for duplicates among spellings, so "1" and "01" pass together; only the
  primary key of the link table stops them (`Relations.AcceptedSoundExactly`).
- `src/config/kafka.js:29-30` advises consumers to be idempotent on (patent, version); README.md:243-248 forbids that.
  A consumer that takes a repeated (patent, version) for a redelivery of its Upserted agrees with the documented one exactly
  when a patent's newest event came before every other Upserted of its version (`Consumer.ByVersionAgreesExactly`); approving, declining and approving again loses
  the patent (`Scenarios.ByVersionExample`). The consumer here follows the README.
- The drawing at README.md:154-161 leads an edit of a declined patent back to draft. An edit never changes a status
  (`History.StatusMovesExactly`).
- A page reload between a refresh and its answer presents a token twice (`Browser.ReloadSafeExactly`), which
  `src/services/userService.js:83-90` takes for theft unless the token is spent (`Browser.ReloadAlarmExactly`,
  `Browser.ReloadAlarmExample`, `Browser.ReloadCalmExample`).
- `src/middlewares/idempotency.js:83-84` says a failed request must stay retryable. After a crash, or a delete that fails, no
  request holds the key and every retry is refused for good (`Idempotency.InFlightLeavesExactly`,
  `Idempotency.StuckKeyExample`).

## Model

| member | source | states |
|---|---|---|
| PatentDb.TxKeepsLog | src/services/patentService.js:204-263 | each transaction keeps one patent's events, reviews and status in agreement |
| PatentDb.TxKeepsUniques | src/services/patentService.js:44-83 | document keys and publication numbers stay unique under every transaction |
| PatentDb.TxKeepsInv | src/services/patentService.js:113-289 | every transaction keeps the database invariant: distinct row ids in order per patent, unique columns, and agreement for every patent |
| PatentDb.TxKeepsIds | src/services/outboxService.js:25-28 | whatever order transactions commit in, row ids stay distinct and rise along the events of each patent |
| PatentDb.DeleteInventorExactly | src/services/inventorService.js:108-120 | a delete that lands leaves events and approved rows crediting the same people if and only if no approved patent credits the inventor at that moment |
| PatentDb.CascadeReachesAll | prisma/schema.prisma:173 | after an inventor's delete no patent of any status credits them, and every other credit and column is as it was |
| PatentDb.StaleApprovalExactly | src/services/patentService.js:211-243 | when an inventor is deleted between an approval's read of the links and its commit, events and rows credit the same people if and only if the links read did not credit the inventor |
| PatentDb.TxKeepsCredits | src/services/patentService.js:204-263 | no other transaction can make events and approved rows credit different people |
| PatentDb.ReviewKeepsLog | src/services/patentService.js:211-246 | a review that adds one decision, and an event exactly on a pass or on leaving approved, preserves agreement for every patent |
| PatentDb.NoDecisionsToErase | prisma/schema.prisma:144 | the cascade on delete removes nothing when the patent has no decisions |
| History.RunInv | src/services/patents/lifecycle.js:70-84 | the database invariant holds after every run of transactions |
| History.StatusMovesExactly | src/services/patents/lifecycle.js:29-33 | some transaction takes a patent from one status to another if and only if the pair is one of the five arrows of the lifecycle |
| History.ReviewedIsFrozen | src/services/patents/lifecycle.js:35-36 | under review or approved, nothing of a patent changes but its status, together with one review row, and its credits, by exactly the cascade of an inventor's delete |
| History.LogAgreesWithStatus | src/services/patentService.js:204-263 | in every run a patent's events alternate from Upserted, the last is Upserted exactly while it is approved and then pictures the row but for its credits, a Withdrawn names the version it withdraws, and Upserted events equal pass reviews in number |
| History.CreditsAgreeOverRuns | src/services/inventorService.js:111-117 | in every run whose inventor deletes land on no credited approved patent, events and approved rows credit the same people in the same order |
| History.InventorRaceExample | src/services/inventorService.js:108-120 | a run in which the count comes before the create and the delete after the approval strips a published patent of its credit |
| History.RacingApprovalsHaveOneWinner | src/services/patents/lifecycle.js:56-84 | the approval that commits second aborts and leaves no trace |
| History.HistoryCannotBeErased | src/services/patentService.js:265-285 | reviews and events are append-only over every continuation of every run |
| History.DraftsHaveNoHistory | src/services/patentService.js:269-285 | a draft, or an id without a patent, has no reviews and no events |
| History.UniquesOverRuns | src/services/patentService.js:36-52 | over every run no two patents share a document key or a publication number |
| History.UnchangedContent | src/services/patentService.js:143-145 | the change test is true exactly when the write would alter one of the four content columns |
| History.EditBumpsExactly | src/services/patentService.js:106-112 | an edit computed from the row it lands on adds one to the version if the content columns change and leaves it if not |
| History.VersionDeterminesContent | src/services/patentService.js:106-154 | over a run whose edits find a change whenever the row they land on changes, the submitter never changes, versions never decrease and an equal version means equal title, abstract, specification and document key |
| History.EventPicturesState | src/services/patentService.js:234-243 | every Upserted event equals the snapshot of a state the run went through |
| History.EventVersionDeterminesContent | src/events/patentEvents.js:31-54 | in such a run two Upserted events of one patent with one version carry one content |
| History.StaleEditExact | src/services/patentService.js:143-154 | an edit computed from an older row keeps version and content together if and only if it saw a change or would make none |
| History.StaleEditExample | src/services/patentService.js:114-154 | two concurrent edits give version 2 two titles |
| History.StaleDeclineExact | src/services/patentService.js:215-234 | a decline keeps the log in agreement if and only if the status it read and the status it landed on are both approved or both not |
| History.StaleDeclineDisagrees | src/services/patentService.js:215-234 | otherwise that patent's log disagrees with its status |
| History.StaleDeclineExample | src/services/patentService.js:211-246 | a run from the empty database in which it happens |
| Outbox.BatchMembers | src/services/outboxService.js:60-73 | a batch has at most the limit of rows, all of them in the table and claimable |
| Outbox.BatchTakesFirst | src/services/outboxService.js:63-72 | a claimable row is in the batch unless the batch is full of older rows |
| Outbox.BatchIncreasing | src/services/outboxService.js:63-73 | a batch is in strict id order, whatever order its rows committed in |
| Outbox.ClaimHoldsFiveMinutes | src/services/outboxService.js:36-68 | a claimed live row can be claimed again exactly when more than 300000 ms have passed |
| Outbox.MarkPublished | src/services/outboxService.js:76-80 | marking a row published changes no id, key, payload or size |
| Outbox.MarkFailed | src/services/outboxService.js:87-95 | recording a failure changes no id, key, payload or size |
| Pipeline.RequestAppends | src/services/outboxService.js:25-28 | a request only adds unpublished, unclaimed rows other than any row a relay holds |
| Pipeline.StepFrame | src/workers/outboxRelay.js:38-88 | what each step leaves alone: patents but for requests, the table at sends and crashes, other relays, and all of the log but for one send of the head |
| Pipeline.SentExactlyIfItFits | src/workers/outboxRelay.js:27-59 | a send can be acknowledged exactly if the message has at most 921600 bytes |
| Pipeline.StepKeepsInv | src/workers/outboxRelay.js:38-88 | every step of relay, request, clock or fault keeps the pipeline invariant |
| Pipeline.Reachable | src/workers/outboxRelay.js:38-88 | the invariant holds in every state any number of relays can reach |
| Pipeline.NeverLost | src/workers/outboxRelay.js:54-84 | after any continuation of any run an enqueued row is still there with its payload, and published and in the log, or at the attempt limit, or claimable once its claim is stale |
| Pipeline.OversizedNeverSent | src/workers/outboxRelay.js:55-59 | in every reachable state an oversized row is unpublished and absent from the log |
| Consumer.ConsumeKeepsNewest | README.md:243-244 | for any order and repetition the consumer shows, per patent, a delivered event than which none delivered is newer |
| Consumer.NewestShown | README.md:243-244 | from the order of each patent's own events alone, a consumer that got a patent's newest event shows exactly that event |
| Consumer.ConsumerAgreesOn | README.md:241-248 | in every reachable state, one patent is shown as stored once its newest event was delivered, whatever happened to all other events, and its credits too if and only if its event and row agree on them |
| Consumer.ShownAsStored | README.md:241-248 | the same column by column: shown exactly while approved, with the stored version, columns and submitter, and the stored credits in their order exactly when event and row agree |
| Consumer.EndToEndAgreement | src/workers/outboxRelay.js:38-88 | once every row is published, the projection equals the approved patents with their stored version, columns and submitter, whatever the order and duplicates, and equals them with their credit order if and only if all events and rows agree on credits |
| Consumer.GuardedStepsKeepCredits | src/services/inventorService.js:111-117 | they agree in every run, relays and faults included, whose inventor deletes land on no credited approved patent |
| Consumer.SilentDeclineStaysShown | src/services/patentService.js:215-234 | after a decline that saw a stale status the consumer still shows the patent, which is no longer in the corpus |
| Consumer.DeduplicationIsHarmless | README.md:245-245 | in every run that draws fresh uuids, also dropping event ids already seen never changes the projection |
| Consumer.ByVersionAgreesExactly | src/config/kafka.js:26-30 | with all of a patent's events delivered, a consumer that drops an Upserted of a version it has seen shows the patent as the documented one does if and only if its newest event was delivered before every other Upserted of its version; otherwise it shows nothing |
| Ordering.NoLeftoverNoOvertaking | src/services/outboxService.js:60-73 | with no fresh claim left over, a claim takes the oldest live rows |
| Ordering.StepKeepsOrder | src/workers/outboxRelay.js:43-85 | every step keeps the log ordered if claims leave nothing older behind |
| Ordering.SendsNonDecreasing | src/workers/outboxRelay.js:43-85 | with one relay the whole log is non-decreasing through failures, crashes and dead-lettering, provided no pass begins with an older row under a fresh claim and no event commits below one already claimed or sent |
| Ordering.CleanRunsAreOrderly | src/workers/outboxRelay.js:43-85 | a run without faults whose events commit in id order always meets that condition |
| Ordering.FaultlessRunsAreOrdered | src/workers/outboxRelay.js:43-85 | so without faults, and with events committed in id order, the log is in sequence order |
| Overtaking.PassDelivers | src/workers/outboxRelay.js:43-85 | a faultless pass puts its whole batch in the log and touches no other row |
| Overtaking.OvertakingExact | src/workers/outboxRelay.js:80-84 | from an ordered state, a faultless pass, any wait and the next send keep the log ordered for every wait if and only if the pass leaves no older live row under a claim |
| Overtaking.OvertakingDisorders | src/workers/outboxRelay.js:29-37 | an older row left behind is sent after a newer one by a named faultless continuation |
| Overtaking.LateCommitExact | src/workers/outboxRelay.js:46-51 | with the relay at rest, the next send after a commit is in order if and only if nothing of a higher id was sent before it |
| Overtaking.LeftoverStaysClaimed | src/workers/outboxRelay.js:80-84 | after a failed head, the second row stays claimed and only the head can be claimed below it |
| Overtaking.FailedHeadGoesFirst | src/services/outboxService.js:82-95 | a failed row with attempts left is released at once and begins the next pass; without any left it is in no next batch |
| Overtaking.OversizedDeadLetteredExactly | src/workers/outboxRelay.js:20-27 | the pass of an oversized head can only fail or crash, and the failure dead-letters it if and only if it was on its last attempt |
| Overtaking.FailedSendDisorders | src/workers/outboxRelay.js:29-37 | a failed first send with further rows waiting does let later events overtake |
| Scenarios.OvertakingExample | src/workers/outboxRelay.js:29-37 | from the empty system, one failed send puts the events of a single patent out of order |
| Scenarios.LateCommitExample | src/workers/outboxRelay.js:46-51 | from the empty system, a run without any fault has its log out of order |
| Scenarios.StaleDeclineStaysPublic | src/services/patentService.js:211-246 | from the empty system, with every row published the consumer shows a declined patent |
| Scenarios.OversizedExample | src/workers/outboxRelay.js:20-27 | from the empty system, an oversized event that failed a pass is taken again by the next |
| Scenarios.ByVersionExample | README.md:246-248 | from the empty system, with everything delivered in order, the consumer that goes by (patent, version) has lost an approved patent |
| ServedRuns.ExamplesAreServed | src/services/patentService.js:54-263 | the runs of the examples are what validated requests, run one at a time and all successful, make of an empty system |
| ServedRuns.RacersPassTheirChecks | src/services/patentService.js:113-209 | each racing request passes its checks in the state in which it makes them |
| Delivery.StepKeepsExclusive | src/services/outboxService.js:38-52 | disjoint relays stay disjoint and hold only unpublished rows while claims do not overlap |
| Delivery.TimelyRelaysAreDisjoint | src/services/outboxService.js:30-36 | if every relay is done within the claim timeout, no two ever hold the same row |
| Delivery.CopiesAccounted | src/workers/outboxRelay.js:54-84 | copies of a row in the log are at most one plus the crashes, failed marks and unanswered sends that struck it after it was appended |
| Delivery.OneRelayCopies | src/workers/outboxRelay.js:54-84 | with one relay that bound needs no assumption about time |
| Delivery.TimelyRelaysSendOnce | src/services/outboxService.js:38-74 | with several timely relays, a row no fault strikes is sent at most once |
| OutboxRelay.RestUnfolds | src/workers/outboxRelay.js:43-85 | one loop iteration is the first part of the remaining run of the step system |
| OutboxRelay.OutboxTable.ClaimBatch | src/services/outboxService.js:57-74 | returns at most the limit of claimable rows, in id order and with none older left out, and stamps exactly those |
| OutboxRelay.OutboxTable.MarkPublished | src/services/outboxService.js:76-80 | marks that row alone, or nothing when the write does not take place |
| OutboxRelay.OutboxTable.MarkFailed | src/services/outboxService.js:87-95 | counts a failure on that row alone, or nothing when the write does not take place |
| OutboxRelay.Worker.PublishOne | src/workers/outboxRelay.js:51-84 | one event ends published exactly if it fits, is sent and is marked; otherwise it is recorded as failed |
| OutboxRelay.Worker.PublishBatch | src/workers/outboxRelay.js:38-88 | the whole effect of a pass on table and broker is the run of the step system for the fates of its calls, and it reports what it claimed, published and whether it rejected |
| OutboxRelay.DelayExactly | src/workers/outboxRelay.js:108-113 | the loop goes straight on if and only if the batch was full and every event of it sent and marked, and otherwise waits its interval |
| Drain.RecordingSpends | src/services/outboxService.js:76-95 | recording success or failure of a live row strictly lowers the attempts left |
| Drain.PassSpends | src/workers/outboxRelay.js:80-85 | a pass that claims a row and whose writes succeed strictly lowers the attempts left, whatever the broker does |
| Drain.WorkingPassesAreBounded | src/services/outboxService.js:60-73 | with no new rows such passes number at most maxAttempts times the rows |
| Drain.WorkRemains | src/services/outboxService.js:57-74 | while a row is neither published nor dead some wait makes the next pass claim |
| Drain.Drained | src/services/outboxService.js:53-56 | nothing left to spend means exactly that every row is published or at the limit |
| Drain.HealthyPassesPublishAll | src/workers/outboxRelay.js:38-88 | with a healthy broker and no oversized event, passes that run until nothing is left publish every row |
| Drain.Drains | src/workers/outboxRelay.js:38-88 | from any state at rest, whatever the broker does, at most maxAttempts passes a row leave every row published or at the limit, and all published when the broker is healthy and can take them |
| Drain.PassPublishes | src/workers/outboxRelay.js:78-87 | a pass takes off the backlog at least what it reports as published |
| Drain.PassesWithoutDelayAreBounded | src/workers/outboxRelay.js:108-113 | back-to-back passes times the batch size never exceed the backlog |
| Sessions.RotationMakesChains | src/services/userService.js:91-141 | under any interleaving each token is rotated at most once, has at most one successor, and each session has exactly one un-rotated tip |
| Sessions.SessionIsLinear | src/services/userService.js:126-139 | of two tokens of one login the later descends from the earlier |
| Sessions.RevocationFinalExactly | src/services/userService.js:126-160 | revoking all of a user's sessions is final over all continuations if and only if no refresh of that user is between its read and its write |
| Sessions.RevocationFinalSequentially | src/services/userService.js:156-159 | with requests run one at a time every revocation is final |
| Sessions.AlarmFinalExactly | src/services/userService.js:103-116 | the same if and only if for the revocation set off by a reused token |
| Sessions.RevokingSparesOthers | src/services/userService.js:156-159 | revoking a user's sessions leaves every token of other users as it was, and their sessions over exactly if they were |
| Sessions.AlarmSparesOthers | src/services/userService.js:110-114 | so does the alarm set off by a reused token |
| Sessions.LivesThirtyDays | src/services/userService.js:22-28 | a fresh token left alone can be refreshed exactly until thirty days after its issue |
| Sessions.LogoutFinalExactly | src/services/userService.js:147-154 | a logout with any token leaves a session over for all continuations if and only if the token is the session's tip, or the tip was revoked or expired, and no refresh of the tip is past its checks |
| Sessions.SessionOverExactly | src/services/userService.js:110-139 | no continuation issues another token of a session if and only if its tip is revoked or expired and no refresh of it is past its checks |
| Sessions.RotatedLogoutExample | src/services/userService.js:147-154 | after one refresh, a logout with the first token leaves the session open |
| Sessions.RevocationEscapedExample | src/services/userService.js:126-140 | a run in which a refresh outlives the revocation of all sessions |
| Sessions.AlarmEscapedExample | src/services/userService.js:110-140 | a run in which a refresh outlives the theft alarm |
| Sessions.RefreshInOneGo | src/services/userService.js:91-141 | a refresh with nothing in between rotates, alarms or changes nothing, as its check says, and keeps the chains |
| Sessions.SessionService.SignIn | src/services/userService.js:19-34 | a login or signup adds one live token of the user for thirty days, starts one new session and keeps the chains |
| Sessions.SessionService.RefreshSession | src/services/userService.js:91-141 | succeeds exactly for a stored, un-rotated, unrevoked, unexpired token, which alone is rotated; a rotated one revokes its user's live tokens and no other; any other failure changes nothing |
| Sessions.SessionService.Logout | src/services/userService.js:147-160 | with a token, that token of the user alone is revoked and exactly the session whose tip it is ends; without one, exactly the user's live tokens are revoked and all of the user's sessions end finally |
| Browser.StepKeepsInv | frontend/src/services/apiClient.ts:46-79 | every step of tab and server keeps the tab's token either unpresented or in its own flight |
| Browser.NoSelfTriggeredAlarm | frontend/src/services/apiClient.ts:72-79 | in one page lifetime each refresh token is presented at most once and the reuse branch is never taken |
| Browser.ReloadSafeExactly | frontend/src/services/apiClient.ts:46-70 | a new page lifetime never repeats a token if and only if no refresh is in flight for the stored one |
| Browser.ReloadAlarmExactly | src/services/userService.js:103-124 | no continuation of a reload ends in the alarm if and only if no refresh is in flight for the stored token, or that token is un-rotated, revoked or expired, and not being rotated |
| Browser.ReloadAlarmExample | frontend/src/services/apiClient.ts:46-70 | one tab's run from its first sign-in after which a reload can end in the alarm |
| Browser.ReloadCalmExample | src/services/userService.js:118-124 | one after which a reload presents a token twice and cannot end in the alarm |
| Browser.LogoutLeavesSessionOpen | frontend/src/services/authService.ts:22-30 | a run of one tab whose logout is retried after a refresh: the tab forgets its tokens and the last one can still be exchanged |
| Browser.ApiClient.RefreshTokens | frontend/src/services/apiClient.ts:72-79 | starts a refresh with a never presented token only when none is in flight |
| Browser.ApiClient.OnRefreshAnswer | frontend/src/services/apiClient.ts:58-69 | stores the new pair or clears the store, and keeps the tab's invariant |
| Browser.ApiClient.OnSettled | frontend/src/services/apiClient.ts:74-76 | the next refresh may start, and the stored token is still unpresented |
| Browser.ApiClient.SetTokens | frontend/src/services/tokenStore.ts:25-34 | replaces or clears the stored pair whatever refresh is in flight |
| Idempotency.OneReservation | src/middlewares/idempotency.js:46-51 | in every reachable state at most one request holds a key |
| Idempotency.ExecutionsBounded | src/middlewares/idempotency.js:46-103 | 2xx runs for a key are at most one plus the requests that found the row gone |
| Idempotency.ReplaysReturnTheExecution | src/middlewares/idempotency.js:63-77 | a replay returns the answer of the key's one owned execution, to the same body hash only |
| Idempotency.SettledForever | src/middlewares/idempotency.js:87-98 | a row settled with a 2xx never changes and is never deleted |
| Idempotency.SettledExactly | src/middlewares/idempotency.js:83-94 | a status from 200 to 299 is kept with its body under the request's hash, and any other leaves no row |
| Idempotency.RetryReplays | src/middlewares/idempotency.js:52-78 | however much later, a retry changes nothing and gets the settled response for the same body hash, a refusal for another |
| Idempotency.FailureFreesKey | src/middlewares/idempotency.js:83-94 | once a failed request's key is released the next request owns it, whatever its body, and no other key is touched |
| Idempotency.InFlightLeavesExactly | src/middlewares/idempotency.js:83-98 | a key in flight can still be freed or settled if and only if some request holds it |
| Idempotency.StuckKeyRefuses | src/middlewares/idempotency.js:67-73 | otherwise every retry is refused, however much later and whatever its body |
| Idempotency.StuckKeyExample | src/middlewares/idempotency.js:94-98 | a crash of the owner, or a release that fails, leaves a key so |
| Idempotency.UnreservedRunExample | src/middlewares/idempotency.js:59-61 | a released key can let two requests both succeed |
| Idempotency.KeyTable.Enter | src/middlewares/idempotency.js:46-78 | reserves a free key, otherwise changes nothing and gives the verdict of the row it finds |
| Idempotency.KeyTable.SettleKey | src/middlewares/idempotency.js:87-101 | records a 2xx, releases the key for anything else |
| Relations.FindDuplicates | src/services/patents/relations.js:21-28 | finds exactly the values that occur at two positions |
| Relations.ResolveInventorLinks | src/services/patents/relations.js:39-70 | on success one link an entry, with the entry's inventor in the place given, or its position when none is given; repeated spellings and unknown ids are refused with their own errors, in that order |
| Relations.ContiguousExactly | src/services/patents/relations.js:59-64 | sort-and-compare accepts exactly the permutations of 1..n |
| Relations.ResolvedExactly | src/services/patents/relations.js:39-70 | a list is accepted exactly when spellings are distinct, ids known, orders all or none given and a permutation, and the links are then as asked, entry by entry |
| Relations.CanonicalResolvedExactly | src/services/patents/relations.js:39-70 | for canonical ids that means distinct inventors, and the links are a sound credit order |
| Relations.AcceptedSoundExactly | src/services/patents/relations.js:42-47 | an accepted list is sound if and only if no inventor is spelled two ways |
| Relations.TwoSpellingsExample | src/services/patents/relations.js:42-47 | "1" and "01" are accepted together |
| Relations.EventOrder | src/events/patentEvents.js:42-50 | entry i of an event is the inventor in place i + 1, and the entries are the patent's links |
| ObjectKeys.CanonicalInjective | src/services/patents/relations.js:42-42 | two canonical spellings of one id are the same string |
| ObjectKeys.SanitisedIsSafe | src/services/storageService.js:36-40 | every filename becomes 1 to 120 allowed characters not starting with a dot |
| ObjectKeys.SanitisedExactly | src/services/storageService.js:36-40 | character by character: leading dots go, plain characters stay, others become underscores, 120 are kept, and a name of dots alone becomes "document" |
| ObjectKeys.SafeNameKept | src/services/storageService.js:36-40 | a name that is safe already is kept |
| ObjectKeys.DirectoriesIgnored | src/services/storageService.js:37-37 | directories before the name and a slash after it make no difference |
| ObjectKeys.OwnerIsSecondSegment | src/utils/validation/patents.js:36-41 | a key that passes validation belongs to a user exactly when its second of four segments spells that id |
| ObjectKeys.KeysRoundTrip | src/services/storageService.js:50-60 | a built key passes validation, has four segments, and belongs to v if and only if it was built for v |
| Requests.DeleteSafeExactly | src/services/patents/documents.js:26-29 | deleting an object keeps every document stored if and only if no patent is attached to it |
| Requests.VerifyKeepsStored | src/services/patents/documents.js:21-56 | the clean-up of an oversized upload never removes an attached object |
| Requests.ServeKeepsInv | src/services/patentService.js:54-289 | every request keeps documents stored, credit orders sound and event entries in order |
| Requests.DocumentIntegrity | src/services/patentService.js:113-183 | after any requests in turn, document keys are distinct across patents and each names a stored object |
| Requests.CreditOrderSound | src/services/inventorService.js:108-120 | after any requests in turn, each patent credits distinct existing inventors in places 1..n and events list them in that order |
| Requests.ServedCreditsAgree | src/services/inventorService.js:108-120 | after any requests in turn, events and approved rows credit the same people in the same order |
| Requests.SupersededIsDiscarded | src/services/patentService.js:178-180 | a replaced or deleted patent's document leaves the store if and only if its request succeeds, when the store obeys deletes |
| Requests.ChecksForeseeConflicts | src/services/patentService.js:54-82 | run one at a time, an insert that passed its checks fails only for an inventor spelled two ways |
| Requests.ForeignPatentsUntouched | src/services/patents/access.js:84-94 | a non-admin's request never changes or deletes a patent submitted by somebody else |
| Requests.ServeIsOneTx | src/services/patentService.js:54-289 | a request changes the tables by at most one transaction of the step system, and never deletes a credited inventor |
| Outcomes.CreateOutcome | src/services/patentService.js:54-83 | a create succeeds if and only if document, inventors and publication number are acceptable, and then adds one draft, version 1, with the columns and inventors asked for in the caller's name; a failure changes nothing but an own oversized upload |
| Outcomes.CreateErrors | src/services/patents/documents.js:21-56 | which error a failing create answers |
| Outcomes.CreateTakesOwnDocument | src/services/patents/documents.js:22-24 | a stored document key's owner segment spells the caller's id; any other key is a bad request and leaves the store as it was |
| Outcomes.UpdateOutcome | src/services/patentService.js:113-183 | an update succeeds if and only if the patent is a draft or declined, the caller's or the caller an admin, and what it brings acceptable; it then sets the named columns, the inventors if given, and the version by its rule, on this patent alone, and drops a replaced document |
| Outcomes.UpdateErrors | src/services/patentService.js:113-136 | which error a failing update answers |
| Outcomes.UpdateTakesOwnDocument | src/services/patentService.js:122-127 | a new document key's owner segment spells the id of the caller, not of the submitter; any other key is a bad request and leaves the store as it was |
| Outcomes.SubmitOutcome | src/services/patentService.js:185-197 | when exactly a submit succeeds, and that it changes the status alone |
| Outcomes.ReviewOutcome | src/services/patentService.js:204-263 | when exactly a review succeeds, and that the status, one review naming the reviewer and the event with its whole content are all that changes |
| Outcomes.DeleteOutcome | src/services/patentService.js:269-289 | when exactly a delete succeeds, and that the patent and its document are all that goes |
| Outcomes.DeleteInventorOutcome | src/services/inventorService.js:108-120 | an inventor can be deleted if and only if there is one and no patent credits them, and only the inventor goes |
| PatentServices.PatentService.VerifyDocument | src/services/patents/documents.js:21-56 | ownership, attachment, existence and size in that order, removing only an oversized object |
| PatentServices.PatentService.PrecheckCreate | src/services/patentService.js:57-62 | document, inventors and publication number are checked in that order |
| PatentServices.PatentService.InsertPatent | src/services/patentService.js:64-82 | the row is inserted exactly when the unique columns and the link key allow |
| PatentServices.PatentService.CreatePatent | src/services/patentService.js:54-83 | serves the create request and keeps the service invariant |
| PatentServices.PatentService.CollectScalars | src/services/patentService.js:138-141 | of the keys of a body the loop keeps exactly the columns a client may write, each with its value |
| PatentServices.PatentService.CommitEdit | src/services/patentService.js:147-176 | applies exactly when the status is still editable and the unique columns allow, as the edit transaction does |
| PatentServices.PatentService.ApplyUpdate | src/services/patentService.js:147-182 | the old document is discarded only once the edit has committed |
| PatentServices.PatentService.PrecheckUpdate | src/services/patentService.js:120-136 | document, publication number and inventors are checked in that order |
| PatentServices.PatentService.UpdatePatent | src/services/patentService.js:113-183 | serves the update request, discarding the old document only after the commit, and keeps the service invariant |
| PatentServices.PatentService.Transition | src/services/patents/lifecycle.js:70-84 | the conditional write changes the status of that patent or nothing |
| PatentServices.PatentService.SubmitForReview | src/services/patentService.js:185-197 | serves the submit request and keeps the service invariant |
| PatentServices.PatentService.CommitReview | src/services/patentService.js:211-246 | status, review row and outbox row change together, or nothing does |
| PatentServices.PatentService.ReviewPatent | src/services/patentService.js:204-263 | serves the review request and keeps the service invariant |
| PatentServices.PatentService.DeletePatent | src/services/patentService.js:269-289 | serves the delete request and keeps the service invariant |
| PatentServices.PatentService.DeleteInventor | src/services/inventorService.js:108-120 | removes an inventor only when credited nowhere, which keeps every credit order sound |
| Listing.FilterMeans | src/services/patents/access.js:31-62 | a listing selects exactly the rows the caller may see that meet every filter given |
| Listing.PagesPartition | src/services/patentService.js:85-102 | pages 1 to the total that any page reports hold every matching patent exactly once, newest first with ties by higher id, and nothing else |
| Listing.EveryPageCounts | src/services/patentService.js:88-101 | every page reports the number of rows the filter selects and the fewest pages, at least one, that hold them, and has the rows left for it up to the limit |
| Listing.FindVisibleFinds | src/services/patents/access.js:68-77 | the lookup finds a row if and only if it exists and the caller may see it |
| Listing.PagesAreWhatLookupsFind | src/services/patents/access.js:31-77 | without filters the pages hold exactly the patents the caller could fetch one by one |

## Left out

- Consumer.EndToEndAgreement: covers every event field except category names and inventor names and organisations, which
  can be renamed after approval; credited inventors and their order under the condition it states.
- Ordering.FaultlessRunsAreOrdered: rests on events committing in id order, which concurrent approvals do not ensure;
  `Overtaking.LateCommitExact` says exactly when a late commit matters.
- History.VersionDeterminesContent: over runs in which every edit's comparison finds a change when the row it lands on changes;
  `History.StaleEditExact` says an edit outside that breaks it.
- History.LogAgreesWithStatus: takes a decline's status read and write as one step; `History.StaleDeclineExact` says
  exactly what happens otherwise. Upserted events and pass reviews are
  paired by number: equal in every state, and neither list ever loses an entry (`History.HistoryCannotBeErased`).
- Transactions that the step system admits although Postgres would refuse them: links to an inventor that does not exist.
- OutboxRelay.Worker.PublishBatch: stamps all writes of one pass with the same time; in `Pipeline` time may pass between any two.
- Delivery.TimelyRelaysAreDisjoint: the claim is stamped by the database's clock and compared with the relay's; here both are one clock.
- Requests.DocumentIntegrity: speaks of requests run one at a time; with interleaving, a key can be attached again between
  a commit and the discard of the old object, and `Requests.DeleteSafeExactly` is what is left.
- Requests.CreditOrderSound: speaks of requests run one at a time; with interleaving, `PatentDb.DeleteInventorExactly` and
  `History.InventorRaceExample` say what is left. A gap the cascade leaves in the order of a patent not yet approved is not followed further.
- ObjectKeys.KeysRoundTrip: a filename is a sequence of characters, so one outside the basic multilingual plane becomes
  one underscore where the code writes two.
- Listing.FilterMeans: the three case-insensitive text matches are arbitrary tests of a row.
- Sessions.SessionService.SignIn: the password check and the creation of the account come before it and are not modelled.
- Browser.NoSelfTriggeredAlarm: access tokens and the retried request are not modelled, only the refresh token's path.
- Category links, their check among the request checks, and the error messages.
- Relay stop and start, timers beyond the delay rule, `lastError`, backlog statistics and health probes.
- Several relays as imperative code: they are processes of the step system, and the imperative worker is one of them.
- Express routing, controllers, response shapes, Swagger, rate limits and express-validator chains, whose results are preconditions.
- Prisma, Postgres isolation below the level stated above, S3 failures other than a delete that does not happen, Kafka
  partitions and retries, bcrypt and JWT.
- User, profile, category and admin management, the seed script, deployment files, and the React user interface.
- `pending_ai` is a status no step reaches.
