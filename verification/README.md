# Zoen: verified models of its protocols

Dafny models of the parts of Zoen whose correctness spans several calls, several processes or a crash, with
proofs of what they keep. `dafny verify dfyconfig.toml` checks everything.

| module | models |
|---|---|
| `DurableDelivery`, `DurableRuns`, `DurableGuarantees`, `DurableRetries` | one consumption of a queued payload; whole runs of senders, retries, timeouts, crashes; what those runs promise; what each call is answered |
| `ChannelResponses`, `ChannelResubmissions`, `ResponseTurn` | claiming, dispatching and marking one answer; what repeated submissions and errors mean; the event-stream fold that decides whether an answer still belongs to its turn |
| `ConsentRevision`, `ChannelConsent` | the canonical text behind a consent revision; validating a decision against the pending request and its delivery |
| `R2Qualification` | the persisted manifest of a bucket qualification: budgets, write-ahead object tracking, cleanup |
| `BrowserImages`, `BrowserImageRaces` | racing finalizers of one image reservation, the payload collector and readers; when a finalizer succeeds whoever else is at work |
| `Pagination`, `LikePattern` | keyset pages over changing tables; the escaped search pattern |
| `NestedTransactions` | savepoints of one connection against what nested transactions mean |
| `MatrixSchedule` | the rotated jobs of one schedule tick under one item budget |
| `WebMigration` | draining the web fleet, the isolated migration machine, starting and retiring machines |
| `MatrixTurn` | the per-turn record of the Matrix channel, its fallback decision, the delivery row |
| `GitBatch` | the length-prefixed parser of `git cat-file --batch` output |
| `PublicRedirect` | the host split and the redirect chains of the proxy |
| `SubagentSessions`, `TaskNotices` | the subagent index of an event log and the subscription key; the notification text of a background task |

A protocol is a state machine: a `World`, a datatype of atomic steps, a total `Apply` (a step that is not enabled
changes nothing) and `Run` over any sequence of steps. A transaction whose rows stay locked until it commits is one
step. Objects the source updates in place are classes whose methods are proved against functions of the old state.
Hashes are uninterpreted functions; networks, clocks, providers and cancellation are steps or nondeterministic results.

What the proofs found, where the code does not keep a promise one might read into it:

* `sendDurableMessage` does not look at the digest again while it polls, so a call can be acknowledged on the
  receipt of other contents under its input id (`AcksMatchContentsIffNoConflict`).
* `respondDurableInput` acknowledges on the SQL receipt alone. If the process crashes before the checkpoint and the task has
  ended, or lost its permission, when the replay is checked, the acknowledged answer is gone; answers are safe exactly
  when their tasks stay open until the checkpoint (`AcksKeptIffNoAnswerWithdrawable`).
* A failing statement that is swallowed directly inside an outermost transaction with writes makes COMMIT roll back
  without an error: the call returns and its writes are gone (`KeptAsPromisedIffNoneSwallowed`).
* Keys that `localeCompare` finds equal keep the order they were written in, so a request's key order shows in its
  revision exactly when one of its objects holds two such keys (`OrderImmaterialIffUntied`).
* A signed-out caller below `/docs/`, `/pricing/` or `/get-started/` on `www`, the legacy host or the app host follows three
  redirects, not two (`ChainsEndWithinThree`).
* A Matrix turn that parks on input drops its record, its native delivery included, so the resumed turn can publish
  fallback text after it (`ParkedTurnForgetsDelivery`); so would events of two turns that interleaved
  (`FallbackAfterDeliveryIff`). The handlers issue once per settling event, not once per turn (`IssuesAtMostOnceIff`).
* A qualification run admits 15 to 100 requests, but passes, even if all goes well, exactly with at least 25 (local) or 31
  (Cloudflare) (`AnsweredRun`).
* The owner of an accepted answer throws all the same exactly if its timeout expires while the accepting UPDATE is under
  way or not yet joined, or the report of that UPDATE is lost (`AcceptedOwnerThrewIffMissed`).
* A fixed notice and a later answer can be posted under one transaction id if recording the notice fails: a run's posts agree
  exactly if the notices that were posted but not recorded agree with each other and with what settled the row
  (`PostsAgreeIff`, `LostNoticeDisagrees`).

## Model

| member | source | states |
|---|---|---|
| DurableDelivery.NativeReceipts.RecordNative | server/messaging/native-receipts.ts:14-23 | a receipt is stored if its key is free or it is identical, refused otherwise, and a stored row is never replaced |
| DurableDelivery.LiveChannel.DeliverOnce | agent/lib/durable-delivery.ts:39-70 | outcome, session state, aliases and receipt rows after one delivery are exactly those of the specification, error paths included |
| DurableDelivery.MarkedPayloadArrives | agent/lib/durable-delivery.ts:39-70 | a payload sent with its marker arrives as it was without it, if and only if the session has not consumed it, lets it in, has an address and a workspace, and no other receipt is stored; a replay is skipped for the same contents and fails for others |
| DurableDelivery.UnmarkedPayloadsPass | agent/lib/durable-delivery.ts:44-46 | payloads without a readable marker change nothing: passed as they are on a channel without a gate, dropped by one with a gate, refused for a marker that does not parse |
| DurableDelivery.ReceiptsOnlyGrow | agent/lib/durable-delivery.ts:54-65 | over any list of deliveries receipts only accumulate and the session's agree with the SQL rows |
| DurableDelivery.AliasesStayBounded | agent/lib/durable-delivery.ts:66-68 | however many deliveries, the session keeps its address and gains one alias at most |
| DurableRuns.RunKeeps | agent/lib/durable-delivery.ts:39-189 | the invariant over receipts, checkpointed state, queue, running turn, aliases, lock, senders and the tasks answers belong to holds after every run of sends, polls, timeouts, sends landing after their timeout, crashes, checkpoints and changes to tasks |
| DurableRuns.GuardIsAllowed | server/a2a/inputs.ts:115-161 | an input recorded for its session and not yet checkpointed is refused by the guard on replay only if its task may end or lose its permission meanwhile |
| DurableGuarantees.InputsConsumedAtMostOnce | agent/lib/durable-delivery.ts:46-65 | in every run an input id occurs at most once in the checkpointed history of all sessions of its workspace together |
| DurableGuarantees.AcknowledgedInputsAreKept | agent/lib/durable-delivery.ts:118-125 | every acknowledged input is checkpointed at the session its receipt names or still queued there, if no answer's task may be withdrawn between recording and checkpoint |
| DurableGuarantees.AcksKeptIffNoAnswerWithdrawable | server/a2a/inputs.ts:116-146 | acknowledged inputs survive all runs if and only if every answer's task stays open and permitted from the recording of the answer to its checkpoint |
| DurableGuarantees.WithdrawnAnswerIsLost | server/a2a/inputs.ts:131-139 | the run that loses an acknowledged answer: recorded, acknowledged, crashed, its task ended, its replay refused |
| DurableGuarantees.AcksMatchContentsIffNoConflict | agent/lib/durable-delivery.ts:102-125 | acknowledgments vouch for the caller's contents in all runs if and only if no message shares its input id with other contents |
| DurableGuarantees.PollingAcceptsForeignContents | agent/lib/durable-delivery.ts:121-125 | the run in which a polling message is acknowledged on another call's contents |
| DurableGuarantees.AnswersMatchAlways | agent/lib/durable-delivery.ts:173-183 | an acknowledged answer is always the recorded one, at its own session |
| DurableGuarantees.SecondSendFollowsAbandon | agent/lib/durable-delivery.ts:99-117 | under one lock two calls for one input both send only if one of them gave up, be it with its send still under way and landing later |
| DurableGuarantees.RecordedInputCanBeCheckpointed | agent/lib/durable-delivery.ts:118-125 | from every reachable state an input with a stored receipt, unless it is an answer whose task may be withdrawn, can be driven to a checkpoint by its own session |
| DurableRetries.RefusedForForeignReceipt | agent/lib/durable-delivery.ts:104-106 | in every run a call is refused only if the recorded receipt has another digest or, for an answer, another session |
| DurableRetries.AcknowledgedMessagesResolve | agent/lib/durable-delivery.ts:72-83 | in every run a message is acknowledged only once its session can be resolved under its alias, and that stays so |
| DurableRetries.AnswersAreTakenWhileAsked | server/a2a/inputs.ts:115-146 | in every reachable state a step records a new answer only while its task waits for input and permits it, and sets the task to work unless other questions stay open |
| DurableRetries.RetryNeverSends | agent/lib/durable-delivery.ts:104-163 | in every run a call that has sent nothing and finds its own receipt recorded never sends, is never refused, and is acknowledged at the receipt's session if at all |
| DurableRetries.RecordedCallIsAnswered | agent/lib/durable-delivery.ts:99-163 | from every reachable state a waiting or locked call whose input is recorded can be answered without sending: acknowledged at the receipt's session if the receipt is its own, refused if not |
| DurableRetries.FirstMessageIsAcknowledged | agent/lib/durable-delivery.ts:99-125 | from every reachable state a message whose input is not recorded can be sent to any session of its workspace or a new one, consumed and acknowledged there |
| DurableRetries.FirstAnswerIsSettled | agent/lib/durable-delivery.ts:150-187 | from every reachable state an answer whose input is not recorded can be sent and recorded at its session, and is then acknowledged if the recorded answer is its own and refused if not |
| ChannelResponses.InputResponses.ClaimResponse | server/messaging/input-response.ts:22-78 | a revoked identity or a source that is not exactly one accepted message is refused and changes nothing; a free slot is taken; a taken one is a duplicate, with the stored status, if and only if identity, source, turn, decision and revision are all the same, and a conflict if one of them differs |
| ChannelResponses.InputResponses.MarkResponse | server/messaging/input-response.ts:80-88 | the owner's row changes to the given status if and only if it is attempted; nothing else ever changes |
| ChannelResponses.DispatchedAtMostOnce | agent/lib/channel-response.ts:230-287 | in every interleaving at most one dispatch is issued per session and request, with the claimed revision and decision of the row's owner |
| ChannelResponses.NormalReturnMeansAccepted | agent/lib/channel-response.ts:230-287 | a caller returns normally only if the row is accepted, holds its own answer and revision, and the session accepted a dispatch of it |
| ChannelResponses.FinishedRowsAreFinal | server/messaging/input-response.ts:80-88 | accepted and uncertain rows never change again and nothing more is dispatched for them |
| ChannelResponses.UncertainStaysUncertain | agent/lib/channel-response.ts:266-287 | once uncertain, a request is never dispatched again and no caller for it returns normally |
| ChannelResponses.AcceptedOwnerThrewIffMissed | agent/lib/channel-response.ts:252-287 | in every run the owner of an accepted row has returned, still waits, is gone or threw; once it returned or threw, it threw if and only if its timeout expired after the mark was issued and before it was joined, or the mark's report was lost |
| ChannelResponses.TimedOutCallerMayStillBeAccepted | agent/lib/channel-response.ts:252-287 | such a run: answered, the mark issued, expired, the mark carried out |
| ChannelResubmissions.TakenSlotAnswers | agent/lib/channel-response.ts:239-251 | in every run a caller that claims a taken slot returns exactly for an accepted row of its own answer, is told uncertain exactly for another row of its own, rejected exactly for a row that differs, for good, and dispatches nothing |
| ChannelResubmissions.ResubmissionIsAnswered | agent/lib/channel-response.ts:230-251 | the same for a whole resubmission, after any run and before any other |
| ChannelResubmissions.UndisturbedSubmissionReturns | agent/lib/channel-response.ts:230-287 | after any run, the first answer to a request is dispatched, accepted and returned if nothing goes wrong, and changes nothing else |
| ChannelResubmissions.RejectedMeansNotDispatched | agent/lib/channel-response.ts:244-265 | whoever is told that an answer was rejected has dispatched nothing and never will |
| ChannelResubmissions.ThrowingOwnerSettlesItsRow | agent/lib/channel-response.ts:280-286 | a caller that claimed the row and throws, for anything but a failed statement, leaves it accepted or uncertain |
| ResponseTurn.ReadTurnStream | agent/lib/channel-response.ts:90-123 | the loop returns true exactly when the last started turn is the source turn, it has exactly one message with the source text, and it never closed; aborts and short streams are the only errors |
| ResponseTurn.ClosedOrRepeatedNeverLives | agent/lib/channel-response.ts:97-123 | after a closing event or a second message no extension of the stream returns true |
| ResponseTurn.LiveEndsExactlyWhen | agent/lib/channel-response.ts:97-123 | a live turn ends with exactly three kinds of event: another turn's start, another message of its own, its closing |
| ConsentRevision.SortBeforeOrAfter | agent/lib/channel-consent.ts:94-104 | sorting members before or after rewriting their values gives the same object |
| ConsentRevision.TextIsInjective | agent/lib/channel-consent.ts:94-104 | the JSON text, with escapes, determines the value |
| ConsentRevision.SerializedIffSameUpToKeyOrder | agent/lib/channel-consent.ts:92-106 | a request in whose objects no two keys tie has the hashed text of exactly the requests equal to it up to object key order at every depth |
| ConsentRevision.SerializedDistinguishes | agent/lib/channel-consent.ts:92-106 | equal hashed text means equal up to key order, whatever the collation |
| ConsentRevision.OrderImmaterialIffUntied | agent/lib/channel-consent.ts:92-106 | key order is immaterial for a request if and only if, at every depth, no two keys of one of its objects tie |
| ConsentRevision.OrderImmaterialIffTotal | agent/lib/channel-consent.ts:99-101 | it is immaterial for all requests if and only if the collation tells all keys apart |
| ConsentRevision.TiedKeysMatter | agent/lib/channel-consent.ts:99-101 | a request with tied keys anywhere, written with its objects backwards, is equal up to key order and hashes another text |
| ChannelConsent.ValidatedIffConsented | agent/lib/channel-consent.ts:113-291 | a decision validates if and only if a fresh, in-scope source names the one pending approval at its present revision and the one confirmed delivery that preceded it |
| ChannelConsent.ConsentedValidates | agent/lib/channel-consent.ts:193-208 | such a decision validates with the binding, receipt ids and option it should have; correcting cancels |
| ChannelConsent.SourceReasons | agent/lib/channel-consent.ts:210-234 | each of the four rejections of a source is given exactly if it is the first of their conditions to fail, before anything else is looked at |
| ChannelConsent.CandidateReasons | agent/lib/channel-consent.ts:128-145 | clarification and conversation are no action exactly without references; unreadable candidates, and talk with references, are invalid |
| ChannelConsent.ReferenceReasons | agent/lib/channel-consent.ts:146-166 | a decision is stale exactly if its one reference names no pending request, ambiguous exactly if it has not one reference or names two pending requests |
| ChannelConsent.RequestReasons | agent/lib/channel-consent.ts:167-182 | a revision is stale exactly if the one named request now has another, and a request unsupported exactly if it is no approval offering the option once |
| ChannelConsent.DeliveryReasons | agent/lib/channel-consent.ts:235-291 | delivery is missing, ambiguous or too late exactly if none, several or a later one was confirmed to this identity and session, or the one that was is malformed |
| ChannelConsent.ConsentBindsContent | agent/lib/channel-consent.ts:153-172 | consent shown for one body never validates for a pending request that differs in more than key order, unless the hash collides |
| ChannelConsent.KeyOrderChangesNoDecision | agent/lib/channel-consent.ts:113-209 | rewriting pending requests in another key order changes no decision that names requests without tied keys |
| R2Qualification.AllDeletedMeansNoneExists | scripts/qualify-r2.ts:365-398 | at any crash point, if all recorded objects are deleted none of the run's objects exists and none can still appear |
| R2Qualification.AtMostThree | scripts/qualify-r2.ts:22-23 | three requests for every object a manifest can hold fit the cleanup reserve |
| R2Qualification.Qualification.Reserve | scripts/qualify-r2.ts:238-252 | a granted request is on disk before it is sent, within both budgets, and is refused exactly at the phase's limit |
| R2Qualification.Qualification.Put | scripts/qualify-r2.ts:287-308 | an upload leaves only after its object is durably pending; every crash point in between stays safe |
| R2Qualification.Qualification.Clean | scripts/qualify-r2.ts:365-398 | a pass that starts within the reserve never lacks request budget, marks an object only when it is gone and a HEAD has answered so, and never unmarks one; if every request is answered and nobody else writes there, all objects end deleted on disk |
| R2Qualification.Qualification.Run | scripts/qualify-r2.ts:399-529 | a run makes the demands of the plan in order and stops at the first that is not met; it passes only if all were met and that is on record - uploads stored or refused as they should be, HEADs that found their objects, reads answered as they should be - and every tracked object was last seen gone; cleanup never lacks budget; a passed run had at least 25 requests, 31 on Cloudflare, and with every request answered as it should be that is enough |
| R2Qualification.PassingLog | scripts/qualify-r2.ts:402-506 | a log passes if and only if it has one exchange for each demand and each meets its own |
| R2Qualification.PassingUploads | scripts/qualify-r2.ts:432-479 | a passing run stored the first upload of each object and had every repeated one refused, in that order |
| R2Qualification.AnsweredRun | scripts/qualify-r2.ts:677-694 | from a fresh manifest, such a run passes if and only if it may make at least 25 requests, 31 on Cloudflare |
| R2Qualification.Lifetime | scripts/qualify-r2.ts:204-556 | over a run and any number of cleanups, each dying anywhere: every object that can exist is pending on disk, requests sent never exceed the persisted count nor that the maximum, bytes never exceed 1 MiB, deletions and other owners' objects never revert |
| BrowserImages.RunKeeps | db/services/browser-images.ts:45-145 | the invariant over artifact rows, payload rows, the store, uploads and finalizers holds in every run of reservations, finalizers, late uploads, closing windows, collection and membership changes |
| BrowserImages.OnePayloadIsEverAdopted | db/services/browser-images.ts:126-140 | at most one payload is ever adopted per artifact, and while the row exists a payload is adopted exactly when the row is ready and points at it |
| BrowserImages.FinalizersReturnTheSameImage | db/services/browser-images.ts:103-144 | all successful calls for an artifact return the same image reference, whenever they return |
| BrowserImages.ReadsNeverBreak | db/services/browser-images.ts:148-207 | in every reachable state a read yields the image with matching size, hash and media type exactly for an entitled reader of a ready row, nothing for anybody else, and never an integrity error |
| BrowserImages.PublishedBytesAreWhatIsRead | db/services/browser-images.ts:131-139 | from the call that publishes on, every read returns that call's bytes, file name and media type |
| BrowserImages.UndisturbedFinalizerPublishes | db/services/browser-images.ts:103-144 | from every reachable state, a finalizer of a pending reservation that nothing disturbs publishes its image and returns it |
| BrowserImageRaces.FinalizerReturnsItsRow | db/services/browser-images.ts:103-144 | from every reachable state, a finalizer that takes its remaining steps in order returns its row's image, whatever other finalizers, the collector and other members do in between, short of ending its window or membership |
| BrowserImageRaces.RemainingStepsReturn | db/services/browser-images.ts:103-144 | a finalizer at work whose reservation stands, and whose candidate can still be written or whose row is ready at the last step, returns the row's image by its remaining steps alone |
| BrowserImageRaces.RacersReturnTheSameImage | db/services/browser-images.ts:126-144 | two finalizers of one reservation, interleaved with each other and with anything else, both return the same image |
| BrowserImageRaces.FinishFailsExactlyWhen | db/services/browser-images.ts:126-144 | the last step fails if and only if reservation or membership is gone, or the row is pending and the candidate's window has passed or it was collected; otherwise it returns the row's image |
| BrowserImageRaces.UnreferencedIsCollected | server/payloads/collection.ts:35-87 | a payload no row points at, past its window or already being collected, can be removed, and nothing else with it |
| BrowserImageRaces.DeletedIsNeverAdopted | server/payloads/collection.ts:50-56 | no row ever points again at what the collector has taken |
| BrowserImageRaces.LeavingRetiresThePayload | server/payloads/collection.ts:39-43 | when a membership goes, a ready row's payload is retired and up for collection at once |
| BrowserImageRaces.OnlyRetiredIsRemoved | server/payloads/collection.ts:39-87 | whatever leaves the store had been retired by an earlier step and is pointed at by no row |
| BrowserImageRaces.PublishedImagesAreFit | db/services/browser-images.ts:99-101 | in every reachable state a published image has a known media type, its own, and at most 8 MiB |
| BrowserImageRaces.SniffIsBySignature | shared/browser/artifact.ts:49-85 | the four signatures exclude each other, so each media type is found exactly by its own |
| BrowserImages.ReservationsAreIdempotent | db/services/browser-images.ts:62-80 | a repeated reservation inserts nothing and answers for the first one's row, pending or ready, whatever happened in between and whatever source kind it gives |
| BrowserImages.ReservationFailsExactlyWhen | db/services/browser-images.ts:62-80 | a reservation fails exactly when the caller is no member, its key is another user's in the workspace, or its key was used for another screenshot |
| Pagination.UntouchedRowsAreListedOnce | db/services/chat-library.ts:40-82 | following the cursor over tables that change between pages, a row nobody touches is listed exactly once and all rows come in strictly descending order |
| Pagination.FrozenTraversal | db/services/chat-library.ts:62-82 | on frozen data the traversal ends after ceil(n/size) pages, at least one, which concatenate to the whole sorted, filtered table |
| Pagination.CompleteIffMilliseconds | db/schema/chats.ts:31-37 | frozen traversals list every row if and only if all timestamps are whole milliseconds |
| Pagination.FinerInstantsLoseRows | db/services/chat-library.ts:67-80 | the table and the row that a cursor truncated to milliseconds loses |
| Pagination.ChatLibraryIsComplete | db/services/chat-library.ts:25-83 | the chat library lists exactly the user's chats of that archive state whose title contains the query, pinned ones first, then newest first, ids breaking ties |
| Pagination.TraceListIsComplete | db/services/browser-traces.ts:37-70 | the trace list is the whole workspace, newest first, ids breaking ties |
| LikePattern.PatternMeansContains | db/services/chat-library.ts:30-44 | the escaped pattern matches a title under LIKE exactly when the query occurs in it literally, for any per-character case folding |
| LikePattern.EmptyQueryMatchesAll | db/services/chat-library.ts:44-44 | leaving the filter out for an empty query changes nothing |
| NestedTransactions.Connection.Run | db/queries.ts:72-89 | running code on a connection with named savepoints has exactly its recursive meaning, and context, open transaction and savepoint stack are restored |
| NestedTransactions.Connection.Nested | db/queries.ts:81-88 | a nested transaction keeps its writes or none, although savepoints of failed siblings stay behind under the same names |
| NestedTransactions.InsideMeaning | db/queries.ts:71-89 | inside a transaction, predicates read off the code alone say whether it fails a statement, completes and keeps a write |
| NestedTransactions.SwallowsMeans | db/queries.ts:71-89 | code swallows a failed statement, an attempt around it with only attempts after it, exactly if it reaches one and completes |
| NestedTransactions.KeptAsPromisedIffNoneSwallowed | db/queries.ts:71-89 | the committed writes are exactly those whose every enclosing transaction returned, if and only if the code reaches no outer transaction that keeps a write and swallows a failed statement of its own |
| NestedTransactions.OuterCallLosesIff | db/queries.ts:72-89 | one outer call loses writes exactly when its body keeps a write and swallows a failed statement |
| NestedTransactions.NestedAlwaysKeepsPromise | db/queries.ts:71-89 | inside a transaction the promise always holds: a nested one with a swallowed failure throws |
| NestedTransactions.SwallowedFailureDropsWrites | db/queries.ts:72-89 | a transaction that returns with its write gone |
| NestedTransactions.OutermostIsWidest | db/queries.ts:76-79 | no write is ever carried out with an `outermost` transaction inside another one |
| NestedTransactions.Execute | db/queries.ts:72-89 | on a fresh connection the database is the survivors' writes if and only if no outer transaction with writes swallows a failed statement |
| MatrixSchedule.RunTick | agent/schedules/matrix-delivery.ts:121-146 | the k-th job is offered exactly the specified amount, jobs not reached for want of budget were owed nothing, respectful jobs attempt at most the budget together, and exactly the budget if the tick stops early and all counted truly |
| MatrixSchedule.BudgetIsSpentOnAttemptsIff | agent/schedules/matrix-delivery.ts:124-141 | what is left and what was attempted make up the budget if and only if every job that did not count truly had used up its whole offer |
| MatrixSchedule.AttemptItems | agent/schedules/matrix-delivery.ts:51-68 | the joins job attempts at most its limit, exactly the items before the deadline or an abort, and reports that number unless aborted |
| MatrixSchedule.OfferedAtLeast | agent/schedules/matrix-delivery.ts:124-141 | a job is offered at least its limit, or what the limits before it leave, whatever the jobs report |
| MatrixSchedule.FailingJobsReachTheBound | agent/schedules/matrix-delivery.ts:137-141 | when every job fails, that bound is exact |
| MatrixSchedule.AlwaysFullIff | agent/schedules/matrix-delivery.ts:121-141 | a job always gets its full limit if and only if it fits behind all the limits before it |
| MatrixSchedule.SureExactlyWhen | agent/schedules/matrix-delivery.ts:32-121 | for the six classes and the budget of 50: the minutes of a rotation in which a class is sure of its limit |
| MatrixSchedule.EveryClassIsSureTwiceInSixMinutes | agent/schedules/matrix-delivery.ts:118-121 | in any six consecutive minutes every class is sure of its full limit at least twice |
| WebMigration.QuietIffStaysStopped | infrastructure/web-cutover.ts:98-109 | the checks of the second listing are exactly what keeps every machine stopped from then on |
| WebMigration.Operator.StopWebMachine | infrastructure/web-cutover.ts:22-74 | only the named machine is updated or stopped, whatever the platform does meanwhile; success means it was seen without services and restart policy and then seen stopped, after a stop command unless it was stopped already; on a still platform it succeeds exactly for a complete machine that is not between states, with exactly the commands needed |
| WebMigration.Operator.Quiesce | infrastructure/web-cutover.ts:76-112 | success means the fleet was quiet at the second listing, and that a retained machine was seen with its volume; only drain commands are sent; on a still platform it succeeds exactly if the retained volume is mounted and every machine can be stopped, and stops every one of them |
| WebMigration.Operator.Migrate | infrastructure/migrations.ts:30-192 | changed secrets and a failed backup are refused, exactly then, with no command sent; a migration machine exists only while every web machine is stopped, at every moment; each outcome is given exactly for the first thing that went wrong, and verified exactly if nothing did; drain commands come first, then exactly the migration machine's creation and removal; a verified migration has left no machine |
| WebMigration.StillMigration | infrastructure/migrations.ts:30-192 | on a still platform a migration is verified if and only if secrets are unchanged, the backup succeeded, every web machine could be stopped, the retained volume was there, and machine, exit code, grants, inventory and removal were in order |
| WebMigration.FirstReportIsFirst | infrastructure/migrations.ts:138-167 | the exit code judged is the first one written within 125 attempts |
| WebMigration.Operator.RetireLegacy | infrastructure/web-cutover.ts:177-207 | the legacy machine is touched only after the replacement, a different machine, was seen ready on its volume; success means the legacy machine was drained and then seen stopped; on a still platform it succeeds exactly if the replacement is ready and the legacy machine can be stopped |
| WebMigration.Operator.StartMigrated | infrastructure/web-cutover.ts:114-166 | a start is sent only to a machine seen with the migrated image and its volume, and success means it was seen started and alive; on a still platform it succeeds exactly for such a machine, stopped or alive, and starts it unless it runs |
| MatrixTurn.MatrixChannel.OnTurnCompleted | agent/channels/matrix.ts:267-291 | record and effect after a completed turn, parked and faulty cases included |
| MatrixTurn.MatrixChannel.OnTurnFailed | agent/channels/matrix.ts:292-325 | record and effect after a failed turn |
| MatrixTurn.KeyIsInjective | agent/channels/matrix.ts:45-46 | the record's key tells turns apart |
| MatrixTurn.TrimTakesTheEnds | agent/channels/matrix.ts:281-281 | trimming a text takes the white space off both ends and nothing else |
| MatrixTurn.ViewIsOwnSummary | agent/channels/matrix.ts:40-55 | over every event sequence a turn sees the summary of its own recorded events since its last reset, and of no other turn's |
| MatrixTurn.FallbackIsOwnTextWithoutDelivery | agent/channels/matrix.ts:267-290 | fallback text is the turn's own last text and no native delivery of the turn is on record; a turn parked on input issues nothing |
| MatrixTurn.CompletedTurnIssues | agent/channels/matrix.ts:267-290 | a completed turn's delivery is completed exactly if something was delivered natively or there is no text, finished with the turn's last text exactly if not |
| MatrixTurn.FailedTurnApologizesUnlessItReacted | agent/channels/matrix.ts:241-318 | a failed session publishes the apology; so does a failed turn, unless the model came back empty after a turn whose tool calls all reacted and that awaits no input; then it completes |
| MatrixTurn.DeliveryIsRememberedIffUndisturbed | agent/channels/matrix.ts:220-229 | a native delivery is on record exactly while nothing has reset the turn since |
| MatrixTurn.FallbackAfterDeliveryIff | agent/channels/matrix.ts:281-285 | with text to publish, fallback is issued if and only if every native delivery of the turn was followed by a reset |
| MatrixTurn.RunningTurnPublishesNoFallback | agent/channels/matrix.ts:267-290 | if a turn only runs on after its native delivery, without parking, settling or another turn, its completion publishes no fallback text |
| MatrixTurn.ParkedTurnForgetsDelivery | agent/channels/matrix.ts:273-278 | a turn that delivers natively, parks on input and resumes publishes fallback text |
| MatrixTurn.InterleavedTurnForgetsDelivery | agent/channels/matrix.ts:45-54 | what the handlers would do with two interleaved turns: fallback text after a native delivery |
| MatrixTurn.IssuesOncePerSettlingEvent | agent/channels/matrix.ts:241-325 | over every event sequence the handlers issue exactly one finish or completion for a delivery per event that settles it |
| MatrixTurn.IssuesAtMostOnceIff | agent/channels/matrix.ts:241-325 | they issue at most once if and only if at most one failed session, failed turn or unparked completion comes for the delivery |
| MatrixTurn.CompletedThenFailedIssuesTwice | agent/channels/matrix.ts:267-325 | a turn that completes and then fails makes them issue twice |
| MatrixTurn.SettledAtMostOnce | server/matrix/delivery.ts:159-219 | of all finishes, completions, notices and acknowledgments of a delivery at most one takes effect |
| MatrixTurn.BoundRowIsSettledIff | server/matrix/delivery.ts:159-183 | a row bound to a session is settled if and only if an answer or a completion comes before it is suppressed |
| MatrixTurn.UnboundRowIsSettledIff | server/matrix/delivery.ts:193-219 | a row no session takes over is settled if and only if a recorded notice or a resolved reply comes before it is suppressed |
| MatrixTurn.OpenBoundRowIsDispatchedIff | server/matrix/delivery.ts:104-123 | a bound row that is still open is dispatched if and only if it was or has been since |
| MatrixTurn.BoundRowPostsItsAnswer | server/matrix/delivery.ts:126-169 | once such a row has its answer every post carries that answer, cut to size, and publishing posts it |
| MatrixTurn.RecordedPostsAgree | server/matrix/delivery.ts:126-219 | all posts of a delivery carry one text, as long as no notice is posted without being recorded |
| MatrixTurn.PostsAgreeIff | server/matrix/delivery.ts:126-219 | the posts of one run carry one text if and only if the notices posted without being recorded while the row was open all carry one, and it is the text of every post that settled the row |
| MatrixTurn.LostNoticeDisagrees | server/matrix/delivery.ts:193-219 | after a notice posted without being recorded, the row is bound, answered and posted with another text |
| MatrixTurn.PostedAnswersWereIssued | server/matrix/delivery.ts:126-169 | every posted answer is one the handlers issued for that delivery, cut to size |
| GitBatch.Batch | benchmarks/performance/run.ts:127-140 | the offset loop returns exactly the contents the record grammar gives, each decoded on its own, and fails where it does |
| GitBatch.PrintedIsReadBack | benchmarks/performance/run.ts:127-139 | the printed output of any blobs, whatever their bytes, is cut into their contents to the last byte, before decoding |
| GitBatch.PrintedTextsAreReadBack | benchmarks/performance/run.ts:127-140 | blobs of encoded text are read back as their texts, even when these look like records |
| GitBatch.ProperPrefixIsRejected | benchmarks/performance/run.ts:129-139 | no proper prefix of an accepted output is accepted for the same paths |
| GitBatch.AcceptedIffRecords | benchmarks/performance/run.ts:129-139 | an output is accepted with given contents if and only if it is that sequence of well-formed records |
| PublicRedirect.RelocationSettles | app/(marketing)/public-origin.ts:69-105 | a relocation target is canonical and is never relocated again |
| PublicRedirect.RelocatedIffNotAtHome | app/(marketing)/public-origin.ts:69-105 | a request is relocated if and only if it comes to a host of ours that is not its page's home, or asks for the preview page, and is no infrastructure; path and search are kept but for the preview page |
| PublicRedirect.RedirectsGetCloser | proxy.ts:63-122 | every redirect of the proxy decreases a measure, so chains end |
| PublicRedirect.OnlySessionsPass | proxy.ts:88-121 | nothing but the landing page and public paths is served without a session |
| PublicRedirect.SignedOutIsAskedToSignIn | proxy.ts:80-121 | a signed-out caller of any protected path ends at a sign-in page carrying that path and search back, on the app's host for all hosts of ours |
| PublicRedirect.NoDetours | proxy.ts:63-104 | with a session, and on public paths, a request is served as it is, at most moved to its canonical host |
| PublicRedirect.FrontPages | proxy.ts:84-115 | the front page asks to sign in exactly on the app's host; elsewhere it is the landing page |
| PublicRedirect.WelcomePages | proxy.ts:67-86 | the preview page is served to crawlers, on the apex for hosts of ours; everybody else ends on the front page |
| PublicRedirect.ChainsEndWithinThree | proxy.ts:63-122 | for a fixed caller every chain ends within three redirects at a URL that redirects nowhere, with three exactly for a signed-out caller below a marketing section on a host other than the apex |
| PublicRedirect.DocsOnWwwTakesThreeHops | proxy.ts:80-121 | such a chain, hop by hop |
| SubagentSessions.CollectSubagentSessions | app/_lib/subagent-sessions.ts:21-62 | the two loops produce the index of the log: last calls, newest first, each with the last completion, task and terminal status anywhere in the log |
| SubagentSessions.IndexIsOnePerChild | app/_lib/subagent-sessions.ts:57-61 | an index has distinct children and every child that was ever called |
| SubagentSessions.IndexIsUnique | app/_lib/subagent-sessions.ts:21-62 | a log has only one index |
| SubagentSessions.TerminalTaskStatuses | app/_lib/subagent-sessions.ts:64-88 | the last notification of every task |
| TaskNotices.WrittenIsNotified | app/_lib/subagent-sessions.ts:72-85 | a written notification is read back as its task id and status, unless a longer description on its line is closed too |
| TaskNotices.WrittenLineIsNotified | app/_lib/subagent-sessions.ts:72-85 | in particular, whatever its description says, when nothing else follows on its line |
| TaskNotices.NotifiedWasWritten | app/_lib/subagent-sessions.ts:72-85 | whatever is recognised was written so, with the longest description its line allows |
| SubagentSessions.SubscriptionKeyIsInjective | app/_lib/subagent-sessions.ts:90-99 | two lists share a key exactly when they are the same child and call pairs in the same order, through percent-encoded UTF-8 |

## Left out

- Strings are sequences of Unicode scalar values; JavaScript's UTF-16 lengths, lone surrogates and normalisation are not modelled.
- SHA-256 is an uninterpreted function and UUIDs are fresh identifiers; collisions appear only as explicit hypotheses, and digests of messages and of answers, which hash values of different shapes, never coincide.
- Durable runs cover payloads that carry a delivery marker; pass-through payloads occur in `DeliverOnce` only. A queued payload leaves by the checkpoint that records it, or after a conflict failure.
- `acceptedDelivery` throwing because an alias resolves to a different session is not a step of the runs: a `session:` alias is only ever given to the session it names.
- Whether each answer's recheck, approval delivery and prompt text are right is not part of `ChannelResponses`; preparation is a step that reports a revision or fails.
- R2Qualification.Qualification.Put: assumes that an upload aborted by its caller does not land after a later HEAD of that object was answered, that a DELETE has no late effect, and that nobody replaces the run's own objects, whose keys hold a fresh UUID.
- The qualification's file locking, directory checks, credentials, check names and deadlines beyond "may be refused as late" are left out.
- What a qualification request's answer consists of - status, bytes, lengths, metadata, digests - is one value per request; the comparisons that lead to it are left out.
- Erasure guards and payload kinds other than browser images are left out of `BrowserImages`, and retention by backups only decides when the collector acts, which is any time.
- `BrowserImages`, `Pagination` and the durable and response runs are models on values: SQL tables are maps or sets, and row locks appear as the atomicity of a step.
- The base64 and JSON coding of the trace cursor, and collation of session ids beyond being a total order, are left out.
- The ILIKE of the source folds case by the database's locale; the model takes any per-character folding, so foldings that change a string's length are left out.
- The statements around a nested transaction are those of drizzle-orm's node-postgres session over PostgreSQL, which `db/index.ts` selects; drizzle-orm itself is not part of this model.
- `query`'s statement timeout and the cancellation checks around statements are failures that code may meet anywhere (`Throw`); connection loss during COMMIT and queries issued in parallel inside one transaction are left out.
- The module-level `running` tick that repeated wake-ups share, and what the jobs other than joins do with their limit, are left out of `MatrixSchedule`.
- WebMigration.Operator.Migrate: from the second listing on, the model lets only the platform act on the web fleet; machines created or reconfigured by others after it are excluded, as nothing in the code could notice them.
- The `still` platform of `WebMigration` carries out every command at once and a machine it starts comes up alive; how long real machines take, beyond the retries, is left out.
- A failed creation whose response carries the primary database's own id, and interruption inside the release step, are left out of `WebMigration`.
- The Matrix room's own deduplication by transaction id, and tool-result publishing itself, are not part of `MatrixTurn`; a reply that is both a notice and later an answer is not excluded.
- Of the guard for protocol answers, `DurableRuns` keeps the task's state apart and takes access, context, session, question revision and message reuse together as one permission; questions left open are a choice of the environment.
- How Buffer.toString replaces bytes that are not valid UTF-8 is left to the decoder that `GitBatch` takes.
- The `link preview` user-agent test, session lookup and request header parsing are inputs of `PublicRedirect`; the request's host is the one redirects are built on.
- `getSubagentStatus` and `getSubagentTask` are left out: they add only easy members.
- Changing a chat, completing and recording traces, and everything that is UI, resource declaration, provider traffic or telemetry is left out.
