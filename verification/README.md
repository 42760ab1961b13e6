# KIM control plane: verified protocol models

KIM keeps its authority in PostgreSQL rows and treats agents, networks and workers as unreliable.
This project models the protocols that make this safe, and proves what they guarantee over every
run. Each database transaction is one atomic step on a state whose maps stand for the tables. A
transaction that fails changes nothing, unless the source commits a rejection record. Clock
readings, authority reads, send outcomes and disk outcomes are inputs of the step. SHA-256 digests
are injective images of what they cover, so comparing digests is comparing content.

| files | component |
|---|---|
| `Execution*`, `ReadBackIdentity`, `Receipts`, `Envelopes` | command leases, attempts, results and read-back, with the Gateway entry points |
| `Spool*`, `Durable` | the Agent's durable outbound journal and its delivery to the receipt table |
| `Scheduler*` | the bounded priority scheduler of an Agent session, and the manager that sends from it |
| `Confirmation*`, `Failure*`, `StorageSafety` | a failure epoch from suspicion to confirmation to fencing |
| `Cleanup*`, `Journal*`, `Rebind*` | cleanup claims, the write-before-execute journal, the availability-binding chain |
| `Placement*` | the placement evaluator |
| `Common`, `Tables`, `Sorting` | shared vocabulary, append-only tables, sorting |

Where the source updates state, there is a class. Its methods are proved against the transaction
functions. The `*Outcomes` lemmas say of each transaction when it succeeds and which rows, states
and times it leaves, and the `*Runs` lemmas give the laws over runs.

## What the proofs found

The code does not meet a promise in these cases. Each has a lemma that shows it, and a lemma that
says when the promise holds.

* A CONFLICTING or UNKNOWN verification passed straight to RecordCommandVerification overwrites SUCCEEDED and FAILED (`RawVerificationOverwrites`). The two Agent entry points guard against it (`TerminalIsForever`).
* A read-back of a command and a result of the command whose name has "-resync" behind it get one verification identity, and the later of the two is refused (`ClashIsRefused`); `IdentitiesClashIff` shows that this is the only clash.
* Putting a bulk message back after a failed send can fail and lose the message (`BulkRequeueCanFail`); `RequeueIff` says exactly when. A message that is kept goes to the back of its lane.
* Enqueue on the spool holds its limits against the loaded entries, load holds them against the directory. An Enqueue that fails after writing its file makes the two differ, and then a later Enqueue can succeed and no Open load any more (`FailedPutCanBlockOpen`, for every limit). `PutLoadsIff` and `AlwaysReopensIff` say exactly when the spool can be reopened.
* A spool removal that cannot be synced leaves the entry loaded without its file, and no receipt releases it until the process restarts (`UnsyncedRemovalSticks`).
* The execution journal's load does not sync its directory. Opened over a record that a power loss would take away, it lets the command execute without a durable record (`ExecutedWithoutRecord`); `WriteBeforeExecuteIff` is exact. Opened over a result that a power loss would take away or replace, it can publish two different results of one attempt (`PublishedCanDisagree`); `AgreementIff` is exact.
* A cleanup completion does not compare the claim under which its command was authorised. A read-back asked for under an earlier claim can be recorded under a later one and authorise an UNDEFINE there (`ReadBackAskedEarlier`); `AlwaysAskedIff` is exact.
* With distinct sources required, the confirmation matcher is greedy and can miss an assignment that exists (`GreedyMissesAnAssignment`); `DistinctSatisfiedIff` is the exact condition it decides.
* AppendFailureObservation answers success without recording anything when the same evidence is already recorded under another epoch (`AppendElsewhere`); `AppendRecordsIff` is exact.
* A huge-page size of zero, or one that overflows the rounding, asks for no pages (`NoPagesAskedFor`); `EligiblePages` says when the page count is right.
* Thread and page counters wrap at 2^64 (`PagesCanWrap`). That can only refuse a host, never admit one (`EligibleTrulyFits`); `CountersAndTotals` is exact. The score overflows on 2^54 listed threads, so that raising a claim raises it (`ScoreCanRise`); at most 2^53 listed threads rule this out (`ClaimsLowerTheScore`), and `ScoreExactIff` is exact.

## Model

| member | source | states |
|---|---|---|
| `ExecutionStore.Store.CreateExecutionCommand` | internal/persistence/postgres/execution.go:319-375 | the method is the create transaction: a new PENDING command, an exact replay that changes nothing, or a conflict; the protocol invariant is kept |
| `ExecutionOutcomes.CreateIff` | internal/persistence/postgres/execution.go:319-375 | creation succeeds exactly for a complete request that replays its command or names a known host and is new; the new command is PENDING with no attempt and no lease, and nothing else changes |
| `ExecutionStore.Store.AcquireCommandLease` | internal/persistence/postgres/execution.go:377-535 | the method is the grant transaction and keeps the invariant; a grant's window starts now, is the duration cut to whole microseconds and at most an hour, under the authority generation asked for |
| `ExecutionOutcomes.AcquireIff` | internal/persistence/postgres/execution.go:377-475 | a lease is granted exactly for a complete request of one microsecond to one hour, on a PENDING or REDISPATCHABLE command, under a host row that permits the scope and generation with a positive session |
| `ExecutionOutcomes.GrantIsBounded` | internal/persistence/postgres/execution.go:445-475 | the window starts now and is the duration cut to whole microseconds, never more than an hour; the grant has the scope and authority generation asked for, the next number, and a session the host row permits |
| `ExecutionOutcomes.GrantIsRecorded` | internal/persistence/postgres/execution.go:453-535 | a grant makes its command LEASED at the next attempt with the grant as active lease, and both logs open with it; a refusal changes nothing |
| `ExecutionRuns.GrantedLeaseIsUsable` | internal/persistence/postgres/execution.go:377-535 | a lease just granted can be used exactly with its own token and exactly until it expires |
| `ExecutionRuns.UsableMeansCurrent` | internal/persistence/postgres/execution.go:856-906 | a usable lease is bound to the host's one current and authorised session and to its current authority generation; a mutation also needs an armed authority with every gate open |
| `ExecutionRuns.MovedOnIsUnusable` | internal/persistence/postgres/execution.go:814-906 | once the host's session or authority generation moves on, or its authority is disarmed, or fenced for a mutation, no lease bound to the old one is usable |
| `ExecutionStore.Store.ValidateActiveLease` | internal/persistence/postgres/execution.go:814-854 | a lease is usable exactly when it is active, unexpired, covers the attempt, matches the token hash and is bound to the current session and authority |
| `ExecutionOutcomes.UsableIff` | internal/persistence/postgres/execution.go:814-906 | usable exactly while it is the attempt's active lease, inside its window, presented with its token, and its host row permits scope, generation and session |
| `ExecutionStore.Store.MarkCommandAttemptJournaled` | internal/persistence/postgres/execution.go:537-558 | the method is the journal transaction, idempotent for the same evidence; the invariant is kept |
| `ExecutionOutcomes.StartIsRecorded` | internal/persistence/postgres/execution.go:537-558 | a LEASED attempt is started exactly by a complete request under a usable lease; it is then EXECUTING and both logs have their one new row |
| `ExecutionOutcomes.StartReplays` | internal/persistence/postgres/execution.go:537-558 | journaling again under the live lease succeeds without effect for the same digest, and is an evidence conflict for another |
| `ExecutionStore.Store.AcceptCommandResult` | internal/persistence/postgres/execution.go:560-654 | the method is the result transaction, including replay, rejection record and expiry of an elapsed lease; a first result leaves VERIFYING, FAILED or UNKNOWN for SUCCEEDED, FAILED or UNKNOWN; the invariant is kept |
| `ExecutionOutcomes.AcceptIff` | internal/persistence/postgres/execution.go:560-633 | a result is accepted exactly as a replay of the recorded one, or under a usable lease with an identity never used before |
| `ExecutionOutcomes.AcceptedOutcome` | internal/persistence/postgres/execution.go:603-623 | a first result leaves VERIFYING for SUCCEEDED, FAILED for FAILED and UNKNOWN for UNKNOWN, and consumes its lease; a replay writes nothing |
| `ExecutionStore.Store.RecordCommandVerification` | internal/persistence/postgres/execution.go:727-804 | the method is the raw verification transaction, with the roll-back of a verdict the state does not admit |
| `ExecutionOutcomes.VerificationIff` | internal/persistence/postgres/execution.go:727-804 | exactly when a verification is taken: complete, about the current attempt, MATCHED from VERIFYING or UNKNOWN once projected, NOT_APPLIED from UNKNOWN only, or an exact replay |
| `ExecutionOutcomes.VerifiedOutcome` | internal/persistence/postgres/execution.go:783-804 | a new verification leaves SUCCEEDED for MATCHED, REDISPATCHABLE for NOT_APPLIED and UNKNOWN otherwise, and its row is recorded |
| `ExecutionStore.Store.ApplyAgentDecision` | internal/persistence/postgres/execution.go:136-198 | journal evidence, result and verification in nested savepoints are one decision |
| `ExecutionOutcomes.SucceededIsNotRedispatched` | internal/persistence/postgres/execution.go:783-796 | SUCCEEDED with a new NOT_APPLIED read-back in one decision is always refused and changes nothing |
| `ExecutionOutcomes.DecisionIff` | internal/agent/gateway/message_receiver.go:34-66 | exactly when a result message is applied as a whole, and the state that its outcome and read-back conclude; otherwise nothing changes |
| `ReadBackIdentity.ResultIdentityIff` | internal/agent/gateway/message_receiver.go:58 | two result messages get one verification identity exactly when they are about one attempt of one command |
| `ReadBackIdentity.ObservationIdentityIff` | internal/agent/gateway/message_receiver.go:91 | the same for read-back messages |
| `ReadBackIdentity.IdentitiesClashIff` | internal/agent/gateway/message_receiver.go:58-91 | a result and a read-back get one identity exactly when the result's command is the other's with "-resync" behind it, at the same attempt |
| `ReadBackIdentity.ClashIsRefused` | internal/persistence/postgres/execution.go:761-777 | of two such verifications the one recorded first makes every recording of the other fail |
| `ExecutionStore.Store.AcceptAgentCommandResult` | internal/persistence/postgres/execution.go:136-198 | decision and receipt are committed together or not at all; the invariant is kept |
| `ExecutionOutcomes.ResultMessageIff` | internal/persistence/postgres/execution.go:136-198 | exactly when a first result message is answered: from the command's host under its current session, and either in flight and applied, with an ACCEPTED receipt, or late, with a STALE receipt and a rejection that moves no state, result or evidence |
| `ExecutionStore.Store.AcceptAgentVerificationObservation` | internal/persistence/postgres/execution.go:200-266 | a read-back observation moves only an UNKNOWN command; decision and receipt are committed together |
| `ExecutionOutcomes.ObservationMessageIff` | internal/persistence/postgres/execution.go:200-266 | exactly when a first read-back message is accepted: from the host under the session that is current and authorised, about the current attempt of an UNKNOWN command and exactly its target and payload digest, with a complete verification |
| `ExecutionOutcomes.ObservedOutcome` | internal/persistence/postgres/execution.go:240-266 | its command moves to SUCCEEDED, REDISPATCHABLE or stays UNKNOWN as the verdict says, and its receipt is ACCEPTED; refused, it leaves no trace |
| `ExecutionStore.Store.ExpireCommandLease` | internal/persistence/postgres/execution.go:656-684 | an elapsed active lease ends as EXPIRED and its command as UNKNOWN |
| `ExecutionOutcomes.ExpireIff` | internal/persistence/postgres/execution.go:656-684 | a lease expires exactly when it is active and its time is over; then it is EXPIRED, its command UNKNOWN, and only the logs of that attempt change besides |
| `ExecutionStore.Store.FenceHostCommandLeases` | internal/persistence/postgres/execution.go:908-960 | fencing lease after lease in any order is the simultaneous fence of all of the host's active leases |
| `ExecutionRuns.EveryRun` | internal/persistence/postgres/execution.go:136-960 | the protocol invariant holds in every state of every run, and later states only add to earlier ones |
| `ExecutionRuns.ActiveLeaseLaw` | internal/persistence/postgres/execution.go:445-494 | a lease is active exactly while its command is LEASED or EXECUTING; it is the newest grant; generation, attempt and number of grants are one number |
| `ExecutionRuns.LeaseLogLaw` | internal/persistence/postgres/execution.go:945-984 | every generation's log is gap free: GRANTED, optional STARTED, at most one end; older generations are closed; the lease state is the fold of the log |
| `ExecutionRuns.SucceededIffMatched` | internal/persistence/postgres/execution.go:727-804 | in every run a command is SUCCEEDED exactly when MATCHED evidence is recorded for its current attempt |
| `ExecutionRuns.TerminalIsForever` | internal/persistence/postgres/execution.go:136-266 | SUCCEEDED and FAILED are never left, and no attempt is added, over runs of the Agent entry points |
| `ExecutionRuns.OnlyReadBackAdds` | internal/agent/gateway/message_receiver.go:46-100 | NOT_APPLIED evidence enters only through a message that reports that read-back, and never with a FAILED result |
| `ExecutionRuns.EvidenceHasOrigin` | internal/agent/gateway/message_receiver.go:46-100 | recorded NOT_APPLIED evidence has an earlier step of the run that reported it |
| `ExecutionRuns.GrantNeedsProof` | internal/persistence/postgres/execution.go:423-449 | the attempt number changes only by a grant, and a later grant only with NOT_APPLIED evidence for exactly the attempt before |
| `ExecutionRuns.RedispatchFollowsReadBack` | internal/persistence/postgres/execution.go:423-449 | every grant after the first is preceded in the run by the read-back message for exactly the attempt before |
| `ExecutionRuns.OnlyReadBackRedispatches` | internal/persistence/postgres/execution.go:783-795 | expiry, fencing, UNKNOWN and stale results, and authority changes alone never lead to a second dispatch |
| `ExecutionRuns.LostIsUnusable` | internal/persistence/postgres/execution.go:814-854 | a lease that is expired, ended, superseded, wrongly tokened or bound to an old session is not usable |
| `ExecutionRuns.RejectionIsInert` | internal/persistence/postgres/execution.go:575-654 | a refused submission adds no result and changes a state only from LEASED or EXECUTING to UNKNOWN, for an elapsed active lease |
| `ExecutionRuns.StaleSubmissionIsInert` | internal/persistence/postgres/execution.go:560-654 | whatever took the lease away, the submission adds no result and moves no state but that of an elapsed active lease to UNKNOWN; an attempt that already has its result answers from it and writes nothing; any other submission is refused |
| `ExecutionRuns.ConsumedIffResult` | internal/persistence/postgres/execution.go:603-613 | a lease is consumed exactly when its attempt has its result |
| `ExecutionRuns.ConsumedOnlyReplays` | internal/persistence/postgres/execution.go:576-586 | a submission under a consumed lease changes nothing, and succeeds only as a replay of the result that consumed it |
| `ExecutionRuns.RawVerificationOverwrites` | internal/persistence/postgres/execution.go:783-796 | exactly when the raw verification transaction takes a command out of a terminal state |
| `ExecutionSteps.FenceIsExact` | internal/persistence/postgres/execution.go:908-960 | after a host fence no active lease is left on the host, exactly its formerly active commands are UNKNOWN, and nothing else changes |
| `ExecutionSteps.AgentResultKeeps` | internal/persistence/postgres/execution.go:136-198 | the result entry point keeps the invariant and answers the sender with the durable receipt row for exactly its message |
| `ExecutionSteps.AgentObservationKeeps` | internal/persistence/postgres/execution.go:200-266 | the same for the observation entry point |
| `Receipts.AcceptAnswers` | internal/persistence/postgres/agent_receipt.go:18-93 | the table only grows and stays consistent, the receipt returned is the durable row for exactly this message, and a new one is ACCEPTED exactly under the current session generation |
| `Receipts.AcceptIff` | internal/persistence/postgres/agent_receipt.go:18-93 | exactly when a message is answered: by its own row, or with a current session and a free sequence slot; a new row says ACCEPTED or STALE as it was sent under the current generation or another |
| `Receipts.ReplayGetsOriginalReceipt` | internal/persistence/postgres/agent_receipt.go:30-41 | a replay in any later generation gets the original receipt and writes nothing |
| `Envelopes.ReceiptIgnoresSession` | internal/agent/session/envelope.go:65-87 | a receipt acknowledges a message under every session or under none, and two valid messages it acknowledges have the same payload |
| `SpoolStore.Open` | internal/agent/spool/spool.go:86-120 | Open succeeds exactly on a usable configuration, a loadable directory and a successful sync, and then holds exactly the directory |
| `SpoolStore.DurableSpool.Load` | internal/agent/spool/spool.go:242-289 | load succeeds exactly when every file fits, the limits hold and the sync succeeds |
| `SpoolStore.DurableSpool.Enqueue` | internal/agent/spool/spool.go:122-155 | nil exactly for a valid message of this host on an open spool that is loaded unchanged but for its session, or is new with room, no file of its name and a synced write; the method is the Enqueue function |
| `SpoolOutcomes.EnqueueIff` | internal/agent/spool/spool.go:122-155 | the same of the function, for every state whose loaded entries fit |
| `SpoolOutcomes.EnqueuedIsDurable` | internal/agent/spool/spool.go:149-154 | a new message that was taken is loaded and no power loss takes its file away; nothing else is touched |
| `SpoolOutcomes.RefusedEnqueue` | internal/agent/spool/spool.go:123-153 | a refused message is not loaded, and only an unsynced write leaves a file, which a power loss may remove |
| `SpoolStore.DurableSpool.Acknowledge` | internal/agent/spool/spool.go:186-210 | nil exactly for an open spool, a loaded entry, an ACCEPTED receipt for it, a file that is there and a synced removal; the entry is then out of memory and no power loss brings its file back; the method is the Acknowledge function |
| `SpoolOutcomes.AcknowledgeIff` | internal/agent/spool/spool.go:186-210 | the same of the function, for every state |
| `SpoolOutcomes.ReleasedIsGone` | internal/agent/spool/spool.go:203-209 | then the entry is out of memory, no power loss brings its file back, and every other entry and file stays |
| `SpoolOutcomes.NotReleased` | internal/agent/spool/spool.go:186-209 | any other receipt leaves the entry loaded, and the file goes only when an ACCEPTED removal could not be synced |
| `SpoolOutcomes.UnsyncedRemovalSticks` | internal/agent/spool/spool.go:203-208 | after such a removal every further receipt for that entry fails, whatever it says, and changes nothing |
| `SpoolStore.DurableSpool.HandleReceipt` | internal/agent/spool/spool.go:23-36 | a receipt that does not release its entry is not an error, and a cancelled call changes nothing |
| `SpoolOutcomes.NonReleasingIff` | internal/agent/spool/spool.go:198-202 | the answer that is swallowed is given exactly for a loaded entry and a receipt for it that says anything but ACCEPTED |
| `SpoolStore.DurableSpool.Stats` | internal/agent/spool/spool.go:291-297 | the count and byte total are the true sums over the entries |
| `SpoolStore.DurableSpool.Pending` | internal/agent/spool/spool.go:159-184 | each entry exactly once, ordered by scope, sequence and message, whatever order the entries are visited in |
| `SpoolStore.DurableSpool.DigestOfPending` | internal/agent/spool/spool.go:212-222 | the digest covers the lines of the one pending sequence |
| `Spool.PendingIsUnique` | internal/agent/spool/spool.go:159-184 | there is only one pending sequence of a spool |
| `Spool.EnqueueCases` | internal/agent/spool/spool.go:122-155 | the only three ways Enqueue ends, with what each guarantees about identity and limits |
| `Spool.AcknowledgeCases` | internal/agent/spool/spool.go:186-210 | the only three ways Acknowledge ends; a file goes only for an ACCEPTED receipt of exactly its message |
| `SpoolDelivery.StepKeeps` | internal/agent/spool/spool.go:122-289 | every step, including crash, power loss, loss, duplication, reordering and session change, keeps the delivery guarantee and every receipt |
| `SpoolDelivery.PromisedIsNeverLost` | internal/agent/spool/spool.go:122-210 | from the moment Enqueue returns nil, in every later state the message is durably on disk or has an ACCEPTED receipt of the same identity and digest |
| `SpoolDelivery.RefusedIsKeptForever` | internal/agent/spool/spool.go:198-202 | a message whose first receipt is not ACCEPTED is never released |
| `SpoolDelivery.OneReceiptPerMessage` | internal/persistence/postgres/agent_receipt.go:30-93 | all deliveries of one message in a run are answered with one and the same receipt |
| `SpoolReopen.PutLoadsIff` | internal/agent/spool/spool.go:122-155 | an Enqueue that writes a file, whether it then succeeds or fails to sync, leaves a directory that loads exactly when the directory, not the loaded entries, had room |
| `SpoolReopen.ReopensIff` | internal/agent/spool/spool.go:242-289 | a directory loads after every power loss exactly when it would with all removals undone |
| `SpoolReopen.StepReopensIff` | internal/agent/spool/spool.go:122-289 | a step takes a spool that can be reopened to one that cannot exactly when it writes a file for which the directory had no room |
| `SpoolReopen.AlwaysReopensIff` | internal/agent/spool/spool.go:122-289 | in every run, the spool can be reopened in every state, whatever a power loss does, exactly when every Enqueue that wrote a file found room in the directory |
| `SpoolReopen.ReopenSucceeds` | internal/agent/spool/spool.go:242-289 | in every run without an Enqueue that ended unsynced this is so |
| `SpoolReopen.FailedPutCanBlockOpen` | internal/agent/spool/spool.go:310-341 | for every limit, a run from the empty directory with one Enqueue that failed unsynced, whose last Enqueue succeeds and after which no Open loads |
| `SpoolGateway.EntryPointsDeliver` | internal/agent/gateway/message_receiver.go:19-102 | a plain message, result or observation that the Gateway accepts is an enabled delivery of the spool protocol on the same receipt table |
| `SpoolGateway.OtherStepsAreTraffic` | internal/persistence/postgres/execution.go:136-960 | every other transaction only adds receipts, as the spool protocol allows at any time |
| `SchedulerQueue.NewPriorityQueue` | internal/agent/session/queue.go:46-65 | a queue is made exactly for usable limits, and it starts empty and valid |
| `SchedulerQueue.PriorityQueue.Enqueue` | internal/agent/session/queue.go:68-92 | the method is the Enqueue function and keeps the queue valid |
| `SchedulerOutcomes.EnqueueIff` | internal/agent/session/queue.go:68-92 | a message is taken exactly when it is small enough, its stream has room, the true totals have room, and bulk leaves the reserve free; it then stands at the back of its stream |
| `SchedulerQueue.PriorityQueue.Dequeue` | internal/agent/session/queue.go:96-118 | the method is the Dequeue function and keeps the queue valid |
| `SchedulerOutcomes.DequeueOrder` | internal/agent/session/queue.go:96-149 | bulk goes first exactly after enough priority messages or when nothing else waits, control before authority, and authority and bulk streams take turns from their cursors |
| `SchedulerQueue.PriorityQueue.PopFirst` | internal/agent/session/queue.go:127-149 | the loop takes the head of the first non-empty lane in rotation order, and moves the cursor past it |
| `SchedulerQueue.PriorityQueue.Stats` | internal/agent/session/queue.go:121-125 | the counters are the true sums over the lanes and within the limits |
| `SchedulerQueue.Manager.FlushOne` | internal/agent/session/manager.go:65-87 | at most the head of one lane leaves; it leaves only if current and valid and sent; a failed one goes to the back of its lane, and is lost exactly when it is bulk and the queue was above its unreserved capacity |
| `SchedulerOutcomes.LeavesIff` | internal/agent/session/manager.go:258-277 | a message may leave exactly under the current authority of its own host and session generation, complete, of a known stream, bounded and with its own digest |
| `SchedulerOutcomes.OnlyOneAuthority` | internal/agent/session/manager.go:258-277 | a message that may leave under one authority may leave under no other until it is bound to that one's session |
| `Scheduler.ScanIsFirst` | internal/agent/session/queue.go:127-149 | the lane taken is the first non-empty one in rotation order from the cursor |
| `Scheduler.EnqueueKeeps` | internal/agent/session/queue.go:68-92 | an accepted message keeps counters, limits and the bulk bound |
| `Scheduler.DequeueKeeps` | internal/agent/session/queue.go:96-149 | a Dequeue takes the head of one lane, leaves every other lane alone and keeps the queue valid |
| `Scheduler.DequeueEmptyIff` | internal/agent/session/queue.go:96-149 | Dequeue returns nothing exactly when every known lane is empty |
| `SchedulerRuns.EveryRunValid` | internal/agent/session/queue.go:68-149 | counters equal the true sums, limits hold and bulk stays out of the reserve after every run |
| `SchedulerRuns.StreamsAreFifo` | internal/agent/session/queue.go:68-149 | for each stream, lane before plus accepted equals returned plus lane after, over every run |
| `SchedulerRuns.ReservedPriorityIsAccepted` | internal/agent/session/queue.go:68-92 | a priority message within its lane limit and the reserve is never refused, whatever bulk traffic is queued |
| `SchedulerRuns.RequeueIff` | internal/agent/session/manager.go:65-87 | putting back the message just taken always succeeds for priority traffic, and for bulk exactly within the unreserved capacity |
| `SchedulerRuns.BulkRequeueCanFail` | internal/agent/session/manager.go:78-83 | a run from the empty queue whose next bulk message cannot be put back |
| `SchedulerRuns.BulkIsNotStarved` | internal/agent/session/queue.go:96-149 | under any interleaving of Enqueues, the first k messages of a bulk lane are returned within 2k(MaxConsecutivePriority+1) Dequeues |
| `SchedulerRuns.AuthorityIsNotStarved` | internal/agent/session/queue.go:96-149 | while control is idle, the first k messages of an authority lane are returned within 8k Dequeues |
| `Confirmation.EvaluateRequirements` | internal/persistence/postgres/failure_confirmation.go:175-221 | the two passes compute the specified verdict |
| `Confirmation.HasConflict` | internal/persistence/postgres/failure_confirmation.go:180-189 | the states collected differ exactly when two CURRENT rows disagree |
| `Confirmation.ScanRows` | internal/persistence/postgres/failure_confirmation.go:192-218 | the scan finds the first match, and otherwise the flags say why there is none |
| `ConfirmationLaws.SatisfiedIsSound` | internal/persistence/postgres/failure_confirmation.go:175-221 | SATISFIED comes with a matching CURRENT observation for every requirement, from distinct sources if required, and no CURRENT observation of a required pair disagrees |
| `ConfirmationLaws.PlainSatisfiedIff` | internal/persistence/postgres/failure_confirmation.go:175-221 | without distinct sources, SATISFIED means no conflict and a candidate for every requirement |
| `ConfirmationLaws.OrderDoesNotMatter` | internal/persistence/postgres/failure_confirmation.go:175-221 | without distinct sources the whole verdict ignores order and repetition of observations |
| `ConfirmationLaws.OnlyCurrentDecides` | internal/persistence/postgres/failure_confirmation.go:60-88 | observations that are not CURRENT neither break SATISFIED nor bring it about |
| `ConfirmationLaws.DistinctSatisfiedIff` | internal/persistence/postgres/failure_confirmation.go:190-220 | with distinct sources, SATISFIED exactly when there is no conflict, every requirement has a candidate, and a later one on the same kind of source can avoid the first choice of an earlier one |
| `ConfirmationLaws.ConflictIff` | internal/persistence/postgres/failure_confirmation.go:180-189 | CONFLICTING_INPUT exactly when two CURRENT observations of one required kind differ |
| `ConfirmationLaws.UnmetIsExplained` | internal/persistence/postgres/failure_confirmation.go:190-220 | any other verdict is explained by one requirement: UNKNOWN by something unknown or undated of its kind, else STALE by something aged, else NOT_SATISFIED; without distinct sources it is the first requirement without a candidate |
| `ConfirmationLaws.GreedyMissesAnAssignment` | internal/persistence/postgres/failure_confirmation.go:204-208 | a valid policy and evidence with an assignment from distinct sources that the matcher does not find |
| `FailureStore.Store.OpenFailureEpoch` | internal/persistence/postgres/failure_epoch.go:147-242 | the method is the open transaction: replay, correlated incident, stale binding, or a new SUSPECTED epoch; the invariant is kept |
| `FailureOutcomes.OpenIff` | internal/persistence/postgres/failure_epoch.go:92-242 | a new incident opens exactly when the request is complete with the trigger of its class, its binding is current, the trigger is about the workload's host, current and never recorded, and the name is free; it is SUSPECTED on that trigger |
| `FailureOutcomes.OpenReplays` | internal/persistence/postgres/failure_epoch.go:161-187 | a known request or incident answers with its epoch exactly for the same request or the same binding, and writes nothing |
| `FailureStore.Store.AppendFailureObservation` | internal/persistence/postgres/failure_epoch.go:251-297 | the method is the append transaction, numbering with a maximum over the rows; the invariant is kept |
| `FailureOutcomes.AppendIff` | internal/persistence/postgres/failure_epoch.go:251-297 | a new observation is appended exactly when it is valid, current and about the epoch's host, as the next generation |
| `FailureStore.Store.NextGeneration` | internal/persistence/postgres/failure_epoch.go:287-289 | the number computed is one past the epoch's newest row |
| `FailureStore.Store.LoadObservations` | internal/persistence/postgres/failure_confirmation.go:156-173 | the rows up to a generation, in order |
| `FailureStore.Store.EvaluateFailureConfirmation` | internal/persistence/postgres/failure_confirmation.go:223-335 | the method is the evaluation transaction over the evaluator's verdict; the invariant is kept |
| `FailureOutcomes.EvaluateIff` | internal/persistence/postgres/failure_confirmation.go:223-335 | an evaluation holds all evidence and judges it exactly when a policy of the epoch's class is bound, current and ACTIVE while the epoch is SUSPECTED; otherwise it names what is missing |
| `FailureStore.Store.InputsExact` | internal/persistence/postgres/failure_confirmation.go:393-396 | every recorded input still has its exact row |
| `FailureStore.Store.ConfirmFailureEpoch` | internal/persistence/postgres/failure_confirmation.go:343-423 | the method is the compare-and-set confirmation; a new decision succeeds exactly for a SATISFIED evaluation of a SUSPECTED epoch without later evidence under a policy still in force; the invariant is kept |
| `FailureOutcomes.ConfirmIff` | internal/persistence/postgres/failure_confirmation.go:343-423 | a new decision confirms exactly a SATISFIED evaluation of an epoch still SUSPECTED without later evidence, under a policy still current and ACTIVE; it writes decision, second transition and state |
| `FailureOutcomes.ConfirmedUnderPolicyInForce` | internal/persistence/postgres/failure_confirmation.go:388-392 | in every run an epoch becomes CONFIRMED only in a state where the evaluation's policy is of the epoch's class, the current revision and ACTIVE |
| `FailureStore.Store.RecordSourceExecutionFencingObservation` | internal/persistence/postgres/failure_safety.go:148-216 | the method is the fencing observation transaction; the invariant is kept |
| `FailureOutcomes.RecordFencingIff` | internal/persistence/postgres/failure_safety.go:148-216 | recorded exactly for a CONFIRMED epoch as its next generation; PROVEN exactly when a fenced authority event and power evidence are there and say shut off and matched |
| `FailureStore.Store.EvaluateFailureFencing` | internal/persistence/postgres/failure_safety.go:218-295 | the method is the fencing evaluation transaction; the invariant is kept |
| `FailureOutcomes.EvaluateFencingIff` | internal/persistence/postgres/failure_safety.go:218-295 | an evaluation carries the state of the latest observation exactly when a fencing policy is bound, current and ACTIVE and the epoch is CONFIRMED; otherwise it names what is missing |
| `FailureStore.Store.MaterializeFailureFencingProof` | internal/persistence/postgres/failure_safety.go:297-365 | the method is the compare-and-set fencing; a new proof succeeds exactly for a PROVEN evaluation of the latest observation of a CONFIRMED epoch under a fencing policy still in force; the invariant is kept |
| `FailureOutcomes.MaterializeIff` | internal/persistence/postgres/failure_safety.go:297-365 | a new proof fences exactly a CONFIRMED epoch on a PROVEN evaluation of what is still its latest observation, under a fencing policy still current and ACTIVE |
| `FailureOutcomes.FencedUnderPolicyInForce` | internal/persistence/postgres/failure_safety.go:330-345 | in every run an epoch becomes FENCED only from CONFIRMED, in a state where the fencing policy is the current revision and ACTIVE and the latest observation is PROVEN |
| `FailureOutcomes.RepeatsWriteNothing` | internal/persistence/postgres/failure_safety.go:230-236 | repeated evaluations, decisions and proofs answer for what was recorded, only for the same arguments, and write nothing |
| `FailureStore.Store.PublishFailureConfirmationPolicy` | internal/persistence/postgres/failure_confirmation.go:90-148 | the method is the publish transaction: revisions are immutable and the pointer only moves up |
| `FailureOutcomes.PublishIff` | internal/persistence/postgres/failure_confirmation.go:90-148 | exactly when a revision is published: complete, and either the recorded one or above the current one, which it replaces |
| `FailureStore.Store.PublishFailureFencingPolicy` | internal/persistence/postgres/failure_safety.go:76-109 | the method is the publish transaction of fencing policies; the invariant is kept |
| `FailureOutcomes.PublishFencingIff` | internal/persistence/postgres/failure_safety.go:76-109 | a fencing revision is recorded exactly when complete and new or the recorded one; an older one is recorded too, but the highest stays current |
| `FailureStore.ValidRequirements` | internal/persistence/postgres/failure_confirmation.go:70-87 | the requirement loop accepts exactly the valid requirement lists |
| `FailureEpochRuns.EveryRun` | internal/persistence/postgres/failure_epoch.go:147-297 | in every run, evidence generations are exactly 1..latest, transitions exactly 1 SUSPECTED, 2 CONFIRMED, 3 FENCED, the first evidence is the trigger and all of it is about the epoch's host, there is one epoch per incident, evaluations hold the whole evidence of their moment, rows are never changed and states never go back |
| `FailureEpochRuns.LoadIsAll` | internal/persistence/postgres/failure_confirmation.go:156-173 | with gap-free evidence, what an evaluation loads is every generation once, in order |
| `FailureEpochRuns.ConfirmedOnAllEvidence` | internal/persistence/postgres/failure_confirmation.go:343-423 | an epoch becomes CONFIRMED only by a decision on an evaluation whose inputs are all its evidence at that instant, with an assignment for every requirement of its policy |
| `FailureEpochRuns.FencedOnLatestProven` | internal/persistence/postgres/failure_safety.go:297-365 | a FENCED epoch rests, then and in every later state, on its latest fencing observation, which is PROVEN: it names a FENCED authority event and power evidence that the machine was shut off and matched |
| `FailureEpochRuns.AppendRecordsIff` | internal/persistence/postgres/failure_epoch.go:265-277 | a successful append records the observation under its epoch exactly when its identifier is not recorded under another |
| `FailureEpochRuns.AppendElsewhere` | internal/persistence/postgres/failure_epoch.go:265-277 | evidence of one epoch offered to another is answered with success, changes nothing, and is not recorded there |
| `StorageSafety.KeepData` | internal/persistence/postgres/failure_safety.go:443-451 | filtering inside the same buffer keeps exactly the data rows in order, and notices a root row with another volume |
| `StorageSafety.EvaluateStorageSafety` | internal/persistence/postgres/failure_safety.go:431-497 | the loops compute the specified verdict |
| `StorageSafety.SafeIff` | internal/persistence/postgres/failure_safety.go:431-497 | SAFE exactly when every loaded row is safely detached, or is the root's row under a usable proof for its volume |
| `StorageSafety.ObjectionIs` | internal/persistence/postgres/failure_safety.go:464-495 | the first row that is not safely detached decides: UNKNOWN, else CONFLICTING_INPUT, else NOT_SAFE |
| `StorageSafety.RootDecides` | internal/persistence/postgres/failure_safety.go:431-480 | without an objecting data row the root decides: usable SAFE, missing or stale NOT_SAFE, unknown UNKNOWN, another volume CONFLICTING_INPUT; without a root and rows NOT_SAFE |
| `StorageSafety.SafeIgnoresOrder` | internal/persistence/postgres/failure_safety.go:431-497 | SAFE does not depend on the order of the rows |
| `CleanupStore.Store.ClaimBackendCleanup` | internal/persistence/postgres/backend_cleanup.go:271-307 | the method is the claim transaction; the invariant is kept |
| `CleanupOutcomes.ClaimIff` | internal/persistence/postgres/backend_cleanup.go:271-307 | granted exactly for a lease of up to a day on an eligible operation that is PENDING, DISPATCH_UNKNOWN or past its claim's expiry; the next generation from now for the lease, applying directly only on the first claim |
| `CleanupOutcomes.GrantedIsHeld` | internal/persistence/postgres/backend_cleanup.go:415-424 | a granted claim passes the later check exactly until it expires, for its owner and its mode only |
| `CleanupStore.Store.AuthorizeBackendCleanupReadBackCommand` | internal/persistence/postgres/backend_cleanup.go:312-354 | the method is the read-back authorisation, for a current READ_BACK_FIRST claim only |
| `CleanupOutcomes.AuthorizeReadBackIff` | internal/persistence/postgres/backend_cleanup.go:312-354 | authorised exactly under a held READ_BACK_FIRST claim of a domain, once per command identity |
| `CleanupStore.Store.AuthorizeBackendCleanupCommand` | internal/persistence/postgres/backend_cleanup.go:356-406 | the method is the UNDEFINE authorisation; the invariant is kept |
| `CleanupOutcomes.AuthorizeIff` | internal/persistence/postgres/backend_cleanup.go:356-406 | authorised exactly under a held claim that may apply, or under which the exact domain was read back defined and not running |
| `CleanupStore.Store.CompleteBackendCleanup` | internal/persistence/postgres/backend_cleanup.go:408-488 | the method is the completion transaction with the cleanup_complete projection; the invariant is kept |
| `CleanupOutcomes.CompleteIff` | internal/persistence/postgres/backend_cleanup.go:408-458 | completed exactly under a held claim by a consistent observation of that claim and that incarnation, confirmed by the verification of a command the claim may have run, and recorded for the first time |
| `CleanupOutcomes.CompletedState` | internal/persistence/postgres/backend_cleanup.go:459-478 | ABSENT leaves VERIFIED, CONFLICTING leaves CONFLICTING, UNKNOWN leaves DISPATCH_UNKNOWN, each without a claim; PRESENT leaves operation and claim as they are; the row is what was observed |
| `CleanupOutcomes.CompletedProjection` | internal/persistence/postgres/backend_cleanup.go:479-486 | the projection's domain follows the finding, and cleanup is complete exactly when it is ABSENT and every other part is verified or not needed |
| `CleanupRuns.RegisterDomainKeeps` | internal/persistence/postgres/backend_cleanup.go:155-171 | registering a domain cleanup keeps the invariant and any earlier progress |
| `CleanupOutcomes.RegisterDomainIff` | internal/persistence/postgres/backend_cleanup.go:155-171 | registered exactly once per key and incarnation, PENDING and never claimed, with a projection that waits for what the machine has |
| `CleanupRuns.RegisterNetworkKeeps` | internal/persistence/postgres/backend_cleanup.go:234-266 | recording an already absent network keeps the invariant |
| `CleanupOutcomes.RegisterNetworkIff` | internal/persistence/postgres/backend_cleanup.go:234-266 | registered exactly with new evidence or as an exact replay: VERIFIED at once on a row of absence, and the cleanup complete with it exactly when every other part is settled |
| `CleanupRuns.EveryRun` | internal/persistence/postgres/backend_cleanup.go:271-488 | in every run claim generations are exactly 1..last and only rise, APPLY_ALLOWED is only generation 1, cleanup_complete is exactly its definition, evidence is only added, and VERIFIED and CONFLICTING are never left |
| `CleanupRuns.UndefineNeedsReadBack` | internal/persistence/postgres/backend_cleanup.go:356-385 | every UNDEFINE was authorised under the first claim, or under a claim with a PRESENT, not running, identity-matching read-back recorded under it |
| `CleanupReadBack.ReadBackAskedEarlier` | internal/persistence/postgres/backend_cleanup.go:437-452 | a run that authorises an UNDEFINE under claim 3 although no read-back was ever authorised under that claim, only recorded under it |
| `CleanupReadBack.AlwaysAskedIff` | internal/persistence/postgres/backend_cleanup.go:437-452 | in every run, every PRESENT row was asked for under its own claim exactly when every completion that recorded one named a command authorised under the claim it presented |
| `CleanupReadBack.UndefineWasAskedFor` | internal/persistence/postgres/backend_cleanup.go:356-385 | in such a run every UNDEFINE under a later claim follows a read-back both authorised and recorded under that claim |
| `CleanupRuns.ClaimsDoNotOverlap` | internal/persistence/postgres/backend_cleanup.go:283-301 | when a claim was granted, the one before it had expired or had been given back by a recorded completion |
| `CleanupRuns.VerifiedMeansAbsent` | internal/persistence/postgres/backend_cleanup.go:428-470 | a VERIFIED operation rests on recorded exact absence: not defined, not running, identity matching |
| `CleanupRuns.OneHolder` | internal/persistence/postgres/backend_cleanup.go:415-424 | at most one claim of an operation passes the check of the later transactions, and it is the last one granted |
| `JournalStore.ExecutionJournal.Prepare` | internal/agent/executionjournal/journal.go:75-97 | the method is the Prepare function for every outcome of the write |
| `JournalOutcomes.PrepareIff` | internal/agent/executionjournal/journal.go:75-97 | succeeds exactly for a well-formed command known under the same digest and target, or new and written; a new record has no result and survives every power loss |
| `JournalStore.ExecutionJournal.Complete` | internal/agent/executionjournal/journal.go:99-125 | the method is the Complete function for every outcome of the write |
| `JournalOutcomes.CompleteIff` | internal/agent/executionjournal/journal.go:99-125 | succeeds exactly for a listed outcome on a prepared command with this very result, or with none and written; the result then survives every power loss |
| `Journal.EvidenceIsPrepared` | internal/agent/executionjournal/journal.go:75-143 | Evidence answers for a command exactly when a Prepare of it would succeed without writing, with the same record; after any successful Prepare it answers with what Prepare returned |
| `Journal.EvidenceIsCompleted` | internal/agent/executionjournal/journal.go:99-143 | after a successful Complete the evidence carries exactly that result, no later Prepare or Complete changes it, and no other result is accepted |
| `Durable.WrittenThenLost` | internal/agent/executionjournal/journal.go:207-249 | a persist that reports success survives every power loss; one that fails after the rename shows afterwards either the new record or what was durable before; other records are untouched |
| `JournalStore.Module.HandleLease` | internal/agent/execution/module.go:100-161 | nothing executes unless Prepare succeeded, nothing is published unless it was recorded, and what is published and recorded is the backend's own result, or UNKNOWN for a backend error |
| `JournalOutcomes.HandleIff` | internal/agent/execution/module.go:128-161 | executed exactly when prepared; published exactly when recorded and sent; what is published and recorded is the backend's own result, and UNKNOWN when the backend returned an error |
| `JournalOutcomes.NewAttemptRecords` | internal/agent/execution/module.go:128-146 | whatever is left of a new attempt in memory, or on disk after any power loss, holds no other result than the one reported, and a published result is durable |
| `JournalHandling.HandleIsRun` | internal/agent/execution/module.go:100-161 | what handling a lease does to records, directory, executions and publications is a Start, Execute, Finish, Publish sequence of the run theorems |
| `JournalStore.Module.HandleVerification` | internal/agent/execution/module.go:163-208 | verification leaves journal and directory unchanged, and reports an absent record as absent |
| `JournalRuns.WriteBeforeExecute` | internal/agent/execution/module.go:128-134 | in every run that opens the journal only over directories that are firm about their records, every prepared or executed command has a durable record of the same command, attempt, digest and target, then and in every later state |
| `JournalOpen.WriteBeforeExecuteIff` | internal/agent/executionjournal/journal.go:174-205 | opening the journal is harmless to this, whatever follows, exactly when the directory is firm: no unsynced record that a power loss would remove or replace by another command's |
| `JournalOpen.UnfirmOpen` | internal/agent/executionjournal/journal.go:174-205 | from any other closed state, an Open leads to an execution without a durable record |
| `JournalOpen.ExecutedWithoutRecord` | internal/agent/executionjournal/journal.go:75-97 | such a run from the empty journal, and the power loss that removes the record of a command that ran |
| `JournalRuns.PublishedResultsAgree` | internal/agent/executionjournal/journal.go:99-125 | any two published results of one attempt agree, in every run that opens the journal only over directories that are settled about their results |
| `JournalOpen.AgreementIff` | internal/agent/executionjournal/journal.go:174-205 | opening the journal is harmless to agreement, whatever follows, exactly when the directory is settled: no unsynced result that a power loss would remove or replace by another |
| `JournalRuns.OnlyStartCreates` | internal/agent/executionjournal/journal.go:127-143 | only Prepare brings a new record into being; verification never does |
| `JournalOpen.UnsettledOpen` | internal/agent/executionjournal/journal.go:174-205 | from any closed state that is not settled, an Open can be followed by two different published results of one attempt |
| `JournalOpen.PublishedCanDisagree` | internal/agent/executionjournal/journal.go:174-205 | such a run from the empty journal |
| `RebindStore.Store.RecordVMAvailabilityBinding` | internal/persistence/postgres/availability_policy.go:286-325 | the method is the revision-1 transaction: created once, replayed exactly, or refused |
| `RebindOutcomes.BindIff` | internal/persistence/postgres/availability_policy.go:286-325 | the first binding takes responsibility and action from its policy; again it succeeds exactly for the same content and touches nothing |
| `RebindStore.Store.RecordVMAvailabilityRebindRequest` | internal/persistence/postgres/availability_rebind.go:69-117 | the method is the request transaction; it never moves the binding |
| `RebindOutcomes.RecordIff` | internal/persistence/postgres/availability_rebind.go:69-117 | a new request is recorded exactly when it is complete, names the current binding, and its target is current and active |
| `RebindStore.Store.DecideVMAvailabilityRebind` | internal/persistence/postgres/availability_rebind.go:133-251 | the method is the compare-and-set decision; the chain is kept |
| `RebindOutcomes.DecideIff` | internal/persistence/postgres/availability_rebind.go:133-251 | a new decision is made exactly while the request's source is the current binding, the target policy is current, active and of an allowed kind, and the workload is placed; the next revision has the source's placement and the target's policy, responsibility and action |
| `RebindOutcomes.DecideReplays` | internal/persistence/postgres/availability_rebind.go:139-153 | a decision that was made answers with itself and its binding, whoever asks |
| `RebindRuns.EveryRun` | internal/persistence/postgres/availability_rebind.go:133-251 | in every run the bindings of a workload are a gap-free chain 1..head, each naming its predecessor and its digest, with the current pointer at the head; every rebound revision has an allowed action and was made by the accepted decision on the request for exactly its source revision, digest and policy |
| `RebindOutcomes.BoundAsTarget` | internal/persistence/postgres/availability_rebind.go:175-223 | a revision above the first appears only with a decision on its own request, and holds the responsibility and action of the target policy |
| `RebindRuns.PlacementIsConstant` | internal/persistence/postgres/availability_rebind.go:219-223 | admission and allocation are the same along the whole chain |
| `RebindRuns.OneRebindPerRevision` | internal/persistence/postgres/availability_rebind.go:133-251 | however requests race or replay, at most one rebind is accepted per source revision over a whole run |
| `RebindRuns.DigestDeterminesChain` | internal/persistence/postgres/availability_rebind.go:219-225 | the digest of a binding determines every revision below it |
| `PlacementEvaluator.Evaluate` | internal/placement/evaluator.go:158-336 | a result is given exactly for well-formed requests, it is the specified one, it is eligible exactly when every bound holds, and then claims and request fit the host's true totals |
| `PlacementOutcomes.EvaluationIsAbout` | internal/placement/evaluator.go:215-336 | the evaluation names the authority's host and pool, covers exactly the request's requirements, is eligible exactly without reasons, and scores nothing otherwise |
| `PlacementOutcomes.ReasonsMean` | internal/placement/evaluator.go:233-327 | a reason is given exactly when what it says of the host or its capacity is so, capacity being claims and request against the counters without saturation, or when one of the requirements gives it |
| `PlacementEvaluator.ValidatePci` | internal/placement/evaluator.go:159-165 | comparing sorted neighbours finds every duplicate |
| `PlacementEvaluator.ValidateNetwork` | internal/placement/evaluator.go:166-201 | the loop accepts exactly complete requirements without a common port, IP or MAC identity |
| `PlacementEvaluator.ValidateStorage` | internal/placement/evaluator.go:202-214 | the loop accepts exactly complete requirements without a common volume or attachment |
| `PlacementEvaluator.ExtractCapacity` | internal/placement/evaluator.go:360-401 | the thread and page counters are the true totals over the available fragments modulo 2^64 |
| `PlacementCapacity.CapacityIs` | internal/placement/evaluator.go:360-401 | the same of the specified capacity, by its own recursion over fragments, threads and pools |
| `PlacementCapacity.MemoryIs` | internal/placement/evaluator.go:379-387 | the memory figures are those of the last available memory fragment |
| `PlacementCapacity.CountersAndTotals` | internal/placement/evaluator.go:360-401 | a counter is never above its true total, and equal to it exactly while the total is below 2^64 |
| `PlacementCapacity.EligibleTrulyFits` | internal/placement/evaluator.go:301-327 | eligible implies, for every snapshot, that claims and request fit the true thread, memory and page totals; while the totals fit their counters, eligibility is exactly that and the other conditions |
| `PlacementCapacity.PagesCanWrap` | internal/placement/evaluator.go:387-391 | two pools that together hold 2^64 pages count as none |
| `PlacementEvaluator.CapacityShortfalls` | internal/placement/evaluator.go:301-326 | the capacity checks give the specified reasons |
| `PlacementEvaluator.RequirementReasons` | internal/placement/evaluator.go:242-299 | the requirement loops accumulate the specified reasons |
| `PlacementEvaluator.SelectBest` | internal/placement/evaluator.go:339-353 | exactly the eligible candidates, each as often as given, by score descending and then host |
| `Placement.SaturatingSubtract` | internal/placement/evaluator.go:426-431 | the exact difference, or zero |
| `Placement.SaturatingAdd` | internal/placement/evaluator.go:433-439 | the exact sum, or the largest 64-bit number, although the sum is formed with wrap-around |
| `PlacementLaws.NoReasonIff` | internal/placement/evaluator.go:233-327 | no reason is recorded exactly when every condition holds and every bound holds without saturation, against the capacity counters |
| `PlacementLaws.CeilDivideExactIff` | internal/placement/evaluator.go:441-446 | the quotient is the true ceiling exactly when the sum inside it does not overflow |
| `PlacementLaws.EligiblePages` | internal/placement/evaluator.go:316-326 | an eligible request cannot overflow its conversion to KiB, and its page count is right exactly when rounding does not overflow, as for every page size up to 2^63 |
| `PlacementLaws.NoPagesAskedFor` | internal/placement/evaluator.go:316-326 | a page size of zero, or one that overflows the rounding, asks for no page |
| `PlacementLaws.ScoreExactIff` | internal/placement/evaluator.go:328-333 | the score is the weighted sum of what remains exactly while that fits a signed 64-bit integer |
| `PlacementCapacity.ScoreFits` | internal/placement/evaluator.go:328-333 | it fits for every host that lists at most 2^53 threads |
| `PlacementCapacity.ScoreCanRise` | internal/placement/evaluator.go:328-333 | with 2^54 listed threads the score is negative, and claiming them all raises it |
| `PlacementLaws.ClaimsOnlyTakeAway` | internal/placement/evaluator.go:291-333 | raising any claimed counter never creates eligibility and never raises the exact weighted sum |
| `PlacementCapacity.ClaimsLowerTheScore` | internal/placement/evaluator.go:291-333 | for a host that lists at most 2^53 threads, the score is exact and raising any claimed counter never raises it |
| `PlacementOrder.EvaluateIgnoresOrder` | internal/placement/evaluator.go:158-336 | the evaluation, digests included, is the same for every order of the requirements, and one order fails exactly when all do |
| `PlacementOrder.AnySortedArrangement` | internal/placement/evaluator.go:158-219 | however sorting breaks ties, the arrangement is accepted exactly when the canonical one is, and then it is the canonical one |
| `PlacementOrder.SelectRanksEligible` | internal/placement/evaluator.go:339-353 | Select is a ranking of exactly the eligible candidates |
| `PlacementOrder.SelectIsUnique` | internal/placement/evaluator.go:339-353 | with distinct hosts there is only one such ranking |
| `PlacementOrder.SelectIgnoresOrder` | internal/placement/evaluator.go:339-353 | with distinct hosts, selection does not depend on the order of the candidates |

## Left out

- ExecutionStore.Store.CreateExecutionCommand: does not hold the job row or compare its resource fields; a job conflict is not modelled, and nothing in the lease protocol reads the job.
- ExecutionStore.Store.AcquireCommandLease: does not write the outbox delivery intent that goes with a grant.
- SpoolStore.DurableSpool.DigestOfPending: gives the columns that are hashed, line by line, not the text that joins them.
- CleanupStore.Store.CompleteBackendCleanup: takes the verification state found for the command's attempt and digests as an input.
- StorageSafety.EvaluateStorageSafety: takes the policy's mode and the usability of the root proof as inputs.
* Job rows, job events, the outbox and delivery intents: they follow the command and carry no guard of their own.
* ConvergeImageIngestionCommand after a verified command, and the power-state projection of a verification, which is one boolean input.
* ExpireDueCommandLeases: a batch of ExpireCommandLease calls.
* The active-database check at the start of most transactions: when it fails, the transaction has no effect.
* Host authority arming, session admission and credential handling: their rows change by arbitrary steps.
* Payload decoding and identity checks before a lease or verification reaches the journal (`HandleLease`, `HandleVerification` start after them), and which backend is registered.
* Spool files: file modes, temporary files, the lock and the JSON encoding; a directory is a map with a sync state, and the size of a record is a function of its envelope. The duplicate check in load cannot fire, because a file's name fixes its message.
* Clock skew: the database clock is taken never to go back.
* MaterializeStorageSafetyProof and the policy lookup around the storage-safety verdict. The verdict covers the rows that were loaded; attachments without a full set of joined rows are not among them.
* Local-LVM cleanup operations, which share the claim tables, and the recovery checks that make an operation eligible, which are one boolean input.
* Progress of verification: message identifiers are fixed per attempt, so a later, different observation is refused. Only safety is stated.
* That a backend runs a command at most once: a duplicate lease delivery executes again after an idempotent Prepare.
* Joint capacity of several volumes on one backend, which Evaluate does not check.
* Inventory canonicalisation, OVN, HTTP, identity, transport and the command-line programs.
