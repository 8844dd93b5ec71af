# Email service: a verified model

The service polls IMAP mailboxes, stores what it finds there in threads of messages, uploads
attachments, finds contacts, and announces new messages through an Outbox and a broker. Several
instances share the mailboxes. This project models the parts whose correctness depends on
more than one function, and proves what they promise.

| file | models |
|---|---|
| `Distribution.dfy` | the plan that spreads profiles over instances |
| `Fencing.dfy` | ownership tokens of a profile and the writes they guard |
| `OutboxTable.dfy`, `OutboxProtocol.dfy`, `OutboxLeases.dfy`, `OutboxRelay.dfy` | the Outbox table, the protocol of any number of relays on it, the leases of each of them, and the control flow of one relay as a refinement of the protocol |
| `Search.dfy`, `Fetch.dfy` | windowed UID SEARCH and adaptive FETCH |
| `Polling.dfy`, `PollingRuns.dfy` | one poll of a mailbox, and any number of polls with recoveries |
| `Messages.dfy`, `Threading.dfy`, `Inbound.dfy`, `InboundEffects.dfy`, `InboundRuns.dfy`, `Redelivery.dfy`, `Deliveries.dfy`, `InboundHandler.dfy` | stored conversations, the thread of an email, the transactions, what they write column by column, all interleavings of workers, what a redelivered email finds, what an undisturbed delivery leaves, and the control flow of the handler as a refinement of the interleaving |
| `EndToEnd.dfy` | polls and handlers together |
| `Utf8.dfy`, `Cleaning.dfy`, `Event.dfy`, `Payload.dfy`, `WorstCase.dfy` | the text, the size and the limits of an event |
| `Permits.dfy` | polling slots, IMAP connection permits and cached sessions |
| `Options.dfy`, `Ordering.dfy` | optional values; stable sorting and compaction |

How the outside is modelled:

- A SQL statement or a `WithinTransaction` body is one atomic step. A worker keeps what it
  read between its steps, and may stop at any of them. A step that fails is a step that did
  not happen; a database call of a relay that reports an error may still have been applied.
- A server, a handler, a storage or a clock is a function parameter, a choice in a run, or an
  arbitrary value. What is assumed of it is a named predicate: `Polling.Honest` for the IMAP
  server (sections 2.3.1.1, 6.4.4 and 6.4.8 of RFC 3501), `Redelivery.Mailboxes` for
  the emails at its positions, `InboundHandler.OthersMayRun` for other workers, `OutboxProtocol.Enabled` for time (equal
  clock rates, a publish of at most twice the publish timeout).
- The relay and the handler are proved for every behaviour of the others and every failure of
  a call; what they achieve when nothing disturbs them (`Calm`, `Polling.Smooth`) is stated
  beside it, without the functions their steps are defined by.
- A run is a sequence of actions of which each is possible where it stands; theorems hold for
  every run. `Next`, `Possible` and `After` define runs in each state machine.
- Times are integers; zero is the zero time. UIDs are 32-bit and wrap around.

Where the code does not meet a natural reading of its promise, the exact condition is proved:

- Two relays never publish one row at once if and only if the lease is a whole number of
  milliseconds, because the SQL truncates it (`OutboxProtocol.TimedLeaseExclusion`).
- Between two rounds, the leases of a relay that counts them as recovered are exactly the rows
  of its claims that reported an error after taking them, as long as no recovery has taken
  them back (`OutboxLeases.OwnLeasesExact`); such a state is reached (`OutboxLeases.LostClaim`),
  and if claims that fail take nothing there is none (`OutboxLeases.NoOwnLease`).
- Once the handler has returned nil for an email, a redelivery changes nothing, at once and at
  any later time, in every run in which a mailbox position always holds the same email. For an
  email with a Message-ID this always holds; for one without, if and only if no unfinished
  email has the identifier that was generated for it as its own Message-ID
  (`Redelivery.RedeliveryExact`). Redelivery is always silent if and only if the mailboxes do
  not hold two copies of an email without a Message-ID and an email whose Message-ID is the
  identifier generated for one of the copies (`Redelivery.IdempotentIff`).
- The completion of an unfinished message is rolled back if and only if a part is pending or
  no event can be made for it (`Inbound.CompleteCommits`).
- "Oversized input is truncated, never rejected" holds for an email an event can describe if
  and only if the first character of its Message-ID fits the field limit
  (`Payload.RejectedIff`, `Payload.AccentRejected`).
- In every interleaving a blocked worker waits for more than running polls if and only if
  there are at least as many connections as pollers (`Permits.ConnectionsExact`).
- A cursor answers for what arrived after it began, and after a recovery for what is not
  older than the checkpoint; `PollingRuns.Lineage` says which, cursor by cursor. That is exact:
  any other message can be passed unconfirmed (`PollingRuns.OwedExact`).

## Model

| member | source | states |
|---|---|---|
| Distribution.PlanDistribution | internal/distribution/plan.go:22-96 | for distinct profile ids: applying the plan leaves the enabled profiles on live instances with loads that differ by at most one and no disabled profile owned; every other even assignment moves at least as many profiles; exactly the owned disabled profiles are released |
| Distribution.EvenIsAverage | internal/distribution/plan.go:61-68 | loads that differ by at most one are the same as loads of ⌊N/K⌋ or ⌈N/K⌉, in both directions |
| Distribution.QuotaBest | internal/distribution/plan.go:55-68 | exchange argument: giving the extra slot to the most loaded keeps at least as many profiles in place as any other level split |
| Distribution.PlannedBest | internal/distribution/plan.go:70-93 | the finished plan keeps at least as many owners as any even assignment |
| Distribution.Quotas | internal/distribution/plan.go:55-68 | quotas are level, add up to all enabled profiles, and no instance has a larger quota than a more loaded one |
| Distribution.KeepOwners | internal/distribution/plan.go:70-81 | each live owner keeps exactly the smaller of its load and its quota; a profile waits only when its owner is full or not live |
| Distribution.PickTarget | internal/distribution/plan.go:83-89 | while profiles wait, the chosen instance has the most spare quota, and has some |
| Distribution.AssignPending | internal/distribution/plan.go:83-93 | every instance ends with exactly its quota, and targets had spare quota from the start |
| Distribution.OneRound | internal/distribution/plan.go:22-96 | any plan with the promised properties, made on the result of another such plan, is empty: one round converges |
| Distribution.NothingToDo | internal/distribution/plan.go:22-96 | the plan is empty if and only if the owners are already even and no disabled profile is owned |
| Fencing.RuntimeStore.Assign | internal/store/postgres/email_profile_runtime_store.go:52-106 | an unknown profile or an empty instance is an error and changes nothing; a new owner gets the next generation, the same owner keeps its own, the cursor stays, no other row changes, and the returned token matches |
| Fencing.RuntimeStore.Unassign | internal/store/postgres/email_profile_runtime_store.go:108-119 | the row loses its owner and keeps its generation, so its token stops matching |
| Fencing.RuntimeStore.StartPoll | internal/store/postgres/email_profile_runtime_store.go:192-213 | succeeds exactly for the current token |
| Fencing.RuntimeStore.CompletePoll | internal/store/postgres/email_profile_runtime_store.go:215-282 | with the current token a given cursor is the stored one afterwards, owner and generation stay, and no other row changes; otherwise nothing changes |
| Fencing.SpentForever | internal/store/postgres/email_profile_runtime_store.go:52-119 | over any operations, a token that matches goes on matching or is spent, and a spent one stays spent |
| Fencing.TokensNeverRevive | internal/store/postgres/email_profile_runtime_store.go:52-119 | a token that stopped matching never matches again, whatever is assigned later |
| Fencing.OneOwnerPerGeneration | internal/store/postgres/email_profile_runtime_store.go:52-119 | two moments of one generation that both have an owner have the same owner |
| Fencing.CursorFenced | internal/store/postgres/email_profile_runtime_store.go:215-282 | over any history generations only grow, and a cursor is as it was or was stored by a poll whose token was current at its write |
| Fencing.LastCompletionWins | internal/store/postgres/email_profile_runtime_store.go:215-282 | the converse: after any history the stored cursor is that of the last completion that was current and brought one |
| Fencing.LatePollWritesNothing | internal/store/postgres/email_profile_runtime_store.go:215-282 | a poll that completes after its token was lost leaves every row as it is, at any later time |
| Fencing.RegainedIsNew | internal/store/postgres/email_profile_runtime_store.go:52-119 | an instance that regains a profile gets a new token; its old one does not match |
| OutboxTable.Store.Append | internal/store/postgres/outbox_store.go:31-71 | an invalid event is an error, a live row with the dedup key makes the append a no-op, otherwise a pending row is added |
| OutboxTable.Store.RecoverLeases | internal/store/postgres/outbox_store.go:78-85 | exactly the expired leases, and on request all of the owner's, become pending again |
| OutboxTable.Store.Claim | internal/store/postgres/outbox_store.go:87-160 | takes the first due rows in order, skipping locked ones, up to the limit; leases them for the truncated duration |
| OutboxTable.Store.MarkPublished | internal/store/postgres/outbox_store.go:162-172 | a row leased to the owner is published with the time of the call; no other row changes, and any other call changes nothing |
| OutboxTable.Store.Release | internal/store/postgres/outbox_store.go:174-198 | gives back exactly the listed rows that are leased to the owner |
| OutboxTable.Store.MarkFailed | internal/store/postgres/outbox_store.go:200-215 | a row leased to the owner fails with one more attempt and the reason cut to 1024; no other row changes, and any other call changes nothing |
| OutboxTable.Store.DeletePublishedBefore | internal/store/postgres/outbox_store.go:217-228 | deletes at most limit rows, only published ones past retention, and the oldest of them |
| OutboxProtocol.TimedLeaseExclusion | internal/outbox/relay.go:127-156 | in every run of any number of relays no row is inside two publish calls at once, if and only if the lease is a whole number of milliseconds |
| OutboxProtocol.LeasesOverRun | internal/outbox/relay.go:127-209 | over every run, each row a relay still holds or publishes is leased to it past its deadline |
| OutboxProtocol.LeasesExclude | internal/outbox/relay.go:145-209 | such leases exclude that two relays publish one row |
| OutboxProtocol.TruncatedLeaseOverlaps | internal/store/postgres/outbox_store.go:87-112 | for every sound configuration with a fractional millisecond, a run in which two relays publish one row |
| OutboxProtocol.LatePublish | internal/outbox/relay.go:127-156 | a relay may still be publishing when its whole lease has passed on its own clock |
| OutboxProtocol.Conservation | internal/outbox/relay.go:145-262 | every step keeps: each appended event is live or was deleted after a confirmed publish, published rows were confirmed, failed rows are rejected by the check, one live row per key |
| OutboxProtocol.NoEventLost | internal/outbox/relay.go:145-262 | in every run, an appended event is still in the table unchanged or was deleted after being confirmed; published implies confirmed, failed implies rejected by the check, attempts is 1 exactly for failed rows |
| OutboxRelay.Term.Pause | internal/outbox/relay.go:287-296 | the backoff grows between the two bounds; a term that ends does not wait |
| OutboxRelay.Term.Release | internal/outbox/relay.go:266-283 | giving rows back is a run of the protocol that ends idle; the belief about the own leases survives only success |
| OutboxRelay.Term.StopBatch | internal/outbox/relay.go:243-262 | a run of the protocol that ends idle with the own leases to be recovered; it waits only after a database error |
| OutboxRelay.Term.Record | internal/outbox/relay.go:194-198 | recording a result is a run of the protocol: the batch goes on with the rest, or the relay is idle with its leases to be recovered |
| OutboxRelay.Term.HandleRow | internal/outbox/relay.go:148-200 | one row through every branch is a run of the protocol; only an accepted row is sent, and it is if the batch goes on; undisturbed, a leased row in time gets its result and no other row changes |
| OutboxRelay.Term.Publish | internal/outbox/relay.go:147-203 | the whole batch, through every early exit, is a run of the protocol that ends idle; what was sent is the accepted part of a prefix, of the whole batch when it ends normally; undisturbed and in time it ends normally, and every row of it is published or has failed the check |
| OutboxRelay.Term.Claim | internal/outbox/relay.go:127-131 | a claim is a step of the protocol; rows it takes while reporting an error, and only those, are lost; without an error it has taken the first due rows and leased them |
| OutboxRelay.Term.Cycle | internal/outbox/relay.go:111-143 | a round, with others acting between any two statements, is a run of the protocol from idle to idle, from any state a run can reach; after it the leases of a relay that counts them as recovered are exactly the rows of its lost claims; an undisturbed round recovers the leases, claims the first due rows, sends those that pass the check, records every one of them and resets the backoff |
| OutboxRelay.OthersMayRun | internal/store/postgres/outbox_store.go:78-228 | any run in which the relay does nothing, of other relays, appends and cleanup, is covered by the interference a term assumes |
| OutboxLeases.LostOverRun | internal/outbox/relay.go:111-203 | over every run, a recovered relay knows all its leases but those of lost claims, and lost rows stay leased until a recovery takes them back |
| OutboxLeases.OwnLeasesExact | internal/outbox/relay.go:111-143 | own-lease invariant over every run of any number of relays: the leases of an idle, recovered relay are exactly the rows of its failed claims that nobody has taken back |
| OutboxLeases.NoOwnLease | internal/outbox/relay.go:111-143 | if no failed claim took rows, an idle, recovered relay has no lease |
| OutboxLeases.LostClaim | internal/outbox/relay.go:127-131 | a run after which an idle relay counts its leases as recovered and has one |
| OutboxLeases.ResultRecorded | internal/store/postgres/outbox_store.go:162-215 | recording as the holder of the lease publishes the row at that time, or fails it with one more attempt, and changes no other row |
| OutboxLeases.FinalForever | internal/outbox/relay.go:111-209 | over every run, a published or failed row stays as it is until it is deleted, and no relay that is not at work on it gets it again |
| OutboxLeases.RecordedOnce | internal/outbox/relay.go:147-203 | after a recorded result the relay never publishes that row again, whatever runs later |
| Search.SearchUids | internal/polling/sync.go:178-221 | ascending UIDs of the range; with a bound and a limit, the first of the required ones; bounded windows only; ends well if every window is answered and nothing is cancelled |
| Search.WindowEnd | internal/polling/sync.go:188-195 | a window never leaves the range, never wraps, and is full unless it is the last |
| Search.WindowedIsDirect | internal/polling/sync.go:166-221 | against an exact server the windows return the first min(limit + 1, n) of the ascending listing of the n matches, as one direct search would |
| Search.FirstIsPrefix | internal/polling/sync.go:204-206 | the first k of a set are a prefix of its listing, so the result is unique |
| Search.RangeIs | infra/mail/imap.go:219-247 | an answer in any order, with repetitions and foreign UIDs, becomes the ascending set of those in range |
| Fetch.FetchRawBatch | infra/mail/imap.go:315-386 | hands over a prefix of the request whatever order the responses have; positions it skips were not named; reports a truly descending response |
| Fetch.FetchRawSequential | infra/mail/imap.go:301-313 | equals the one-at-a-time reference, and ends well exactly if no single fetch breaks |
| Fetch.FetchAdaptive | infra/mail/imap.go:274-299 | handled UIDs ascend, were requested, are handled once; without errors every shown UID is handled, and where batch and single answers agree the result is the one-at-a-time reference; the mode turns sequential exactly after a descending response |
| Fetch.Session.FetchRaw | infra/mail/imap.go:274-299 | the same for the session, whose sequential mode is sticky |
| Fetch.DescendsIsReal | infra/mail/imap.go:315-386 | the running comparison with the last UID detects exactly a sequence that does not ascend |
| Polling.Deliver | internal/polling/sync.go:100-148 | only requested messages the handler accepted are recorded, with their own dates; without an error none that is still there is left out; a handler error means one was refused and those before it are recorded; a server that answers causes no error |
| Polling.AdvanceConfirmed | internal/polling/sync.go:152-164 | the loop stops exactly before the first UID that is not handled: the cursor is the last one before it, with the newest date of them and the old one, and nothing else changes |
| Polling.AdvancedIs | internal/polling/sync.go:152-164 | the cursor passes only confirmed UIDs, reaches the end when all are confirmed; its date is the newest of the confirmed prefix and the one before; nothing else changes |
| Polling.LastUid | internal/polling/sync.go:235-245 | nothing that was in the mailbox lies above it, also when the server reports no UIDNEXT |
| Polling.Classify | internal/polling/recovery.go:102-117 | splits the found UIDs exactly: set aside is what has a known date strictly before the checkpoint, to be handed over is all the rest |
| Polling.Read | internal/polling/sync.go:76-95 | the cursor is the last UID of the longest handled prefix of what the bounded search found within the limit, or the old one, with the newest date; more is set exactly for a longer result; an ordinary poll passes only what is confirmed, and without errors or a cut confirms everything that was there; a server that answers causes no error, and without an expunge the cursor catches up |
| Polling.Recover | internal/polling/recovery.go:62-130 | the same for a portion of a recovery, where what is older than the checkpoint counts as handled; range and checkpoint stay until, without an error and a cut, it ends at ToUID; no search is unbounded |
| Polling.Sync | internal/polling/sync.go:23-95 | every poll begins at the end, at a recovery or at its stored cursor as the mailbox demands; where it leaves the cursor is stated without the loop; when all goes well there is no error, and without an expunge a poll with more to come moves strictly forward, and one without has passed everything that was there; at the end of a mailbox, and in a recovery that finds nothing, the result is fixed |
| PollingRuns.RunKept | internal/polling/sync.go:23-164 | over every run of polls, mailbox changes, reassignments and crashes, each cursor has passed only confirmed messages of its lineage |
| PollingRuns.CursorSafety | internal/polling/sync.go:76-164 | in every run, a message still in the mailbox that a cursor answers for and has passed was confirmed, also for polls from stale cursors |
| PollingRuns.OwedExact | internal/polling/sync.go:36-74 | a message is owed by a lineage if and only if in no run a cursor of the lineage passes it unconfirmed |
| PollingRuns.StartSkips | internal/polling/sync.go:38-47 | for every message at or below its base, a run in which a first cursor passes it unconfirmed |
| PollingRuns.RecoverySkips | internal/polling/recovery.go:102-117 | for every message older than the checkpoint, a run in which a recovery passes it unconfirmed |
| PollingRuns.StartBySync | internal/polling/sync.go:38-47 | that first poll is what Sync returns with an honest server |
| PollingRuns.RecoveryBySync | internal/polling/sync.go:48-69 | that recovery is what Sync returns with an honest server |
| PollingRuns.RecoveryCoverage | internal/polling/recovery.go:12-142 | while a recovery lasts its checkpoint and ToUID are those it began with; once it ended every existing UID up to ToUID not older than the checkpoint was confirmed |
| PollingRuns.FloorNeverFalls | internal/polling/recovery.go:12-58 | another reassignment during a recovery keeps the checkpoint and starts over; one after it moves the checkpoint forward only |
| PollingRuns.SyncMayBegin | internal/polling/scheduler.go:143-171 | in every run each stored cursor meets what Sync requires, however stale it is |
| PollingRuns.SyncedIsPossible | internal/polling/sync.go:23-95 | whatever Sync guarantees is a step of a run |
| PollingRuns.ReadToEnd | internal/polling/worker.go:59-91 | polls of a mailbox at rest, one after the other, come to an end: the last cursor has passed every message and no recovery is left, and everything the first cursor owed was confirmed |
| Threading.KeepLastOccurrence | internal/inbound/persistence.go:217-231 | the two loops compute the specified list |
| Threading.KeptLastIs | internal/inbound/persistence.go:217-231 | the list holds exactly the values, each once, in the order of their last occurrences |
| Threading.LastAncestorDecides | internal/inbound/persistence.go:160-212 | of all stored messages of the scope that an email names, the strongest one decides: the original of a bounce, then In-Reply-To, then the References from the last one on; repetitions do not matter |
| Threading.RepliesDecide | internal/inbound/persistence.go:176-193 | without a stored ancestor the earliest sibling decides, one in a regular thread first, then by receipt, then by id; then the earliest reply to the email itself unless its identifier was generated; only then a new thread |
| Inbound.DeduplicationExact | internal/inbound/persistence.go:265-295 | the three lookups find nothing if and only if the insert violates none of the three unique indexes |
| Inbound.HandleKept | internal/inbound/persistence.go:41-155 | the first transaction never conflicts, and is rolled back if and only if a new, at once visible email has no event; it keeps all invariants, and leaves the email finished or a message of it to finish |
| Inbound.CompleteKept | internal/inbound/completion.go:183-232 | a completion that commits keeps all invariants from any stale snapshot and leaves the message ready or failed |
| Inbound.CompleteCommits | internal/inbound/completion.go:199-226 | it rolls back if and only if the message is processing and has a pending part or an event that is rejected |
| Inbound.SpendKept | internal/inbound/completion.go:261-293 | one attempt is counted; the message fails exactly when the budget is spent |
| Inbound.GiveUpKept | internal/inbound/completion.go:332-356 | giving up leaves the message finished and all invariants kept |
| Inbound.StoreKept | internal/store/postgres/email_message_attachment_store.go:131-153 | recording a file keeps all invariants |
| Inbound.SetContactKept | internal/store/postgres/email_thread_store.go:159-184 | an operator's decision keeps all invariants |
| InboundEffects.HandleStores | internal/inbound/persistence.go:41-155 | the first transaction changes nothing for a known email; for an unknown one the new row carries scope, kind, Message-ID, checksum, In-Reply-To, date, position and parts of the email column by column, in the thread that was found or a new one, hidden exactly while a file or a contact is missing, otherwise dated and announced |
| InboundEffects.SiblingJoins | internal/inbound/persistence.go:176-182 | after an email was stored, at any later time, another answer to the same unknown email joins its thread |
| InboundEffects.ParentJoins | internal/inbound/persistence.go:184-191 | and the email it answers joins its thread when it arrives later |
| InboundEffects.AnswerJoins | internal/inbound/persistence.go:169-174 | and an email that names it more strongly than any other joins its thread, whatever else it names |
| InboundEffects.CompleteWrites | internal/inbound/completion.go:183-232 | a completion that commits makes a processing message without pending parts ready, writes the answer to an undecided thread only, gives the thread the later date and announces the message, and changes nothing else |
| InboundEffects.GiveUpWrites | internal/inbound/completion.go:332-356 | a processing message fails and its position is recorded; a finished one and everything else stay as they are |
| InboundEffects.SpendWrites | internal/inbound/completion.go:261-293 | possible exactly for a processing message: one more attempt, and with the last one allowed it fails and is recorded; nothing else changes |
| InboundRuns.RunKept | internal/inbound/completion.go:79-149 | all invariants hold after every interleaving of deliveries, uploads, crashes, operator decisions and cleanup |
| InboundRuns.Lifecycle | internal/inbound/completion.go:181-232 | in every run: ready has no pending part, ready and eligible is the same as event appended, no event for an unready message, no undecided thread with a ready message, no regular message in a service thread |
| InboundRuns.ThreadsAndOutbox | internal/store/postgres/email_thread_store.go:224-239 | in every run last_message_at is set exactly when a ready message exists, one live row per dedup key, and no two messages clash on a unique index |
| InboundRuns.BoundedRetries | internal/inbound/completion.go:237-302 | in every run attempts never exceed the budget, processing has some left, and failed is the same as recorded |
| InboundRuns.OnlyUploadsSpend | internal/inbound/completion.go:237-302 | only a committed upload failure spends an attempt, one, of its own message |
| InboundRuns.FailureIsRecorded | internal/inbound/completion.go:332-356 | every move to failed commits with a quarantine record of the delivery that caused it |
| InboundRuns.EventWithReady | internal/inbound/outbox.go:36-111 | the step that makes an eligible message ready is the one that appends its event |
| InboundRuns.OperatorWins | internal/store/postgres/email_thread_store.go:124-184 | a decided contact is changed by an operator only |
| InboundRuns.DecisionStands | internal/store/postgres/email_thread_store.go:159-184 | what an operator decides is stored, and stands in every run until an operator decides on that thread again |
| InboundRuns.OneWay | internal/store/postgres/email_message_attachment_store.go:131-153 | from any state on, a finished message keeps its state, a stored file stays, a skipped part never gets one, and the date of a thread never moves back |
| InboundRuns.ConfirmedIsSettled | internal/inbound/handler.go:28-32 | in every run a confirmed delivery is settled: a finished message shares an identity of the parsed email, or a record has the position of one that was not parsed |
| Redelivery.RedeliveryExact | internal/inbound/persistence.go:39-94 | idempotence in every run over fixed mailboxes: at any time after nil a redelivery returns nil and changes nothing, always for an email with a Message-ID, and for one without if and only if no unfinished email has its generated identifier as Message-ID |
| Redelivery.IdempotentIff | internal/inbound/persistence.go:262-295 | redelivery is silent in all runs over the mailboxes if and only if these hold no two copies of an email without Message-ID together with an email whose Message-ID was generated for one of them |
| Redelivery.BorrowedRun | internal/inbound/persistence.go:288-294 | for every such collision, a run of two workers after which the redelivery of a confirmed copy is not silent |
| Redelivery.RunFaithful | internal/inbound/mime_parser.go:80-85 | in every run over the mailboxes each stored message has the identity of the email at some position |
| Redelivery.NeverTwice | internal/inbound/persistence.go:39-94 | corollary: an email whose finished message carries its Message-ID is confirmed without change in every state of every run |
| Redelivery.Idempotent | internal/inbound/persistence.go:39-94 | whatever the mailboxes hold, a worker that runs alone from its first transaction to nil leaves a state in which a redelivery changes nothing |
| Redelivery.SilentInMailboxes | internal/inbound/persistence.go:60-87 | the state-level form: with a finished message of the email, the first transaction confirms without change if and only if its generated identifier is not borrowed |
| InboundHandler.BuildAttachments | internal/inbound/persistence.go:354-376 | the loop builds the manifest: skipped parts skipped, all others pending, in order |
| InboundHandler.HasPendingAttachments | internal/inbound/persistence.go:378-386 | true exactly if a part is pending |
| InboundHandler.Tables.MarkReady | internal/store/postgres/email_message_store.go:118-147 | a processing message without pending parts becomes ready, any other keeps its state; the state is returned, and nothing else changes |
| InboundHandler.Tables.IncrementAttempts | internal/store/postgres/email_message_store.go:164-181 | one more attempt exactly for a processing message, which is returned; otherwise an error without a change |
| InboundHandler.Tables.MarkFailed | internal/store/postgres/email_message_store.go:149-162 | fails exactly a processing message, and changes nothing else |
| InboundHandler.Tables.ResolveContact | internal/store/postgres/email_thread_store.go:126-154 | writes exactly to a regular thread that is pending or unavailable, and changes nothing else |
| InboundHandler.Tables.AdvanceLastMessage | internal/store/postgres/email_thread_store.go:224-239 | the date of the thread becomes the later of the old one and the new one, and nothing else changes |
| InboundHandler.Tables.MarkStored | internal/store/postgres/email_message_attachment_store.go:131-153 | a pending part has the file of the upload; any other part and everything else stay as they are |
| InboundHandler.Tables.SetContactManually | internal/store/postgres/email_thread_store.go:159-184 | the decision of an operator is written to any regular thread |
| InboundHandler.Tables.WriteEvent | internal/inbound/outbox.go:36-111 | an error exactly for a missing message and for an eligible one that is not ready or has no event; otherwise one row is added for an eligible message without a live one |
| InboundHandler.Tables.Handle | internal/inbound/persistence.go:41-94 | the transaction commits what HandleStores states or changes nothing; unfinished work is returned exactly for a processing message, with the snapshot of its thread |
| InboundHandler.Tables.Persist | internal/inbound/persistence.go:99-155 | thread, message and event are written together, the row column by column as HandleStores states |
| InboundHandler.Tables.MakeReady | internal/inbound/completion.go:183-232 | commits the completion that CompleteWrites states or changes nothing |
| InboundHandler.Tables.Spend | internal/inbound/completion.go:261-293 | commits the attempt that SpendWrites states or changes nothing |
| InboundHandler.Worker.Complete | internal/inbound/completion.go:79-149 | with others doing anything between any two steps, the completion is a run of the interleaving, and nil means a confirmation; undisturbed, the parts have their files up to the first that cannot be uploaded, which gives the message up or costs an attempt, and without one the message is shown |
| InboundHandler.Worker.UploadFailed | internal/inbound/completion.go:237-302 | every branch is a run of the interleaving; an interruption changes no table; undisturbed, a rejection gives the message up, any other failure costs an attempt; nil means a confirmation |
| InboundHandler.Worker.FindContact | internal/inbound/contacts.go:31-78 | an answer exactly where one is needed: none without a sender, unavailable without an answer, otherwise what was found; an error only where one was needed |
| InboundHandler.Worker.Persist | internal/inbound/persistence.go:41-94 | the first transaction and what follows are a run of the interleaving; nil means a confirmation; undisturbed, an unfinished message is completed |
| InboundHandler.Worker.HandleMessage | internal/inbound/quarantine.go:37-62 | a delivery from its arrival to its return is a run of the interleaving with any behaviour of the others, and nil means that it is settled; undisturbed, an email that cannot be parsed is recorded, and any other stored and completed |
| Deliveries.DeliveredInFull | internal/inbound/completion.go:76-149 | an undisturbed delivery of a new email whose files are all accepted returns nil, and the email is ready with the file of each upload and its event |
| InboundHandler.OthersMayRun | internal/inbound/completion.go:79-149 | any run in which the worker does nothing is covered by the interference it assumes |
| EndToEnd.CursorSafety | internal/inbound/handler.go:28-32 | in every joint run of polls and handlers, a message still in the mailbox that a cursor answers for and has passed is settled: a ready or failed message shares an identity, or a quarantine record was committed |
| Utf8.DecodeEncoded | internal/event/inbound_message.go:444-446 | decoding an encoded character gives it back, whatever follows |
| Utf8.EncodeDecoded | internal/event/inbound_message.go:444-446 | what is decoded is the one encoding of its character: no overlong forms, no surrogates |
| Utf8.ValidUnchanged | internal/event/inbound_message.go:444-446 | valid text is not changed |
| Utf8.OneReplacement | internal/event/inbound_message.go:444-446 | a run of invalid bytes between valid texts becomes one replacement character |
| Utf8.FittingIs | internal/event/inbound_message.go:459-468 | the longest fitting prefix ends at the last byte position within the limit at which a character starts |
| Cleaning.Clean | internal/event/inbound_message.go:444-469 | the cut loop returns the longest prefix of the prepared text that fits, and tells exactly whether it was cut |
| Cleaning.MappedIs | internal/event/inbound_message.go:447-457 | character by character: printable ones and tabs stay, line breaks stay in a body, any other control is a space in a single line and dropped in a body |
| Cleaning.CutIsExact | internal/event/inbound_message.go:459-468 | cut means something is missing and the next character would not fit |
| Cleaning.CleanTwice | internal/event/inbound_message.go:444-469 | cleaning clean text changes nothing |
| Cleaning.Doubles | internal/event/inbound_message.go:357-368 | a character at most doubles in JSON if and only if it is not one of the controls that take six; U+2028 and U+2029 included |
| Cleaning.TextLength | internal/event/inbound_message.go:444-469 | cleaned text takes at most two bytes for each allowed one, and two quotes |
| Cleaning.EmptyIff | internal/event/inbound_message.go:431-440 | a non-empty header value becomes empty if and only if its first character does not fit |
| Event.NoOverflow | internal/event/inbound_message.go:87-148 | for limits in range the sum stays within 64 bits |
| Event.ItemsBound | internal/event/inbound_message.go:139-140 | a list takes at most its items at the longest and the commas between them |
| Payload.Addresses | internal/event/inbound_message.go:370-394 | the first rows of exactly that kind in ordinal order, stable, each with its cleaned address and name; the flag is set exactly if one is missing or cut |
| Payload.OrdinalOrder | internal/event/inbound_message.go:371-377 | that order is ascending, loses and adds nothing, and is stable |
| Payload.Attachments | internal/event/inbound_message.go:397-428 | the first stored attachment parts in position order, stable, each with its file id, size, cleaned name and type; the flag is set exactly if one is missing or cut |
| Payload.PositionOrder | internal/event/inbound_message.go:398-405 | that order is ascending, loses and adds nothing, and is stable |
| Payload.NewEnvelope | internal/event/inbound_message.go:244-277 | field by field: each of from, sender, reply_to, to and cc lists the rows of its own kind, subject, In-Reply-To, Message-ID and body are the cleaned columns of those names, ids, contact, flow and times are the stored ones |
| Payload.Render | internal/event/inbound_message.go:236-345 | each error exactly under its condition, for an event that tells each column under its own name; under accepted limits the size guard is unreachable |
| Payload.PayloadBound | internal/event/inbound_message.go:59-148 | under accepted limits every complete event takes at most WorstCaseSize, which is at most MaxPayloadSize |
| Payload.RejectedIff | internal/event/inbound_message.go:235-279 | a describable email is accepted if and only if the first character of its Message-ID fits |
| Payload.AccentRejected | internal/event/inbound_message.go:322-323 | with a one-byte field limit, any Message-ID that starts with an accented letter rejects the event of an otherwise describable email |
| WorstCase.WorstCaseReached | internal/event/inbound_message.go:85-148 | some email takes exactly WorstCaseSize |
| WorstCase.LimitsExact | internal/event/inbound_message.go:59-83 | Validate accepts limits in range if and only if no describable email exceeds MaxPayloadSize |
| Permits.PermitAccounting | internal/polling/worker.go:93-238 | in every interleaving the used permits are the cached sessions, the connecting workers and the closing sessions, never above the limit |
| Permits.BlockedByIdleOrClosing | internal/polling/worker.go:146-195 | with enough connections, a blocked worker implies that an idle or a closing session holds a permit |
| Permits.EvictionFreesOne | internal/polling/worker.go:169-195 | after an eviction attempt a permit is free or being freed |
| Permits.LastUseKnown | internal/polling/worker.go:169-205 | in every interleaving a cached session has the time of the last poll that opened or reused it, so the one that is evicted was used longest ago |
| Permits.TooFewConnections | config/config.go:327-329 | for every configuration with fewer connections than pollers, a run in which a worker waits for running polls alone |
| Permits.ConnectionsExact | config/config.go:327-329 | in every interleaving no worker waits for running polls alone, if and only if there are at least as many connections as pollers |
| Permits.Scheduler.TryStart | internal/polling/scheduler.go:174-191 | starts exactly when the profile is not running and a slot is free |
| Permits.Scheduler.EvictForCapacity | internal/polling/worker.go:169-195 | closes the idle session used longest ago if there is one, never a polling one; its choice and effect are an eviction step of the interleaving |
| Permits.Scheduler.CloseIdleSessions | internal/polling/scheduler.go:207-221 | removes exactly the idle sessions past their timeout, and each removed one is closing |
| Permits.Scheduler.CloseAllSessions | internal/polling/scheduler.go:276-285 | every session is closing |

## Left out

- Network clients, the wire formats of IMAP, SMTP, RabbitMQ and the storage and contacts services: unknown calls with stated assumptions.
- MIME parsing and the text of quarantine records: a parsed email is an arbitrary value with the position of its delivery.
- OAuth, encryption, profile management, gRPC handlers and configuration loading: no property that spans functions.
- Leader election and the watch loop of the distributor: any number of relays may overlap instead.
- The profile lock and transaction isolation: transactions are atomic. `EnsureEmailProfileAssignment` takes no lock and is an error that may occur at any point.
- Strings.Map and ToValidUTF8 of the Go library, and the JSON encoder: modelled by their documented results, the encoder by its lengths only; the event id is always set.
- Recipients of a message, subjects and bodies in the message table: they decide nothing in the lifecycle.
- Liveness among others: that a poll, a batch or a delivery gets through is proved for one that nobody disturbs; that a blocked worker gets a permit is not.
- Several mailboxes of one profile: a run has one mailbox, and a cursor of another one begins at the end like a missing one.
- A profile edited to another account whose mailbox has the same UIDVALIDITY: a position holds one email.
- Collisions of SHA-256 between generated identifiers: two positions never share one.
- PollingRuns.RecoveryBySync: not for a checkpoint one day after the zero time and not at the top UID, where the zero values of the search and of UIDNEXT have other meanings.
- PollingRuns.StartBySync: not at the top UID, where UIDNEXT does not fit its type.
- PollingRuns.FloorNeverFalls: for checkpoints after the zero time, because a zero date means that there is none.
