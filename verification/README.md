# A verified model of the bridge and gateway protocols

The project models the durable-state protocols of the repository in Dafny and proves properties of
their whole runs: crashes, interleavings, reordered deliveries and restarts included.

- **Durable event outbox** (`Outbox*.dfy`, `BridgeOutbox.dfy`). A directory with durable contents and
  unsynced operations; a crash keeps the synced contents and any subset of the later operations. The
  outbox is a step machine (queue an operation, run it with any outcome of each file call, sync the
  directory, lose the process or the power) and a class whose methods are proved to be runs of it.
- **Subscriber protocol** (`BridgeServer*.dfy`). Clients, one canonical subscriber, replay with a
  queue, and acknowledgements, on top of the outbox machine.
- **Task relay** (`Relay*.dfy`). Idempotent claims, leases with fencing tokens, any number of workers;
  and the request limit per peer.
- **Reconnect budget** (`Connect*.dfy`). Sliding windows, exhaustion with probes, the
  needs-human hold, the saved file, the Python twin, and the reconnect loop.
- **Provider events** (`Dedupe*.dfy`, `Membership.dfy`). Handlers chained per key over a bounded cache
  of marks, and the pairing of the two native copies of a membership change.
- **Bounded stores** (`MessageReference*.dfy`, `PollVotes.dfy`, `PollStore.dfy`).
- **Pure structure** (`ThreadFrame.dfy`, `EventIdentity.dfy`, `EventKeys.dfy`, `PercentEncoding.dfy`,
  `Untrusted.dfy`, `Envelope.dfy`).

Beside what every run keeps, the files named `…Outcomes.dfy` and `EventKeys.dfy` say what each operation
comes to: which appends, leases, subscriptions, handlers and connections succeed, and which do not.

Clocks are explicit numbers that do not go back. Random ids are counters or parameters that are
assumed fresh. JSON is a value that reads back as written. Digests are abstract functions or the
values they are taken of. File calls may fail at every point where the source awaits them.

`dafny verify dfyconfig.toml` checks everything.

## Findings

- **An appended event can be lost.** `append` may resolve although no record of the event can be
  loaded after a crash: when a rename fails, and the read-back that should remember the staged file
  fails too, the staged file stays behind under a sequence number that is given out again.
  `OutboxRecovery.UnrecoveredFaultLosesEvent` builds the run for any two replayable events. In every
  run, a resolved append is committed exactly when the event is well-formed, fits the frame, has a
  safe sequence number, and its record is not a staged one shadowed by such a file
  (`OutboxRecovery.ResolvedIsCommitted`); a record that was renamed never is. What is committed is
  never lost (`OutboxDurability.CommittedSurvivesCrash`, `OutboxRecovery.ResolvedSurvives`).
- **A late acknowledgement can take an event out of a replay.** The acknowledgement of a connection
  that is gone by then may run between the subscription of the next connection and its snapshot
  (`BridgeServerLateAck.LateAckSkipsReplay`). `BridgeServerSent.PendingUnsentIff` gives the exact
  condition, event by event: an event pending at subscription stays unsent if and only if it has no
  entry when the snapshot is taken and is not announced again, and only an acknowledgement of that
  very event that was waiting at subscription can bring this about.
- **A day can hold more than `perDay` attempts.** The comment in `connect_budget.ts:11-12` gives `perDay`
  per 24 hours and a probe per interval once they are spent; a window can hold both. `perDay` is kept
  exactly when the time a day's attempts take at the hourly limit and one probe interval add up to at
  least 24 hours
  (`ConnectBudgetTight.KeepsPerDayIff`); with the default limits it does not. The exact maximum is
  `ConnectBudgetTight.MostInDay`, for every budget.
- **Retractions make the order of votes matter.** Deleting a vote forgets its time. The stored votes
  are independent of delivery order exactly under the condition of `PollVotes.OrderFreeIff`.
- **A membership stub captured again after its signal failed waits twice**, and two updates are then
  given its change id (`Membership.RetryGivesThirdCopy`); for distinct copies this cannot happen
  (`Membership.AtMostTwoCopies`), and on any run an id is taken over at most as often as it was opened
  (`Membership.TakersAtMostOpeners`).

## Model

| member | source | states |
|---|---|---|
| `OutboxDirectory.CrashOrigin` | packages/bridge/src/outbox.ts:483-498 | whatever is in the directory after a crash was there durably or is put there by an operation that had not been synced |
| `OutboxDirectory.ApplyAllUntouched` | packages/bridge/src/outbox.ts:483-498 | a file that no unsynced operation touches is in the directory after any crash, unchanged |
| `OutboxDirectory.CrashExtremes` | packages/bridge/src/outbox.ts:483-498 | a crash may keep every unsynced operation or none of them |
| `OutboxDirectory.SyncedSurvives` | packages/bridge/src/outbox.ts:488-491 | a sync changes nothing that is seen, and after it every crash keeps everything |
| `OutboxLoad.LoadKeepsInvariant` | packages/bridge/src/outbox.ts:241-320 | for any directory: every file gets exactly one verdict, the loaded entries are the files with the verdict loaded, and their sequences and event ids are distinct |
| `OutboxLoad.LoadableIff` | packages/bridge/src/outbox.ts:252-300 | a file is accepted, as far as it alone is concerned, if and only if it is named and filled as an append names and fills a record: replayable, within the frame, with a safe sequence |
| `OutboxLoad.RejectedIs` | packages/bridge/src/outbox.ts:252-300 | a bad file is rejected for its size if and only if nothing but its size is wrong with it; every other bad file is quarantined |
| `OutboxLoad.NextAfter` | packages/bridge/src/outbox.ts:314-318 | the next sequence after a load exceeds every loaded one and is at least 1 |
| `OutboxLoad.EntriesOf` | packages/bridge/src/outbox.ts:314-318 | the entry map holds exactly the loaded entries, each under its event id |
| `OutboxLoad.FinalWins` | packages/bridge/src/outbox.ts:241-320 | a valid final file is accepted whatever staged files there are, unless another final file has its number or event |
| `OutboxLoad.UnbeatenIsLoaded` | packages/bridge/src/outbox.ts:241-320 | a valid record is accepted, or another of its event is, unless a valid record of another event has its number and comes first |
| `OutboxLoad.BeatenCanBeLost` | packages/bridge/src/outbox.ts:301-311 | that exception is real: listed first, the other record makes the event unknown |
| `OutboxLoad.CleanLoadsAll` | packages/bridge/src/outbox.ts:241-320 | valid files without clashes are all loaded |
| `OutboxLoad.SecondLoadChangesNothing` | packages/bridge/src/outbox.ts:241-320 | loading what a load left, in any listing order, removes no file and gives the same entries |
| `OutboxLoad.InterruptedLoad` | packages/bridge/src/outbox.ts:241-333 | leaving out any files that added nothing to a load, as one that was interrupted while moving them away does, gives the same loaded entries |
| `OutboxDurability.StepKeepsInv` | packages/bridge/src/outbox.ts:463-599 | every step, with every outcome of its file calls, keeps each committed event held on disk, whatever unsynced operations a crash drops |
| `OutboxDurability.CommittedSurvivesCrash` | packages/bridge/src/outbox.ts:483-599 | no loss: in every run, after any crash at any point, the load accepts a record of every committed event |
| `OutboxDurability.CommittedUntilAcked` | packages/bridge/src/outbox.ts:587-599 | over any run with any crashes, a committed event stays committed until an ack of it takes effect after that |
| `OutboxRecovery.ResolvedIsCommitted` | packages/bridge/src/outbox.ts:500-577 | in every run, whatever failed before: an append that resolves at a sync is committed if and only if its event is replayable, fits the frame and has a safe sequence, and its record is not a staged one shadowed by an unknown staged file of another event with its number; a renamed record never is |
| `OutboxRecovery.ResolvedSurvives` | packages/bridge/src/outbox.ts:483-599 | from the resolved append on: under that condition the event is loaded after every crash at any later point of any run, unless it is acked in between |
| `OutboxRecovery.ShadowNeedsFault` | packages/bridge/src/outbox.ts:500-571 | no record is shadowed unless some read-back or unlink after a failed append failed as well |
| `OutboxRecovery.UnrecoveredFaultLosesEvent` | packages/bridge/src/outbox.ts:552-571 | for any two replayable events there is a run in which a failed rename with failed read-back makes the load after a crash drop an event whose append resolved |
| `OutboxRecovery.EmptyOutboxIsInitial` | packages/bridge/src/outbox.ts:210-320 | that run starts from an outbox that was just opened on an empty directory |
| `OutboxRecovery.StepKeepsAgreement` | packages/bridge/src/outbox.ts:500-577 | every step, whichever of its file calls fail, keeps memory and directory in agreement: each remembered record is on disk and every loadable final file is remembered; while recovery succeeds every loadable staged file is too |
| `OutboxWriter.StepKeepsOrder` | packages/bridge/src/outbox.ts:463-498 | steps neither lose, repeat nor reorder queued operations; only a sync settles, and it settles its whole batch |
| `OutboxWriter.SettledInOrder` | packages/bridge/src/outbox.ts:463-498 | in every run operations are settled once and first in first out, and a waiting operation has an active writer |
| `OutboxWriter.RoundsStep` | packages/bridge/src/outbox.ts:483-498 | no step lengthens the wait of an operation, and every sync shortens it |
| `OutboxWriter.SettledWithinRounds` | packages/bridge/src/outbox.ts:483-498 | an operation with n others waiting before it is settled within n / 32 + 1 syncs after the one in progress, whatever else is queued |
| `OutboxWriter.WriterCanGo` | packages/bridge/src/outbox.ts:463-498 | as long as an operation is unsettled the writer has a step, whatever its file calls come to |
| `OutboxOutcomes.AppendSucceeds` | packages/bridge/src/outbox.ts:529-576 | an event that fits, has a new id and meets no fault is appended: memory holds it under its id with the next sequence, its final file holds it, and no staged file is left |
| `OutboxOutcomes.AppendRefuses` | packages/bridge/src/outbox.ts:533-541 | an event that is too large, or that is known with another payload, is refused and nothing changes |
| `OutboxOutcomes.AppendAgain` | packages/bridge/src/outbox.ts:537-543 | an event that is known already is answered with the stored one and nothing is written |
| `OutboxOutcomes.SameEventIs` | packages/bridge/src/outbox.ts:138-153 | times, sizes and the ignored part of the payload do not make a known event another one; the rest of the payload does |
| `OutboxOutcomes.AppendKeepsOthers` | packages/bridge/src/outbox.ts:529-576 | whatever an append comes to, other events keep their entries and files of other sequences stay as they are |
| `OutboxOutcomes.StagedIsKept` | packages/bridge/src/outbox.ts:552-571 | after a failed close or rename a record that can be read back is remembered under its staged file, and its sequence is not given out again |
| `OutboxOutcomes.FaultFails` | packages/bridge/src/outbox.ts:552-571 | any other fault fails the append without touching memory, and leaves at most the temporary file |
| `OutboxOutcomes.AckRemoves` | packages/bridge/src/outbox.ts:587-599 | an ack of a known event removes its entry and its file and no other |
| `OutboxOutcomes.AckChangesNothing` | packages/bridge/src/outbox.ts:587-599 | an ack of an unknown event, or one whose file cannot be removed, changes nothing and says which |
| `OutboxOutcomes.OutcomeIsSettled` | packages/bridge/src/outbox.ts:483-498 | with anything queued or run in between, an operation is settled with what it came to if the sync of its batch succeeds, and rejected if not |
| `OutboxOutcomes.AppendResolves` | packages/bridge/src/outbox.ts:483-576 | so in every run a queued append of a new event that fits and meets no fault resolves with that event at the next successful sync |
| `OutboxOutcomes.AppendCommits` | packages/bridge/src/outbox.ts:463-576 | from the queue to the directory: in an idle outbox a well-formed new event is resolved and committed in four steps |
| `Outbox.TakeBatch` | packages/bridge/src/outbox.ts:486 | a batch is the front of the queue: 32 operations, or all of them |
| `Outbox.Settle` | packages/bridge/src/outbox.ts:488-495 | every operation of the batch is settled, in order: with its outcome when the sync succeeded and the operation did, rejected otherwise |
| `BridgeOutboxClass.BridgeOutbox.Load` | packages/bridge/src/outbox.ts:241-320 | the loading loop leaves the object and the directory in the reboot state of the step machine |
| `BridgeOutboxClass.BridgeOutbox.Enqueue` | packages/bridge/src/outbox.ts:463-481 | queues the operation behind all others, and schedules the writer exactly when it was idle |
| `BridgeOutboxClass.BridgeOutbox.AppendNow` | packages/bridge/src/outbox.ts:529-576 | the append body with every outcome of its file calls is the transition that `AppendSucceeds`, `AppendRefuses`, `AppendAgain`, `StagedIsKept` and `FaultFails` describe case by case |
| `BridgeOutboxClass.BridgeOutbox.RememberStaged` | packages/bridge/src/outbox.ts:500-522 | a staged record is remembered unless its event already is, and the next sequence moves past it |
| `BridgeOutboxClass.BridgeOutbox.AckNow` | packages/bridge/src/outbox.ts:589-598 | the ack body is the specified transition: the file is gone before the entry is |
| `BridgeOutboxClass.BridgeOutbox.CommitWrites` | packages/bridge/src/outbox.ts:483-498 | both loops of the writer, with any outcome of each operation and sync and anything enqueued during each wait, are a run of the step machine that ends idle with an empty queue |
| `BridgeOutboxClass.BridgeOutbox.CommitBatch` | packages/bridge/src/outbox.ts:485-495 | one batch and its sync, with arrivals in every wait, are steps of the machine |
| `BridgeServer.NoResend` | packages/bridge/src/server.ts:681-697 | nothing sent from the snapshot is sent again from the replay queue |
| `BridgeServer.ReplaySendsAll` | packages/bridge/src/server.ts:681-703 | what a replay sends on a connection: with no send refused, every event of the snapshot and of the queue |
| `BridgeServerReplay.StepKeepsInv` | packages/bridge/src/server.ts:349-405 | every step of server, writer and clients keeps one subscriber, acks entitled by delivery, and every subscribed client served or excused |
| `BridgeServerSent.ReplayComplete` | packages/bridge/src/server.ts:349-374 | take any event pending or committed at any moment at which the connection is subscribed: with its replay over, nothing refused and no announcement of the event outstanding, it has been sent on the connection; except when its own ack by another connection was waiting at subscription and has taken effect since |
| `BridgeServerSent.PendingUnsentIff` | packages/bridge/src/server.ts:349-391 | the exact condition: an event pending at subscription is unsent on an open connection with nothing refused if and only if it has no entry when the snapshot is taken and is not announced again; and that takes an ack of this event by an earlier connection, waiting at subscription, that took effect before the snapshot |
| `BridgeServerSent.StepKeepsCommittedDue` | packages/bridge/src/server.ts:661-679 | every step keeps: each committed event is owed to each subscriber or its announcement is outstanding |
| `BridgeServerReplay.OwedIsSent` | packages/bridge/src/server.ts:681-703 | what is owed to a subscriber whose replay is over and to whom nothing was refused has been sent, up to that exception |
| `BridgeServerReplay.KeptUntilSubscriberAcks` | packages/bridge/src/server.ts:376-405 | over any later run with crashes, a committed event stays committed until, after that, a connection that was the subscriber and had been sent it acks it |
| `BridgeServerLateAck.LateAckSkipsReplay` | packages/bridge/src/server.ts:388-391 | the exception is real: a run in which an open, fully replayed connection was never sent an event pending at its subscription |
| `BridgeServerOutcomes.ReplayRefusedIff` | packages/bridge/src/server.ts:681-703 | a replay leaves the connection marked as refused exactly when it was before or one of its sends was not taken |
| `BridgeServerOutcomes.SentIdsAre` | packages/bridge/src/server.ts:681-703 | the ids sent from a snapshot are exactly those of the sends that were taken |
| `BridgeServerOutcomes.BroadcastReaches` | packages/bridge/src/server.ts:671-678 | a persisted event goes to the subscriber and no other: sent at once, or queued while its replay runs |
| `BridgeServerOutcomes.SubscribeAccepted` | packages/bridge/src/server.ts:349-373 | a first subscription is accepted when no other connection is subscribed, and its replay begins |
| `BridgeServerOutcomes.SubscribeRefused` | packages/bridge/src/server.ts:349-373 | it is refused while another connection is the subscriber, and repeating it changes nothing |
| `BridgeServerOutcomes.NextIsAccepted` | packages/bridge/src/server.ts:349-373 | after the subscriber has closed, the next connection that asks is accepted and gets its replay |
| `BridgeServerOutcomes.PublishQueues` | packages/bridge/src/server.ts:661-665 | a published event is queued for the outbox with the frame limit |
| `BridgeServerOutcomes.AckQueued` | packages/bridge/src/server.ts:376-393 | an ack of the subscriber is queued for an event it was sent or has acknowledged before; any other changes nothing |
| `BridgeServerOutcomes.ReplyAcknowledges` | packages/bridge/src/server.ts:393-402 | the answer to an ack lets the same ack be taken again |
| `BridgeServerOutcomes.AckEndsEvent` | packages/bridge/src/server.ts:376-402 | with an idle outbox the ack of a pending event that was sent removes it in four steps and leaves its answer to run |
| `BridgeServerOutcomes.WakeupsFailure` | packages/bridge/src/server.ts:664-669 | an append that is rejected is noticed by the server |
| `BridgeServerOutcomes.FailureStopsIntake` | packages/bridge/src/server.ts:661-711 | and from then on nothing more is published |
| `BridgeServerClass.Server.SubscribeEvents` | packages/bridge/src/server.ts:349-373 | subscribing is the subscribe step: refused while another connection is canonical, replay only the first time |
| `BridgeServerClass.Server.ReplayToClient` | packages/bridge/src/server.ts:681-697 | both send loops are the replay step, with any outcome of each send |
| `BridgeServerClass.Server.BroadcastReplayable` | packages/bridge/src/server.ts:672-678 | the loop over all clients delivers to, or queues for, the canonical subscriber only |
| `BridgeServerClass.Server.AckEvent` | packages/bridge/src/server.ts:376-391 | an ack reaches the outbox exactly when the connection is the subscriber and was sent or has acknowledged the event |
| `BridgeServerClass.Server.HandleClientClose` | packages/bridge/src/server.ts:725-733 | closing is the close step: the connection and its subscription are gone |
| `RelayStore.ClaimKeeps` | packages/gateway/yeoman_gateway/a2a/relay.py:421-533 | every idempotency row keeps having its task, no row or task is removed, rows keep hash, task and effect, terminal tasks their contents; a conflicting claim leaves all rows and tasks that are there untouched |
| `RelayStore.AcquireKeeps` | packages/gateway/yeoman_gateway/a2a/relay.py:535-558 | acquiring keeps the tables well-formed, rows keep hash, task and effect, and terminal tasks their contents |
| `RelayStore.FinishKeeps` | packages/gateway/yeoman_gateway/a2a/relay.py:560-590 | finishing keeps the tables well-formed and terminal tasks unchanged, and answers the task that is then stored, whether or not the token was current |
| `RelayStore.RememberKeeps` | packages/gateway/yeoman_gateway/a2a/relay.py:592-605 | storing a rejected request under a new id disturbs nothing |
| `RelayStore.SelectsOne` | packages/gateway/yeoman_gateway/a2a/relay.py:541-556 | a claim selects at most one idempotency row |
| `RelayStore.RelayTables.ClaimRequest` | packages/gateway/yeoman_gateway/a2a/relay.py:421-533 | the claim transaction, row by row, is the specified transition |
| `RelayStore.RelayTables.Acquire` | packages/gateway/yeoman_gateway/a2a/relay.py:535-558 | the acquire transaction is the specified transition, of which `LeaseIsGranted`, `LeaseIsRefused` and `FinishedIsAnswered` say when it grants; it fails exactly when no row is selected |
| `RelayStore.RelayTables.Finish` | packages/gateway/yeoman_gateway/a2a/relay.py:560-590 | the finish transaction is the specified transition, and fails exactly when no row is selected |
| `Relay.RunsAreDisciplined` | packages/gateway/yeoman_gateway/a2a/relay.py:535-590 | under any interleaving the history obeys the lease discipline: a grant only when no lease is outstanding or it has expired, a write only by the current token, nothing after a terminal write |
| `Relay.NoOverlap` | packages/gateway/yeoman_gateway/a2a/relay.py:535-558 | a second token for a task is issued only when the first one's lease has expired or its holder has finished |
| `Relay.LeaseSince` | packages/gateway/yeoman_gateway/a2a/relay.py:535-590 | between a grant and any later point the holder finished, another lease was granted, or the lease is still the one outstanding |
| `Relay.NothingAfterFinal` | packages/gateway/yeoman_gateway/a2a/relay.py:547-590 | after a terminal write no grant and no write concerns the task |
| `Relay.TerminalIsAbsorbing` | packages/gateway/yeoman_gateway/a2a/relay.py:547-612 | once a task is terminal, every later answer for it is the same and it has no outstanding token |
| `Relay.Agreement` | packages/gateway/yeoman_gateway/a2a/relay.py:971-1064 | any two terminal answers for the same peer, skill, key and request are equal |
| `Relay.ClaimDeterminism` | packages/gateway/yeoman_gateway/a2a/relay.py:421-533 | claims with one peer, skill and key: the same hash gives the same task, context and effect; another hash gives a fixed conflict task of its own |
| `RelayOutcomes.LeaseIsGranted` | packages/gateway/yeoman_gateway/a2a/relay.py:535-558 | in every run, a worker that tries while its task is unfinished and no lease of it is running becomes its holder, with a lease from then on; also when the last holder never finished and its lease has run out |
| `RelayOutcomes.LeaseIsRefused` | packages/gateway/yeoman_gateway/a2a/relay.py:535-558 | while a lease is running the worker waits on with the task as it is now, and nothing changes |
| `RelayOutcomes.FinishedIsAnswered` | packages/gateway/yeoman_gateway/a2a/relay.py:535-558 | a worker whose task is finished meanwhile answers with what is stored |
| `RelayOutcomes.HolderFinishes` | packages/gateway/yeoman_gateway/a2a/relay.py:560-590 | in every run, the holder of the current lease stores its result, which is then read and answered, and the lease is over |
| `RelayOutcomes.OvertakenChangesNothing` | packages/gateway/yeoman_gateway/a2a/relay.py:560-590 | a holder that was overtaken changes nothing and answers with what is stored |
| `RelayOutcomes.FirstClaim` | packages/gateway/yeoman_gateway/a2a/relay.py:421-533 | the first claim of a key makes a submitted task of its own with the context and references the caller gave, or a drawn context, without a lease |
| `RelayOutcomes.ClaimAgain` | packages/gateway/yeoman_gateway/a2a/relay.py:421-533 | the same request again finds that task as it is and changes nothing |
| `RelayOutcomes.ClaimConflict` | packages/gateway/yeoman_gateway/a2a/relay.py:421-533 | another request under the key gets a rejected task of its own, the same each time |
| `RelayOutcomes.OwnTasksOnly` | packages/gateway/yeoman_gateway/a2a/relay.py:607-612 | in every run the task of a claim is shown to the peer that made it and to no other |
| `RelayOutcomes.RejectedIsStored` | packages/gateway/yeoman_gateway/a2a/relay.py:592-605 | an invalid request becomes a rejected task with its reason, which can be read from then on |
| `RelayOutcomes.SendWaits` | packages/gateway/yeoman_gateway/a2a/relay.py:961-1064 | sending answers a conflict or a finished task at once, and waits for a lease otherwise |
| `RelayOutcomes.GivingUpAnswers` | packages/gateway/yeoman_gateway/a2a/relay.py:961-1064 | a worker that gives up answers with the task as it last saw it |
| `RelayRate.RateLimit.RateAllowed` | packages/gateway/yeoman_gateway/a2a/relay.py:899-908 | a request is let through exactly when fewer than the limit were let through for that peer in the last minute |
| `RelayRate.TracksLater` | packages/gateway/yeoman_gateway/a2a/relay.py:899-908 | what is kept between two calls still accounts for the last minute when the next one comes |
| `RelayRate.AtMostLimit` | packages/gateway/yeoman_gateway/a2a/relay.py:899-908 | in every run, no window of a minute sees more than the limit let through for a peer |
| `ConnectBudget.ReconnectBound` | packages/bridge/src/connect_budget.ts:121-149 | in every run, with restarts and holds anywhere: at most `perHour` attempts in any hour, and in any 24 hours at most `perDay` plus the probes that fit in after a day's attempts made as fast as the hourly limit allows, so at most `perDay + ceil(24 h / probeInterval) - 1` |
| `ConnectBudget.RunKeepsInv` | packages/bridge/src/connect_budget.ts:92-175 | every operation keeps the shape of the log (attempts within the limits, then spaced probes) and the agreement of memory, file and log |
| `ConnectBudget.HourlyWaitInRuns` | packages/bridge/src/connect_budget.ts:135-138 | in every run an hourly wait is exact: no decision before its end connects, every one from its end on does, and the wait is that time or one second if longer |
| `ConnectBudget.HourlyWaitExact` | packages/bridge/src/connect_budget.ts:135-138 | the wait ends when the oldest attempt of the last hour drops out of the window |
| `ConnectBudget.RestartTransparent` | packages/bridge/src/connect_budget.ts:92-110 | a reload inserted at any point of any run changes no later decision |
| `ConnectOutcomes.ConnectsIff` | packages/bridge/src/connect_budget.ts:121-140 | in every run without a hold: the budget connects if and only if fewer than `perDay` attempts are in the last 24 hours and fewer than `perHour` in the last hour; a spent day is told before a full hour |
| `ConnectOutcomes.ExhaustedIsHeld` | packages/bridge/src/connect_budget.ts:129-134 | a spent day is noted at once in memory and file, with the first probe one interval later |
| `ConnectOutcomes.ProbesExactly` | packages/bridge/src/connect_budget.ts:125-128 | in every run a spent budget probes exactly when one interval has passed since it was spent or since the last probe, and waits for just that otherwise |
| `ConnectOutcomes.HeldUntilReset` | packages/bridge/src/connect_budget.ts:164-169 | from a hold for a human on, through restarts and everything but a reset, no attempt is recorded and every decision is that hold |
| `ConnectOutcomes.ResetConnects` | packages/bridge/src/connect_budget.ts:172-175 | a reset is a fresh start: the next decision is to connect, and no replacement is remembered |
| `ConnectOutcomes.SecondReplacedIff` | packages/bridge/src/connect_budget.ts:155-162 | in every run a replaced connection counts as the second if and only if another was replaced since the last reset and less than ten minutes before, restarts or not |
| `ConnectBudgetTight.MostIsReached` | packages/bridge/src/connect_budget.ts:121-149 | for every budget some run has exactly `MostInDay` attempts within 24 hours |
| `ConnectBudgetTight.NeverMore` | packages/bridge/src/connect_budget.ts:121-149 | no run has more than `MostInDay`: the bound above when a day's attempts fit into a day, else 24 times `perHour` |
| `ConnectBudgetTight.KeepsPerDayIff` | packages/bridge/src/connect_budget.ts:11-12 | no 24 hours of any run see more than `perDay` attempts if and only if the first probe cannot come within 24 hours of the first of a day's attempts |
| `ConnectBudgetTight.DefaultBudget` | packages/bridge/src/connect_budget.ts:84-86 | with the default limits a day can hold 17 attempts, two more than `perDay` |
| `ConnectBudgetTwin.DecideTwin` | packages/shared/yeoman_shared/connect_budget.py:88-104 | from corresponding states both implementations decide alike and end in corresponding states |
| `ConnectBudgetTwin.SameDecisions` | packages/shared/yeoman_shared/connect_budget.py:54-116 | on the same clock and calls, reloads and resets included, both implementations give the same sequence of decisions |
| `ConnectBudgetTwin.FreshTwins` | packages/shared/yeoman_shared/connect_budget.py:54-65 | fresh budgets correspond |
| `ConnectBudgetTwin.TwinObject.DecideNow` | packages/shared/yeoman_shared/connect_budget.py:88-104 | the method is the specified transition of attempts, next probe and file |
| `ConnectLoop.BudgetObject.DecideNow` | packages/bridge/src/connect_budget.ts:121-139 | the method is the specified transition of the budget and its file |
| `ConnectLoop.BudgetObject.RecordAttemptNow` | packages/bridge/src/connect_budget.ts:142-149 | records and saves the attempt, and moves the next probe after a probe |
| `ConnectLoop.RunLoop` | packages/bridge/src/whatsapp.ts:996-1062 | the loop is the specified run of turns, event by event and with the budget it leaves; the tries are at most twice the counted attempts at every moment, and nothing opens between a hold for a human and the next reset, a hold that the budget file brought along included |
| `ConnectLoop.LoopTurn` | packages/bridge/src/whatsapp.ts:1000-1061 | one turn, whatever the budget and the close code say, is the specified one and keeps those bounds |
| `ConnectLoop.NoTryWhileHeld` | packages/bridge/src/whatsapp.ts:1005-1013 | in a restrained trace a try or a counted attempt after a hold has a reset between them |
| `ConnectLoopOutcomes.LoopKeepsBudget` | packages/bridge/src/whatsapp.ts:996-1062 | whatever earlier processes did with the budget and however connections end: the attempts logged before and those counted in the trace of the loop are within the hourly limit in any hour and the daily bound in any 24 hours |
| `ConnectLoopOutcomes.ClassifyIs` | packages/bridge/src/connect_budget.ts:18-33 | the codes 401, 403, 411 and 500 need a human, 515 needs a restart, every other code and none at all passes |
| `ConnectLoopOutcomes.ClosedHoldsIff` | packages/bridge/src/whatsapp.ts:1038-1046 | a closed connection is held for a human if and only if its code needs one or it is the second replacement within ten minutes; the hold has its time and code and is in the file |
| `ConnectLoopOutcomes.RestartsAtOnceIff` | packages/bridge/src/whatsapp.ts:1047-1050 | the next turn connects at once if and only if a restart was required and this turn had not connected at once already |
| `ConnectLoopOutcomes.PassingClose` | packages/bridge/src/whatsapp.ts:1038-1061 | any other end leaves attempts and hold as they are and notes a replacement |
| `ConnectLoopOutcomes.TurnTriesIff` | packages/bridge/src/whatsapp.ts:1001-1034 | a turn tries exactly when it must at once or the budget allows it, and only in the second case counts it first |
| `ConnectLoopOutcomes.HeldLoopIsIdle` | packages/bridge/src/whatsapp.ts:1003-1013 | while held for a human and not reset the loop does nothing, for any number of turns |
| `ConnectLoopOutcomes.ResetLoopConnects` | packages/bridge/src/whatsapp.ts:1003-1034 | the first turn after a reset counts an attempt and connects |
| `Dedupe.MarkCache.CleanupRecentInbound` | packages/bridge/src/whatsapp.ts:1379-1392 | removes all expired marks, and live ones only when at least the maximum of others expire no earlier |
| `Dedupe.MarkCache.HasSeenInbound` | packages/bridge/src/whatsapp.ts:1394-1400 | after the clean-up, seen means a mark that has not expired |
| `Dedupe.MarkCache.MarkSeenInbound` | packages/bridge/src/whatsapp.ts:1402-1405 | marks the key for its time to live; the cache holds at most one more than its maximum |
| `Dedupe.StepKeepsInv` | packages/bridge/src/whatsapp.ts:944-978 | every step of admission, handlers and cache keeps the chains, the marks and the account of every success |
| `Dedupe.NeverOverlap` | packages/bridge/src/whatsapp.ts:944-978 | in every run no two handlers of one key run at the same time |
| `Dedupe.OneSuccessPerMark` | packages/bridge/src/whatsapp.ts:944-978 | a second success of a key begins only after the first one's mark expired, or after at least the maximum of other keys were marked since |
| `DedupeOutcomes.FailedLetsNextRun` | packages/bridge/src/whatsapp.ts:944-978 | an event of a key is admitted, in any run, and a handler admitted before it fails after that: the event has a task that waits until then, and from then on, as long as events are accepted and no handler of the key succeeds, the task is done only if its handler ran, and until then the oldest unfinished handler of the key runs or may begin, and runs when it begins |
| `DedupeOutcomes.AdmitAdds` | packages/bridge/src/whatsapp.ts:944-978 | while events are accepted an admission adds exactly one task, at the end, waiting, of its key, chained to the newest task of the key unless all of them are done |
| `DedupeOutcomes.TasksAreAdmissions` | packages/bridge/src/whatsapp.ts:944-978 | in every run the tasks are those of the admitted events, one each, in order |
| `DedupeOutcomes.RunsUnlessMarked` | packages/bridge/src/whatsapp.ts:949-969 | in every run a handler that may begin runs when no success of its key is younger than the time to live, and ends without running when one is and fewer than the maximum of other keys have succeeded since |
| `DedupeOutcomes.MarkStopsDuplicates` | packages/bridge/src/whatsapp.ts:949-969 | after a success, for the whole time to live and whatever happens, duplicates end without running unless the maximum of other keys succeed in between |
| `DedupeOutcomes.NeverStuck` | packages/bridge/src/whatsapp.ts:944-978 | in every run, as long as a task is unfinished some handler of its key can take a step |
| `DedupeOutcomes.HandlersEnd` | packages/bridge/src/whatsapp.ts:944-978 | and no run takes more than two handler steps per admitted event, so every event is finished with |
| `DedupeOutcomes.StoppedIntake` | packages/bridge/src/whatsapp.ts:949-955 | once the intake is stopped no task is added, and what waits behind another handler ends without running |
| `DedupeOutcomes.ClearForgets` | packages/bridge/src/whatsapp.ts:973-977 | the newest task of a key leaves the map of chains when it is cleared; clearing another changes nothing |
| `Dedupe.CacheIsBounded` | packages/bridge/src/whatsapp.ts:1379-1405 | in every run the cache holds at most its maximum plus one |
| `Membership.Pairing.CaptureMembershipChange` | packages/bridge/src/whatsapp.ts:1319-1341 | one capture is the specified transition of the buffer, which stays within 256 |
| `Membership.SameChangeMeansPaired` | packages/bridge/src/whatsapp.ts:1310-1348 | over any run of distinct copies, two captures of a chat share a change id only if they are a stub and an update of one action on the same participants, less than 30 s apart |
| `Membership.AtMostTwoCopies` | packages/bridge/src/whatsapp.ts:1310-1348 | no three captures of a chat share a change id |
| `Membership.CounterpartIsFound` | packages/bridge/src/whatsapp.ts:1331-1336 | a copy whose counterpart came less than 30 s and at most 256 captures earlier and is still alone takes over a change id, from that counterpart or an earlier one |
| `Membership.UnpairedIsOwn` | packages/bridge/src/whatsapp.ts:1331-1336 | a copy with no earlier one to be paired with opens a change, under its message id if it is a stub that has one and under a drawn id of its source otherwise |
| `Membership.SignatureIff` | packages/bridge/src/whatsapp.ts:1321-1330 | two captures have one signature if and only if chat and action are equal and so are the participants, each known by its LID or else its phone number |
| `Membership.BufferIsBounded` | packages/bridge/src/whatsapp.ts:1337-1341 | on any run, whatever the clock does, the buffer never exceeds 256 |
| `Membership.RetryGivesThirdCopy` | packages/bridge/src/whatsapp.ts:1331-1341 | a stub captured twice under its message id lets two updates share its change id |
| `Membership.TakersAtMostOpeners` | packages/bridge/src/whatsapp.ts:1319-1341 | on any run at all, a change id is taken over at most as often as it was opened |
| `Membership.TakerIsOther` | packages/bridge/src/whatsapp.ts:1331-1336 | who takes over an id opened by stubs is an update, and the other way round |
| `Membership.NamesIgnorePhones` | packages/bridge/src/whatsapp.ts:1321-1330 | the signature does not depend on which phone numbers are known |
| `Membership.NamesIgnoreOrder` | packages/bridge/src/whatsapp.ts:1327-1330 | nor on the order in which participants are listed |
| `MessageReferences.StoreShowsLog` | packages/bridge/src/message_reference_store.ts:119-236 | after any run of puts, reads and restarts that read the files back, memory and files are equal and are the newest `maxEntries` unexpired keys of the plain put log, each with its latest value |
| `MessageReferences.RefinesLog` | packages/bridge/src/message_reference_store.ts:119-179 | every operation keeps that agreement of memory, files and log |
| `MessageReferences.ShownPut` | packages/bridge/src/message_reference_store.ts:133-157 | evicting before a put loses nothing that the log would still show after it |
| `MessageReferences.ShownTwice` | packages/bridge/src/message_reference_store.ts:227-236 | maintaining earlier as well makes no difference to what is shown later |
| `MessageReferences.Store.Maintain` | packages/bridge/src/message_reference_store.ts:227-236 | the expiry and eviction loops leave unexpired entries, at most `maxEntries`, dropping only keys with that many no older ones beside them; exactly the newest when no two were stored at one time; files and memory stay equal |
| `MessageReferences.Store.PutMessage` | packages/bridge/src/message_reference_store.ts:119-158 | a put, at any clock, stores between two rounds of maintenance, refused inputs included |
| `MessageReferences.PutIsStep` | packages/bridge/src/message_reference_store.ts:119-158 | with distinct times a put is the step of the runs above |
| `MessageReferences.Store.GetMessage` | packages/bridge/src/message_reference_store.ts:160-172 | a get maintains and finds exactly what is then stored; with distinct times it is the read step of the runs above |
| `MessageReferences.Store.Load` | packages/bridge/src/message_reference_store.ts:181-225 | in a new process, whatever is in memory: the unexpired part of the files, maintained, and expired files are gone |
| `MessageReferenceOutcomes.StoredIsFoundIff` | packages/bridge/src/message_reference_store.ts:119-179 | in every run a stored message is in memory and file if and only if it is not expired and fewer than `maxEntries` other keys have been stored since, and it is what was stored |
| `MessageReferenceOutcomes.NeverStoredIsAbsent` | packages/bridge/src/message_reference_store.ts:119-179 | a key that was never stored is never found |
| `PollVotes.OrderFreeIff` | packages/bridge/src/poll_reference_store.ts:130-135 | the stored votes are independent of delivery order if and only if the voters that ever selected something fit under the cap and each has one selection newer than anything else it sent |
| `PollVotes.TallyIsNewest` | packages/bridge/src/poll_reference_store.ts:130-135 | and then exactly those voters are stored, each with its newest selection |
| `PollVotes.DeliveryIs` | packages/bridge/src/poll_reference_store.ts:130-137 | a vote no older than anything its voter selected before has the last word, ties included, and an empty one takes the vote back; an older one, or a new voter of a full poll, changes nothing; other voters are never touched |
| `PollVotes.DistinctTimesAreOrderFree` | packages/bridge/src/poll_reference_store.ts:130-135 | votes without retractions and with distinct times per voter, below the cap, are independent of order |
| `PollVotes.StoredAreChoosers` | packages/bridge/src/poll_reference_store.ts:133-135 | whatever arrives, only voters that selected something are stored, and never more than 2048 |
| `PollVotes.ResultsCountNewest` | packages/bridge/src/poll_reference_store.ts:130-156 | an option is counted for exactly the voters whose newest selection names it, in every order of delivery |
| `PollVotes.Results` | packages/bridge/src/poll_reference_store.ts:145-162 | each option's count is the number of stored voters that selected it, at its first place in the list only, and at most the total |
| `PollVotes.CountVoter` | packages/bridge/src/poll_reference_store.ts:152-155 | one voter adds one to each option it selected, however often named |
| `PollStore.PollReferenceStore.RecordVote` | packages/bridge/src/poll_reference_store.ts:113-142 | true exactly for a live poll and a vote that some pair decrypts; the vote of the first such pair joins the deliveries and, if it counts, its poll; no other unexpired poll changes, and every stored poll keeps holding the tally of its deliveries |
| `PollStore.PollReferenceStore.ResultsOf` | packages/bridge/src/poll_reference_store.ts:145-162 | the results of a live poll count the tally of everything delivered to it since it was remembered |
| `PollStore.PollReferenceStore.Persist` | packages/bridge/src/poll_reference_store.ts:181-190 | leaves unexpired polls, at most 200, dropping only polls with that many no older ones beside them, and writes them to the file |
| `PollStore.PollReferenceStore.Live` | packages/bridge/src/poll_reference_store.ts:169-179 | finds a poll exactly when it is stored and unexpired; meeting an expired one forgets the expired ones and no other |
| `PollStore.PollReferenceStore.Open` | packages/bridge/src/poll_reference_store.ts:71-84 | a new process gets back every poll that is still unexpired, with its tally |
| `PollStore.PollReferenceStore.Remember` | packages/bridge/src/poll_reference_store.ts:86-102 | a poll newer than all others is stored, without votes; of the others only expired ones and the oldest beyond 200 go |
| `ThreadFrame.BuildParents` | packages/gateway/yeoman_gateway/agent/context.py:103-131 | the loop computes, for every row, the newest earlier row it replies to or the adjacency it may claim; every parent precedes its child |
| `ThreadFrame.CollectParticipants` | packages/gateway/yeoman_gateway/agent/context.py:119-125 | the ancestor walk ends and collects the senders of the whole chain |
| `ThreadFrame.WalkPath` | packages/gateway/yeoman_gateway/agent/context.py:133-136 | the walk ends and gives the path to the current row |
| `ThreadFrame.PathFollowsLinks` | packages/gateway/yeoman_gateway/agent/context.py:133-136 | the path is strictly increasing, starts at a row without a parent, and each row is linked to the one before |
| `ThreadFrame.PathIsUnique` | packages/gateway/yeoman_gateway/agent/context.py:133-136 | no other sequence of rows has that property |
| `ThreadFrame.ChainHasReply` | packages/gateway/yeoman_gateway/agent/context.py:106-131 | the oldest link of every chain longer than one is an explicit reply to the newest row of that id |
| `ThreadFrame.InferredBlock` | packages/gateway/yeoman_gateway/agent/context.py:111-128 | adjacencies extend, row by row without a gap, a chain that begins with a reply |
| `ThreadFrame.AdjacencySharesSender` | packages/gateway/yeoman_gateway/agent/context.py:111-128 | an adjacency joins neighbouring user rows 0 to 180 s apart and shares a sender with some row of the chain |
| `ThreadFrame.BlockInTime` | packages/gateway/yeoman_gateway/agent/context.py:113-118 | along a block of adjacencies time never goes back and grows by at most 180 s a row |
| `ThreadFrame.ExplicitChain` | packages/gateway/yeoman_gateway/agent/context.py:166-171 | a chain announced as explicit has a reply at every link |
| `ThreadFrame.RowsAreRecent` | packages/gateway/yeoman_gateway/agent/context.py:94-102 | at most 64 history rows are used, and the current message occurs only at the end |
| `ThreadFrame.RowsAreNewest` | packages/gateway/yeoman_gateway/agent/context.py:94-102 | the rows are exactly the user and assistant rows among the newest 64 of the history that are not the current message, in order, and then the current message with the reply given or else its own |
| `ThreadFrame.ParentIff` | packages/gateway/yeoman_gateway/agent/context.py:106-128 | told without the loops: a row that names a reply is linked exactly to the newest earlier row of that id; any other exactly to the row before it, if that one is linked, both are a user's, 0 to 180 s apart, and it shares a sender with some row of the path |
| `ThreadFrame.SecondsOrMillis` | packages/gateway/yeoman_gateway/agent/context.py:53-58 | seconds and milliseconds of one time are read alike, from 1973 on |
| `ThreadFrame.BuildThreadFrame` | packages/gateway/yeoman_gateway/agent/context.py:94-137 | for any history the path found is a linked path that ends at the current message and begins with a reply |
| `PercentEncoding.DecodeEncode` | packages/bridge/src/protocol.ts:405 | percent-encoding of UTF-8 (section 2.1 of RFC 3986) can be undone for every text |
| `PercentEncoding.EncodeKeeps` | packages/bridge/src/protocol.ts:405 | text of unreserved characters is left as it is |
| `PercentEncoding.EncodeEscapes` | packages/bridge/src/protocol.ts:405 | everything else is escaped, so the separator never occurs |
| `PercentEncoding.JoinEncodedInjective` | packages/bridge/src/protocol.ts:405-406 | joined encoded parts determine the parts |
| `PercentEncoding.SplitJoin` | packages/bridge/src/protocol.ts:405-406 | splitting at the separator gives the encoded parts back |
| `EventIdentity.SameKeyIff` | packages/bridge/src/protocol.ts:343-409 | outside the digest-keyed types two events share a key if and only if account, chat, type and provider parts, trimmed, are all equal; the lemmas below say which payload fields those parts are |
| `EventKeys.CoalesceIsFirst` | packages/bridge/src/protocol.ts:349 | a chain of `??` takes the first field of its list that has a value, and nothing when none has |
| `EventKeys.TrimIs` | packages/bridge/src/protocol.ts:306-308 | trimming takes all white space off both ends and nothing else |
| `EventKeys.MessageKey` | packages/bridge/src/protocol.ts:376-379 | the key of a message exists exactly when the fields it needs are there, and reads back to account, chat, type and its id, from `messageId`, `message_id` or `id` |
| `EventKeys.SameMessageKey` | packages/bridge/src/protocol.ts:343-409 | two keys of this type are equal if and only if all of these are |
| `EventKeys.EditKey` | packages/bridge/src/protocol.ts:380-383 | the key of a edit exists exactly when the fields it needs are there, and reads back to account, chat, type and its message id and its revision, the provider's own or else the digest of what it says |
| `EventKeys.SameEditKey` | packages/bridge/src/protocol.ts:343-409 | two keys of this type are equal if and only if all of these are |
| `EventKeys.DeleteKey` | packages/bridge/src/protocol.ts:384-389 | the key of a delete exists exactly when the fields it needs are there, and reads back to account, chat, type and its message id, from `messageId`, `message_id`, `targetMessageId` or `id` |
| `EventKeys.SameDeleteKey` | packages/bridge/src/protocol.ts:343-409 | two keys of this type are equal if and only if all of these are |
| `EventKeys.ReactionKey` | packages/bridge/src/protocol.ts:390-394 | the key of a reaction exists exactly when the fields it needs are there, and reads back to account, chat, type and its target and its sender |
| `EventKeys.SameReactionKey` | packages/bridge/src/protocol.ts:343-409 | two keys of this type are equal if and only if all of these are |
| `EventKeys.ReceiptKey` | packages/bridge/src/protocol.ts:395-403 | the key of a receipt exists exactly when the fields it needs are there, and reads back to account, chat, type and its message id, its recipient and its status in lower case, delivered when there is none |
| `EventKeys.SameReceiptKey` | packages/bridge/src/protocol.ts:343-409 | two keys of this type are equal if and only if all of these are |
| `EventKeys.MembershipKey` | packages/bridge/src/protocol.ts:352-362 | the key of a membership change exists exactly when the fields it needs are there, and reads back to account, chat, type and its change id, and needs a copy id |
| `EventKeys.SameMembershipKey` | packages/bridge/src/protocol.ts:343-409 | two keys of this type are equal if and only if all of these are |
| `EventKeys.MessageIdsDecide` | packages/bridge/src/protocol.ts:376-379 | in particular two messages with string ids share a key only if the trimmed ids are equal |
| `EventKeys.SnapshotKey` | packages/bridge/src/protocol.ts:372-375 | a membership snapshot has a key exactly when its time is a safe non-negative integer |
| `EventKeys.SameSnapshotKey` | packages/bridge/src/protocol.ts:372-375 | and two share it if and only if account, chat and time are equal |
| `EventKeys.GroupKey` | packages/bridge/src/protocol.ts:365-371 | the key of group metadata is its type and digest, and there is none when the metadata is invalid |
| `EventIdentity.SameHashedText` | packages/bridge/src/protocol.ts:352-362 | events whose hashed text is equal share key and type, and for membership changes also the copy |
| `EventIdentity.HashedIsKey` | packages/bridge/src/protocol.ts:352-408 | the hashed text is itself a key of its parts |
| `EventIdentity.DigestKeysApart` | packages/bridge/src/protocol.ts:365-371 | a digest-keyed event never shares a key with one of another type |
| `Untrusted.NeutralizedIsFree` | packages/gateway/yeoman_gateway/agent/untrusted.py:16-26 | for every text no part of the output spells a marker phrase or the owner field, in any case and with any separators; `NeutralizeDivides` says what is kept |
| `Untrusted.NeutralizeDivides` | packages/gateway/yeoman_gateway/agent/untrusted.py:23-26 | nothing else is touched: every text divides into spellings, which are replaced, and characters where none starts, which are all copied in order, first for the marker phrases and then for the owner field |
| `Untrusted.DivisionIsSub` | packages/gateway/yeoman_gateway/agent/untrusted.py:25-26 | a substitution is what any such division of the text says, so there is one result |
| `Untrusted.SubDivides` | packages/gateway/yeoman_gateway/agent/untrusted.py:25-26 | and every text has such a division |
| `Untrusted.HeaderValueDivides` | packages/gateway/yeoman_gateway/agent/untrusted.py:29-31 | a header value is the words of the value on one line, with the spellings replaced and the rest kept in the same way |
| `Untrusted.UnchangedIff` | packages/gateway/yeoman_gateway/agent/untrusted.py:23-26 | a text is unchanged if and only if it spells neither |
| `Untrusted.NeutralizeIsIdempotent` | packages/gateway/yeoman_gateway/agent/untrusted.py:23-26 | neutralizing twice is neutralizing once |
| `Untrusted.SubIsFree` | packages/gateway/yeoman_gateway/agent/untrusted.py:25-26 | a substitution removes its own pattern and creates no match of the other |
| `Untrusted.TakenIff` | packages/gateway/yeoman_gateway/agent/untrusted.py:17-20 | the matcher takes a beginning of the text exactly when some beginning is in the language of the pattern |
| `Untrusted.SpelledIsMatched` | packages/gateway/yeoman_gateway/agent/untrusted.py:17-18 | at a given place at most one length is in the language, so greedy and backtracking matching agree |
| `Untrusted.HeaderValueIsSafe` | packages/gateway/yeoman_gateway/agent/untrusted.py:29-31 | a header value is one line without a marker phrase or owner field |
| `Untrusted.JoinedKeepsInk` | packages/gateway/yeoman_gateway/agent/untrusted.py:31 | making one line of a value keeps every character but white space |
| `Envelope.InboundIsSealed` | packages/gateway/yeoman_gateway/agent/context.py:234-246 | whatever sender, content and metadata are, the start and end lines occur exactly once, first and last |
| `Envelope.ExternalIsSealed` | packages/gateway/yeoman_gateway/agent/untrusted.py:34-39 | the same for external content |
| `Envelope.OwnerFieldIff` | packages/gateway/yeoman_gateway/agent/context.py:213-246 | the wrapped message spells the owner field if and only if the runtime set it |
| `Envelope.InboundShows` | packages/gateway/yeoman_gateway/agent/context.py:234-246 | an inbound message reads back: its lines are the start line, one line per field from which key and header value are read, all lines of the neutralized content, and the end line |
| `Envelope.ExternalShows` | packages/gateway/yeoman_gateway/agent/untrusted.py:34-39 | so does external content, with the notice and the source |
| `Envelope.FieldsIff` | packages/gateway/yeoman_gateway/agent/context.py:213-231 | which fields there are: the channel always, the sender id from the metadata or else the sender, the owner field when the runtime set it, each other field exactly when it is given |

## Left out

- Real file, socket and SQLite calls, permissions, file modes and fsync mechanics: only their effect on a directory or a table, with any outcome, is modelled.
- Contents of quarantine and rejection-diagnostic files: a quarantined or oversized file is only marked as such.
- Outbox event fields: `bytes` (serialized size) and `fileIdentity` (the encoded id in the file name) are carried as fields of the event; distinct sequences keep file names apart.
- Non-regular files in the outbox directory, on which loading throws: the model loads directories of regular files.
- JSON texts, digests, HMAC, vote decryption, protobuf: abstract values or function parameters.
- ConnectBudget.ReconnectBound: claimed for limits of at least one and a probe interval of at least one hour; with an hourly limit of zero the source computes no number to wait.
- ConnectLoopOutcomes.LoopKeepsBudget, ConnectOutcomes.ConnectsIff, ConnectOutcomes.ProbesExactly: claimed for the same limits.
- ConnectBudgetTwin.SameDecisions: seconds and milliseconds are related exactly, without floating-point rounding, and runs have no needs-human hold, which the Python budget does not have.
- MessageReferences.StoreShowsLog: assumes that no two puts come at the same time; with equal times which key is evicted is left open. A stored message that does not decode, a damaged file, and a failing write are not modelled.
- MessageReferenceOutcomes.StoredIsFoundIff: makes the same assumption on times.
- Membership.SameChangeMeansPaired: assumes that random ids are not drawn twice and are no message ids, and that no copy is captured twice.
- Membership signatures hold participants as the multiset that the sorted list determines.
- PollStore.PollReferenceStore.RecordVote: takes de-duplicated JIDs, and decryption as a parameter; a file that cannot be read or written is not modelled.
- ThreadFrame: text excerpts, other threads, the opener note and time formatting are presentation and left out; times are real numbers.
- RelayStore: retention of artifacts, media staging, authentication, schema validation, the HTTP handler and IPC are not part of the model; the worker's request handling is one step with any result.
- Dedupe: which of several equally old marks is evicted is left open.
- Other parts of the bridge and gateway (Baileys sockets, media, message extraction and sending, policy engine, channels, CLI, overseer) are not modelled.
