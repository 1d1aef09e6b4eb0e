# Verified models of the opencrow queues, workers and multiplexers

This project models six parts of opencrow, the bridge between chat networks and a coding agent,
and proves what their users rely on:

- **the Nostr publish queue** (`nostr/publish_queue.go`), an outbox in memory and in a SQL table,
  with a circuit breaker for each relay;
- **the inbox and its worker** (`inbox.go`, `worker.go`), a persistent priority queue drained by one
  worker that can be preempted, and the one-slot hand-off of compact requests;
- **the turn waiter** (`pi_rpc.go`), which commits an error of the agent tentatively and may take it
  back within a grace window;
- **the JSON-RPC multiplexer** for signal-cli (`signal/rpc.go`);
- **the Matrix message splitter** (`matrix/backend.go`, `SendMessage`);
- **the bounded store of sent replies** (`outbox.go`).

## How the models are built

Where several goroutines share state (publish queue, worker, multiplexer) there is a step machine:
a state, the steps that may be taken in it, one for each critical section, channel operation or
database statement, and `Legal`/`Exec` for runs of any length. The environment chooses everything
the code does not: which step comes next, what relays, providers and the database answer, when contexts are
cancelled, and when the process crashes and starts again on what its tables hold. Invariants are
proved for every step; the theorems then speak about every run.

The objects of the source are classes with the same fields, updated in place by methods with the
source's loops. Their contracts tie the new state to the old one through the functions of the
machines, so the theorems hold of them too: `PublishQueue.DrainOnce` is proved to be a run of the
publish machine, whose steps are the ones the code takes on exactly the answers its environment
gives (`PublishEnvironment.Answers`), so that three calls of it empty the queue (`DrainThrice`);
`Worker.DrainOnce` computes `Drain`,
which `DrainIsARun` finds among the runs of the worker machine; `JsonRpcClient.ReadLoop` computes
`ReadAll`, which `ReadAllIsARun` finds among the runs of the multiplexer; `PiProcess.WaitForResult`
computes the function that the turn theorems are about.

The functions of the machines are in turn held to what they are for: a second group of theorems says
what each step does without these functions, in terms of the attempts made, of sources, priorities,
ids, block kinds, line fields and times, with the constants of the source written out
(`PublishSteps.dfy`, `InboxOrder.dfy`, `WorkerSteps.dfy`, `PiText.dfy`, `PiFaults.dfy`,
`SignalLines.dfy`).

| file | contents |
|---|---|
| `Common.dfy` | what several models share |
| `Breaker.dfy`, `RelayNames.dfy` | the circuit breaker; storing relay names as lines of text |
| `PublishModel.dfy` | publish queue: state, operations, step machine |
| `PublishSafety.dfy` | the invariant of the publish machine, over every run |
| `PublishLoss.dfy`, `PublishCrash.dfy` | no event is lost early; what a crash and a reload leave |
| `PublishOrder.dfy`, `PublishProgress.dfy`, `PublishTiming.dfy` | delivery order; bounded work; probes and sleeps |
| `PublishSteps.dfy` | what evictions, passes, answers, breaker collection and loading do, exactly |
| `PublishEnvironment.dfy` | what the world outside the queue answers, moment by moment, and the steps taken on it |
| `PublishQueue.dfy` | the queue as classes, proved against the machine |
| `InboxModel.dfy`, `InboxDrain.dfy`, `InboxStore.dfy` | inbox table, one drain and its plan, the store as a class |
| `InboxOrder.dfy` | in which order a drain takes the rows, and how it ends |
| `WorkerModel.dfy`, `Worker.dfy` | worker machine and its theorems; the worker as a class |
| `WorkerSteps.dfy` | who interrupts whom, ends of items, wake-ups, the shutdown |
| `PiRpc.dfy`, `PiProcess.dfy` | the turn waiter as functions, with its theorems; as classes |
| `PiText.dfy`, `PiFaults.dfy` | the text of a reply; how a wait ends without one, dialogs, tools, grace windows |
| `SignalRpc.dfy`, `SignalAnswers.dfy` | multiplexer machine and theorems; what one call is given over a run |
| `SignalLines.dfy` | what one line of the daemon does, and which entries stay |
| `SignalClient.dfy` | the client as a class |
| `MatrixSplit.dfy`, `OutboxStore.dfy` | message splitter; reply store |

`dafny verify dfyconfig.toml` checks everything.

## What turned out false, and when it holds

- A relay set does not always survive a restart: names with newlines or surrounding white space are
  altered. It survives exactly when every name is clean (`RelaysRoundTrip`,
  `CrashRevivesUndelivered`). An event queued only for blank names leaves a row that load deletes;
  its row is loadable exactly when some name is more than white space (`EnqueuedRowIsLoadable`),
  and a run that loses such an event is given (`BlankNameIsLost`).
- A pass at the end of the sleep need not find work: it evicts first, and the event may be too old by
  then (`SleepMayEndInVain`). It finds work if and only if some relay whose probe is due still has an
  event waiting for it that is not to be evicted (`SleepIsExact`).
- A blocked worker may face a non-empty inbox. It does not after an empty query or after a preemption by
  a producer (`BlockedMeansEmpty`); after a failed query, an abort without a following message or a
  trigger without a room it may, and runs that show it are given (`FailedQueryStrands`,
  `RequeueStrands`).
- Lines up to the size limit of a Matrix message are not always kept whole: the search for a newline
  ignores one at the very start of a chunk (`OneByteMoreIsTorn`). They are if and only if, filling one
  message after the other with whole lines, no line is over 30000 bytes and no message ends up holding
  just an empty line because the next line fills a message by itself (`WholeIffLinesPack`). So it is
  enough that no line is over 30000 bytes and none of exactly 30000 follows an empty one
  (`FittingLinesStayWhole`), or that none is over 29999 (`ShortLinesStayWhole`).
- Calls are not always aligned with turns: an `agent_end` that reports an error without a message gets
  no grace window, so a retry that follows it belongs to the next call, which gets the reply to the
  earlier prompt (`SilentErrorShiftsReplies`). The waiter goes on with a failed attempt exactly when
  the error has a message (`FailedAttemptGoesOnIff`).
- No call of the multiplexer is forgotten while its 64-bit counter has not come round. A whole round
  later a call takes over the entry of one that still waits, which is then sent nothing any more; a
  run from the start is given (`FirstCallMayWaitForever`).
- The comment of `nextWakeLocked` (nostr/publish_queue.go:473-477) speaks of returning 0 for a relay
  that is not down; the code returns 30 s, and so does the model. The comment of `SendMessage`
  (matrix/backend.go:243) promises an empty result on failure; the code returns the id of the last
  chunk that was sent, and so does the model. `processItem` documents that a drain stops when an
  item was requeued (worker.go:310-312); it also stops for a preempted heartbeat, which is not.

## Model

| member | source | states |
|---|---|---|
| Breakers.OperationsKeepHealthy | nostr/publish_queue.go:538-587 | every breaker operation keeps: closed exactly below three failures in a row, a tripped breaker has a cooldown of 30 s to 30 min and has set its next probe from it |
| Breakers.CooldownDoubles | nostr/publish_queue.go:573-582 | doubling with a cap gives min(30 s * 2^k, 30 min) after k failed probes |
| Breakers.OneProbeAtATime | nostr/publish_queue.go:538-555 | after a granted probe nothing is let through until its outcome is known; a probe that is taken back leaves the breaker as it was |
| Breakers.SuccessForgets | nostr/publish_queue.go:557-565 | a success leaves nothing of the failures and of the escalation before it |
| Breakers.RelayBreaker.Allow | nostr/publish_queue.go:538-555 | a closed breaker lets all through, an open one lets one probe through once its time has come and becomes half-open, all else is denied |
| Breakers.RelayBreaker.OnSuccess | nostr/publish_queue.go:557-565 | closes the breaker and clears its history |
| Breakers.RelayBreaker.OnFailure | nostr/publish_queue.go:567-587 | counts the failure; the third in a row or a failed probe opens the breaker with base or doubled, capped cooldown |
| RelayNames.ParsedNamesAreClean | nostr/publish_queue.go:657-664 | load only ever produces trimmed, non-empty names without newlines, whatever the row holds |
| RelayNames.RelaysRoundTrip | nostr/publish_queue.go:657-697 | storing and loading a relay list gives the same set if and only if every name is clean |
| RelayNames.OnlyBlankNamesVanish | nostr/publish_queue.go:657-697 | a stored relay list comes back empty if and only if each of its names is nothing but white space |
| RelayNames.SpacesAreWhiteSpace | nostr/publish_queue.go:661-662 | what trimming takes for white space are the 25 characters Unicode calls so |
| PublishSafety.RunKeepsInv | nostr/publish_queue.go:148-450 | every run of critical sections, enqueues, crashes and reloads keeps the invariant: items agree with the attempts made, rows with items, breakers are healthy, half-open ones have their probe under way |
| PublishSafety.RestartKeepsInv | nostr/publish_queue.go:639-686 | loading any well-formed table starts a process in a state that satisfies the invariant |
| PublishLoss.TargetsAreConserved | nostr/publish_queue.go:298-394 | over every run, targets = still pending + accepted + given up after three rejects, disjointly; delivered if and only if some relay accepted; no pair of event and relay sees more than three publishes |
| PublishLoss.EventStaysOrHasReason | nostr/publish_queue.go:396-450 | over every run of one process, a queued event is still queued or left in the step of an eviction with a reason: without an acceptance, three rejections by every target or an age over 24 h; with one, all targets done or an age over ten minutes |
| PublishLoss.UndeliveredEventStays | nostr/publish_queue.go:298-450 | over every run of one process, an event no relay has accepted stays queued until the step in which one does, or until an eviction that drops it after every target rejected it three times or its age passed 24 h |
| PublishLoss.RowStaysUntilAccountedFor | nostr/publish_queue.go:298-450 | over every run with crashes and reloads, a loadable row stays until a relay accepts its event, or until the eviction that removes it for one of those reasons, the ten minutes excepted |
| PublishLoss.UndeliveredRowStays | nostr/publish_queue.go:298-450 | over every run with crashes and reloads, the row of an undelivered event stays until a relay accepts the event, or until an eviction that removes it after every target rejected it three times since the last start or its stored age passed 24 h |
| PublishLoss.EnqueuedRowIsLoadable | nostr/publish_queue.go:148-172 | a successful insert leaves a loadable row if and only if some relay name is more than white space |
| PublishLoss.BlankNameIsLost | nostr/publish_queue.go:657-671 | a run that loses an event queued for one blank name, which no relay has seen |
| PublishCrash.MirrorMeans | nostr/publish_queue.go:334-348 | what the mirror property says: the rows are, one for one, the undelivered events in memory |
| PublishCrash.RunKeepsMirror | nostr/publish_queue.go:148-450 | while database operations succeed, that holds at every moment of every run |
| PublishCrash.CrashRevivesUndelivered | nostr/publish_queue.go:639-686 | a crash at any moment brings back an undelivered event, with all its original targets and its age, if and only if its relay names are clean, and brings back nothing else |
| PublishOrder.OldestGoesFirst | nostr/publish_queue.go:270-361 | over every run of a process, the event that a never-rejecting relay is given next is the oldest that still waits for it |
| PublishOrder.AcceptedInEnqueueOrder | nostr/publish_queue.go:270-361 | a relay that never rejects accepts events in enqueue order, through probes, evictions, cancelled batches and concurrent enqueues |
| PublishProgress.PublishesAreBounded | nostr/publish_queue.go:222-394 | a process makes at most three publishes for each pair of event and relay it was given, less what is left to try |
| PublishProgress.ThreePassesEmptyTheQueue | nostr/publish_queue.go:222-394 | with all breakers closed, connects succeeding, nothing cancelled and nothing new, three passes empty the queue for any answers |
| PublishTiming.NoRelayIsStarved | nostr/publish_queue.go:242-265 | before and after every pass no breaker is half-open, closed means fewer than three failures, and the others wait 30 s to 30 min |
| PublishTiming.ThirdFailureTrips | nostr/publish_queue.go:567-587 | over every run of a process, a connect failure trips a closed breaker if and only if it is the third since the last finished batch to that relay, or since its breaker was made |
| PublishTiming.ProbesAreSpaced | nostr/publish_queue.go:538-625 | while an item waits for a dead relay, the k-th failed probe leaves the cooldown min(30 s * 2^k, 30 min) and comes no sooner after the trip than the sum of the cooldowns before it |
| PublishTiming.SleepIsExact | nostr/publish_queue.go:452-490 | the sleep is at most 30 min; with every wanted relay down, a pass that begins before its end finds no work; whenever the pass begins, it finds work, all of it probes, if and only if an event that its eviction keeps waits for a relay whose probe is due; from the end of the sleep on it finds none only if it has dropped an event |
| PublishTiming.SleepMayEndInVain | nostr/publish_queue.go:226-227 | the exception is real: a resting state with every wanted relay down, whose only event reaches its 24 h in the meantime, so that the pass at the end of the sleep evicts it and finds no work |
| PublishTiming.NoSpin | nostr/publish_queue.go:190-218 | after a sleep of zero with items left, whatever is enqueued next, the following pass probes a relay or evicts an item |
| PublishSteps.EvictionIsExact | nostr/publish_queue.go:398-450 | an eviction removes exactly the events without a pending relay, those some relay accepted that are over ten minutes old, and those none accepted that are over 24 h old, unless the row of such an expired one cannot be deleted |
| PublishSteps.RowEvictionIsExact | nostr/publish_queue.go:398-450 | it deletes exactly the rows of events without a pending relay and of expired ones |
| PublishSteps.TakenUpRelays | nostr/publish_queue.go:270-293 | a pass takes up exactly the wanted relays whose breaker is closed, or open with its probe due; the latter are its probes |
| PublishSteps.TakenUpEvents | nostr/publish_queue.go:270-293 | a closed relay is given all events that wait for it in enqueue order, a probed one exactly the oldest |
| PublishSteps.RejectionIsCounted | nostr/publish_queue.go:365-394 | a rejection adds one to the rejections of that relay; the third one, and no other, ends the waiting for it and drops the count |
| PublishSteps.AcceptanceIsBooked | nostr/publish_queue.go:334-348 | an acceptance ends the waiting for that relay; the first one deletes the row of the event and its id, both of which stay when the delete fails |
| PublishSteps.BreakerCollectionIsExact | nostr/publish_queue.go:601-625 | after a pass, breakers of wanted relays stay, unwanted closed ones go, unwanted open ones stay until 30 minutes after their probe was due |
| PublishSteps.SleepIs | nostr/publish_queue.go:452-490 | the sleep is 0 when nothing waits for a relay, 30 s when some wanted relay is not down, else the least time to a probe |
| PublishSteps.LoadIsInOrder | nostr/publish_queue.go:639-686 | loaded events are in the order of their creation, then of their ids |
| PublishQueues.PublishQueue.constructor | nostr/publish_queue.go:122-134 | a new process is in the state that the restart step leads to |
| PublishQueues.PublishQueue.Load | nostr/publish_queue.go:639-686 | the items are those of the loadable rows in load order, useless rows are deleted |
| PublishQueues.PublishQueue.Enqueue | nostr/publish_queue.go:148-172 | appends one item waiting for the set of relays and, if the insert succeeds, its row; nothing for an empty list |
| PublishQueues.PublishQueue.Evict | nostr/publish_queue.go:398-450 | keeps the items and deletes the rows that the eviction of the machine does, which `EvictionIsExact` and `RowEvictionIsExact` pin down |
| PublishQueues.PublishQueue.CollectWork | nostr/publish_queue.go:270-293 | each closed relay gets all items pending on it in queue order, each due open relay exactly the first of them, all others nothing |
| PublishQueues.PublishQueue.NextWake | nostr/publish_queue.go:454-490 | the returned sleep is the least time to a permitted probe, the base cooldown if some wanted relay is not down, zero if nothing is queued |
| PublishQueues.PublishQueue.PublishBatch | nostr/publish_queue.go:298-361 | the batch is a run of machine steps, each publish with the answer that the relay gave at its moment, and the result says whether the breaker was resolved |
| PublishQueues.PublishQueue.DrainOnce | nostr/publish_queue.go:222-265 | one pass is a run of the machine from rest to rest whose connects, publishes, cancellations and enqueues are, moment by moment, the ones its environment answers; it keeps the invariant, returns the specified sleep, and talks to no relay when its context is cancelled |
| PublishQueues.PublishQueue.DrainThrice | nostr/publish_queue.go:190-265 | from closed breakers, with an environment in which connects succeed, nothing is cancelled and nothing arrives, three passes of the code leave the queue empty, whatever the relays answer to the publishes |
| PublishEnvironment.CalmStepsAreUndisturbed | nostr/publish_queue.go:222-394 | steps taken on the answers of such an environment are undisturbed ones, the ones that the theorem about three passes of the machine is about |
| PublishEnvironment.AnswersAreHeard | nostr/publish_queue.go:298-361 | the connects and publishes of a pass have the outcomes that the relays gave |
| PublishEnvironment.EveryArrivalIsEnqueued | nostr/publish_queue.go:148-172 | the enqueues of a pass are exactly those that arrived, in order |
| PublishEnvironment.CancelledSendsNothing | nostr/publish_queue.go:231-312 | after the context was found cancelled no relay is contacted and nothing is published |
| InboxModel.RequeueKeepsTheItem | inbox.go:63-80 | a requeued item keeps priority, source, content and reply target and gets an id above all others; a heartbeat is dropped |
| InboxDrain.NextIsPlanned | worker.go:256-271 | the next item is the head of the plan (rows sorted by priority and id, user rows folded into the first), and what stays in the table has the rest as its plan |
| InboxDrain.DrainFollowsPlan | worker.go:250-308 | a drain without producers processes a prefix of the plan; what it leaves has the rest as its plan, save the one item that was put back under a fresh id |
| InboxDrain.FullDrainDoesThePlan | worker.go:250-308 | when nothing stops it, a drain processes exactly the plan and leaves the inbox empty |
| InboxDrain.StoppedItemGoesBack | worker.go:415-469 | the item that stopped a drain is back in the table if and only if its insert succeeded and it is no heartbeat |
| InboxOrder.TopIsFirst | inbox.go:59-61 | the row that is dequeued has the smallest priority value of all, and the smallest id among its equals |
| InboxOrder.DrainGoesByRank | worker.go:250-277 | however it ends, a drain processes users and compact requests before triggers, triggers before heartbeats, and each rank by ascending id |
| InboxOrder.DrainEndsAsItShould | worker.go:310-469 | a drain ends with an item exactly when that is a user, trigger or heartbeat that was preempted, or a trigger without a room; the item is back as the newest row exactly when it is no heartbeat and its insert worked |
| InboxOrder.HeartbeatIsQueuedOnce | inbox.go:106-118 | a heartbeat of priority 2 is appended exactly when none is queued |
| InboxOrder.PurgeIsExact | inbox.go:29-39 | at a start the user and trigger rows stay, in order, and no others |
| InboxStores.InboxStore.constructor | inbox.go:29-39 | opening the store removes exactly the heartbeat and compact rows |
| InboxStores.InboxStore.Dequeue | inbox.go:59-61 | removes and returns the row with the smallest priority value, and the smallest id among its equals; tells an empty table from a failed query |
| InboxStores.InboxStore.DequeueUserBatch | inbox.go:85-97 | removes exactly the user rows and returns them in id order, although the statement returns them in any order |
| InboxStores.InboxStore.EnqueueHeartbeat | inbox.go:106-118 | inserts a heartbeat if and only if there is none, and says so |
| WorkerModel.RunKeepsInv | worker.go:92-492 | every run of steps of producers, worker, abort, compact callers, shutdown and restart keeps the invariant |
| WorkerModel.InboxKeepsItsShape | inbox.go:29-118 | over every run with restarts: ids ascend, the source determines the priority, there is at most one heartbeat row |
| WorkerModel.BlockedMeansEmpty | worker.go:92-126 | a worker blocked in its select (its context open, no token there or to come) has an empty inbox, unless its last drain ended by a failed query, an abort or a trigger without a room |
| WorkerModel.NoLostWakeUp | worker.go:92-126 | without aborts, failed queries, a missing room or a shutdown, a blocked worker always has an empty inbox, in every interleaving |
| WorkerModel.FailedQueryStrands | worker.go:261-267 | a run in which a failed query leaves a queued row and a blocked worker |
| WorkerModel.RequeueStrands | worker.go:415-469 | runs in which an abort, or a trigger without a room, does |
| WorkerModel.CompactHandOff | worker.go:165-197 | the result slot is set exactly while one call is about to insert or take back, one compact row is queued, or the worker holds it; each channel is sent at most one outcome, the send never blocks, a compact item always finds the slot set |
| WorkerModel.EveryCompactIsAnswered | worker.go:189-196 | undisturbed, when the worker is blocked every waiting Compact call has its outcome in its channel |
| WorkerModel.NoRowDisappears | worker.go:250-308 | from any point of a process on, a row that is in the inbox stays there, or is one of the rows the item in hand is merged from, or one of the rows a processed item was merged from |
| WorkerModel.NoRowIsProcessedTwice | worker.go:250-308 | over every run, no row is a part of two processed items of a process, or of a processed item and still queued |
| WorkerModel.MergedCarries | worker.go:295-305 | a merged prompt contains the content of each row it was merged from |
| WorkerModel.NobodyPreemptsUsers | worker.go:92-101 | in every interleaving, no arrival cancels the processing of a user message or a compact request |
| WorkerSteps.ArrivalCancelsIff | worker.go:92-107 | over every run, an arrival announced while an item is processed cancels it exactly when a user or a compact request meets a trigger or a heartbeat, or a trigger meets a heartbeat |
| WorkerSteps.HeartbeatStep | inbox.go:106-118 | in the machine a heartbeat is queued, and announced, only when none is queued |
| WorkerSteps.FinishEndsAsItShould | worker.go:310-469 | the end of an item in the machine stops the drain and puts the item back in exactly the cases of `DrainEndsAsItShould` |
| WorkerSteps.ItemStartsUncancelled | worker.go:313-329 | an item cannot be preempted by what happened before it began |
| WorkerSteps.MergedRepliesToTheLast | worker.go:281-308 | a merged prompt replies to its last part and has id, priority and source of its first |
| WorkerSteps.WakesAreSignalled | worker.go:92-126 | over every run the worker wakes up at most once for each token sent |
| WorkerSteps.OutcomeIsDelivered | worker.go:471-492 | the outcome of a compaction is the one message in the channel of the call it was made for, and what that call takes |
| WorkerSteps.CallersLeaveOnce | worker.go:189-196 | a compact call that took its outcome, gave up or was refused is over for good |
| WorkerSteps.ShutdownEndsTheWork | worker.go:250-254 | once the context is done, at most the item already in hand is begun |
| WorkerModel.DrainIsARun | worker.go:250-277 | the uninterrupted drain is a run of the machine with the same items and the same table |
| Workers.Worker.Notify | worker.go:92-107 | cancels the current item if and only if one is running and the new priority is strictly smaller; a token is there afterwards |
| Workers.Worker.Abort | worker.go:129-141 | cancels the current item if there is one, and says so |
| Workers.Worker.StartCompact | worker.go:165-189 | refuses while the slot is set; otherwise sets it and queues one compact row, or takes the claim back when the insert fails |
| Workers.Worker.MergeUserItems | worker.go:281-308 | the item with the contents of all queued user rows appended in id order, separated by newlines, and the last row's reply target; those rows leave the table |
| Workers.Worker.ProcessCompact | worker.go:471-492 | empties the slot and sends exactly one outcome to the channel that was in it |
| Workers.Worker.DrainOnce | worker.go:250-277 | processes the items and leaves the table that `Drain` computes, for any answers of the environment; order and end are those of `DrainGoesByRank` and `DrainEndsAsItShould` |
| PiRpc.LastAssistantDecides | pi_rpc.go:498-523 | the last assistant message determines text, stop reason and error, whatever follows it |
| PiRpc.TurnIsAnswered | pi_rpc.go:203-442 | a turn (any number of attempts that fail with a message and are continued within the window, swallowed events, then a last attempt whose agent_end commits no error message) is answered with its last text and consumed exactly to its end, whatever comes after it and whatever is cancelled outside its windows |
| PiRpc.LateTurnIsATurn | pi_rpc.go:346-373 | without cancellation and exit, a turn stays a turn for a waiter that starts later |
| PiRpc.CallsGetTheirReplies | pi_rpc.go:126-136 | n calls on n consecutive turns return the n replies in order and consume all of them |
| PiRpc.FailedAttemptGoesOnIff | pi_rpc.go:375-429 | the waiter goes on with a failed attempt that is continued in time if and only if the error has a message; otherwise it returns at once and leaves the continuation to the next call |
| PiRpc.SilentErrorShiftsReplies | pi_rpc.go:375-429 | the input on which an error without a message gives the second call the reply to the first prompt, and with a message does not |
| PiRpc.GraceRescindsIff | pi_rpc.go:305-373 | the window rescinds the error if and only if an auto_retry_start or an auto_compaction_start arrives in it after nothing but events in time |
| PiRpc.CommittedErrorStandsIff | pi_rpc.go:412-442 | the error is final within 200 ms exactly when nothing continues the turn, and is then reported in the words of the source exactly when there is no text |
| PiRpc.DrainPassesDeltasOn | pi_rpc.go:325-330 | however it ends, an event loop passes on the text deltas of exactly the events it consumed, in order |
| PiRpc.DrainAbortsOnce | pi_rpc.go:203-236 | one event loop sends at most one abort, and sends it when it returns after the cancellation |
| PiText.BlocksAreAnswered | pi_rpc.go:525-547 | a turn whose last message of the assistant has two text blocks among any others is answered with the two texts on lines of their own |
| PiText.SilenceIsAnswered | pi_rpc.go:496-523 | a turn without a message of the assistant, or without readable messages, is answered with the empty text |
| PiText.OtherBlocksDoNotCount | pi_rpc.go:541-546 | a block of another kind, or with an empty text, can be left out anywhere |
| PiText.TextsAreJoined | pi_rpc.go:539-547 | the texts of two lists of blocks are joined by a newline |
| PiText.TextIsItself | pi_rpc.go:525-537 | a text, as a string or as one block, is itself; unreadable content and blocks without text give none |
| PiFaults.ReadErrorEndsTheWait | pi_rpc.go:244-259 | after any events that do not end the turn, a line that cannot be read ends the wait with its error, or with the cancellation if the context is done by then |
| PiFaults.RejectionEndsTheWait | pi_rpc.go:263-283 | so does a rejected command, with command and reason |
| PiFaults.EndOfOutputEndsTheWait | pi_rpc.go:244-259 | so does the end of the output |
| PiFaults.ExitEndsTheWait | pi_rpc.go:238-259 | so does the exit of the process when nothing arrives before it, even if the output is never closed |
| PiFaults.SilenceNeverEnds | pi_rpc.go:203-236 | without any of these, the wait goes on |
| PiFaults.ExhaustedRetriesCommit | pi_rpc.go:313-322 | the end of the retries without success commits the error it names |
| PiFaults.DialogsAreCancelled | pi_rpc.go:473-483 | each dialog (select, confirm, input, editor) of the consumed events is cancelled once, in order, and each started tool is shown |
| PiFaults.GraceHasNoEffects | pi_rpc.go:341-373 | a grace window sends and shows nothing |
| PiFaults.ReadErrorEndsTheWindow | pi_rpc.go:357-361 | a line that cannot be read, or the end of the output, ends the window and lets the error stand |
| PiFaults.WindowCloses | pi_rpc.go:346-356 | the window ends after 200 ms, at the cancellation or at the exit, whichever is first |
| PiProcesses.PiProcess.WaitForResult | pi_rpc.go:403-442 | the outcome and the state of the stream that the theorems about turns, texts and faults are about |
| PiProcesses.PiProcess.SendAndWait | pi_rpc.go:126-136 | sends the prompt, then waits |
| SignalRpc.RunKeepsInv | signal/rpc.go:99-219 | every run of steps of calls, reader and consumer keeps the invariant |
| SignalClients.JsonRpcClient.StartCall | signal/rpc.go:99-101 | takes the next number of the 64-bit counter and leaves a call under it that is not yet registered |
| SignalClients.JsonRpcClient.RegisterCall | signal/rpc.go:103-105 | the entry of the call's id is the call |
| SignalClients.JsonRpcClient.RemovePending | signal/rpc.go:204-208 | the entry of the id is gone and all others stay |
| SignalRpc.ResponsesCorrelate | signal/rpc.go:131-189 | in every interleaving, a call that returns a response returns one with its own id, and no response is returned twice (section 5 of the JSON-RPC 2.0 specification) |
| SignalRpc.ReaderNeverWaitsForACall | signal/rpc.go:157-219 | every channel is sent at most one message, every send finds room, and the reader can only be held up by a full notification channel |
| SignalRpc.NoCallIsForgotten | signal/rpc.go:99-219 | before the counter comes round, a registered call that has not returned is pending, has its message, or is the one about to be sent to |
| SignalRpc.FailPendingAnswersEveryCall | signal/rpc.go:210-219 | when failPending releases the lock, every registered call that has not returned holds its response or the end of the reads |
| SignalRpc.NotificationsComeInOrder | signal/rpc.go:170-174 | in every interleaving the consumer gets every notification read, once and in order |
| SignalAnswers.FirstResponseIsGiven | signal/rpc.go:99-219 | in every interleaving, a registered call is given at most one message, the first response to its id among the lines the reader had not matched when it registered, or the end of the reads if they held none |
| SignalAnswers.NoResponseIsMissed | signal/rpc.go:181-188 | while a registered call waits without a message and the counter has not come round, no line the reader has dealt with since responds to it, but for the one about to be handed over |
| SignalAnswers.NextRoundTakesTheEntry | signal/rpc.go:100-105 | a call that is numbered 2^64 calls later takes over the entry of one that still waits |
| SignalAnswers.FirstCallMayWaitForever | signal/rpc.go:100-105 | a run from the start, of 2^64 + 1 calls, after which the first call waits and is never sent anything |
| SignalRpc.ReadAllIsARun | signal/rpc.go:151-202 | the uninterrupted reader is one of the interleavings |
| SignalRpc.FirstResponseWins | signal/rpc.go:157-219 | the uninterrupted reader, with room for the notifications, gives a registered call the first response to its id, or the end of the reads, among duplicates, unknown ids and malformed lines |
| SignalLines.RespondsIff | signal/rpc.go:176-237 | a line responds to the i-th call exactly when its id is the decimal number of that call, as a string or as a number |
| SignalLines.ResponseIsHandedOver | signal/rpc.go:176-188 | such a line is put into the channel of the registered call, whose entry goes; nothing else changes |
| SignalLines.NotificationIsQueued | signal/rpc.go:170-174 | a line that names a method and has no id is queued while fewer than 128 are |
| SignalLines.OtherLinesArePassedOver | signal/rpc.go:157-188 | blank and malformed lines, lines without a usable id and responses nobody waits for change nothing |
| SignalLines.GivingUpReturns | signal/rpc.go:114-128 | a call whose request cannot be written or whose context is done returns with that reason and removes its entry |
| SignalLines.NoEntryIsLeftBehind | signal/rpc.go:99-208 | in every interleaving, the entries of the map belong to calls that have not returned, but for those that returned because the connection was closed |
| SignalClients.JsonRpcClient.FailPending | signal/rpc.go:210-219 | the map is empty and every call that was in it, and no other, was sent the end of the reads |
| SignalClients.JsonRpcClient.ReadLoop | signal/rpc.go:151-202 | the loop computes `ReadAll`, each line of which does what `SignalLines` says, and reports whether it reached the end |
| MatrixSplit.SendMessage | matrix/backend.go:244-283 | the calls made are the chunks in order up to the first failure, only the first one a reply; the result is the id of the last chunk that went through |
| MatrixSplit.ChunksAreLossless | matrix/backend.go:250-262 | the chunks concatenate to the text and each has 1 to 30000 bytes |
| MatrixSplit.TornChunksAreFull | matrix/backend.go:250-257 | every chunk but the last ends in a newline, or has exactly 30000 bytes and no newline after its first byte |
| MatrixSplit.GreedyIsOptimal | matrix/backend.go:250-262 | for every text, no split that cuts only after newlines, within the limit, has fewer pieces |
| MatrixSplit.WholeIffLinesPack | matrix/backend.go:250-262 | every cut is right after a newline if and only if filling the messages line by line never meets a line over the limit, nor one that does not fit in behind a lone empty line |
| MatrixSplit.FittingLinesStayWhole | matrix/backend.go:250-262 | it is so when no line with its terminator has more than 30000 bytes and none of exactly 30000 directly follows an empty line |
| MatrixSplit.ShortLinesStayWhole | matrix/backend.go:252-256 | in particular when none has more than 29999 |
| MatrixSplit.WholeLinesFit | matrix/backend.go:250-262 | a text with a line of more than 30000 bytes has a cut that is not after a newline |
| MatrixSplit.OneByteMoreIsTorn | matrix/backend.go:254 | an empty line and a line of exactly 30000 bytes: the line is torn although a newline-aligned split of the text fits the limit |
| OutboxStores.OutboxStore.Put | outbox.go:34-82 | all of the transaction or nothing, for a fault in any of its statements |
| OutboxStores.OutboxStore.Get | outbox.go:85-107 | the stored text, or the empty string for an empty id, an unknown id or a failing query |
| OutboxStores.PutRefinesFifo | outbox.go:50-77 | one Put updates in place or appends and trims the head in its conversation's list, and leaves every other conversation alone |
| OutboxStores.StoreRefinesFifoLists | outbox.go:34-107 | over every sequence of Puts, each conversation holds at most 500 entries and Get is the lookup in its own list |
| OutboxStores.PutIsFoundUnlessItFails | outbox.go:34-107 | after any Puts, a Put without an id or with a failing statement changes nothing, where the eviction counts only if 500 others fill the conversation and the id is new; every other one is found by the next Get |
| OutboxStores.RecentReplyIsFound | outbox.go:30-33 | a reply stored under a new id and not put again can be looked up if and only if fewer than 500 more were stored under new ids in its conversation since; failed Puts and repeats do not count |
| OutboxStores.RowidsAscend | outbox.go:30-33 | over every sequence of Puts the rowids of the table ascend, so that the order of rowids is the order of insertion that eviction relies on |

## Left out

- The loop of `run` and `signal` of the publish queue (waiting on its timer and wake channel), `Flush` and its waiters: only what drainOnce tells the loop to do is modelled.
- Real clocks: time is an integer that does not run backwards, across restarts too; Go's saturation of durations is not modelled, and the zero time is a constant far in the past.
- The per-event publish timeout: a timed-out publish is one of the rejections.
- Serialising events: a row holds its event or is corrupt; a failing marshal counts as a failing insert; a failing query in load is left out.
- PublishQueues.PublishQueue.NextWake: uses an option for "no earliest time yet" where the source uses the zero time.
- SQLite: statements act on sequences of rows in id order; that rowids of `sent_messages` are not reused after deletions at the end of the table is not needed, as eviction takes the oldest rows.
- OutboxStores.RecentReplyIsFound: is about replies whose id is new to the conversation; one that is put again keeps its old place in the list and is evicted with it.
- Starting, stopping and killing the agent process, session freshness and the idle reaper; that a session is alive is an answer of the environment.
- The prompts, replies and files that a processed item leads to, the second attempt with a fresh process and the second prompt after an empty reply; an item counts as processed when the worker starts on it.
- Workers.Worker.DrainOnce: runs without interruption; interleavings are the subject of the step machine, whose steps have the same effects.
- WorkerModel.RunKeepsInv: an abort takes effect as one step; one whose item has already finished does nothing, as in the source, and is left out.
- WorkerModel.NoLostWakeUp: is about the worker being blocked; that a running item comes to an end is up to the agent.
- JSON decoding of events, messages and results; values of the fields are given. Text deltas are recorded whether or not a receiver is set.
- PiRpc.CallsGetTheirReplies: is about runs without cancellation and process exit, as the events that a cancelled call leaves behind belong to the next one.
- PiProcesses.PiProcess.SendAndWait: is about a process that is alive and takes the command; otherwise the source returns an error at once.
- The wait for a compact response (`waitForCompactResponse`), which uses the same event loop.
- SignalClients.JsonRpcClient.ReadLoop: runs without interruption and reports when the notification channel is full; interleavings are the subject of the step machine.
- `Close`, the write lock and the error channel of the multiplexer; decoding a result into the caller's value.
- Markdown rendering and the Matrix call itself. A chunk without a newline to cut at may end inside a UTF-8 sequence, as in the source.
- A crash in the middle of a transaction of the reply store: a Put takes effect as a whole or not at all.
