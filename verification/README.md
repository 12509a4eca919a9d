# imcodex: delivery, routing and configuration, verified

imcodex connects IM conversations to a native Codex server and must not lose, duplicate or misroute a
message across reconnects, crashes and restarts. This Dafny project models the parts of it that carry
that promise and proves what they keep over every run, for every input and in every interleaving.
`dafny verify dfyconfig.toml` checks all of it.

- `Persistence.dfy`: the revisioned state file and its concurrent writers (synchronous saves, the
  background writer with its one-entry slot, awaited commits), as a state machine. A step is a
  stretch of code between two points where another task or thread may run; file replacement is one
  step that may fail. `PersistenceProgress.dfy`: what gets done; writes, flushes and commits end.
- `Client.dfy`: connection epochs, request futures, the two dispatch lanes, faults, resets and
  reconnects of the App Server client, as a state machine in the same style. `ClientProgress.dfy`: what
  a reply, a fault, a lane and a reset settle, dispatch and cancel, and that resets end.
- `StoreModel.dfy`, `StoreRuns.dfy`, `StoreLaws.dfy`, `StoreEffects.dfy`, `ConversationStore.dfy`: the
  bridge store. The first gives each operation as a function of the store, the second proves what all
  runs of operations keep and what a restart gives back, the next two what single operations do, what
  they leave alone and which files are refused, and the last is the class whose methods and loops refine those functions and keep
  that invariant. Callers pass non-empty, trimmed conversation and thread ids, as a saved file must.
- `Recency.dfy`: the trimmed caches of message ids, responses, deliveries and turn completions.
- `Delivery.dfy`, `DeliveryRuns.dfy`, `BridgeCore.dfy`: live answers, turn ends, recovered turns and
  retries over one outbox and one state file, as functions, over whole runs, and as a class with loops.
  `DeliveryLaws.dfy` says what one turn end, attempt, recovery and retry does.
  `DeliveryLosses.dfy`, `DeliveryWatches.dfy`, `DeliveryRepeats.dfy` and `DeliveryExamples.dfy` say what
  is lost, what is found again and what is sent again.
- `Projection.dfy`, `LiveTurn.dfy`, `Identity.dfy`: the messages of a recovered turn, the buffers of a
  live one, and the delivery identities that make the two coincide.
- `MarkdownMask.dfy`, `Dotenv.dfy`, `DotenvEdit.dfy`, `DotenvLaws.dfy`, `Frames.dfy`, `History.dfy`,
  `Ancestry.dfy`: text and list algorithms with loops, each proved against a declarative account.
- `Prelude.dfy`, `Text.dfy`, `Lines.dfy`, `OrderedDict.dfy`, `Wording.dfy`: options and results, Python's
  `strip` and `splitlines`, insertion-ordered dictionaries, and texts put together from parts.

What the outside decides (whether I/O fails, when a task is cancelled, what a delivery attempt meets,
what staging a file answers, the time) is an input of the step or method it affects. Snapshots,
messages and native items are values, not JSON text. SHA-256 is a function parameter that the lemmas
about identities require to be injective.

A restart loads the state file. In `Delivery.dfy` and behind it that is the store of the last moment
whose snapshot reached the file, which a flush that returns makes the present one; the operation
`Restart` of `StoreRuns.dfy` is a save followed by a load.

Six properties turned out to hold only under a condition. Each has the exact condition and a concrete
input or run that shows the exception: a flush after the background writer was cancelled
(`Persistence.FlushReturnCovers`, `Persistence.CancelledWriterStrandsASave`), the teardown after a full
queue (`Client.FullLaneTearsDownExactly`, `Client.FullLaneRun`), a live answer refused before it was
staged (`DeliveryLosses.AnswerIsKeptExactly`, `DeliveryExamples.RefusedAnswerIsLost`), one that is staged
but not written before a restart (the same theorem, `DeliveryExamples.UnsavedAnswerIsFoundAgain`; the
watch of its turn then remains), an answer sent once (`DeliveryRepeats.SentAgainExactly` and
`DeliveryRepeats.SentAfterRestartExactly`; `DeliveryExamples.SentTwiceInARow` and
`DeliveryExamples.SentAgainAfterCrash`), and the identity of an answer that only its notification names
(`Identity.UnnamedAnswerChangesId`, `Identity.UnnamedAnswerHasTwoIds`).

## Model

| member | source | states |
|---|---|---|
| `Persistence.FileIsThePersistedSnapshot` | src/imcodex/store.py:655-696 | In every run of concurrent writers, whenever the save lock is free the state file is the snapshot whose revision is the persisted one; while the lock is held it is still some complete snapshot, never older than that. |
| `Persistence.ReturnedWriteIsCovered` | src/imcodex/store.py:655-696 | A write that returned normally left the persisted revision at or above its own, also when its own I/O failed because a newer writer had won. |
| `Persistence.FileNeverGoesBack` | src/imcodex/store.py:655-696 | From any state of a run to any later one neither the persisted revision, nor the revision, nor the content of the file goes back. |
| `Persistence.FlushIsExact` | src/imcodex/store.py:516-577 | Once the background writer is idle and no write holds the save lock, a flush is done: it returns when every revision `_save` ever queued is persisted, although the slot holds one entry, and, while the writer was never cancelled, only then; otherwise it raises for the newest failed revision that is not. |
| `Persistence.FlushReturnCovers` | src/imcodex/store.py:529-577 | With cancellation allowed, a flush that returns has covered every queued revision if and only if the slot is empty or its entry is superseded. |
| `Persistence.CancelledWriterStrandsASave` | src/imcodex/store.py:529-577 | A concrete run in which cancelling the background writer leaves a queued revision unwritten although the flush returns. |
| `Persistence.CrashKeepsCommittedMarkers` | src/imcodex/store.py:364-440 | At every point of every run, also in the middle of a write, each awaited commit that is no longer dirty has its marker in the file. |
| `Persistence.CommitOutcome` | src/imcodex/store.py:364-440 | With at most one cancellation, a commit or retry that gets past its write has its marker in the file and the key clean; after a failed write the marker stays in memory, the key stays dirty and a retry is possible. |
| `Persistence.RetriesRecordNothing` | src/imcodex/store.py:364-440 | The in-memory state of every run is exactly its mutations and one marker for each commit: cancellations, failed writes and retries add nothing, so nothing is executed again. |
| `Persistence.ReachableInv` | src/imcodex/store.py:516-577 | The invariant behind these results holds after every run of save, flush, background, commit and writer steps. |
| `PersistenceProgress.FlushEnds` | src/imcodex/store.py:529-577 | From every state of every run, behind failures and cancellations too, a flush that waits has an enabled next step of the background writer or of a write, and once no further save comes a flush is done after finitely many of them. |
| `PersistenceProgress.WriteEnds` | src/imcodex/store.py:655-696 | Every write ends, whatever other writes are under way, and leaves the save lock; one that meets no failure returns. |
| `PersistenceProgress.SavedIsOnDisk` | src/imcodex/store.py:516-577 | A flush that returns behind a save has put everything recorded up to that save into the file, unless the background writer was cancelled. |
| `PersistenceProgress.SaveIsQueued` | src/imcodex/store.py:516-527 | In every run a save queues a new revision that stands for everything recorded so far, and leaves a background writer to write it, a new one when the last is gone. |
| `PersistenceProgress.CommitIsWritten` | src/imcodex/store.py:364-424 | A commit or retry waits for the write of a new snapshot of everything recorded so far, the marker of its message included. |
| `PersistenceProgress.CommitEnds` | src/imcodex/store.py:364-440 | An awaited commit or retry never hangs: from every state of a run its write ends and it goes on; without a failure its message is clean and its marker in the file. |
| `PersistenceProgress.FailedWriteReturnsExactly` | src/imcodex/store.py:677-696 | A write that failed returns exactly when a revision not older than its own has persisted and its clean-up does not fail, and otherwise raises; file and persisted revision stay. |
| `PersistenceProgress.WriterGoesOn` | src/imcodex/store.py:536-550 | When the write it awaited has ended, the background writer goes on unless it was cancelled, and the failures it then keeps are exactly those newer than what has persisted. |
| `Client.FuturesAreSettledOnce` | src/imcodex/appserver/client.py:982-1024 | Over any interleaving a request future is settled at most once, by a response only when it arrived on the connection epoch that sent the request, and an unsettled one is still registered under its epoch. |
| `Client.FinishedEpochIsOver` | src/imcodex/appserver/client.py:1318-1321 | Once the reset of an epoch has finished, in every later state no future of that epoch is unresolved and no request can be registered under it. |
| `Client.LanesDispatchPrefixes` | src/imcodex/appserver/client.py:1136-1164 | Dispatch sequences increase over the life of the client, and each lane of each connection has dispatched exactly a prefix, in order, of what it received, with its queue within the limit. |
| `Client.NewSequenceIsAbove` | src/imcodex/appserver/client.py:1251-1268 | Every message that is not a response gets a sequence above all earlier ones, across reconnects. |
| `Client.OverflowTearsDown` | src/imcodex/appserver/client.py:1089-1134 | A message is left out only when its queue was full; it is the last one its connection receives and nothing received is skipped. |
| `Client.FullLaneTearsDownExactly` | src/imcodex/appserver/client.py:1089-1134 | In every run, a message for a full lane tears its connection down if and only if no reset of another connection is still running when it arrives. |
| `Client.FullLaneLeavesTheTransport` | src/imcodex/appserver/client.py:1323-1357 | Otherwise that reset ends with the connection in use and its listener gone; so it stays until the next request, which resets such a connection first (lines 762-768). |
| `Client.FullLaneRun` | src/imcodex/appserver/client.py:1251-1268 | A concrete run, for every configuration and either lane, in which a connection opened by a reset handler receives one message more than the lane holds and stays in use without a listener. |
| `Client.ReachableInv` | src/imcodex/appserver/client.py:1359-1424 | The invariant behind these results holds after every run of opens, requests, receives, timeouts, lane steps and reset phases. |
| `ClientProgress.ReplySettlesExactly` | src/imcodex/appserver/client.py:1270-1279 | In every run a reply settles the request it names if and only if that request is registered, unsettled and was sent on the connection the reply arrived on; every other future is as before. |
| `ClientProgress.FaultFailsExactly` | src/imcodex/appserver/client.py:1089-1134 | A connection that stops being readable, or gets a message for a full lane, fails exactly its own unsettled requests. |
| `ClientProgress.QueuedExactly` | src/imcodex/appserver/client.py:1251-1268 | A message that is not a reply goes to the end of its lane, with the next sequence, exactly when the lane has room; nothing else of any connection changes. |
| `ClientProgress.LaneDrains` | src/imcodex/appserver/client.py:1136-1164 | A lane in use whose dispatcher has not stopped dispatches everything it holds, in order, by steps of its dispatcher alone. |
| `ClientProgress.ResetEnds` | src/imcodex/appserver/client.py:1359-1424 | From every state of a run a reset ends by its own steps; its epoch is then finished, not in use and without open requests, and a client that is not closed may connect again. |
| `ClientProgress.ClosedOpensNothing` | src/imcodex/appserver/client.py:786-883 | In every run, nothing opens a connection once the client is closed. |
| `StoreRuns.ThreadHasOneConversation` | src/imcodex/store.py:108-161 | After every run of binds, steals, clears, `/cwd` changes, requests, saves and reloads, a bound thread is bound to one conversation only, its recipient route names it, and so does every pending native request of the thread. |
| `StoreRuns.RestartIsInvisible` | src/imcodex/store.py:579-653 | After any run, a restart gives what loading the saved store gives: the same binding of every conversation, although defaults are not saved, the same recipient routes, watches and outbox order, exactly the acknowledgements that are standalone or whose turn has a watch, and no pending request or active turn. |
| `StoreRuns.LoadGivesRestored` | src/imcodex/store.py:698-851 | Loading what a reachable store saves never fails and gives that store without its defaults, its pending requests and the acknowledgements nothing watches. |
| `StoreRuns.ListingIsStagingOrder` | src/imcodex/store_terminal_deliveries.py:65-78 | After every run, saves and reloads included, listing the outbox gives exactly the staged and uncompleted deliveries in staging order. |
| `StoreRuns.StagedUntilCompleted` | src/imcodex/store_terminal_deliveries.py:27-54 | A staged delivery leaves the outbox only by completion; re-staging its id, rebinding its thread or saving and reloading the store neither drops nor replaces it. |
| `StoreRuns.AcksAreTheNewest` | src/imcodex/store_terminal_deliveries.py:139-148 | As long as every completion finds its id not acknowledged, as the bridge core keeps it in every run, the store has exactly the newest 512 standalone acknowledgements of the whole run, in order; an id whose acknowledgement was pruned or dropped may come again. |
| `StoreRuns.PruneKeepsNewest` | src/imcodex/store_terminal_deliveries.py:139-148 | Pruning keeps exactly the newest 512 standalone acknowledgements and every turn-bound one. |
| `StoreRuns.TurnAcksSurviveCompletion` | src/imcodex/store_terminal_deliveries.py:118-137 | Completing another delivery never drops the acknowledgement of a native turn. |
| `StoreRuns.ApplyKeepsInv` | src/imcodex/store.py:108-161 | Every store operation keeps the consistency of bindings, routes, requests, watches, outbox and acknowledgements. |
| `StoreLaws.BindHandsOver` | src/imcodex/store.py:115-135 | After every bind, a repeated one included, every conversation has its binding back but for the thread, which is this one's alone with its requests and its route; a watch or acknowledgement is gone exactly when it belongs to another thread this conversation gives up, and the others keep their values and order; staged deliveries, outcomes, active and suppressed turns are as before. |
| `StoreLaws.ClearForgets` | src/imcodex/store.py:150-161 | Clearing a conversation takes away exactly its thread, and of that thread exactly the watches, acknowledgements, active turn and suppressed turns; everything of other threads and conversations, and all staged deliveries and requests, are as before. |
| `StoreLaws.SetCwdUnbinds` | src/imcodex/store.py:108-113 | After `/cwd` the thread the conversation had is bound nowhere. |
| `StoreLaws.DiscardForgets` | src/imcodex/store_terminal_deliveries.py:164-177 | Discarding leaves neither a watch nor an acknowledgement of the turn and keeps those of every other. |
| `StoreLaws.FoundExactly` | src/imcodex/store.py:94-98 | In a consistent store the conversation found for a thread is the only one that is bound to it. |
| `StoreLaws.StagedIsListedLast` | src/imcodex/store_terminal_deliveries.py:27-54 | A new delivery is listed behind all others. |
| `StoreLaws.CompletedIsDelisted` | src/imcodex/store_terminal_deliveries.py:118-137 | Completing removes exactly one entry of the sorted listing and acknowledges it if and only if it is not then among the standalone acknowledgements beyond the newest 512, which only an id acknowledged before can be. |
| `StoreLaws.LoadFailsExactly` | src/imcodex/store.py:698-851 | A state file of version 2 whose parts are lists of objects and whose outcomes are objects is refused exactly when some entry of it is malformed, with the error of the first part that has one. |
| `StoreLaws.LoadedIsConsistent` | src/imcodex/store.py:698-851 | Whatever the file says, a loaded store has at most 512 standalone acknowledgements and no other one without a watch, routes every bound thread to a conversation bound to it, and numbers new deliveries behind the loaded ones. |
| `StoreEffects.BindStoresCwd` | src/imcodex/store.py:137-148 | Binding with a directory binds and stores the directory of this conversation, unless it is empty. |
| `StoreEffects.RequestIsRecordedExactly` | src/imcodex/bridge/projection.py:17-34 | In a consistent store a native request is recorded with the conversation its thread is bound to, its turn and its epoch, unless no conversation has the thread or the turn is suppressed; every other request is as before. |
| `StoreEffects.RequestsAreRemovedExactly` | src/imcodex/store_pending_requests.py:110-132 | Removing a request, those of a turn or those of a lost connection removes exactly these and changes no other. |
| `StoreEffects.WatchedExactly` | src/imcodex/store_terminal_deliveries.py:14-25 | A turn is watched afterwards exactly when it was, or is a named turn of a bound thread; a new watch comes last, and an old one keeps its time. |
| `StoreEffects.OutcomesExactly` | src/imcodex/store_terminal_deliveries.py:118-148 | Completing a standalone delivery keeps of its metadata exactly the receipts and failures of its files, as long as its acknowledgement is kept; outcomes of other deliveries go only with their acknowledgements. |
| `StoreEffects.SavedExactly` | src/imcodex/store.py:595-602 | A conversation is saved exactly when it differs from one nobody has used. |
| `StoreEffects.ListingIsOrdered` | src/imcodex/store_terminal_deliveries.py:65-78 | The listing of any outbox, one loaded from an edited file too, has each staged delivery once, by sequence, then time, then id. |
| `StoreEffects.RoutesAreSavedInOrder` | src/imcodex/store.py:604-611 | Recipient routes are saved once each in the order of their threads, whatever the order in which they were bound. |
| `StoreEffects.PendingIsLoaded` | src/imcodex/store.py:767-813 | An entry without a message is loaded as a watch; any other is staged under its id, the one in its message or one derived from it, with its sequence or else its place in the file, and later deliveries are numbered behind it. |
| `StoreEffects.TouchesOnly` | src/imcodex/store.py:108-161 | Each store operation changes only the parts of the store it is about. |
| `ConversationStores.ConversationStore.GetBinding` | src/imcodex/store.py:82-89 | Reading a binding creates the default one and changes no other state. |
| `ConversationStores.ConversationStore.FindBindingByThread` | src/imcodex/store.py:94-98 | The loop finds the first binding of the thread in insertion order; that is the conversation the thread is bound to, and none is found exactly when there is none. |
| `ConversationStores.ConversationStore.SetBootstrapCwd` | src/imcodex/store.py:108-113 | The directory is set and the thread the conversation had is bound nowhere; every other conversation and all the rest of the store is as before. |
| `ConversationStores.ConversationStore.BindThread` | src/imcodex/store.py:115-135 | The two loops leave the thread, its requests and its recipient route to this conversation alone. Watches and acknowledgements are dropped exactly for another thread it had before, so that binding the same thread again drops none; the bindings of other conversations, their requests, all turns, outcomes and staged deliveries are as before. |
| `ConversationStores.ConversationStore.BindThreadWithCwd` | src/imcodex/store.py:137-148 | As binding, and afterwards this conversation has the directory, unless an empty one was given. |
| `ConversationStores.ConversationStore.ClearThreadBinding` | src/imcodex/store.py:150-161 | Exactly the binding, watches, acknowledgements, active turn and suppressed turns of the thread are gone; everything else is as before. |
| `ConversationStores.ConversationStore.ProjectRequest` | src/imcodex/bridge/projection.py:17-34 | A request of a bound thread is recorded with the one conversation the thread is bound to, unless its turn is suppressed; then, and when the thread is not bound, nothing changes, and no other request ever does. |
| `ConversationStores.ConversationStore.InvalidateForConnection` | src/imcodex/store_pending_requests.py:125-132 | Exactly the requests of the closed connection epoch are removed and returned, and every other one is as before. |
| `ConversationStores.ConversationStore.WatchTerminalDelivery` | src/imcodex/store_terminal_deliveries.py:14-25 | A turn is watched afterwards exactly when it was before or is a named turn of a thread some conversation is bound to; existing watches keep their time. |
| `ConversationStores.ConversationStore.StageTerminalDelivery` | src/imcodex/store_terminal_deliveries.py:27-54 | A blank id is refused, an id already staged returns its stored payload and changes nothing, and a new one is listed behind everything staged before. |
| `ConversationStores.ConversationStore.UpdateTerminalDeliveryMessage` | src/imcodex/store_terminal_deliveries.py:89-98 | The listing keeps its order and every entry but the message of this one. |
| `ConversationStores.ConversationStore.CompleteTerminalDelivery` | src/imcodex/store_terminal_deliveries.py:118-137 | Exactly this delivery leaves the listing; it is acknowledged for its turn when it was not before, and the pruning behind it does not take it back. |
| `ConversationStores.ConversationStore.PruneAcknowledgements` | src/imcodex/store_terminal_deliveries.py:139-148 | The popping loop leaves exactly the newest 512 standalone acknowledgements, in order. |
| `ConversationStores.ConversationStore.DiscardTerminalWatch` | src/imcodex/store_terminal_deliveries.py:164-177 | The turn is neither watched nor acknowledged afterwards; watches and acknowledgements of other turns and the rest of the store are as before. |
| `ConversationStores.LoadStore` | src/imcodex/store.py:698-851 | Loading with its loops gives back what any consistent store saved, without its defaults, pending requests and the acknowledgements nothing watches. |
| `Recency.RecentStep` | src/imcodex/store.py:459-462 | Moving a key to the end of a trimmed list and trimming again gives the newest distinct keys of the whole untrimmed history. |
| `Recency.RecentMeans` | src/imcodex/store.py:442-471 | A key is among the newest K distinct ones exactly when it occurred and fewer than K different keys occurred after its last occurrence. |
| `Recency.RecentKeys.Remember` | src/imcodex/bridge/core.py:1281-1293 | The 512-entry maps of deliveries and of turn completions always hold the newest 512 distinct keys, in the order of their last occurrence. |
| `Recency.RecentKeys.Contains` | src/imcodex/bridge/core.py:1205-1207 | A key is found exactly when fewer than 512 different ones were remembered after it. |
| `Recency.RememberResponse` | src/imcodex/store.py:463-471 | The response map, popped, extended and trimmed in place, holds exactly the newest 32 answered ids with the last response of each. |
| `Recency.TrimResponses` | src/imcodex/store.py:467-470 | Popping the overflow leaves exactly the newest 32 entries. |
| `Recency.InboundLog.RecordInboundMessageProcessed` | src/imcodex/store.py:442-471 | Recording keeps every conversation's id list and response map equal to the newest 1024 and 32 distinct ids of its whole history, and a message without an id only notes its fingerprint. |
| `Recency.InboundLog.GetProcessedInboundResponse` | src/imcodex/store.py:473-486 | A response is found exactly while its id is among the newest 32 that got one, and it is the last one recorded. |
| `Recency.InboundLog.ShouldDropDuplicate` | src/imcodex/store.py:488-514 | A message with an id is dropped exactly when it is among the 1024 most recently processed distinct ids of its conversation; one without an id exactly when its fingerprint was recorded within the window, for a clock that does not run backwards. |
| `DeliveryRuns.ApplyKeepsInv` | src/imcodex/bridge/core.py:745-820 | Every step, a write of the state file and a restart from it included, keeps what is staged apart from what was delivered lately and acknowledged, here and in the file, and acceptances of an id 512 ids apart. |
| `DeliveryRuns.DeliverHolds` | src/imcodex/bridge/terminal_delivery.py:247-381 | An attempt that is not refused holds its id; when its staging reaches the state file, everything held is secured for the next process, and otherwise nothing new is. |
| `DeliveryRuns.RetryAllKeepsInv` | src/imcodex/bridge/terminal_delivery.py:439-519 | A retry pass sends staged deliveries only, each at most once, and forgets none it did not handle. |
| `DeliveryRuns.RecentInLog` | src/imcodex/bridge/core.py:1281-1293 | An id is recent exactly when some remembered acceptance of it has fewer than 512 different remembered ids behind it. |
| `DeliveryLosses.LandedIsNeverLost` | src/imcodex/bridge/terminal_delivery.py:247-381 | A delivery whose staging reached the state file, as that of every durable attempt does, is never lost: whatever follows, restarts included, it is staged, was accepted by a channel, or was completed by a retry that could not use its payload. |
| `DeliveryLosses.SecuredIsNeverLost` | src/imcodex/bridge/terminal_delivery.py:439-519 | What the state file has staged, or is done, stays so through any run. |
| `DeliveryLosses.RestartKeepsExactly` | src/imcodex/store.py:698-851 | After any run, a restart keeps a staged delivery if and only if the state file has it staged; watches are those of the file. |
| `DeliveryLosses.AnswerIsKeptExactly` | src/imcodex/bridge/terminal_delivery.py:247-285 | A new live answer is kept through any later run if and only if it is not refused (its metadata names no other delivery, preparing it does not fail and its id is not blank) and, when a restart follows, its staging reached the state file or the file was written before that restart. |
| `DeliveryWatches.AnswerOrWatchSurvives` | src/imcodex/bridge/core.py:804-820 | When the file has the watch of a turn, an answer of it that is not refused is there after the next restart or else the watch is, whatever was written or not and whether or not the turn has ended. |
| `DeliveryWatches.WatchedIsNeverLost` | src/imcodex/bridge/core.py:1044-1148 | Through any number of restarts the answer is held or its turn is watched, unless the turn is given up while the answer is not held: by its end, by a recovery that does not list the answer, or by a store operation that drops the watch. |
| `DeliveryWatches.EndKeepsWatchExactly` | src/imcodex/bridge/core.py:804-820 | The end of a turn that shows nothing keeps its watch exactly while something of it is staged. |
| `DeliveryWatches.RecoveryAccountsForAll` | src/imcodex/bridge/core.py:1094-1127 | A turn recovered without an error has each of its deliveries sent, staged or known before; it stays pending exactly when an attempt it made failed or was not durable. |
| `DeliveryRepeats.SentOnceInAWhile` | src/imcodex/bridge/core.py:1205-1293 | In every run of live answers, turn ends, recoveries, retries, store operations and restarts, between two acceptances of an id since the last restart, of which the first was remembered, at least 512 different ids were remembered. |
| `DeliveryRepeats.SentAgainExactly` | src/imcodex/bridge/core.py:1205-1213 | An accepted attempt sends its id, whatever was accepted of it before, exactly when it is neither staged nor acknowledged and every remembered acceptance of it lies 512 different ids back. |
| `DeliveryRepeats.SentAfterRestartExactly` | src/imcodex/bridge/core.py:1205-1213 | Behind a restart an accepted attempt sends its id, whatever earlier processes sent, exactly when the state file neither has it staged nor keeps its acknowledgement, which it does for standalone deliveries and watched turns. |
| `DeliveryRepeats.RetriedAfterRestartExactly` | src/imcodex/bridge/terminal_delivery.py:439-519 | The first retry pass behind a restart sends exactly those ids the state file has staged and a channel accepts. |
| `DeliveryRepeats.AcknowledgedIsNotSent` | src/imcodex/bridge/core.py:1205-1213 | No step, a recovery after a restart included, sends an answer whose acknowledgement the store keeps. |
| `DeliveryExamples.RefusedAnswerIsLost` | src/imcodex/bridge/core.py:804-820 | A concrete run in which the answer of a watched turn cannot be prepared and the end of the turn drops its watch: nothing of it is left. |
| `DeliveryExamples.UnsavedAnswerIsFoundAgain` | src/imcodex/bridge/terminal_delivery.py:274-313 | A concrete run in which both flushes of an answer fail, its turn ends and a restart loses the answer; the watch of its turn is still there. |
| `DeliveryExamples.SentTwiceInARow` | src/imcodex/bridge/terminal_delivery.py:569-598 | A concrete run in which an answer accepted without being remembered is sent again with no other delivery in between. |
| `DeliveryExamples.SentAgainAfterCrash` | src/imcodex/bridge/terminal_delivery.py:439-519 | A concrete run in which an answer is sent and remembered, its completion does not reach the file, and the next process sends it again. |
| `DeliveryExamples.EndForgetsRefused` | src/imcodex/bridge/core.py:804-820 | The end of a turn whose answer was refused keeps its watch exactly when something else of the turn is still staged. |
| `DeliveryLaws.RepeatedEndIsIgnored` | src/imcodex/bridge/core.py:748-757 | A completion of a turn behind whose last completion fewer than 512 different turns ended changes nothing, whatever it would show; any other one is remembered, unless showing its message raises. |
| `DeliveryLaws.RepeatedEndsAreIgnored` | src/imcodex/bridge/core.py:748-757 | Over every run, such a repeated completion leaves store, state file, everything sent, and every ended and recovered turn as they were. |
| `DeliveryLaws.EndDropsWatchExactly` | src/imcodex/bridge/core.py:804-820 | A completion that counts drops the watch of its turn exactly when showing its message does not raise and either was durable or leaves nothing of the turn staged. |
| `DeliveryLaws.StagedMessage` | src/imcodex/bridge/terminal_delivery.py:247-285 | What is staged is the message itself, same text and metadata with the id of the delivery, for its turn, last in the outbox and with the next sequence. |
| `DeliveryLaws.WrittenExactly` | src/imcodex/bridge/terminal_delivery.py:274-381 | What the state file has behind an attempt: the whole store when its completion was flushed, else the staged delivery when its staging landed, and otherwise what it had before. |
| `DeliveryLaws.UnboundIsDropped` | src/imcodex/bridge/core.py:1044-1050 | A recovered turn whose thread no conversation has any more is dropped and nothing of it is delivered. |
| `DeliveryLaws.PassLeaves` | src/imcodex/bridge/terminal_delivery.py:439-519 | Behind a whole retry pass each listed delivery is gone exactly when its own retry was accepted or found it unusable, is as it was when it was blocked, and has its new message when it failed. |
| `DeliveryLaws.RetriedTurnIsReleased` | src/imcodex/bridge/terminal_delivery.py:554-567 | A retry drops the watch of its turn exactly when it took the last staged delivery of a turn that ended lately, and no other watch. |
| `DeliveryLaws.AcceptedOutcome` | src/imcodex/bridge/terminal_delivery.py:494-500 | The outcome kept of a standalone delivery is that of the message as it was accepted, not as it was staged. |
| `BridgeCores.BridgeCore.IsKnown` | src/imcodex/bridge/core.py:1205-1213 | A delivery is known exactly when it is recent, acknowledged or staged. |
| `BridgeCores.BridgeCore.DeliverAnswer` | src/imcodex/bridge/core.py:758-814 | A known answer changes nothing; any other is delivered, and remembered when it was sent. |
| `BridgeCores.BridgeCore.FinishTurn` | src/imcodex/bridge/core.py:745-820 | A completion of a turn that ended lately changes nothing at all; any other one is remembered unless showing its message raises, and the watch goes when the message is durable or nothing of the turn is staged. |
| `BridgeCores.BridgeCore.RecoverOne` | src/imcodex/bridge/core.py:1045-1127 | The loop over a recovered turn does what the specification says: skip known deliveries, stop at an error, and drop the watch only when all are accounted for. |
| `BridgeCores.BridgeCore.RecoverPending` | src/imcodex/bridge/core.py:1044-1148 | An error in one recovered turn does not keep the others from being recovered. |
| `BridgeCores.BridgeCore.RetryPending` | src/imcodex/bridge/terminal_delivery.py:439-519 | Unless the flush before it returns nothing is retried; then the loop over the listed outbox refines its specification, although the outbox changes while it runs. |
| `Projection.RecoveredMessagesPair` | src/imcodex/bridge/projection.py:174-218 | While the thread stays bound, the messages of a recovered turn and its identities have equal length and pair in order, each answer with the identity of the item it was rendered from; the length guard fires exactly when the thread lost its conversation. |
| `Projection.MessageOfAnswer` | src/imcodex/bridge/projection.py:314-387 | Message k is rendered from the k-th answer: it starts with its text, carries its native id and has the status of the turn. |
| `Projection.MessageOfSegment` | src/imcodex/bridge/projection.py:314-387 | The message of an answer has exactly the text of the answer and behind it the failures of the items since the answer before it, each once on its own line, and the files of just these items. |
| `Projection.FailuresLand` | src/imcodex/bridge/projection.py:314-420 | With at least one answer, every failure to stage a file is in the text of the next answer's message or of the trailing one. |
| `Projection.CleanAnswer` | src/imcodex/bridge/projection.py:355-366 | An answer in whose segment nothing failed is delivered with exactly its text. |
| `Projection.TrailingExactly` | src/imcodex/bridge/projection.py:388-420 | There is a trailing message exactly when the turn has an answer and something behind the last one was staged or could not be. |
| `Projection.DeduplicatedExactly` | src/imcodex/bridge/projection.py:351-354 | Of some files exactly the last one of each path is kept, in the order in which the paths first came. |
| `Projection.MessageForEachAnswer` | src/imcodex/bridge/projection.py:314-387 | There is one message for each answer. |
| `Projection.FilesLand` | src/imcodex/bridge/projection.py:314-420 | With at least one answer, the path of every staged file is in the message of the next answer or in the trailing message. |
| `Projection.FilesComeFromSegment` | src/imcodex/bridge/projection.py:314-387 | No answer message carries a file of another segment. |
| `Projection.DeduplicatedPaths` | src/imcodex/bridge/projection.py:351-354 | Deduplication loses no path, adds no file and repeats no path. |
| `Projection.ProjectFinalAnswers` | src/imcodex/bridge/projection.py:314-420 | The loop with pending files and errors gives the messages of the answer segments and the trailing message. |
| `Projection.CollectedExactly` | src/imcodex/bridge/projection.py:293-312 | Without an answer, exactly the files of the items whose staging succeeded are kept, images only behind it, and exactly the failures of the others are reported. |
| `Projection.TurnMessageCarriesAll` | src/imcodex/bridge/projection.py:174-218 | A turn without answers gives one message of its status that begins with the text kept of it, carries exactly the paths its items kept, each once, and reports every failure; without one it is just the text. |
| `Projection.ProjectRecoveredTurn` | src/imcodex/bridge/projection.py:174-218 | The messages of a recovered turn, attached to its conversation, or none when it has lost it. |
| `LiveTurn.LiveDeliversTheSnapshot` | src/imcodex/bridge/projection.py:220-270 | A turn whose items have ids delivers the same answers, in the same order and under the same delivery ids, live with any replays as from a snapshot. |
| `LiveTurn.VisibleIsRemembered` | src/imcodex/bridge/message_pump.py:29-42 | The buffer says that an answer is visible exactly when some answer was shown and no work started after it. |
| `LiveTurn.TurnMessageWhenNoAnswerEnds` | src/imcodex/bridge/message_pump.py:182-226 | A turn sends a message of its own exactly when it did not complete or its output does not end with an answer. |
| `LiveTurn.ClaimedItems` | src/imcodex/bridge/message_pump.py:62-75 | The ids claimed are exactly those of the items completed so far, also after output was re-opened. |
| `LiveTurn.DeltasSinceReopening` | src/imcodex/bridge/message_pump.py:29-60 | The text a turn falls back to is exactly what was streamed since its output was last re-opened by work behind a shown answer. |
| `LiveTurn.MessagePump.RecordAgentMessage` | src/imcodex/bridge/message_pump.py:77-121 | A final answer with visible text is shown with exactly its text, behind it each attachment error kept so far on its own line, and with the files kept; it is remembered. A blank one changes nothing. |
| `LiveTurn.KeepsFirstFour` | src/imcodex/bridge/message_pump.py:164-180 | Merging and trimming after every item keeps, of all files offered since the output was last re-opened, exactly those with the first four stems, each as offered last; when there are more, an attachment error says so. |
| `LiveTurn.MergedExactly` | src/imcodex/bridge/message_pump.py:164-172 | Of all files offered there is one for each stem, the last one, in the order in which the stems first came. |
| `LiveTurn.ErrorsExactly` | src/imcodex/bridge/message_pump.py:164-180 | The errors kept are exactly those of the claimed items whose files could not be staged since the output was last re-opened, and the one about the limit when more than four files were offered. |
| `LiveTurn.StemExactly` | src/imcodex/bridge/message_pump.py:164-172 | The stem of a file name is what is before its last dot, and the whole name without a dot or with one only at the front or the end. |
| `LiveTurn.KeepsWords` | src/imcodex/bridge/message_pump.py:29-160 | The buffer has exactly what was said last, what was executed and which files changed since the output was last re-opened, replayed items not counted again. |
| `LiveTurn.NoProgressBehindAnswer` | src/imcodex/bridge/message_pump.py:29-160 | Behind a shown answer no commentary, command or file change is shown until work re-opens the output. |
| `LiveTurn.MessagePump.Handle` | src/imcodex/bridge/projection.py:220-291 | One event changes only the buffer of its turn, shows an answer only the first time its id completes, with its text, the errors and the files kept, and shows progress, which says the commentary, the command or every changed file, exactly when its conversation wants it and no answer is visible. |
| `LiveTurn.MessagePump.FinalizeTurn` | src/imcodex/bridge/message_pump.py:182-226 | Whatever events led to the buffer, the end of the turn shows nothing exactly when it completed and its output ends with an answer. Otherwise it shows a message of its status with the kept files and errors, whose text is what was said last or else streamed since the output was re-opened, or else the commands, or else a fixed sentence; one that did not complete first says how it ended and then lists each changed file once. |
| `Identity.EncodeInjective` | src/imcodex/bridge/terminal_identity.py:166-172 | UTF-8 encoding is injective on strings. |
| `Identity.FramedInjective` | src/imcodex/bridge/terminal_identity.py:166-172 | The length-prefixed framing is injective on lists of strings shorter than 2^64 bytes, of any lengths. |
| `Identity.ShortFraming` | src/imcodex/bridge/terminal_identity.py:166-172 | An ASCII value shorter than 256 characters is framed as seven zero bytes, its length and its characters, in front of what follows. |
| `Identity.StableDeliveryId` | src/imcodex/bridge/terminal_identity.py:166-172 | The digest loop feeds exactly the framing; a value of 2^64 bytes or more is an error. |
| `Identity.DeliveryIdsAreDistinct` | src/imcodex/bridge/terminal_identity.py:9-23 | With an injective hash, item ids and turn ids coincide only for equal tuples, and never with each other. |
| `Identity.RecoveredIdentitiesAreDistinct` | src/imcodex/bridge/terminal_identity.py:101-139 | Recovery refuses a turn exactly when two of its answers have the same key; otherwise all its delivery ids differ, the turn's included. |
| `Identity.EventsThatDeliver` | src/imcodex/bridge/terminal_identity.py:26-72 | A notification carries a delivery exactly when it completes a turn, or a final answer with visible text, of a thread and turn it names, be it in its turn object only. |
| `Identity.NamelessAnswers` | src/imcodex/bridge/terminal_identity.py:158-163 | With an injective hash, answers without any id have the same key exactly when their sorted JSON texts are equal. |
| `Identity.LiveIsRecovered` | src/imcodex/bridge/terminal_identity.py:39-72 | The live and the recovered delivery id of an answer are equal exactly when its keys are, and always when the item has an id of its own. |
| `Identity.UnnamedAnswerChangesId` | src/imcodex/bridge/terminal_identity.py:158-163 | For one item the two paths disagree exactly when only the notification around it names it, and differently. |
| `Identity.UnnamedAnswerHasTwoIds` | src/imcodex/bridge/terminal_identity.py:101-163 | A concrete answer and notification whose live and recovered delivery ids differ. |
| `MarkdownMask.MaskMarkdownCode` | src/imcodex/bridge/outbound_artifacts.py:362-428 | The mask keeps length and offsets and turns exactly the hidden characters into spaces; both nested scans terminate. |
| `MarkdownMask.HiddenExactly` | src/imcodex/bridge/outbound_artifacts.py:362-428 | A character is hidden exactly when its line opens a fenced block or lies inside one, or when it lies between an opening backtick run and the next unfenced run of equal length. |
| `MarkdownMask.FencedLinesAreBlocks` | src/imcodex/bridge/outbound_artifacts.py:365-391 | The fenced lines are exactly the opening lines and the lines after one that no line in between closes (the subset of section 4.5 of CommonMark 0.31.2 that the code implements). |
| `MarkdownMask.OpensExactly` | src/imcodex/bridge/outbound_artifacts.py:25 | A line opens a fence exactly when it reads, without its ending: up to three spaces, three or more backticks or tildes, and a rest that does not go on with the same mark nor, behind backticks, has another backtick. |
| `MarkdownMask.ClosesExactly` | src/imcodex/bridge/outbound_artifacts.py:368-391 | It closes a fence exactly when it reads like that with at least as many of the same mark and only whitespace behind. |
| `MarkdownMask.BodyExactly` | src/imcodex/bridge/outbound_artifacts.py:370 | The ending of a line is exactly the CR and LF characters at its end. |
| `MarkdownMask.RestStep` | src/imcodex/bridge/outbound_artifacts.py:368-391 | Scanning with one remembered fence finds the same blocks as searching for the end of each. |
| `MarkdownMask.RunsAreMaximal` | src/imcodex/bridge/outbound_artifacts.py:393-423 | The runs are exactly the maximal stretches of unfenced backticks, left to right. |
| `MarkdownMask.SpansJoinOpeners` | src/imcodex/bridge/outbound_artifacts.py:393-423 | The spans are exactly those from an uncovered run to the next run of its length (section 6.1 of CommonMark 0.31.2); a run without a match stays visible. |
| `MarkdownMask.MatchIsFirst` | src/imcodex/bridge/outbound_artifacts.py:404-419 | The match of a run is the first later run of its length: no run in between has it. |
| `MarkdownMask.FindClosing` | src/imcodex/bridge/outbound_artifacts.py:404-419 | The inner scan finds the first later run of the given length, if there is one. |
| `MarkdownMask.MarkFencedLines` | src/imcodex/bridge/outbound_artifacts.py:365-391 | The first loop marks exactly the fenced lines. |
| `MarkdownMask.IsEscaped` | src/imcodex/bridge/outbound_artifacts.py:431-437 | Counting backslashes and asking for an odd number decides whether a backslash that is not itself escaped precedes. |
| `Dotenv.EncodeExactly` | src/imcodex/admin/config_store.py:703-716 | A value can be written exactly when it has no quote at either end; the encoder accepts it exactly when moreover it is trimmed or lacks one kind of quote, and then it decodes to itself. |
| `Dotenv.EncodedForm` | src/imcodex/admin/config_store.py:703-716 | A trimmed value is written as it is, any other one in single quotes, or in double quotes when it has a single quote in it. |
| `Dotenv.CommentsSetNothing` | src/imcodex/config.py:143-153 | A line whose first visible character is # sets nothing for either reader. |
| `Dotenv.ReadersAgreeOnLine` | src/imcodex/admin/config_store.py:563-573 | The pattern of the console and the splitting at startup see the same lines set an identifier, to the same value. |
| `Dotenv.ReadersAgree` | src/imcodex/config.py:143-153 | Both readers read every identifier of a file alike. |
| `Dotenv.Assignments` | src/imcodex/admin/config_store.py:567-573 | The console's reader gives each key the value of the last line that sets it. |
| `Dotenv.ReadDotenv` | src/imcodex/config.py:143-153 | The startup reader gives each key the value of the last line that sets it. |
| `DotenvEdit.ApplyReplacements` | src/imcodex/admin/config_store.py:672-700 | The edit of the line list in place, with its reversed deletions, refines the recursive specification, errors included. |
| `DotenvEdit.EditField` | src/imcodex/admin/config_store.py:678-699 | One field: the last line that sets it is replaced with its ending kept and earlier ones go, or a line is appended. |
| `DotenvEdit.DeleteLines` | src/imcodex/admin/config_store.py:684-695 | Deleting listed lines from the back removes exactly the lines that set the field. |
| `DotenvLaws.EditIsExact` | src/imcodex/admin/config_store.py:672-700 | For text with LF and CRLF breaks only and values without line breaks: both readers read each replaced field back, cleared fields and the aliases are gone, every other identifier is unchanged, the other lines stay in order up to a final terminator, and the edit is idempotent. |
| `DotenvLaws.EditReadsBack` | src/imcodex/admin/config_store.py:672-700 | What each key reads after the edit, for every schema whose fields share no key. |
| `DotenvLaws.EditKeepsForeign` | src/imcodex/admin/config_store.py:672-700 | Every line that sets none of the replaced keys stays, in order. |
| `DotenvLaws.EditFails` | src/imcodex/admin/config_store.py:703-716 | An edit fails exactly when some value to be written cannot be represented. |
| `DotenvLaws.TerminatorIsSilent` | src/imcodex/admin/config_store.py:697-698 | Adding the missing terminator to the last line does not change what it says. |
| `Lines.JoinThenSplit` | src/imcodex/admin/config_store.py:672-700 | Splitting joined lines that end in LF or CRLF gives the lines back. |
| `Frames.StdioTransport.ReceiveJson` | src/imcodex/appserver/client.py:74-92 | Each call returns the next message of the byte stream, however it is chunked, or reports the end exactly when no message is left. |
| `Frames.ReceiveAll` | src/imcodex/appserver/client.py:74-92 | Repeated calls return the non-blank lines of the concatenated bytes in order, an unterminated last one included. |
| `Frames.StdioTransport.ReadChunk` | src/imcodex/appserver/client.py:102-110 | A chunk is the next bytes of the pipe; an empty one means its end. |
| `Frames.SentComesBack` | src/imcodex/appserver/client.py:65-72 | Newline-free, non-blank messages sent with a newline each come back exactly, whatever follows them. |
| `Frames.LastMessageWithoutNewline` | src/imcodex/appserver/client.py:84-91 | A last message that misses its newline is returned too. |
| `Frames.LinesRejoin` | src/imcodex/appserver/client.py:74-92 | Every byte of the stream is in one line or separates two. |
| `Frames.ReframedStream` | src/imcodex/appserver/client.py:65-92 | Every stream carries exactly the messages of a well-formed one. |
| `History.ReadThreadHistory` | src/imcodex/appserver/thread_backend.py:279-327 | Walking the cursors of a server with an unchanging history and slicing the full list give the same turns, order and `hasOlder`, for every limit and page, past the end too. |
| `History.WalkCursors` | src/imcodex/appserver/thread_backend.py:292-318 | The cursor loop ends without a repeated-cursor error and gives the page of the full list. |
| `History.PagesCoverHistory` | src/imcodex/appserver/thread_backend.py:319-327 | The pages together are the newest turns in order, each turn on one page, and `hasOlder` says whether turns are left out. |
| `Ancestry.PidIsSameOrDescendant` | src/imcodex/core_manager.py:261-274 | For every parent map, cyclic ones included, the walk ends and answers true exactly when some number of parent steps through positive pids leads to the root. |
| `Ancestry.OwnersInTree` | src/imcodex/core_manager.py:255-259 | The filter keeps exactly the owners in the process tree. |
| `Ancestry.CycleStaysVisited` | src/imcodex/core_manager.py:261-274 | Once the walk meets a process again it meets nothing new. |
| `Ancestry.TreeByParent` | src/imcodex/core_manager.py:261-274 | A process is in a tree exactly when it is its root or its parent is in the tree. |
| `Ancestry.TreesNest` | src/imcodex/core_manager.py:261-274 | A descendant of a descendant is a descendant. |

## Left out

- JSON encoding and decoding, and the error of a frame that is not JSON: the frame is consumed either way.
- Repeated cancellation of one awaited write (src/imcodex/store.py:434-440).
- A commit with an empty message id: it only notes a fingerprint and writes nothing.
- A store without a state path: none of its writes does anything.
- Details of asyncio tasks: an `await` is a point where other steps may come between.
- The debug upsert of pending requests, `select_pending_requests` and `match_pending_request`: lookups over the modelled map.
- Timeouts, retry delays and jitter, and overload retries of requests: a timeout is a step that may come at any time.
- `initialize`, health reporting and the WebSocket transport of the client.
- `rehydrate_bound_threads`: which turns a reconnect finds finished is an input of the recovery steps.
- `query_all_threads` and `_prioritize_threads`: the same cursor walk without a page limit, and a stable sort.
- Delivery order within a conversation: what blocks a retry or queues a delivery is an input.
- BridgeCores.BridgeCore.DeliverTerminalMessage: payload changes made while a message is prepared or sent are not modelled; an attempt stages, then maybe completes.
- StoreLaws.LoadFailsExactly: the version, parts that are not lists, entries and outcomes that are not objects, and unreadable numbers are refused too, and not modelled.
- Flushes are taken to cover the store, as they do unless the background writer was cancelled (`Persistence.FlushReturnCovers`).
- Projection.ProjectRecoveredTurn: the text a turn without answers gets from the message pump is an input.
- LiveTurn.MessagePump.Handle: suppressed turns, and the metadata of progress messages; file names are split as POSIX paths.
- Identity.StableDeliveryId: strings are Unicode scalar values; a lone surrogate, which has no encoding, does not occur.
- History.ReadThreadHistory: servers that repeat a cursor or change their history during the walk.
- Recency.InboundLog.ShouldDropDuplicate: for a clock that runs backwards nothing is stated about messages without an id.
- `ConfigStore.update`: locking, the revision checks and field validation around the edit.
- Staging, copying and leasing of outbound files, Markdown links and image checks.
- Rendering, commands, settings, the CLI, access control and the admin pages.
- Listing processes and listeners of the operating system: the parent map is an input.
