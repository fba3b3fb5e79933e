# Turns, streams, chunks and limits: a verified model

This project models the parts of the Codex chat backend whose correctness depends on orderings and bounds
rather than on input and output, and proves what they keep.

* **The durable turn protocol** (`KeyStore`, `TurnStore`, `TurnLocks`, `Recovery`, `TurnLedger`,
  `TurnProtocol`, `TurnInvariants`, `TurnTheorems`, `LockTheorems`, `Redelivery`, `Verdicts`, `TurnLife`,
  `SweepTheorems`). The `turns` table, the chat locks and the worker leases are classes whose methods do what
  the guarded UPDATE statements and the compare-and-set commands do, each tied by its contract to a function
  on the table or the key space. `TurnProtocol.Next` is the step relation built from the same functions: web
  and Telegram runners with their program counters, six kinds of outside finalizers, tail readers, and expiry.
  It is total, so a schedule is any sequence of actions, and a theorem about every schedule is a theorem about
  every interleaving, with a crash, a cancellation, a redelivery or an expiry at any step. A worker process
  that dies simply stops. Beside them stand whole runs: what a worker, a finalizer or a reader that nobody
  disturbs makes of its turn.
* **The turn stream** (`ChatEvents`, `TurnSession`, `StreamTurn`, `Steering`). Sidecar notifications are
  filtered and translated to chat events; chat events become coalesced client frames, partial message rows and
  one final row; steers interleave with the cuts they cause.
* **The Telegram splitter** (`PyText`, `Splitter`). The three loops of the HTML splitter, with the potential
  function that makes the outer one end.
* **The rate limiter** (`RateLimit`) and **the app-server transport** (`Transport`).

Redis, Postgres and the sidecar are maps with atomic commands and arbitrary input sequences. Clocks, steer counts,
probe answers and whatever others do between two commands are parameters. Times are whole ticks.

## Where the code and its documentation differ

The model follows the code.

* README.md:93-94 describes the notification queue as drop-oldest. `transport.py:335-342` drops the arriving
  note; only the close sentinel evicts the oldest slot. Closing a live connection can evict two notes, because
  the reader's own exit also puts a sentinel in (`Transport.AppServerClient.Close`).
* `markdown.py:207-210` says that a forced cut lies inside `<pre>`. It is taken wherever no usable separator is
  found (`Splitter.ForcedIff`), also in text without any `<pre>` (`Splitter.ForcedCutOutsidePre`).
* The splitter ends for every text exactly if the limit is above 24, or happens to be 12
  (`Splitter.EveryTextEndsIff`). The callers use 4096.
* `runner.py:82` and `:118-120` promise that a redelivery ends silently. The lock is tried with SET NX and then
  read with GET; the delivery leaves no trace exactly if it gets to the GET and that still finds its own turn, or
  gets to the lease and that is taken (`Redelivery.RedeliveryMeetsLock`, `Redelivery.RedeliveryMeetsLease`). It
  fails in two ways, both reachable (`Redelivery.LiveTurnFails`): if the lock runs out in between, the redelivery
  closes the turn of a live worker as FAILED (`Redelivery.RedeliveryMayFailLiveTurn`); if the redelivery is
  cancelled before it has learnt that it is one, it closes that turn as CANCELLED, though the lock names the turn
  all the time (`Redelivery.CancelledRedeliveryEndsLiveTurn`).
* `stream.py:57-64` says that partial rows keep what came before an error or a cancel.
  * An error event, a crash, a stream that just ends and a consumer that goes away save nothing more: the rows are
    whole exactly if the last steer cut lies behind all text and tool calls (`StreamTurn.StreamTurn` with
    `StreamTurn.CutAfter`), which without steers means that there was nothing to save (`StreamTurn.NoSteerNoCut`,
    `StreamTurn.ErrorLosesText`).
  * A cancellation saves everything, but twice what lies behind the last cut if it falls between the commit of a
    boundary row (`stream.py:521-580`) and its bookkeeping (`stream.py:461-462`), and once exactly otherwise
    (`StreamTurn.CancelInside`, `StreamTurn.CancelRepeatsText`). Behind a done event it can fall into the final
    transaction, where nothing handles it.
* When the idle probe finds the turn completed, the token buffer is not flushed (`stream.py:192-203`, `358-397`),
  so the streamed frames alone may miss the end of the text. The stored row inside the done frame makes up for
  it (`StreamTurn.FinishProbe`).
* The item/completed fallback (`translate.py:304-320`) makes up for a lost ending of the turn's first message.
  For a later message it never does (`ChatEvents.RestoredIff`).
* The startup sweep takes a heartbeat older than two minutes, the inline check one that is two minutes old
  or older (`Recovery.ReconcileStaleTurns`, `Recovery.ReconcileIfStale`).
* The active counter never counts too many, but can count too few, because a release is DECR and then DEL
  (`RateLimit.ReserveBetweenDecrAndDelIsForgotten`); `RateLimit.ExactIffClean` says in exactly which runs it
  counts right.

## Model

| member | source | states |
|---|---|---|
| `TurnTheorems.OneTurnAtATime` | app/models/turn.py:59-66 | in every state of every schedule a chat has at most one STARTING or RUNNING row, its committed history strictly alternates create(t), finalize(t), and what is open in the history is what is active in the table |
| `TurnTheorems.FinalizedOnce` | app/services/turns/service.py:147-186 | over any schedule at most one finalization of a turn is ever committed, whoever calls |
| `TurnTheorems.TerminalIsForever` | app/services/turns/service.py:92-186 | from any reachable state on, statuses only move forward, and a terminal row keeps status, error and completion time |
| `TurnLedger.ApplyKeepsSound` | app/services/turns/service.py:39-186 | every single statement, by anyone, keeps the unique index, the alternation and the agreement of table and history |
| `TurnLedger.EveryRunAlternates` | app/services/turns/service.py:39-90 | the same for every sequence of statements from the empty table |
| `TurnLedger.FinalizedAtMostOnce` | app/services/turns/service.py:156-186 | an alternating history never ends a turn twice, not even after another turn of the chat |
| `TurnLedger.ExecDevelops` | app/services/turns/service.py:92-186 | no sequence of statements removes a row, moves a status back or changes a terminal verdict |
| `TurnLedger.AttachmentStays` | app/services/turns/service.py:114-122 | an attached message stays the turn's through any statements but another attachment |
| `TurnStore.TurnTable.TryCreateStarting` | app/services/turns/service.py:40-90 | refuses exactly if the chat has an active turn, and otherwise adds one STARTING row under a new id, with no event, thread, message or error yet, fresh for the sweep from now on |
| `TurnStore.TurnTable.MarkRunning` | app/services/turns/service.py:92-112 | moves a row exactly from STARTING to RUNNING, with the sidecar's thread and turn in their own fields, fresh from now on, and reports whether it did; nothing else changes |
| `TurnStore.TurnTable.AttachAssistantMessage` | app/services/turns/service.py:114-122 | attaches the message whatever the status, and disturbs neither the unique index nor any verdict |
| `TurnStore.TurnTable.UpdateLastEvent` | app/services/turns/service.py:124-130 | notes the event id whatever the status, and disturbs neither the unique index nor any verdict |
| `TurnStore.TurnTable.Heartbeat` | app/services/turns/service.py:132-145 | an active row becomes one that the sweep leaves alone for two minutes and keeps everything else; any other row stays as it is; reports whether the turn is still owned |
| `TurnStore.TurnTable.FinalizeOnce` | app/services/turns/service.py:147-186 | refuses a status that is not terminal; otherwise wins exactly if the row is active, which then has the given status, code and detail and the time, each in its own field; no other row changes |
| `TurnStore.TurnTable.GetActiveForChat` | app/services/turns/service.py:188-203 | finds the chat's only active row, or none exactly if there is none |
| `TurnStore.TurnTable.FindStaleActive` | app/services/turns/service.py:227-240 | a turn is found exactly if it is STARTING or RUNNING and its last heartbeat lies more than the threshold back |
| `KeyStore.Custody` | app/services/turns/locks.py:30-70 | through any commands of any process a key keeps its owner until the owner's own release or its expiry, and its deadline moves by the owner's own refreshes only |
| `KeyStore.OthersDoNothing` | app/services/turns/locks.py:51-60 | commands that are not the owner's, ahead of the deadline, leave owner and deadline exactly as they are |
| `KeyStore.LossNeedsRelease` | app/services/turns/lease.py:31-43 | if a key changed hands, its owner released it or did not renew it in time |
| `KeyStore.GainNeedsSetNx` | app/services/turns/lease.py:77-84 | a key that became a holder's was taken by that holder's own SET NX |
| `LockTheorems.KeysFollowCommands` | app/services/turns/locks.py:30-70 | over any schedule locks and leases, deadlines included, are what their commands, in order, make of them |
| `LockTheorems.LockCustody` | app/services/turns/locks.py:51-87 | the chat's lock names turn T through any schedule until T's release or its expiry, and its deadline is the one T's heartbeats have set |
| `LockTheorems.OthersLeaveLockAlone` | app/services/turns/locks.py:51-70 | unless T itself beats or releases, T's lock is the same, owner and deadline, at every time before that deadline: late heartbeats and exits of other turns neither free nor extend it |
| `LockTheorems.LeaseCustody` | app/services/turns/lease.py:87-101 | a turn's lease names its process through any schedule until that process's release or its expiry, with the deadline that this process has set |
| `LockTheorems.OthersLeaveLeaseAlone` | app/services/turns/lease.py:31-43 | the same for a lease: no other process frees or extends it |
| `LockTheorems.LockCommandsAreOwn` | app/services/turns/recovery.py:51-79 | a command keyed by T on a lock comes only from a runner or finalizer of T itself, for T's own chat; heartbeats give one time to live from now; a runner releases only on leaving |
| `LockTheorems.LeaseCommandsAreOwn` | app/services/turns/runner.py:128-141 | a command on T's lease comes only from a worker of T, in the name of its own process |
| `TurnLocks.ActiveLocks.TryAcquireActive` | app/services/turns/locks.py:30-37 | takes the lock exactly if it is free |
| `TurnLocks.ActiveLocks.ActiveLockValue` | app/services/turns/locks.py:40-48 | the turn the lock names, if any |
| `TurnLocks.ActiveLocks.HeartbeatActive` | app/services/turns/locks.py:51-60 | gives the turn that the lock names a new time to live; for any other turn nothing changes |
| `TurnLocks.ActiveLocks.ReleaseActive` | app/services/turns/locks.py:63-70 | removes the lock exactly if it is the turn's own |
| `TurnLocks.ActiveLocks.EnterTurnLocks` | app/services/turns/locks.py:73-87 | which of the three outcomes occurs, for anything others do between SET NX and GET |
| `TurnLocks.OwnLockMeansRedelivery` | app/services/turns/locks.py:77-83 | if the lock is kept alive and not released in between, a redelivered job meets its own turn's lock |
| `TurnLocks.Leases.Acquire` | app/services/turns/lease.py:77-84 | takes a free lease and registers exactly what was taken |
| `TurnLocks.Leases.Refresh` | app/services/turns/lease.py:87-92 | gives the holder's own lease a new time to live; for anybody else nothing changes |
| `TurnLocks.Leases.Release` | app/services/turns/lease.py:95-101 | unregisters in any case, frees only the holder's own lease |
| `TurnLocks.Leases.ReleaseAllLocal` | app/services/turns/lease.py:104-118 | frees exactly the registered leases that are still held with the registered value, counts them, and leaves every other lease alone |
| `TurnLocks.Leases.AcquireLeader` | app/services/turns/lease.py:140-144 | takes the leadership exactly if nobody has it |
| `TurnLocks.Leases.RefreshLeader` | app/services/turns/lease.py:147-152 | gives the leader's own key a new time to live; for anybody else nothing changes |
| `TurnLocks.Leases.ReleaseLeader` | app/services/turns/lease.py:155-160 | ends the holder's own leadership only |
| `Recovery.FinalizeOrphan` | app/services/turns/recovery.py:51-60 | closes the turn if it is still active, and in any case lets go of this turn's lock only |
| `Recovery.ReconcileStaleTurns` | app/services/turns/recovery.py:31-60 | the sweep closes exactly the stale active turns, frees exactly the locks that name them, and counts them |
| `Recovery.SweepIsExact` | app/services/turns/recovery.py:31-37 | after the sweep nothing is stale, and every other turn is as it was |
| `Recovery.ReconcileIfStale` | app/services/turns/recovery.py:40-60 | closes and unlocks by the age of the row read earlier, with two minutes included |
| `Recovery.FinalizeLeaseExpired` | app/services/turns/recovery.py:63-79 | closes and unlocks an active turn; a terminal or unknown one is left alone |
| `Recovery.CloseZombie` | app/rpc/chat/service.py:486-513 | an active turn that reached the sidecar and has no lease is closed and unlocked; one that is still starting is spared |
| `SweepTheorems.OrphanAlone` | app/services/turns/recovery.py:51-60 | in the protocol an orphan sweep left alone has the effect of the method |
| `SweepTheorems.LeaseExpiredAlone` | app/services/turns/recovery.py:63-79 | likewise the lease listener |
| `SweepTheorems.ZombieAlone` | app/rpc/chat/service.py:486-513 | likewise the zombie check, for an active row |
| `SweepTheorems.OrphanSwept` | app/services/turns/recovery.py:31-60 | from the look at the row on: a swept turn is FAILED with `orphan_heartbeat` if it was active, and its own lock is gone in any case |
| `SweepTheorems.LeaseExpirySwept` | app/services/turns/recovery.py:63-79 | when the lease runs out, an active turn is FAILED with `lease_expired` and its lock is free; any other is left alone with whatever lock its chat has |
| `SweepTheorems.ZombieSwept` | app/rpc/chat/service.py:486-513 | a new request closes the active turn it meets exactly if that reached the sidecar and has no lease |
| `SweepTheorems.ClosesOnly` | app/rpc/chat/service.py:690-748 | a failed enqueue, a stale sidecar turn and a user's cancel close an active turn with their own status and code, and leave the lock to its owner |
| `SweepTheorems.DeadWorkerIsRecovered` | app/services/turns/recovery.py:63-79 | no dead worker blocks its chat for good: whenever a worker streams its turn and dies, the turn is FAILED and its chat's lock free by the time lease and lock have run out and the listener has heard |
| `TurnInvariants.NextKeepsInv` | app/services/turns/runner.py:73-236 | every action of every process keeps the invariant that the theorems about runners, readers and finalizers rest on |
| `TurnInvariants.NextExtendsLogs` | app/services/turns/stream.py:19-27 | no action removes or changes a published event |
| `TurnInvariants.OnlyFinalizingCloses` | app/services/turns/runner.py:219-231 | a runner closes its turn only in its finally block, with its own verdict, and never when it skips |
| `TurnTheorems.PublishedBeforeFinalized` | app/services/turns/runner.py:163-231 | a worker about to finalize, unless cancelled, has put a terminal event into the log; if it writes COMPLETED, a done event; for the other direction see the next row |
| `Verdicts.FinalizesAsNoted` | app/services/turns/runner.py:168-231 | over any schedule, what a worker that was neither cancelled nor failed and kept its turn writes into a row that is still active: COMPLETED if the last terminal event it noted was done, FAILED with that event's code if it was an error, and without such an event nothing |
| `Verdicts.NotedIsPublished` | app/services/turns/runner.py:163-173 | over any schedule, a terminal event that a worker has noted is in its turn's log |
| `Verdicts.LosesIffMisses` | app/services/turns/runner.py:36-70 | a worker loses its turn exactly at a heartbeat that finds the row closed, or lock or lease not its own |
| `Verdicts.SilentOnceLost` | app/services/turns/runner.py:154-162 | from such a heartbeat on, over any schedule, that worker publishes no content and no done event any more, at most an error |
| `TurnTheorems.NoExitWithoutTerminal` | app/services/turns/runner.py:210-217 | the same of every worker that was not cancelled and does not skip, even if it ends without a status to write |
| `TurnTheorems.CompletedIsVisible` | app/services/turns/runner.py:168-173 | in every reachable state a web turn's COMPLETED row has a done event in its log |
| `TurnLife.WholeTurn` | app/services/turns/runner.py:142-236 | for any contents before the last event, a worker left alone leaves them all in the log, in order, and that event behind them; the row is COMPLETED if it is done, else FAILED with its code; lock and lease are free, exactly one rate slot is given back, and nothing of any other turn changes |
| `TurnLife.PublishesAll` | app/services/turns/runner.py:163-167 | the part before that: any events of the stream stand in the log in order behind what was there, and the row holds the number of the last one |
| `TurnLife.TurnCompletes` | app/services/turns/runner.py:73-236 | from the empty system, for any contents: a turn that is created, enqueued, delivered and done is COMPLETED, its log is what was streamed, and nothing is held any more |
| `TurnLife.LeavesTry` | app/services/turns/runner.py:203-236 | what any runner that leaves its try block does to the shared stores: it lets go of what it has taken if that is still its own, publishes a last word exactly if it is a worker that has had none and was not cancelled, closes its turn exactly if it has a status, and gives exactly one rate slot back |
| `TurnLife.CancelledTurn` | app/services/turns/runner.py:184-188 | a cancelled worker closes its turn as CANCELLED and publishes nothing; everything is free again |
| `TurnLife.CrashedTurn` | app/services/turns/runner.py:189-202 | a failing worker tells the client `codex_error`, once, and closes its turn as FAILED with it; everything is free again |
| `TurnLife.OusterTold` | app/services/turns/runner.py:154-162 | a worker that has lost its turn drops the event at hand, publishes `ownership_lost` instead, and changes the row only if nobody has closed it |
| `TurnLife.BusyTurn` | app/services/turns/runner.py:120-126 | a delivery that meets another turn's lock says `turn_busy`, closes its own turn, and touches neither that lock nor any lease |
| `TurnLife.StartsRunning` | app/services/turns/service.py:92-112 | when the sidecar accepts the turn, a STARTING row becomes RUNNING with thread and sidecar turn in their fields, and a RUNNING one stays as it is |
| `TurnLife.BeatsKeepTurn` | app/services/turns/runner.py:36-70 | a heartbeat of a worker that has its turn makes the row fresh and gives lock and lease one whole time to live, each its own |
| `TurnLife.BeatsUntilRelease` | app/services/turns/runner.py:203-213 | the lease is still refreshed while a worker leaves, up to the step that releases it, and never behind it |
| `TurnLife.TelegramStarts` | app/tg/turn/runner.py:146-180 | a Telegram runner that finds the lock free takes it, and no lease |
| `TurnLife.TelegramTurn` | app/tg/turn/runner.py:136-241 | a whole Telegram turn: the row gets its outcome and error, the lock is free, one rate slot is back, no log or lease is touched |
| `Redelivery.UntouchedIffSkipped` | app/services/turns/runner.py:115-136 | a worker that skips never changes a row, a log or the rate counter; one that ends without skipping has changed something |
| `Redelivery.UntouchedMeansUnchanged` | app/services/turns/runner.py:212-236 | what is meant by that: none of its steps in the whole schedule changed rows, history, logs or the rate counter |
| `Redelivery.RedeliveryOfTerminalTurn` | app/services/turns/runner.py:82-97 | delivering the job of a terminal turn changes nothing at all |
| `Redelivery.RedeliveryMeetsLock` | app/services/turns/runner.py:115-127 | a delivery that found the lock taken, whether its GET comes, it is cancelled or it fails: if it reads its own turn, it never leaves a trace, whatever happens later; by its end it has left none exactly in that case |
| `Redelivery.RedeliveryMeetsLease` | app/services/turns/runner.py:128-136 | a delivery that has the lock: the same, with learning that the lease is taken as the condition |
| `Redelivery.RedeliveryInterrupted` | app/services/turns/runner.py:184-193 | a delivery that is cancelled or fails before it has tried for the lock leaves a trace by its end |
| `Redelivery.RedeliveryMayFailLiveTurn` | app/services/turns/locks.py:77-83 | whenever a worker streams its turn, one redelivery whose GET comes when the lock has run out closes that turn as FAILED, and the worker streams on |
| `Redelivery.CancelledRedeliveryEndsLiveTurn` | app/services/turns/runner.py:184-188 | whenever a worker streams its turn, one redelivery cancelled between its SET NX and its GET closes that turn as CANCELLED, and the worker streams on |
| `Redelivery.LiveTurnFails` | app/services/turns/runner.py:115-127 | a state in which both happen is reached from the empty system by an ordinary start |
| `TurnTheorems.TailIsContiguous` | app/services/turns/stream.py:29-61 | for any batches and any concurrent appends a reader has seen exactly the log between its start and its cursor, and nothing past the first terminal event |
| `TurnTheorems.ResumeContinues` | app/services/turns/stream.py:29-61 | stopping anywhere and tailing again from there gives one contiguous run, with no gap and no repeat |
| `TurnTheorems.TailDeliversTerminal` | app/rpc/chat/service.py:213-220 | a `run_turn` or `tail_turn` that runs to its end has delivered a terminal event, from the log or made from the row, and one made from the row agrees with it |
| `TurnTheorems.SyntheticTellsRow` | app/rpc/chat/service.py:751-775 | over any schedule, and for good: the event made from the row is done exactly for a COMPLETED turn, and else an error with the row's code, or with `stream_dropped` for FAILED and `cancelled` for CANCELLED if the row has none |
| `TurnTheorems.TailStartsBehind` | app/rpc/chat/service.py:248-270 | a client that tails from behind an event has at any time got exactly what follows that event in the log, up to its cursor |
| `TurnTheorems.TailCatchesUp` | app/services/turns/stream.py:29-61 | a reader that goes on gets everything there is, up to the first terminal event, however large the batches |
| `TurnTheorems.TailEnds` | app/services/turns/stream.py:29-61 | one that has got everything of a terminal turn without a terminal event comes to its end and tells the row |
| `TurnTheorems.TailOfTerminalTurn` | app/rpc/chat/service.py:248-270 | tailing a turn that is terminal already tells its row at once |
| `TurnTheorems.LogsOnlyGrow` | app/services/turns/stream.py:19-27 | over any schedule a log only grows at its end |
| `TurnSession.StormIff` | app/services/codex/turn.py:400-411 | a turn is given up as stale exactly if some beginning of the notes has no own note and enough foreign ones |
| `TurnSession.JunkChangesNothing` | app/services/codex/turn.py:317-324 | a note that is not the turn's own, put in anywhere, changes no event unless it completes a storm |
| `TurnSession.QuietJunkIsFree` | app/services/codex/turn.py:385-411 | account notes, noise, and foreign notes behind the first own note do not even bring a storm closer |
| `TurnSession.NoiseSaysNothing` | app/services/codex/turn.py:385-398 | the filters lose nothing: the events of the notes counted as the turn's own are those of all notes that do not name another turn |
| `TurnSession.CodexTurnSession.RunTurn` | app/services/codex/turn.py:100-115 | unless given up as stale, a turn ends exactly as its own first turn/completed says: an error, or a failed status, becomes an error event with its detail, and only without either a done event with the given or else the streamed text; without a turn/completed it never finishes; it is given up exactly on a storm |
| `TurnSession.DoneIff` | app/services/codex/turn.py:100-115 | the turn ends with done exactly if it is not given up and its own first turn/completed has neither error nor failed status |
| `TurnSession.CodexTurnSession.Receive` | app/services/codex/turn.py:227-250 | the loop itself yields exactly the events of the turn's own notes, raises exactly on a storm, and finishes exactly behind a done or error event |
| `TurnSession.IdleWatch.HandleIdle` | app/services/codex/turn.py:350-383 | the turn is extended exactly if the hard cap is not reached and either no probe is due or the probe says that it goes on; the deadline moves only then; a probe that is answered counts from now, and while items are active probes stay the interval apart |
| `TurnSession.IdleWatch.WaitSilently` | app/services/codex/turn.py:326-348 | the silent wait ends after finitely many extensions, at most one idle window and one timer lag past the hard cap, and only for a reason |
| `ChatEvents.ClosingEventIsLast` | app/services/codex/turn.py:105-115 | at most the last event is a done or error event |
| `ChatEvents.EmittedDeltasAccumulate` | app/services/codex/turn.py:98-113 | the emitted deltas put together are exactly what is accumulated |
| `ChatEvents.TokensSaySomething` | app/services/codex/events/translate.py:219-221 | no token is empty, neither a streamed delta nor what is made up from a completed message |
| `ChatEvents.DefaultFinalTextIsStreamed` | app/services/codex/events/translate.py:208-234 | without a text of its own turn/completed gives a done event with exactly the streamed text |
| `ChatEvents.ClosedByCompletion` | app/services/codex/events/translate.py:225-232 | for all notes: nothing but the first turn/completed closes, and it closes as that says, an error first, then a failed status, then done |
| `ChatEvents.CallsMatchResults` | app/services/codex/events/translate.py:237-301 | an item shows as a result under the name under which it showed as a call, and not at all exactly if it did not; only a dynamic call always shows its result, named after its tool; arguments, text, images and error are the item's own |
| `ChatEvents.JoinedConcat` | app/services/codex/events/translate.py:261-283 | the text of a dynamic call: parts that are not blank, in order, an empty line between any two and nowhere else |
| `ChatEvents.FirstMessageRestoredIff` | app/services/codex/events/translate.py:304-320 | the first message, whatever pieces of it arrived, comes out whole exactly if they form a prefix of it |
| `ChatEvents.RestoredIff` | app/services/codex/events/translate.py:304-320 | behind earlier text a message comes out right exactly if all of it had arrived; as the first text of the turn also if a prefix had |
| `StreamTurn.StreamCollector.Absorb` | app/services/codex/collector.py:31-43 | buffer, tool calls, attachments and final text are those of the events absorbed, in order |
| `StreamTurn.FrameStream.Flush` | app/rpc/chat/stream.py:136-143 | everything held back goes out, behind everything sent before, as one token frame |
| `StreamTurn.FrameStream.Token` | app/rpc/chat/stream.py:172-182 | for every threshold, sent plus held back stays the plain stream; a flush occurs exactly when the held bytes reach the threshold |
| `StreamTurn.FrameStream.Event` | app/rpc/chat/stream.py:183-191 | a frame that is no token goes out behind all text received before it |
| `StreamTurn.PendingIsSmall` | app/rpc/chat/stream.py:172-176 | less than the threshold is ever held back |
| `StreamTurn.PendingIsSuffix` | app/rpc/chat/stream.py:172-182 | what is held back is the end of the text received |
| `StreamTurn.PlainFramesTell` | app/rpc/chat/stream.py:146-191 | the plain frames tell a client every event but done, in order, and nothing else |
| `StreamTurn.LooksIffNothingHeld` | app/rpc/chat/stream.py:172-191 | the steer counter is looked at exactly behind an event, other than an error, that leaves no text held back, so a boundary row never holds text that was not sent yet |
| `PyText.Utf8SizeIs` | app/rpc/chat/stream.py:173-176 | the size that the threshold is compared with counts bytes: one to four a character, and as many as characters exactly for ASCII |
| `StreamTurn.StreamState.CutSegment` | app/rpc/chat/stream.py:74-76 | afterwards nothing is outstanding behind the cut |
| `StreamTurn.StreamState.CommitDelta` | app/rpc/chat/stream.py:520-580 | up to the commit: everything outstanding is in a row of its own, which is not known yet and counts as outstanding still |
| `StreamTurn.StreamState.NoteDelta` | app/rpc/chat/stream.py:461-462 | behind it: such a row becomes known, and the rows are in order again |
| `StreamTurn.StreamState.PersistDelta` | app/rpc/chat/stream.py:411-424 | both, undisturbed: everything outstanding becomes exactly one partial row behind the turn's others |
| `StreamTurn.StreamState.PersistSegment` | app/rpc/chat/stream.py:427-462 | undisturbed: new text and the tool calls with it become one partial row; without new text nothing is cut, and tool calls wait |
| `StreamTurn.StreamState.CheckInterrupted` | app/rpc/chat/stream.py:105-112 | the same look and cut with a cancellation at the insert: it strikes exactly if a row is cut, and behind the commit it leaves that row unknown |
| `StreamTurn.StreamState.PersistVisiblePartial` | app/rpc/chat/stream.py:400-424 | whatever is outstanding is written into one more row; if the rows were in order, they now put together are the whole text and all tool calls |
| `StreamTurn.StreamState.CheckSteerBoundary` | app/rpc/chat/stream.py:105-112 | a rise of the counter cuts at most one row, anything else cuts none |
| `StreamTurn.StreamState.FinalizeTurnPersist` | app/rpc/chat/stream.py:465-517 | exactly one row of the turn remains: whole, not partial and attached to the turn; rows of before are as they were |
| `StreamTurn.OnEvent` | app/rpc/chat/stream.py:146-191 | one event keeps rows and frames accounted for, leaves nothing held back if it closes, and looks at the steer counter exactly where it should |
| `StreamTurn.Consume` | app/rpc/chat/stream.py:145-191 | the loop takes events up to the first that closes, keeps rows and frames accounted for, looks at the steer counter exactly where it should, and its last cut is the one that events, threshold and steers determine |
| `StreamTurn.FinishDone` | app/rpc/chat/stream.py:279-317 | the last frame is a done frame that carries the row attached to the turn; that row's text is what the client shows, and what the streamed frames alone give |
| `StreamTurn.ClientGetsStored` | web/src/features/chat/Chat.svelte:388-395 | a done frame that carries the stored row gives the client its text, whatever was streamed or left out |
| `StreamTurn.WireTextIsStoredIff` | app/rpc/chat/mappers.py:92-97 | without looking at the row: leaving out a final text that was already streamed loses nothing exactly if nothing was held back, or it differs anyway |
| `StreamTurn.FinishProbe` | app/rpc/chat/stream.py:358-394 | the probe's completed path stores the whole text, and its done frame carries that row, or none exactly if there was nothing to store; the client shows it; the streamed frames alone give it exactly if nothing was held back |
| `StreamTurn.BreakOff` | app/rpc/chat/stream.py:192-262 | every way out between two events: whether a last frame is sent, and which: done only if the probe found the turn completed, and else the failure with its code; which ways save everything and which leave the rows as cut |
| `StreamTurn.HandleUntil` | app/rpc/chat/stream.py:145-191 | an event handled up to a cancellation: whether it strikes where it is meant to, and what state it leaves |
| `StreamTurn.CancelInside` | app/rpc/chat/stream.py:232-242 | a cancellation inside an event: the rows hold text and tool calls exactly once if and only if it did not fall behind the commit of a boundary row; there they hold what lies behind the cut twice; behind a done event nothing more is saved |
| `StreamTurn.AbandonInside` | app/rpc/chat/stream.py:145-191 | a consumer that goes away at one of an event's frames: the rows are whole exactly if the last cut lies behind everything, the event included |
| `StreamTurn.CancelRepeatsText` | app/rpc/chat/stream.py:427-462 | with the default threshold: "hi", a steer, a tool call and a cancellation behind the commit leave "hihi" |
| `StreamTurn.NoSteerNoCut` | app/rpc/chat/stream.py:105-112 | without steers there is no cut, so that holds only if nothing came |
| `StreamTurn.ErrorLosesText` | app/rpc/chat/stream.py:150-162 | a short token and an error event: the text is in no row |
| `StreamTurn.StreamTurn` | app/rpc/chat/stream.py:79-317 | for all events, thresholds, steers and endings, between events and inside one: coalesced frames say what plain frames would in the same order; the client is told done exactly if a done event or a completed probe ended the turn, and else why it failed; after success client and store agree; on every other way out, exactly when the rows hold everything once |
| `Steering.NextKeepsInv` | app/rpc/chat/service.py:578-589 | every step of steers and stream keeps message numbers, counter and cuts in order |
| `Steering.PartialsFollowSteers` | app/services/codex/codex_remote.py:49-69 | a partial row, cut at a boundary or saved when the stream breaks off, is younger than every user message counted in any value the stream had looked at, and rows are numbered in the order they are written |
| `Steering.OneCutPerRise` | app/rpc/chat/stream.py:105-112 | every boundary row belongs to a rise of the counter, and no two to the same one |
| `Steering.NoMoreCutsThanSteers` | app/rpc/chat/stream.py:105-112 | over any run there are at most as many boundary rows as rises and as many rises as steers, even if the counter expires |
| `Steering.RiseCutsOneRow` | app/rpc/chat/stream.py:105-112 | a look that finds the counter risen, with new text, makes exactly one row, behind every message counted by then |
| `Steering.NoRiseNoRow` | app/rpc/chat/stream.py:105-112 | one that finds no rise makes none |
| `Steering.ExpiryHidesSteer` | app/services/codex/codex_remote.py:49-69 | once the counter has run out behind a rise that was seen, the next steer counts from one again and cuts nothing |
| `Steering.BreakSavesRest` | app/rpc/chat/stream.py:400-424 | a stream that breaks off with something outstanding leaves one more row, and none after it |
| `Steering.SteerIsCounted` | app/rpc/chat/service.py:578-589 | a steer gets its message first and is counted after that |
| `Splitter.PreRanges` | app/tg/markdown.py:232-245 | the loop finds the ranges that the next two rows describe |
| `Splitter.RangesGenuine` | app/tg/markdown.py:232-245 | each range opens at a `<pre>` and ends behind the first `</pre>` after it or at the end; ranges are ordered and disjoint |
| `Splitter.RangesComplete` | app/tg/markdown.py:232-245 | no `<pre>` lies outside all ranges |
| `Splitter.LastSeparator` | app/tg/markdown.py:217-219 | the backward search finds the last usable occurrence of the separator, overlaps included |
| `Splitter.SafeCut` | app/tg/markdown.py:207-229 | which separator wins: the last usable blank line if it lies in the second half, else the last usable newline if that does, else the last usable blank, and only without these a forced cut, behind the last newline that leaves room or right there |
| `Splitter.NextCutPrefers` | app/tg/markdown.py:207-229 | the same of the cut that all theorems about chunks are about |
| `Splitter.CutBounds` | app/tg/markdown.py:207-229 | a cut leaves room for the closing tags and always passes a re-opened block's own tags |
| `Splitter.ForcedIff` | app/tg/markdown.py:216-229 | a cut is forced exactly if no separator outside `<pre>` lies far enough behind the start |
| `Splitter.ForcedCutOutsidePre` | app/tg/markdown.py:224-229 | a forced cut in a text without any `<pre>` adds closing tags to plain text |
| `Splitter.UnforcedCutAvoidsPre` | app/tg/markdown.py:211-223 | a cut that is not forced never lands strictly inside a `<pre>` range of the whole remaining text, not only of the window looked at |
| `Splitter.PotentialDrops` | app/tg/markdown.py:193-203 | each round uses up a credit even where the remaining text grows |
| `Splitter.SplitChunks` | app/tg/markdown.py:190-204 | wherever the loop ends, it returns the specified chunks |
| `Splitter.EveryTextEndsIff` | app/tg/markdown.py:190-204 | for every limit: the loop ends for every text exactly if the limit is above 24 or is 12 |
| `Splitter.TwelveEnds` | app/tg/markdown.py:224-229 | the odd case of 12, where the slice index is -1 |
| `Splitter.SmallLimitNeverEnds` | app/tg/markdown.py:224-229 | with any other limit up to 24 it never ends on any longer text without whitespace |
| `Splitter.ChunksFit` | app/tg/markdown.py:190-204 | above 24 the loop ends, every chunk is at most as long as the limit, and none is empty if the text does not start with whitespace |
| `Splitter.SplitConserves` | app/tg/markdown.py:190-204 | without the inserted tags and the whitespace dropped at cuts the chunks are the text; tags are closed and re-opened in pairs |
| `Splitter.NonSpaceConserved` | app/tg/markdown.py:190-204 | the chunks' own characters that are not whitespace are those of the text, in order |
| `Splitter.CutsAreClean` | app/tg/markdown.py:190-204 | no whitespace is left around a cut: every chunk but the last ends without any, every chunk but the first starts without any |
| `RateLimit.PruneIsExact` | app/services/rate_limit/service.py:38-43 | expiry and pruning leave exactly the admissions of the last hour |
| `RateLimit.Limiter.ReserveTurn` | app/services/rate_limit/service.py:34-57 | refused for `hourly` exactly if the pruned set has reached the limit, and as long as the clock has not run back that set is the admission times of the last hour; for `active` exactly if the counter has reached its limit, and then so many turns are outstanding; the counter takes exactly one Reserve step |
| `RateLimit.AnyHourWithinLimit` | app/services/rate_limit/service.py:34-57 | a log filled under a constant limit has no half-open hour, wherever it starts, with more admissions than the limit |
| `RateLimit.RunWithinLimit` | app/services/rate_limit/service.py:74-109 | so over any run of calls at increasing times no hour ever holds more admissions than the limit, whatever the active counter refuses |
| `RateLimit.Limiter.ReserveActive` | app/services/rate_limit/service.py:44-51 | INCR, and DECR if that was too much, make one Reserve step, and a refusal means that the limit is outstanding |
| `RateLimit.Limiter.ReleaseTurn` | app/services/rate_limit/service.py:112-119 | a Decr step, whatever others do, and a Del step if the DECR left nothing; the counter still says at most what is outstanding, and undisturbed an exact counter goes down by one and stays exact |
| `RateLimit.NeverOverCounts` | app/services/rate_limit/service.py:44-51 | in every interleaving with split and duplicate releases and expiry the counter is at most what is outstanding, so a refusal for `active` is never unfounded |
| `RateLimit.ExactIffClean` | app/services/rate_limit/service.py:112-119 | the counter is exact after every command exactly if no expiry and no DEL occurs while something is outstanding and no DECR is surplus |
| `RateLimit.FirstReservationRunsOut` | app/services/rate_limit/service.py:44-51 | the first reservation counts for ten minutes and then no longer, though the turn is still outstanding |
| `RateLimit.CountsExactly` | app/services/rate_limit/service.py:112-119 | so it is exact at the end of such a run |
| `RateLimit.ReserveBetweenDecrAndDelIsForgotten` | app/services/rate_limit/service.py:112-119 | a reservation between DECR and DEL is forgotten, and a second turn gets in under a limit of one |
| `Transport.AppServerClient.EnqueueNotification` | app/services/codex/transport.py:324-342 | the queue keeps its bound; when full it is the arriving note that is dropped; order and accounting of all notes are kept |
| `Transport.AppServerClient.Take` | app/services/codex/transport.py:181-187 | consumed notes stay, with those still queued, a subsequence of the arrivals |
| `Transport.AppServerClient.WakeNotifications` | app/services/codex/transport.py:361-367 | the sentinel always gets in at the end; a note is lost exactly if the queue was full with a note in front |
| `Transport.AppServerClient.Connect` | app/services/codex/transport.py:112-142 | comes up exactly if not closed for good and one of three attempts reaches the server, or it is up already |
| `Transport.AppServerClient.BeginRequest` | app/services/codex/transport.py:144-157 | a fresh id is registered, only while connected |
| `Transport.AppServerClient.EndRequest` | app/services/codex/transport.py:144-161 | when the caller's wait ends, in whatever way, its entry and no other is gone |
| `Transport.AppServerClient.ResolveResponse` | app/services/codex/transport.py:344-359 | a response settles exactly the registered request with its own id, once (section 5 of the JSON-RPC 2.0 Specification) |
| `Transport.AppServerClient.FailPending` | app/services/codex/transport.py:369-373 | exactly the unanswered registered requests fail; given answers stand |
| `Transport.AppServerClient.ReaderExit` | app/services/codex/transport.py:211-231 | after the reader's exit no outstanding request is unresolved |
| `Transport.AppServerClient.Close` | app/services/codex/transport.py:189-197 | likewise after close, and no request begins again; closing a live connection loses two notes exactly if the queue is full, holds two or more slots, and both front slots are notes |
| `Transport.SubsequenceWithin` | app/services/codex/transport.py:324-342 | what a subsequence means: nothing is repeated or made up |

## Left out

- TurnTheorems.TailIsContiguous: does not model MAXLEN trimming, the 24 h expiry of the log or deleted turns; below trimming it holds for every schedule.
- TurnTheorems.TailDeliversTerminal: rows never disappear here, so a chat deleted while it is tailed, which ends the tail without a terminal event, is not covered.
- TurnTheorems.CompletedIsVisible: speaks of web turns, because Telegram turns have no event log.
- RateLimit.Limiter.ReserveTurn: once the clock has run back between two calls nothing is claimed about hours any more; whole ticks stand for the float time.
- StreamTurn.StreamTurn: other writers of the chat's messages do not appear in it; their interleaving with the cuts is the subject of `Steering`. Not covered are a second cancellation while an except branch is at work, and a failure, rather than a cancellation, of a database call inside an event.
- TurnSession.IdleWatch.WaitSilently: whether items are active is fixed during the silence, since only notifications change it, and an idle callback takes no time.
- The runners, readers and finalizers of the protocol are program counters of one step relation instead of methods with loops, because other processes act between any two of their awaits. What they do to the shared stores is the same functions that the contracts of the classes name.
- Transport.AppServerClient.EndRequest: covers the wait for the answer; a frame that cannot be sent ends the call before that and leaves an entry nobody waits for.
- There is no claim that only one worker ever streams a turn: locks and leases expire, and there is no fencing token.
- A key behind its deadline may stay until Redis drops it; in Redis it is invisible from the deadline on, which is one of the cases covered.
- Redis and database errors, half-failed commits, and a cancellation that arrives inside a finally block (a runner may die there instead).
- The ten-second rhythm and order of the heartbeat: its three refreshes may come in any order and number, also after one has failed, until the lease is released.
- Publishing of chat activity after a commit, journal entries, logging, and the diagnostics' details and choice of an active item.
- Who pays for the rate limit before a job is enqueued, steering or interrupting an active turn from `run_turn`, and permission checks around it.
- The stored message that a synthetic done event carries, detail texts of terminal events, redaction and attachment paths in frames.
- Malformed notifications and responses beyond an unknown id, server requests and their handlers, reconnecting, and request timeouts other than as an end of the caller's wait.
- Balanced tags at forced cuts: a forced cut may fall outside `<pre>` or inside a tag.
- Markdown rendering, links, Telegram progress messages and drafts, speech, files, users, invites, settings, notes and the web front end.
