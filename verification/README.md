# A verified model of the Arca Go SDK's protocols and exact arithmetic

This project models the parts of the SDK that are protocols between goroutines,
sockets and timers, or exact arithmetic on money, and proves what their comments
and tests promise, for every input and every interleaving:

- the realm fill stream: catch-up from a durable log, then a lossy live tail
  (`FillStream`, `FillDedupe`, `FillStart`, `FillEmit`,
  `FillStreamObject`);
- connection ownership and hot hand-off of the WebSocket manager (`Connection`,
  `ConnectionEffects`, `ConnectionObject`);
- observation epochs and fallback recovery of the exchange stream
  (`ExchangeWatch`, `ExchangeWatchObject`), and the coalescing gates (`Gates`);
- waiting for an operation (`OperationWait`, `OperationWaitObject`) and for
  execution evidence (`EvidenceWait`), and what a receipt may claim
  (`Execution`, `ExecutionReads`);
- tiered margin arithmetic (`MarginTiers`, `OrderBreakdown`), position
  composition (`Accounting`, `AccountingBook`), exact decimals and re-marking (`Decimals`,
  `Revaluation`);
- the co-signing preimage (`Cosign`, `CosignLayout`) and the wallet event stream
  (`WalletStream`, `WalletFrames`).

## How it is modelled

Concurrent code is a state, an action type and a step relation; a *run* is any
sequence of states joined by steps, so a theorem about runs covers every
interleaving. A step is one critical section, atomic operation or channel
operation of the code; timers, sockets, the server and the consumer act at any
moment. Beside each relation, a class holds the same fields and changes them in
place, and each of its methods is proved equal to the function its step uses.
Sequential loops are methods proved against an independent definition: the
margin loops against the area under a rate, the event-stream loop against a
reading of the lines block by block, the composition loop against a fold.

Where the code does not keep a promise at the granularity of its own locks, the
model keeps the code, shows the failing run and states when the promise does
hold:

- `start()` of the fill stream sets its flag and requests the replay in two
  critical sections; `FillStart.StartRace` is a run with a fill skipped in
  between, and `FillStart.StartIsSafeIff` the exact condition.
- An open stream can emit the empty cursor, and an empty cursor reopens at the
  head: `FillStream.EmptyCursorIsEmitted`, with the exact condition in
  `FillStream.ResumeSkipsNothing`.
- A closed fill stream still moves its stored cursor:
  `FillStream.DeliverKeepsCursorIff`, `FillStream.ClosedCursorRunsAhead`.
- A promotion timer may fire on a warming connection whose read has failed and
  whose abort has not happened yet. `Connection.OwnerLostIff` says this is the
  only way to lose the owner; `Connection.OwnerCanVanish` is such a run, and
  `Connection.LossLasts` says what it takes to end it.
- `deliver` emits after unlocking, so a live row can overtake a replayed one;
  `FillEmit.EmitRace` is such a run and `FillEmit.EmitIsSafeIff` the exact
  condition.
- Gap detection is blind until a connection's first numbered message; exactly
  when that costs anything is `FillStream.AllLossesCountedIff`.
- An unstamped observation between two stamped ones lets an older one in
  (`ExchangeWatch.UnstampedLetsOlderIn`); `ExchangeWatch.OlderLandsIffUnstamped`
  is the exact condition.
- Recording a later pending execution before an earlier opposite one can move
  the entry price (`Accounting.LaterExecutionMayMoveEntry`);
  `Accounting.ChangesPlacesIff` is the exact condition.
- A mid that is not a number, overriding one that is, can make re-marking in two
  passes differ from one pass (`Revaluation.UnparsableMidBreaksComposition`);
  `Revaluation.RevalueComposesIff` is the exact condition.
- The liquidation estimate takes own maintenance at the entry price although
  its comment lets it move with the mark; `OrderBreakdown.LiquidationIsBreakEven`
  gives the difference and `OrderBreakdown.EstimateCanMissBreakEven` an input.
- A negative chain id or deadline is hashed as its magnitude
  (`Cosign.SignIsNotBound`).

Assumptions about the environment of the fill stream: the log is append-only in
cursor order; live events arrive in log order; every loss after a connection's
first numbered message shows up as a sequence hole, a resync marker or a
re-authentication before the next live event; the event types are subscribed
before the replay read that follows; a rotation happens with no loss
outstanding; one message is dispatched at a time.

## Model

| member | source | states |
|---|---|---|
| `FillStream.AtLeastOnce` | streams.go:938-1175 | In every reachable state, every fill after the start and up to the cursor of any emission had been emitted by that emission, and the stored cursor of an open stream is covered likewise |
| `FillStream.ResumeSkipsNothing` | streams.go:996-1175 | A consumer that crashes after any emission and resumes from its cursor skips no fill, if and only if that cursor is not empty or everything in the log at reopening had been processed: an empty cursor opens at the head |
| `FillStream.EmptyCursorIsEmitted` | streams.go:1008-1020 | An open stream does emit the empty cursor, and resuming from it loses a fill recorded in between |
| `FillStream.EmptyCursorSkips` | streams.go:1008-1020 | For any fill the first life missed, resuming from an empty cursor has a continuation in which neither life processes it |
| `FillStream.AtRestComplete` | streams.go:1047-1175 | With the stream open, the worker idle and no request outstanding, everything the live tail has passed is delivered |
| `FillStream.NoLostReplay` | streams.go:1096-1175 | After every replay request, a replay has begun since, or the request still stands with a token, a sender or the worker on its way |
| `FillStream.AtRestReplayed` | streams.go:1096-1175 | An open stream at rest has answered every request with a replay begun after it |
| `FillStream.ReachableInv` | streams.go:938-1175 | The inductive invariant behind these results holds in every reachable state of every interleaving |
| `FillStream.DeliverKeepsCursorIff` | streams.go:1074-1094 | For live and replayed rows: deliver keeps the stored cursor covered exactly when it does not move it, or all before the row is delivered and the row is too, which on a closed stream means earlier |
| `FillStream.ClosedCursorRunsAhead` | streams.go:1074-1094 | A concrete closed stream whose cursor passes a fill it never delivered |
| `FillDedupe.NoDuplicateInWindow` | streams.go:1074-1094 | In every reachable state no row occurs twice within 513 consecutive emissions, and the window of an open stream is exactly the rows of its last 512 emissions |
| `FillDedupe.DeliverEffect` | streams.go:1074-1094 | On an open stream a row among the last 512 emitted is dropped and any other is emitted once with the stored cursor, which moves exactly for a replayed row or with no replay active or queued |
| `FillDedupe.ReplayTakesEffect` | streams.go:1121-1175 | A replay takes up the requests made so far, reads from the stored cursor, leaves the cursor where its pages led, and starts over exactly when asked again |
| `FillDedupe.UnattachedIgnores` | streams.go:1047-1057 | Before a consumer attaches, live fills leave the stream untouched |
| `FillStart.StartIsSafeIff` | streams.go:938-948 | With start() in its two critical sections, emitted and stored cursors stay resumable up to the first racing live fill, and exactly a racing one breaks them |
| `FillStart.FineReachable` | streams.go:938-1175 | The fill-stream invariant at that granularity, for every run without a race |
| `FillStart.FirstFillIsSafeIff` | streams.go:938-948 | A live fill handled between the two sections is safe exactly when it moves no cursor or no fill precedes it |
| `FillStart.StartRace` | streams.go:938-948 | A full run in which such a fill is emitted with a cursor past an undelivered one |
| `FillEmit.EmitIsSafeIff` | streams.go:1074-1094 | With the emission after the unlock, what the consumer has been given stays resumable up to the first overtaking, and a step breaks it exactly when it emits a row past a lower one still between unlock and emit |
| `FillEmit.SplitReachable` | streams.go:1047-1175 | The invariant at that granularity: what is committed is what is out and what is in between, for every run without an overtaking |
| `FillEmit.AllOutWhenNothingBetween` | streams.go:1074-1094 | Once nothing is in between, the consumer of an open stream has everything up to the stored cursor |
| `FillEmit.EmitRace` | streams.go:1089-1093 | A full run in which a live row is emitted with a cursor past a replayed row not emitted yet |
| `FillStream.GapsCountLosses` | websocket.go:1253-1276 | After a first message, the gaps reported over any increasing numbering add up to exactly the numbers that never arrived |
| `FillStream.AllLossesCountedIff` | websocket.go:1253-1261 | The gaps reported account for every number that never arrived if and only if an earlier message was seen or the first one carries the first number; otherwise exactly the numbers before it go unreported |
| `FillStreamObject.RealmFillWatchStream.constructor` | streams.go:996-1020 | A fresh stream at its opening: the cursor given, or the head of the log |
| `FillStreamObject.RealmFillWatchStream.Deliver` | streams.go:1074-1094 | In place: dedupe window, cursor rule and emission are those of the step, nothing else changes |
| `FillStreamObject.RealmFillWatchStream.ScheduleReplay` | streams.go:1096-1104 | In place: the queued flag and then one token |
| `FillStreamObject.RealmFillWatchStream.Start` | streams.go:938-948 | In place: the first call requests a replay, later calls change nothing |
| `FillStreamObject.RealmFillWatchStream.OnLiveFill` | streams.go:1047-1065 | In place: ignored before start, delivered with its own position afterwards |
| `FillStreamObject.RealmFillWatchStream.RunReplay` | streams.go:1121-1175 | Page after page, every fill from the cursor to the head of the log ends up delivered and the cursor ends at the head |
| `FillStreamObject.RealmFillWatchStream.DeliverPage` | streams.go:1149-1152 | One page: every row of it is emitted or was in the dedupe window |
| `Connection.AtMostOneOwner` | websocket.go:192-385 | In every reachable state no two serving loops own one generation, "wants a connection" equals "connecting", and any loop holding the installed connection owns the current generation |
| `Connection.AlwaysAnOwner` | websocket.go:813-1045 | As long as no promotion falls on a connection already dead, a wanted connection has exactly one live owning loop |
| `Connection.OwnerLostIff` | websocket.go:829-1033 | The first step after which a wanted connection has no owner is exactly a promotion of a connection whose read has failed |
| `Connection.OwnerCanVanish` | websocket.go:872-889 | A full run from a fresh manager that ends with a connection wanted and no owner |
| `Connection.LossLasts` | websocket.go:192-233 | A lost owner stays lost, EnsureConnected included, until someone reconnects, disconnects or completes a rotation |
| `Connection.LossEnds` | websocket.go:216-249 | A reconnect gives a fresh owner, a disconnect ends the wish, and a promotion, by pong or by a timer that finds the loop alive, gives that loop the generation |
| `Connection.SupersededIsHarmless` | websocket.go:264-385 | A loop whose generation is superseded never changes the generation, the connect slot, the installed connection, the hand-off, nor reports connecting or disconnected |
| `Connection.ReachableSound` | websocket.go:192-1045 | The ownership invariant is kept by every lock region in every order |
| `ConnectionEffects.FailedReadIsFinal` | websocket.go:364-371 | After a failed read its connection is never the installed one again in any later state, and a rotation begins only from one installed since |
| `ConnectionEffects.EnsureTakesEffect` | websocket.go:192-208 | Afterwards a connection is wanted; an unwanted one gets a fresh generation with its owner, a wanted one is left alone |
| `ConnectionEffects.ReconnectTakesEffect` | websocket.go:216-233 | Nothing when none is wanted; otherwise connection and hand-off are dropped and a fresh generation has its owner |
| `ConnectionEffects.DisconnectTakesEffect` | websocket.go:236-249 | Nothing wanted, installed or warming, and no loop is current any longer |
| `ConnectionEffects.RotateIff` | websocket.go:729-757 | A rotation begins exactly from a wanted, authenticated, installed connection with none in progress, and disturbs nothing |
| `ConnectionEffects.PromotionTakesEffect` | websocket.go:963-1017 | With nothing awaited or after twenty waits the warmed connection is installed under a fresh generation with the status untouched; otherwise it waits once more |
| `ConnectionEffects.TimeoutTakesEffect` | websocket.go:1021-1033 | Only the hand-off in progress is given up |
| `ConnectionEffects.AttemptBeginsEffect` | websocket.go:265-274 | The loop of the current generation reports connecting and dials; any other leaves without a trace |
| `ConnectionEffects.DialEffect` | websocket.go:331-347 | A dial under the current generation installs a connection never used before; under any other, nothing |
| `ConnectionEffects.AuthenticatedEffect` | websocket.go:460-598 | An authenticated message on the installed connection reports connected and changes nothing else |
| `ConnectionEffects.AttemptEndsEffect` | websocket.go:280-300 | The loop of the current generation reports the loss, drops hand-off and pending replies and starts over; any other leaves |
| `ConnectionEffects.WarmReadEffect` | websocket.go:872-916 | A warming connection's message reaches the consumer only once it is the installed one |
| `ConnectionEffects.ServingReadEffect` | websocket.go:372-383 | A message is handled only by the loop of the current generation on the installed connection |
| `ConnectionEffects.WarmFailureEffect` | websocket.go:829-931 | A warming connection that fails or is refused gives up its own hand-off and disturbs nothing else |
| `ConnectionEffects.PongTakesEffect` | websocket.go:938-953 | The reply to the barrier ping promotes at once when nothing is awaited, and otherwise starts the waiting |
| `ConnectionObject.WebSocketManager.EnsureConnected` | websocket.go:192-208 | In place: the step's new state, and a loop started for the new generation exactly when the step says so |
| `ConnectionObject.WebSocketManager.Reconnect` | websocket.go:216-233 | In place: new generation, no connection, no hand-off, and the old connection among those to close |
| `ConnectionObject.WebSocketManager.Disconnect` | websocket.go:236-249 | In place: nothing wanted, new generation, everything taken down |
| `ConnectionObject.WebSocketManager.BeginAttempt` | websocket.go:265-274 | In place: dial only under the current generation |
| `ConnectionObject.WebSocketManager.EndAttempt` | websocket.go:280-300 | In place: go on only under the current generation, dropping the hand-off and pending replies |
| `ConnectionObject.WebSocketManager.ClearConnecting` | websocket.go:305-309 | In place: the slot is released only by its own generation |
| `ConnectionObject.WebSocketManager.Install` | websocket.go:340-347 | In place: a dialed connection is installed unless superseded |
| `ConnectionObject.WebSocketManager.DropConn` | websocket.go:364-371 | In place: a failed read removes only the connection it read |
| `ConnectionObject.WebSocketManager.RotateConnection` | websocket.go:729-757 | In place: a hand-off begins only from a healthy connection with none in progress |
| `ConnectionObject.WebSocketManager.WarmInstall` | websocket.go:841-848 | In place: the warming connection is recorded only for the current hand-off and generation |
| `ConnectionObject.WebSocketManager.PromoteHandoff` | websocket.go:963-1017 | In place: wait for pending replies up to the limit, otherwise swap under a fresh generation with the status untouched |
| `ConnectionObject.WebSocketManager.AbortHandoffIf` | websocket.go:1021-1033 | In place: only the current hand-off is abandoned, and the live connection stays |
| `ConnectionObject.WebSocketManager.TakeHandoff` | websocket.go:1037-1045 | In place: detaches the hand-off and returns its connection |
| `ConnectionObject.ReachableIsValid` | websocket.go:192-1045 | The manager's half of the ownership invariant, which every method of the object keeps, holds of the manager in every reachable state |
| `ExchangeWatch.TakenIffUndisturbed` | streams.go:603-745 | An observation is taken exactly when no notification, other observation taken or invalidation came since its epoch was captured and it is not older than the state held |
| `ExchangeWatch.ValueComesFromTaken` | streams.go:705-779 | The state held changes only by taking an unexpired observation, which clears recovery, or by an invalidation, which arms it |
| `ExchangeWatch.LandingTakesEffect` | streams.go:705-745 | A refused observation changes nothing; an expired one arms only its expiry; any other becomes the state held by an open stream, connected, with recovery off |
| `ExchangeWatch.InvalidationTakesEffect` | streams.go:750-779 | Past its epoch nothing; otherwise an open stream holds nothing, reconnects and arms recovery |
| `ExchangeWatch.RearmingTakesEffect` | streams.go:798-813 | A recovery callback re-arms an open stream that still holds nothing, counting up to ten |
| `ExchangeWatch.ObservationTimeReads` | observation_order.go:8-18 | Its own stamp if that reads, otherwise its allocation's, otherwise unknown |
| `ExchangeWatch.LifetimeReads` | streams.go:726-742 | Held for ever without a deadline, not at all past one or with one that does not read, and never past either limit |
| `ExchangeWatch.TimesNeverDecrease` | streams.go:713-720 | Between two invalidations, if all states held are stamped, their observation times never decrease over the whole run |
| `ExchangeWatch.OlderLandsIffUnstamped` | observation_order.go:20-34 | After stamped states only, between invalidations, an observation older than one of them can land if and only if the state held now is unstamped |
| `ExchangeWatch.UnstampedLetsOlderIn` | observation_order.go:20-34 | A run in which an unstamped state lets an older stamped one replace a newer one |
| `ExchangeWatch.ObservedBeforeOrders` | observation_order.go:28-34 | Observed-before is a strict order on stamped observations, transitive through a stamped one in its negation |
| `ExchangeWatch.RecoveryAlwaysPending` | streams.go:750-814 | From an invalidation until a state is restored or the stream closes, a recovery read is armed or its callback under way, with a delay of 1s to 30s |
| `ExchangeWatch.NoneArmedAfterClose` | streams.go:646-653 | Once Close has cleaned up under observationMu, no recovery is armed in any later state |
| `ExchangeWatch.DelayDoublesToCap` | streams.go:785-797 | For any attempt count, 64-bit wrap of the shift included, the delay doubles from one second and stays at thirty |
| `ExchangeWatch.ReachableInv` | streams.go:589-822 | The stream invariant holds in every reachable state |
| `ExchangeWatchObject.ExchangeWatchStream.EmitExchangeObservation` | streams.go:705-745 | In place: the step's new state, and an update queued only for an observation that was taken |
| `ExchangeWatchObject.ExchangeWatchStream.InvalidateExchangeObservation` | streams.go:750-779 | In place: the step's new state, with the update channel drained |
| `ExchangeWatchObject.ExchangeWatchStream.ScheduleRecovery` | streams.go:785-814 | In place: arms recovery with the capped delay and counts the attempt |
| `ExchangeWatchObject.ExchangeWatchStream.ClearRecovery` | streams.go:816-822 | In place: no recovery armed and the backoff reset |
| `ExchangeWatchObject.ExchangeWatchStream.Publish` | streams.go:56-90 | In place: value and state, and the bounded channel dropping its oldest entry when full |
| `Gates.NoLostRequest` | streams.go:429-450 | For Refresh and both recreate gates: after a request on an open stream, a run has begun since or one is owed |
| `Gates.OwedStays` | streams.go:669-703 | An owed run stays owed, comes strictly closer with every worker step and is not pushed back by further requests |
| `Gates.AtRestServed` | streams.go:1872-1901 | A gate at rest on an open stream has served every request with a run begun after it |
| `Gates.OneAtATime` | streams.go:425-450 | At most one worker per gate, and exactly one while the gate is active |
| `Gates.RequestsCoalesce` | streams.go:578-585 | Any number of requests during one run leave the gate as one does and cause exactly one more run |
| `Gates.QuietGateRests` | streams.go:692-699 | Without a request the worker gives the gate back |
| `Gates.IdleGateStarts` | streams.go:1872-1884 | A request on an idle gate starts one worker, unless a projection stream has stopped |
| `OperationWait.NoLostRecovery` | arca.go:432-440 | Every recovery request is followed by a read begun after it, or one is owed, unless the wait ends, although revisions share one token |
| `OperationWait.AtRestRecovered` | arca.go:479-531 | With worker idle, no token and no sender, every request has had a read begun after it |
| `OperationWait.SettlesOnce` | arca.go:410-431 | At most one outcome is ever sent; it is a terminal state of the awaited operation that was pushed or read, on the error channel exactly when it failed or expired |
| `OperationWait.ObservationTakesEffect` | arca.go:414-431 | The first terminal state of the operation awaited settles the wait; any other observation is only the latest one |
| `OperationWait.SendTakesEffect` | arca.go:424-430 | A winner goes to the error channel exactly when it failed or expired |
| `OperationWait.TokenTakesEffect` | arca.go:480-489 | A token is worth a pass exactly when the wait is open and a revision is not covered yet |
| `OperationWait.ReplyTakesEffect` | arca.go:504-531 | A terminal reply settles; a pending one behind a confirmed subscription, or the third attempt, covers the revision loaded before the read; anything else tries again |
| `OperationWait.ReachableInv` | arca.go:398-531 | The invariant of the wait in every interleaving, including at most three attempts per turn |
| `OperationWaitObject.OperationWaiter.TryResolve` | arca.go:414-431 | In place: the first terminal state of this operation wins and later ones change nothing |
| `OperationWaitObject.OperationWaiter.Recover` | arca.go:434-441 | In place: a new revision and a token |
| `OperationWaitObject.OperationWaiter.Turn` | arca.go:479-531 | One turn of the worker loop: at most three reads, leaving the wait settled by one of the replies or every revision covered |
| `EvidenceWait.EvidenceIsOurs` | operation.go:277-473 | Evidence returned was read off the submitted operation or off an order of the same account whose id is the one resolved; it is terminal with a definite verdict; at most three order reads are made |
| `EvidenceWait.IdentitySetOnce` | operation.go:326-392 | The resolved identity never changes once set and comes only from the submitted operation or an order read for it |
| `EvidenceWait.NothingSleptOn` | operation.go:297-440 | When the loop waits with no wake-up pending, the queue holds only account orders kept for a still unknown identity |
| `ExecutionReads.EventSettlesIff` | operation.go:420-449 | An event ends the wait exactly when it fails the submitted operation, is its admissible execution for the identity known, or is an admissible order of the account with the resolved id |
| `ExecutionReads.ProcessSettlesIff` | operation.go:414-449 | The main loop returns on the first such event it takes up and goes on past any other |
| `ExecutionReads.SnapshotSettlesIff` | operation.go:454-470 | A snapshot ends the wait exactly when it is an admissible order not of another identity, or a failure of the operation |
| `ExecutionReads.IdentityReads` | operation.go:180-197 | The identity at submission prefers the outcome text, the resolved one the decoded outcome, with the operation's id last |
| `ExecutionReads.SubmissionSettlesIff` | operation.go:311-321 | A failed submission fails the wait, and exactly an admissible one settles it at once |
| `ExecutionReads.IdentityTakesEffect` | operation.go:366-405 | The reader stores the identity it finds exactly where none is known, and wakes the main loop for it |
| `ExecutionReads.ReaderTakesEffect` | operation.go:406-416 | Each read's result goes to the main loop, and another follows only a gap or a failed one, three at most |
| `ExecutionReads.HoldTakesEffect` | operation.go:433-442 | An early order of the account goes back to the queue unless 256 events wait there already |
| `EvidenceWait.ReachableInv` | operation.go:277-473 | The invariant of the wait in every interleaving of pushes, identity resolution and snapshot reads |
| `Execution.ReceiptBalances` | operation.go:860-889 | A requested size is reported exactly when both sizes are decimals and filled is at most requested; then remaining plus filled is requested exactly, and the fulfillment is what the numbers say |
| `Execution.VerdictsAreSound` | operation.go:813-892 | "filled" with a requested size means full and zero remaining, "no fill" and "rejected" mean none, and a malformed filled quantity never becomes a verdict |
| `ExecutionReads.VerdictReads` | operation.go:813-856 | Every order's verdict as a table of status, filled quantity, shortfall and immediate-or-cancel, and what follows for the rest of it |
| `ExecutionReads.StatusReads` | operation.go:258-272 | Which spellings are filled, cancelled and failed, and that these are the terminal ones |
| `ExecutionReads.ReceiptCarries` | operation.go:860-904 | A receipt carries the order's identity, quantity and price, and a remainder printed to the longer of the two scales |
| `ExecutionReads.AmountReads` | operation.go:811-812 | An amount is digits, or digits, a point and digits, and reads as the exact parser reads it |
| `ExecutionReads.EvidenceCarries` | order_execution.go:41-106 | Evidence holds nothing but the outcome's figures, its text preferred to its decoded form, and the intent's size and time in force |
| `Execution.EvidenceIffAdmissible` | order_execution.go:41-106 | An operation yields evidence exactly when it is completed, names an order of this account, is terminal and has a definite verdict; size and time in force come from the intent |
| `Execution.UpdateKeepsIntent` | order_execution.go:110-119 | The venue's own size and time in force never matter; identity, status and filled quantity are the observation's |
| `Execution.ReceiptReportsIntent` | order_execution.go:65-119 | A receipt drawn from an update has a definite verdict and reports, if any, the intent's size, balanced against the filled quantity |
| `Execution.NormalizeIdempotent` | operation.go:263-272 | Normalizing a status twice is normalizing it once |
| `Execution.RecordedSizesCover` | operation.go:632-652 | The loop answers yes exactly when every text is a decimal and the exact sum equals the executed size |
| `OrderBreakdown.NotionalForSpend` | orderbreakdown.go:103-131 | The spend loop's notional costs exactly the requested spend under the margin function plus fee, for any sorted table |
| `OrderBreakdown.ComputeOrderBreakdown` | orderbreakdown.go:85-297 | Zero for rejected input; otherwise tokens are whole ticks within the notional asked, margin, fee and total are those of the tier function, a spend order falls short by less than one tick at the highest rate plus fee, the next threshold is the lowest bound above, and the liquidation estimate has its stated meaning |
| `OrderBreakdown.MarginOfReads` | orderbreakdown.go:153-198 | Margin times the leverage chosen is at least the notional, exactly it where no tier caps it; in the first tier margin times the lower of leverage and cap is the notional; in general each tier's share over the leverage it allows; maintenance likewise over twice the cap |
| `OrderBreakdown.HighestRateAttained` | orderbreakdown.go:100-134 | The highest rate in the shortfall bound is one over the leverage allowed by some tier that applies |
| `OrderBreakdown.TickScaleReads` | orderbreakdown.go:89-92 | Ten to the number of digits, where zero digits mean five |
| `OrderBreakdown.WorkedNotional` | orderbreakdown.go:85-297 | A notional of 1000 at 100 with leverage five under a cap of fifty: ten tokens and 200 of margin |
| `OrderBreakdown.WorkedSpend` | orderbreakdown.go:100-134 | A spend of 200 without fee buys that notional back |
| `OrderBreakdown.MarginLoop` | orderbreakdown.go:153-179 | The margin loop computes the tier requirement and the lowest bound above the notional |
| `OrderBreakdown.MaintenanceLoop` | orderbreakdown.go:181-198 | The maintenance loop computes the tier requirement at half rates |
| `OrderBreakdown.SpendShortfall` | orderbreakdown.go:143-204 | After flooring to ticks, 0 <= amount - totalSpend < (highest active rate + fee) * price / 10^szDecimals |
| `OrderBreakdown.MaintenanceAtMostHalf` | orderbreakdown.go:153-198 | Maintenance margin is at most half the initial margin at every notional and every chosen leverage |
| `OrderBreakdown.MarginSlope` | orderbreakdown.go:153-179 | Between two notionals the margin strictly grows, by at most the highest rate in force |
| `OrderBreakdown.LiquidationIsBreakEven` | orderbreakdown.go:246-275 | With maintenance taken as rate times size times mark, an estimate exists exactly when margin left at entry runs out at a positive price, lies on the losing side, and leaves exactly the error of valuing maintenance at entry: zero if and only if entry equals price or the rate is zero |
| `OrderBreakdown.EstimateCanMissBreakEven` | orderbreakdown.go:224-275 | A reduced position bought lower whose estimate leaves margin five below maintenance |
| `OrderBreakdown.EstimateLiquidation` | orderbreakdown.go:216-280 | None when the order leaves nothing held; otherwise the estimate has the meaning above for the position held, its tiered or flat maintenance, and equity less the fee |
| `MarginTiers.RequirementIsArea` | orderbreakdown.go:153-198 | What the tier loops compute is the area under the rate of the table, an independent reading of it |
| `MarginTiers.RequirementIsShares` | orderbreakdown.go:153-198 | What the tier loops compute is each tier's share of the notional over that tier's divisor, added up |
| `MarginTiers.RequirementMonotoneContinuous` | orderbreakdown.go:153-198 | For any table of positive rates: zero at zero, strictly increasing, continuous |
| `MarginTiers.RequirementSlope` | orderbreakdown.go:153-198 | Between two notionals the requirement grows at a rate within the bounds of the stages crossed |
| `MarginTiers.RequirementDominated` | orderbreakdown.go:181-198 | A table whose rates are at most f times another's requires at most f times as much |
| `MarginTiers.SpendStage` | orderbreakdown.go:115-131 | The stage at which the spend loop stops is the stage its notional lies in |
| `Accounting.WindowLaw` | accounting_pending.go:152-228 | While the ledger records any part of the leading pending execution at its own price, the composed market is unchanged: quantity, entry and flat verdict |
| `Accounting.ChangesPlacesIff` | accounting_pending.go:199-228 | A part may be recorded before an earlier execution without changing what is composed, if and only if directions, zero crossings and prices satisfy a stated condition |
| `Accounting.RecordedFirstIff` | accounting_pending.go:152-228 | With one execution ahead of it, recording an execution first keeps the composed market exactly under that condition |
| `Accounting.WindowLawAnywhere` | accounting_pending.go:152-228 | The window law for an execution anywhere in the list, when its part may change places with each one before it |
| `Accounting.NeverCrossingMoves` | accounting_pending.go:199-228 | Lists of only increases, and lists of only reductions that never cross zero, meet the condition whatever the prices |
| `Accounting.WindowQuantity` | accounting_pending.go:152-193 | Recording part of any pending execution, anywhere and at any price, keeps the composed quantity |
| `Accounting.LaterExecutionMayMoveEntry` | accounting_pending.go:195-228 | A concrete market where recording the later of two opposite executions first moves the entry price |
| `Accounting.ApplyInParts` | accounting_pending.go:199-228 | Applying an execution in two parts at one price is applying it once, across opens, increases, reductions, closes and reversals, priced or not |
| `Accounting.MergeAgreesWithComposition` | orderbreakdown.go:305-329 | For positive sizes and prices the order merge gives the side, size, entry and flat verdict of composing with one execution |
| `Accounting.ComposeProjectedPosition` | accounting_pending.go:152-193 | The accumulating loop computes the fold of the executions over the ledger row, or refuses when one cannot be read |
| `Accounting.ProjectedPositions` | accounting_pending.go:109-147 | Ledger markets that do not compose flat, in original order, then opened markets sorted |
| `Accounting.LedgerMarketReads` | accounting_pending.go:118-137 | A ledger market keeps its row when nothing is pending or something is unreadable, vanishes exactly when its signed size and its executions come to zero, and otherwise shows that sum, in any order |
| `AccountingBook.BookShows` | accounting_pending.go:109-193 | For every output and every market: what was held, plus bought, less sold, with its side, size, entry and provenance; the ledger's own row when nothing is pending or readable; nothing when flat |
| `AccountingBook.ExecutionReads` | accounting_pending.go:48-62 | Buys count up, sells count down, and anything unreadable, negative or of another side does not compose |
| `AccountingBook.DeltasRead` | accounting_pending.go:48-62 | The deltas of a list are what was bought less what was sold |
| `AccountingBook.BookInOrder` | accounting_pending.go:116-147 | Rows of ledger markets come first in ledger order, then other markets in strictly increasing order |
| `AccountingBook.MineInOrder` | accounting_pending.go:110-113 | A market's executions are exactly those that name it, in listed order |
| `AccountingBook.LessReads` | accounting_pending.go:140-140 | In the market order the first differing character decides, and a name comes before any it begins |
| `AccountingBook.WorkedBook` | accounting_pending.go:152-193 | A long of five with two sold but not recorded is projected as a long of three at its old entry |
| `Accounting.OpenedMarketReads` | accounting_pending.go:138-146 | A market only executions touch is absent when unreadable or flat and otherwise shows their sum, in any order |
| `Accounting.BookIgnoresOrder` | accounting_pending.go:109-147 | Two outputs over one ledger and the same executions in any order have the same added markets and the same markets, sides and sizes row by row |
| `Accounting.SumIgnoresOrder` | accounting_pending.go:171-182 | The composed quantity of permuted executions is the same |
| `Accounting.GroupPending` | accounting_pending.go:110-113 | Grouping by market keeps each market's executions in listed order |
| `Accounting.SortMarkets` | accounting_pending.go:138-143 | The opened markets come out strictly sorted and complete |
| `Accounting.SortedUnique` | accounting_pending.go:138-143 | A sorted listing of the markets is the only one, so map iteration order cannot show |
| `Decimals.PrintDecidesValue` | revalue.go:233-253 | Two decimals print the same exactly when their values are equal |
| `Decimals.ParsePrinted` | revalue.go:164-253 | Parsing a printed decimal gives its normal form |
| `Decimals.ParsePrintedValue` | revalue.go:164-253 | Parsing a printed decimal gives back its value |
| `Decimals.ValueIsQuotient` | revalue.go:157-162 | The number a decimal stands for is its mantissa over ten to its scale |
| `Decimals.AddValue` | revalue.go:208-219 | Addition is exact rational addition for all mantissas and scales |
| `Decimals.SubValue` | revalue.go:221-223 | Subtraction is exact rational subtraction |
| `Decimals.MulValue` | revalue.go:225-227 | Multiplication is exact rational multiplication |
| `Decimals.CheckDigits` | revalue.go:184-188 | The digit loop accepts exactly the texts made of digits |
| `Decimals.WorkedParse` | revalue.go:164-197 | A sign and a point read as they should, and texts without digits do not read |
| `Decimals.WorkedPrint` | revalue.go:233-253 | Minus 15 tenths, five hundredths and a zero, as printed |
| `Revaluation.RevalueConserves` | revalue.go:315-360 | Equity, unrealized value and a settled windowed P&L move by exactly the change in the positions' own P&L; nothing else moves |
| `Revaluation.RevalueReads` | revalue.go:260-360 | Every position of the row returned is at its mid, with the P&L shown plus signed quantity times the move from its mark, or from its entry without one; totals move by that; the incomplete flag is lifted exactly when all show a mark |
| `Revaluation.RemarkReads` | revalue.go:260-301 | A position is re-marked exactly when mid, size and either mark and P&L or entry read, and to the P&L those numbers give, a long counting up and a short down |
| `Revaluation.WorkedRow` | revalue.go:260-360 | Two marked at 100 and re-marked at 110: a long gains 20, a short loses 20, and equity follows |
| `Revaluation.RevalueComposesIff` | revalue.go:260-360 | Re-marking at m1 then m2 gives, text for text, the delivered row re-marked once at m1 overridden by m2, if and only if no unreadable mid overrides one that moves a position and the first pass is not the only one to touch the row |
| `Revaluation.RevalueComposes` | revalue.go:260-360 | In particular whenever the overriding mids are numbers |
| `Revaluation.UnparsableMidBreaksComposition` | revalue.go:260-301 | A row and mids for which the two differ because the overriding mid is not a number |
| `Revaluation.PositionComposesIff` | revalue.go:260-301 | For one position: two passes are one exactly when an unreadable overriding mid meets a position the first mids leave untouched |
| `Revaluation.UntouchedIff` | revalue.go:260-301 | A position is left untouched exactly under the guards of the re-mark, or when it already shows that mark and its printed P&L |
| `Revaluation.PositionComposes` | revalue.go:260-301 | With a readable overriding mid, two passes over a position are one |
| `Revaluation.RemarkAll` | revalue.go:319-334 | The loop yields every position re-marked, the exact total shift and the two flags |
| `Revaluation.RevalueProjectedValuation` | revalue.go:315-360 | The in-order pass returns the row the laws above are about, with every position, total and flag as stated |
| `Cosign.DigestBindsEveryField` | cosign.go:207-257 | Two proposals that verify with one digest describe the same hop, or two of their own preimages collide under the hash |
| `Cosign.CollisionFreeBinds` | cosign.go:207-257 | Without such a collision and with non-negative chain id and deadline, they agree on action, chain, kernel, both boundaries, both venues, sub-account, token, raw amount, ref, nonce and deadline |
| `Cosign.SameHopSameDigest` | cosign.go:207-257 | Proposals that verify and describe the same hop carry the same digest, however their fields are spelled |
| `Cosign.SignIsNotBound` | cosign.go:46-119 | Negating the chain id alone, or the deadline alone, leaves the digest unchanged |
| `Cosign.VerifyIffOwnHashes` | cosign.go:207-257 | A proposal passes exactly when its domain and action are known, every field reads, and the hashes it carries are those of its own preimages |
| `CosignLayout.ParamsBytesLayout` | cosign.go:152-193 | The 256 bytes hashed for a hop, field by field at its own offset, in the order of the kernel's encoding |
| `CosignLayout.DomainLayout` | cosign.go:46-58 | The 160 bytes of the domain: type, name and version hashed, chain id, kernel address |
| `CosignLayout.StructLayout` | cosign.go:104-112 | The 192 bytes of the action: type hash, action, boundary, parameters' hash, nonce, deadline |
| `CosignLayout.OuterLayout` | cosign.go:114-118 | The 66 bytes of the digest: 0x19 0x01, domain separator, struct hash |
| `CosignLayout.DecimalReads` | cosign.go:313-325 | A decimal number reads back up to what a word holds, and a negative one is refused |
| `CosignLayout.HexReads` | cosign.go:327-349 | Twenty printed bytes read back as an address, 32 as a word, and no other length as either |
| `CosignLayout.KnownProposals` | cosign.go:17-29 | The domain's name and version and the two actions, by name and number |
| `CosignLayout.WorkedBytes` | cosign.go:307-311 | Most significant byte first |
| `Cosign.BigEndianDenotes` | cosign.go:307-311 | The big-endian encoding loses nothing below 256^k |
| `Cosign.AbiUint` | cosign.go:307-311 | The 32-byte buffer filled in place is the big-endian magnitude |
| `Cosign.ConcatInjective` | cosign.go:186-192 | A buffer of 32-byte words determines the words |
| `Cosign.AppendWords` | cosign.go:186-191 | The appending loop concatenates the words in order |
| `Cosign.TransferBetweenVenuesParamsHash` | cosign.go:152-193 | The hash of the eight words, or an error when any field does not read |
| `Cosign.DecodePrinted` | cosign.go:351-361 | Decoding a printed word gives back its bytes |
| `Cosign.PrintedDecides` | cosign.go:363-368 | Printed words compare equal, case aside, exactly when their bytes are equal |
| `WalletStream.ReadFundingWalletSSE` | funding_v9.go:1342-1395 | For every line sequence and every answer: exactly the frames of the lines read are delivered in order, all accepted but a refused last one; the resume id is that of the last accepted marking frame; no block ever holds more than 8 MiB; and it stops only at the end, at a refusal, at a data line past the limit or at a position that is not its own id |
| `WalletStream.StreamFundingV9Wallets` | funding_v9.go:1244-1306 | The resume id is the initial one or the sequence of the last position the consumer accepted, where accepted means all shown but a last event it refused or a wallet error; no unreadable or mismatched frame is passed over; the stream stops only for the stated reasons |
| `WalletStream.AcceptedShows` | funding_v9.go:1261-1305 | Over accepted frames the resume id is the last position shown, positions are never zero and the consumer accepted everything shown |
| `WalletStream.JoinFits` | funding_v9.go:1383-1388 | The joined payload of a block is no longer than its data lines |
| `WalletFrames.WrittenFramesRead` | funding_v9.go:1342-1395 | Any frames written one after the other are delivered as they are, in order |
| `WalletFrames.KindShown` | funding_v9.go:1261-1297 | Which frame is shown as what, by its event's name, and which are refused or passed over |
| `WalletFrames.WalletErrorEnds` | funding_v9.go:1298-1304 | A wallet error ends the stream whatever the consumer answers |
| `WalletFrames.FieldReads` | funding_v9.go:1379-1382 | An event or id field reads back, with or without a space after its colon |
| `WalletFrames.DataReads` | funding_v9.go:1383-1388 | Data loses its field name and one leading space, and nothing more |
| `WalletFrames.NoticeReads` | funding_v9.go:1372-1378 | The two comments that are notices |

## Left out

- HTTP, JSON decoding, URLs, authentication and every endpoint wrapper: values arrive already decoded, and a text that would not decode is a case of its own.
- keccak, secp256k1, BIP-32/39 and EIP-55: the hash is any function to 32-byte words, and signing is not modelled.
- Wall-clock time, jitter and real timers: a timer fires at any moment after it is armed.
- Floating point: `orderbreakdown.go` computes in float64; the model computes in reals and does not capture rounding, NaN or infinities, nor the eight-digit output of `fmtNum`.
- Accounting.ComposeProjectedPosition: sizes and entries are exact; `ratDecimal`'s rounding of a non-terminating entry to 18 digits is not modelled.
- FillStream.AtLeastOnce: takes `deliver` and `start` as one step each; `FillEmit.EmitIsSafeIff` and `FillStart.StartIsSafeIff` are the results with each of them in two.
- FillStreamObject.RealmFillWatchStream.RunReplay: the loop without interference or read failures; with them it is the worker of the step relation.
- OperationWaitObject.OperationWaiter.Turn: one turn without interference, deadline or outside settlement; with them it is the worker of the step relation.
- FillStream.GapsCountLosses: counts losses after a connection's first numbered message; `FillStream.AllLossesCountedIff` says when that is all of them.
- Accounting.WindowLawAnywhere: for longer lists the condition is sufficient; it is exact past one execution, since later ones may cancel or erase a difference.
- Accounting.ProjectedPositions: ledger markets are taken as distinct where a row is looked up by market.
- Cosign.HexEqual: letter case is folded for ASCII only.
- Delivery across a rotation without loss or duplication: it depends on the relative timing of two sockets.
- The projection stream's resync gate: it tests and clears its flags in different critical sections.
- Holding a state no longer than its validUntil: a later notification disarms the old expiry.
- Delivery through the drop-oldest Updates channel: delivery results are about the callback path.
- ExchangeWatch: the 64-bit epoch counter does not wrap in the model.
- EvidenceWait: the handle's order reader and readiness check are taken to be present, and orders it reads are taken to be of the account asked for; a held order is dropped when 256 events are already queued, so it is not promised to be seen again.
- WalletStream: a character stands for a byte, and splitting the body into lines is not modelled.
- Pure status and side words outside ASCII: upper and lower case are ASCII only.
- The caches, the price ladder, the candle CDN reader and money figures.
