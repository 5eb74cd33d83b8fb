# A verified model of smb2

This project models the hard parts of the smb2 client library and proves, for all inputs and all
interleavings, what its code and documentation promise about them, or exactly when a promise fails.

**The connection protocol.** One connection is shared by any number of callers, a writer task and a
receiver task.

- `ConnectionState` holds the shared state (`Core`: waiter map, `disconnected` flag, id counter,
  ring of departed ids, credit budget, routing counters) and what each lock section does to it.
- `ConnectionSteps` turns every lock section and atomic operation into an event. A run is any legal
  sequence of events. The server is adversarial: any frame may arrive at any time. A teardown and a
  revival are taken apart into their single steps, so callers can run in between.
- `ConnectionSafety` is the invariant of every step. `ConnectionRouting`, `ConnectionTally`, `ConnectionFrames`
  and `ConnectionCredits` are the theorems about all runs. `ConnectionGenerations` gives a reachable state
  for each promise that needs a hypothesis.
- `Connection` is the shared state as the mutable object the source keeps it in. Its methods are
  proved against the same functions on `Core` that the events use, and against `Liveness`.
- `Credits` is the credit pool and its reservation as objects.
- `Liveness` is the clocks, the verdicts read off them, and stall forgiveness.
- `Revival` is `reconnect_if_needed` for any number of callers, and the attempt loop inside it.

**Everything else.** `Compound` (frame builder and splitter), `Copy` (server-side copy against an
arbitrary server), `Names` (private-use-area mapping), `Der` and `Spnego`, `AvPairs`, `Authenticate`
and `Rc4` (NTLM), `Dfs` (referral cache), `Bytes` (little-endian integers), `Text` (trimming).

Arithmetic is unbounded, with the source's casts written out where they truncate. Time is a number of
ticks. Channels are numbered; a channel holds at most one reply.

## Where the code and its documentation disagree

The model follows the code. Each of these is proved.

- The guard's comment relies on ids never being reused (src/client/connection.rs:127). A revival
  restarts ids at 0, so an old request can take a new request's waiter out of the map in three ways: by
  its guard (`StaleGuardTakesAStrangersWaiter`), by the removal after a failed send
  (`StaleRemovalTakesAStrangersWaiter`), and by registering late
  (`LateRegistrationTakesAStrangersWaiter`). `StaleGuardEvicts`, `StaleRemovalEvicts` and
  `LateRegistrationOverwrites` are the exact conditions, `TimelyExits` what holds when nobody carries an
  id across a revival.
- Nor does the receiver know which socket a frame came over. One that finishes its last batch after a
  revival hands the old server's answer to a new request: `OldAnswerReachesANewWaiter`.
  `AnswersStayNativeExactlyInNativeRuns` is the exact condition over all runs.
- The guard notes a departed id in a lock section of its own (src/client/connection.rs:137-141). A
  revival in between puts the old id into the new ring: `LateNotePollutesTheRing`, exactly when
  `LateNoteOverlaps` says.
- The write queue's comment says a dead session's frame cannot reach the new socket
  (src/client/connection.rs:1065-1068). It can, because the queue is looked up after the frame was
  numbered: `StaleFrameReachesTheNewSocket`. `FramesMatchExactlyInPunctualRuns` is the exact condition
  over all runs.
- A reservation refunds into the pool that is current at the drop. Across a revival that inflates the
  new budget: `StraddlingRefundInflates`, with the exact condition in `RefundKeepsThePlainLedger`.
- The pool's comment forbids carrying the old session's credits over (src/client/credits.rs:78-88). A
  grant still in the old receiver's hands lands in the new pool: `StaleGrantOverspends`.
- The cost on the wire can exceed what its own server granted in three more ways:
  `DroppedCallerOverspends`, `StaleReservationOverspends`, `SaturatedCompoundOverspends`.
  `SolventExactlyWhenOrderly` is the exact condition on each step, and `WhatTheWireOwes` names the excess
  to the credit in every reachable state.
- A teardown closes whichever budget is current once it gets to it (src/client/connection.rs:4378-4381).
  After a revival that starves a live connection: `LateCloseStarvesALiveConnection`, exactly when
  `OnlyALateCloseShutsALiveBudget` says.
- The attempt loop's comment wants no half-built session ever to look usable
  (src/client/connection.rs:3688-3690). The socket is installed before it is authenticated, so a second
  caller is told that it is up: `ToldUpWhileAuthenticating`. A caller dropped while it authenticates
  leaves it so with nobody at it: `DroppedReviverLeavesItHalfBuilt`. And a queued caller is told success although
  the revived connection died again, or died under the reviver itself: `ToldFixedWhileDead`,
  `ReviverToldUpWhileDead`. `ToldTheTruthExactlyUnlessFooled` is the
  exact condition on each step, `RunsAreTruthfulExactlyWhenNobodyIsFooled` over all runs, and
  `FooledWithoutDrops` what is left of it when no caller is dropped.
- The name mapping is documented to round-trip in both directions but for two gaps (src/name.rs:50-66).
  There is a third, for paths from the wire: a period followed by the mark of a trailing period decodes
  to the parent directory and goes back out as that: `MarkedPeriodTurnsIntoParent`. `WireNameRoundTrip`
  and `WirePathRoundTrip` are the exact conditions.
- The policy documents a ceiling on the backoff (src/client/connection.rs:778-780). The first sleep is
  not capped: `PausesAreCappedUnlessTheFirst`.
- The copy loop ends against fixed limits, but a server that alternates its advertised limits keeps it
  going for ever: `RejectionsGoOnWhileLimitsChange`.

## Model

| member | source | states |
|---|---|---|
| `ConnectionSafety.InvStep` | src/client/connection.rs:2932-2979 | every atomic step of callers, writer, receiver, teardown and revival keeps the whole invariant: map and channels agree, no ghost waiters, ids tile, channels hold only what they are owed, ring and counters are exact |
| `ConnectionSafety.RunKeepsInv` | src/client/connection.rs:3719-3758 | so does every run, through any number of teardowns and revivals |
| `ConnectionSafety.HookedStep` | src/client/connection.rs:4096-4177 | a channel is in the map under its own id if and only if it is waiting, after every step |
| `ConnectionSafety.TiledStep` | src/client/connection.rs:2932-2942 | in each generation the allocated id ranges stay disjoint, ordered and without gaps |
| `ConnectionSafety.MailStep` | src/client/connection.rs:4373-4402 | a taken sender holds a reply to its own id or a teardown error, and a channel that left by routing or draining got its reply or was closed |
| `ConnectionSafety.RingStep` | src/client/connection.rs:129-146 | the ring stays the newest at most 512 departed ids |
| `ConnectionRouting.NoGhostWaiter` | src/client/connection.rs:2955-2979 | in every reachable state a disconnected connection has no waiter |
| `ConnectionRouting.RegistrationAfterDeathIsRefused` | src/client/connection.rs:2955-2979 | a registration on a dead connection changes nothing shared; over every later run the channels it left unregistered never enter the map and the call's frame never reaches a wire |
| `ConnectionRouting.IdsTileEveryGeneration` | src/client/connection.rs:2932-2942 | in every generation each id below the counter belongs to exactly one allocated range |
| `ConnectionRouting.WrittenAtMostOnce` | src/client/connection.rs:4096-4177 | over any run a channel is written at most once, with exactly the reply that was taken for it, and a departed waiter stays departed the way it left |
| `ConnectionRouting.AnswersBearTheirOwnId` | src/client/connection.rs:4096-4177 | an answer only ever reaches the channel whose id it bears, and only a verified, final, solicited one |
| `ConnectionFrames.AnswersAreNativeExactlyWhenRoutedSo` | src/client/connection.rs:4096-4177 | a step hands a caller an answer from another generation's socket if and only if it routes one to a waiter of another generation than the socket that brought it |
| `ConnectionFrames.AnswersStayNativeExactlyInNativeRuns` | src/client/connection.rs:4096-4177 | over every run: every answer handed out came over its channel's own generation's socket if and only if no step routed one otherwise |
| `ConnectionRouting.TeardownTellsEveryWaiter` | src/client/connection.rs:4373-4402 | each waiter a teardown finds, on its own or inside a revival, is owed one error, and over every later run its channel can hold nothing else |
| `ConnectionRouting.WhyAWaiterLeaves` | src/client/connection.rs:123-148 | a waiter leaves the map in exactly one way; eviction and overwriting need a channel of another generation with the same id |
| `ConnectionRouting.LateRegistrationOverwrites` | src/client/connection.rs:2955-2979 | registering takes another channel out of the map if and only if the connection is up and a channel of another generation holds the id |
| `ConnectionRouting.StaleGuardEvicts` | src/client/connection.rs:123-148 | dropping a guard removes a stranger's waiter if and only if the id is registered by a channel of another generation |
| `ConnectionRouting.StaleRemovalEvicts` | src/client/connection.rs:3810-3813 | the same for the removal after a failed send |
| `ConnectionRouting.TimelyRunsStayCurrent` | src/client/connection.rs:123-148 | when nobody carries an id across a revival every waiter belongs to the current generation |
| `ConnectionRouting.TimelyExits` | src/client/connection.rs:3810-3813 | in such runs a waiter leaves only by being routed, drained, dropped or removed |
| `ConnectionRouting.TimelyRingIsDisjoint` | src/client/connection.rs:129-146 | in such runs, whatever comes between a guard's two lock sections, no remembered departed id is registered |
| `ConnectionRouting.LateNoteOverlaps` | src/client/connection.rs:137-141 | noting a departure makes ring and map overlap if and only if a channel of another generation holds the id by then |
| `ConnectionRouting.RoutingPartition` | src/client/connection.rs:4096-4177 | in every reachable state ok, err, late and stray add up to the sub-frames routed, and the ring is the last at most 512 departed ids |
| `ConnectionTally.CountersAreExact` | src/client/connection.rs:4096-4177 | in every reachable state ok is the number of channels an answer went into and err the number a routed fault went into; all other routed sub-frames are late or stray |
| `ConnectionTally.MissesAreToldApart` | src/client/connection.rs:4149-4177 | a sub-frame without a waiter counts as late if and only if its id is among the newest 512 departures, and as a stray otherwise |
| `ConnectionTally.TeardownSaysWhy` | src/client/connection.rs:4373-4402 | a teardown empties the map and owes every waiter a lost connection, or the silence of an unresponsive server with its length |
| `ConnectionTally.GuardIsTwoSections` | src/client/connection.rs:123-148 | the guard as one piece is its two lock sections in a row |
| `ConnectionCredits.LedgerStep` | src/client/credits.rs:66-145 | every step keeps every generation's credit ledger exact, and discarded budgets closed |
| `ConnectionCredits.CreditsAreConserved` | src/client/credits.rs:66-145 | in every interleaving and generation: on hand + reserved + committed + refunds and grants strayed out = 1 + the own server's grants + refunds and grants strayed in |
| `ConnectionCredits.OldBudgetsAreClosed` | src/client/credits.rs:124-130 | a caller parked on a discarded budget is never served from it |
| `ConnectionCredits.RefundKeepsThePlainLedger` | src/client/credits.rs:135-137 | a refund keeps "on hand + reserved + committed = 1 + grants" if and only if the reservation came from the current pool |
| `ConnectionCredits.SolventExactlyWhenOrderly` | src/client/connection.rs:1228-1275 | a step of any party keeps every frame paid for by its own generation and every grant in its own server's pool if and only if it saturates no reservation, abandons no frame before its ack, and neither sends, refunds nor banks across a revival |
| `ConnectionCredits.WireStaysWithinTheGrants` | src/client/connection.rs:2272-2376 | in runs of such steps the charges on each generation's wire plus what is on hand never exceed 1 + what that wire's own server granted |
| `ConnectionCredits.WhatTheWireOwes` | src/client/connection.rs:2272-2376 | in every reachable state the wire's excess over its own server's grants is exactly saturation shortfall + refunded though sent + strayed payments, refunds and grants, less what the pool paid for nothing or gave away; so it is within the grants if and only if these do not outweigh those |
| `ConnectionCredits.OnlyALateCloseShutsALiveBudget` | src/client/connection.rs:4373-4385 | a step shuts a live connection's budget if and only if it is a teardown's close that comes after a revival's reset |
| `ConnectionCredits.PromptRunsKeepTheBudgetOpen` | src/client/connection.rs:4373-4385 | in runs without late closes a live connection's budget is open, and serves whoever finds its credits there |
| `ConnectionFrames.FramesMatchExactlyWhenPunctual` | src/client/connection.rs:1228-1275 | a step leaves every frame on the wire of its own generation if and only if none was before on another's and the step hands none over late |
| `ConnectionFrames.FramesMatchExactlyInPunctualRuns` | src/client/connection.rs:1060-1068 | over every run: each frame queued, sent or lost bears ids of its wire's own generation if and only if every hand-over was punctual |
| `ConnectionGenerations.DroppedCallerOverspends` | src/client/connection.rs:1228-1275 | a reachable run where a dropped caller's frame puts two charges on a wire with one credit |
| `ConnectionGenerations.CallIsAnswered` | src/client/connection.rs:2272-2376 | a reachable run in which a call sends, pays and is handed any genuine answer to its id |
| `ConnectionGenerations.StraddlingRefundInflates` | src/client/credits.rs:215-221 | a reachable run where a refund across a revival gives the new pool two credits for one |
| `ConnectionGenerations.StaleReservationOverspends` | src/client/connection.rs:2272-2376 | a reachable run that spends old credits on the new socket |
| `ConnectionGenerations.SaturatedCompoundOverspends` | src/client/connection.rs:2678-2681 | a reachable run where a compound's saturated reservation underpays its frame |
| `ConnectionGenerations.StaleGrantOverspends` | src/client/connection.rs:4230-4230 | a reachable run where the old server's grant is banked into the new pool and eleven charges go out on a wire with one credit, each frame paid for by its own pool |
| `ConnectionGenerations.StaleGuardTakesAStrangersWaiter` | src/client/connection.rs:123-148 | a reachable run where an old guard evicts a new waiter |
| `ConnectionGenerations.StaleRemovalTakesAStrangersWaiter` | src/client/connection.rs:3810-3813 | a reachable run where an old request's removal evicts a new waiter |
| `ConnectionGenerations.LateRegistrationTakesAStrangersWaiter` | src/client/connection.rs:2955-2979 | a reachable run where an old request's registration overwrites a new waiter |
| `ConnectionGenerations.OldAnswerReachesANewWaiter` | src/client/connection.rs:4096-4177 | a reachable run where a new request is handed an answer of the old server |
| `ConnectionGenerations.StaleFrameReachesTheNewSocket` | src/client/connection.rs:1228-1275 | a reachable run where a frame numbered in one generation goes out on the next one's wire |
| `ConnectionGenerations.LateNotePollutesTheRing` | src/client/connection.rs:137-141 | a reachable run, without evictions, where an id is in the ring and in the map |
| `ConnectionGenerations.LateCloseStarvesALiveConnection` | src/client/connection.rs:4373-4385 | a reachable run that ends with a live connection no caller can get credits from |
| `Credits.CreditPool.constructor` | src/client/credits.rs:66-71 | a new pool holds one open credit |
| `Credits.CreditPool.Reset` | src/client/credits.rs:86-88 | a fresh budget of one credit, the old semaphore untouched |
| `Credits.CreditPool.Available` | src/client/credits.rs:93-95 | the permits, saturating at 65535 |
| `Credits.CreditPool.Grant` | src/client/credits.rs:98-102 | exactly the granted credits are added to the current budget |
| `Credits.CreditPool.TryReserve` | src/client/credits.rs:105-113 | succeeds if and only if the budget is open and large enough, and takes all of the charge or nothing |
| `Credits.CreditPool.Refund` | src/client/credits.rs:135-137 | the charge goes back to whichever budget is current |
| `Credits.CreditPool.RequestFor` | src/client/credits.rs:143-145 | at least the charge; a full grant brings the window to the target unless the field saturates |
| `Credits.CreditPool.Close` | src/client/credits.rs:162-164 | the budget is closed with its permits as they were |
| `Credits.CreditReservation.Commit` | src/client/credits.rs:196-221 | a committed reservation no longer knows its pool |
| `Credits.CreditReservation.Drop` | src/client/credits.rs:215-221 | gives back exactly the charge, or nothing once committed |
| `Credits.ReserveAndDrop` | src/client/credits.rs:196-221 | reserve and drop restores the budget |
| `Credits.ReserveAndCommit` | src/client/credits.rs:196-221 | reserve, commit and drop leaves the budget short by exactly the charge |
| `Credits.ReserveResetDrop` | src/client/credits.rs:135-137 | a reservation dropped after a reset leaves the new budget with 1 + charge |
| `Connection.BatchIsCountedOnce` | src/client/connection.rs:4096-4177 | for every batch, the counters grow by exactly the routable sub-frames |
| `Connection.BatchTakesOnlyItsOwn` | src/client/connection.rs:4096-4177 | a batch removes a waiter if and only if a routable frame names it, and leaves the rest alone |
| `Connection.DeliveriesAreAnswers` | src/client/connection.rs:4096-4177 | every delivery carries the reply of a frame that names the id its channel was registered under |
| `Connection.NoChannelIsWrittenTwice` | src/client/connection.rs:4096-4177 | no channel is written twice in a batch, however often the server repeats an id |
| `Connection.FirstFrameIsDelivered` | src/client/connection.rs:4096-4177 | a waiter that still listens is handed the reply of the first routable frame of the batch that names it |
| `Connection.Inner.constructor` | src/client/connection.rs:1183-1222 | a new connection is the protocol's initial state |
| `Connection.Inner.AllocateMsgId` | src/client/connection.rs:2932-2942 | refines the allocation step |
| `Connection.Inner.RegisterWaiter` | src/client/connection.rs:2955-2979 | refused if and only if disconnected; refines the registration step and starts the request's clocks |
| `Connection.Inner.DropGuard` | src/client/connection.rs:123-148 | refines the guard's removal and its entry in the bounded ring |
| `Connection.Inner.RemoveWaiter` | src/client/connection.rs:3810-3813 | refines the explicit removal, which leaves no ring entry |
| `Connection.Inner.PrepareSubFrame` | src/client/connection.rs:4206-4363 | corrupt framing is fatal and touches nothing; every other frame's grant is banked exactly once; nobody is handed an unsolicited or interim frame; any other goes to the id it bears, as a bad signature if and only if it is signed, unencrypted, on a signing session with a key, and does not verify, as an expired session if and only if it says so and is not tampered with, and as an answer with its own body, status and credits otherwise; an interim response restarts its own request's clock and no other |
| `Connection.Inner.NoteInterim` | src/client/connection.rs:4272-4295 | exactly the named request's deadline starts over, and its async id is kept |
| `Connection.Inner.RouteFrame` | src/client/connection.rs:4096-4177 | refines the routing of one sub-frame; what is sent, and each of the four counters, written out for every case of waiter, receiver and ring |
| `Connection.Inner.RouteFrames` | src/client/connection.rs:4096-4177 | the routing loop computes the batch specification, state and deliveries |
| `Connection.Inner.FanErrorToWaiters` | src/client/connection.rs:4373-4402 | refines teardown; each waiter is told exactly once, a silent server's own error or else a lost connection |
| `Connection.Inner.InstallTransport` | src/client/connection.rs:3719-3758 | afterwards nothing of the old session is left but the counters, and every old waiter was told |
| `Connection.Inner.NoteServerSpoke` | src/client/connection.rs:1369-1371 | the frame clock is set, and that proves the connection alive |
| `Connection.Inner.MarkSent` | src/client/connection.rs:1281-1290 | restarts the deadline of exactly the requests in the frame |
| `Connection.Inner.QuietFor` | src/client/connection.rs:1394-1405 | the loop finds the oldest sent request and measures silence from the later of it and the last frame; nothing sent means no answer |
| `Connection.Inner.ForgiveSchedulingStall` | src/client/connection.rs:1438-1478 | refines `Liveness.Forgive`, reports the stall, and touches nothing but clocks |
| `Liveness.NeverAliveAndUnresponsive` | src/client/connection.rs:1499-1544 | at one instant a connection is never both provably alive and unresponsive |
| `Liveness.AliveOrUnresponsive` | src/client/connection.rs:1499-1544 | when the server spoke after the oldest request went out, it is exactly one of the two |
| `Liveness.ForgivenessKeepsDifferences` | src/client/connection.rs:1438-1478 | forgiving a stall preserves every difference between two clocks |
| `Liveness.ForgivenessIsIdempotent` | src/client/connection.rs:1438-1478 | forgiving twice at one instant changes nothing more |
| `Liveness.ForgivenessKeepsWhatWasOwed` | src/client/connection.rs:1438-1478 | a request is afterwards exactly as idle as when the stall began, plus the tick that was due |
| `Liveness.GivingUpCostsTheDeadline` | src/client/connection.rs:3043-3140 | a wait gives up if and only if idle reached the timeout, or six times it while provably alive; it calls the connection dead only when not provably alive |
| `Liveness.AwaitResponse` | src/client/connection.rs:3043-3140 | the loop ends at the first wakeup that gives a verdict, and calls the connection dead if and only if the clocks at that wakeup show a whole liveness window of silence since the oldest sent request and the last frame |
| `Liveness.DeadExactlyWhenSilent` | src/client/connection.rs:3043-3140 | a wait that is given up is called dead if and only if the clocks show that silence, and a timeout otherwise |
| `Liveness.QuietIsTheShorter` | src/client/connection.rs:1394-1405 | silence is the shorter of the time since the last frame and the time since the oldest unanswered request went out |
| `Liveness.OnlyAStallIsForgiven` | src/client/connection.rs:1438-1478 | a stretch unscheduled for at least the keepalive interval, beyond the tick that was due, moves a request's clock by exactly that stretch; a shorter one by nothing |
| `Liveness.TickIsAFifth` | src/client/connection.rs:1485-1487 | the tick is a fifth of the keepalive interval, within 25 ms and one second |
| `Liveness.SilenceEndsTheWait` | src/client/connection.rs:3043-3140 | with no activity and no stall the wait is over at the latest on the first wakeup past six timeouts |
| `Liveness.NoEarlyVerdict` | src/client/connection.rs:3043-3140 | no wait ends before the request was silent for a whole timeout, stalls included |
| `Liveness.OnlyListeningAges` | src/client/connection.rs:1438-1478 | over any number of wakeups and stalls, a silent request ages by exactly the time this process was scheduled |
| `Liveness.ListeningEndsTheWait` | src/client/connection.rs:3043-3140 | through any stalls, a silent wait is over by the first wakeup with six timeouts listened, and never before one |
| `Revival.InvStep` | src/client/connection.rs:3549-3567 | every step of every caller keeps: one lock holder, bounded attempts, an exact dial log, cooldown, generation count, backoff spacing |
| `Revival.RunKeepsInv` | src/client/connection.rs:3549-3697 | so does every run |
| `Revival.OneRevivalAtATime` | src/client/connection.rs:3549-3697 | in every reachable state at most one caller is reviving, no caller has dialled more than `max_attempts` times, and the generation is the number of successes |
| `Revival.DialsBackOff` | src/client/connection.rs:3665-3674 | every dial after a caller's first follows that caller's previous dial by at least the backoff |
| `Revival.NoDialWhileTheVerdictStands` | src/client/connection.rs:3571-3589 | no step of anybody dials inside the cooldown of a standing failure |
| `Revival.WhatAQueuedCallerFinds` | src/client/connection.rs:3549-3613 | each of the five ways past the lock is taken if and only if its own condition holds and no earlier one does |
| `Revival.FailureRestsAndDialsAgain` | src/client/connection.rs:3656-3697 | a failed attempt leaves the connection dead and is followed by its own pause if attempts are left, and by giving up if and only if none is |
| `Revival.GivingUpIsEarned` | src/client/connection.rs:3770-3799 | a caller gives up only after `max_attempts` dials of its own or with its budget spent, and records the failure at that moment |
| `Revival.TurnedAwayMeansDisconnected` | src/client/connection.rs:3770-3799 | whoever gives up or is turned away leaves the connection disconnected |
| `Revival.SuccessOvertakes` | src/client/connection.rs:3553-3560 | a success overtakes every caller in the queue |
| `Revival.QueuedBehindASuccessDialsNothing` | src/client/connection.rs:3553-3560 | a caller that queued before a success never dials, over every later run |
| `Revival.ToldTheTruthExactlyUnlessFooled` | src/client/connection.rs:3549-3567 | in every reachable state a caller that is told the connection is up is told so on a live, authenticated connection unless the current socket's authentication is unfinished, or the connection somebody revived is dead again |
| `Revival.RunsAreTruthfulExactlyWhenNobodyIsFooled` | src/client/connection.rs:3549-3567 | over every run, all such answers were true if and only if none was given in those circumstances |
| `Revival.FooledWithoutDrops` | src/client/connection.rs:3684-3705 | without drops: a newcomer is told wrongly if and only if the lock holder is authenticating, a queued caller if and only if the revived connection is dead again |
| `Revival.OnlyADropLeavesItUnattended` | src/client/connection.rs:3684-3694 | a step leaves a live unauthenticated socket with nobody at it if and only if it drops the caller that is authenticating on it |
| `Revival.ToldUpWhileAuthenticating` | src/client/connection.rs:3700-3705 | a reachable run without drops where a second caller is told that an unauthenticated connection is up |
| `Revival.ToldFixedWhileDead` | src/client/connection.rs:3553-3560 | a reachable run without drops where a queued caller is told success on a dead connection |
| `Revival.ReviverToldUpWhileDead` | src/client/connection.rs:3616-3632 | a reachable run without drops where the reviver itself is |
| `Revival.DroppedReviverLeavesItHalfBuilt` | src/client/connection.rs:3700-3705 | a reachable run that ends half-built, and the next caller is told all is well |
| `Revival.PauseDoublesUpToTheCap` | src/client/connection.rs:3662-3674 | from the second on, sleep k is min(initial * 2^(k-1), max_backoff) |
| `Revival.PausesAreCappedUnlessTheFirst` | src/client/connection.rs:3662-3674 | all sleeps are within the ceiling if and only if the initial one is |
| `Revival.ReviveAttempts` | src/client/connection.rs:3656-3697 | the loop stops at the first working attempt, dials at most `max_attempts` times, sleeps the specified backoffs, and marks the connection dead after each failure |
| `Compound.SplitCompound` | src/client/connection.rs:4430-4475 | the loop computes the specification for every byte string, reading nothing outside it |
| `Compound.SplitSpecification` | src/client/connection.rs:4430-4475 | splitting succeeds if and only if the chain of NextCommand fields is well formed; the pieces are its stretches and concatenate to the input |
| `Compound.BuildCompound` | src/client/connection.rs:2716-2755 | for every list of packed sub-requests whose padded lengths fit their link fields and whose last has no link: splitting the frame gives one piece for each sub-request in order, which has that request's bytes everywhere but in the link field, zeros up to a multiple of 8, and its own length as the link; the last travels unchanged; no operations is an error |
| `Compound.CompoundRoundTrip` | src/client/connection.rs:2716-2755 | splitting a built frame returns its sub-requests if and only if every linked length fits 32 bits and the last NextCommand is zero |
| `Compound.BuiltFrameCarriesEverySubRequest` | src/client/connection.rs:2716-2755 | the same for the specification of the builder, piece by piece |
| `Compound.RefusalsAreExact` | src/client/connection.rs:4430-4475 | every refusal names the first place the chain of links leads to where something is wrong, and what is wrong there |
| `Copy.BuildBatch` | src/client/copy.rs:606-631 | a batch covers exactly min(remaining, max_data, max_chunks * max_chunk) bytes in contiguous chunks within the limits |
| `Copy.Sanitized` | src/client/copy.rs:178-185 | the result always allows progress, and usable limits are left alone |
| `Copy.SanitizedIsLeast` | src/client/copy.rs:178-185 | the least usable limits that are at least the advertised ones |
| `Copy.BatchMovesOneRange` | src/client/copy.rs:606-631 | a server copying any prefix of a batch chunk by chunk moves exactly that prefix of the range |
| `Copy.OverlayWritesOnlyThat` | src/client/copy.rs:606-631 | byte by byte: the range is written, the rest is as before, and a gap past the end is zeros |
| `Copy.CopyBatch` | src/client/copy.rs:267-327 | one request against a server that writes any prefix of the batch moves exactly that prefix |
| `Copy.ServerSideCopyRange` | src/client/copy.rs:347-404 | however the server answers, and even if the range reaches past the end of the source, the destination holds exactly the copied prefix and is otherwise unchanged; the copy is done if and only if the whole range was copied, and ends short if and only if the last answer used was an error, wrote nothing, or advertised the limits already in use; no earlier answer was one of those |
| `Copy.EveryAnswerCounts` | src/client/copy.rs:363-401 | against fixed limits each answer decreases (bytes left, limits still to learn) |
| `Copy.RunIsBounded` | src/client/copy.rs:363-401 | a running copy has seen at most one rejection and moved a byte with every other answer |
| `Copy.CopyTerminates` | src/client/copy.rs:363-401 | against fixed limits the copy is over after at most `length` + 1 answers |
| `Copy.SmoothRunsFinish` | src/client/copy.rs:363-401 | answers without an error, an empty write or a repeated rejection never end a copy short: it goes on, or the whole range is copied |
| `Copy.CopySucceeds` | src/client/copy.rs:347-404 | against a server that rejects at most once, with limits that differ from the first ones, and otherwise always writes something, `length` + 1 answers copy the whole range |
| `Copy.RejectionsGoOnWhileLimitsChange` | src/client/copy.rs:363-401 | a run of rejections continues if and only if no two in a row advertise the same limits |
| `Names.CharRoundTrip` | src/name.rs:108-143 | a character survives the trip if and only if the scheme does not own it, and its wire form is legal |
| `Names.TheTableIsInOrder` | src/name.rs:108-143 | exactly the characters SMB2 refuses are mapped, in the order of their codes, onto U+F001 to U+F027, and a trailing space and period onto the next two |
| `Names.MappedIsDecodable` | src/name.rs:205-208 | the fast path's test is exact |
| `Names.EncodeName` | src/name.rs:159-177 | fast path and general loop compute the same encoding |
| `Names.DecodeName` | src/name.rs:192-201 | fast path and general loop compute the same decoding |
| `Names.NameRoundTrip` | src/name.rs:159-201 | a name round-trips if and only if it holds no code point of the scheme, and every encoding is one SMB2 accepts |
| `Names.EncodePath` | src/name.rs:221-235 | the loop maps and joins every component |
| `Names.DecodePath` | src/name.rs:247-256 | the loop maps and joins every component |
| `Names.PathRoundTrip` | src/name.rs:221-256 | a path round-trips if and only if it has no leading slash and no code point of the scheme |
| `Names.WireNameRoundTrip` | src/name.rs:159-201 | a wire name comes back from decoding and encoding if and only if SMB2 accepts it and the two trailing marks stand nowhere but at its end |
| `Names.WirePathRoundTrip` | src/name.rs:221-256 | a wire path does if and only if it holds no slash, starts with no separator, and each component is relative as it stands, or such a name and not the mapped form of a relative one |
| `Names.LocalPathPointwise` | src/name.rs:247-256 | decoding a path works character by character |
| `Names.MarkedPeriodTurnsIntoParent` | src/name.rs:221-256 | a legal wire name that as a path decodes to the parent directory and goes back out as that |
| `Names.WirePathIsInjective` | src/fuzzing.rs:201-255 | no two such paths share a wire form |
| `Names.WirePathIsSafe` | src/fuzzing.rs:201-255 | every wire component is legal, or one of the two relative names |
| `Der.ParseTlv` | src/auth/der.rs:66-81 | on arbitrary bytes a parsed value lies inside the input, ends where the TLV ends, and consumes something |
| `Der.TlvIsFoundExactly` | src/auth/der.rs:66-81 | on arbitrary bytes the parse succeeds if and only if there is a tag, the length reads and that much follows, and the value has that length |
| `Der.LengthRoundTrip` | src/auth/der.rs:15-63 | a written length reads back modulo 65536, consuming exactly its own bytes |
| `Der.LengthIsShortest` | src/auth/der.rs:15-23 | a length is written in the fewest bytes: one below 128, two below 256, three above |
| `Der.LengthsAreReadExactly` | src/auth/der.rs:36-63 | on arbitrary bytes: a short length is its first byte, a long one the big-endian number in the bytes announced, and every other beginning is the error it should be |
| `Der.TlvRoundTrip` | src/auth/der.rs:26-81 | below 65536 bytes a value comes back whole and what follows is left alone |
| `Der.TlvRoundTripsExactlyWhenItFits` | src/auth/der.rs:26-81 | a TLV round-trips if and only if its content is below 65536 bytes |
| `Spnego.ParseField` | src/auth/spnego.rs:255-316 | one round of the field loop moves forward inside the body and keeps the meaning of the rest |
| `Spnego.ParseFields` | src/auth/spnego.rs:243-374 | both field loops terminate on every input and compute the specification |
| `Spnego.ParseNegTokenResp` | src/auth/spnego.rs:195-240 | the dispatch terminates on arbitrary bytes and computes the specification, whose values are fixed by `WholeRespRoundTrip` and whose errors by the four rows after it |
| `Spnego.RespRoundTrip` | src/auth/spnego.rs:171-181 | a token comes back from all layers if and only if it is at most 65523 bytes |
| `Spnego.WholeRespRoundTrip` | src/auth/spnego.rs:195-316 | whichever of state, mechanism, token and checksum a response has, all of them come back through all layers, each in its own field: 0 is accept-completed, 1 accept-incomplete, 2 reject; any other state is the error that names it |
| `Spnego.RespInsideApplication` | src/auth/spnego.rs:195-240 | the same response inside an application tag parses to the same |
| `Spnego.OtherTokensAreRefused` | src/auth/spnego.rs:195-240 | an empty token, or one that opens with neither the response's nor the application's tag, is the error that names it |
| `Spnego.UnknownFieldIsSkipped` | src/auth/spnego.rs:255-316 | a field with an unknown tag changes nothing |
| `Spnego.BadRespFieldsAreRefused` | src/auth/spnego.rs:255-316 | a response field whose content has the wrong type, or an empty state, is the error that names it |
| `Spnego.BadInitFieldsAreHandled` | src/auth/spnego.rs:319-374 | an initial token must list its mechanisms in a SEQUENCE; a mechanism token of another type is passed over |
| `Spnego.InitRoundTrip` | src/auth/spnego.rs:129-156 | the first mechanism and the token come back out of all layers |
| `Spnego.InitRoundTripFirstOid` | src/auth/spnego.rs:129-156 | with a well-formed first OID, exactly that OID and the token come back |
| `AvPairs.ParseAvPairs` | src/auth/ntlm.rs:454-475 | the offset loop computes the pairs, stopping at the terminator, the end, or a pair that does not fit |
| `AvPairs.PairsSpellTheInfo` | src/auth/ntlm.rs:454-475 | for every byte string the pairs, written out again, are the bytes read, and the parse stopped at the terminator or where no pair fits |
| `AvPairs.FindAvPair` | src/auth/ntlm.rs:429-450 | for every id but the terminator's the search equals the first match among the parsed pairs |
| `AvPairs.BuildAuthTargetInfo` | src/auth/ntlm.rs:481-524 | the loop encodes the kept pairs, the new flags and the terminator |
| `AvPairs.RewriteParsesBack` | src/auth/ntlm.rs:481-524 | for every byte string, parsing the rewrite gives the old pairs in order without the terminator (and without flags when a timestamp is there), then the one flags pair, then the terminator |
| `AvPairs.KeptIsFiltered` | src/auth/ntlm.rs:481-524 | the kept pairs are the old ones without the terminator and, if a timestamp is there, without flags |
| `AvPairs.NewFlagsSetOneBit` | src/auth/ntlm.rs:481-524 | the new flags are the four bytes of the first old flags with the second bit of the first byte set and every other bit as it was; without old flags of four bytes, that bit alone |
| `AvPairs.MicBitIsSet` | src/auth/ntlm.rs:481-524 | the flags read back from the rewritten info are the first old flags with the MIC bit set |
| `AvPairs.RewritingIsIdempotent` | src/auth/ntlm.rs:481-524 | for every byte string, rewriting the rewrite gives the same bytes |
| `Authenticate.BuildAuthenticateMessage` | src/auth/ntlm.rs:627-711 | the appended buffer is header and payloads of the specification |
| `Authenticate.MessageLayout` | src/auth/ntlm.rs:627-711 | six descriptors in place, payloads end to end after the header and filling the message |
| `Authenticate.FixedFields` | src/auth/ntlm.rs:627-711 | signature, type, flags, version and an empty MIC field at their offsets |
| `Authenticate.FieldsReadBack` | src/auth/ntlm.rs:627-711 | following all six descriptors returns the payloads if and only if each is below 65536 bytes |
| `Authenticate.MicDisturbsNothing` | src/auth/ntlm.rs:269-288 | the MIC patch fills bytes 72..88 and changes no descriptor and no payload |
| `Rc4.ScheduleIsPermutation` | src/auth/ntlm.rs:580-597 | the state is a permutation of 0..255 after every round of key scheduling |
| `Rc4.GeneratorIsPermutation` | src/auth/ntlm.rs:580-597 | and after every byte of output |
| `Rc4.TextbookSchedule` | src/auth/ntlm.rs:580-589 | from the identity, each round swaps one entry with the one that it and the key byte lead to, and no other |
| `Rc4.TextbookGenerator` | src/auth/ntlm.rs:590-597 | before each output byte the first index counts on, the second adds the entry met, the two entries are swapped, and their sum picks the key byte |
| `Rc4.KeySchedule` | src/auth/ntlm.rs:580-597 | the in-place loop computes the scheduled permutation |
| `Rc4.Mask` | src/auth/ntlm.rs:580-597 | the in-place output loop masks each byte with a key byte that does not depend on the data |
| `Rc4.Rc4Encrypt` | src/auth/ntlm.rs:580-597 | both loops together compute the cipher |
| `Rc4.Rc4IsAnInvolution` | src/auth/ntlm.rs:580-597 | encrypting twice gives the data back, for every nonempty key and every length |
| `Dfs.DfsResolver.constructor` | src/client/dfs.rs:229-235 | a new resolver has an empty, well-filed cache |
| `Dfs.DfsResolver.ResolveFromCache` | src/client/dfs.rs:304-346 | in whatever order the map is walked, the answer is that of the longest unexpired covering prefix, and none if there is none |
| `Dfs.ReadReferral` | src/client/dfs.rs:349-391 | prefix, targets in order and expiry of a response, or nothing if no entry names a usable target |
| `Dfs.NormalizeTurnsSlashes` | src/client/dfs.rs:305-305 | a normalised path is the lower-cased one with every slash turned and nothing else |
| `Dfs.PrefixIsUnc` | src/client/dfs.rs:349-391 | a prefix that starts with one separator is filed with two, any other as it is |
| `Dfs.TargetsKeepTheirOrder` | src/client/dfs.rs:349-391 | the targets of two lists of entries are those of the first, then those of the second |
| `Dfs.DfsResolver.CacheReferral` | src/client/dfs.rs:349-391 | the cache learns exactly that, filed under its own prefix |
| `Dfs.DfsResolver.Resolve` | src/client/dfs.rs:267-299 | a hit changes no referral and asks nobody; a miss asks once, learns, and answers from the new cache; all error cases |
| `Dfs.BestIsUnique` | src/client/dfs.rs:304-346 | two longest covering prefixes are the same prefix |
| `Dfs.LookupIsDetermined` | src/client/dfs.rs:304-346 | a lookup has one correct answer |
| `Dfs.AnswerKeepsThePath` | src/client/dfs.rs:320-343 | one answer for each target in order; the path below the prefix is kept but for separators, and joined to the target's own path with one backslash exactly when both are there |
| `Dfs.JustLearnedHits` | src/client/dfs.rs:349-391 | a learned referral that covers a path hits until it expires, and answers itself unless a longer cached prefix does |
| `Dfs.LearnedExpires` | src/client/dfs.rs:304-391 | once the first entry's time to live has passed, at least one second, a learned referral covers nothing |
| `Dfs.LearningIsLocal` | src/client/dfs.rs:349-391 | learning touches one prefix only |
| `Dfs.ParsedTargetSpellsTheAddress` | src/client/dfs.rs:398-414 | what was parsed spells the address, server and share nonempty and free of separators |
| `Dfs.EveryUncAddressParses` | src/client/dfs.rs:398-414 | every address of a server and a share parses, with or without a path |
| `Text.TrimStartTakesOnlyThat` | src/client/dfs.rs:399-399 | trimming removes exactly the leading separators |

## Left out

- tokio scheduling, sockets, task aborts, logging, metrics other than the routing counters: runtime plumbing. No claim that "not disconnected" means a live receiver.
- Signing, encryption, HMAC, MD4, MD5, LZ4 and randomness: uninterpreted. A frame carries its signature verdict, and the NTLM payloads and the MIC are given bytes.
- src/client/durable.rs, most of src/client/mod.rs, src/error.rs: single branches and tables that would only add easy members.
- `reserve_credits`: its recheck loop and deadline are abstracted to "take at once", "park" and "wake when the permits are there"; semaphore fairness and partially assembled permits are not modelled.
- The long-poll variant of the wait, oplock acknowledgements, DFS and oplock tree bookkeeping, round-trip estimation.
- Wrap-around of the 64-bit id counter and of 64-bit file offsets.
- Between a routing miss and its look at the ring anything may happen; that the lookup missed is not remembered, so the model allows more runs than the source has.
- ConnectionRouting.TeardownTellsEveryWaiter: says a drained sender is owed its error and nothing else, not that the draining task is scheduled.
- Connection.Inner.constructor: the session, crypto and transport fields are not modelled.
- Connection.Inner.InstallTransport: crypto, session, parameters, round-trip estimate and tree registries are not modelled; the method runs as one piece, while the events of `ConnectionSteps` interleave its parts with every caller.
- Connection.Inner.PrepareSubFrame: header parsing, the signature check itself and the lookup of an oplock's tree are inputs; decompression and decryption come before it.
- Connection.Inner.DropGuard: both lock sections in a row; the events of `ConnectionSteps` let others in between.
- Copy.ServerSideCopyRange: the two files are distinct; a server that claims to have written bytes it did not have, or other bytes, is out of scope.
- Revival.InvStep: the reconnect policy is fixed for a run, `install_transport` is one step, and the checks made right after taking the lock are one step. The wall-clock budget may fire at any time after it passed, not exactly then; the attempt count a budget timeout reports is not modelled.
- Dfs.DfsResolver.ResolveFromCache: lower-casing is a parameter, and the clock is read once for each lookup. Matching by path component is not claimed, since the source matches by character.
- Der.TlvRoundTrip: contents of 65536 bytes and more have no encoding; `Der.TlvRoundTripsExactlyWhenItFits` says so.
- Spnego.WholeRespRoundTrip: stated for responses whose body is below 65532 bytes; `Spnego.RespRoundTrip` has the exact bound for a token alone.
- Spnego.InitRoundTrip: stated for messages whose nested lengths fit two bytes.
- AvPairs.FindAvPair: says nothing about a search for the terminator's own id, which no caller makes.
- Authenticate.BuildAuthenticateMessage: names arrive as their UTF-16 bytes.
- Rc4.Rc4Encrypt: the empty key is excluded, because the source divides by its length.
- Compound.BuildCompound: sub-requests are given as packed bytes of at least one header; signing after the link fields are patched is not modelled.
- Message codecs, examples and fuzz targets other than the name mapping.
