# Trading gateway: verified models

A Dafny model of the stateful cores of the trading gateway, with proofs about every
input, every run or every interleaving. `dafny verify dfyconfig.toml` checks it all.

| file | models |
|---|---|
| `ClaimSet.dfy` | the bounded claim-once set of OANDA transaction ids |
| `EventProtocol.dfy` | the exactly-once protocol between the REST order path and the transaction stream, with its stream generations and cancellation tokens |
| `EventChannels.dfy` | which strategy channel each frame of a publication reaches while connects repoint it |
| `EventCalls.dfy` | what overlapping connects, reconnects and disconnects spawn, stop and reuse |
| `PriceTokens.dfy` | cancel-and-replace of the OANDA price stream, whose steps can overlap |
| `LineFraming.dfy` | framing of the chunked price and transaction streams |
| `CandlePoll.dfy` | the candle poll's watermarks and its retry loop |
| `PositionIds.dfy`, `FillFrames.dfy` | OANDA position ids, and the frames of one fill as built by the two paths |
| `MockBroker.dfy` | the mock broker's orders, positions and trades, and their atomic sections |
| `MockLedger.dfy`, `MockOrders.dfy`, `MockPositions.dfy` | every interleaving of its fill tasks, cancels, modifications and closes: conservation, the life of an order, positions against their history |
| `SnapshotDelta.dfy` | the Saxo snapshot store and its recursive JSON merge |
| `CircuitBreaker.dfy` | the adapter circuit breaker against its failure history |
| `Sequences.dfy` | the option type and facts about sequences that the others share |

The concurrent parts are transition systems. `Apply(state, action)` performs one atomic
action (one lock section, one send, one token check) and leaves the state alone where
the action is not enabled, so a theorem about `Run` of an arbitrary sequence of actions
is a theorem about every interleaving. The parts that update state in place are classes
whose methods are tied to the functions the theorems are about.

Clock readings, prices, broker responses, the decoding of a line and the reading of
decimals and times from text are parameters or arbitrary functions. Quantities and prices
are exact reals; fresh UUIDs are fresh numbers.

Where the code and what is said of it differ, the model follows the code:

- `MockBroker.RejectedModifyMovesPrice`: a modification rejected for its quantity has already
  moved the order's prices. `MockBroker.RejectedModifyExact` says exactly when it is harmless.
- `MockOrders.ResizeBelowOverfills`: an order resized below what its fill task captured at
  submission fills more than its quantity. `MockOrders.WithinQuantityExact` says exactly when.
- `MockPositions.EmptyTrancheOpensEmptyPosition` and `MockPositions.ShrunkOrderKillsTask`: an
  order resized to its first tranche or below can leave a position of quantity zero, or divide
  by zero and kill its task. `MockPositions.StaysSoundExact` and `FirstFailureExact` say exactly
  when; `MockPositions.CarefulPositions` names a rule that avoids it, and never resizing below
  the submitted quantity keeps to it (`NotBelowSubmittedIsCareful`). After a panic the model
  keeps what was written by then and ends the task; conservation holds even so.
- `PriceTokens.OverlapLeavesTwo`: overlapping spawns can leave two live price streams.
  `PriceTokens.AtMostOneLiveExact` says exactly when.
- `EventProtocol.EvictionPublishesTwice`: a transaction seen again after `cap` further claims is
  published again, which is why `AtMostOnce` speaks of sightings that are close enough;
  `ClaimDecidesExact` says exactly which sightings win.
- `EventChannels.ReconnectSplitsFill`: a reconnect in the middle of a streamed fill splits its
  frames over the old and the new channel. `EventChannels.OneChannelExact` says exactly when.
- `FillFrames.OrderFramesAgreeExact`: the two paths do not report every fill alike; it says
  exactly which they do.
- `SnapshotDelta.CoalescingExact`: merging deltas ahead of time is not always the same as
  applying them in turn; it says exactly when it is.

## Model

| member | source | states |
|---|---|---|
| `ClaimSet.PublishedTransactions.TryClaimAll` | crates/oanda/src/dedupe.rs:61-78 | succeeds exactly when no id is among the last `capacity` claimed; then logs them, otherwise changes nothing; the set stays equal to the queue and the queue to the window over the log of all claims |
| `ClaimSet.PublishedTransactions.TryClaim` | crates/oanda/src/dedupe.rs:52-54 | the same for one id |
| `ClaimSet.PublishedTransactions.Insert` | crates/oanda/src/dedupe.rs:68-75 | inserting and evicting slides the window by one |
| `ClaimSet.PublishedTransactions.constructor` | crates/oanda/src/dedupe.rs:42-47 | starts valid with an empty log |
| `ClaimSet.ExtendSound` | crates/oanda/src/dedupe.rs:56-78 | a successful claim logs only its own ids and every one of them, and keeps equal entries more than `capacity` apart, so the queue has no duplicates |
| `ClaimSet.ClaimWithinCapacity` | crates/oanda/src/dedupe.rs:56-78 | a claim of at most `capacity` distinct ids logs each once, in order, and leaves all of them claimed |
| `ClaimSet.ReclaimExact` | crates/oanda/src/dedupe.rs:70-74 | an id is claimable again exactly when `capacity` entries were logged after its latest |
| `EventProtocol.RunInv` | crates/oanda/src/streaming.rs:337-361 | the protocol invariant (tokens, log ownership, per-publisher traces, one line at a time) holds in every reachable state |
| `EventProtocol.AtMostOnce` | crates/oanda/src/adapter.rs:1333-1376 | in every interleaving, all frames about a transaction come from one publisher and none is repeated, if its sightings are within `capacity` log entries |
| `EventProtocol.ClaimDecidesExact` | crates/oanda/src/streaming.rs:1052-1070 | in every run a sighting wins exactly when none of its ids is among the last `capacity` claimed before it |
| `EventProtocol.PairNeverSplits` | crates/oanda/src/adapter.rs:1322-1356 | a synchronous fill and its cancel are published by one path: if REST owns them nobody else publishes either, if anybody else won either REST publishes neither, and REST publishes the cancel only of a partial fill |
| `EventProtocol.ExactlyOnce` | crates/oanda/src/streaming.rs:1199-1227 | once the stream has dealt with a fill's line, all who saw the fill are finished and every send found a receiver, exactly one publication of it exists: order, trade, financing if and only if its owner's response or line settles carry, and account snapshot if and only if its owner fetched one |
| `EventProtocol.PublisherSends` | crates/oanda/src/adapter.rs:276-310 | in every run, what a finished publisher sent, in order, is all that its response or line calls for, frame by frame, for every kind of sighting |
| `EventProtocol.CancelOnceOrSuppressed` | crates/oanda/src/adapter.rs:1322-1376 | once the stream has dealt with a cancel's line and all who saw it are finished, it was published once, or not at all if its owner reported a complete fill |
| `EventProtocol.RestPublishesUnseen` | crates/oanda/src/adapter.rs:1333-1350 | if nobody else saw either id, the REST path that found the channel connected publishes the fill once, with every frame its response calls for |
| `EventProtocol.EvictionPublishesTwice` | crates/oanda/src/dedupe.rs:68-75 | a run in which a cancel, delivered again after its claim was evicted, is published twice |
| `EventProtocol.OneLiveToken` | crates/oanda/src/streaming.rs:263-309 | over any interleaving of connects, reconnects and disconnects, at most one transaction token and one poll token is uncancelled |
| `EventProtocol.StoppedGenerationDrains` | crates/oanda/src/streaming.rs:1173-1186 | a cancelled generation sends at most the rest of the one line it was already processing |
| `EventProtocol.SilentAfterDisconnect` | crates/oanda/src/streaming.rs:410-424 | after a completed disconnect no generation, present or future, takes another line |
| `EventProtocol.StreamNeverDeclines` | crates/oanda/src/streaming.rs:342-353 | a stream line never finds the channel missing, because it is stored before any generation is spawned and never removed |
| `EventChannels.RunChannels` | crates/oanda/src/streaming.rs:342-343 | in every reachable state the slot holds the newest channel, every publisher has found one there, and everything was sent on a channel there was |
| `EventChannels.SendExact` | crates/oanda/src/streaming.rs:1082-1090 | in every run a job that can send sends its next frame only, to the channel kept for it or else the one in the slot, delivered if and only if a receiver is there |
| `EventChannels.OneChannelExact` | crates/oanda/src/streaming.rs:1082-1090 | in every run, a publication of several frames reaches a single channel if and only if no connect repointed the slot between the read for its first frame and the read for its last |
| `EventChannels.ReconnectSplitsFill` | crates/oanda/src/streaming.rs:342-343 | a run in which a reconnect splits a streamed fill over two channels |
| `EventChannels.RestFillOnOneChannel` | crates/oanda/src/adapter.rs:203-307 | in every run the order, trade and financing frames of a fill published by REST reach one channel, wherever connects fall |
| `EventCalls.CallsTallied` | crates/oanda/src/streaming.rs:337-361 | in every run, whatever overlaps: as many channels as connects that wrote the slot, as many candle polls as connects that wanted candles and came to spawn one, as many transaction streams as completed connects |
| `EventCalls.ConnectAlone` | crates/oanda/src/streaming.rs:337-361 | an undisturbed connect, from every reachable state: a new channel, a live stream, a live poll exactly if candles are wanted, everything before cancelled |
| `EventCalls.DisconnectAlone` | crates/oanda/src/streaming.rs:410-424 | an undisturbed disconnect cancels every poll, every stream and the parent |
| `EventCalls.DisconnectStops` | crates/oanda/src/streaming.rs:415-418 | what a step of a disconnect cancels stays cancelled in every continuation, however calls overlap |
| `EventCalls.ReconnectReuses` | crates/oanda/src/streaming.rs:426-432 | a reconnect is a connect with the wish for candles of whichever call stored its configuration last |
| `EventCalls.NothingToReconnect` | crates/oanda/src/streaming.rs:426-430 | before any configuration is stored a reconnect does nothing |
| `EventCalls.CheckDeclinesExact` | crates/oanda/src/streaming.rs:1052-1070 | in every run a sighting gives up at the slot if and only if it is a REST call and no connect has ever written it; else it goes on to claim, or to send if it has nothing to claim |
| `EventCalls.TakesLineExact` | crates/oanda/src/streaming.rs:1173-1189 | in every run a generation takes the next line if and only if it is the newest, neither it nor the parent is cancelled, and it is done with all lines before |
| `PriceTokens.LiveExact` | crates/oanda/src/streaming.rs:215-253 | in every run, once no displaced token is left to cancel, a price task is live exactly when it read back the token stored last and nothing was disconnected |
| `PriceTokens.AtMostOneLiveExact` | crates/oanda/src/streaming.rs:215-253 | in every run, once no displaced token is left to cancel, at most one price task is live if and only if a disconnect reached the stored token or the parent, or no two tasks read back the token stored last |
| `PriceTokens.SpawnExact` | crates/oanda/src/streaming.rs:215-253 | what each step of a spawn does in every run; it starts one task if and only if it finds instruments, and that task is live if and only if no disconnect has reached the stored token or the parent |
| `PriceTokens.DisconnectStopsAll` | crates/oanda/src/streaming.rs:415-418 | cancelling the stored token stops the task that holds it, and cancelling the parent stops all for good |
| `PriceTokens.NonOverlappingSpawns` | crates/oanda/src/streaming.rs:215-253 | in every run whose spawns do not overlap, with disconnects anywhere, at most one price task is live in every state |
| `PriceTokens.OverlapLeavesTwo` | crates/oanda/src/streaming.rs:216-230 | two overlapping spawns can leave two live price tasks |
| `LineFraming.SplitSound` | crates/oanda/src/streaming.rs:1183-1189 | cutting into lines loses nothing and cuts at every newline and nowhere else |
| `LineFraming.LineExact` | crates/oanda/src/streaming.rs:567 | a line is what ends in byte 10 and holds no other; a remainder holds none |
| `LineFraming.SplitUnique` | crates/oanda/src/streaming.rs:1183-1189 | no other cut into lines and an unterminated rest exists |
| `LineFraming.StreamReader.FindNewline` | crates/oanda/src/streaming.rs:567 | finds the first newline |
| `LineFraming.StreamReader.TakeLine` | crates/oanda/src/streaming.rs:568 | drains exactly the first line off the buffer |
| `LineFraming.StreamReader.ProcessPriceBuffer` | crates/oanda/src/streaming.rs:562-604 | sends for every complete line in order and keeps exactly the unterminated tail |
| `LineFraming.StreamReader.ProcessTransactionBuffer` | crates/oanda/src/streaming.rs:1176-1239 | sends for the lines ahead of the first check that reads cancelled and keeps the others whole |
| `LineFraming.StreamReader.ReadPrices` | crates/oanda/src/streaming.rs:528-547 | however the bytes were cut, sends what the whole byte string calls for and keeps its tail |
| `LineFraming.StreamReader.ReadTransactions` | crates/oanda/src/streaming.rs:1125-1155 | the same under cancellation: exactly the whole string's lines ahead of the first cancelled check |
| `LineFraming.ChunkInvariant` | crates/oanda/src/streaming.rs:1128-1136 | messages and leftover depend on the bytes and not on the chunks |
| `CandlePoll.CandleFeed.Emit` | crates/oanda/src/streaming.rs:782-788 | emits the bars in order and leaves the watermark at the last |
| `CandlePoll.CandleFeed.PollSymbol` | crates/oanda/src/streaming.rs:742-788 | a failed or disconnected poll changes nothing; any other emits every closed, convertible candle past the watermark once and in order, or with no watermark exactly the last one, and leaves the watermark at the last emitted |
| `CandlePoll.PollOneExact` | crates/oanda/src/streaming.rs:762-788 | the same of the poll as a function, candle by candle of the response |
| `CandlePoll.CandleFeed.PollAndEmit` | crates/oanda/src/streaming.rs:731-792 | a whole cycle, healthy exactly when no request failed |
| `CandlePoll.NothingNew` | crates/oanda/src/streaming.rs:742-780 | failed, disconnected and empty polls leave watermarks and emissions unchanged |
| `CandlePoll.FeedProjects` | crates/oanda/src/streaming.rs:741-789 | each symbol's emissions and watermark depend on its own polls alone, over whole runs |
| `CandlePoll.EmissionsIncrease` | crates/oanda/src/streaming.rs:715-792 | over any run of polls whose closed candles are oldest first, the emitted times of a symbol strictly increase |
| `CandlePoll.EmissionsAreClosedCandles` | crates/oanda/src/streaming.rs:640-712 | over any run of polls everything emitted is a closed, convertible candle some poll of its symbol delivered |
| `CandlePoll.EmissionsGapFree` | crates/oanda/src/streaming.rs:715-792 | if the closed, convertible candles of every successful response are a run of the symbol's closed candles that misses none after the watermark, the emissions leave none out |
| `CandlePoll.GapExact` | crates/oanda/src/streaming.rs:770-776 | a response whose closed, convertible candles are a..c leaves a gap exactly when there are some and they do not reach back to the candle after the watermark |
| `CandlePoll.RunCycle` | crates/oanda/src/streaming.rs:841-856 | a turn of the loop: idle without instruments, else every symbol is polled, and healthy exactly when no request failed |
| `CandlePoll.Retry` | crates/oanda/src/streaming.rs:857-872 | keeps the delay at min(2^k, 60) seconds for a streak of k |
| `CandlePoll.RunCandlePoll` | crates/oanda/src/streaming.rs:815-872 | over whatever the polls return: stops by itself exactly at the eighth consecutive unhealthy cycle, waits for the minute after a healthy one and min(2^k, 60) seconds after k failures, and has emitted exactly what all polls made so far call for |
| `CandlePoll.StreakCounts` | crates/oanda/src/streaming.rs:857-862 | the failure count is the number of unhealthy cycles since the last healthy one |
| `CandlePoll.WaitExact` | crates/oanda/src/streaming.rs:819-828 | the wait after each number of failures: the minute, then 2, 4, 8, 16, 32 and 60 seconds |
| `CandlePoll.IdleIgnored` | crates/oanda/src/streaming.rs:841-844 | cycles with nothing subscribed do not count |
| `CandlePoll.HealthyForgets` | crates/oanda/src/streaming.rs:857-859 | after a healthy cycle the loop behaves as from the start |
| `CandlePoll.FatalStreakSleeps182` | crates/oanda/src/streaming.rs:82-86 | whenever the loop gives up after eight unhealthy cycles in a row, the waits it returned for them ask for 182 seconds of backoff |
| `PositionIds.SideIdRoundTrips` | crates/oanda/src/adapter.rs:2003-2015 | a side id resolves to its instrument and side, for every instrument |
| `PositionIds.ParseExact` | crates/oanda/src/adapter.rs:2003-2015 | what every id resolves to: a trade exactly when decimal, else the side its ending names, else the whole as an instrument |
| `PositionIds.NamedExact` | crates/oanda/src/adapter.rs:2040-2049 | which trade a fill names: the one opened, else the one reduced, else the only one closed; none if its id is missing |
| `PositionIds.FillIdResolves` | crates/oanda/src/adapter.rs:2030-2064 | what the id of any fill resolves to: a named trade exactly when its id is decimal, otherwise the instrument and the side acted on |
| `PositionIds.SideIdNamesChangedSide` | crates/oanda/src/adapter.rs:2017-2064 | for a fill executed against any book: a side-level id names a side the fill changed, the only one unless a new trade was opened past those taken down, and nothing is left there exactly when all of it was closed |
| `PositionIds.TradeIdNamesTouchedTrade` | crates/oanda/src/adapter.rs:2017-2064 | a trade-level id names the trade opened, else the one reduced, else the only one closed, which is gone |
| `PositionIds.ListedIdFetchesItself` | crates/oanda/src/adapter.rs:1728-1768 | a listed position is fetched back, and not its opposite, by its own id |
| `PositionIds.ListedExact` | crates/oanda/src/adapter.rs:678-745 | a side is listed exactly when its units are not "0", once, long first, under the instrument and side, with the size of its units |
| `PositionIds.FetchExact` | crates/oanda/src/adapter.rs:1748-1768 | an id with a side fetches that side or nothing; a bare instrument its long side, else its short side, else nothing |
| `PositionIds.ReduceTradeExact` | crates/oanda/src/adapter.rs:932-969 | a reduce-only order is refused for a trade of another symbol, else for one of its own side, else closes it, in full exactly when it asks for no less than is open |
| `PositionIds.OpenedTradeIsReducible` | crates/oanda/src/adapter.rs:932-969 | the id published for an opening fill makes a reduce-only order for the same symbol and of the other side, and no other, close that trade, by its quantity and never by more than is open |
| `FillFrames.TradeFramesAgreeExact` | crates/oanda/src/streaming.rs:1515-1604 | the trade frames of the two paths are equal exactly when instrument, sign, size and time of the fill fit the request |
| `FillFrames.RestReports` | crates/oanda/src/adapter.rs:209-300 | the REST frames in terms of the fill's own fields: order id, price, commission, time and signed carry as the wire says, the rest as the request says, filled by no more than asked for |
| `FillFrames.StreamReports` | crates/oanda/src/streaming.rs:1515-1630 | the stream frames likewise, with symbol, side and quantity from the line |
| `FillFrames.ReasonExact` | crates/oanda/src/streaming.rs:1465-1476 | which fill reasons stand for which order type and time in force |
| `FillFrames.ConsistentFillAgrees` | crates/oanda/src/adapter.rs:209-295 | for a consistent fill the trade and financing frames agree, and the order frames do in order id, symbol, side, filled quantity, price and position id; client id, type, time in force, prices, quantity, remainder and status are the request's on one path only |
| `FillFrames.OrderFramesAgreeExact` | crates/oanda/src/streaming.rs:1465-1578 | the order frames are equal exactly when the fill is complete, on the instrument asked for, and the request has no prices and the client id, type and time in force that the line carries or implies |
| `FillFrames.ReportedAlikeOnlyIf` | crates/oanda/src/streaming.rs:1465-1476 | so orders with prices, good for the day or immediate-or-cancel are never reported alike by the two paths |
| `FillFrames.RestOrderAddsUp` | crates/oanda/src/adapter.rs:1312-1322 | the REST order frame accounts for the whole request and is partial exactly when less was filled |
| `MockBroker.MockState.UpsertPosition` | crates/mock/src/adapter.rs:54-107 | nets one fill, branch by branch, into the book |
| `MockBroker.MockState.ApplyFill` | crates/mock/src/adapter.rs:371-431 | one tranche: refuses a missing or cancelled order without a trace, otherwise updates order, trades and position |
| `MockBroker.SubmittedOrderFills` | crates/mock/src/adapter.rs:311-341 | an order left alone after submission ends filled by exactly what was submitted, at the average of its tranches, of which there are two exactly when it splits |
| `MockBroker.MockState.ModifyOrder` | crates/mock/src/adapter.rs:634-675 | who may be resized and what is written on each error path |
| `MockBroker.MockState.CancelOrder` | crates/mock/src/adapter.rs:677-711 | succeeds exactly on an order there is that is not filled, and leaves it cancelled; otherwise changes nothing |
| `MockBroker.MockState.ClosePosition` | crates/mock/src/adapter.rs:771-872 | closes the position the id names by at most its quantity and records a filled market order of the other side and its trade |
| `MockBroker.MockState.FindPosition` | crates/mock/src/adapter.rs:778-784 | finds the symbol an id was minted for, or shows there is none |
| `MockBroker.UpsertNets` | crates/mock/src/adapter.rs:54-107 | every branch of netting is one signed addition to its own symbol and to no other, for any quantities |
| `MockBroker.TakeOffNets` | crates/mock/src/adapter.rs:786-794 | so is closing |
| `MockBroker.UpsertPrices` | crates/mock/src/adapter.rs:62-95 | a fill on the side held adds its cost to average times quantity; an opening or a flip is at its price; a reduction keeps the average; each marks the current price |
| `MockBroker.PositionIdsDistinct` | crates/mock/src/adapter.rs:87-91 | a position id names one symbol |
| `MockBroker.CloseNeverFlips` | crates/mock/src/adapter.rs:786-800 | closing keeps side and average, leaves a positive rest or nothing, and removes exactly on a full close |
| `MockBroker.CancelExact` | crates/mock/src/adapter.rs:684-693 | a cancel changes the status and nothing else of any order not filled, and nothing of a filled one |
| `MockBroker.ModifyExact` | crates/mock/src/adapter.rs:644-668 | a modification is accepted exactly when the order is open and not made smaller than what is filled, and changes what was asked for and nothing else |
| `MockBroker.RejectedModifyExact` | crates/mock/src/adapter.rs:646-668 | a rejected modification changes nothing exactly when the order was not open or it asked for no new price |
| `MockBroker.RejectedModifyMovesPrice` | crates/mock/src/adapter.rs:646-668 | a modification rejected for its quantity that moves the limit price |
| `MockBroker.UpsertPositiveExact` | crates/mock/src/adapter.rs:54-107 | netting keeps a positive book positive and its task alive exactly when the fill leaves something on a side it adds to |
| `MockBroker.UpsertDiesExact` | crates/mock/src/adapter.rs:60-66 | netting panics exactly when the fill takes back all that is held on its own side |
| `MockBroker.PriceConditionExact` | crates/mock/src/adapter.rs:274-299 | the price condition of all order types in signed terms: no worse than the limit, not before the stop |
| `MockLedger.Conservation` | crates/mock/src/adapter.rs:371-431 | in every interleaving: position plus trades pushed but not applied, minus closes applied but not recorded, is the sum of recorded trades, whatever the quantities |
| `MockLedger.ConservationAtRest` | crates/mock/src/adapter.rs:776-854 | at rest the net position is the net traded quantity |
| `MockOrders.RunOk` | crates/mock/src/adapter.rs:311-346 | the invariant tying every order to its tranches holds in every reachable state |
| `MockOrders.LedgerAtRest` | crates/mock/src/adapter.rs:379-416 | in every run filled plus remaining is the quantity, the trades sum to filled, and average times filled is what they cost |
| `MockOrders.AtMostTwoTrades` | crates/mock/src/adapter.rs:311-341 | an order trades at most twice, first for the submitted tranche at a price that met its condition, and the second trade completes it |
| `MockOrders.SplitOrderCompletes` | crates/mock/src/adapter.rs:317-338 | a split order that began and was not cancelled ends with nothing remaining, however it was resized before |
| `MockOrders.CancelledFrozen` | crates/mock/src/adapter.rs:379-403 | a cancelled order's record and tranches never change again, in any continuation |
| `MockOrders.CancelSticks` | crates/mock/src/adapter.rs:677-711 | in every run a cancel of an order not filled cancels it for good: no continuation changes it or books another tranche |
| `MockOrders.StatusExact` | crates/mock/src/adapter.rs:396-402 | in every run the status of an order not cancelled says whether and how far it is filled |
| `MockOrders.BooksExact` | crates/mock/src/adapter.rs:274-309 | in every run a task whose turn it is books a tranche if and only if its order is not cancelled and, for the first, the price meets its limit and stop |
| `MockOrders.TradesBelong` | crates/mock/src/adapter.rs:406-417 | in every run each trade is on the symbol and side of an order there is, and those of a submitted order on its request's |
| `MockOrders.FirstTrancheExact` | crates/mock/src/adapter.rs:211-215 | the first tranche in terms of the ratio asked for and the quantity submitted |
| `MockOrders.WithinQuantityExact` | crates/mock/src/adapter.rs:659-668 | an order fills within its quantity exactly when it has not started, or its second tranche has brought it back to its quantity, or it was not resized below its first tranche |
| `MockOrders.ResizeBelowOverfills` | crates/mock/src/adapter.rs:514-522 | a run in which a resized order fills 10 of 4 |
| `MockOrders.AverageBetweenExact` | crates/mock/src/adapter.rs:386-393 | the average of a twice-filled order lies between its prices exactly when they are equal, or it was not resized below its first tranche, or it was resized to nothing |
| `MockOrders.AverageOfOne` | crates/mock/src/adapter.rs:806-835 | the average of a once-filled order, a close included, is its price |
| `MockPositions.PositionsFollowHistory` | crates/mock/src/adapter.rs:54-107 | in every run that nets only positive fills into a symbol, its position exists exactly when its history does not cancel out, is positive, has the side and size of the signed sum, the current price of the last fill, an average that times the quantity is the cost the history gives it, and that lies within the same-side prices since it was opened or flipped |
| `MockPositions.StaysSoundExact` | crates/mock/src/adapter.rs:54-107 | over any run, every position is positive and every task alive throughout if and only if every fill was safe against what was held when it was netted |
| `MockPositions.FirstFailureExact` | crates/mock/src/adapter.rs:60-66 | a run of positive submissions first goes wrong exactly where the second tranche of an order resized to or below its first meets a holding no larger than the shortfall; the task panics exactly when it equals it |
| `MockPositions.CarefulPositions` | crates/mock/src/adapter.rs:659-668 | a run that submits positive quantities and keeps split orders above their first tranche stays sound, and all its positions follow their histories |
| `MockPositions.CarefulTranches` | crates/mock/src/adapter.rs:317-338 | in such a run every tranche is positive and no task dies |
| `MockPositions.CarefulOrders` | crates/mock/src/adapter.rs:659-668 | a run that submits positive quantities and never resizes an order below its first tranche overfills none |
| `MockPositions.NotBelowSubmittedIsCareful` | crates/mock/src/adapter.rs:659-668 | never resizing below the submitted quantity keeps to both rules |
| `MockPositions.EmptyTrancheOpensEmptyPosition` | crates/mock/src/adapter.rs:317-338 | a run in which a resized order leaves a position of quantity zero |
| `MockPositions.ShrunkOrderKillsTask` | crates/mock/src/adapter.rs:60-66 | a run in which a resized order's second tranche divides by zero and kills its task |
| `SnapshotDelta.DeepMerge` | crates/saxo/src/delta.rs:83-100 | the merge loop computes the merge, in whatever order it visits the members |
| `SnapshotDelta.MergeAt` | crates/saxo/src/delta.rs:79-100 | what the merge leaves at every path of the document |
| `SnapshotDelta.AtDetermines` | crates/saxo/src/delta.rs:79-100 | nodes at all paths determine the document, so `MergeAt` specifies the merge completely |
| `SnapshotDelta.CoalescingExact` | crates/saxo/src/delta.rs:83-100 | two deltas may be merged ahead of time, for all bases, exactly when the first never holds a non-object where the second holds an object |
| `SnapshotDelta.MergeIsDeltaExact` | crates/saxo/src/delta.rs:83-100 | the result is the delta itself exactly when no object of the base facing one of the delta has extra members |
| `SnapshotDelta.MergeIdempotent` | crates/saxo/src/delta.rs:83-100 | applying a delta twice is applying it once |
| `SnapshotDelta.SubscriptionsIndependent` | crates/saxo/src/delta.rs:31-59 | over any run of calls a subscription's snapshot depends on its own calls alone |
| `SnapshotDelta.DeltaRunCoalesces` | crates/saxo/src/delta.rs:40-48 | a run of clash-free deltas ends where one coalesced delta would |
| `SnapshotDelta.SnapshotStartsAnew` | crates/saxo/src/delta.rs:28-35 | after a snapshot is set, what its subscription holds is decided by it and the later calls on it alone, whatever ran before and whatever other subscriptions do |
| `SnapshotDelta.DeltasAfterSnapshot` | crates/saxo/src/delta.rs:31-48 | so clash-free deltas after a snapshot leave it merged with one delta |
| `SnapshotDelta.RemovedHoldsNothing` | crates/saxo/src/delta.rs:57-59 | a removed subscription holds nothing until its next snapshot, whatever deltas arrive |
| `SnapshotDelta.SnapshotStore.ApplyDelta` | crates/saxo/src/delta.rs:40-48 | merges and returns the full state; fails exactly when there is no snapshot, changing nothing |
| `SnapshotDelta.SnapshotStore.Remove` | crates/saxo/src/delta.rs:57-59 | removes one snapshot and says whether there was one |
| `CircuitBreaker.AdapterCircuitBreaker.RecordFailure` | crates/core/src/circuit_breaker.rs:76-99 | prunes, appends and trips in place as the breaker function does |
| `CircuitBreaker.AdapterCircuitBreaker.ResetBreaker` | crates/core/src/circuit_breaker.rs:113-125 | succeeds exactly when there was no reset or the last is at least the cooldown ago, and then closes and empties the breaker; a refused reset changes nothing |
| `CircuitBreaker.AdapterCircuitBreaker.constructor` | crates/core/src/circuit_breaker.rs:60-70 | starts closed and empty with a cooldown of 60 |
| `CircuitBreaker.BreakerEqualsHistory` | crates/core/src/circuit_breaker.rs:76-125 | after any history the deque is exactly the failures since the last allowed reset within the window of the latest, the breaker is open exactly when one of those failures completed a window of `threshold`, and the stamp is the last allowed reset's, where a reset is allowed exactly when every allowed one before it is at least the cooldown ago |
| `CircuitBreaker.ResetTakesEffectExact` | crates/core/src/circuit_breaker.rs:113-125 | over histories a reset call closes and empties the breaker or changes nothing, exactly as it is allowed or not |
| `CircuitBreaker.ResetsApart` | crates/core/src/circuit_breaker.rs:113-122 | any two allowed resets are at least the cooldown apart |

## Left out

- HTTP, TLS, WebSocket and JSON decoding, logging and metrics: decoders and responses are arbitrary.
- The internal event-router stream: it publishes without claims, so nothing is arbitrated.
- Reconnecting inside one stream task: it only decides which lines arrive, and lines are arbitrary.
- `Decimal` rounding at 28 digits and formatting: quantities are exact reals, so `to_oanda_units` is not modelled.
- Validation of order requests: the mock accepts any request, so its theorems hold for more.
- The mock's order events and its query methods: they report the state and do not change it.
- SnapshotDelta.DeepMerge: returns the merged value instead of updating nested values in place; aliasing is not at issue, since the store owns its values.
- JSON member order and duplicate members: an object is a map.
- A REST fill's frames after one that found no receiver: the code skips them, the model sends them undelivered.
- Bytes in the event protocol: it starts from parsed lines, and LineFraming covers the bytes.
- The order of frames between the two publishers on the shared channel: only each publisher's own order is stated.
- Account snapshot contents: the snapshot is one frame of the fill's publication.
- Which trades a broker takes down to execute a fill: any choice, as `PositionIds.Execute` takes it.
- Exit management, trailing stops, the event router, the state manager, the Tektii bridge, the Alpaca and Binance adapters, Saxo token refresh, configuration and string-to-enum tables: not part of this model.
