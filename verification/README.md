# FalconFX: a verified model

This project models three parts of FalconFX in Dafny and proves what they promise.

**The matching engine.** An order book keeps every order, free or resting, in one pre-allocated array. The free list
and each bid and ask level are chains of indices through that array, with the best levels and the level counts cached
beside it. `Books.OrderBook` and `Pools.OrderPool` do this in place on arrays; `PriceTime` is the same book as plain
sequences, one first-in-first-out sequence of orders per price. Every operation of the class is proved to do to the
sequences exactly what `PriceTime` says, so all further results (price-time priority in closed form and on the trade
log of any run, conservation, splitting, mirror symmetry, when an order is refused, when the book can become crossed)
are proved about `PriceTime` and hold of the arrays. `RiskGate`, `Engine` and `EngineLaws` add the pre-trade check, the
loop around the book, and what the check does and does not keep out.

**The SignalR client.** `MessageBuffers` is the stateful-reconnect buffer as an object; `Reconnect` puts two such ends
on a connection that drops and proves exactly-once, in-order delivery over all runs. `Acknowledgement` says when a send
waits and when the sender's buffer drains, `ResendSteps` takes the resend apart into the steps of its loop. (The
steps these rest on are in `ReconnectProtocol` and `AcknowledgementSteps`, and those of `PriceTimePriority` in
`ArrivalOrder`.) `SendQueue` is the queue in front of the transport, `Framing` the record-separator format and the
handshake response.

**The trade processor.** `TradePipeline` is the consume loop and the batch writer as an interleaved state machine with
failures, lost acknowledgements, rebalances and restarts; `TradeBatches` says what one run writes, `TradeExactness` and
`TradeRereads` when a trade is written twice, `TradeOffsets` how far the stored offsets lag behind; `TradeWorkers` are
the loops themselves, each proved to be a run of the state machine. `Ticker` is the conflating publisher.

`dafny verify dfyconfig.toml` checks everything.

## Findings

Each of these is a property that a caller would expect and that the code has only under a condition. The model keeps
the code as it is and proves the condition.

- **The price check is modulo two to the 32.** `OrderBook.cs:73` casts a 64-bit difference to 32 bits before the range
  check. `Invariants.AliasedExactly`: a price outside the window is accepted exactly when it lies in the window shifted
  by a non-zero multiple of 2^32. `Invariants.UncrossedExactly`: an order keeps every uncrossed book uncrossed if and
  only if it is not such a price on the far side (a sell above the window, a buy below it). `CrossedExample` is a run of
  two orders that crosses a book over 90 to 110; it needs the book without the risk check in front.
- **In the engine the risk check prevents the crossing, but not the wrong price.** `EngineLaws.DrainUncrossed`: whatever
  64-bit orders arrive, the engine's book stays uncrossed. `RiskGate.PassedAliasedExactly`: an order that passes the
  check still has a folded price exactly when nothing rests on the other side and its price is in a shifted window,
  because it is then compared with itself. `RiskGate.FillsExactly`: a later fill is at the maker's own price exactly if
  that price was not folded, and worse for the maker exactly if it came from the far side.
  `EngineLaws.UnagreedFillExample`: a buy of ten with a limit of 95 - 2^32 passes, rests at 95 and is filled at 95;
  `EngineLaws.OverflowExample`: a sell of sixteen at 2^60 + 96 passes because its product wraps.
- **The risk check multiplies and subtracts without overflow checks.** `RiskGate.NotionalExactly` and
  `RiskGate.DeviationExactly` say exactly which passing orders are really within the limits, `GateExamples` and
  `DeviationExample` give passing orders that are not. The engine's window and limits are not affected by the second:
  in front of a book over 90 to 110 the deviation is never misjudged (`RiskGate.PassedIsNear`).
- **The risk check can throw.** `RiskGate.FaultExactly`: it does so exactly for an order within the first two limits
  whose price is 2^63 away from the market; `RiskGate.GateFaultsExactly` is the same in front of a book. `GateExamples`
  has such an order. The exception ends the matching loop: `Engine.EngineWorker.RunMatchingLoop` returns true and leaves
  the rest of the channel unread.
- **A reconnect can be given up although nothing is missing.** `Reconnect.StopExactly` and `Reconnect.NeedlessStop`: a
  sequence message beyond the receiver's position stops the connection, but in every reachable state the receiver has
  already handed on all messages before that id. It happens when the connection drops in the middle of a replay whose
  messages were acknowledged meanwhile.
- **An acknowledgement can be lost for good.** The acknowledgement timer does nothing while a reconnect is going on, and
  is cleared all the same (`signalr.js:1143-1152`). `Acknowledgement.QuietIsAcknowledged`: a run in which it never fires
  then, and no acknowledgement reaches an end that waits for a sequence message, comes to rest with an empty buffer.
  `Acknowledgement.ReplayIsAcknowledged`: after a replay the buffer empties if and only if the timer fires outside a
  reconnect. `LostAckExample` is a run that loses one and comes to rest with a send still waiting, and `LostAckStays`
  says that it waits until another message is sent or the buffer resent.
- **A resend is right only while no acknowledgement interrupts it.** `ResendSteps.ResendExactly`: taken as a loop with
  sends and acknowledgements between its steps, a resend brings the receiver to the right place if and only if no
  acknowledgement drops messages before the array is captured, and no message is buffered after one that drops messages
  later. `SkipExample` loses a message for good. Sends alone do no harm (`SendsNeverSkip`). The transport that
  reconnects is the WebSocket one, whose sends are done at once (`signalr.js:2629-2636`), so that there the loop is over
  before the next frame is handled; that rests on the JavaScript event loop, which the model does not have.
- **A send after the send queue ended may never settle.** `SendQueue.LateSend` gives the exact condition and
  `SendQueue.LateSendExample` a run that reaches it. The only owner of a send queue never makes such a send: it drops
  the queue in the same step in which it stops it (`signalr.js:3100-3105`), and refuses to send unless it is connected
  (`signalr.js:2760-2769`).
- **The trades table is at-least-once, not exactly-once.** `TradeRereads.ExactlyOnceExactly`: in a run without a restart
  a trade is repeated if and only if the answer to a committed write is lost, or a trade is passed on that lies before
  the end of what was passed on of its partition. The second comes from a partition that is taken away:
  `TradeRereads.ReassignRepeatsExactly` says that it repeats exactly the trades from the committed offset up to the new
  position. `TradeExactness.RestartRepeatsExactly` says which rows a restart repeats. `TradeBatches.LostAnswerExample`,
  `TradeExactness.TakenAgainExample` and `TradeExactness.RestartExample` are runs for each of the three causes.
- **With several partitions a clean restart repeats trades too.** Only the last trade of a batch hands its offset back
  (`Worker.cs:257-258`). `TradeOffsets.StoredWhenQuiet`: when nothing is left to do, a partition has trades above its
  stored offset exactly when a batch after the last one that ended in it has one, and `CleanRestart` that exactly then a
  restart reads a trade again; `LaggingExample` is such a run. A topic with one partition, the default in
  `KafkaUtils.cs:57`, is not affected (`OnePartitionIsStored`).

## Model

In the source column, `signalr.js` stands in `src/FalconFX.Gateway/wwwroot/lib/microsoft-signalr/`.

| member | source | states |
|---|---|---|
| MachineInt.Wrap32 | src/FalconFX.MatchingEngine/OrderBook.cs:73 | a truncated value is congruent to the original, in the 32-bit range, and the same if it already was |
| MachineInt.WrapTwice | src/FalconFX.MatchingEngine/OrderBook.cs:73 | truncating the wrapped 64-bit difference is truncating the true difference |
| PriceTime.IndexUnique | src/FalconFX.MatchingEngine/OrderBook.cs:73-77 | a price selects level `i` as soon as its distance from the minimum is congruent to `i` modulo 2^32 |
| PriceTime.BestCharacterised | src/FalconFX.MatchingEngine/OrderBook.cs:203-227 | the best level is the only index with an order and none at a better price, or -1 when the side is empty |
| PriceTime.SweepCount | src/FalconFX.MatchingEngine/OrderBook.cs:83-120 | a sweep never adds orders, and one that trades and still leaves a remainder has freed a slot |
| PriceTime.RunConcat | src/FalconFX.MatchingEngine/MatchingBenchmark.cs:35-45 | running two batches of orders is running them as one |
| Priority.QueueOrdered | src/FalconFX.MatchingEngine/OrderBook.cs:203-227 | the priority queue of a side is sorted by price, best first |
| Priority.QueueCounts | src/FalconFX.MatchingEngine/OrderBook.cs:123-168 | the priority queue holds every resting order of the side |
| PriceTime.BestPriceExactly | src/FalconFX.MatchingEngine/OrderBook.cs:252-263 | a best-price query answers -1 exactly for an empty side, and otherwise the price of an order with none better, when prices are not negative |
| Priority.MatchOneServes | src/FalconFX.MatchingEngine/OrderBook.cs:97-113 | one match serves the head of the priority queue and touches nothing else |
| Priority.SweepWalks | src/FalconFX.MatchingEngine/OrderBook.cs:83-114 | sweeping the levels is walking down the priority queue: same trades, same rest, same remainder |
| Priority.SweepAllocates | src/FalconFX.MatchingEngine/OrderBook.cs:83-114 | closed form of price-time priority: the k-th trade fills the k-th order in the queue with the smaller of its quantity and what the orders in front leave; all others get nothing, so each maker is filled at most once and there are at most as many trades as opposite orders |
| Priority.TradesMonotone | src/FalconFX.MatchingEngine/OrderBook.cs:85-94 | trade prices start at the best price, move away from it, and never pass the taker's limit |
| PriceTimePriority.EarlierIsFilledFirst | src/FalconFX.MatchingEngine/OrderBook.cs:71-168 | over any run from an empty book, on the trade log alone: of two orders with one side and price, the earlier is filled completely before the later is maker in any trade |
| PriceTimePriority.BetterOrEarlierIsFilledFirst | src/FalconFX.MatchingEngine/OrderBook.cs:71-168 | the same for any two orders of a side, of which one has the better level or came first to the same, when the taker came after it: price first, then time |
| PriceTimePriority.LimitsKept | src/FalconFX.MatchingEngine/OrderBook.cs:83-118 | no buy pays more and no sell gets less than its limit, and what is left of an order rests only when nothing acceptable is on the other side |
| Invariants.StepLevelled | src/FalconFX.MatchingEngine/OrderBook.cs:117-139 | every resting order is at the level its own price selects |
| Invariants.AliasedExactly | src/FalconFX.MatchingEngine/OrderBook.cs:73-77 | no price of the window is rejected, and a price outside is accepted exactly when it is in a shifted copy of the window by a non-zero multiple of 2^32 |
| Invariants.SweepEmpties | src/FalconFX.MatchingEngine/OrderBook.cs:83-114 | a sweep fills no empty level, and a taker with a remainder finds nothing acceptable left |
| Invariants.NoMatch | src/FalconFX.MatchingEngine/OrderBook.cs:83-94 | the matching loop stops exactly when no level in use has an acceptable price |
| Invariants.StepUncrossed | src/FalconFX.MatchingEngine/OrderBook.cs:83-120 | an order that is not on the far side keeps best bid below best ask |
| Invariants.FarSideCrosses | src/FalconFX.MatchingEngine/OrderBook.cs:73-120 | each far-side order is accepted by some uncrossed book, trades nothing and crosses it |
| Invariants.FarSideRun | src/FalconFX.MatchingEngine/OrderBook.cs:71-168 | for each far-side order a run of two orders from the empty book that ends crossed |
| Invariants.UncrossedExactly | src/FalconFX.MatchingEngine/OrderBook.cs:73-120 | an order keeps all uncrossed books uncrossed if and only if it is not on the far side |
| Invariants.CrossedExample | src/FalconFX.MatchingEngine/OrderBook.cs:44-47 | two concrete orders that cross a fresh book over 90 to 110, without the risk check in front |
| Invariants.ResultsExactly | src/FalconFX.MatchingEngine/OrderBook.cs:73-121 | the exact condition of each result code; pool exhaustion needs every slot in use and no acceptable opposite order, and a refused order changed nothing and traded nothing |
| Invariants.RunKeeps | src/FalconFX.MatchingEngine/OrderBook.cs:71-168 | over any run orders rest at their level, and without far-side orders the book stays uncrossed |
| Invariants.FreshBookKeeps | src/FalconFX.MatchingEngine/OrderBook.cs:229-238 | an empty book meets both invariants |
| Conservation.SweepConserves | src/FalconFX.MatchingEngine/OrderBook.cs:100-107 | what the makers lose is what the trades say, and so is what the taker gains, for any selection of ids |
| Conservation.StepConserves | src/FalconFX.MatchingEngine/OrderBook.cs:83-138 | one order conserves quantity on each side |
| Conservation.RunConserves | src/FalconFX.MatchingEngine/OrderBook.cs:83-138 | over any run: brought in plus resting before is filled as taker plus filled as maker plus resting after |
| Conservation.IdConserved | src/FalconFX.MatchingEngine/OrderBook.cs:100-138 | per order id from an empty book: accepted quantity is taken plus made plus still resting |
| Conservation.SideConserved | src/FalconFX.MatchingEngine/OrderBook.cs:83-138 | per side, what came in is what was traded plus the growth of what rests, so total bought equals total sold |
| Splitting.SplitSweep | src/FalconFX.MatchingEngine/OrderBook.cs:83-114 | sweeping with a+b is sweeping with a and then with b: same levels, same trades up to the one fill the cut divides |
| Splitting.SplitOrder | src/FalconFX.MatchingEngine/OrderBook.cs:83-120 | an order of a+b, or a and then b with two free slots: all accepted, every maker gets the same total, the opposite side is identical, and only the taker's level differs, with the same total |
| Mirror.MirrorIndex | src/FalconFX.MatchingEngine/OrderBook.cs:73-77 | the reflected price selects the reflected level, even when the cast wraps |
| Mirror.MirrorBest | src/FalconFX.MatchingEngine/OrderBook.cs:203-227 | the ask scan on the mirrored book finds the mirror of what the bid scan finds |
| Mirror.MirrorSweep | src/FalconFX.MatchingEngine/OrderBook.cs:79-114 | sweeping commutes with mirroring |
| Mirror.MirrorStep | src/FalconFX.MatchingEngine/OrderBook.cs:71-168 | the mirrored order on the mirrored book has the mirrored outcome |
| Mirror.MirrorRun | src/FalconFX.MatchingEngine/OrderBook.cs:71-227 | over any run: same result codes, mirrored trades, mirrored book |
| Arena.PushFree | src/FalconFX.MatchingEngine/OrderPool.cs:36-41 | returning a slot keeps the free list a chain, with the slot in front |
| Arena.PopFree | src/FalconFX.MatchingEngine/OrderPool.cs:19-33 | renting takes the head off the free list and keeps the rest a chain |
| Arena.HeadsTell | src/FalconFX.MatchingEngine/OrderBook.cs:203-227 | a level's head is -1 exactly when it holds no order, so the scan finds the best level |
| Arena.ScanTells | src/FalconFX.MatchingEngine/OrderBook.cs:203-263 | counting and scanning heads gives the depth and best level of the orders represented |
| Images.OneChain | src/FalconFX.MatchingEngine/OrderPool.cs:9-41 | every slot is in exactly one chain: the free list or one level of one side |
| Images.RemoveKeeps | src/FalconFX.MatchingEngine/OrderBook.cs:171-184 | unlinking any position of a level keeps all chains of the array separate and well linked, and removes that order only |
| Images.RentKeeps | src/FalconFX.MatchingEngine/OrderPool.cs:19-33 | renting a slot keeps all chains and both sides of the book |
| Images.ReturnKeeps | src/FalconFX.MatchingEngine/OrderPool.cs:36-41 | returning an unlinked slot keeps all chains and both sides |
| Images.FillKeeps | src/FalconFX.MatchingEngine/OrderBook.cs:106 | changing a maker's quantity in place changes that order only |
| Images.AppendKeeps | src/FalconFX.MatchingEngine/OrderBook.cs:134-165 | linking a rented slot behind the tail appends that order to its level and keeps all chains |
| Images.TrackShrunk | src/FalconFX.MatchingEngine/OrderBook.cs:185-200 | when a level loses an order, the count and the best level change only if it emptied, and then how |
| Images.TrackGrown | src/FalconFX.MatchingEngine/OrderBook.cs:143-159 | when a level gains an order, the count and the best level change only if it was empty, and then how |
| Pools.OrderPool.constructor | src/FalconFX.MatchingEngine/OrderPool.cs:12-16 | a new pool has all slots free |
| Pools.OrderPool.Rent | src/FalconFX.MatchingEngine/OrderPool.cs:19-33 | takes the head off the free list, -1 exactly when it is empty; nothing else changes |
| Pools.OrderPool.Return | src/FalconFX.MatchingEngine/OrderPool.cs:36-41 | puts the slot in front of the free list; nothing else changes |
| Pools.OrderPool.Reset | src/FalconFX.MatchingEngine/OrderPool.cs:43-56 | all slots are free again in index order, whatever they held |
| Books.OrderBook.constructor | src/FalconFX.MatchingEngine/OrderBook.cs:50-64 | the new book is empty and valid |
| Books.CreateOrderBook | src/FalconFX.MatchingEngine/OrderBook.cs:50-64 | no book exactly when the minimum is not below the maximum |
| Books.OrderBook.Clear | src/FalconFX.MatchingEngine/OrderBook.cs:229-238 | from any state of the nodes, the book is the empty book |
| Books.OrderBook.UpdateBestAskIndex | src/FalconFX.MatchingEngine/OrderBook.cs:204-214 | finds the lowest non-empty ask level; the steps it takes are paid by the levels the best moves past |
| Books.OrderBook.UpdateBestBidIndex | src/FalconFX.MatchingEngine/OrderBook.cs:217-227 | the same for the highest non-empty bid level |
| Books.OrderBook.Unlink | src/FalconFX.MatchingEngine/OrderBook.cs:176-183 | the relinking writes produce the chain without the node |
| Books.OrderBook.Detach | src/FalconFX.MatchingEngine/OrderBook.cs:173-183 | the node is in no chain, its level lost that order, the other side is untouched |
| Books.OrderBook.LevelShrunk | src/FalconFX.MatchingEngine/OrderBook.cs:185-200 | count and best index again match the level array after a level lost an order |
| Books.OrderBook.RemoveNode | src/FalconFX.MatchingEngine/OrderBook.cs:171-201 | removes exactly that order, keeps structure and trackers, with bounded scanning |
| Books.OrderBook.LinkLast | src/FalconFX.MatchingEngine/OrderBook.cs:160-165 | links the node behind the old tail |
| Books.OrderBook.Attach | src/FalconFX.MatchingEngine/OrderBook.cs:134-145 | the order is in its node behind the tail of its level's chain, and nothing else changed; that the end is the right place is `PriceTimePriority.EarlierIsFilledFirst` |
| Books.OrderBook.LevelGrown | src/FalconFX.MatchingEngine/OrderBook.cs:143-159 | count and best index again match the level array after a level got an order |
| Books.OrderBook.PlaceNode | src/FalconFX.MatchingEngine/OrderBook.cs:134-165 | the order joins the end of its level; structure and trackers are kept |
| Books.OrderBook.AddToBook | src/FalconFX.MatchingEngine/OrderBook.cs:124-168 | rests the order if and only if fewer orders rest than there are slots; otherwise nothing changes |
| Books.OrderBook.GiveBack | src/FalconFX.MatchingEngine/OrderBook.cs:112 | an unlinked slot is free again and no order changed |
| Books.OrderBook.DropHead | src/FalconFX.MatchingEngine/OrderBook.cs:109-113 | a filled maker leaves its level and its slot becomes free |
| Books.OrderBook.TakeFromHead | src/FalconFX.MatchingEngine/OrderBook.cs:106-113 | the oldest order at the best price loses the traded quantity, and leaves if that was all |
| Books.OrderBook.TradeAtBest | src/FalconFX.MatchingEngine/OrderBook.cs:97-113 | one pass of the loop is one match of the specification |
| Books.OrderBook.MatchLoop | src/FalconFX.MatchingEngine/OrderBook.cs:83-114 | the loop is the sweep of the specification |
| Books.OrderBook.ProcessOrder | src/FalconFX.MatchingEngine/OrderBook.cs:71-121 | book, trades and result code are those of one specification step, about which price-time priority is proved; all best-index scans of the call together look at no more levels than there are |
| Books.OrderBook.GetDepths | src/FalconFX.MatchingEngine/OrderBook.cs:244-247 | the counts are the numbers of non-empty price levels |
| Books.OrderBook.GetBestBidPrice | src/FalconFX.MatchingEngine/OrderBook.cs:252-255 | the highest bid price, -1 when there is none |
| Books.OrderBook.GetBestAskPrice | src/FalconFX.MatchingEngine/OrderBook.cs:260-263 | the lowest ask price, -1 when there is none |
| Books.OrderBook.MatchOrders | src/FalconFX.MatchingEngine/MatchingBenchmark.cs:36-45 | clearing a book in any state and running any orders gives the trades, results and resting orders of the specification from an empty book, each at the level its price selects |
| Books.OrderBook.ContentsWellFormed | src/FalconFX.MatchingEngine/OrderBook.cs:71-121 | between calls the resting orders meet what every specification result requires |
| Books.OrderBook.EverySlotInOneChain | src/FalconFX.MatchingEngine/OrderBook.cs:124-201 | between calls each slot is in exactly one chain |
| Books.OrderBook.LevelLinked | src/FalconFX.MatchingEngine/OrderBook.cs:124-201 | between calls each level is acyclic and doubly linked with true ends, its nodes of the level's side with positive quantity |
| Books.OrderBook.NodePrices | src/FalconFX.MatchingEngine/OrderBook.cs:134-139 | when the orders are at the levels their prices select, as after any run, the price in each node selects its level, and is the level's price exactly when it was not folded |
| Books.OrderBook.TrackersMatchScan | src/FalconFX.MatchingEngine/OrderBook.cs:143-159 | between calls the cached best indices and counts equal those of a full scan |
| RiskGate.NotionalExactly | src/FalconFX.MatchingEngine/Services/PreTradeRiskChecker.cs:38-40 | a passing order is really within the notional limit exactly when its product is below 2^63 |
| RiskGate.DeviationExactly | src/FalconFX.MatchingEngine/Services/PreTradeRiskChecker.cs:42-45 | a passing order is really within the deviation limit exactly when the price difference fits 64 bits |
| RiskGate.GateExactly | src/FalconFX.MatchingEngine/Services/PreTradeRiskChecker.cs:32-48 | for non-negative prices and a product that fits, the check passes exactly the orders within all three limits and never throws |
| RiskGate.CodesExactly | src/FalconFX.MatchingEngine/Services/PreTradeRiskChecker.cs:32-48 | which code a refused order gets: the first true limit it breaks, in the order quantity, value, deviation, when product and difference fit 64 bits; the quantity code for all inputs |
| RiskGate.FaultExactly | src/FalconFX.MatchingEngine/Services/PreTradeRiskChecker.cs:32-48 | for 64-bit prices the check throws exactly for an order within the first two limits that is 2^63 away from the market |
| RiskGate.DeviationExample | src/FalconFX.MatchingEngine/Services/PreTradeRiskChecker.cs:42-45 | an order that passes although it is almost 2^64 away from the market |
| RiskGate.GateExamples | src/FalconFX.MatchingEngine/Services/PreTradeRiskChecker.cs:38-43 | an order far above the notional limit that passes, and one that throws |
| RiskGate.GateFaultsExactly | src/FalconFX.MatchingEngine/EngineWorker.cs:96-113 | in front of a book the check throws exactly for an order within the first two limits that meets an opposite best price 2^63 above its own |
| RiskGate.PassedIsNear | src/FalconFX.MatchingEngine/EngineWorker.cs:96-113 | in front of a book whose window starts at or above zero and lies with the deviation limit inside 64 bits, a passing order is really within the deviation limit |
| RiskGate.PassedAliasedExactly | src/FalconFX.MatchingEngine/EngineWorker.cs:103-116 | a passing 64-bit order has a folded price exactly when the other side is empty and its price is in a shifted window |
| RiskGate.FillsExactly | src/FalconFX.MatchingEngine/OrderBook.cs:97-103 | the k-th fill is at the k-th maker's own price exactly when that price was not folded, and worse than it exactly when it came from the far side |
| RiskGate.TradesNearMarket | src/FalconFX.MatchingEngine/EngineWorker.cs:96-116 | all trades of a passing 64-bit order are within the deviation limit of the market price the gate saw, for a window and limits like the engine's (`Guarded`) |
| RiskGate.BuyWithinNotional | src/FalconFX.MatchingEngine/EngineWorker.cs:96-116 | a passing 64-bit buy with equal quantities trades at most the notional limit in total, for a window and limits like the engine's (`Bounded`) |
| RiskGate.SellNearNotional | src/FalconFX.MatchingEngine/EngineWorker.cs:96-116 | a passing 64-bit sell trades at most the notional limit plus the deviation limit on each unit |
| RiskGate.PassedPriceExact | src/FalconFX.MatchingEngine/EngineWorker.cs:45-49 | the cast keeps the price of a passing order that is in range but in the one case of `PassedAliasedExactly`; it always does for a price that is not negative and a positive quantity with a product below 2^63 under a notional limit below 2^31 |
| Engine.DrainIsRun | src/FalconFX.MatchingEngine/EngineWorker.cs:89-153 | the engine's book and trades are those of the book run on the orders that passed; every other order was counted as refused |
| Engine.DrainOne | src/FalconFX.MatchingEngine/EngineWorker.cs:97-116 | one order is matched if it passes the gate on the book as it is, and otherwise refused, or ends the loop |
| Engine.DrainConcat | src/FalconFX.MatchingEngine/EngineWorker.cs:95-153 | draining in two bursts is draining at once: later orders meet the book the earlier ones left, and none is drained after an exception |
| EngineLaws.EngineIsBounded | src/FalconFX.MatchingEngine/EngineWorker.cs:42-49 | the engine's window and limits meet what the gate's theorems require |
| EngineLaws.PassedUncrossed | src/FalconFX.MatchingEngine/EngineWorker.cs:96-116 | an order that passes keeps the book uncrossed, far side or not |
| EngineLaws.DrainUncrossed | src/FalconFX.MatchingEngine/EngineWorker.cs:89-153 | over any sequence of 64-bit orders the loop keeps the book uncrossed |
| EngineLaws.EngineBook | src/FalconFX.MatchingEngine/EngineWorker.cs:42-153 | from its start the engine's book is uncrossed with every order at the level its price selects |
| EngineLaws.UnagreedFillExample | src/FalconFX.MatchingEngine/EngineWorker.cs:103-116 | two orders the engine lets through, of which the first buys at 95 against a limit of 95 - 2^32 |
| EngineLaws.OverflowExample | src/FalconFX.MatchingEngine/Services/PreTradeRiskChecker.cs:38-40 | a sell far above the window passes by overflow and is accepted at the level of 96 |
| Engine.EngineWorker.constructor | src/FalconFX.MatchingEngine/EngineWorker.cs:42-49 | an empty book of 500 000 slots over 90 to 110 and an empty channel |
| Engine.EngineWorker.EnqueueOrder | src/FalconFX.MatchingEngine/EngineWorker.cs:53-62 | queues and counts the order exactly when the channel has room |
| Engine.EngineWorker.HandleOrder | src/FalconFX.MatchingEngine/EngineWorker.cs:97-147 | best opposite price, gate, matching and counters for one order; a refused order changes the book in nothing |
| Engine.EngineWorker.RunMatchingLoop | src/FalconFX.MatchingEngine/EngineWorker.cs:89-153 | draining the channel has the book, trades and counters of the specification; an exception leaves exactly the orders behind the one that caused it unread |
| MessageBuffers.CoveredExactly | src/FalconFX.Gateway/wwwroot/lib/microsoft-signalr/signalr.js:1029-1052 | with consecutive ids it covers exactly the items with an id up to the acknowledged one |
| MessageBuffers.BufferedAccounted | src/FalconFX.Gateway/wwwroot/lib/microsoft-signalr/signalr.js:993-1012 | a send keeps ids consecutive up to the total, the byte count the sum of the buffer, and waiting sends only at or above the limit |
| MessageBuffers.SendWaitsExactly | src/FalconFX.Gateway/wwwroot/lib/microsoft-signalr/signalr.js:996-1013 | an invocation message goes behind the others under the next id, and its send waits if and only if the lengths in the buffer, with it, sum up to the limit or more |
| MessageBuffers.AckedAccounted | src/FalconFX.Gateway/wwwroot/lib/microsoft-signalr/signalr.js:1029-1057 | so does an acknowledgement; what is left starts behind the acknowledged id, and below the limit nobody is left waiting |
| MessageBuffers.WaitersAfterAck | src/FalconFX.Gateway/wwwroot/lib/microsoft-signalr/signalr.js:1032-1052 | a send waiting on a message that stays is resolved exactly if the buffer is now below its limit, and waits on otherwise |
| MessageBuffers.TimerForLatest | src/FalconFX.Gateway/wwwroot/lib/microsoft-signalr/signalr.js:1072-1086 | a message that brings the receiver to its latest id or beyond leaves the timer set; a replayed one before that does not touch it |
| MessageBuffers.DisconnectedAccounted | src/FalconFX.Gateway/wwwroot/lib/microsoft-signalr/signalr.js:1097-1100 | a disconnect keeps the accounts |
| MessageBuffers.AckLoopEnd | src/FalconFX.Gateway/wwwroot/lib/microsoft-signalr/signalr.js:1032-1052 | wherever the scan stops, what it leaves is what the acknowledgement is specified to leave |
| MessageBuffers.MessageBuffer.constructor | src/FalconFX.Gateway/wwwroot/lib/microsoft-signalr/signalr.js:979-992 | an empty buffer whose accounts are right |
| MessageBuffers.MessageBuffer.Send | src/FalconFX.Gateway/wwwroot/lib/microsoft-signalr/signalr.js:993-1028 | buffers an invocation message before sending, and its send waits exactly if the buffer has then reached its limit; sends only outside a reconnect, and a failed send starts one |
| MessageBuffers.MessageBuffer.SetDisconnected | src/FalconFX.Gateway/wwwroot/lib/microsoft-signalr/signalr.js:1097-1100 | sets both flags and nothing else |
| MessageBuffers.MessageBuffer.ScanAcked | src/FalconFX.Gateway/wwwroot/lib/microsoft-signalr/signalr.js:1029-1052 | the single loop with its early exit finds the newest covered item, releases every covered waiter and those that fit again |
| MessageBuffers.MessageBuffer.ProcessAck | src/FalconFX.Gateway/wwwroot/lib/microsoft-signalr/signalr.js:1029-1057 | drops exactly what is covered; a send waiting on a dropped item is resolved, and one on an item that stays exactly if the buffer is below its limit |
| MessageBuffers.MessageBuffer.ShouldProcessMessage | src/FalconFX.Gateway/wwwroot/lib/microsoft-signalr/signalr.js:1058-1088 | which messages pass, how ids advance, and that reaching the latest id, by a replay too, leaves the timer set |
| MessageBuffers.MessageBuffer.AckTimerFires | src/FalconFX.Gateway/wwwroot/lib/microsoft-signalr/signalr.js:1141-1156 | acknowledges the latest received id unless a reconnect is going on |
| MessageBuffers.MessageBuffer.ResetSequence | src/FalconFX.Gateway/wwwroot/lib/microsoft-signalr/signalr.js:1089-1096 | rewinds, or stops the connection when the id is beyond the position |
| MessageBuffers.MessageBuffer.Resend | src/FalconFX.Gateway/wwwroot/lib/microsoft-signalr/signalr.js:1101-1113 | announces the first buffered id, sends the whole buffer in order and ends the reconnect |
| MessageBuffers.MessageBuffer.Dispose | src/FalconFX.Gateway/wwwroot/lib/microsoft-signalr/signalr.js:1114-1120 | every send that still waits is rejected |
| Reconnect.NextKeeps | src/FalconFX.Gateway/wwwroot/lib/microsoft-signalr/signalr.js:3006-3034 | every step of either end, a drop or a reconnect keeps the protocol invariant in both directions |
| Reconnect.ExactlyOnceInOrder | src/FalconFX.Gateway/wwwroot/lib/microsoft-signalr/signalr.js:1058-1113 | over any run, in both directions, what was handed on is exactly the first messages sent, as many as the latest received id: no gap, no duplicate, in order |
| Reconnect.NothingForgotten | src/FalconFX.Gateway/wwwroot/lib/microsoft-signalr/signalr.js:1029-1057 | a message not yet handed on is still in the sender's buffer under its own id |
| Reconnect.QuietIsDelivered | src/FalconFX.Gateway/wwwroot/lib/microsoft-signalr/signalr.js:1058-1113 | when the connection is up with no frame in flight and neither end is recovering, everything sent was handed on |
| Reconnect.AccountsAlwaysRight | src/FalconFX.Gateway/wwwroot/lib/microsoft-signalr/signalr.js:993-1057 | in every reachable state the accounts of both buffers are right: no lost wake-up |
| Reconnect.BothWays | src/FalconFX.Gateway/wwwroot/lib/microsoft-signalr/signalr.js:1601-1672 | exchanging the two ends commutes with every run |
| Reconnect.StopExactly | src/FalconFX.Gateway/wwwroot/lib/microsoft-signalr/signalr.js:1089-1096 | when a sequence message stops the connection, nothing before its id is missing, and the receiver was in the middle of a replay |
| Reconnect.NeedlessStop | src/FalconFX.Gateway/wwwroot/lib/microsoft-signalr/signalr.js:1089-1096 | a run of two correct ends that ends stopped with everything delivered |
| Acknowledgement.SendWaits | src/FalconFX.Gateway/wwwroot/lib/microsoft-signalr/signalr.js:996-1027 | in every reachable state a send waits exactly if the buffer with it has reached the size it was made with |
| Acknowledgement.NextOwes | src/FalconFX.Gateway/wwwroot/lib/microsoft-signalr/signalr.js:1058-1156 | every step that loses no acknowledgement keeps: if the receiver has caught up and the sender holds a message it received, a timer or an acknowledgement for it is under way |
| Acknowledgement.QuietIsAcknowledged | src/FalconFX.Gateway/wwwroot/lib/microsoft-signalr/signalr.js:1029-1156 | a run that loses no acknowledgement comes to rest with an empty buffer |
| Acknowledgement.ReplayIsAcknowledged | src/FalconFX.Gateway/wwwroot/lib/microsoft-signalr/signalr.js:1072-1156 | whatever was received before, after a replay that arrived in full the receiver's timer runs; when it fires and what it sent is taken, the buffer is empty exactly if the receiver was not reconnecting |
| Acknowledgement.LostAckStays | src/FalconFX.Gateway/wwwroot/lib/microsoft-signalr/signalr.js:1141-1156 | from a state with nothing under way, whatever happens short of another message or resend, the buffer and the sends waiting on it stay as they are |
| Acknowledgement.LostAckExample | src/FalconFX.Gateway/wwwroot/lib/microsoft-signalr/signalr.js:1141-1156 | a run that comes to rest with everything delivered, a message in the buffer and its send waiting |
| ResendSteps.ResendExactly | src/FalconFX.Gateway/wwwroot/lib/microsoft-signalr/signalr.js:1101-1113 | over any interleaving of the resend loop with sends and acknowledgements: the frames bring the receiver to the id behind the last message, each under its own id, if and only if no step skips a message |
| ResendSteps.SendsNeverSkip | src/FalconFX.Gateway/wwwroot/lib/microsoft-signalr/signalr.js:1106-1112 | without an acknowledgement in between, whatever is sent meanwhile, no step skips |
| ResendSteps.SkipExample | src/FalconFX.Gateway/wwwroot/lib/microsoft-signalr/signalr.js:1053-1056 | an acknowledgement and a send during a resend make the receiver take the fourth message for the third, which is lost |
| SendQueue.SendValid | src/FalconFX.Gateway/wwwroot/lib/microsoft-signalr/signalr.js:3175-3193 | a send keeps the queue's invariant |
| SendQueue.WakeValid | src/FalconFX.Gateway/wwwroot/lib/microsoft-signalr/signalr.js:3195-3210 | a wake-up finds data and a promise, and keeps the invariant |
| SendQueue.SettleValid | src/FalconFX.Gateway/wwwroot/lib/microsoft-signalr/signalr.js:3210-3216 | the end of a transport call keeps it |
| SendQueue.InOrderPrefix | src/FalconFX.Gateway/wwwroot/lib/microsoft-signalr/signalr.js:3175-3218 | over any interleaving the transport was given a prefix of what was sent, in order and in batches of one type; the rest is the buffer, which has a wake-up pending |
| SendQueue.TextInOrder | src/FalconFX.Gateway/wwwroot/lib/microsoft-signalr/signalr.js:3187-3210 | with text only, over any interleaving, the text sent is the data of all transport calls, one behind the other, followed by the text still in the buffer |
| SendQueue.BinaryInOrder | src/FalconFX.Gateway/wwwroot/lib/microsoft-signalr/signalr.js:3187-3210 | the same for bytes |
| SendQueue.AcceptedIsSent | src/FalconFX.Gateway/wwwroot/lib/microsoft-signalr/signalr.js:3187-3193 | while all data is of one type every send is accepted, in order |
| SendQueue.AcceptsExactly | src/FalconFX.Gateway/wwwroot/lib/microsoft-signalr/signalr.js:3187-3190 | a send is refused exactly when something of another type is in the buffer |
| SendQueue.SettlesItsSends | src/FalconFX.Gateway/wwwroot/lib/microsoft-signalr/signalr.js:3210-3216 | the end of a call settles the promise of each send it carried as the call ended, and no other |
| SendQueue.ResolvedWasCarried | src/FalconFX.Gateway/wwwroot/lib/microsoft-signalr/signalr.js:3204-3216 | a send's promise is resolved only by a successful transport call that carried its data |
| SendQueue.EndedForever | src/FalconFX.Gateway/wwwroot/lib/microsoft-signalr/signalr.js:3197-3202 | after the loop ended nothing is sent and no promise settles |
| SendQueue.StopEnds | src/FalconFX.Gateway/wwwroot/lib/microsoft-signalr/signalr.js:3182-3202 | a stopped loop that has not ended wakes up, at once or when its transport call ends, and ends |
| SendQueue.LateSend | src/FalconFX.Gateway/wwwroot/lib/microsoft-signalr/signalr.js:3175-3202 | a send after the end gets a settled promise exactly when one was pending at the last wake-up, and then a rejected one |
| SendQueue.LateSendExample | src/FalconFX.Gateway/wwwroot/lib/microsoft-signalr/signalr.js:3175-3218 | a run that reaches a state where a late send waits for ever |
| SendQueue.ConcatBuffers | src/FalconFX.Gateway/wwwroot/lib/microsoft-signalr/signalr.js:3219-3228 | the array is the buffers one behind the other |
| SendQueue.JoinTextConcat | src/FalconFX.Gateway/wwwroot/lib/microsoft-signalr/signalr.js:3206-3207 | joining two batches is joining each and putting the second behind the first |
| SendQueue.JoinBinaryConcat | src/FalconFX.Gateway/wwwroot/lib/microsoft-signalr/signalr.js:3219-3228 | the same for bytes |
| SendQueue.JoinOne | src/FalconFX.Gateway/wwwroot/lib/microsoft-signalr/signalr.js:3206-3208 | a batch of one is its own data |
| SendQueue.JoinStrings | src/FalconFX.Gateway/wwwroot/lib/microsoft-signalr/signalr.js:3206-3207 | the string is the strings one behind the other |
| SendQueue.JoinItems | src/FalconFX.Gateway/wwwroot/lib/microsoft-signalr/signalr.js:3206-3208 | one piece of data of the type of the first |
| SendQueue.TransportSendQueue.constructor | src/FalconFX.Gateway/wwwroot/lib/microsoft-signalr/signalr.js:3167-3174 | an empty running queue with a promise ready |
| SendQueue.TransportSendQueue.BufferData | src/FalconFX.Gateway/wwwroot/lib/microsoft-signalr/signalr.js:3187-3193 | puts the data behind the buffer and wakes the loop, unless it is of another type |
| SendQueue.TransportSendQueue.Send | src/FalconFX.Gateway/wwwroot/lib/microsoft-signalr/signalr.js:3175-3193 | returns the promise of the call that will carry the data, which is then last in the buffer; data is refused exactly when something of another type is there |
| SendQueue.TransportSendQueue.Stop | src/FalconFX.Gateway/wwwroot/lib/microsoft-signalr/signalr.js:3182-3186 | the queue is stopped; the loop wakes up, at once or when its transport call ends, and ends |
| SendQueue.TransportSendQueue.GiveBuffer | src/FalconFX.Gateway/wwwroot/lib/microsoft-signalr/signalr.js:3203-3211 | one call of the transport with all that was buffered |
| SendQueue.TransportSendQueue.WakeUp | src/FalconFX.Gateway/wwwroot/lib/microsoft-signalr/signalr.js:3195-3211 | gives the transport exactly the buffered data in one call, so that its calls are those of the history, or ends and rejects |
| SendQueue.TransportSendQueue.TransportDone | src/FalconFX.Gateway/wwwroot/lib/microsoft-signalr/signalr.js:3210-3216 | settles every send the call carried as the call ended |
| Framing.SplitJoins | src/FalconFX.Gateway/wwwroot/lib/microsoft-signalr/signalr.js:854 | the pieces have no separator, and joining them gives the text back |
| Framing.ParseExactly | src/FalconFX.Gateway/wwwroot/lib/microsoft-signalr/signalr.js:847-857 | a text parses to some messages exactly when it is their frames, at least one, with no separator inside a message |
| Framing.IndexOf | src/FalconFX.Gateway/wwwroot/lib/microsoft-signalr/signalr.js:879-891 | the first position of the separator, -1 when there is none |
| Framing.HandshakeCuts | src/FalconFX.Gateway/wwwroot/lib/microsoft-signalr/signalr.js:890-911 | the response is the first frame and what follows is kept exactly |
| Framing.HandshakeIncompleteExactly | src/FalconFX.Gateway/wwwroot/lib/microsoft-signalr/signalr.js:890-894 | a handshake is incomplete exactly when it has no separator |
| Framing.HandshakeThenMessages | src/FalconFX.Gateway/wwwroot/lib/microsoft-signalr/signalr.js:873-911 | messages that arrive with the handshake are parsed from the remainder, exactly those |
| Framing.BinaryLikeText | src/FalconFX.Gateway/wwwroot/lib/microsoft-signalr/signalr.js:876-900 | the binary form cuts where the text form of the same characters does |
| TradePipeline.NextKeeps | src/FalconFX.TradeProcessor/Worker.cs:130-293 | every step, failure, rebalance and restart keeps: below each stored, committed or acknowledged offset all trades are in the table, and trades on the way are in order |
| TradePipeline.NoTradeLost | src/FalconFX.TradeProcessor/Worker.cs:130-293 | in every reachable state each record below a stored or committed offset is one without a value or a trade in the table; no offset passes a record that cannot be parsed |
| TradePipeline.NoTradeInvented | src/FalconFX.TradeProcessor/Worker.cs:191-293 | every row of the table is a trade of the topic |
| TradePipeline.DrainedIsPersisted | src/FalconFX.TradeProcessor/Worker.cs:130-293 | when a working consumer has read a partition to its end and nothing is on the way, all its trades are in the table |
| TradeBatches.NextCut | src/FalconFX.TradeProcessor/Worker.cs:191-293 | every step keeps the table cut into batches and counts the retries |
| TradeBatches.TableIsBatches | src/FalconFX.TradeProcessor/Worker.cs:200-287 | within one run the new rows are the consumed sequence cut into consecutive batches of at most 10 000, each one to five times, the last zero to five times |
| TradeBatches.RunInStep | src/FalconFX.TradeProcessor/Worker.cs:144-165 | while a partition is not taken away, the trades consumed from it are exactly those of the topic up to the position; a closed consumer may have given up the last |
| TradeBatches.ExactlyOnceInOrder | src/FalconFX.TradeProcessor/Worker.cs:130-293 | without lost acknowledgements, rebalances or restarts each partition's trades go into the table exactly once and in order |
| TradeBatches.LostAnswerExample | src/FalconFX.TradeProcessor/Worker.cs:266-279 | a lost acknowledgement puts a batch into the table twice |
| TradeExactness.OneCopyExactly | src/FalconFX.TradeProcessor/Worker.cs:211-279 | in a run without a restart every batch is written once, and acknowledged then, exactly when no answer is lost |
| TradeRereads.NextMarked | src/FalconFX.TradeProcessor/Worker.cs:130-293 | every step but a restart keeps: of each partition exactly what lies between the start of the run and the end of what was passed on was taken, only the trade in hand is ahead of that, and offsets are stored up to there at most |
| TradeRereads.BackIsAgain | src/FalconFX.TradeProcessor/Worker.cs:150-164 | a trade is passed on again exactly when it lies before the end of what was passed on of its partition |
| TradeRereads.ExactlyOnceExactly | src/FalconFX.TradeProcessor/Worker.cs:130-293 | in a run without a restart no trade is twice in what was written or is still to be written, if and only if no answer is lost and each trade passed on lies beyond those passed on of its partition before |
| TradeRereads.ReadExactly | src/FalconFX.TradeProcessor/Worker.cs:144-165 | from any state with a working consumer, until a partition is taken away, exactly what lies between the two positions is read, for the first time or again |
| TradeRereads.ReassignRepeatsExactly | src/FalconFX.TradeProcessor/Worker.cs:144-165 | a partition that is taken away and comes back repeats, of the trades read before, exactly those at or above its committed offset that the consumer comes by again |
| TradeExactness.UndisturbedTaken | src/FalconFX.TradeProcessor/Worker.cs:144-165 | without reassignment nothing is taken twice, and what is taken of a partition is what it holds from the committed offset on |
| TradeExactness.RestartRepeatsExactly | src/FalconFX.TradeProcessor/Worker.cs:130-293 | after a restart a row gets another copy only at or above the committed offset, and while the consumer works exactly if it is also below the position and no longer on its way |
| TradeExactness.TakenAgainExample | src/FalconFX.TradeProcessor/Worker.cs:144-165 | a partition taken away before its offset was stored makes a trade be taken again |
| TradeExactness.RestartExample | src/FalconFX.TradeProcessor/Worker.cs:253-265 | a trade in the table whose offset was not committed is written again after a restart |
| TradeOffsets.StoredEndExactly | src/FalconFX.TradeProcessor/Worker.cs:257-258 | the offset handed back is never beyond the last trade of a partition, and behind it exactly when no batch after the last one that ended in the partition has a trade of it |
| TradeOffsets.StoredWhenQuiet | src/FalconFX.TradeProcessor/Worker.cs:134-142 | when everything is read, written and stored, the offset of a partition is behind the last batch that ended in it, and none of its trades is left above exactly when no later batch has one |
| TradeOffsets.CleanRestart | src/FalconFX.TradeProcessor/Worker.cs:134-142 | a worker that comes to rest, commits and is started again reads a trade of the partition again exactly when a later batch than the last that ended in it has one |
| TradeOffsets.OnePartitionIsStored | src/FalconFX.TradeProcessor/Worker.cs:134-142 | with one partition a quiet worker has stored everything it read |
| TradeOffsets.LaggingExample | src/FalconFX.TradeProcessor/Worker.cs:257-258 | with two partitions a quiet worker with everything committed leaves the offset of one where it was |
| TradeWorkers.TradeWorker.constructor | src/FalconFX.TradeProcessor/Worker.cs:43-79 | a worker resumes at the committed offsets with nothing in memory |
| TradeWorkers.TradeWorker.StoreOffsets | src/FalconFX.TradeProcessor/Worker.cs:134-142 | drains the offset channel as a run of the pipeline |
| TradeWorkers.TradeWorker.PassOn | src/FalconFX.TradeProcessor/Worker.cs:150-164 | one record read and passed on; the loop goes on exactly if it was a trade and the channel had room |
| TradeWorkers.TradeWorker.ConsumeBurst | src/FalconFX.TradeProcessor/Worker.cs:144-165 | the inner loop as a run of the pipeline, and not shorter: it stops only when nothing is there to read, a record has no trade, or the channel is full, and then a trade stays in hand |
| TradeWorkers.TradeWorker.Close | src/FalconFX.TradeProcessor/Worker.cs:173-189 | the loop ends and gives up the trade in hand |
| TradeWorkers.TradeWorker.GatherBatch | src/FalconFX.TradeProcessor/Worker.cs:207 | the batch takes as much of the channel as fits, in order |
| TradeWorkers.TradeWorker.Acknowledged | src/FalconFX.TradeProcessor/Worker.cs:253-265 | the batch is in the table and done, and its last trade is handed back unless the offset channel is closed |
| TradeWorkers.TradeWorker.AttemptBatch | src/FalconFX.TradeProcessor/Worker.cs:217-279 | one attempt is one step of the pipeline |
| TradeWorkers.TradeWorker.PersistBatch | src/FalconFX.TradeProcessor/Worker.cs:209-287 | succeeds exactly when one of the at most five attempts before a cancellation is acknowledged, and makes every attempt up to that, a cancellation or an abort; only then is the last offset handed back |
| Ticker.PushedIsTheEnd | src/FalconFX.TradeProcessor/Worker.cs:63-68 | a channel that drops the oldest always holds the end of what was written, as much as fits |
| Ticker.NextKeeps | src/FalconFX.TradeProcessor/Worker.cs:295-327 | every interleaved write and read keeps the ticker's invariant |
| Ticker.DrainEndsAtTheNewest | src/FalconFX.TradeProcessor/Worker.cs:301-307 | when a drain ends the trade it holds is the newest ever written, and the trades published strictly advance |
| Ticker.QuietExactly | src/FalconFX.TradeProcessor/Worker.cs:301-307 | between drains the last published trade is the newest exactly when the channel is empty |
| Ticker.TickerPublisher.TryWrite | src/FalconFX.TradeProcessor/Worker.cs:161 | never waits and gives up the oldest trade of a full channel |
| Ticker.TickerPublisher.TryRead | src/FalconFX.TradeProcessor/Worker.cs:305 | takes the oldest trade of the channel |
| Ticker.TickerPublisher.Drain | src/FalconFX.TradeProcessor/Worker.cs:301-307 | empties the channel and returns the newest trade ever written |

## Left out

- Trade timestamps, latency and allocation: `Trade` has no timestamp, and array access through `Unsafe` is ordinary access proved in bounds.
- Sides other than Buy and Sell, and a callback that re-enters the book: the callback appends to a log.
- Books.OrderBook.constructor: requires a price window whose number of levels fits 31 bits and a pool of at least one slot, as the code does without checking; `CreateOrderBook` has the check that the code makes.
- Engine.EngineWorker.RunMatchingLoop: cancellation and the retry of a full Kafka queue inside the callback are not modelled, so every trade is produced; the statistics loop and `EnqueueOrderAsync` are left out.
- RiskGate.TradesNearMarket: requires a window that starts at or above zero and limits that keep the sums inside 64 bits (`Guarded`); the engine's are like this (`EngineLaws.EngineIsBounded`).
- RiskGate.BuyWithinNotional: requires also equal original and remaining quantity, as every order has on arrival, and a bound on the product of the largest price near the window and the largest quantity (`Bounded`).
- `KafkaWorker`, the gRPC service and the producers of orders: they only move orders into the channel.
- MessageBuffers.MessageBuffer.Send: the promise a caller awaits is the waiter state of its buffered item, and the length of the serialized message is the length of its text.
- MessageBuffers.MessageBuffer.Resend: taken as one step between two deliveries in `Reconnect`, which `ResendSteps` shows to be right as long as no acknowledgement comes in between; a connection that breaks in the middle of it is a run in which the frames behind the break are dropped.
- Reconnect.ExactlyOnceInOrder: one connection at a time, first in first out; the server is a second copy of the same algorithm; a failed reconnect attempt, which ends the connection, is left out.
- The types of hub messages beyond those that are counted, streams, keep-alive timers, negotiation and the transports themselves.
- Framing.HandshakeCuts: the JSON inside the response is opaque text, so the check of its `type` field is left out.
- TradePipeline.NoTradeLost: Kafka, Postgres and the offset commit are abstract (first in first out per partition without gaps, an atomic copy, stored offsets committed at any time); other members of the consumer group are left out, only their effect of taking a partition away is there.
- TradePipeline.DrainedIsPersisted: that the loops make progress is not stated; a writer that has ended leaves the consumer waiting at a full channel, as in the code.
- Retry delays and their doubling, the connection object, `CREATE TABLE`, logging and metrics of the trade processor.
- Ticker.TickerPublisher.Drain: publishing to Redis may fail and is then only skipped; `picks` are the trades selected for publishing. The payload format is left out.
- Protobuf serializers, dependency injection, health endpoints, the web page and the market-data subscriber.
