# Trading market simulator: verification project

A Dafny model of four parts of the simulator, with proofs of what they keep, over all inputs and
all runs.

- **The order book** (`Words.dfy`, `Orders.dfy`, `Matching.dfy`, `BestExecution.dfy`, `Books.dfy`,
  `BookInvariant.dfy`, `BookRuns.dfy`, `Priority.dfy`). A bounded two-sided book: two sorted vectors and an index
  from order ids to sides. `add` validates, matches, checks for a duplicate id, checks capacity and
  inserts; `try_match` scans, changes quantities, collects ids and deletes afterwards; `remove`
  trusts the index. Proved: the joint invariant of every reachable book, that the scan with its
  deferred deletions is "eat the front", that the allocation is the best possible for the aggressor,
  the quantity ledger, and the priority that equal prices really get.
- **The order generator wired to the book** (`Quoting.dfy`, `Shadow.dfy`, `Traffic.dfy`,
  `FreshIds.dfy`, `Exchange.dfy`). The generator's list of live orders, maintained by answers, cancels and fill callbacks that arrive in
  the middle of `add`, agrees with the book after every action of every run; prices stay in a fixed
  band; every turn sends the orders drawn, and what is drawn over a run is accounted for to the
  last unit; aggressors always trade; at any capacity but zero, the ids of all runs of up to n orders
  are fresh if and only if n is at most 2^32. `Exchange.dfy` holds the two objects, changed in
  place, with each method proved against the value-level operation.
- **The client pipeline** (`Pipeline.dfy`, `PipelineRuns.dfy`, `PipelineHistory.dfy`,
  `PipelineOrders.dfy`, `Client.dfy`). Feed, strategy and
  execution threads as interleaved atomic steps over the running flag, the counters and two bounded
  queues. `Pipeline.dfy` has the steps and their invariants, `PipelineRuns.dfy` what follows for every
  interleaving: lossless handoff, accounting, the two windows in which the connection flag and the
  client differ, giving up after five failures, and a shutdown that ends. `PipelineHistory.dfy` ties the state to
  the history of packets, pushes, pops and attempts, and says what the feed goes on to do;
  `PipelineOrders.dfy` goes from packets to orders: the orders made are those asked for, and some
  run makes them all. `Client.dfy` writes the
  three loops with the source's own control flow and lets the other threads move between any two
  shared accesses. A move of the thread itself can only be made by its own loop, until it has left
  it; every schedule is proved to end where the steps say.
- **The depth-message codec** (`Codec.dfy`). The 32-byte packet: in-place stores, reads, round trips
  both ways.

Where the code and its comments disagree the model follows the code:

- The header calls the book "price-time" (include/mms/exchange/OptionOrderBook.hh:27), but insertion
  goes in front of equal prices, so within a price level the newest order is first and is filled
  first (`Priority.ReachableNewestFirst`, `Priority.LaterFilledFirst`). `Priority.FifoFails` is a
  two-order witness against first-in-first-out, `Priority.FifoIff` says a side is in that order if
  and only if its prices are pairwise distinct, and `Priority.AddKeepsFifoIff` says which calls keep
  it so.
- `add` answers false for a fully filled order just as for a rejected one, and a remainder can be
  discarded after trading, because matching comes before the duplicate-id and full-side checks:
  `BookRuns.DiscardsAfterTradingIff` says exactly when, `BookRuns.DiscardsAfterTrading` gives a
  reachable case.
- `_compute_signal` leaves fields unset when the spread is 0.05 or more. The unset fields are
  arbitrary inputs; `Pipeline.DecisionIsDeterminedIff` shows the outcome depends on the tick alone
  exactly when the spread is tight.

Random draws, `recv` results, reconnection results and the interleaving of the threads are inputs,
restricted only to the ranges the source gives them. The fill callback is a reference to the
generator, null until it is set, as the program wires it.

## Model

| member | source | states |
|---|---|---|
| Orders.EraseAllMembers | include/mms/exchange/OptionOrderBook.hh:238-245 | erasing a list of ids one by one keeps exactly the orders whose id is not listed |
| Matching.EatShape | include/mms/exchange/OptionOrderBook.hh:193-248 | the orders removed are a prefix of the side; at most one survivor changes, it is the new front, only its quantity shrinks, and then the aggressor is used up |
| Matching.EatenAreTradeable | include/mms/exchange/OptionOrderBook.hh:205-214 | only orders at prices the aggressor may trade with are consumed |
| Matching.EatConserves | include/mms/exchange/OptionOrderBook.hh:209-247 | the side loses exactly the quantity the aggressor takes |
| Matching.EatExhausts | include/mms/exchange/OptionOrderBook.hh:203-247 | on a sorted side the quantity traded is the lesser of the aggressor's and the tradeable depth, and an aggressor left over faces no tradeable price |
| Matching.FullScanIsEarlyExit | include/mms/exchange/OptionOrderBook.hh:203-236 | on a sorted side, scanning on past a non-tradeable order gives the same vector, ids and aggressor as stopping there |
| Matching.EarlyExitIsEat | include/mms/exchange/OptionOrderBook.hh:203-236 | the ids collected are those of the orders eaten, in priority order, and the scanned vector behind them is the side left |
| Matching.FillsAreEat | include/mms/exchange/OptionOrderBook.hh:203-247 | taking the greedy per-order allocation off the side and dropping emptied orders is what matching leaves; its sum is the quantity traded |
| Matching.FillsFeasible | include/mms/exchange/OptionOrderBook.hh:205-229 | no order gives up more than it offers, and only at tradeable prices |
| Matching.FrontFillsFirst | include/mms/exchange/OptionOrderBook.hh:203-236 | an order is touched only after every order in front of it has been filled completely |
| BestExecution.MarginalPrice | include/mms/exchange/OptionOrderBook.hh:203-236 | the allocation has a marginal price: what is not emptied is priced no better, what is touched no worse |
| BestExecution.ValueGap | include/mms/exchange/OptionOrderBook.hh:203-236 | moving to any other feasible allocation costs at least the marginal price per unit moved in and saves at most it per unit moved out |
| BestExecution.BestExecution | include/mms/exchange/OptionOrderBook.hh:193-248 | among all ways of taking the same quantity from a sorted side, matching's is cheapest for a bid and brings most for an ask |
| Books.FindSlot | include/mms/exchange/OptionOrderBook.hh:166-168 | the slot found is behind every better price and in front of the first price that is equal or worse |
| Books.RemoveLinked | include/mms/exchange/OptionOrderBook.hh:176-189 | while the index is in step, the unchecked erase always has a real element, and the index stays in step |
| Books.RemovePrefix | include/mms/exchange/OptionOrderBook.hh:238-245 | removing the first k orders of a side through the index, one by one, cuts off that prefix and leaves the other side alone |
| BookInvariant.ScanMarksPrefix | include/mms/exchange/OptionOrderBook.hh:203-236 | the scan keeps every order in its place, collects the ids of a prefix, and leaves behind it the side that eating the front leaves |
| BookInvariant.DeferredDeletionIsExact | include/mms/exchange/OptionOrderBook.hh:200-245 | full scan plus deferred deletions gives the same vectors and index as cutting the consumed prefix, the other side untouched |
| BookInvariant.CallbacksAreExact | include/mms/exchange/OptionOrderBook.hh:238-245 | the ids collected, and so notified, are those of the orders consumed, in priority order, each once |
| BookInvariant.MatchKeepsInv | include/mms/exchange/OptionOrderBook.hh:193-248 | matching keeps the joint invariant |
| BookInvariant.RestKeepsInv | include/mms/exchange/OptionOrderBook.hh:146-171 | inserting a valid, fresh order that can trade with nobody keeps the joint invariant |
| BookInvariant.AddKeepsInv | include/mms/exchange/OptionOrderBook.hh:124-172 | add keeps the joint invariant for any order: sorted, uncrossed, ids distinct, index exact, quantities positive, prices valid, within capacity |
| BookInvariant.RemoveKeepsInv | include/mms/exchange/OptionOrderBook.hh:176-189 | remove keeps the joint invariant for any id |
| BookRuns.ReachableInv | include/mms/exchange/OptionOrderBook.hh:73-189 | every book reached by any sequence of calls to add, remove and the public try_match satisfies the joint invariant, so no side outgrows its reserve |
| BookRuns.NeverCrossed | include/mms/exchange/OptionOrderBook.hh:124-189 | in every reachable book each resting bid is priced strictly below each resting ask |
| BookRuns.NothingInvalidRests | include/mms/exchange/OptionOrderBook.hh:124-127 | in every reachable book no price is the least 32-bit number and every quantity is positive |
| BookRuns.TurnedAwayIff | include/mms/exchange/OptionOrderBook.hh:124-127 | an order is turned away, with the book as it was, if and only if its price is the least 32-bit number or its quantity is zero |
| BookRuns.TradeIsGreedy | include/mms/exchange/OptionOrderBook.hh:132-140 | one add trades min(order, tradeable depth) and leaves the opposite side less the greedy fills |
| BookRuns.TradeIsBest | include/mms/exchange/OptionOrderBook.hh:132-140 | no other allocation of what one add trades is better for its sender |
| BookRuns.AddConserves | include/mms/exchange/OptionOrderBook.hh:124-171 | resting before + submitted = resting after + twice traded + discarded, for any order, and only the invalid, duplicate and full branches discard |
| BookRuns.DiscardsAfterTradingIff | include/mms/exchange/OptionOrderBook.hh:132-164 | an add discards a remainder after trading if and only if the order exceeds a non-zero tradeable depth and its id stays in the book or its side is full |
| BookRuns.DiscardsAfterTrading | include/mms/exchange/OptionOrderBook.hh:132-155 | a reachable book and a bid of two that trades one, meets its own id and loses the other |
| BookRuns.RemoveConserves | include/mms/exchange/OptionOrderBook.hh:176-189 | remove takes exactly the cancelled order's quantity out of the book |
| BookRuns.LedgerBalances | include/mms/exchange/OptionOrderBook.hh:124-189 | over every run of add, remove and try_match: submitted = resting + cancelled + discarded + 2 x traded, a bare try_match submitting what it takes |
| Priority.ReachableNewestFirst | include/mms/exchange/OptionOrderBook.hh:166-168 | in every reachable book, orders of equal side and price stand newest first |
| Priority.LaterFilledFirst | include/mms/exchange/OptionOrderBook.hh:166-168 | at one price the earlier order is touched only after the later one is emptied |
| Priority.FifoFails | include/mms/exchange/OptionOrderBook.hh:27 | a run of two asks in which the second to arrive is filled and the first is not: the FIFO reading fails |
| Priority.FifoIff | include/mms/exchange/OptionOrderBook.hh:166-168 | in every reachable book a side stands oldest first at equal prices if and only if its prices are pairwise distinct |
| Priority.AddKeepsFifoIff | include/mms/exchange/OptionOrderBook.hh:146-171 | an add that rests keeps its side oldest first if and only if no order of that side already rests at its price |
| BookRuns.AddThenRemove | include/mms/exchange/OptionOrderBook.hh:124-189 | removing an accepted order that traded nothing restores both vectors and the index exactly |
| BookRuns.RemovalsCommute | include/mms/exchange/OptionOrderBook.hh:176-189 | removals of two different ids commute |
| Quoting.ToI32 | include/mms/market/Price.hh:14-18 | the 32-bit price of a number: itself when it fits, congruent otherwise |
| Quoting.BestPrice | src/mms/exchange/OptionOrderGenerator.cc:51-62 | the price returned occurs in the list and none is better |
| Quoting.PriceBand | src/mms/exchange/OptionOrderGenerator.cc:43-89 | whatever the callbacks answer, every tracked bid and ask of every run stays in its band |
| Quoting.AggressorInBand | src/mms/exchange/OptionOrderGenerator.cc:79-89 | an aggressor made from a list in the band is in the band, valid, and priced by exactly the offset: nothing wraps |
| Quoting.QuoteInBand | src/mms/exchange/OptionOrderGenerator.cc:65-77 | a quote is in the band, valid, and priced by exactly the jitter |
| Quoting.BandIsExact | src/mms/exchange/OptionOrderGenerator.cc:43-89 | no run ever overflows a price or hits the sentinel - quoting, falling back or pricing an aggressor - if and only if the band fits in 32 bits above the sentinel |
| Shadow.MatchAgrees | include/mms/exchange/OptionOrderBook.hh:238-245 | once the fills of a match have been notified, the list agrees with the matched book |
| Shadow.SendAgrees | src/mms/exchange/OptionOrderGenerator.cc:135-143 | sending one order - fills first, then tracking if accepted - keeps list and book in agreement |
| Shadow.RemoveAgrees | src/mms/exchange/OptionOrderGenerator.cc:123-129 | a cancel keeps list and book in agreement |
| Shadow.ShadowAgrees | src/mms/exchange/OptionOrderGenerator.cc:114-148 | after every action of every run: tracked ids distinct and exactly the resting ones, same side and price, 1 <= book quantity <= tracked quantity |
| Shadow.BestPricesAgree | src/mms/exchange/OptionOrderGenerator.cc:43-63 | in every reachable state the scanned best bid and ask are the front prices of the book's non-empty sides |
| Shadow.CancelsSucceed | src/mms/exchange/OptionOrderGenerator.cc:91-97 | every id picked for cancelling is in the book |
| Shadow.RunIsGenRun | src/mms/market_data/generator_main.cc:44-53 | the wired generator is one instance of the generator with arbitrary callback answers |
| Shadow.RunInBand | src/mms/exchange/OptionOrderGenerator.cc:114-148 | the wired system stays in the price band |
| Shadow.AggressorTrades | src/mms/exchange/OptionOrderGenerator.cc:79-89 | an order priced some offset past the best opposite price trades if and only if the offset is not negative |
| Shadow.AggressorsAlwaysTrade | src/mms/exchange/OptionOrderGenerator.cc:79-89 | in every reachable state with a non-empty opposite side the generated aggressor consumes at least one unit |
| Traffic.QuoteTurn | src/mms/exchange/OptionOrderGenerator.cc:65-77 | a turn of quoting sends a bid, then an ask, of the drawn quantities, the drawn jitters from the middle, under the next two counter values |
| Traffic.AggressTurn | src/mms/exchange/OptionOrderGenerator.cc:79-89 | in every reachable state a turn of aggression sends one order of the drawn side and quantity under the next counter value, the offset past the front of the other side of the book, or past the edge of the spread when that side is empty |
| Traffic.CancelTurn | src/mms/exchange/OptionOrderGenerator.cc:91-97 | in every reachable state each live order can be picked, and its cancel takes it alone from the list and its id from the book |
| Traffic.RunIsBookRun | src/mms/exchange/OptionOrderGenerator.cc:114-148 | the book of the wired system is the book after exactly the calls its turns make |
| Traffic.RunLedger | src/mms/exchange/OptionOrderGenerator.cc:114-148 | over every run of the wired system: quantity drawn = resting + cancelled + discarded + 2 x traded |
| FreshIds.CounterIsCount | src/mms/exchange/OptionOrderGenerator.cc:18-29 | while fewer than 2^32 orders have been made the counter is their number and every resting id lies between one and it |
| FreshIds.NeverDuplicate | include/mms/exchange/OptionOrderBook.hh:149-155 | no order up to and including the 2^32nd, whose id is zero, takes the duplicate-id branch |
| FreshIds.FreshnessEnds | include/mms/exchange/OptionOrderBook.hh:149-155 | at every capacity from one on, a run of 2^32 + 1 orders whose last one takes the duplicate-id branch |
| FreshIds.FreshExactly | src/mms/exchange/OptionOrderGenerator.cc:18-29 | at each capacity, no run of up to n orders ever takes the duplicate-id branch if and only if n <= 2^32 or the capacity is zero |
| Exchange.OptionOrderBook.HasOrder | include/mms/exchange/OptionOrderBook.hh:94-97 | true if and only if an order with the id rests on either side |
| Exchange.OptionOrderBook.Remove | include/mms/exchange/OptionOrderBook.hh:176-189 | the new vectors and index are those of the specification; the answer is whether the id was known |
| Exchange.OptionOrderBook.ScanOpposite | include/mms/exchange/OptionOrderBook.hh:195-236 | the loop leaves the vector, the collected ids and the remaining quantity of the full scan; no unsigned subtraction wraps |
| Exchange.OptionOrderBook.RemoveOne | include/mms/exchange/OptionOrderBook.hh:239-245 | one collected id is removed through the index and, if a callback is set, notified once |
| Exchange.OptionOrderBook.RemoveAll | include/mms/exchange/OptionOrderBook.hh:238-245 | each collected id is removed through the index and notified once, in order |
| Exchange.OptionOrderBook.TryMatch | include/mms/exchange/OptionOrderBook.hh:193-248 | the book becomes the one with the consumed prefix cut off; the callback fires once per consumed order in priority order; the answer is the quantity traded |
| Exchange.OptionOrderBook.RestRemainder | include/mms/exchange/OptionOrderBook.hh:146-171 | the index entry is taken back when the side is full; otherwise the order rests |
| Exchange.OptionOrderBook.Add | include/mms/exchange/OptionOrderBook.hh:124-172 | new state, answer and fill notifications are those of the specification, and the invariant holds |
| Exchange.OptionOrderGenerator.NotifyFill | src/mms/exchange/OptionOrderGenerator.cc:104-107 | the id leaves the list and is the next one seen |
| Exchange.OptionOrderGenerator.MakeOrder | src/mms/exchange/OptionOrderGenerator.cc:18-29 | the id is the pre-incremented counter, modulo 2^32 |
| Exchange.OptionOrderGenerator.GenerateMmOrder | src/mms/exchange/OptionOrderGenerator.cc:65-77 | the order is the specified quote: drawn side and quantity, next counter value |
| Exchange.OptionOrderGenerator.GenerateAggressorOrder | src/mms/exchange/OptionOrderGenerator.cc:79-89 | the order is the specified aggressor: drawn side and quantity, next counter value |
| Exchange.OptionOrderGenerator.Submit | src/mms/exchange/OptionOrderGenerator.cc:135-143 | callbacks reach the list in the middle of add, tracking follows the answer: one send of the specification |
| Exchange.OptionOrderGenerator.Act | src/mms/exchange/OptionOrderGenerator.cc:121-144 | one turn of the loop is one step of the specification |
| Exchange.OptionOrderGenerator.Run | src/mms/exchange/OptionOrderGenerator.cc:114-148 | the loop's final state of both objects is that of the specified run |
| Exchange.RunExchange | src/mms/market_data/generator_main.cc:44-57 | the program's wiring and a run: list and book agree at the end |
| Pipeline.DecisionIsDeterminedIff | src/mms/app/Core.cc:263-314 | the order a tick leads to depends on the tick alone if and only if its spread is below 0.05 |
| Pipeline.StepKeepsInv | src/mms/app/Core.cc:174-260 | every atomic step of every thread keeps the invariant, whatever the others are in the middle of |
| Pipeline.ReachableInv | src/mms/app/Core.cc:118-130 | the invariant holds under every interleaving of one run |
| PipelineRuns.LosslessHandoff | src/mms/market/MarketFeed.cc:155-175 | counted ticks are, in order, those popped, those queued and at most one more, lost only if the flag has fallen and the queue was found full |
| PipelineRuns.LosesATick | src/mms/market/MarketFeed.cc:163-175 | the bound is tight: at every capacity a run loses a counted tick |
| PipelineRuns.ReceivesConnected | src/mms/market/MarketFeed.cc:59-147 | the feed receives only through a client announced as connected; the flag and the existence of a client differ exactly between dropping a lost client and clearing the flag, and between making a new client and announcing its connection |
| PipelineRuns.RetriesAreFailures | src/mms/market/MarketFeed.cc:104-125 | the local retry counter is the number of attempts of the history that have failed in a row |
| PipelineRuns.AtMostFiveFailures | src/mms/market/MarketFeed.cc:104-132 | in the history of attempts to reconnect never more than five in a row fail |
| PipelineRuns.GivesUpAfterFive | src/mms/market/MarketFeed.cc:105-132 | the feed lowers the flag itself only when the last five attempts of the history all failed |
| PipelineRuns.FlagFallsOnce | src/mms/app/Core.cc:332-357 | once down, the flag stays down |
| PipelineRuns.LeavesOnlyStopped | src/mms/app/Core.cc:181-222 | a thread leaves its loop only once the flag is down |
| PipelineRuns.PipelineAccounting | src/mms/app/Core.cc:185-243 | signals counted + pushed but uncounted = orders counted + signal queue + popped but uncounted, at every step |
| PipelineRuns.OrdersFollowTicks | src/mms/app/Core.cc:174-314 | order k has id k + 1 and is what the tick at the k-th of strictly increasing positions asks for: a tight tick with mid below 190 a purchase of 100 at its ask, above 190.0005 a sale of 100 at its bid |
| PipelineRuns.AtShutdown | src/mms/app/Core.cc:181-248 | when all threads have left their loops nothing is in flight, every tick and signal is accounted for, and if none was dropped the signals taken and queued are exactly those asking for an order, in order |
| PipelineRuns.ShutdownEnds | src/mms/market/MarketFeed.cc:168-174 | once the flag is down the feed has left after six of its own moves, the strategy after five, the execution after four, whatever the others do |
| PipelineRuns.ShutdownAccounts | src/mms/app/Core.cc:332-357 | so every stopped client comes to rest with every tick and signal accounted for, and, if none was dropped, no signal skipped |
| PipelineHistory.FeedIsHistory | src/mms/market/MarketFeed.cc:137-175 | over every run: counted ticks are the whole packets received, in order; ticks popped and queued are those whose push met room; the full-queue counter is the number of first pushes that met a full queue; lost ticks are those whose spin met the fallen flag; client and flag follow the last connection event but for the two windows |
| PipelineHistory.NoReceiptUntilReconnected | src/mms/market/MarketFeed.cc:137-147 | after a lost connection the feed does not receive again until an attempt has succeeded |
| PipelineHistory.LossLeadsToRetry | src/mms/market/MarketFeed.cc:137-147 | two moves after the report of a lost connection the feed is in the retry loop, whatever the others do |
| PipelineHistory.RetryLeadsToAttempt | src/mms/market/MarketFeed.cc:104-125 | while retries are left each test of the retry loop leads to an attempt |
| PipelineHistory.ConnectionLeadsToReceipt | src/mms/market/MarketFeed.cc:127-137 | a connection made leads back to receiving |
| PipelineHistory.RoomLetsTickIn | src/mms/market/MarketFeed.cc:168-174 | a feed spinning while the queue has room again has handed its tick over after two moves of its own |
| PipelineHistory.IncompleteChangesNothing | src/mms/market/MarketFeed.cc:149-153 | an incomplete packet leaves the whole state as it was |
| PipelineHistory.StrategyIsHistory | src/mms/app/Core.cc:181-199 | over every run: popped ticks are the fronts found by pops, pushed signals those whose push met room, and the number dropped is that of pushes that met a full queue |
| PipelineHistory.RoomDropsNone | src/mms/app/Core.cc:188-199 | while the signal queue never fills no signal is dropped |
| PipelineHistory.ExecutionIsHistory | src/mms/app/Core.cc:222-243 | over every run: the signals taken are the fronts found by pops |
| PipelineOrders.SignalsFollowTicks | src/mms/app/Core.cc:254-298 | each signal computed in any run carries the symbol and time of its tick, and for a tight tick the type, price and quantity its mid calls for |
| PipelineOrders.OrdersAreWanted | src/mms/app/Core.cc:174-314 | in every run without a drop the orders made are, in order and numbered from one, the first of those the packets received ask for, and those missing are exactly in flight |
| PipelineOrders.EveryTickAnswered | src/mms/app/Core.cc:174-314 | at all capacities but zero, for any ticks, there is a run that takes exactly these and sends every order they ask for |
| Client.Core.TryReconnect | src/mms/market/MarketFeed.cc:59-84 | one attempt, interrupted anywhere, ends connected and announced, or without a client and one failure further |
| Client.Core.RetryLoop | src/mms/market/MarketFeed.cc:104-125 | the retry loop, interrupted anywhere, takes its own steps and no others, and ends with a connection, after the fifth failure, or with the flag down |
| Client.Core.Spin | src/mms/market/MarketFeed.cc:168-174 | the spin on a full queue takes its own steps and no others, and ends with the tick at the back of the queue, or with the flag down and the tick lost |
| Client.Core.ReceiveLoop | src/mms/market/MarketFeed.cc:86-178 | under any schedule of interference the receive loop makes every move of the feed until it has left, and all end in the state of the pipeline's run |
| Client.Core.RunStrategy | src/mms/app/Core.cc:174-209 | the same for the strategy loop |
| Client.Core.RunExecution | src/mms/app/Core.cc:222-250 | the same for the execution loop |
| Client.RunThread | src/mms/app/Core.cc:118-130 | whichever thread runs as its loop, making all its moves itself, every schedule from start ends in the pipeline's state, with its invariant |
| Codec.Halves64 | src/mms/market_data/MarketDepthGenerator.cc:126-136 | the bytes stored by the flat shifts are those of the two halves the reader assembles |
| Codec.FieldInPlace | include/mms/structs/Structs.hh:205-234 | each field's bytes stand at its offset |
| Codec.EachByteOnce | include/mms/structs/Structs.hh:205-234 | every byte of the packet belongs to exactly one field and is that field's byte |
| Codec.PacketBytes | src/mms/market_data/MarketDepthGenerator.cc:85-136 | the packet byte by byte: type 1, version 1, a length field equal to the packet's own length, every number most significant byte first, prices in two's complement |
| Codec.RoundTrip | src/mms/market_data/MarketDepthConsumer.cc:40-62 | decoding an encoded message returns every field the wire carries, signed prices over their full range |
| Codec.ReadsBytes | src/mms/market_data/MarketDepthConsumer.cc:40-62 | any packet read byte by byte, the option's own flags as zero |
| Codec.HeaderIsIgnored | src/mms/market_data/MarketDepthConsumer.cc:40-62 | two packets are read alike if and only if they agree behind the header, which is not validated |
| Codec.ReEncode | src/mms/market_data/MarketDepthGenerator.cc:85-105 | re-encoding what was decoded from any packet with the right header reproduces it byte for byte |
| Codec.SamePacketIff | src/mms/market_data/MarketDepthGenerator.cc:85-105 | two messages make the same packet if and only if they are received alike |
| Codec.WriteU16 | src/mms/market_data/MarketDepthGenerator.cc:112-116 | two bytes are stored big-endian at the offset and no other byte changes |
| Codec.WriteU32 | src/mms/market_data/MarketDepthGenerator.cc:118-124 | four bytes are stored big-endian at the offset and no other byte changes |
| Codec.WriteU64 | src/mms/market_data/MarketDepthGenerator.cc:126-136 | eight bytes are stored big-endian at the offset and no other byte changes |
| Codec.Serialize | src/mms/market_data/MarketDepthGenerator.cc:85-105 | the in-place stores produce the encoding |
| Codec.Deserialize | src/mms/market_data/MarketDepthConsumer.cc:40-62 | the field-by-field reads produce the decoding |
| Codec.SendAndReceive | src/mms/market_data/MarketDepthConsumer.cc:21 | what is deserialized from a stored packet is the message sent |

## Left out

- Quoting.ToI32: signed overflow of a price is undefined in the source; the model wraps, and `Quoting.BandIsExact` says exactly when it cannot happen.
- Codec.SendAndReceive: does not model the receive call and the queue push around the deserialization, because both are I/O of a library that is not shown.
- Order payload: the symbol, receive time and flags of an order are never read by the book or the generator.
- Generator timing and action weights: any sequence of actions is allowed, which includes every weighting; the `seed` call for tests is not modelled.
- Sockets, UDP and TCP calls, logging, printing, timers and thread affinity.
- The SPSC queue's, bump allocator's, hash map's and random generator's own code is not part of this model; they are a bounded FIFO, a sequence, a map and arbitrary draws.
- Memory orders: the pipeline's steps are sequentially consistent, for one start-to-stop run; restart flags and exception paths are absent.
- Floating point: market prices and spreads are reals; the 64-bit counters of the pipeline do not wrap.
- The clock readings in messages and orders, and the sample data of `generate_depth_message`.
- Option pricing, pay-offs, configuration parsing, the depth book and the legacy order type.
