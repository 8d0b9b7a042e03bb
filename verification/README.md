# A verified model of the exchange

This project models, in Dafny, the three parts of the exchange whose correctness is not obvious from
any one function: the matching engine, the lock-free ring buffer between its threads, and the
resumable parser that turns a client's byte stream into order messages. Run
`dafny verify dfyconfig.toml` to check every proof.

## The matching engine

`FlatBook` is the specification: one priority-ordered sequence of orders per side, swept greedily by a
recursive function; no levels, no cached totals, no index. `PriceLevels` and `OrderBooks` hold the engine as
it is written: classes whose methods update price levels, cached totals, the id index, the tape, the id
counter and the event stream in place. Every method is proved to do to the flat book what the
specification says (`OrderBooks.OrderBook.ProcessMessage`), and to keep the redundant structures in agreement.
`LevelViews` and `LevelBooks` are the layer between: sides of levels as values, and why each step on them is a
step on a queue. `Canonical` shows that a flat book has one representation, so whatever restores the queues restores
levels, totals and index. `MessageConsumer` is the engine's thread.

About the flat book, and therefore about the engine, the remaining modules prove laws of every run:
an uncrossed, well-formed book (`BookInvariant`), a balanced ledger and no 64-bit overflow between messages or
inside sweeps (`Ledger`), price-time priority in closed form (`PriorityLaws`) and over whole runs (`TimePriority`),
the algebra of sweeps and fill-or-kill (`SweepAlgebra`), a public feed that rebuilds the book (`MarketData`), a private
feed per connection that follows its protocol (`PrivateFeed`), what an owner may believe of it (`OwnerFeed`), legal
trades, queue positions, undo and modification (`QueueLaws`).

Two modules say what the specification's own functions must mean, in prices, quantities and literal events, without
calling them: `Outcomes` (what an order reaches and executes, who is left when it stops, where its remainder stands) and
`Answers` (every event of every fill, and the one event with which each message is answered). `Wire` does the same for
bytes, and `Decoder.FrameMeans` for frames.

The engine throws for a non-positive quantity, and for a non-positive price once a remainder has to rest.
`FlatBook.Accepts` is the condition under which it does not, and is the only thing the runs below demand of
their messages; FlatBook.Available, which it uses, is a sum over the other side that needs no matching.

## What does not hold

Six properties one would expect do not hold of the code. For each there is an input on which it fails, and the
exact condition under which it holds, in both directions:

- **Fill-or-kill is all or nothing.** It is checked for limit orders only: a market order tagged fill-or-kill trades
  what it finds (`SweepAlgebra.MarketFillOrKillPartlyFills`). All-or-nothing holds if and only if it is not a market
  order that reaches some quantity but less than its own (`SweepAlgebra.FillOrKillExactly`).
- **An owner is told what rests, and at what price.** An event goes to the connection of the message that caused it,
  and nobody checks that a cancellation or modification comes from the owner. A stranger's cancellation leaves the
  owner believing in an order that is gone (`FeedQuirks.AStrangerCancels`), a stranger's modification in a price that
  the order no longer has (`FeedQuirks.AStrangerReprices`). A partly filled market order tagged good-till-cancel is told
  that the rest of it rests (`FeedQuirks.GtcMarketIsMisreported`). An order modified to a price that crosses is told the
  quantity asked for, not what is left (`FeedQuirks.CrossingModifyIsMisreported`). What an owner believes is a quantity,
  as the events tell it, and a price: the one asked for, until a modification is heard of. `OwnerFeed.ExactIffFaithful`:
  one message keeps every owner's belief true if and only if it is `OwnerFeed.Faithful`; `OwnerFeed.FeedTellsTheBook`
  says the same of whole runs and one owner's connection.
- **A waiting pop that has its permit finds an item.** Not after plain pops (`RingPermits.MixedPopsWaste`). From any
  state of any run, waiting pops alone can never waste a permit if and only if every permit left over by a plain pop
  has been wasted already and no plain pop is under way (`RingPermits.NeverWastesExactly`; a ring of one slot, which
  holds nothing, is the one exception).
- **The parser resynchronises after any unknown message type**, as the repository's README says. It does so only while
  the announced length is at most 1024, the size of the buffer. Beyond that, with bytes enough behind, the connection
  stops for ever (`ConnectionProgress.UnknownOversizedJams`, `JamIsForever`). A stream is received to its end if and
  only if every payload on the way fits (`ConnectionProgress.ReceivesExactly`).
- **A message received is parsed.** A wakeup parses four frames at most, and the reactor wakes a connection only for
  bytes in the socket. Five cancellations sent at once, 55 bytes, leave the fifth in the buffer until the client sends
  something else (`Delivery.FiveCancelsAtOnce`). Nothing complete is left waiting if and only if no last stretch of
  wakeups completes more than four frames for each of them (`ConnectionPace.NothingWaitsExactly`); for pieces received
  whole, 1024 bytes in all, that is a condition on the pieces alone (`Delivery.SmallPiecesKeepPace`). A client that sends
  four messages at most before it lets the server receive them is served in full, for streams of any length
  (`Bursts.FourMessagesAtATime`).
- **A message parsed reaches the engine.** It is pushed onto a ring of 128 slots and the result of the push is dropped.
  The engine gets exactly the messages offered while fewer than 127 waited
  (`MessageQueues.EngineGetsOffersWithRoom`), which are all if and only if that held at every offer
  (`MessageQueues.NothingLostExactly`), under every interleaving of the two threads' steps
  (`RingRuns.EngineGetsOffersUnderEveryInterleaving`); a burst that the engine is too slow for loses its end
  (`MessageQueues.BurstLosesTheRest`).

## The ring buffer

`RingSteps` is a transition system with one step per atomic load, atomic store, semaphore operation, and
beginning and end of a slot access. Both threads keep copies of the indices that go stale; a slot being
written holds anything, and a read that a write overlaps returns anything. Theorems quantify over every
interleaving. `RingPermits` is about the semaphore beside it. `BitMask` justifies the index arithmetic from the
compile-time check on the capacity, bit by bit, including the wrap of an unsigned subtraction. `RingBuffers` is the
class itself, used by one thread at a time; `MessageQueues` and `MessageSinks` are the ring between parser and
engine, with a log of what both did to it in whatever order. `RingRuns` lifts the refinement to whole runs and derives
that log from the interleaved steps.

## The parser

`Wire` is the byte format, every byte of every message included. `Decoder.Decode` says what a whole byte stream means. `Connections` is a connection
as a transition system with the kernel's queue; `ClientStates`, `MsgParsers` and `Clients` are the code: a fixed
array compacted in place, a parser that suspends in mid message, a limit of messages per wakeup. They are
proved to do exactly the steps of the transition system, whose runs deliver the decoding of what was parsed,
however it was cut up. `ConnectionProgress`, `ConnectionPace`, `Delivery` and `Bursts` settle what is received, what of it is
parsed, and what of a client's messages is delivered, over the wakeups that the reactor makes: those with bytes in
the socket.

`Pipeline` puts everything together: orders sent as bytes, in whatever pieces, received, parsed, offered to the ring
while the engine takes from it whenever it runs. The book ends where the specification's run over the messages that
found room ends, and the engine gets all that was sent if and only if the two conditions on pace and room hold.

## Model

| member | source | states |
|---|---|---|
| `MessageConsumer.ConsumeMessages` | engine/message_consumer.cpp:6-23 | polling or waiting, until the server stops and the queue is empty: every pending message is taken, in order, and the book goes to where the specification's run over all messages taken leads; demands only that the engine accepts what is pending where it comes to it |
| `MessageConsumer.ConsumeOne` | engine/message_consumer.cpp:13-21 | one round: the oldest pending message is taken and processed, or nothing changes; without a time-out it fails only on an empty queue |
| `OrderBooks.OrderBook.ProcessAll` | engine/message_consumer.cpp:19-21 | processing any list of messages takes the engine from any legal state to the one the flat specification's run reaches: sides in priority order, tape, id counter and events |
| `OrderBooks.OrderBook.ProcessMessage` | include/orderbook/order_book.tpp:306-309 | any one message refines the specification's step and keeps levels, totals and index in agreement |
| `OrderBooks.OrderBook.ProcessAdd` | include/orderbook/order_book.tpp:228-274 | a new order gets the next id, enters, and its sender hears the event its status calls for |
| `OrderBooks.OrderBook.EnterUnderNextId` | include/orderbook/order_book.tpp:230-246 | the id handed out is on no resting order, and the order enters under it |
| `OrderBooks.OrderBook.ReportAdd` | include/orderbook/order_book.tpp:248-273 | which private event follows from status and time in force; `Answers.AddIsAnswered` says what it means |
| `OrderBooks.OrderBook.ProcessModify` | include/orderbook/order_book.tpp:276-290 | modifying an id that rests withdraws it and enters its replacement; of any other id it only rejects |
| `OrderBooks.OrderBook.ProcessCancel` | include/orderbook/order_book.tpp:292-304 | cancelling an id that rests withdraws it; of any other id it only rejects; `Answers.CancelIsAnswered` gives the events |
| `OrderBooks.OrderBook.Modify` | include/orderbook/order_book.tpp:214-226 | succeeds exactly for resting ids; the book is that of withdrawing and entering the replacement |
| `OrderBooks.OrderBook.CancelOrder` | include/orderbook/order_book.tpp:194-205 | succeeds exactly for resting ids; level, total, index and event follow |
| `OrderBooks.OrderBook.CancelOrderSide` | include/orderbook/order_book.h:216-234 | the order leaves its level, an emptied level leaves the side, the update announces the new depth |
| `OrderBooks.OrderBook.FindOrder` | include/orderbook/order_book.tpp:207-212 | the index finds exactly the resting orders, each as it stands in its queue |
| `OrderBooks.OrderBook.Add` | include/orderbook/order_book.tpp:124-128 | entering refines the specification, and the status Failed cannot come out |
| `OrderBooks.OrderBook.AddLimitOrder` | include/orderbook/order_book.tpp:77-109 | fill-or-kill check, sweep, rest of a good-till-cancel remainder, result |
| `OrderBooks.OrderBook.AddMarketOrder` | include/orderbook/order_book.tpp:111-117 | a market order is its sweep and never rests |
| `OrderBooks.OrderBook.CanFullyFill` | include/orderbook/order_book.tpp:71-75 | the check, which sees cached totals only, is true if and only if the order-by-order sweep would fill the order |
| `OrderBooks.OrderBook.CanFullyFillAgainstSide` | include/orderbook/order_book.h:236-255 | how far the loop looks, and that it compares the sum of those totals with the order |
| `OrderBooks.OrderBook.MatchLimitOrderAgainstSide` | include/orderbook/order_book.h:165-189 | the nested loops terminate and reach exactly the outcome of the recursive sweep |
| `OrderBooks.OrderBook.MatchMarketOrderAgainstSide` | include/orderbook/order_book.h:191-214 | the same for market orders |
| `OrderBooks.OrderBook.ExecuteTrade` | include/orderbook/order_book.tpp:140-192 | one fill with the front of the best level is one trade with the first maker of the queue: tape, three events, index, totals, both remainders |
| `OrderBooks.OrderBook.TradeWithFront` | include/orderbook/order_book.tpp:141-192 | the fill's effect on the order, the level, the index, the tape and the events |
| `OrderBooks.OrderBook.AddOrderToSide` | include/orderbook/order_book.h:143-163 | a remainder takes its place in the queue and the index; a filled order changes nothing; insertion cannot fail |
| `OrderBooks.OrderBook.LevelQuantity` | include/orderbook/order_book.tpp:45-53 | the cached total of a price, or zero without a level, is the sum of the remainders resting there |
| `OrderBooks.OrderBook.BestPrice` | include/orderbook/order_book.tpp:22-32 | the first level's price is the price of the first order of the queue; there is none exactly when the side is empty |
| `OrderBooks.OrderBook.FromMatch` | include/orderbook/order_book.h:27-87 | the four statuses of a result, and Failed for a refused insertion |
| `OrderBooks.LowerBoundFinds` | include/orderbook/order_book.h:101-102 | in a map sorted best first, a price is found at its own level |
| `PriceLevels.PriceLevel.AddOrder` | orderbook/price_level.cpp:27-44 | the order joins the back and the cached total stays the sum |
| `PriceLevels.PriceLevel.EraseOrder` | orderbook/price_level.cpp:46-49 | the order leaves wherever it stands and the cached total stays the sum |
| `PriceLevels.PriceLevel.FillFrontOrder` | orderbook/price_level.cpp:63-74 | the front is reduced, gone if nothing is left, and the cached total stays the sum |
| `PriceLevels.Order.constructor` | orderbook/order.cpp:3-29 | a new order has everything left and nothing filled |
| `PriceLevels.Order.FromReplacement` | include/orderbook/order.h:24-40 | a replacement keeps owner, ids, side, conditions and arrival number |
| `LevelBooks.FillKeepsAll` | include/orderbook/order_book.tpp:140-192 | one fill keeps sorted levels, exact totals, the exact index and the outcome of the whole sweep |
| `LevelBooks.RestKeepsAll` | include/orderbook/order_book.h:143-163 | joining or opening a level is insertion into the queue, and keeps everything in agreement |
| `LevelBooks.DepartKeepsAll` | include/orderbook/order_book.h:216-234 | leaving a level, and closing it if empty, is removal from the queue, and keeps everything in agreement |
| `LevelBooks.LocateLevel` | include/orderbook/order_book.h:21-25 | the location stored for an id names the level that holds it |
| `LevelBooks.TotalsDecide` | include/orderbook/order_book.h:236-255 | cached totals of the accepted levels suffice if and only if the sweep fills the order |
| `LevelViews.DepthOfLevel` | include/orderbook/order_book.tpp:45-53 | the depth of the queue at a level's price is that level's cached total |
| `LevelViews.JoinLevel` | orderbook/price_level.cpp:40-43 | appending to the level of one's price is joining the queue behind everyone at that price |
| `LevelViews.TradeOnceInLevels` | include/orderbook/order_book.tpp:140-192 | what one fill does to the first level is what a trade does to the queue |
| `BookInvariant.ProcessKeepsInv` | include/orderbook/order_book.tpp:228-309 | every accepted message keeps priority order, unique ids below the counter, positive remainders and an uncrossed book |
| `BookInvariant.NeverCrossed` | include/orderbook/order_book.h:101-102 | after every run bids fall, asks rise, and every bid is below every ask |
| `BookInvariant.SweepExecutes` | include/orderbook/order_book.h:165-189 | a sweep executes exactly the smaller of what is wanted and what is within reach |
| `Ledger.ProcessConserves` | include/orderbook/order_book.tpp:140-226 | for every id and message, submitted quantity equals the growth of traded and resting quantity plus what was released |
| `Ledger.Conservation` | include/orderbook/order_book.tpp:140-226 | for every id and run: submitted = traded on the tape + resting + cancelled, replaced, expired or rejected |
| `Ledger.NoOverflow` | orderbook/price_level.cpp:40-74 | if all that was ever offered is at most 2^63-1, so are every level's total, every remainder and the traded volume after every run |
| `Ledger.NoOverflowInsideSweeps` | include/orderbook/order_book.h:165-214 | the same at every fill that makes up a sweep, in every run, the quantity executed so far included |
| `PriorityLaws.PriceTimePriority` | include/orderbook/order_book.h:165-214 | the makers hit are a prefix of the queue, each served in full but perhaps the last, at prices from best to worst; survivors keep their places |
| `PriorityLaws.TapeAt` | orderbook/price_level.cpp:63-74 | the i-th trade is with the i-th maker, and happens exactly when less than the wanted quantity stands before it |
| `PriorityLaws.ConsumeAt` | orderbook/price_level.cpp:63-74 | who survives a sweep, and with what |
| `PriorityLaws.MatchConsumes` | include/orderbook/order_book.h:165-214 | the sweep's effect is that of taking the executable quantity from the front of the other side |
| `TimePriority.OlderStandsFirst` | include/orderbook/order_book.h:143-163 | after every run, of two orders on a side the one at the better price stands first, and at one price the one whose last entry, new or as a replacement, is older: if and only if |
| `SweepAlgebra.ConsumeTwice` | include/orderbook/order_book.h:165-214 | taking a and then b from a queue is taking a + b |
| `SweepAlgebra.IocAdditive` | include/orderbook/order_book.tpp:89-108 | immediate-or-cancel orders of a then b leave the same book as one of a + b, and trade the same with every maker |
| `SweepAlgebra.LimitSweepIsMarketSweep` | include/orderbook/order_book.h:165-214 | a limit sweep is a market sweep of the makers it accepts, the others untouched |
| `SweepAlgebra.WouldFillIffAvailable` | include/orderbook/order_book.tpp:71-75 | the sweep fills an order if and only if enough is within reach |
| `SweepAlgebra.LimitFillOrKill` | include/orderbook/order_book.tpp:77-91 | a limit fill-or-kill order trades its whole quantity, or nothing changes but the id counter and its rejection |
| `SweepAlgebra.FillOrKillExactly` | include/orderbook/order_book.tpp:77-117 | all-or-nothing holds if and only if the order is not a market order reaching some but not enough |
| `SweepAlgebra.MarketFillOrKillPartlyFills` | include/orderbook/order_book.tpp:111-117 | a market fill-or-kill for 10 against 4 trades 4 |
| `MarketData.ReplayRebuildsDepth` | include/orderbook/order_book.h:160 | after every run, the last update of every side and price is the book's depth there |
| `MarketData.ExecutionsAreAccounted` | include/orderbook/order_book.tpp:149-178 | each execution is at once followed by the update of its level to the depth last announced less the quantity traded |
| `MarketData.ExecutionsAreTheTape` | include/orderbook/order_book.tpp:149-157 | as many executions are announced as there are trades, and the i-th names the buyer, the seller, the price, the quantity and the aggressor of the i-th trade |
| `Answers.EveryMakerIsTold` | include/orderbook/order_book.tpp:140-192 | of every message: one fill for each maker with less than the executed quantity before it, told in order by the public execution, the update of its level, and, on the maker's own connection, filled or how much of it still rests |
| `Answers.AddIsAnswered` | include/orderbook/order_book.tpp:248-273 | the last event of a new order goes to its sender: filled, rejected, resting with its remainder, or expired, each if and only if a condition on what rests within its limit, its quantity, type and time in force |
| `Answers.CancelIsAnswered` | include/orderbook/order_book.tpp:292-304 | cancelled if and only if the order rests, else rejected for its id, and then nothing else happens |
| `Answers.ModifyIsAnswered` | include/orderbook/order_book.tpp:276-290 | modified, with the new price and quantity, if and only if the order rests, else rejected for its id, and then nothing else happens |
| `PrivateFeed.ProcessHeard` | include/orderbook/order_book.tpp:181-304 | every message, for every listener: a feed of an id that tells the quantity resting goes on doing so if and only if the message is about another id or keeps the quantity for the listener; all events together stay in protocol whatever happens |
| `OwnerFeed.ProcessTells` | include/orderbook/order_book.tpp:181-304 | every message, for every owner: a true belief about quantity and price stays true if and only if the message is about another id or faithful to the owner |
| `OwnerFeed.ExactIffFaithful` | include/orderbook/order_book.tpp:248-304 | when what every owner believes is true, a message leaves it so if and only if it is faithful to the owner of the order it speaks for |
| `OwnerFeed.FeedTellsTheBook` | include/orderbook/order_book.tpp:181-319 | in every run: the events emitted for the owner's connection tell exactly how much rests, and at what price, after every message if and only if every message about the order is faithful to its owner |
| `PrivateFeed.NothingAfterTheLastWord` | include/orderbook/order_book.tpp:248-304 | in every run, whoever hears it, nothing follows an order's terminal event, and the order rests no more |
| `PrivateFeed.RemaindersShrink` | include/orderbook/order_book.tpp:181-189 | in every run, reported remainders strictly decrease between modifications |
| `FeedQuirks.StrangersCancelIsUnheard` | include/orderbook/order_book.tpp:292-304 | from every state: a cancellation by another connection removes the order, and what its owner has been told stays what it was |
| `FeedQuirks.AStrangerCancels` | include/orderbook/order_book.tpp:292-304 | connection 7 rests 4, connection 8 cancels them, connection 7 still believes in 4 |
| `FeedQuirks.StrangersModifyIsUnheard` | include/orderbook/order_book.tpp:276-290 | from every state: a modification by another connection changes neither the quantity nor the price the owner has been told |
| `FeedQuirks.AStrangerReprices` | include/orderbook/order_book.tpp:276-290 | connection 7 rests 4 at 100, connection 8 moves them to 105, connection 7 still believes in 100 |
| `FeedQuirks.GtcMarketIsMisreported` | include/orderbook/order_book.tpp:266-268 | a partly filled market order tagged good-till-cancel is told of a remainder that does not rest |
| `FeedQuirks.CrossingModifyIsMisreported` | include/orderbook/order_book.tpp:289 | a replacement that trades is told its full quantity |
| `QueueLaws.ProcessTradesLegally` | orderbook/trade.cpp:37-56 | every trade is between the order the message lets in and one resting in the book it meets, at that one's price, for all the smaller one had; a limit buy pays its price at most, a limit sell gets its price at least |
| `QueueLaws.AllTradesLegal` | orderbook/trade.cpp:37-56 | the same of every trade of every run: which message let the taker in, and that the maker rested then, at this price and with this quantity |
| `Outcomes.AvailableIsReachable` | include/orderbook/order_book.h:116-122 | what an order has within reach is what rests on the other side at its limit or less for a buy, at its limit or more for a sell, and all of it for a market order |
| `Outcomes.LetInOutcome` | include/orderbook/order_book.tpp:77-117 | of every message that lets an order in: how much it executes, what that takes from the other side and puts on the tape, and where a remainder stands, if it stays at all |
| `Outcomes.NobodyWithinLimitIsLeft` | include/orderbook/order_book.h:165-214 | an order left with a remainder has left nobody at a price within its limit, a market order nobody at all |
| `Outcomes.KilledTouchesNothing` | include/orderbook/order_book.tpp:77-91 | a limit fill-or-kill order that finds less than it wants touches neither side nor the tape |
| `Outcomes.CancelTakesOne` | include/orderbook/order_book.tpp:194-205 | a cancellation takes the one order under its id out of its side, and nothing else |
| `QueueLaws.RemainderQueuesLast` | include/orderbook/order_book.h:143-163 | a resting remainder stands behind everyone at its price or better, and nobody else moves |
| `QueueLaws.AddThenCancelRestores` | include/orderbook/order_book.h:216-234 | adding an order that meets nobody and cancelling it restores both sides and the tape |
| `Canonical.OneRepresentation` | include/orderbook/order_book.h:101-104 | two legal states with the same queues have the same levels, cached totals and index |
| `Canonical.AddThenCancelRestoresEverything` | include/orderbook/order_book.h:143-234 | adding an order that meets nobody and cancelling it restores levels, totals, index and tape |
| `QueueLaws.ModifyIsCancelThenAdd` | include/orderbook/order_book.tpp:214-226 | a modification leaves the book, and makes the trades, of a cancellation followed by a new good-till-cancel limit order, but for the id |
| `BitMask.MaskOkExactly` | include/common/ring_buffer.h:11 | the compile-time check accepts exactly the powers of two |
| `BitMask.MaskIsMod` | include/common/ring_buffer.tpp:5-8 | masking with a power of two less one is the remainder |
| `BitMask.NextWraps` | include/common/ring_buffer.tpp:5-8 | the next index wraps at the capacity and nowhere else |
| `BitMask.MaskedDifference` | include/common/ring_buffer.tpp:75-78 | the masked 64-bit difference of the indices is their distance, also when the subtraction wraps |
| `RingSteps.StepKeepsInv` | include/common/ring_buffer.tpp:10-59 | every step of either thread keeps an invariant over both program counters and both stale copies |
| `RingSteps.FailsExactly` | include/common/ring_buffer.tpp:14-18 | a push fails if and only if the ring is full when it loads the tail, a pop if and only if it is empty when it loads the head |
| `RingSteps.StepRefinesQueue` | include/common/ring_buffer.tpp:10-53 | every step is a step of a bounded queue: each call takes effect, or fails, at one step of its own |
| `RingRuns.RunRefinesQueue` | include/common/ring_buffer.tpp:10-53 | every run of the two threads is a run of the bounded queue |
| `RingRuns.EngineGetsOffersUnderEveryInterleaving` | include/common/ring_buffer.tpp:10-53 | for the ring of 128 slots, whatever the interleaving: what was read out and what is in the ring are the pushes made with fewer than 127 items pending, in order, and all pushes if and only if that held of each |
| `RingSteps.FifoUnderEveryInterleaving` | include/common/ring_buffer.tpp:10-53 | items taken, then items between tail and head, are the items published, in order; one slot stays free; the threads never share a slot |
| `RingSteps.NeverTorn` | include/common/ring_buffer.tpp:50 | a read returns the oldest item whatever the producer did meanwhile |
| `RingSteps.RoomStays` | include/common/ring_buffer.tpp:68-73 | a producer that saw room still has it after any steps of the consumer |
| `RingSteps.ItemStays` | include/common/ring_buffer.tpp:61-66 | a consumer that saw an item still has it after any steps of the producer |
| `RingPermits.NeverWastesExactly` | include/common/ring_buffer.tpp:55-59 | from any state of any run, waiting pops alone never find the ring empty if and only if no permit is to spare and no plain pop under way can leave one |
| `RingPermits.PermitMeansItem` | include/common/ring_buffer.tpp:55-59 | with waiting pops only: permits free, held and due are as many as the items, and a pop with a permit never fails |
| `RingPermits.WasteIsBounded` | include/common/ring_buffer.tpp:55-59 | in general: permits exceed items by the plain pops less the wasted permits, and no more are wasted than there were plain pops |
| `RingPermits.MixedPopsWaste` | include/common/ring_buffer.tpp:55-59 | one push, one plain pop and one waiting pop waste a permit |
| `RingSteps.UndisturbedPush` | include/common/ring_buffer.tpp:10-23 | the six steps of a push, undisturbed, publish its item and release one permit |
| `RingSteps.UndisturbedPop` | include/common/ring_buffer.tpp:40-53 | the steps of a plain pop, undisturbed, take the oldest item |
| `RingBuffers.RingBuffer.Push` | include/common/ring_buffer.tpp:10-38 | succeeds exactly below capacity less one; appends, or changes nothing |
| `RingBuffers.RingBuffer.Pop` | include/common/ring_buffer.tpp:40-53 | succeeds exactly when there is an item; takes the oldest, or changes nothing |
| `RingBuffers.RingBuffer.WaitPop` | include/common/ring_buffer.tpp:55-59 | a permit is spent whether or not an item is found; without one nothing changes |
| `RingBuffers.RingBuffer.Empty` | include/common/ring_buffer.tpp:61-66 | true exactly when no item is held |
| `RingBuffers.RingBuffer.Full` | include/common/ring_buffer.tpp:68-73 | true exactly when all slots but one are taken |
| `RingBuffers.RingBuffer.Size` | include/common/ring_buffer.tpp:75-78 | the number of items held |
| `Wire.Serialise` | include/networking/protocol.h:329-358 | header and packed struct, every byte of them, little endian, and nothing behind them |
| `Wire.Deserialise` | include/networking/protocol.h:362-388 | the message whose packed struct the bytes are, each field at its offset; serialising it again gives the same bytes |
| `Wire.PayloadRoundTrip` | include/networking/protocol.h:308-388 | reading what was written gives the message, all 64-bit fields and signs included |
| `Wire.PayloadOnto` | include/networking/protocol.h:308-388 | every byte string of a struct's size is the payload of exactly one message |
| `Wire.AddOrderLayout` | include/networking/protocol.h:301-342 | every field of an order to add, byte by byte: packed, least significant first, negative numbers in two's complement |
| `Wire.CancelOrderLayout` | include/networking/protocol.h:317-319 | the same of a cancellation |
| `Wire.ModifyOrderLayout` | include/networking/protocol.h:321-325 | the same of a modification: id, then price, then quantity |
| `Wire.StructDetermines` | include/networking/protocol.h:308-325 | no two messages of one kind have the same bytes |
| `Wire.SentBytes` | include/networking/protocol.h:329-358 | the bytes of an engine message: limit 0 and market 1; fill-or-kill 0, good-till-cancel 1, immediate-or-cancel 2; buy 0 and sell 1; every other field at its offset |
| `Wire.ReceivedBytes` | include/networking/protocol.h:362-388 | the message made of a frame has the values its bytes stand for, and the stamps given |
| `Decoder.DecodeSplits` | networking/msg_parser.cpp:74-122 | decoding a prefix and then going on with the rest is decoding the whole |
| `Decoder.TakeThenDecode` | networking/msg_parser.cpp:126-142 | taking a limited number of frames first changes nothing, and fewer than the limit means nothing was complete |
| `Decoder.AnnouncedLengthIsIgnored` | networking/msg_parser.cpp:95-104 | a known type is read by its struct size whatever its header announces |
| `Decoder.UnknownTypeIsSkipped` | networking/msg_parser.cpp:105-113 | a frame of an unknown type is skipped by its announced length, and decoding resumes behind it |
| `Decoder.FrameMeans` | networking/msg_parser.cpp:74-122 | of any complete frame, byte by byte: types 1, 2 and 3 are read as the struct that follows, any other is skipped by the length announced low byte first, and decoding goes on |
| `Decoder.PartMeansNothing` | networking/msg_parser.cpp:74-116 | of an incomplete frame nothing is made, and a complete header is remembered |
| `Decoder.StreamRoundTrip` | include/networking/protocol.h:329-388 | decoding the serialisation of a list of messages gives the list |
| `Connections.Settle` | networking/client_state.cpp:44-58 | making room changes no unread byte, and leaves none to receive into only if all 1024 are unread |
| `Connections.StepKeepsSound` | networking/transport/tcp.cpp:154-166 | a wakeup keeps: delivered, then the decoding of what is unread, is the decoding of all received |
| `Connections.ChunkingIndependence` | networking/transport/tcp.cpp:154-166 | for every stream, every cutting and any number of wakeups; no byte is lost |
| `ConnectionProgress.StallsExactly` | networking/msg_parser.cpp:105-116 | with bytes waiting, a wakeup neither receives nor parses if and only if the buffer is full of a payload larger than it |
| `ConnectionProgress.WakeupInFigures` | networking/transport/tcp.cpp:154-166 | a wakeup in figures: at most 256 bytes, at most the room that 1024 leave once compacted, at most what there is; then at most four frames |
| `ConnectionProgress.JamIsForever` | networking/msg_parser.cpp:105-116 | such a connection never moves again, whatever arrives |
| `ConnectionProgress.UnknownOversizedJams` | networking/msg_parser.cpp:105-116 | an unknown type announcing more than 1024 bytes, with that many behind it, gets there, by wakeups with bytes waiting |
| `ConnectionProgress.ReceivesExactly` | networking/transport/tcp.cpp:154-166 | the reactor receives all of a stream, however it arrives, if and only if every payload met fits the buffer |
| `ConnectionPace.ParsedExactly` | networking/msg_parser.cpp:126-142 | frames parsed after n wakeups are the least, over all k, of those complete after k wakeups and four for each since |
| `ConnectionPace.NothingWaitsExactly` | networking/transport/tcp.cpp:107-117 | after any run, nothing complete is left in the buffer if and only if no last stretch of wakeups completes more than four frames for each of them |
| `Delivery.SentMessagesArrive` | networking/transport/tcp.cpp:154-166 | of a client's messages, received to the end in any pieces, the first are delivered, in order, and all if and only if the receptions keep pace |
| `Delivery.BurstIsLeftWaiting` | networking/msg_parser.cpp:126-142 | more than four messages in one piece received at once: four are delivered, the rest wait, and no wakeup is due |
| `Delivery.FiveCancelsAtOnce` | networking/msg_parser.cpp:126-142 | five cancellations, 55 bytes in one piece: the fifth waits, though every payload fits |
| `Delivery.SmallPiecesKeepPace` | networking/transport/tcp.cpp:156-165 | for pieces of at most 256 bytes and 1024 in all, whether anything is left waiting is a condition on the pieces alone |
| `Delivery.FourAtATime` | networking/msg_parser.cpp:126-142 | from any moment, however it arrives: if what comes completes no more than four frames beyond those parsed, nothing is left waiting |
| `Bursts.FourMessagesAtATime` | networking/msg_parser.cpp:126-142 | bursts of at most four messages, each received to its end before the next, in any pieces and however many: all delivered, in order, and nothing left waiting |
| `Bursts.EveryBurstIsReceived` | networking/transport/tcp.cpp:107-117 | in between, whatever pieces a burst arrives in, the reactor goes on to receive all of it |
| `ClientStates.ClientState.Read` | networking/client_state.cpp:31-38 | all or nothing: the next bytes are copied and passed, or nothing changes |
| `ClientStates.ClientState.Compact` | networking/client_state.cpp:51-56 | the unread bytes move to the front, overlapping or not, and stay what they are |
| `ClientStates.ClientState.PreCheck` | networking/client_state.cpp:44-58 | keeps the unread bytes and the parse state, and leaves room unless all is unread |
| `MessageQueues.EngineGetsOffersWithRoom` | networking/msg_parser.cpp:119 | for every interleaving of offers and takes: what the engine has and will have is what was offered while fewer than 127 waited, in order |
| `MessageQueues.NothingLostExactly` | networking/msg_parser.cpp:119 | no offer is lost if and only if fewer than 127 waited at each |
| `MessageQueues.BurstLosesTheRest` | networking/msg_parser.cpp:119 | offers that the engine takes nothing from are lost beyond the first 127 |
| `MessageSinks.MessageSink.Take` | engine/message_consumer.cpp:14-17 | taking, with or without waiting, yields the oldest pending message, and fails only on a time-out or an empty queue |
| `MessageSinks.MessageSink.EngineRuns` | engine/message_consumer.cpp:12-17 | any number of takes of either kind leaves ring, log and messages taken in agreement |
| `MessageSinks.MessageSink.PushAnyway` | networking/msg_parser.cpp:119 | the result of the push is ignored, and the offer logged whether or not it found room |
| `MessageSinks.MessageSink.StampAndPush` | networking/msg_parser.cpp:21-30 | messages are offered with their connection and consecutive sequence numbers, lost or not, the engine running in between |
| `MsgParsers.ReadPayloadOf` | networking/msg_parser.cpp:8-19 | a complete struct is read and consumed, an incomplete one left alone |
| `MsgParsers.ParseMessage` | networking/msg_parser.cpp:74-122 | resumes wherever it stopped, and does exactly one frame of the decoder or as much of one as there is |
| `MsgParsers.ParseReadyClient` | networking/msg_parser.cpp:126-142 | the loop does exactly the decoder's next four frames, or all complete ones |
| `Clients.Client.ReceiveWithinBudget` | networking/transport/tcp.cpp:156-165 | settles, then receives what fits, at most 256 bytes, behind the unread ones |
| `Clients.Client.Wakeup` | networking/transport/tcp.cpp:154-166 | a wakeup of the object is a step of the transition system, and the sink is offered its messages, stamped |
| `Clients.Client.Serve` | networking/transport/tcp.cpp:154-166 | any number of wakeups, any arrivals: the run of the transition system |
| `Clients.Client.ReceiveRest` | networking/transport/tcp.cpp:107-117 | with nothing more arriving, wakeups for the bytes in the socket receive everything that fits, in finitely many |
| `Clients.ServeStream` | networking/transport/tcp.cpp:154-166 | by the reactor's wakeups alone, a stream of serialised messages in any pieces is received to its end, and the queue is offered the first of them in order, stamped; all if and only if the receptions keep pace |
| `Pipeline.SentIsArrived` | networking/msg_parser.cpp:8-30 | well-formed messages come off the wire as they were sent, stamped |
| `Pipeline.BytesReachTheEngine` | networking/msg_parser.cpp:8-30 | bytes that mean a message make the engine process this message, with the connection and number stamped, whatever follows them |
| `Pipeline.WhatTheEngineGets` | networking/msg_parser.cpp:118-119 | the engine gets all that was sent if and only if all was delivered and there was room at every offer |
| `Pipeline.NeverThrowsIsEnough` | include/orderbook/order_book.tpp:228-290 | messages acceptable whatever the book are accepted whichever of them are lost |
| `Pipeline.TradeOverTheWire` | server/multi_server_kqueue.cpp:14-40 | orders serialised, cut into any pieces, received, parsed, offered to the ring of 128 slots and matched: the book of the specification's run over the offers that found room; that is all that was sent if and only if receptions keep pace and there always was room |

## Left out

- Sockets, kqueue, accept, close, sending, the connection map and its mutex: the kernel's queue of a connection
  is a field that arrivals are appended to. A connection that fails or closes loses what it had buffered; that
  path is not modelled.
- Several connections at once: each connection's service is proved for a queue that others may have offered to before,
  and `Pipeline` follows one connection from accept to its last byte.
- Client program, formatting, event serialisation, event consumers, entry points: input and output, or the same
  fixed-layout copying once more.
- Weak memory: the release and acquire pairs justify one global order of the steps, which is what is modelled.
  The order of `head_` and `tail_` loads in a concurrent `size` is not.
- The semaphore's maximum: permits are unbounded. Plain pops leave permits behind (`RingPermits.WasteIsBounded`).
- Exceptions: `FlatBook.Accepts` demands what the engine would throw for. Accessors that throw on an empty side
  return that there is none.
- Raw enumeration bytes: the parser passes any byte on, as the code does; the engine's model takes declared values
  only, and `Wire.WellFormed` says which bytes those are.
- `MessageConsumer.ConsumeMessages`: runs after the parser's last offer; before it, the engine's takes are those of
  `MessageSinks.MessageSink.EngineRuns`, whose messages the book then processes in the order taken. A wait that times out
  is a step that may always happen, but not for ever.
- `OrderBooks.OrderBook`: the event sink only grows; that the real sink's `push` may find 128 slots full, and its
  result is ignored, is not part of the runs. Public and private feeds are those of the events the book emits.
- `OrderBooks.OrderBook.TakeNextId`: ids are unbounded, so the counter's wrap at 2^64 is not modelled.
- `OrderBooks.OrderBook.FindOrder`: a location names the order by its id within its level, where the code keeps a
  list iterator; list nodes are values, so iterator validity is not modelled. Maps are sequences of level objects
  sorted best first.
- `MessageSinks.MessageSink.StampAndPush`: sequence numbers are unbounded. The two threads alternate between whole calls
  here; every finer interleaving is `RingRuns.EngineGetsOffersUnderEveryInterleaving`.
- `Pipeline.TradeOverTheWire`: demands messages the engine accepts whichever of them are lost, because a lost message may
  change which book the later ones meet; what becomes of an engine that throws is not modelled.
- `Delivery.SmallPiecesKeepPace`: stops at 1024 bytes over the whole connection, because beyond that where the buffer
  wraps decides which pieces are received whole; `ConnectionPace.NothingWaitsExactly` has no such bound.
- `Ledger.NoOverflow`: speaks of runs whose offered total is at most 2^63-1; beyond that the code's sums may wrap.
- `Ledger.NoOverflowInsideSweeps`: the same.
