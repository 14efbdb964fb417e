# A verified model of the FPGA trading pipeline and its Python twin

The repository builds a market-data-to-orders pipeline twice: as HLS C++ stages joined by AXI streams, and as Python
classes used as a software benchmark. A book stage keeps eight price ladders (four stocks, two sides), each indexed by
an in-place segment tree, and publishes a snapshot of the five best levels every 20 messages. A parser turns a
snapshot into one market price per stock, a covariance stage updates a running 4x4 matrix, a solver turns the matrix
into portfolio weights by Givens rotations, and order generation rebalances an account and sends OUCH orders. Around
them sit a generator of random order events, an encoder and reader for the event feed, the server's order decoder, and
a monitor that replays the orders. The project models all of these, stage by stage, and proves what they keep.

## How the model is laid out

State that the sources mutate is mutable here (classes with arrays or fields, methods with loops), and every such
method is proved against a function of the old state. The theorems are about those functions and about whole runs.

| area | files |
|---|---|
| the hardware's segment-tree book | `Words`, `SegmentTree`, `TreeOrderBook`, `StockOrderBook` |
| the software's segment tree, negative list indices included | `SoftwareLadder`, `SoftwareTree`, `SoftwareBook` |
| both book stages, step by step and over runs | `Book`, `BookRuns`, `LowPrices`, `Orderbook`, `OrderBookManager` |
| reference from messages alone, and what snapshots show of it | `Ledger`, `LedgerSnapshot` |
| event generator | `OrderStream` |
| numeric stages over the reals | `TaParser`, `Float`, `LinearAlgebra`, `QRDecompLinSolver`, `Weights`, `QrStage`, `Covariance`, `CovUpdate` |
| account and replay | `OrderGen`, `OrderGenAxis`, `Replay`, `HardwareAccount`, `SnapshotPrice`, `ClientAccount`, `Client` |
| byte layouts | `Bytes`, `Itch`, `Ouch` |
| streams and the joined pipeline | `Streams`, `Channels`, `Pipeline`, `ReturnsApart`, `EndToEnd` |

`Book` holds two independent definitions of one message's effect, `HwStep` with 32-bit wrapping and `SwStep` with
unbounded integers, clamped removal and Python's negative list indices. The class `OrderbookIp` is proved to perform the
first on segment trees. `SwTreeStep` adds to the second what the software's trees hold, where a negative index lands on an
inner node, and `SwSnapshot` what publishing does to trees and levels; the class `OrderBookManager` is proved to perform
these two at any price.

`Ledger` is an independent reference for both books: it keeps one slot per order id from messages alone, with no level,
index or tree, and knows of the ladders only which prices each level stands for. `LedgerSnapshot` proves that every
published snapshot shows this ledger, and that nothing else would.

`Pipeline` moves one word per step through FIFO channels; its reachable states are those of every interleaving of the
five stages. Each stage's arithmetic is the function that the stage's own class is proved to compute.

Numeric stages are modelled over the reals. The logarithm is any function, and the hardware square root is any function
that is nonzero on positive numbers. Where the hardware can divide by zero its words are numbers, infinities or "no
number", with the rules of section 6 of IEEE 754-2008 but no rounding. Converting a float that does not fit an integer gives an
arbitrary integer of that width, and so does a signed subtraction that overflows; casting an unsigned word to a signed one
wraps.

## What the proofs found

* **Prices below the ladder.** Three of the four shipped price minima are not multiples of the tick, so snapping can
  take an order up to 400 below its ladder. The hardware's unsigned subtraction then clamps to the top level and the
  software uses list index -1. These select the same level, so order lists and levels still agree, also when the software
  publishes in between (`GeneratedLevelsAgree`). One tick further down they no longer do: `AgreeExactly` gives the exact
  bound. There, publishing alone can also destroy shares: the entry of a negative index and the level it shares can both be
  taken out, the second one empty, and the empty one is put back last (`SnapshotLoses`; `SnapshotBound` proves one tick to
  be the exact limit, `SnapshotKeeps` which states lose nothing). Equal levels do not mean equal snapshots, though: index
  -1 is published one tick below the ladder and the clamped level at its top (`SnapshotsDiffer`). More than 256 ticks below,
  the software raises IndexError.
* **The first three matrices.** With four stocks, the covariance matrices after two, three and four snapshots are
  singular whatever the prices: at most three returns and the implicit zero return cannot span four dimensions. The
  software solver then reports failure and the client sends nothing. The hardware divides by a zero pivot, and all four of
  its weights become no numbers. Order generation does not reject these: it converts them to whatever share counts the
  hardware gives, sends four orders and books them. Every such firing conserves net worth, but already the first may leave
  the account billions in debt, with 2^32 - 1 shares of each stock for orders that sold one (`HardwareMayFail`). Once the
  returns span all directions every later firing gets numbers (`NumbersStay`), and an account that is solvent then stays so
  (`HardwareAccount`).
* **Two kinds of returns.** The hardware takes logarithms of price ratios, the software relative changes. One kind of
  return can span all directions while the other does not: when one price moves with the square of another, the hardware
  still has no numbers after five snapshots and the client already trades (`TwinsTradeApart`).
* **A cancel that names another stock** removes the quantity from that stock's ladder, where the hardware's unguarded
  subtraction can wrap to almost 2^32 shares and the software stops at zero.
* **Re-adding a live id** leaves its first quantity in the book with no order behind it. Levels are exactly the sum of
  their live orders if and only if no id with shares left is ever added again (`RunBacked`).
* The one-bit result of `check_ask_bid` turns its "no order" code 2 into 0, so the test for 2 after it never fires. It
  does no harm: `cancel_order` checks validity again (`TwinStep` holds with no condition on it).
* Of the two sets of book constants the header's is in force (256 levels, tick 600): the block in the `.cpp` is skipped
  by the shared include guard. The software's own counter counts adds only; the hardware counts every message taken,
  and so does the test client that drives the software.

## Model

| member | source | states |
|---|---|---|
| SegmentTree.RootIsBest | HW/hls_ips/order_book_src/Orderbook_tree_optimized.cpp:51-97 | for any number of levels, not only powers of two, node 1 of the tree is the best non-empty level, or the sentinel exactly when the ladder is empty |
| SegmentTree.RootCovers | HW/hls_ips/order_book_src/Orderbook_tree_optimized.cpp:86-97 | the root is at least as good as every node of the tree, although a tree over n levels that is no power of two joins leaves of different depth |
| SegmentTree.BestIsUnique | HW/hls_ips/order_book_src/Orderbook_tree_optimized.cpp:51-56 | "best non-empty level" names one entry only, so the root is determined by the ladder |
| SegmentTree.FoldFrame | HW/hls_ips/order_book_src/Orderbook_tree_optimized.cpp:86-97 | a change of one level can only change the nodes on its path to the root: why the walk of `bubble_up` is enough |
| SegmentTree.TopLevelsAreTop | HW/hls_ips/order_book_src/Orderbook_tree_optimized.cpp:145-157 | taking the best level out m times yields the m best non-empty levels in strict best-first order, or all of them when there are fewer |
| SegmentTree.TopIsUnique | HW/hls_ips/order_book_src/Orderbook_tree_optimized.cpp:145-157 | no other list of levels is the top m of the ladder |
| TreeOrderBooks.TreeOrderBook.constructor | HW/hls_ips/order_book_src/Orderbook_tree_optimized.cpp:58-74 | an all-sentinel tree is the right tree of an empty ladder |
| TreeOrderBooks.TreeOrderBook.IndexToPrice | HW/hls_ips/order_book_src/Orderbook_tree_optimized.cpp:82-84 | the 32-bit arithmetic never wraps on a level of the ladder |
| TreeOrderBooks.TreeOrderBook.BubbleUp | HW/hls_ips/order_book_src/Orderbook_tree_optimized.cpp:86-97 | from a tree that is right off one path, the walk makes every node equal to the fold of the ladder below it |
| TreeOrderBooks.TreeOrderBook.SetLevel | SW/Orderbook.py:107-123 | any single-level change followed by the walk keeps the whole tree right and changes no other level |
| TreeOrderBooks.TreeOrderBook.TakeTop5 | HW/hls_ips/order_book_src/Orderbook_tree_optimized.cpp:146-157 | the levels taken out are the top five in order, with their true quantities, and only they are emptied |
| TreeOrderBooks.TreeOrderBook.PutBack | HW/hls_ips/order_book_src/Orderbook_tree_optimized.cpp:159-162 | putting the saved levels back restores the ladder |
| TreeOrderBooks.TreeOrderBook.GetTop5 | HW/hls_ips/order_book_src/Orderbook_tree_optimized.cpp:145-173 | publishes prices and quantities of the top five, padded with worst price and quantity 1, and leaves ladder and tree exactly as they were despite emptying them in between |
| StockOrderBooks.StockOrderBook.constructor | HW/hls_ips/order_book_src/Orderbook_tree_optimized.cpp:111-119 | eight empty ladders that share no array, and an order list with every slot unused |
| StockOrderBooks.LaddersDetermine | HW/hls_ips/order_book_src/Orderbook_tree_optimized.cpp:43-47 | two books equal as values have equal trees and equal published levels, so comparing values loses nothing |
| Books.IndexAgreement | SW/Orderbook.py:76-82 | unbounded floor division and 32-bit wrapping give the same level exactly when the price is not below the ladder; below it the hardware takes the top level and the software a negative index |
| Books.CheckAskBid | HW/hls_ips/order_book_src/Orderbook_tree_optimized.cpp:121-124 | the one-bit result is 0 or 1: the "no order" code never reaches its caller |
| Books.TwinStep | HW/hls_ips/order_book_src/Orderbook_tree_optimized.cpp:241-305 | from equal books one message ends in equal books if and only if a guard the caller can check holds: price on the ladder, no overflow, removal covered by its level |
| Books.TwinAdd | SW/Orderbook.py:230-255 | the same for adds: both directions |
| Books.TwinCancel | SW/Orderbook.py:257-287 | the same for removals: clamped and unguarded subtraction agree if and only if the level holds what is removed |
| Books.HwFits | HW/hls_ips/order_book_src/Orderbook_tree_optimized.cpp:99-143 | every quantity stays a 32-bit word |
| Books.HwCut | HW/hls_ips/order_book_src/Orderbook_tree_optimized.cpp:126-143 | a removal takes what the message wants, never more than is left, from the order and, modulo 2^32, from its level; an order with nothing left is deleted and nothing else changes |
| Books.SwCut | SW/Orderbook.py:257-287 | the software takes the smaller of that and the level, from level and order alike, also at a negative index |
| BookRuns.RunBacked | HW/hls_ips/order_book_src/Orderbook_tree_optimized.cpp:99-143 | over every run with own-stock removals and fewer than 2^32 shares added, each level holds at least what the live orders have resting there, and exactly that if and only if no live id with shares left was added again |
| BookRuns.NeverWraps | HW/hls_ips/order_book_src/Orderbook_tree_optimized.cpp:131-133 | in such a run the unguarded subtraction never takes more than the level holds |
| BookRuns.AddSurplus | HW/hls_ips/order_book_src/Orderbook_tree_optimized.cpp:99-109 | an add raises what a level holds beyond its live orders by exactly what its id still had resting there, and by nothing elsewhere |
| BookRuns.RemovalSurplus | HW/hls_ips/order_book_src/Orderbook_tree_optimized.cpp:126-143 | an own-stock removal, partial or complete, leaves that surplus as it was at every level |
| BookRuns.StepBacked | HW/hls_ips/order_book_src/Orderbook_tree_optimized.cpp:99-143 | one message keeps levels backed, and keeps them exact if and only if it does not add a live id with shares left |
| BookRuns.RestingChange | HW/hls_ips/order_book_src/Orderbook_tree_optimized.cpp:35-41 | changing one slot of the order list changes the sum of live quantities at a level by that slot's share and nothing else |
| BookRuns.TwinRun | SW/Orderbook.py:338-383 | the twins hold equal books after every message if and only if every message passes its guard |
| BookRuns.TwinsStayEqual | SW/Orderbook.py:230-287 | own-stock removals, prices on the ladder and fewer than 2^32 shares keep the books equal throughout every run |
| BookRuns.UnbackedRemoval | SW/Orderbook.py:115-123 | a removal larger than its level wraps in the hardware and ends at zero in the software |
| BookRuns.ForeignCancelWraps | HW/hls_ips/order_book_src/Orderbook_tree_optimized.cpp:262-273 | concrete run: a cancel that names another stock leaves 2^32 - 10 shares there in the hardware, none in the software |
| BookRuns.ReAddLeavesGhost | HW/hls_ips/order_book_src/Orderbook_tree_optimized.cpp:99-109 | concrete run: adding a live id again leaves its first quantity with no order behind it |
| BookRuns.PriceBelowLadderSplitsTwins | SW/Orderbook.py:76-82 | concrete run: one add below the ladder stores index 255 in one book and -1 in the other, with equal levels |
| Ledgers.OrderListIsLedger | HW/hls_ips/order_book_src/Orderbook_tree_optimized.cpp:99-143 | after any messages an id is live if and only if the ledger has an open order under it, with the same side and what is left of it, at the level of its price |
| Ledgers.OwnStockIsLedger | HW/hls_ips/order_book_src/Orderbook_tree_optimized.cpp:262-305 | "removals name their own stock" said on messages alone |
| Ledgers.NoGhostsIsLedger | HW/hls_ips/order_book_src/Orderbook_tree_optimized.cpp:99-109 | "no id with shares left is added again" said on messages alone |
| Ledgers.LevelsAreLedger | HW/hls_ips/order_book_src/Orderbook_tree_optimized.cpp:241-305 | over every run with own-stock removals and fewer than 2^32 shares, each level of the bids and asks of each stock holds at least what the ledger's orders of that stock and side have left at that level's prices, and all hold exactly that if and only if no id with shares left was added again |
| Ledgers.BooksHoldLedger | SW/Orderbook.py:230-325 | then ladders and order list of both books are the ledger's, the software's down to one tick below the ladder and with snapshots anywhere |
| Ledgers.OnTick | HW/hls_ips/order_book_src/Orderbook_tree_optimized.cpp:76-84 | on the ladder's ticks a level is one price |
| Ledgers.SomeLeft | HW/hls_ips/order_book_src/Orderbook_tree_optimized.cpp:99-109 | a level of the ledger is non-empty if and only if some order has shares left there |
| LowPrices.SwStepRelocated | SW/Orderbook.py:230-287 | the software's step fails exactly when an added price is more than 256 ticks below the ladder, and otherwise is its step at the ladder price of the list element that the negative index selects |
| LowPrices.SwRunRelocated | SW/Orderbook.py:338-383 | the same over runs: the software survives a run if and only if every added price is within reach |
| LowPrices.SoftwareOrders | SW/Orderbook.py:230-287 | over messages with no snapshot between them, at any prices within reach, the software's order list has the hardware's live ids, sides and quantities, and its levels back them, exactly so under the same condition as the hardware's |
| LowPrices.RelocateNear | HW/hls_ips/order_book_src/Orderbook_tree_optimized.cpp:76-80 | the software's list element is the level the hardware clamps to if and only if the price is at most one tick below the ladder |
| LowPrices.AgreeExactly | SW/Orderbook.py:76-105 | with snapshots anywhere between the messages, the twins' order lists and levels agree after every input, up to the sign of an index, if and only if no added price is more than one tick below its ladder |
| Orderbook.OrderbookIp.AddOrder | HW/hls_ips/order_book_src/Orderbook_tree_optimized.cpp:99-109 | the segment-tree code performs the hardware's add and keeps every tree right |
| Orderbook.OrderbookIp.CancelOrder | HW/hls_ips/order_book_src/Orderbook_tree_optimized.cpp:126-143 | the segment-tree code performs the hardware's removal, wrapping included |
| Orderbook.OrderbookIp.Publish | HW/hls_ips/order_book_src/Orderbook_tree_optimized.cpp:186-213 | writes the 80 words of the book and leaves the book unchanged |
| Orderbook.OrderbookIp.Fire | HW/hls_ips/order_book_src/Orderbook_tree_optimized.cpp:215-306 | one call publishes first when 20 messages have been counted, then takes at most one message |
| Orderbook.RunTakesAll | HW/hls_ips/order_book_src/Orderbook_tree_optimized.cpp:241-304 | over every run of calls, idle ones included, the stage's book is the book of the messages taken in |
| Orderbook.MessagesConserved | HW/hls_ips/order_book_src/Orderbook_tree_optimized.cpp:234-238 | messages taken are always 20 times the snapshots plus the counter, which never exceeds 20 |
| Orderbook.SnapshotShows | HW/hls_ips/order_book_src/Orderbook_tree_optimized.cpp:234-238 | snapshot k shows exactly the book after message 20(k+1), whatever idle calls come between |
| Orderbook.PairAt | HW/hls_ips/order_book_src/Orderbook_tree_optimized.cpp:186-213 | where in the 80 words each stock's asks and bids lie |
| Orderbook.SnapshotIsOK | HW/hls_ips/order_book_src/Orderbook_tree_optimized.cpp:159-173 | every published quantity is at least 1 and every price is on its stock's ladder |
| Orderbook.PublishedIsOK | HW/hls_ips/order_book_src/Orderbook_tree_optimized.cpp:234-238 | hence so for every snapshot of every run |
| Orderbook.LastFlags | HW/hls_ips/order_book_src/Orderbook_tree_optimized.cpp:186-213 | exactly words 19, 39, 59 and 79 of a snapshot carry the last flag |
| LedgerSnapshots.TopShows | HW/hls_ips/order_book_src/Orderbook_tree_optimized.cpp:145-173 | what is published for a ladder are its best non-empty levels, strictly best first, with what they hold, up to five; the pairs after them carry the worst price of the ladder and quantity 1 |
| LedgerSnapshots.ShownCount | HW/hls_ips/order_book_src/Orderbook_tree_optimized.cpp:159-172 | so many pairs are the ladder's as it has non-empty levels, but at most five |
| LedgerSnapshots.NeverOutOfOrder | HW/hls_ips/order_book_src/Orderbook_tree_optimized.cpp:159-172 | bids never rise and asks never fall from pair to pair, padding included |
| LedgerSnapshots.ShownOnce | HW/hls_ips/order_book_src/Orderbook_tree_optimized.cpp:145-173 | no other five pairs show the same levels |
| LedgerSnapshots.FirstIsBest | HW/hls_ips/order_book_src/Orderbook_tree_optimized.cpp:186-213 | the first pair has the best price of all orders of that stock and side with shares left, and there are none if it is padding |
| LedgerSnapshots.SnapshotIsLedger | HW/hls_ips/order_book_src/Orderbook_tree_optimized.cpp:215-306 | over every run of calls, snapshot k shows, for all stocks and both sides, the ledger of the first 20(k+1) messages |
| LedgerSnapshots.GeneratedShown | SW/generate_orders.py:96-221 | so does every snapshot published over generated messages, with no condition |
| SoftwareLadders.NearBubble | SW/Orderbook.py:87-105 | a tree that has only seen indices from -1 up stays local outside the last inner node, with true leaves but for the last, under any change of a level and `bubble_up` |
| SoftwareLadders.TakeNear | SW/Orderbook.py:134-145 | taking the best entries out of such a tree takes different levels, each with its true quantity, although -1 and the last level share one |
| SoftwareLadders.Top5Near | SW/Orderbook.py:125-150 | so `get_top_5` leaves the levels of such a tree as they were |
| SoftwareLadders.Top5Keeps | SW/Orderbook.py:125-150 | for any tree, whatever indices it has seen: `get_top_5` keeps the levels if and only if no list element is taken a second time after it held something |
| SoftwareLadders.Top5Exact | SW/Orderbook.py:125-169 | on a tree that has only seen levels it publishes the ladder's top five and leaves levels and tree as they were |
| SoftwareLadders.BubbleExact | SW/Orderbook.py:87-105 | such a tree stays the one the ladder determines |
| SoftwareLadders.SnapshotLoses | SW/Orderbook.py:134-150 | concrete family: with any quantities at the last ask level but one and at index -2, `get_top_5` ends with that level empty |
| SoftwareTrees.SoftwareTree.BubbleUp | SW/Orderbook.py:87-105 | the loop performs the climb from any index that Python accepts |
| SoftwareTrees.SoftwareTree.RemoveQuantity | SW/Orderbook.py:115-123 | removes the smaller of the two quantities from the element the index selects, reports it, and bubbles up from that index |
| SoftwareTrees.SoftwareTree.GetTop5 | SW/Orderbook.py:125-169 | takes out, puts back and reports as specified, whatever indices the tree has seen |
| SoftwareBooks.StepBook | SW/Orderbook.py:230-287 | the trees play no part in what a message does to levels and order list |
| SoftwareBooks.SnapshotsHarmless | SW/Orderbook.py:299-325 | down to one tick below the ladder, snapshots taken anywhere never change levels or order list: they are those of the messages alone |
| SoftwareBooks.TreesExact | SW/Orderbook.py:87-105 | on the ladder every tree is the one its levels determine, throughout every run with snapshots |
| SoftwareBooks.SnapshotKeeps | SW/Orderbook.py:299-325 | from any state a snapshot keeps levels and order list if and only if that holds on all eight ladders |
| SoftwareBooks.SnapshotBound | SW/Orderbook.py:125-150 | snapshots keep the book of every run whose prices are at most a given slack below the ladder if and only if that slack is one tick or less |
| OrderBookManagers.OrderBookManager.AddOrder | SW/Orderbook.py:230-255 | the class performs the software's add at any price, negative indices included, and reports IndexError with nothing changed |
| OrderBookManagers.OrderBookManager.CancelOrder | SW/Orderbook.py:257-287 | the class performs the software's removal on levels, trees and order list, with what was actually removed deciding deletion |
| OrderBookManagers.OrderBookManager.SideOf | SW/Orderbook.py:194-202 | the stored side of a live order and 2 for any other; below 2 exactly for live orders |
| OrderBookManagers.OrderBookManager.Process | SW/Orderbook.py:338-383 | for every message the class performs the software's step on levels, trees and order list, or reports IndexError with nothing changed, and counts the adds it took |
| OrderBookManagers.OrderBookManager.PublishSnapshot | SW/Orderbook.py:299-325 | one entry per stock, read off the trees as they were before the call, with the snapshot's own effect on levels and trees as the new state |
| OrderBookManagers.ExactEntry | SW/Orderbook.py:299-325 | on the ladder these entries are the top fives that the levels determine |
| OrderBookManagers.EntriesAreWords | SW/Orderbook.py:314-325 | the software's entries and the hardware's words of a book carry the same prices and quantities |
| LedgerSnapshots.EntryIsLedger | SW/Orderbook.py:299-325 | on the ladder the software's entries show the ledger of the messages so far |
| OrderBookManagers.TwinObjectsEqual | HW/hls_ips/order_book_src/Orderbook_tree_optimized.cpp:215-306 | twin objects given the same well-behaved messages, the software with snapshots anywhere between them, have equal order lists, levels and trees and publish the same |
| OrderStream.PricesStayAbove | SW/generate_orders.py:124-129 | no random price takes a configuration row below a bound if and only if the row's snapped minimum is not below it |
| OrderStream.ShippedRowsSlip | SW/data/config.csv:2-9 | of the shipped rows only those of the last stock stay on the ladder; the others can slip below, by at most a tick |
| OrderStream.FinalPriceIs | SW/generate_orders.py:124-129 | the price is the greatest multiple of the tick not above the raw price if that lies within the row's bounds, and not above the nearer bound otherwise |
| OrderStream.LockAdd | SW/generate_orders.py:134-157 | an add keeps the generator's record and the order list in lockstep, at any price and also when the id is too large for the list |
| OrderStream.LockCut | SW/generate_orders.py:180-221 | a partial cancel, an execution and a full delete each keep the lockstep |
| OrderStream.GenerateOrders | SW/generate_orders.py:96-221 | whatever is drawn: exactly perConfig adds per row; add k has reference k + 1, stock and side of row k modulo the rows, 10 to 100 shares and the price of that row for some raw price, and all are remembered; at most maxInjected events follow each add; removals name live orders and their own stock and take no more than remains, no live id is added again, and ids below 1024 are live in the book exactly while shares remain, with equal quantity, side and stock |
| OrderStream.AddOrder | SW/generate_orders.py:124-157 | one add at any raw price keeps all of that and is the next add |
| OrderStream.Inject | SW/generate_orders.py:168-221 | one injected event against any live order keeps all of that and adds nothing |
| OrderStream.BooksInLockstep | SW/Orderbook.py:230-325 | generated messages keep the hardware book in lockstep and its levels exactly the sum of live orders at any prices; the software gets through the messages exactly within reach of its list, is then in lockstep and exact as long as it does not publish, and down to one tick below the ladder also with snapshots anywhere |
| OrderStream.GeneratedLevelsAgree | SW/generate_orders.py:116-129 | rows at most a tick below the ladder, as shipped, keep the twins' order lists and levels in agreement after every message and snapshot |
| OrderStream.GeneratedBooksEqual | SW/generate_orders.py:116-129 | rows on the ladder keep the twins' books equal and the software's trees those of its levels, wherever it publishes |
| TaParsers.TaParser.Fire | HW/hls_ips/ta_parser_src/ta_parser.cpp:33-112 | consumes exactly 80 words, sends 4 prices to the covariance stage always and to order generation from the second firing on |
| TaParsers.PriceOf | HW/hls_ips/ta_parser_src/ta_parser.cpp:64-88 | the accumulating loop computes the quantity-weighted average of the stock's ten levels |
| TaParsers.WeightPositive | HW/hls_ips/ta_parser_src/ta_parser.cpp:87-87 | a published snapshot always has positive total weight: the zero branch is never taken |
| TaParsers.MarketPriceBetween | HW/hls_ips/ta_parser_src/ta_parser.cpp:77-88 | the market price lies between the lowest and the highest price of the stock's ten levels |
| TaParsers.MarketPricePositive | HW/hls_ips/ta_parser_src/ta_parser.cpp:87-87 | hence at least the stock's lowest ladder price, and positive: later divisions are safe |
| TaParsers.StagesAgree | SW/TaParser.py:6-23 | the hardware's interleaved sum over words and the software's separate sums over entries give the same market price |
| TaParsers.MarketPriceBalances | HW/hls_ips/ta_parser_src/ta_parser.cpp:64-88 | a stock's market price is the one price about which its ten published pairs balance: quantities times distances in dollars add up to zero |
| TaParsers.EntryPriceBalances | SW/TaParser.py:14-21 | so is the software's price of any entry with a positive total quantity |
| TaParsers.UpdatePrices | SW/TaParser.py:6-23 | each entry's price goes where its stock number says, the last one in force, and a stock without an entry gets zero |
| LinearAlgebra.RotationInvertible | HW/hls_ips/qr_decomp_lin_solv_src/qr_decomp_lin_solv_axis.cpp:42-52 | two residuals vanish exactly when their rotations do, for any c and s not both zero: no need for c² + s² = 1 |
| LinearAlgebra.RotationEquivalent | SW/QrDecompLinSolver.py:45-54 | so one rotation of two rows keeps the solutions of the system and of its homogeneous form |
| LinearAlgebra.UpperSingular | SW/QrDecompLinSolver.py:62-70 | a triangular matrix is singular if and only if a pivot is zero |
| LinearAlgebra.ZeroPivotSingular | SW/QrDecompLinSolver.py:66-67 | from the first zero pivot a nonzero kernel vector is constructed |
| LinearAlgebra.PivotsNoKernel | SW/QrDecompLinSolver.py:62-68 | without zero pivots the kernel is trivial |
| LinearAlgebra.Solvable | SW/QrDecompLinSolver.py:86-96 | every nonsingular system has a solution, constructed from a direction orthogonal to its extended rows |
| QRDecompLinSolvers.NewtonStep | SW/QrDecompLinSolver.py:26-26 | a Newton step from a positive x lands at or above the root, and quarters the excess of an x already there |
| QRDecompLinSolvers.MySqrt | SW/QrDecompLinSolver.py:13-27 | raises exactly for negative input, never takes its failure branch, and after k iterations has quartered the first excess ((v-1)/2)² k - 1 times, from above |
| QRDecompLinSolvers.RotationZeroes | SW/QrDecompLinSolver.py:40-50 | the rotation zeroes its entry for any nonzero r, a square root or not |
| QRDecompLinSolvers.Rotate | SW/QrDecompLinSolver.py:47-54 | rotating only the columns from i on is a full rotation of both rows, since the skipped columns are zero |
| QRDecompLinSolvers.Eliminate | SW/QrDecompLinSolver.py:38-54 | one visit zeroes its entry, keeps all earlier zeros and keeps the solution set, skipped or not |
| QRDecompLinSolvers.QRDecompLinSolver.GivensQr | SW/QrDecompLinSolver.py:29-54 | in place, for any size: the matrix ends upper triangular with the same solutions and the same kernel |
| QRDecompLinSolvers.QRDecompLinSolver.BackSubstitution | SW/QrDecompLinSolver.py:56-70 | reports failure exactly when a pivot is zero, otherwise the result solves the whole triangular system |
| QRDecompLinSolvers.QRDecompLinSolver.Solve | SW/QrDecompLinSolver.py:72-110 | reports failure if and only if K is singular; otherwise the raw vector satisfies K x = (1, ..., 1) and the weights are its projection |
| QRDecompLinSolvers.QRDecompLinSolver.ToWeights | SW/QrDecompLinSolver.py:97-110 | the scale, clamp and scale passes compute the projection, zero sums skipped |
| QRDecompLinSolvers.SolutionWeights | SW/QrDecompLinSolver.py:88-110 | a solution of K x = (1, ..., 1) is never the zero vector, so its weights lie in [0, 1] and sum to exactly 1 |
| Weights.ProjectSums | SW/QrDecompLinSolver.py:97-110 | weights are never negative and sum to exactly 1 if and only if the raw vector is not zero, also when the first sum is zero or negative |
| Weights.ClampedPositive | SW/QrDecompLinSolver.py:98-106 | after the first scaling and the clamp something positive is left of any nonzero vector |
| Weights.ProjectInUnit | SW/QrDecompLinSolver.py:97-110 | every weight lies between 0 and 1 |
| Weights.ProjectKeepsProportions | SW/QrDecompLinSolver.py:97-110 | exactly the elements with the sign of the sum (positive when it is zero) get a positive weight, and those keep their proportions |
| Covariance.CovIsBatch | SW/CovUpdate.py:32-39 | second moment minus product of means is the average product of deviations over all samples |
| Covariance.CovSymmetric | SW/CovUpdate.py:36-39 | the matrix is symmetric |
| Covariance.CovPositive | SW/CovUpdate.py:36-39 | it is positive semidefinite, and a direction of zero variance is one along which no sample deviates |
| Covariance.CovKernel | SW/CovUpdate.py:32-39 | with the implicit zero return among the samples, the kernel is exactly what is orthogonal to every return |
| LinearAlgebra.FreeDirection | SW/CovUpdate.py:5-12 | fewer than d vectors of length d leave a nonzero direction orthogonal to all of them, constructed |
| Covariance.FewSamplesSingular | SW/CovUpdate.py:32-39 | so d samples or fewer, the zero return included, always give a singular matrix |
| CovUpdates.CovarianceUpdateStack.Update | SW/CovUpdate.py:14-47 | after every update the fields are the mean, second moment and covariance of a zero return followed by all observed returns; the first update only stores prices and says not to proceed |
| CovUpdates.CovarianceUpdateStack.UpdateMeans | SW/CovUpdate.py:26-34 | the incremental mean is the mean of one more sample |
| CovUpdates.CovarianceUpdateStack.UpdateMoments | SW/CovUpdate.py:36-39 | the in-place pass gives second moments and covariances of one more sample |
| CovUpdates.CovarianceUpdateStack.Fire | HW/hls_ips/cov_update_src/cov_update.cpp:37-110 | consumes 4 words; sends nothing on the first firing and the 16 entries row by row afterwards |
| CovUpdates.MeanStep | HW/hls_ips/cov_update_src/cov_update.cpp:72-80 | the running-average formula with num_updates counts the implicit zero return as a sample |
| CovUpdates.MomentStep | HW/hls_ips/cov_update_src/cov_update.cpp:82-90 | the same for second moments |
| CovUpdates.CovAfterIsCovariance | HW/hls_ips/cov_update_src/cov_update.cpp:82-90 | after any run of prices, simple or logarithmic returns, the matrix is the batch covariance, symmetric and positive semidefinite |
| CovUpdates.CovAfterSingular | SW/CovUpdate.py:14-47 | it is singular if and only if some direction is orthogonal to every observed return |
| CovUpdates.ReturnsDecide | SW/CovUpdate.py:25-40 | the same over the returns between consecutive prices alone: the zero return counted first adds no condition |
| CovUpdates.FirstMatricesSingular | SW/CovUpdate.py:14-47 | with d stocks the matrices after 1 to d price vectors are singular whatever the prices |
| CovUpdates.SimpleReturnsCompound | SW/CovUpdate.py:26-30 | over any run of prices the product of 1 + return takes a stock's first price to its last |
| CovUpdates.LogReturnsAdd | HW/hls_ips/cov_update_src/cov_update.cpp:74-80 | logarithmic returns add up to the logarithm of last price over first, for every function that turns products into sums |
| CovUpdates.StillStock | SW/CovUpdate.py:26-40 | a stock whose price never moves has a zero row and column in the matrix, for both kinds of returns |
| QrStages.SolutionUnique | SW/QrDecompLinSolver.py:86-96 | a nonsingular system has one solution |
| QrStages.WeightsUnique | HW/hls_ips/qr_decomp_lin_solv_src/qr_decomp_lin_solv_axis.cpp:40-43 | hence the emitted words do not depend on how the square root is computed |
| QrStages.SolversAgree | SW/QrDecompLinSolver.py:72-110 | Newton's root and the hardware's root lead to the same weights |
| QrStages.WeightsInUnit | HW/hls_ips/order_gen_src/order_gen_axis.cpp:137-139 | no word the solver emits is infinite or a number outside [0, 1] |
| QrStages.SomeWeights | HW/hls_ips/qr_decomp_lin_solv_src/qr_decomp_lin_solv_axis.cpp:74-144 | for every matrix there are words the stage may emit |
| QrStages.UnflatFlat | HW/hls_ips/cov_update_src/cov_update.cpp:100-109 | the solver reads back the matrix that the covariance stage wrote |
| QrStages.QrDecompLinSolvAxis.GivensQr | HW/hls_ips/qr_decomp_lin_solv_src/qr_decomp_lin_solv_axis.cpp:34-55 | elimination with any root that is nonzero on positive numbers keeps solutions and kernel |
| QrStages.QrDecompLinSolvAxis.BackSubstitution | HW/hls_ips/qr_decomp_lin_solv_src/qr_decomp_lin_solv_axis.cpp:58-67 | without a test for zero pivots: numbers that solve the system when no pivot is zero, and a first word that is not a number otherwise |
| QrStages.ToWeightWords | HW/hls_ips/qr_decomp_lin_solv_src/qr_decomp_lin_solv_axis.cpp:102-134 | scale, clamp and scale turn a solution into its projection, and spread a first word that is not a number, infinite or not, to all four |
| QrStages.QrDecompLinSolvAxis.Fire | HW/hls_ips/qr_decomp_lin_solv_src/qr_decomp_lin_solv_axis.cpp:74-144 | consumes 16 words; the 4 words out are the projected solution if the matrix is nonsingular, and no numbers at all if it is singular |
| Bytes.NumberRoundTrip | SW/OrderGen.py:62-65 | a number that fits n bytes survives big-endian encoding |
| Bytes.BytesRoundTrip | SW/itch_server.py:102-102 | any bytes survive decoding to a number and back |
| Bytes.ShiftsAreBE | SW/OrderGen.py:62-65 | four shift-and-mask bytes are the big-endian form |
| Bytes.PackUnpack | SW/itch_parser.py:160-161 | whatever fits a fixed layout survives packing and unpacking |
| Bytes.FieldAt | SW/itch_parser.py:167-180 | with distinct field names each decoded field holds its own converted value |
| Bytes.StripIs | SW/ouch_parser.py:101-101 | stripping takes white space off both ends and leaves none there |
| Bytes.AsciiParts | SW/itch_parser.py:173-173 | exactly the ASCII bytes of a text are kept, in order |
| Itch.EncodeRow | SW/itch_encoder.py:45-96 | byte-by-byte writing into the zeroed message gives the 38-byte frame with every byte determined |
| Itch.CsvToBin | SW/itch_encoder.py:6-96 | the file is the concatenation of the rows' frames |
| Itch.ReadMessages | SW/itch_server.py:62-95 | the reader returns the complete messages of any file, also with a zero length field, and stops at the first incomplete one |
| Itch.CutFile | SW/itch_server.py:70-95 | an encoded file cut at any byte reads back as exactly its whole frames |
| Itch.DecodeMessage | SW/itch_parser.py:142-182 | unknown types and wrong sizes give nothing, anything else its converted fields |
| Itch.Decoded | SW/itch_parser.py:147-164 | a body is decoded exactly when it starts with A, E, D or X and has 36 bytes |
| Itch.FrameIsPacked | SW/itch_parser.py:29-41 | the encoder's bytes after the length are the parser's layout of the row |
| Itch.RowRoundTrip | SW/itch_parser.py:142-182 | decoding an encoded row gives all eight fields: type, reference, side, shares, stock and price as they were, for all 32-bit values, and nothing of the fillers |
| Itch.FeedRoundTrip | SW/itch_server.py:70-95 | rows to file, cut anywhere, to messages, to records: every row of a whole frame comes back in order |
| Ouch.PackOrder | SW/OrderGen.py:35-104 | the 48 bytes of an order, every byte determined |
| Ouch.ReverseEndianBytes | SW/OrderGen.py:182-193 | reverses each word, or reports the length that is not a multiple of four |
| Ouch.ReversedTwice | SW/itch_server.py:49-60 | the sender's and the server's reversals cancel |
| Ouch.WordsAreReversed | HW/hls_ips/order_gen_src/order_gen_axis.cpp:87-94 | words assembled by shifts and laid out low byte first are the software's reversed bytes |
| Ouch.DecodeMessage | SW/ouch_parser.py:65-109 | non-ASCII types raise, other types and sizes give nothing, an order gives its converted fields |
| Ouch.Decoded | SW/ouch_parser.py:76-91 | a body raises exactly when its first byte is not ASCII, and is decoded exactly when that is an O and it has 48 bytes |
| Ouch.OrderIsPacked | SW/ouch_parser.py:24-42 | the sender's bytes are the decoder's layout, the four zeros and the 32-bit price forming its 64-bit price |
| Ouch.OrderRoundTrip | SW/ouch_parser.py:65-109 | decoding a packed order gives all fourteen fields: reference, side, quantity, symbol and price as they were, for all 32-bit values, and the nine constants |
| Ouch.HandleIncomingMessage | SW/itch_server.py:97-141 | ignores anything but 196 bytes, and otherwise decodes the chunks in order, stopping at an exception |
| Ouch.RecordsAre | SW/itch_server.py:106-118 | the records are those of the four chunks in order, up to and including the first that raised |
| Ouch.ChunkIsOrder | SW/itch_server.py:106-109 | slice i of the message is order i |
| Ouch.BlobRoundTrip | SW/itch_server.py:97-141 | packed, reversed twice, sliced and decoded: the portfolio value and all four orders come back |
| OrderGen.OrderGenerator.OrderGen | SW/OrderGen.py:106-180 | each stock of a solvent account ends with whole shares worth at most its own weight times the net worth and short of it by less than one share, its weight being the one passed if that is a number and the one before otherwise; the account moves by one step and the 196 reversed bytes of its orders are returned; a value outside 32 bits leaves account and counter unchanged but the weights latched |
| OrderGen.PortfolioValue | SW/OrderGen.py:129-132 | the accumulating loop computes cash plus holdings at the given prices |
| OrderGen.PlanOrders | SW/OrderGen.py:142-172 | the loop gives each stock its target, its order with consecutive references, and the exact total cost |
| OrderGen.SelfFinancing | SW/OrderGen.py:129-176 | cash plus holdings at the prices of a move is unchanged by it, for any targets |
| OrderGen.TargetBound | SW/OrderGen.py:148-154 | whole shares never cost more than their allocation and less than one share less |
| OrderGen.StepSolvent | SW/OrderGen.py:129-176 | a solvent account stays solvent, and its cash exceeds what the weights leave over by less than the sum of prices |
| OrderGen.StepBuys | SW/OrderGen.py:148-154 | a step of a solvent account leaves each stock with what its own weight can buy, to within one share |
| OrderGen.RunSolvent | HW/hls_ips/order_gen_src/order_gen_axis.cpp:144-196 | over every run of positive prices and weights of total at most 1, cash and holdings never go negative |
| OrderGen.RunOrderIs | SW/OrderGen.py:142-172 | over every run the orders are numbered 1, 2, 3, ... in sequence; number 4k + i + 1 names stock i, buys, sells or leaves exactly the change of its holding in call k, and carries its price in ten-thousandths |
| OrderGenAxis.Accepted | HW/hls_ips/order_gen_src/order_gen_axis.cpp:132-142 | the words read before the stage gives up are those before the first that is neither no number nor in [0, 1] |
| OrderGenAxis.DeltaLeads | HW/hls_ips/order_gen_src/order_gen_axis.cpp:166-166 | with a cast that wraps, the signed difference is sure to lead from the holding to the target if and only if the target fits a signed word |
| OrderGenAxis.OrderGenStage.Fire | HW/hls_ips/order_gen_src/order_gen_axis.cpp:102-197 | for all weight words: an early return consumes the prices and the weights up to the rejected one and sends nothing; otherwise, numbers or not, the account moves to the targets the conversions gave and 49 words are sent, whose differences are exact up to the cast of the target wherever that fits |
| OrderGenAxis.PackWords | HW/hls_ips/order_gen_src/order_gen_axis.cpp:42-95 | the twelve words are the big-endian words of the 48 bytes |
| OrderGenAxis.SameBytes | SW/OrderGen.py:138-193 | the words of any firing, low byte first, are the reversed bytes that the software makes of the same portfolio value and orders |
| Replay.ComputePortfolio | SW/GUI.py:19-46 | the row-by-row dictionary equals signed sums of shares and cost per symbol |
| Replay.RowIsDecoded | SW/itch_server.py:131-138 | decoding the bytes of an order gives exactly the columns of its log row, for all 32-bit values |
| Replay.StepPays | SW/OrderGen.py:154-176 | the cash change of a move to any targets is exactly the signed cost of its orders at true prices |
| Replay.CostError | SW/OrderGen.py:29-33 | price truncation makes an order's logged cost differ by at most its quantity / 10000 |
| Replay.OneOrderShares | SW/GUI.py:36-44 | replaying one order moves its own stock to the target and no other |
| Replay.StepReplay | SW/GUI.py:29-46 | replaying the orders of a move to any targets keeps the replayed shares exact and the cost within the truncation error |
| Replay.RunReplay | SW/GUI.py:29-46 | replaying every order of any run gives exactly the generator's holdings, and total cost within shares traded / 10000 of 10000 - cash |
| HardwareAccounts.FiringConserves | HW/hls_ips/order_gen_src/order_gen_axis.cpp:144-196 | every hardware firing, whatever its weights, leaves the net worth at its prices unchanged |
| HardwareAccounts.RunRanges | HW/hls_ips/order_gen_src/order_gen_axis.cpp:154-182 | over every run references advance by four per firing and holdings are unsigned words |
| HardwareAccounts.HwOrderIs | HW/hls_ips/order_gen_src/order_gen_axis.cpp:158-182 | over every run of firings the orders are numbered 1, 2, 3, ... in sequence; number 4k + i + 1 names stock i and buys or sells the difference that came out of firing k |
| HardwareAccounts.FiringReplays | HW/hls_ips/order_gen_src/order_gen_axis.cpp:159-178 | from holdings in signed words: whatever the conversions give, replaying the orders reproduces the account after a firing if and only if its weights are numbers whose targets fit signed words |
| HardwareAccounts.HwReplay | HW/hls_ips/order_gen_src/order_gen_axis.cpp:159-190 | after any past that replay reproduces: all ways to go on are reproduced throughout if and only if every weight still to come is a number whose target, on the software's own account, fits a signed word |
| HardwareAccounts.FiringSolvent | HW/hls_ips/order_gen_src/order_gen_axis.cpp:160-196 | for any account, weight words and positive prices: whatever the conversions give, the cash is not negative after the firing if and only if the account can pay for the largest targets its words may convert to |
| HardwareAccounts.NumbersSolvent | HW/hls_ips/order_gen_src/order_gen_axis.cpp:160-196 | a solvent account given numbers that are non-negative and sum to at most 1 always stays solvent, even where a target does not fit 32 bits |
| HardwareAccounts.SolventExactly | HW/hls_ips/order_gen_src/order_gen_axis.cpp:160-196 | for a solvent account worth less than 2^32 - 1 dollars, at prices of a dollar or more: whatever the conversions give the cash is not negative, if and only if every weight is a number |
| HardwareAccounts.HwSolvent | HW/hls_ips/order_gen_src/order_gen_axis.cpp:144-196 | after any past that left such an account: all ways to go on stay solvent throughout if and only if the next weights are numbers |
| HardwareAccounts.GoOn | HW/hls_ips/order_gen_src/order_gen_axis.cpp:154-167 | whatever was fired so far, there is a run to the end of the inputs that goes on with the largest targets |
| HardwareAccounts.FirstFiringFails | HW/hls_ips/order_gen_src/order_gen_axis.cpp:154-178 | concrete run: at any prices of a dollar or more the first firing may leave the cash below -4000000000 and book 2^32 - 1 shares of each stock while it sells one |
| Channels.ReadLast | HW/hls_ips/order_gen_src/order_gen_axis.cpp:123-127 | words read one at a time between writes still make up exactly the next group written |
| Pipeline.KeepInv | HW/hls_ips/ta_parser_src/ta_parser.cpp:33-112 | each of the eleven word moves and firings keeps the invariant of all five streams |
| Pipeline.Aligned | HW/hls_ips/order_gen_src/order_gen_axis.cpp:121-142 | in every interleaving, firing j of order generation pairs the prices of snapshot j + 1 with weights computed from snapshots 0 to j + 1, and the early return is never taken |
| Pipeline.ScheduleIndependent | HW/hls_ips/ta_parser_src/ta_parser.cpp:90-111 | two schedules over the same snapshots give order generation the same firings |
| Pipeline.NotRejected | HW/hls_ips/order_gen_src/order_gen_axis.cpp:132-142 | no weight word waiting in the stream would be rejected |
| Pipeline.NumbersExactly | HW/hls_ips/cov_update_src/cov_update.cpp:72-98 | firing j of order generation gets numbers if and only if no nonzero direction is orthogonal to all returns of snapshots 1 to j + 1, and four no-numbers otherwise |
| Pipeline.NumbersStay | HW/hls_ips/cov_update_src/cov_update.cpp:72-98 | once a firing gets numbers, so does every later one |
| Pipeline.FirstFiringsSingular | HW/hls_ips/qr_decomp_lin_solv_src/qr_decomp_lin_solv_axis.cpp:58-67 | the first three firings of order generation always get words that are no numbers |
| Pipeline.RestIsIdle | HW/hls_ips/qr_decomp_lin_solv_src/qr_decomp_lin_solv_axis.cpp:82-91 | no stage is enabled exactly when every buffer and stream is in its idle state: no stage can block, not even the solver at its last word |
| Pipeline.NothingStuck | HW/hls_ips/cov_update_src/cov_update.cpp:62-109 | when only a new snapshot is enabled, no word is left anywhere and order generation has fired once per snapshot after the first |
| Pipeline.ComesToRest | HW/hls_ips/ta_parser_src/ta_parser.cpp:33-112 | from every reachable state the stages come to rest without a further snapshot, and order generation has then caught up |
| Pipeline.RunOver | HW/hls_ips/ta_parser_src/ta_parser.cpp:33-112 | every list of snapshots has a run that publishes it and ends at rest with one firing per snapshot after the first |
| Pipeline.EachMovesOne | HW/hls_ips/ta_parser_src/ta_parser.cpp:50-62 | every action but publishing moves exactly one word |
| Pipeline.MovesBounded | HW/hls_ips/ta_parser_src/ta_parser.cpp:33-112 | a snapshot causes at most 216 moves, so the stages always come to rest |
| EndToEnd.FiringIsSound | HW/hls_ips/order_gen_src/order_gen_axis.cpp:121-157 | every firing has prices of at least a dollar, and if its weights are numbers they are non-negative and sum to at most 1 |
| SnapshotPrices.EntryPositive | SW/TaParser.py:6-23 | down to one tick below the ladder every price the client computes from its own trees is positive, although one published quantity may be zero |
| SnapshotPrices.PricesNear | SW/test_tcp_client.py:121-134 | so is every price over whole runs, with snapshots anywhere between the messages |
| SnapshotPrices.SnapshotsDiffer | SW/Orderbook.py:152-169 | concrete run: after one ask 400 below the ladder the order lists and levels of the twins agree, but the software publishes 999400 as its best ask and the hardware 1153000 |
| ClientAccounts.ClientAccount | SW/test_tcp_client.py:135-154 | whatever the positive prices, the account of the software client, which skips the first snapshot and failed solves, stays solvent and the replay of its orders reproduces it |
| ClientAccounts.ClientRun | SW/test_tcp_client.py:66-154 | the same for a client fed with any messages at prices down to one tick below the ladder, on the snapshots it takes itself anywhere between them |
| Clients.SolvedAre | SW/QrDecompLinSolver.py:72-110 | whatever solution the solver finds, its weights are the ones that the client's account is said to use |
| Clients.Client.MarketPrices | SW/test_tcp_client.py:124-133 | publishing and pricing gives the prices of the published entries, stock by stock |
| Clients.Client.Trade | SW/test_tcp_client.py:135-150 | on one price vector the client calls order generation if and only if it is not the first and the matrix is not singular; its account then makes exactly the step with the solver's weights that `ClientAccount` counts, and the step's orders are sent, unless its worth does not fit four bytes |
| Clients.Client.Receive | SW/test_tcp_client.py:85-154 | whatever messages down to one tick below the ladder it receives, the client publishes after every twentieth, and its book, its prices and its account are those of `ClientRun` |
| ReturnsApart.UnitPrice | SW/TaParser.py:6-23 | with one share at each of ten levels the market price is that of the average level |
| ReturnsApart.LogsLeaveDirection | HW/hls_ips/cov_update_src/cov_update.cpp:77-78 | for five concrete price vectors and every logarithm, a nonzero direction is orthogonal to all logarithmic returns |
| ReturnsApart.SimpleLeaveNone | SW/CovUpdate.py:28-29 | but none to all simple returns of the same prices |
| EndToEnd.HardwareAgainstClient | HW/hls_ips/cov_update_src/cov_update.cpp:77-78 | for the same snapshots, in every interleaving, hardware firing and client call have the same prices; the firing has numbers if and only if no nonzero direction is orthogonal to all logarithmic returns so far, the client calls if and only if none is to all simple returns; neither before the fifth snapshot |
| EndToEnd.TwinsTradeApart | SW/CovUpdate.py:29-30 | concrete run: five snapshots on the ladders after which the client trades and the hardware gets no numbers |
| EndToEnd.ClientIsPipeline | SW/CovUpdate.py:30-30 | a client rebuilt with the hardware's returns, as in the line that is commented out, would make exactly the hardware's firings with numbers, weights and prices included |
| EndToEnd.HardwareAccount | HW/hls_ips/order_gen_src/order_gen_axis.cpp:102-197 | in every interleaving, after any past that left the account solvent and worth less than 2^32 - 1 dollars: it stays solvent whatever the conversions give if and only if no nonzero direction is orthogonal to all returns of the snapshots so far |
| EndToEnd.HardwareReplay | HW/hls_ips/order_gen_src/order_gen_axis.cpp:159-190 | after any past that replay reproduces, it goes on doing so whatever the conversions give if and only if all firings to come have numbers whose targets fit signed words |
| EndToEnd.HardwareNeverSafe | HW/hls_ips/order_gen_src/order_gen_axis.cpp:132-166 | from the start neither solvency nor replay is certain on any snapshots: each holds in all runs if and only if order generation has not fired |
| EndToEnd.HardwareMayFail | HW/hls_ips/order_gen_src/order_gen_axis.cpp:132-178 | on whatever snapshots, some run through all firings is billions in debt after the first, with 2^32 - 1 shares of each stock for orders that sold one |
| EndToEnd.NumericFiring | HW/hls_ips/order_gen_src/order_gen_axis.cpp:144-190 | a firing with numbers, from a solvent account worth less than 429496.7296 dollars, is the software's step, order for order |
| EndToEnd.OrdersFit | HW/hls_ips/order_gen_src/order_gen_axis.cpp:155-190 | an account worth less than 429496.7296 dollars sends only numbers that fit their 32-bit fields |
| EndToEnd.WireToLog | SW/itch_server.py:97-138 | the hardware's words of such a firing reach the server's log as exactly the rows that are replayed |

## Left out

- OrderGen.OrderGenerator.OrderGen: a weight is a number or no number, not infinite, and prices are nonzero (`MarketPricePositive`), so OverflowError from an infinite weight and ZeroDivisionError are not modelled.
- CovUpdates.CovarianceUpdateStack.Update: requires nonzero prices, which `MarketPricePositive` provides.
- OrderStream.GenerateOrders: a row must name one of the four stocks, since the book ignores all others, and fewer than 2^32 orders are added.
- LowPrices.SoftwareOrders: between two and 256 ticks below the ladder it holds from one snapshot to the next only; `SnapshotLoses` shows why.
- HardwareAccounts.HwReplay: starts from holdings below 2^31; above, the conversion of the holding to a signed word may give anything.
- HardwareAccounts.HwSolvent: the account is worth less than 2^32 - 1 dollars before the next firing; `FiringSolvent` has the exact condition for one firing of any account.
- ClientAccounts.ClientRun: its own prices are shown positive down to one tick below the ladder only; further below, list elements taken again are published with quantity zero.
- Clients.Client.Receive: messages at prices down to one tick below the ladder only, as `ClientRun`; reading and decoding the socket's bytes is left out of the object, and a type that the client counts but does not handle is a message of another kind.
- Rounding, overflow and signed zeros of IEEE floating point: numeric stages are over the reals, and the sign of an infinity is left open.
- The wrap of the update counters and of userRefNum after 2^32 firings.
- In `order_gen` the loop that plans and packs each order is split into a loop that plans and a loop that packs; the bytes and the account are the same.
- The hardware's eight ladders are one list (bids, then asks) instead of two arrays; max_price and num_levels, which nothing reads except as constants, are dropped. The software's StockOrderBook and OrderList are part of its manager object.
- A stage's firing is one method call in its class; that its reads and writes interleave with other stages' is modelled in `Pipeline` only.
- Bit slicing of the 136-bit message: messages are records of the sliced fields. The hardware feed parser is not part of this model.
- CSV text, files, sockets, threads, logging, plots and prompts.
- The distributions, age weights and price interpolation behind the generator's random draws: every value they can yield is allowed.
- Bounded FIFO depth, pragmas and clocking: streams are unbounded.
- The older book variant under axi_implementation, the SDK code, test benches and the dummy burst stage: they add no new property.
