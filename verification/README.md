# A verified model of the exchange core

The exchange is a FIX gateway in front of a matching engine with one price-time-priority order
book per symbol. Three other parts keep copies of what rests in the books: the gateway's order
maps, the `resting_orders` table of the persistence layer, and the UI's per-price totals rebuilt
from multicast packets. This project models the books, the engine's dispatch, the three
copies and the recovery sequence as one state machine, and proves what every run of
it keeps. Two smaller cores stand beside it: the single-producer single-consumer ring buffer with
its drain on stop, and the FIX framing of the benchmark client.

`dafny verify dfyconfig.toml` checks everything.

## How the modules fit together

| layer | modules |
|---|---|
| values and the flat reference book | `Options`, `Orders`, `Matching`, `Books` |
| the indexed book that refines it | `PriceLevels`, `IndexedBook` |
| the history of a book: time stamps, conservation, cumulative quantities | `Ledger`, `Priority` |
| engine dispatch and its callbacks | `Engine`, `Dispatch`, `EngineThread` |
| what callbacks say, and the copies that fold them | `Views`, `Leftovers`, `Gateway`, `MessageFactory`, `Executions`, `Publishing`, `Agreement`, `Touching`, `Announcing`, `Persistence`, `Mirror`, `Requests` |
| the whole system over runs, crashes and restarts | `System`, `Crashes`, `Recovery`, `Theorems`, `Service`, `Examples` |
| objects updated in place | `IndexedBook.OrderBook`, `EngineThread.MatchingEngine`, `GatewayObject.FixGateway`, `PersistenceThread.PersistenceLayer`, `MirrorServer.MarketData`, `RingBufferObject.SpscRing`, `FixFraming.FixSession` |
| objects put together | `Startup`, `Exchange` |
| ring buffer, ids, framing | `RingBuffer`, `OrderIds`, `FixFraming` |

The book is specified twice. `Books` is the naive one: two flat sequences in price-then-arrival
order, every operation a linear search. `IndexedBook.OrderBook` is the program's: sorted levels of
queues, nodes addressed by handles (the list iterators), an id index, a matching loop. Each method
of the class is proved equal to the flat operation, and everything else is proved about the flat
book. `Exchange` ties the objects back to the system model: one method per action takes them,
queue included, where the model's action goes, and `Exchange.Perform` does so for a whole run.

Most lemmas begin by hiding the definitions they do not need and take the few facts they do need
from small lemmas beside them; that is why many of those have no body to speak of.

Below, a replace is *honoured* if it asks for at least one unit, finds no order, or asks for nothing at
another price (`Views.Honoured`); an action is *defined* if what it takes from the queue names a registered
symbol and is not a replace that is not honoured (`System.Defined`).

The system has three invariants, each stronger than the one before and kept by fewer actions. `Base`
(books, histories, queue, and whom the gateway's records name) is kept by every defined action; `Published`
(the prices in the records, and the table; the mirror beside it) by every defined action of which the table
and the mirror are told; and `Inv` (the records exact) by every defined action that touches no order
without a session. Each boundary is exact: the `ThroughoutIff` theorems say that a run which crosses it
breaks what lies behind.

## What the proofs found

The following are false of the code as it stands. Each has its exact condition, and an input at
which it shows.

- A replace that is filled completely on re-entry is never published: the fill has already erased
  the session (`src/gateway/FixGateway.cpp:347-350`), so the replace callback returns early (line 262).
  The table and the mirror keep the order for ever (`GhostsStay`). The table agrees with the books after
  a run if and only if the run has no such step (`TableAgreesIff`, input `SilentFillHappens`). What a crash
  leaves behind can be restored, at every cut of the event stream, if and only if at no step an order
  came to rest at a price that meets such an order (`CrashRecoveryIsSafeIff`, input
  `CrossedAfterSilentFill`).
- A cancel or replace of a restored order whose owner has not logged on changes the book but is not
  published (`CancelPublishedIff`, `UnknownReplacePublishedIff`, inputs `EarlyCancelLost`,
  `EarlyReplaceLost`). A fill of such an order is published, but leaves the gateway's record as it was
  (input `EarlyFillStale`).
- A replace for less than one unit, which the gateway does not refuse, can leave an order without
  quantity in the book (`ReplaceKeepsValidIff`, input `EditedToNothing`). It leaves a valid book that its
  callback describes exactly if it is honoured (`ReplaceFitsIff`).
- A replace to nothing at another price is honoured. It takes the order out of book, gateway and table, but
  leaves an entry of quantity zero in the mirror: after a run the mirror equals the books if and only if no
  replace was filled on re-entry and none was to nothing at another price (`MirrorAgreesIff`, input
  `EmptiedEntryStays`).
- For one replace of an order with a session, `KnownReplacePublishedIff` puts this together. The table
  shows the book afterwards if and only if the replace is honoured and is not filled on re-entry; the
  mirror, if and only if it does not ask for less than nothing of an order that rests, is not filled on
  re-entry and is not to nothing at another price. A replace to nothing at the same price deletes the row
  while the book keeps the order, without quantity; the mirror then keeps it too.
- Over whole runs from any state in agreement, a restart with nobody logged on included: the gateway's
  records agree throughout if and only if no step touches an order without a session and none is a
  replace for less than one unit of a resting order, unless to nothing at another price
  (`GatewayAgreesThroughoutIff`); the table and the mirror, if and only if no order without a session is
  cancelled or replaced, unless by what already rests, and no replace is one of the kinds above
  (`TableAgreesThroughoutIff`, `MirrorAgreesThroughoutIff`).
- The fill-or-kill pre-check counts the whole opposite side for order types other than market and
  limit, which the gateway does not refuse; such an order can pass the check, fill nothing and get no
  report (`PreCheckExactIff`, input `StopOrderDefeatsFok`).
- A cancel report claims LeavesQty equal to the order quantity, which is never zero, and CumQty 0; a
  replace report claims the full new quantity as open and CumQty 0. The cancel report gives what was left
  and what was traded exactly when the order had not traded; the replace report is right exactly when the
  replace made no trade (`CancelReportIff`, `ReplaceReportIff`, inputs `CancelReportWrong`,
  `ReplaceReportWrong`). Fill, status and time-in-force reports are right in every defined run
  (`FillsAreReported`, `ReportsCumulate`, `TifReportRight`).
- A snapshot repairs a symbol's levels but does not remove stale per-order entries
  (`SnapshotEntriesIff`, input `StaleAfterSnapshot`).
- The client's framing breaks on any field whose text contains `10=`, for instance tag 110
  (`BuiltIsWholeIff`, input `TagBreaksFrame`).

`docs/MESSAGES.md:50` describes the `ReplaceInPlace` packet as a quantity-only reduction. The code sends
it for every replace at an unchanged price, also for an increase that leaves the queue and re-enters; the
model follows the code.

## Modelling choices

- An exchange id is the number n of its text `EXCH-n`; `OrderIds` proves that text and number
  determine each other and that the SQL read-back recovers the number.
- Prices are integer ticks, since the program only compares them. Quantities are unbounded integers.
- Side codes other than `'1'` are sells, as in the book. Type codes other than `'1'` and `'2'` are kept
  (`Other`). Time-in-force codes other than `'3'` and `'4'` are the default.
- Each gateway callback is one step. The verdicts of the symbol and risk checks are inputs.
- A cancel or replace arrives with its ClOrdID already resolved to an id that was assigned earlier;
  one that cannot be resolved never reaches the engine.
- Runs are sequences of messages, logons and dequeues in any order; any request may be sent and queued. On
  an item whose symbol is not registered the program dereferences the end of a map
  (`src/engine/MatchingEngine.cpp:173-178`), so no theorem speaks of what follows one.
- Histories (`Ledger`) and the components `view`, `kept`, `dropped`, `ghosts` and `blanks` of the system
  state exist for the proofs. They record entries, resting orders, orders known to the gateway that do not
  rest, published orders that no longer rest, and orders taken out by a replace to nothing.

## Model

| member | source | states |
|---|---|---|
| Matching.SweepIsGreedy | src/engine/OrderBook.cpp:92-122 | The matching loop is greedy allocation: the quantity filled is the smaller of what is wanted and what is reachable; trade i is with the i-th order of the side in price-then-arrival order; all makers touched but the last are consumed; the rest of the side is untouched. |
| Matching.SweepRest | src/engine/OrderBook.cpp:92-122 | What remains of the opposite side is a suffix of it, and an aggressor with quantity left has nothing more it may trade with. |
| Matching.AvailableIsDepth | src/engine/OrderBook.cpp:131-145 | For market and limit orders the pre-check counts exactly what the matching loop can reach. `Dispatch.DepthIsReach` says what that is in prices. |
| Matching.AvailableIsTotal | src/engine/OrderBook.cpp:131-145 | For any other type it counts the whole opposite side. |
| Matching.DepthIsCrossingTotal | src/engine/OrderBook.cpp:92-122 | On a sorted side, stopping at the first price out of reach loses nothing: the reachable quantity is that of all orders at a price the aggressor accepts. |
| Books.AddKeepsValidIff | src/engine/OrderBook.cpp:24-39 | Whatever an order's type, price, quantity and time in force, adding it keeps both sides sorted, ids unique, quantities positive and the best bid below the best ask, iff it does not come to rest beside another order with its id; with a new id it never does. |
| Books.RestoreKeepsValid | src/engine/OrderBook.cpp:12-22 | Inserting without matching keeps the book valid if nothing on the other side crosses the order. |
| Books.CancelKeepsValid | src/engine/OrderBook.cpp:41-58 | A cancel keeps the book valid, removes that id and no other. |
| Books.CancelKeepsOthers | src/engine/OrderBook.cpp:41-58 | What a cancel leaves is exactly the other orders, in the order they stood in. |
| Books.ReplaceKeepsValidIff | src/engine/OrderBook.cpp:60-89 | A replace keeps the book valid iff it is not an in-place edit to a non-positive quantity. |
| Books.ReplaceFoundIff | src/engine/OrderBook.cpp:60-89 | The result is -1 iff the order is absent or was asked to become -1, and counts as found iff the order was present and the quantity is not negative. |
| Books.ReplaceInPlace | src/engine/OrderBook.cpp:66-70 | A replace at the same price for less than is left keeps every queue position and changes only that order's quantity. |
| Books.ReplaceLosesPlace | src/engine/OrderBook.cpp:72-88 | After any other replace, whatever its quantity, what is left of the order stands behind everything at its price, ahead of everything worse, and no other order of its side has moved. |
| PriceLevels.PushBackInserts | src/engine/OrderBook.cpp:28-36 | Appending to the price's queue, created if missing, is insertion in price-then-arrival order on the flat side. |
| PriceLevels.EraseDrops | src/engine/OrderBook.cpp:48-56 | Erasing a node through its price and handle, and the level if it empties, drops exactly that node from the side and keeps the levels sorted and non-empty. |
| IndexedBook.IndexFinds | src/engine/OrderBook.cpp:41-46 | The index holds exactly the ids of resting orders, and its handle leads to the order a linear search finds, on that order's side. |
| IndexedBook.PlacedRestores | src/engine/OrderBook.cpp:28-36 | Placing an order in its level and the index is insertion into the flat book; the index still finds every order iff the id was new. |
| IndexedBook.OrderBook.constructor | src/engine/OrderBook.cpp:7-10 | A new book is empty and coherent. |
| IndexedBook.OrderBook.RestoreOrder | src/engine/OrderBook.cpp:12-22 | For every order: equals insertion into the flat book; the index still finds every order iff the id was not resting. |
| IndexedBook.OrderBook.AddOrder | src/engine/OrderBook.cpp:24-39 | For every order of the book's symbol: new contents, leaves and trades equal those of adding to the flat book; book and index stay in order iff it does not come to rest beside another order with its id. |
| IndexedBook.OrderBook.CancelOrder | src/engine/OrderBook.cpp:41-58 | Equals linear-search removal; true iff the order was present. |
| IndexedBook.OrderBook.ReplaceOrder | src/engine/OrderBook.cpp:60-89 | New contents, result and trades equal those of the flat replace; the book is valid afterwards iff the order was not edited in place down to nothing. |
| IndexedBook.OrderBook.MatchAgainst | src/engine/OrderBook.cpp:92-122 | The loop over levels, queues and index equals the sweep of the flat opposite side: aggressor, trades and remaining book. It terminates. `Dispatch.AddReaches` says what it fills, in prices. |
| IndexedBook.OrderBook.AvailableToFill | src/engine/OrderBook.cpp:131-145 | The level-by-level count equals the count over the flat side. `Dispatch.KilledIff` says what that is in prices. |
| IndexedBook.OrderBook.GetLevels | src/engine/OrderBook.cpp:147-165 | Lists, best price first, exactly the prices with resting orders, each with the quantity resting there. |
| IndexedBook.OrderBook.GetOrders | src/engine/OrderBook.cpp:167-174 | All bids then all asks, each in priority order. |
| Ledger.StepKeepsAccountsIff | src/engine/OrderBook.cpp:24-129 | One add, cancel or replace keeps the following iff it does not edit an order in place down to nothing: every price's queue sorted by time of (re-)entry; every order's missing quantity equal to what it traded since it entered or was resized; bought equal to sold; entered equal to traded, resting, cancelled, discarded and replaced; every fill pair equal, positive, at one price, on opposite sides, with honest CumQty. |
| Ledger.RunKeepsAccountsIff | src/engine/OrderBook.cpp:24-129 | The same holds throughout any sequence of operations iff none edits an order in place down to nothing. |
| Priority.StepIsInPriority | src/engine/OrderBook.cpp:24-122 | Whenever a maker trades, every order on its side with a better price, or the same price and an earlier entry, has already been filled completely. |
| Priority.RunIsInPriority | src/engine/OrderBook.cpp:24-122 | The same for every operation of every run from an empty book, up to and including the first that edits an order down to nothing. |
| Engine.AddFills | src/engine/OrderBook.cpp:24-39 | What add fills is the smaller of the order's quantity and the quantity resting at prices it accepts; `Dispatch.AddReaches` says which those are. |
| Engine.PreCheckExactIff | src/engine/OrderBook.cpp:131-145 | The pre-check predicts the fill exactly, unless the order is neither market nor limit, exceeds what it can reach and has something out of reach. |
| Engine.StopOrderDefeatsFok | src/engine/MatchingEngine.cpp:133-139 | A concrete stop-type fill-or-kill order passes the pre-check, fills nothing and causes no callback. |
| Engine.FokAllOrNothing | src/engine/MatchingEngine.cpp:133-139 | A market or limit fill-or-kill order is filled completely, or the book is unchanged and it is cancelled for its full quantity; it never rests. |
| Engine.OrderMeetsOneEnd | src/engine/MatchingEngine.cpp:129-148 | Each order ends filled, rested, cancelled for its time in force with leaves equal to quantity less fills, or silently dropped; the rested callback is made iff the book holds the order, with the leaves now there; among market and limit orders only default market orders are dropped. |
| Engine.SweepPrices | src/engine/OrderBook.cpp:92-122 | Both halves of a trade have equal positive quantity at the maker's price, within the aggressor's limit; prices never improve during one sweep. `Dispatch.AddReaches` says what the limit is. |
| Dispatch.AddReaches | src/engine/OrderBook.cpp:92-122 | A market order fills the smaller of its quantity and everything that rests opposite, whatever its price field says; any other order fills the smaller of its quantity and what rests opposite at its price or a better one (at or below it for a buy, at or above it for a sell), and every trade is within that price. |
| Dispatch.KilledIff | src/engine/OrderBook.cpp:131-145 | A fill-or-kill order is cancelled whole, with the book unchanged, iff less is promised than it asks for: for a limit order what rests within its price, for any other everything that rests opposite. |
| Dispatch.NewOrderFate | src/engine/MatchingEngine.cpp:129-148 | The book's answer and the callbacks for every type and time in force: default orders fill as far as they reach and then rest if limit orders and are dropped otherwise; immediate-or-cancel orders fill as far as they reach and are cancelled for the rest; fill-or-kill orders are cancelled whole if too little is promised. Only default limit orders ever rest, with what is left. |
| Views.ProcessFits | src/engine/MatchingEngine.cpp:129-156 | Folding the callbacks of one dequeued item over the set of resting orders gives exactly the resting orders of the new book, and touches no other symbol. |
| Views.ReplaceFitsIff | src/engine/MatchingEngine.cpp:153-156 | A replace leaves a valid book that its callbacks describe iff it asks for at least one unit, finds no order, or asks for nothing at another price. |
| Publishing.SweepPublishes | src/gateway/FixGateway.cpp:339-386 | The fills of a sweep are all published, and after any number of them the published orders are the earlier ones with some reduced or gone. |
| Executions.TradeInBooks | src/engine/OrderBook.cpp:92-122 | The i-th trade of an order is with the i-th order opposite, at that order's price, for what that order loses between the books before and after; the maker's half gives what rests of it afterwards, the taker's half what the entering order still wants. |
| Executions.TradeIsSent | src/gateway/FixGateway.cpp:339-386 | For each such trade: one report to each party that had a session, filled iff nothing is left, else partly filled, with LeavesQty what is left and CumQty what is missing from the order quantity; one packet with what rests of the maker; one trade print with the quantity that changed hands at the maker's price; one database event for each party. |
| Agreement.StepAgrees | src/gateway/FixGateway.cpp:251-414 | A defined engine step that touches no order without a session keeps the gateway's records equal to the resting orders and the queued or dropped ones. |
| Announcing.StepFollows | src/gateway/FixGateway.cpp:251-414 | Any defined step leaves the gateway with a record of every resting, queued and dropped order, with its current price unless the step cancelled or replaced an order without a session. |
| Announcing.StepAnnounces | src/gateway/FixGateway.cpp:251-414 | If moreover it did not, and is no replace to nothing, every outgoing message is true of the order it names, and what is published is exactly the book's changes, except for a replace filled on re-entry; fills of orders without a session included. `Executions.TradeIsSent` says what a fill sends. |
| Touching.UnboundFrozen | src/gateway/FixGateway.cpp:343-345 | No callback changes the record of an order without a session. |
| Touching.TouchedChanges | src/gateway/FixGateway.cpp:339-386 | A step that is not of that kind changes, in the book, an order without a session. |
| Persistence.NotifyPersists | src/persistence/PersistenceLayer.cpp:157-288 | At every point among one callback's events the table holds the published orders from just before or just after that callback. |
| Persistence.CutPersists | src/persistence/PersistenceLayer.cpp:146-299 | A table cut anywhere in a step's events is the table after some number of the step's callbacks. |
| Persistence.RowsComeBack | src/persistence/PersistenceLayer.cpp:316-339 | From a table that shows a book, every resting order comes back with its id, client, symbol, side, price and what was left of it, as a default limit order for that quantity. |
| Persistence.RecoveryRebuildsIff | src/main.cpp:144-151 | Whatever the table and the row order: restoring gives valid books holding exactly the rows of known symbols if those can rest side by side, and some invalid book if they cannot. |
| Mirror.ApplyMdKeeps | ui/main.py:103-158 | A packet that is about the order it names keeps every level equal to the sum of its orders, with no empty level listed. |
| Mirror.NotifyMirrors | src/market_data/MarketDataPublisher.cpp:37-113 | Applying the packets of one callback keeps the mirror equal to the published orders and each level equal to their sum. |
| Mirror.BlankMirrors | src/market_data/MarketDataPublisher.cpp:81-113 | The packets of a replace to nothing at another price leave every level equal to the sum of the remaining orders, and an entry of quantity zero for the one that is gone. |
| Mirror.MirrorShowsBook | src/engine/OrderBook.cpp:147-165 | A mirror of a symbol's resting orders shows at every price the quantity resting there, and lists exactly the prices with something resting. |
| Requests.CancelPublishedIff | src/gateway/FixGateway.cpp:303-337 | After a cancel the table shows the symbol's book iff there was nothing to cancel or the gateway has the order with a session; and so does a mirror that showed the book before. |
| Requests.UnknownReplacePublishedIff | src/gateway/FixGateway.cpp:251-283 | After a replace of an order that the gateway does not have with a session, the table shows the symbol's book iff there was nothing to replace or the replace asks for the price and quantity that already rest; and so does the mirror. |
| Requests.KnownReplacePublishedIff | src/gateway/FixGateway.cpp:251-301 | After a replace, for any quantity, of an order that the gateway has with a session: the table shows the symbol's book iff the replace is honoured and is not filled on re-entry; the mirror shows it iff the replace does not ask for less than nothing of a resting order, is not filled on re-entry and is not to nothing at another price. |
| Requests.ReplaceReportIff | src/gateway/MessageFactory.h:20-49 | For every replace of a resting order: the owner gets a reject if less than nothing is left, and otherwise a report of which LeavesQty is what is left, and CumQty what the replace traded, iff it made no trade. |
| Requests.TifReportRight | src/gateway/MessageFactory.h:75-100 | The report of a time-in-force cancel claims nothing open and as CumQty exactly what the order filled, and the order does not rest. |
| System.NextKeepsBase | src/gateway/FixGateway.cpp:103-249 | Every message, logon and defined dequeue keeps books and histories, queue, and whom the gateway's records name, also when it touches orders without a session. |
| System.NextKeepsPublished | src/gateway/FixGateway.cpp:251-414 | If moreover it cancels or replaces no order without a session, unless by what already rests, it keeps the table, and the mirror if that was right. |
| System.NextKeepsInv | src/gateway/FixGateway.cpp:103-249 | If moreover it touches no order without a session, it keeps the invariant of the whole system, with the gateway's records exact. |
| System.ExecKeepsInv | src/engine/MatchingEngine.cpp:116-170 | So does every run of such actions. |
| Crashes.RecoverableIff | src/persistence/PersistenceLayer.cpp:316-339 | In every reachable state, what is in the table once everything is flushed can be restored iff no silently filled order meets an order it would trade with. |
| Crashes.StepMeetsIff | src/engine/OrderBook.cpp:24-39 | A step lets a silently filled order and another published one cross iff it puts an order to rest, by add or replace, at a price that meets a silently filled one on the other side; a fill on re-entry itself never does. |
| Crashes.EveryCutSafeIff | src/persistence/PersistenceLayer.cpp:146-299 | Every prefix of a run's event stream, cuts inside a step included, leaves something restorable iff at no step of the run an order came to rest at a price that meets a silently filled one; from any state whose table is right, whatever the mirror. |
| Theorems.GatewayAgreesInEveryRun | src/gateway/FixGateway.cpp:168-184 | After every run from an empty exchange the gateway has a record of exactly the resting, queued and silently dropped orders, each with a session; for a resting order the record is the order in the book. |
| Theorems.GatewayAgreesThroughoutIff | src/gateway/FixGateway.cpp:251-365 | From any state whose records agree, a restart with nobody logged on included, whatever the table and the mirror: the records agree throughout a run iff no step fills, cancels or replaces an order without a session and none is a replace for less than one unit of a resting order, unless to nothing at another price. |
| Theorems.TableAgreesIff | src/persistence/PersistenceLayer.cpp:157-288 | After any run, with all events flushed, the table equals the live books iff no replace was filled on re-entry. |
| Theorems.TableAgreesThroughoutIff | src/persistence/PersistenceLayer.cpp:157-288 | From any state with a right table, a restart with nobody logged on included: the table equals the books throughout a run iff it does at the start, no step cancels or replaces an order without a session, unless by what already rests, none is a replace for less than one unit of a resting order, unless to nothing at another price, and no replace is filled on re-entry. |
| Theorems.MirrorAgreesIff | ui/main.py:120-158 | After any run, with all packets applied, the mirror's orders and levels equal the books iff no replace was filled on re-entry and none was to nothing at another price. |
| Theorems.MirrorAgreesThroughoutIff | ui/main.py:120-158 | From any state with a right mirror, a restart with nobody logged on included: the books stay in order and the mirror equals them throughout a run iff it does at the start, no step cancels or replaces an order without a session, unless by what already rests, none is a replace for less than one unit of a resting order, and no replace is filled on re-entry. |
| Theorems.GhostsIffSilent | src/gateway/FixGateway.cpp:251-283 | A run ends with published orders that no longer rest iff it had a replace filled on re-entry, and with entries without quantity iff it had a replace to nothing at another price. |
| Theorems.GhostsStay | src/gateway/FixGateway.cpp:251-283 | An order filled on re-entry stays in the table, unchanged, in every later state of a run in which no order without a session is cancelled or replaced, and in the mirror if that was right. |
| Theorems.CrashRecoveryIsSafeIff | src/persistence/PersistenceLayer.cpp:316-339 | For runs from an empty exchange: every cut of the event stream can be restored iff at no step an order came to rest at a price that meets a silently filled one; in particular if no replace was filled on re-entry. |
| Theorems.CrashRecoveryRebuilds | src/main.cpp:144-151 | From every such cut, recovery rebuilds valid books with exactly the rows written: unique ids, positive quantities, no bid at or above an ask. |
| Theorems.CrashRestartRun | src/main.cpp:143-154 | After such a crash, a restart with nobody logged on and a snapshot of every symbol, the whole invariant holds. Every further run that touches no order before its owner logs on keeps it; one that cancels or replaces none keeps the books, the table and the mirror; and every defined one keeps books, histories and queue. |
| Theorems.ReportsCumulate | src/gateway/MessageFactory.h:102-124 | A resting order's status report gives its id and order quantity, as LeavesQty what rests of it, and as CumQty what it traded since it last entered, was replaced or was restored. |
| Theorems.CancelReportIff | src/gateway/MessageFactory.h:20-49 | The one report of a cancelled order claims a LeavesQty that is never zero, though nothing of it rests any more; that and CumQty give what was left and what was traded iff the order had not traded. |
| Service.SubmitEnters | src/gateway/FixGateway.cpp:103-185 | An order message is taken in iff its quantity is positive, its price too if it is a limit order, its symbol registered and the risk check passed; it then joins the end of the queue with the message's client, symbol, side, type, time in force and quantity, and its price or zero if it is not a limit order, and its new id belongs to the sender's session. In any case it uses up an id. |
| Service.ImmediateNeverRests | src/engine/MatchingEngine.cpp:129-148 | In no run does an order sent as immediate-or-cancel or fill-or-kill ever rest. |
| Service.CancelTakenInIff | src/gateway/FixGateway.cpp:187-204 | After every run from an empty exchange a cancel joins the queue iff its id was given to some order message of the run, and otherwise changes nothing. |
| Service.CancelOfKnown | src/gateway/FixGateway.cpp:187-204 | In every reachable state, after a restart too, a cancel of an order that rests, waits, was dropped or is published, or that was issued since, joins the queue; one with an id past the counter changes nothing. |
| Service.ReplaceTakenIn | src/gateway/FixGateway.cpp:224-248 | In every reachable state a replace of a resting, queued or silently dropped order joins the queue iff it names that order's symbol and side, and otherwise changes nothing; nor does one with an id never issued. |
| Service.ReplaceOfGone | src/gateway/FixGateway.cpp:233-248 | Where the gateway's records are exact, a replace with an issued id of an order that neither rests nor waits joins the queue whatever it names. |
| Service.FillsAreReported | src/gateway/MessageFactory.h:51-74 | For every trade of every step of every run: exactly one report to each party with a session, with that party's id and order quantity, LeavesQty what rests of it or is still wanted, CumQty what it traded since it entered or was resized, and Filled iff nothing is left; one update and one trade print in the feed. |
| Service.NewOrderIsSent | src/gateway/FixGateway.cpp:388-414 | After its trades, a new order that rests is sent to feed and database with what is left, and one cancelled for its time in force is reported to its owner with what it filled; nothing else is sent. |
| Service.CancelIsSent | src/gateway/FixGateway.cpp:303-337 | A cancel of a resting order with a session sends one packet with its side and resting price, one event and one report; any other cancel sends nothing. |
| Service.ReplaceIsSent | src/gateway/FixGateway.cpp:251-301 | After its trades, a replace of a resting order that still has a session sends one packet if the price stays, and else a removal at the old price and an entry at the new one, with what is left, one event and one report, or only a reject if less than nothing is left; without a session it sends nothing. |
| Recovery.RestoreOrdersExact | src/gateway/FixGateway.cpp:27-37 | After restoring, the active orders are the recovered set. |
| Recovery.RestoreKeeps | src/gateway/FixGateway.cpp:27-37 | Whatever is restored: what was active stays, of several orders with one id the first wins, no session is opened, and the counter moves to the number found unless that is zero. |
| Recovery.RebindAllBinds | src/gateway/FixGateway.cpp:64-80 | Logons bind exactly the clients' orders that had no session and change nothing else. |
| Recovery.FirstLogonBinds | src/gateway/FixGateway.cpp:64-80 | An order without a session gets the first session that its client opens. |
| Recovery.EveryoneBack | src/gateway/FixGateway.cpp:64-80 | A run of logons is nothing but that, and leaves every order with a session once all owners have logged on. |
| Recovery.BoundIsProper | src/gateway/FixGateway.cpp:343-345 | From then on no defined run touches an order without a session. |
| Recovery.RestartInv | src/main.cpp:143-154 | A restart from a restorable table, with nobody logged on, establishes books, queue, records and table, and the whole invariant iff the mirror shows the recovered orders. |
| Recovery.IdsAreFresh | src/gateway/FixGateway.cpp:116-116 | In every run, every id issued is larger than every resting, queued or restored id before it and smaller than every id issued later. |
| Examples.SilentFillHappens | src/gateway/FixGateway.cpp:347-350 | A concrete run from empty books contains a replace filled on re-entry. |
| Examples.CrossedAfterSilentFill | src/gateway/FixGateway.cpp:347-350 | A concrete run after which the table holds a bid and an ask at the same price. |
| Examples.StaleAfterSnapshot | ui/main.py:207-241 | A concrete run after which a snapshot of the symbol keeps the entry of an order that does not rest. |
| Examples.EditedToNothing | src/engine/OrderBook.cpp:66-70 | A concrete run after which the book holds an order with no quantity and is not valid. |
| Examples.EmptiedEntryStays | src/market_data/MarketDataPublisher.cpp:81-113 | A concrete run after which an order replaced by nothing at another price is gone from book, gateway and table, while the mirror has an entry of quantity zero for it and does not equal the books. |
| Examples.CancelReportWrong | src/gateway/MessageFactory.h:20-49 | A concrete run after which an order of five has traded three and has two left, and the report of its cancel claims LeavesQty 5 and CumQty 0. |
| Examples.ReplaceReportWrong | src/gateway/MessageFactory.h:20-49 | A concrete run after which a replace for five trades two and leaves three, and its report claims LeavesQty 5 and CumQty 0. |
| Examples.EarlyCancelLost | src/gateway/FixGateway.cpp:303-312 | For every table of one row: restarted and cancelled before its owner logs on, the order leaves the book while table and mirror keep it. |
| Examples.EarlyReplaceLost | src/gateway/FixGateway.cpp:251-262 | Likewise for every replace that does not ask for what already rests. |
| Examples.EarlyFillStale | src/gateway/FixGateway.cpp:343-345 | Likewise a fill leaves the gateway's record behind the book. |
| Examples.TagBreaksFrame | bench/bench.py:97-104 | Every built message with the field 110=5 is cut at the wrong place. |
| RingBuffer.FifoUnderEveryInterleaving | src/engine/RingBuffer.h:17-34 | Under every interleaving of single loads, slot accesses and stores: popped items are a prefix of pushed items; at most N-1 are held; no slot is overwritten before it is read or read before it is written. |
| RingBuffer.DrainedOnExit | src/engine/MatchingEngine.cpp:116-125 | When the engine loop exits, every item whose push was complete when the stop flag was set has been processed, once and in order. |
| RingBuffer.EveryDrainEnds | src/engine/MatchingEngine.cpp:116-125 | In every interleaving: wherever the engine loop is when the stop flag is set, if nothing more is pushed it exits after a stated number of its own steps, with everything pushed processed. |
| RingBuffer.MaskIsWrap | src/engine/RingBuffer.h:10-32 | For a size that is a power of two, masking with N-1 is wrapping modulo N. |
| RingBufferObject.SpscRing.constructor | src/engine/RingBuffer.h:12-14 | A new buffer holds nothing. |
| RingBufferObject.SpscRing.Push | src/engine/RingBuffer.h:17-25 | Refused iff N-1 items are held; otherwise appends; equals the five atomic steps of the interleaving model. |
| RingBufferObject.SpscRing.Pop | src/engine/RingBuffer.h:27-34 | Takes the oldest item, or nothing iff nothing is held; equals the atomic steps of the interleaving model. |
| RingBufferObject.SpscRing.Empty | src/engine/RingBuffer.h:36-39 | True iff nothing is held. |
| OrderIds.SeqOfText | src/persistence/PersistenceLayer.cpp:341-352 | SUBSTR and CAST applied to an id give back the number it was made from. |
| OrderIds.SeqOfOther | src/persistence/PersistenceLayer.cpp:341-352 | Of a text whose sixth character is missing or no digit they read zero. |
| OrderIds.TextIff | src/gateway/FixGateway.cpp:116-116 | A text is the id of a number iff it is `EXCH-` and digits without leading zeros that SUBSTR and CAST read as that number; so different numbers give different ids. |
| PersistenceThread.IssuedTextIsNew | src/gateway/FixGateway.cpp:27-37 | The text of an id issued past the recovered maximum is none of the stored ids. |
| PersistenceThread.PersistenceLayer.Push | src/persistence/PersistenceLayer.cpp:65-71 | Appends one event; committed, in-flight and queued events stay the pushed ones in order. |
| PersistenceThread.PersistenceLayer.TakeBatch | src/persistence/PersistenceLayer.cpp:129-144 | Takes the whole queue in order; the thread exits iff told to stop with nothing queued, and then the table is the fold of every event ever pushed. |
| PersistenceThread.PersistenceLayer.Flush | src/persistence/PersistenceLayer.cpp:146-151 | The committed table moves from one prefix of the events to a longer one. |
| PersistenceThread.PersistenceLayer.LoadRestingOrders | src/persistence/PersistenceLayer.cpp:316-339 | Every row once, as a limit order for what was left of it, in some order. |
| PersistenceThread.PersistenceLayer.LoadMaxOrderSeq | src/persistence/PersistenceLayer.cpp:341-352 | The largest stored number read back from the ids' text, or zero. |
| GatewayObject.FixGateway.OnNewOrder | src/gateway/FixGateway.cpp:103-185 | Uses up an id in any case; registers and submits the order as the message model says, which `Service.SubmitEnters` spells out field by field. Keeps the class invariant: no session without an order. |
| GatewayObject.FixGateway.OnCancelRequest | src/gateway/FixGateway.cpp:187-204 | A cancel goes to the engine as the request model says; `Service.CancelTakenInIff` and `Service.CancelOfKnown` say for which orders. |
| GatewayObject.FixGateway.OnReplaceRequest | src/gateway/FixGateway.cpp:224-248 | A replace goes to the engine as the request model says; `Service.ReplaceTakenIn` and `Service.ReplaceOfGone` say for which orders. |
| GatewayObject.FixGateway.OnFillCallback | src/gateway/FixGateway.cpp:339-386 | New maps, packets, events and reports equal those of the callback model, which `Executions.TradeIsSent` spells out in terms of the books; the class invariant is kept. |
| GatewayObject.FixGateway.OnTifCancelCallback | src/gateway/FixGateway.cpp:388-403 | The order is forgotten, and its cancel reported, if it has a session; nothing is published. |
| GatewayObject.FixGateway.OnRestedCallback | src/gateway/FixGateway.cpp:405-414 | One packet and one event with the leaves given. |
| GatewayObject.FixGateway.OnCancelCallback | src/gateway/FixGateway.cpp:303-337 | Acts, reports and publishes iff the order was found and both maps know it. |
| GatewayObject.FixGateway.OnReplaceCallback | src/gateway/FixGateway.cpp:251-301 | Acts, reports and publishes iff the order was found and both maps know it, and rejects it if they know it but it was not found; the packets depend on the old price. |
| GatewayObject.FixGateway.RestoreActive | src/gateway/FixGateway.cpp:27-37 | Active orders are those loaded, first one winning; sessions stay empty; the counter moves only past zero. |
| GatewayObject.FixGateway.OnLogon | src/gateway/FixGateway.cpp:64-84 | Every active order of the client gets one status report, and the session if it had none. |
| EngineThread.MatchingEngine.RestoreOrder | src/engine/MatchingEngine.cpp:45-49 | Any order is put into its symbol's book as it is, an unknown symbol is ignored, other books are untouched; the indexes stay sound iff its id was not resting there. |
| EngineThread.MatchingEngine.HandleItem | src/engine/MatchingEngine.cpp:129-156 | For every item of a registered symbol: book and callbacks equal those of the dispatch model, other books are untouched, and the engine stays in order iff the item neither puts an order beside another with its id nor edits one down to nothing. |
| EngineThread.MatchingEngine.Drain | src/engine/MatchingEngine.cpp:116-156 | Everything queued is handled once, in order, and the callbacks are the concatenation. |
| MirrorServer.MarketData.ApplyPacket | ui/main.py:120-158 | The dictionaries change as the packet model says. |
| MirrorServer.MarketData.ProcessSnapshot | ui/main.py:207-241 | The symbol's levels are replaced by the sums of the entries; an unknown symbol is ignored. |
| MirrorServer.SnapshotShowsBook | ui/main.py:207-241 | A snapshot of a book gives the symbol exactly the book's levels, whatever was shown before, and leaves other symbols alone. |
| MirrorServer.SnapshotEntriesIff | ui/main.py:207-241 | Afterwards the symbol's order entries are exactly the resting orders iff there was no stale entry before. |
| MirrorServer.SnapshotsMirror | src/gateway/MessageFactory.h:143-159 | A fresh mirror sent a snapshot of every symbol, in any order, shows exactly the resting orders and their levels. |
| MirrorServer.FixedFieldRoundTripIff | src/market_data/MarketDataPublisher.cpp:8-11 | A text survives its fixed-width field and the receiver's stripping iff it fits and does not end in NUL. |
| MirrorServer.IdSurvivesWireIff | src/market_data/MarketDataEvent.h:17-25 | An id survives the sixteen-byte field iff its number is below 10^11, so every id of a 32-bit counter does. |
| FixFraming.Parse | bench/bench.py:52-58 | The loop fills the dictionary that the pieces between separators denote, a later tag winning. |
| FixFraming.ParseBuilt | bench/bench.py:36-60 | For fields without separators in tags and values: CheckSum is three digits for the sum of all bytes before it modulo 256; unless a body field has the same tag, version, message type, sender, target, sequence number and time come back as given and BodyLength is the length between it and the trailer; every body field that no later one overrides comes back. For distinct tags fields come back only from such messages. |
| FixFraming.ByteSumLaws | bench/bench.py:36-37 | The byte sum is zero of nothing, the byte of one byte, and additive. |
| FixFraming.ChecksumIs | bench/bench.py:36-37 | CheckSum is three digits whose value is the byte sum modulo 256. |
| FixFraming.FixSession.RecvRaw | bench/bench.py:94-110 | The message returned depends on the bytes, not on how they are split into chunks; without a complete message nothing is consumed. |
| FixFraming.FixSession.RecvAll | bench/bench.py:94-110 | Receiving until the input ends gives the frames of the whole stream, in order. |
| FixFraming.CutStable | bench/bench.py:97-104 | A complete message found in the buffer is the one that more data would show. |
| FixFraming.FramesOfMessages | bench/bench.py:94-110 | A stream of messages that are each cut out whole is received as exactly those messages. |
| FixFraming.BuiltIsWholeIff | bench/bench.py:42-50 | A built message is cut out whole iff none of its fields contains `10=` in its text. |
| Startup.Recover | src/main.cpp:143-151 | Whatever the table: the gateway has a record of exactly its rows without sessions, its counter is past all their ids, the books are those the rows make, and they are valid iff the rows of known symbols can rest side by side. |
| Startup.CommittedIsRestorable | src/persistence/PersistenceLayer.cpp:129-151 | Whatever the persistence thread has committed at any moment of a run, in-flight batches and queued events aside, can be restored, if at no step an order came to rest at a price that meets a silently filled one. |
| Exchange.Deliver | src/engine/MatchingEngine.cpp:129-156 | Handing callbacks to the gateway object one by one gives the maps, packets, events and execution reports of the callback model, in order. |
| Exchange.HandleNext | src/engine/MatchingEngine.cpp:116-156 | One dequeue of the objects together (queue, books, gateway, persistence queue, mirror) is one dequeue of the system model. |
| Exchange.HandleOrder | src/gateway/FixGateway.cpp:103-185 | So is an order message. `Service.SubmitEnters` says where that is. |
| Exchange.HandleCancel | src/gateway/FixGateway.cpp:187-204 | So is a cancel request. `Service.CancelTakenInIff` and `Service.CancelOfKnown` say where that is. |
| Exchange.HandleReplace | src/gateway/FixGateway.cpp:206-249 | So is a replace request. `Service.ReplaceTakenIn` and `Service.ReplaceOfGone` say where that is. |
| Exchange.HandleLogOn | src/gateway/FixGateway.cpp:64-84 | So is a logon. |
| Exchange.Perform | src/engine/MatchingEngine.cpp:116-156 | A whole defined run takes the objects where it takes the model, orders without a session touched or not. |
| Exchange.FrontIsFine | src/engine/MatchingEngine.cpp:127-156 | In every reachable state what the engine takes from the queue keeps its books valid. |

## Left out

- QuickFIX sessions, sockets, multicast, WebSockets, SQLite itself: the table is a map, a committed batch an atomic fold, a send an element of the output.
- ClOrdIDs and the `clord_to_exchange_` map; execution ids, prices and OrdStatus in execution reports; acknowledgements and rejects of new orders; timestamps, latency statistics, thread affinity.
- The risk engine, the admin gateway, configuration, and registration of symbols while the exchange is running.
- The events table, historical fills and trades, the trade chart.
- Snapshot requests as work items: they only read the books; `GetOrders` and `SnapshotShowsBook` state what they carry. The race between a snapshot and live packets, and lost packets, are not modelled.
- 32-bit overflow of quantities and of the pre-check's sum, and the upper limit on an order's quantity; non-integer quantities and non-finite prices.
- Weak memory: the ring buffer's steps are sequentially consistent. Fine-grained locking inside the gateway: callbacks are atomic.
- `std::map`, `std::list` and their iterators: levels are sequences kept sorted, list nodes a map from handles, so iterator invalidation is not modelled beyond handles being fresh and never reused.
- RingBuffer.FifoUnderEveryInterleaving: states the interleaving over values; the in-place object `SpscRing` is tied to it for operations that run to completion.
- System.NextKeepsBase: for items of registered symbols, since the program is undefined on others, and for honoured replaces; `Views.ReplaceFitsIff` says that every other one parts book and callbacks.
- System.NextKeepsPublished: for actions of which the table and the mirror are told; `Requests.CancelPublishedIff` and `Requests.UnknownReplacePublishedIff` say that every other one parts them from the book.
- System.NextKeepsInv: for actions that touch no order without a session; `Touching.TouchedChanges` and `Touching.UnboundFrozen` say that every other one parts the records from the book.
- System.ExecKeepsInv: for runs of such actions.
- Agreement.StepAgrees: for honoured replaces, and steps that touch no order without a session; `Touching.TouchedChanges` is its converse.
- Announcing.StepAnnounces: for steps of which the outside is told; a replace to nothing at another price is `Mirror.BlankMirrors`.
- Requests.KnownReplacePublishedIff: for a gateway with a record, with the right price, of every resting order, as in every state that `System.Published` describes, and a request that names the order's side, as the gateway checks.
- Crashes.EveryCutSafeIff: for runs of which the table is told.
- Theorems.GatewayAgreesInEveryRun: for defined runs; `Theorems.GatewayAgreesThroughoutIff` covers the others.
- Theorems.GatewayAgreesThroughoutIff: for items of registered symbols, since the program is undefined on others.
- Theorems.TableAgreesThroughoutIff: for items of registered symbols.
- Theorems.MirrorAgreesThroughoutIff: for items of registered symbols. It speaks of books in order too: a replace to nothing at the same price puts the book out of order, and the mirror equals even that book.
- Theorems.TableAgreesIff: for defined runs; `Theorems.TableAgreesThroughoutIff` covers the others.
- Theorems.MirrorAgreesIff: for defined runs; `Theorems.MirrorAgreesThroughoutIff` covers the others.
- Theorems.GhostsIffSilent: for defined runs.
- Theorems.GhostsStay: for runs of which the table is told.
- Theorems.CrashRecoveryIsSafeIff: for defined runs.
- Theorems.CrashRestartRun: what it says of the table and the mirror is for runs of which they are told, and of the books for defined runs; the `ThroughoutIff` theorems cover the others.
- Views.ProcessFits: for honoured replaces (`Views.ReplaceFitsIff`), and new orders of at least one unit with an id not yet resting, as the gateway submits them.
- GatewayObject.FixGateway.OnCancelRequest: takes the id that the ClOrdID stands for; the `clord_to_exchange_` lookup that finds it, or finds none and drops the request, is not modelled.
- GatewayObject.FixGateway.OnReplaceRequest: likewise, with the reject it sends when the lookup finds none.
- Exchange.Perform: for defined runs.
- Service.ImmediateNeverRests: for defined runs.
- Service.ReplaceOfGone: for gateways whose records are exact; after a restart an unbound order that was filled keeps its record (`Theorems.GatewayAgreesThroughoutIff`).
- Service.FillsAreReported: for defined steps.
- Dispatch.NewOrderFate: for new orders of at least one unit with an id not yet resting, as the gateway submits them.
- RingBuffer.EveryDrainEnds: counts the loop's own steps; that the thread is scheduled is not modelled.
- EngineThread.MatchingEngine.HandleItem: for items of registered symbols, since the program is undefined on others.
- EngineThread.MatchingEngine.Drain: for queues whose items keep the books valid one after the other; `HandleItem` says what one that does not leaves behind.
- Characters stand for ASCII bytes in the framing.
