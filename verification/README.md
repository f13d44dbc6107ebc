# MiniATS: the exchange engine, modelled and proved in Dafny

MiniATS is a small trading server. Clients register, deposit funds, and place ASK and BID orders; an
order locks the funds it may need and goes into a per-product list of the order book; a dispatcher runs
a match pass per product; a pass sorts the two sides by price, fills asks from bids, and settles every
fill between two wallets; what is left over is written to a CSV file when the server stops.

The project models the engine twice and joins the two:

* **As objects**, in the form of the C++ classes: `Wallet`, `UserStore`, `Entry` (an order whose
  amount is written in place), `OrderBook` (lists of entries, an index of pointers into them, the
  finalized sales) and `Server`. Loops are loops and every method is proved against a function of the
  state before the call. An exception is a value, and what had been changed when it was thrown stays
  changed.
* **As values**: what a pass trades (`Matching`), what each operation makes of a wallet (`Purses`), of all
  wallets (`Settlement`) and of the book (`Books`), and a transition system of the running server
  (`Exchanges`) whose steps are the critical sections of the client handlers, of the dispatcher and of the
  asynchronous passes, in any interleaving.

`Servers.Server` is the joint: each of its methods, called on objects that show a state, leaves objects
that show the state after the step of the same name. So what is proved of every run of the transition
system holds of the objects.

What is proved of a pass, for every way the sort may break ties: it trades the equilibrium volume, no feasible
allocation has a larger surplus, one price clears it, at most one order is sliced, and a second pass is idle.
When it keeps time priority, and when it throws, is stated exactly.

What is proved of every run, with CANCEL as one step: the index agrees with the lists, lists stay in time order, no
wake-up is lost unless the last pass over the product threw, the products are matched in the order they were queued,
every finalized sale records one fill, and an order's quantity is accounted for from placement to the end. Orders of any sign, CSV files of any content and passes that throw are part of these runs. In every
reachable state a pass throws exactly when its list is crossed and its product does not name two currencies or an
open ask has a negative price, never for want of funds (`Accounts.NoReachablePassThrows`). Locked funds are what was
locked at start-up, plus what the orders hold, plus what passes leaked: a pass that goes through leaks what the bids
hold whose amount and price are both negative, a pass that throws leaks the refund of its one fill, and no other
step leaks anything (`Accounts.LockedEqualsReserves`). Money changes by deposits, withdrawals and what passes mint:
what `default` mints, and, in a pass that throws, at least what a negative price would have paid the buyer
(`Accounts.MoneyIsConserved`, `Accounts.ThrowingMints`). A run is *calm* when none of its passes throws; fair prices
and products keep it calm (`Prices.FairRunsAreCalm`).

Two finer views take the large steps apart. `Cancels` runs CANCEL as the three critical sections it is, with
anything in between. `Interleavings` takes a pass apart into the wallet calls it makes, and `Scripts` puts any number
of a client's own wallet calls in between.

How the files build on each other:

* `Orders`, `Entries`, `Tokenizer`, `TimeOrder`, `Trades`: orders, product names, timestamps, fills.
* `Sequences`, `Totals`: facts about sequences and sums.
* `Meters`, `Matching`, `Optimality`, `Ties`, `TimePriority`, `ReadmeAlgorithm`: the matching pass. A *meter*
  is a linear weight on orders (volume, supply below a price, gain against a price, reserved funds); one lemma about
  what trades take from a measured list serves the optimality theorems and the reserve accounting alike.
* `Purses`, `Settlement`, `Failures`: wallets and settlement. `Sales`: the log of finalized sales.
* `Books`: the book as a value. `Wallet`, `UserStore`, `Settling`, `Passes`, `OrderBook`, `Handlers`, `Server`: the objects.
* `Exchange`, `Reachable`, `Accounts`, `Wakeups`, `Queues`, `Lifetimes`: whole runs. `Payments`: what the wallets see of an
  order. `Prices`, `Leaks`: what keeps the accounts exact, and what does not. `Cancels`, `Interleavings`, `Scripts`:
  the finer views.
* `Csv`, `CsvRoundTrip`, `Restarts`: persistence. `Stats`: the price statistics.
* `Witnesses`: concrete inputs and runs for each failure that is described.

Conventions. Doubles are exact reals. A missing entry of a currency map reads as zero. `std::sort` is any permutation
in price order, so every theorem about a pass holds for every way of breaking ties. Ids are handed out
one by one and never reused. Timestamps are compared as strings, as the code does.

Where documentation and code disagree, the model follows the code:

* README.md:5 promises price-time priority. The sort is not stable, so the order of equal prices is open. Every
  pass over a list keeps time priority if and only if no two open orders of different times share a price level that
  the volume tears: the better levels do not use the volume up, and the level itself cannot be filled
  (`TimePriority.TimePriorityKeptExactlyWhen`; `Ties.LaterMayTradeFirst` is the smallest violation).
* The algorithm in README.md:91-132 has no test for exhausted orders and also records sales of amount zero;
  apart from those it makes the same sales (`ReadmeAlgorithm.ReadmeAgrees`).
* README.md:5 says that exported orders allow reuse in later sessions. The orders come back, but as orders of
  `default`, and orders accepted but not yet inserted are lost; the funds that clients had locked for them stay
  locked whatever the next session does (`Restarts.RestartStrandsReserves`).

Failures of the code, each with a run or an input that shows it and the exact condition for it:

* A product of one currency in the CSV file (`Witnesses.OneCurrencyThrows`), or an ask at a negative price
  (`Witnesses.NegativePriceThrows`), makes every crossed pass over the product throw, and nothing else does
  (`Accounts.NoReachablePassThrows`). The pass that throws leaves its fill's refund locked and creates money
  (`Witnesses.ThrowDrifts`, `Accounts.ThrowLeaks`, `Accounts.ThrowingMints`), and loses a wake-up when it was the
  last that was due (`Witnesses.WakeupIsLost`).
* A bid with both signs negative is purged and its funds stay locked (`Witnesses.MinusOneTimesMinusOne`); no other
  order that a pass purges leaves funds behind (`Accounts.LeaksExactlyWhen`).
* A CANCEL unlocks what its copy of the order says and removes the order as it is by then. That keeps the accounts if
  and only if the book still has the order as it was copied, or has nothing left of it and the wallet holds less
  than the copy asks for, or the order holds nothing (`Cancels.CancelKeepsAccountsExactlyWhen`). Otherwise it strands
  funds (`Witnesses.StaleCopyStrands`), or frees the funds of another of the client's bids, after which passes throw
  for want of funds (`Witnesses.StaleCopyRobs`).
* A client's calls in the middle of a pass, and the pass, are as if made one after the other if and only if no call
  that the pass paid for comes before one that was refused too early (`Scripts.PassIsSerialisableExactlyWhen`).
  Two withdrawals between two payments show that it can fail (`Witnesses.TwoPayments`).

## Model

| member | source | states |
|---|---|---|
| `Orders.ApartPermutation` | src/server/OrderBook.cpp:219-226 | whatever permutation the sort makes of one side, it holds exactly that side's orders, each once |
| `Entries.IdSource.Take` | src/server/OrderBookEntry.cpp:4-21 | ids are handed out one by one |
| `Tokenizer.Tokenize` | src/server/CSVHandler.cpp:8-26 | the do/while over signed `start` and `end`, npos included, terminates and returns the fields of the specification |
| `Tokenizer.TokensAreFirstRun` | src/server/CSVHandler.cpp:13-25 | on every string the tokens are the longest run of non-empty fields behind leading separators; the fields are free of the separator and joined by it they are the string |
| `Tokenizer.TokensUndoJoin` | src/server/CSVHandler.cpp:8-26 | extracting tokens undoes joining fields if and only if every field is non-empty and free of the separator |
| `TimeOrder.NotAfterExactlyWhen` | src/server/OrderBook.cpp:121-133 | a timestamp is not after another if and only if it is a prefix of it or has the smaller character where they first differ |
| `TimeOrder.InsertIsStable` | src/server/OrderBook.cpp:120-134 | on a list in time order both the fast path and the reverse scan insert behind all orders that are not later and in front of all that are |
| `TimeOrder.InsertKeepsTimeOrder` | src/server/OrderBook.cpp:120-134 | insertion keeps a product list sorted by timestamp |
| `TimeOrder.SortByTimestamp` | src/server/CSVHandler.cpp:73-75 | sorting by time is stable |
| `TimeOrder.StableSortIsUnique` | src/server/CSVHandler.cpp:73-75 | a stable sort leaves a list in time order as it is |
| `Meters.TradesTakeTheirMeasure` | src/server/OrderBook.cpp:245-269 | for any linear weight, feasible trades take from a list exactly what they weigh, on both sides of each trade |
| `Meters.PurgeKeepsMeasure` | src/server/OrderBook.cpp:322-329 | purging filled orders changes no measure of the list |
| `Matching.MergeTrades` | src/server/OrderBook.cpp:228-272 | every fill has a positive quantity, joins an ask and a bid of the list, and the bid reaches the ask |
| `Matching.MergeFits` | src/server/OrderBook.cpp:245-269 | no order is filled beyond its open amount |
| `Matching.MergeUncrosses` | src/server/OrderBook.cpp:228-272 | an ask and a bid that both have something left after the pass no longer cross |
| `Matching.ClearingPrice` | src/server/OrderBook.cpp:225-272 | there is one price at which everything that traded was willing and nothing left over would trade |
| `Matching.MergeInTurn` | src/server/OrderBook.cpp:228-272 | in the sorted order an order trades only after everything in front of it is exhausted: filled orders form a prefix of each side |
| `Matching.OneSliced` | src/server/OrderBook.cpp:245-269 | at most one order of the whole book is left partly filled |
| `Matching.MergePricesRise` | src/server/OrderBook.cpp:225-272 | the ask prices of the fills never fall from one fill to the next |
| `Matching.MergeLength` | src/server/OrderBook.cpp:228-272 | fewer sales than asks and bids together, and none when a side is empty |
| `Matching.NestedFill` | src/server/OrderBook.cpp:232-269 | the nested loop's next fill, past the exhausted bids it skips, is the next trade of the two-pointer merge |
| `Matching.ApartPricesTradeNothing` | src/server/OrderBook.cpp:237 | where no open bid reaches an open ask nothing trades |
| `Optimality.PassIsFeasible` | src/server/OrderBook.cpp:225-272 | every pass is a feasible allocation: within every order's amount and both limits |
| `Optimality.PassMaximisesSurplus` | src/server/OrderBook.cpp:225-272 | no feasible allocation of the same orders has a larger sum of (bid price - ask price) * quantity |
| `Optimality.PassTradesEquilibriumVolume` | src/server/OrderBook.cpp:225-272 | the volume of a pass is the maximum over all prices of min(supply at or below, demand at or above), attained at a price that is returned |
| `Optimality.PassUncrosses` | src/server/OrderBook.cpp:228-274 | after a pass every remaining bid is below every remaining ask |
| `Optimality.PassSales` | src/server/OrderBook.cpp:228-272 | fills are positive, within limits, non-decreasing in ask price, at most one fewer than the orders, and sum to what each side lost; what the log records of them is `Sales.RecordedLaws` |
| `Optimality.PassRespectsPrice` | src/server/OrderBook.cpp:225-272 | a strictly worse-priced order never trades while a better one of its side has anything left |
| `Optimality.PassSlicesOne` | src/server/OrderBook.cpp:245-269 | at most one order of a list is left partly filled, for every way of sorting ties |
| `Optimality.SecondPassIsIdle` | src/server/OrderBook.cpp:228-274 | what a pass leaves holds no exhausted order, and a second pass sells nothing and changes nothing |
| `TimePriority.TimePriorityKeptExactlyWhen` | README.md:5 | with V the equilibrium volume: every pass keeps time priority if and only if no two open orders of one side, one price and different times stand at a level with (open amount priced better) < V < (open amount priced as well) |
| `TimePriority.TornIsViolated` | src/server/OrderBook.cpp:225-226 | at a torn level there is a pass, for lists of any length, in which the later order trades while the earlier has something left |
| `TimePriority.PassVolume` | src/server/OrderBook.cpp:225-272 | all passes over a list, however ties fall, trade the same volume |
| `TimePriority.VolumeExists` | src/server/OrderBook.cpp:225-272 | every list has a pass, and what it trades is the equilibrium volume |
| `Ties.LaterMayTradeFirst` | README.md:5 | the smallest violation: a pass in which the later of two equal asks trades and the earlier does not |
| `ReadmeAlgorithm.ReadmeAgrees` | README.md:91-132 | the documented algorithm, its sales of amount zero aside, makes the pass's sales in the same order, for all non-negative amounts |
| `Purses.AcceptedExactlyWhen` | src/server/Wallet.cpp:73-97 | an order of any signs is accepted if and only if it is an ask or a bid, its product names two currencies, what it would lock is not negative, and that much is free |
| `Purses.FulfillOutcome` | src/server/Wallet.cpp:73-97 | for all wallets and orders: the exception for a malformed product if and only if it does not name two currencies, the one for a negative amount if and only if it does and an ask or bid would lock a negative amount, true if and only if the funds are free, false in the rest; a refusal changes nothing |
| `Purses.CancelOutcome` | src/server/Wallet.cpp:99-123 | the exception for a malformed product if and only if it does not name two currencies, true if and only if the funds are locked, false in the rest, moving nothing |
| `Purses.GrantedExactlyWhen` | src/server/Wallet.cpp:23-132 | which of the five wallet calls throws, and which is granted, by the sign of the amount and the balance it draws on |
| `Purses.CallsUndo` | src/server/Wallet.cpp:23-132 | a withdrawal undoes a deposit, unlocking undoes locking, locking and spending is withdrawing |
| `Purses.FulfillReserves` | src/server/Wallet.cpp:73-97 | an accepted order moves exactly what it ties up from free to locked: amount of base for an ask, amount * price of quote for a bid, whatever the signs |
| `Purses.CancelReleases` | src/server/Wallet.cpp:99-123 | cancelling releases exactly what the rest of the order holds locked, when that is there |
| `Purses.PlaceThenCancelRestores` | src/server/Wallet.cpp:73-123 | placing and cancelling with no fill in between restores every balance, whatever the signs |
| `Purses.NegativePairLeaks` | src/server/ServerMain.cpp:183-188 | accepting an order that a pass would take for exhausted locks nothing, unless it is a bid whose amount and price are both negative: exactly then it locks their product |
| `Wallets.Wallet.InsertCurrency` | src/server/Wallet.cpp:23-29 | new balances and outcome, the exception on a negative amount included |
| `Wallets.Wallet.ContainsAmount` | src/server/Wallet.cpp:43-53 | whether the free balance covers the amount; a missing currency holds zero |
| `Wallets.Wallet.RemoveCurrency` | src/server/Wallet.cpp:31-41 | withdraws only what is free |
| `Wallets.Wallet.LockCurrency` | src/server/Wallet.cpp:89-97 | moves funds from free to locked or changes nothing |
| `Wallets.Wallet.UnlockCurrency` | src/server/Wallet.cpp:115-123 | moves funds from locked to free or moves nothing |
| `Wallets.Wallet.SpendLocked` | src/server/Wallet.cpp:125-132 | takes funds out of locked or takes nothing |
| `Wallets.Wallet.FulfillOrder` | src/server/Wallet.cpp:73-87 | locks what the order may need, for each order type; throws on a malformed product and on no other |
| `Wallets.Wallet.CancelOrder` | src/server/Wallet.cpp:99-113 | unlocks what the rest of the order reserved; throws on a malformed product and on no other |
| `UserStores.UserStore.Lookup` | src/server/UserStore.cpp:26-37 | an unknown name throws, `default` is created on demand, and no wallet is shared or lost |
| `UserStores.UserStore.AddUser` | src/server/UserStore.cpp:16-19 | registering a taken name changes nothing |
| `Settlement.ProcessSaleEffect` | src/server/OrderBook.cpp:278-314 | a covered sale goes through: cost and goods change hands, the refund is unlocked, and only `default` mints |
| `Settlement.FillInFull` | src/server/OrderBook.cpp:278-314 | a covered fill takes the bid price times the quantity from the buyer's lock, of which the seller gets the ask price times the quantity and the buyer the rest; the goods go from the seller's lock to the buyer; between clients all money stays the same |
| `Settlement.DefaultInFull` | src/server/OrderBook.cpp:287-313 | `default` without locked funds gets the goods it buys and the money it sells for, and nothing is taken from it |
| `Settlement.SettleAllEffect` | src/server/OrderBook.cpp:228-272 | when locked funds cover the fills, settling them never throws, in any order and with self-trades and equal currencies, and moves exactly the funds they call for |
| `Settlement.SettleAllAppends` | src/server/OrderBook.cpp:228-272 | fills are settled one after the other, and an exception ends the pass: later fills are never looked at |
| `Settlement.ReachedAppends` | src/server/OrderBook.cpp:239-267 | which fills are sliced and recorded: each one up to the first that throws, that one included unless a user is unknown |
| `Settlement.AccountsOpened` | src/server/UserStore.cpp:32-35 | creating `default` on demand changes no balance |
| `Failures.PassThrowsExactlyWhen` | src/server/OrderBook.cpp:283-307 | where the locks cover the fills, a pass throws if and only if the book is crossed and its product does not name two currencies or an open ask has a negative price |
| `Failures.SaleThrowsExactlyWhen` | src/server/OrderBook.cpp:287-307 | where the locks cover a fill, processing it throws if and only if the ask's price is negative |
| `Failures.SaleEndsWith` | src/server/OrderBook.cpp:278-314 | whatever is in the wallets, the exact condition of each exception of a sale: malformed product, buyer's funds, seller's funds, negative amount, none |
| `Failures.SettleEndsWith` | src/server/UserStore.cpp:26-37 | a fill ends with an unknown user if and only if one of the two is neither registered nor `default`; otherwise with what the sale ends with |
| `Failures.FirstFillThrows` | src/server/OrderBook.cpp:228-272 | where a pass throws for a bad product or price it throws at its first fill, whatever is in the wallets; that fill alone is sliced |
| `Settlement.NegativeSettleEffect` | src/server/OrderBook.cpp:278-314 | a fill at a negative price throws halfway: the buyer has the goods and more locked than before, the seller has spent the goods and earned nothing, and the refund is not made |
| `Books.InsertKeeps` | src/server/OrderBook.cpp:116-135 | inserting a client's order keeps lists and index in agreement and adds that order alone |
| `Books.RemoveByIdDrops` | src/server/OrderBook.cpp:169-211 | cancelling a client's live order erases that order and its index entry, nothing else |
| `Books.RemoveByIdFinds` | src/server/OrderBook.cpp:172-185 | only the client's own live order can be cancelled |
| `Books.RemoveMatchedPurges` | src/server/OrderBook.cpp:316-330 | the purge leaves the open orders of the product in their order and no other list changed |
| `Trades.PurgeOne` | src/server/OrderBook.cpp:322-329 | a single order goes if and only if nothing of it is open |
| `Trades.PurgeJoins` | src/server/OrderBook.cpp:316-330 | purging goes order by order, so what stays keeps its place among the others |
| `Books.DropKeeps` | src/server/OrderBook.cpp:323-348 | erasing an order with its index entry keeps lists and index in agreement and loses that order alone |
| `Books.AfterPassKeeps` | src/server/OrderBook.cpp:217-276 | a pass keeps lists and index in agreement, appends its sales, and leaves what the fills leave |
| `Books.OrdersForUserScans` | src/server/OrderBook.cpp:147-157 | looking a client up through the index is the same as scanning the whole book, each order once |
| `Settling.Charge` | src/server/OrderBook.cpp:289-297 | the buyer pays out of locked funds and receives the goods, or the pass throws |
| `Settling.Pay` | src/server/OrderBook.cpp:299-307 | the seller gives the goods out of locked funds and is paid, or the pass throws |
| `Settling.GiveBack` | src/server/OrderBook.cpp:309-313 | the buyer is refunded when the bid was above the ask |
| `Settling.SettleSale` | src/server/OrderBook.cpp:278-314 | the wallets and the exception after one sale, self-trades included |
| `Settling.Slice` | src/server/OrderBook.cpp:245-269 | in all three branches both amounts fall by the smaller of the two |
| `Settling.Fill` | src/server/OrderBook.cpp:239-267 | one fill: users looked up first, amounts sliced and the sale recorded, at the ask's price and in what was sliced, before settling, whatever settling throws |
| `Passes.TryBid` | src/server/OrderBook.cpp:232-270 | one turn of the inner loop skips the bid or makes the next trade of the merge |
| `Passes.MatchAsk` | src/server/OrderBook.cpp:232-271 | the inner loop makes the merge's trades up to the next ask |
| `Passes.RunAsks` | src/server/OrderBook.cpp:228-272 | both loops, in place, make exactly the trades of the two-pointer merge in its order; with an exception, a prefix of them |
| `OrderBooks.OrderBook.constructor` | src/server/OrderBook.cpp:13-17 | the book of a CSV file: its lists, no index, no sales |
| `OrderBooks.OrderBook.FindPlace` | src/server/OrderBook.cpp:120-133 | fast path and reverse scan find the place of insertion by time |
| `OrderBooks.OrderBook.InsertNewOrder` | src/server/OrderBook.cpp:116-135 | the new entry goes into its list and a pointer to it to the back of its owner's bucket |
| `OrderBooks.OrderBook.Link` | src/server/OrderBook.cpp:116-135 | splicing the entry in and adding the pointer keeps list and index consistent |
| `OrderBooks.OrderBook.GetKnownProducts` | src/server/OrderBook.cpp:19-27 | every product once, in some order |
| `OrderBooks.OrderBook.GetOrders` | src/server/OrderBook.cpp:29-44 | pointers to one side of a product's list, each once, in list order |
| `OrderBooks.OrderBook.GetAllOrders` | src/server/OrderBook.cpp:137-145 | copies of all lists, one after the other, products in some order |
| `OrderBooks.OrderBook.GetOrdersForUser` | src/server/OrderBook.cpp:147-157 | following the pointers reports what looking the orders up would |
| `OrderBooks.OrderBook.RemoveOrderById` | src/server/OrderBook.cpp:169-211 | true exactly when the client has the order; then list entry and pointer go, and an empty bucket with them |
| `OrderBooks.OrderBook.RemoveFromUserIndex` | src/server/OrderBook.cpp:332-348 | the pointers with this id go, in order, and an empty bucket with them |
| `OrderBooks.OrderBook.RemoveMatchedOrders` | src/server/OrderBook.cpp:316-330 | the erase-while-iterating loop drops exactly the filled orders, index entries first |
| `OrderBooks.SortByPrice` | src/server/OrderBook.cpp:225-226 | what is promised of `std::sort`: a permutation in price order |
| `OrderBooks.OrderBook.MatchAsksToBids` | src/server/OrderBook.cpp:217-276 | the trades are those of a pass; the returned sale k holds the ask's price, the quantity, the product and the time of fill k, of type sale, owned by `default`, with the k-th id; wallets and ids follow from the trades; the book is the purged one, or, after an exception, the lists as they were with the fills made so far booked |
| `Sales.SaleRecordsFill` | src/server/OrderBook.cpp:239-274 | a pass that goes through appends one sale per fill to the log: at the ask's price, in the quantity that changed hands, of the pass's product and time, of type sale, owned by `default`, with the next ids |
| `Sales.RecordedLaws` | src/server/OrderBook.cpp:228-274 | recorded prices never fall and stay within the bid's limit, recorded amounts are positive and add up to what each side of the list lost, and price times amount adds up to what the buyers' fills cost |
| `Sales.WalletsFollowTheLog` | src/server/OrderBook.cpp:239-314 | what a client holds, free and locked together, changes in a pass by the value and the amounts of the recorded sales in which the client was seller or buyer |
| `Sales.LogOverRuns` | src/server/OrderBook.cpp:239-274 | over every run the log grows by one sale per fill of a pass that went through, in order, with ids that rise |
| `Reachable.IndexAgreesAlways` | src/server/OrderBook.cpp:116-157 | in every reachable state the index lists each client's live orders, each once, in submission order, with nothing dangling and no empty bucket, and looking a client up is a scan of the book |
| `Reachable.ListsStaySorted` | src/server/OrderBook.cpp:116-135 | in every reachable state every product list is in time order and holds each order once |
| `Reachable.CancelFinds` | src/server/ServerMain.cpp:234-250 | CANCEL with nothing in between unlocks and removes exactly one order, the client's live order with this id, or does nothing |
| `Accounts.NoPassThrows` | src/server/OrderBook.cpp:283-307 | in any sound state whose locks cover the orders, a pass throws if and only if its list is crossed and its product or an open ask is bad, whatever the ties; otherwise it settles exactly its fills |
| `Accounts.SlackNeverChanges` | src/server/ServerMain.cpp:187-195 | over every run, for every client and currency, locked funds that no order accounts for never shrink, and never change if and only if no pass of the run purges a bid of that client with both signs negative and none throws at a fill whose buyer is the client and had bid more than the ask |
| `Accounts.SlackIsStranded` | src/server/Wallet.cpp:115-132 | funds that no order accounts for stay locked in every later run |
| `Accounts.LeaksExactlyWhen` | src/server/OrderBook.cpp:322-329 | a purge leaves funds locked without an order if and only if the list holds a bid with both signs negative |
| `Accounts.ThrowLeaks` | src/server/OrderBook.cpp:228-272 | a pass that throws changes a client's slack by the refund of its first fill, when the client is its buyer and the product names two currencies, and by nothing otherwise |
| `Accounts.CancelMoves` | src/server/ServerMain.cpp:239 | CANCEL moves exactly what the order as it stands holds locked back to free, and no other client's locks |
| `Accounts.LockedEqualsReserves` | src/server/Wallet.cpp:73-132 | so in every reachable state locked is what was locked at start-up, plus exactly what live and accepted orders hold, plus what the passes leaked, which is something if and only if one of them is as above |
| `Accounts.NoReachablePassThrows` | src/server/OrderBook.cpp:283-307 | in every reachable state, earlier exceptions included, a pass throws if and only if its list is crossed and its product does not name two currencies or an open ask has a negative price |
| `Accounts.MoneyIsConserved` | src/server/OrderBook.cpp:287-313 | over every run, free plus locked of all users equals initial plus deposits minus withdrawals plus what the passes minted |
| `Accounts.ThrowingMints` | src/server/OrderBook.cpp:287-307 | a pass that throws over a product of two currencies creates at least the absolute cost of its first fill |
| `Accounts.DefaultBuyerHoldsLock` | src/server/OrderBook.cpp:283-313 | a pass over a product of two different currencies that throws with `default` as its buyer leaves `default` with locked funds, in the amount of the absolute cost |
| `Accounts.DefaultStaysUnlocked` | src/server/OrderBook.cpp:283-313 | in a calm run `default` never holds locked funds |
| `Prices.FairRunsAreCalm` | src/server/ServerMain.cpp:183-188 | when the CSV products name two currencies and no ask, read or placed, has a negative price, no pass of the run throws |
| `Prices.FairRunsAccount` | src/server/Wallet.cpp:73-132 | when besides no client places a bid with both signs negative, locked is at every moment what it was at start-up plus exactly what the client's orders still need |
| `Leaks.NegativePairCancels` | src/server/ServerMain.cpp:234-250 | before a pass, CANCEL of a bid with both signs negative gives back amount times price and leaves no slack |
| `Leaks.NegativePairIsStranded` | src/server/OrderBook.cpp:322-329 | after a pass the order is gone, slack has grown by at least amount times price, and that much stays locked in every later run |
| `Wakeups.NoLostWakeup` | src/server/ServerMain.cpp:350-403 | in every reachable state after start-up a crossed product is pending, in a pass, or about to be triggered, or the last pass over it threw and nobody has inserted into it or triggered it since; after a calm run, when none of these is left every book is uncrossed |
| `Queues.StepKeepsQueue` | src/server/ServerMain.cpp:351-403 | every step but Dequeue leaves the queue as a prefix of the new one |
| `Queues.TriggerQueues` | src/server/ServerMain.cpp:395-403 | a trigger queues the product at the back, unless it is queued |
| `Queues.StartUpQueues` | src/server/ServerMain.cpp:353-358 | start-up queues the products it read, in order, behind those already triggered |
| `Queues.QueueMovesUp` | src/server/ServerMain.cpp:366-367 | over every run the queue moves up by one place with every Dequeue, in its order, whatever is triggered meanwhile |
| `Queues.QueuedIsServed` | src/server/ServerMain.cpp:366-372 | in every run the product at place k goes into a pass at exactly the (k+1)-th Dequeue |
| `Lifetimes.BidLifetime` | src/server/OrderBook.cpp:245-269 | over every run, throwing passes included: every bid ever accepted is somewhere, and its amount at placement times its price is what its fills paid plus what they refunded plus the worth of what is left |
| `Payments.AcceptingLocks` | src/server/Wallet.cpp:73-97 | the step that accepts a bid moves its amount times its price from free to locked funds of the quote currency, and nothing else |
| `Payments.CancellingUnlocks` | src/server/ServerMain.cpp:234-250 | in every reachable state the CANCEL that closes a bid moves what is left of it times its price back from locked to free, and nothing else |
| `Payments.PassPays` | src/server/OrderBook.cpp:287-313 | a pass that goes through takes from a client's locked funds the costs and refunds of the client's purchases and the quantities sold, and adds to the free funds the refunds, the goods and the proceeds |
| `Payments.ThrownPassPays` | src/server/OrderBook.cpp:287-307 | a pass that throws made one fill: it takes the quantity sold and the negative cost from locked funds, hands out the goods, and neither refunds nor pays anything |
| `Cancels.ThreeInARow` | src/server/ServerMain.cpp:234-250 | copying, unlocking and removing with nothing in between are the one CANCEL step |
| `Cancels.CancelKeepsAccountsExactlyWhen` | src/server/ServerMain.cpp:239-250 | unlocking a copy and removing its order keeps the client's slack if and only if the order is in the book as copied, or is gone while the wallet holds less than the copy asks for, or holds nothing |
| `Cancels.CancelShifts` | src/server/ServerMain.cpp:239-250 | whatever became of the order since it was copied, slack grows by what it still held and falls by what the copy freed |
| `Cancels.StepsBetween` | src/server/ServerMain.cpp:234-250 | with any run between copy and unlock, the three sections leave the client's slack as it was before the unlock plus what the order still held less what the copy freed |
| `Cancels.CopiesAlwaysOk` | src/server/ServerMain.cpp:234-250 | however CANCELs and everything else interleave, every copy under way is of an order that lost nothing but fills since, or is gone for good |
| `Cancels.CleanPassThrowsExactlyWhen` | src/server/OrderBook.cpp:283-307 | while CANCELs are under way, a pass that leaves the released orders as they are throws only for a bad product or price, although their funds are gone |
| `Cancels.CleanCancelsKeepAccounts` | src/server/ServerMain.cpp:234-250 | however CANCELs interleave with each other and with everything else, throwing passes and refused unlocks included: if each order is in the book as it was copied from the release of its funds until its removal, locked funds stay in step with the orders whose funds are not released, up to what passes leak and what removing an order after a refused unlock strands |
| `Cancels.ReleaseKeepsLoose` | src/server/ServerMain.cpp:239 | an unlock moves an order from the orders whose funds are held to those whose funds are released, and changes nothing in what no order accounts for |
| `Cancels.EraseKeepsExactlyWhen` | src/server/ServerMain.cpp:244 | in any state at all, clean or not, removing an order whose funds were released keeps the accounts if and only if the order still is as it was copied, or holds nothing |
| `Cancels.AccountsBetweenCancels` | src/server/ServerMain.cpp:234-250 | so, whenever no CANCEL is between unlocking and removal, locked is what it was at start-up plus what the orders hold plus exactly what was leaked and stranded |
| `Interleavings.PassIsCalls` | src/server/OrderBook.cpp:278-314 | a pass that goes through makes these wallet calls, in this order, and no others |
| `Interleavings.PassServes` | src/server/OrderBook.cpp:287-313 | where the locks cover the fills every call on a client's wallet does what it is called for, the refunds whose result nobody checks included |
| `Scripts.CallIsBetween` | src/server/Wallet.cpp:23-97 | of any number of a client's deposits, withdrawals and locks between the wallet calls of a pass, each one granted would, after the calls before it, be granted behind the pass, and each one refused would be refused in front of it |
| `Scripts.OutcomesDecide` | src/server/Wallet.cpp:23-132 | two interleavings of the same calls with the same outcomes leave every balance of every user the same |
| `Scripts.SerialisableExactlyWhen` | src/server/Wallet.cpp:23-132 | the calls and the pass return and leave what they would one after the other, in some order, if and only if no call that the pass paid for comes before one that was refused too early |
| `Scripts.PassIsSerialisableExactlyWhen` | src/server/OrderBook.cpp:228-272 | so it is, in every sound state whose locks cover the orders, for every pass that goes through |
| `Scripts.OneCallOrNoRefusal` | src/server/Wallet.cpp:23-132 | a single call, and any number of calls of which none is refused, are always serialisable |
| `Scripts.TwoWithdrawalsFail` | src/server/Wallet.cpp:31-41 | two withdrawals that the funds cover neither of before, one of in the middle and both of after a pass are not |
| `Witnesses.OneCurrencyThrows` | src/server/CSVHandler.cpp:39-52 | two CSV lines that are read as an ask and a bid on a product of one currency, over which every pass throws, whatever is in the wallets |
| `Witnesses.PriceThenAmount` | src/server/CSVHandler.cpp:39-52 | the line `1,A/B,bid,2,3` is a bid for three at two |
| `Witnesses.NegativePriceThrows` | src/server/ServerMain.cpp:183-188 | `ASK A/B 1 -1` and `BID A/B 1 1` are accepted, and then every pass over them throws |
| `Witnesses.ThrowDrifts` | src/server/OrderBook.cpp:287-307 | a run from start-up with these two orders: the pass throws, the buyer has two B locked for no bid, and there is one B more than before |
| `Witnesses.WakeupIsLost` | src/server/ServerMain.cpp:384-391 | a run from start-up to a product that is crossed, not pending, in no pass and about to be triggered by nobody |
| `Witnesses.MinusOneTimesMinusOne` | src/server/ServerMain.cpp:183-188 | `BID A/B -1 -1`: a run of the server that locks one B, purges the order, and never unlocks it |
| `Witnesses.SomethingToStrand` | src/server/ServerMain.cpp:16-19 | a run register, deposit, place, insert after which a shutdown strands one B |
| `Witnesses.StaleCopyStrands` | src/server/ServerMain.cpp:234-250 | a run in which half of a bid is filled after CANCEL copied it: the unlock fails, the order is removed, and one B stays locked with no order to hold it |
| `Witnesses.StaleCopyRobs` | src/server/ServerMain.cpp:234-250 | a run in which a bid is filled after CANCEL copied it, while the client has another: the unlock frees the other bid's funds, slack is negative, and every pass over what is left throws for want of the buyer's funds |
| `Witnesses.TwoPayments` | src/server/Wallet.cpp:31-41 | a pass that pays a client five twice, and two withdrawals of five in between: the first is granted, the second refused, as in no serial order |
| `Csv.ReadCsv` | src/server/CSVHandler.cpp:54-77 | reading skips the lines that do not parse, groups the rest by product and sorts each list stably |
| `Csv.LinesAreTheText` | src/server/CSVHandler.cpp:61-69 | for every text: no line holds a newline, and the lines joined by newlines are the text, up to one newline that it may end in |
| `Csv.GetLine` | src/server/CSVHandler.cpp:63 | the line up to the first newline, or the whole rest when there is none |
| `Csv.EntriesToCsv` | src/server/CSVHandler.cpp:79-93 | writing appends or replaces one comma-joined line per order |
| `CsvRoundTrip.LineRestored` | src/server/CSVHandler.cpp:39-52 | with numbers that print cleanly and read back, a line gives its order back if and only if timestamp and product are non-empty and free of commas |
| `CsvRoundTrip.LineIsRead` | src/server/CSVHandler.cpp:39-52 | a line of clean fields is an order if and only if there are five, the type has a name and both numbers can be read; the fields are time, product, type, price and amount in this order |
| `CsvRoundTrip.LinesOfWritten` | src/server/CSVHandler.cpp:61-93 | getline finds the written lines again, for newline-free fields |
| `CsvRoundTrip.AppendingAddsLines` | src/server/CSVHandler.cpp:79-93 | appending to a file of whole lines adds one line per order and changes no other, and leaves a file of whole lines |
| `CsvRoundTrip.ParsedJoins` | src/server/CSVHandler.cpp:61-72 | reading goes line by line, the ids counting on |
| `CsvRoundTrip.BadLinesAreSkipped` | src/server/CSVHandler.cpp:64-70 | a line that does not parse is skipped, and nothing else with it |
| `CsvRoundTrip.ParsedFresh` | src/server/CSVHandler.cpp:39-52 | whatever the file holds, what is read belongs to `default` and has ids of its own |
| `CsvRoundTrip.SavedAndLoaded` | src/server/CSVHandler.cpp:54-93 | writing all orders and reading them back restores every non-empty list in its order, up to owner and id, for any enumeration of the products and any stable sort |
| `Restarts.LoadedIsInitial` | src/server/OrderBook.cpp:13-17 | a book read from any file, with any wallets in which clients' locked funds are not negative, is a legal start of the server |
| `Restarts.RestartStrandsReserves` | src/server/ServerMain.cpp:16-19 | saving a reachable book whose orders survive their CSV lines, and starting on the file, restores the lists; accepted orders are lost; no order accounts for any client's locked funds any more, and no later run unlocks them |
| `Stats.GetHighPrice` | src/server/OrderBook.cpp:46-55 | the maximum price, or zero for no orders |
| `Stats.GetLowPrice` | src/server/OrderBook.cpp:57-66 | the minimum price, or zero for no orders |
| `Stats.GetAvgPrice` | src/server/OrderBook.cpp:68-78 | the average times the volume is the price total, and it lies between any bounds on the prices when amounts are non-negative and some volume is there |
| `Stats.OneOrder` | src/server/OrderBook.cpp:68-86 | one order's volume is its amount, its price total price times amount |
| `Stats.TotalsJoin` | src/server/OrderBook.cpp:68-86 | both add up over the parts of a list |
| `Stats.OrderDoesNotMatter` | src/server/OrderBook.cpp:68-86 | neither depends on the order of the list |
| `Stats.AverageIgnoresScale` | src/server/OrderBook.cpp:68-78 | multiplying every amount multiplies the volume and leaves the average alone |
| `Stats.SplitCountsAsOne` | src/server/OrderBook.cpp:68-86 | splitting an order in two at its price changes neither |
| `Stats.TotalBetween` | src/server/OrderBook.cpp:72-75 | bounds on every price bound the price total, scaled by the volume |
| `Stats.GetTotalVolume` | src/server/OrderBook.cpp:80-86 | the volume, which is the sum of the amounts by `Stats.OneOrder` and `Stats.TotalsJoin` |
| `Stats.Summary` | src/server/ServerMain.cpp:313-327 | low and high of one side are prices of it and bound every other, the average times the volume is the price total, and it lies between them |
| `Handlers.DepositTo` | src/server/ServerMain.cpp:283 | a deposit changes the client's wallet alone |
| `Handlers.WithdrawFrom` | src/server/ServerMain.cpp:277 | a withdrawal changes the client's wallet alone |
| `Handlers.LockFor` | src/server/ServerMain.cpp:188 | placing an order locks funds in the client's wallet alone |
| `Handlers.UnlockFor` | src/server/ServerMain.cpp:239 | cancelling unlocks funds in the client's wallet alone |
| `Servers.Server.Register` | src/server/ServerMain.cpp:130-143 | takes the Register step |
| `Servers.Server.Deposit` | src/server/ServerMain.cpp:282-285 | takes the Deposit step |
| `Servers.Server.Withdraw` | src/server/ServerMain.cpp:276-281 | takes the Withdraw step |
| `Servers.Server.Place` | src/server/ServerMain.cpp:186-192 | a new order with a new id, of any signs and product; takes the Place step, with the wallet's outcome |
| `Servers.Server.Insert` | src/server/ServerMain.cpp:193 | takes the Insert step |
| `Servers.Server.Trigger` | src/server/ServerMain.cpp:395-403 | takes the Trigger step: the product goes to the back of the queue unless it is queued already |
| `Servers.Server.ReadProducts` | src/server/ServerMain.cpp:351 | takes the ReadProducts step |
| `Servers.Server.FillQueue` | src/server/ServerMain.cpp:353-358 | takes the FillQueue step |
| `Servers.Server.Dequeue` | src/server/ServerMain.cpp:362-372 | takes the Dequeue step: the front product leaves the queue and the others stay in order |
| `Servers.Server.Match` | src/server/ServerMain.cpp:384-391 | the asynchronous pass takes a Match step, whether it throws or not, and ends with the exception that the step says |
| `Servers.Server.CopyOwn` | src/server/ServerMain.cpp:234-238 | the copy is the client's own order with this id, or there is none |
| `Servers.Server.ReleaseCopy` | src/server/ServerMain.cpp:239 | unlocks the copy's funds, from the client's wallet alone |
| `Servers.Server.EraseOrder` | src/server/ServerMain.cpp:244 | removes the order as it is by now, and says whether it was there |
| `Servers.Server.CancelById` | src/server/ServerMain.cpp:227-258 | the three in a row take the CancelById step, and find an order exactly when the client has one with this id |
| `Servers.Boot` | src/server/ServerMain.cpp:39-64 | the server on any CSV file and any saved wallets, funds locked by `default` included, shows a legal initial state |

## Left out

- Sockets, command text, case folding of product names, responses, logging, signals: plumbing around the engine.
- JSON saving and loading of wallets and book: wallets keep their value across a restart in `Restarts`; `OrderBook::load` is never called.
- Passwords and LOGIN beyond who may act as whom: nobody registers or logs in as `default`.
- IEEE-754 rounding: amounts, prices and balances are exact reals, so the accounting holds in exact arithmetic only.
- Number printing: `operator<<` prints six digits, so the round trip is stated for orders whose numbers print cleanly and read back exactly.
- Numbers that are no reals: `std::stod` also reads "nan" and "inf". `ASK A/B 1 nan` is accepted, because the wallet does not look at an ask's price, and a price of nan breaks the strict weak order that `std::sort` needs; no real stands for it.
- A CANCEL whose order changes between unlock and removal is outside `Cancels.CleanCancelsKeepAccounts`; its own effect is `Cancels.EraseKeepsExactlyWhen`, but passes that meet such an order are not followed further.
- The calls between the wallet calls of a pass are those of one client, in that client's order; calls of several clients, and a CANCEL's unlock, in the middle of a pass are not modelled.
- The constructor's id is taken in the step that locks the funds, so ids grow in the order of placement; races on `nextId` and `isRunning` are not modelled.
- Pointers that MARKET and STATS read without the book's lock are not modelled; their arithmetic is.
- Line lengths beyond the range of `signed int` in extractTokens are not modelled.
- The order of finished futures in `matchingFutures` is not modelled: passes in flight are a multiset of products.
- `removeUser`, `getEarliestTimestamp` and `getNextTimestamp` are unused or commented out.
