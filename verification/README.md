# Verification of the SHIFT trading system

SHIFT is a market simulator: a matching engine, a brokerage center that keeps
every user's account and republishes order books, and a client library.  This
project models the parts of it whose correctness is not visible from one
function and proves what they promise.

* **Brokerage ledger.**  `Ledger` says in closed form what one order or report
  does to an account (cash, positions, reservations, waiting list).
  `RiskManagement` is the account as it is kept, mutable objects and maps updated
  branch by branch, proved equal to the closed form.  `LedgerInvariant` and
  `LedgerSteps` prove what each step keeps, `LedgerRuns` interleaves the lock
  sections of the order thread and the report thread, `WaitingList` relates the
  waiting list to the pending orders, `LedgerOutcomes` says in plain figures what one
  order or report means for the user, `LedgerHistory` what a run adds up to, and
  `LedgerTheorems` states what holds after every run.  `Accounts` opens a mutable account from what is stored and runs it.
* **Order books.**  `Books` has the two update algorithms as functions, the
  broker's nested map and the client's list; `BookAgreement` proves that the
  global books stay equal over every history, `LocalAgreement` when local books do.
  `Snapshots` covers the matching engine's full refresh.  `BrokerOrderBook` and
  `ClientOrderBook` are the mutable classes, `BookReplication` runs one of each side
  by side.
* **Price walk.**  `PriceWalk` proves that the client's walk over two sorted
  books gives the best volume-weighted price there is.
* **SHA-1.**  `SecureHash` is FIPS 180-4; `Sha1` proves the unrolled in-place
  compression against it and `Sha1Stream` the streaming object and its padding.
* **Order merge, shared objects, symbol sweep, statistics.**  `OrderMerge`,
  `SharedStatics`, `UnavailableSweep` and `BasicStatistics`.

`Reals`, `Money`, `MapSums` and `Strings` are used by the others.  Run
`dafny verify dfyconfig.toml` to check the project.

Money and prices are `real` and counts are `int`.  Threads are modelled at the
grain of their lock sections; the lock-free protocol at the grain of its atomic
operations.

What the environment is assumed to do: the acceptor lets through positive sizes
and non-negative prices only, and ids of new orders are fresh and not "0"
(`LedgerSteps.Submittable`, `LedgerRuns.Possible`); a fill or cancellation names a
live order of its side and symbol, executes at least one lot and no more than is
left, and a fill has a positive price (`Ledger.Reportable`).  The theorems over
runs need this; the methods of the mutable account do not.

Where the code does not do what one might expect, the exact condition is proved:

* a report noted before its order is listed leaves the waiting list wrong about that
  order for good, and nothing else does (`WaitingListMatchesPendingOrders`);
* the placeholder that keeps waiting lists non-empty can itself be "cancelled"
  (`AcceptedPlaceholderCancel`);
* fractions of a cent stay borrowed when short shares are sold for them
  (`FullBuyBackClears`, `NothingBorrowedIffNothingShort`); the client library rounds
  order prices to cents (LibCoreClient/src/Order.cpp:31), execution prices are the
  matching engine's;
* local books part when two destinations share a price (`AgreesIffNoClash`); the
  matching engine stamps all its own entries with one destination, so its updates
  never do;
* a fill or cancellation of an unknown order, or of more than is left of a known one,
  leaves an order of negative size (`FillBuyIffKnown`, `FillSellIffKnown`,
  `CancelBuyIffKnown`, `CancelSellIffKnown`);
* the counter of handlers wraps around at 2^32 threads
  (`ExclusiveIffCounterSuffices`, `AssertionHoldsIffFewer`).

## Model

Constructors and methods that assign one field (`AddLongShares`, `SetOrderBook`,
`BufNewGlobalOrder` and the like) are used by the methods below and have no row.

| member | source | states |
|---|---|---|
| LedgerTheorems.CostBasisIdentity | BrokerageCenter/src/RiskManagement.cpp:199-366 | over every interleaving of order reads, order commits and reports, buying power + holding + 2 x borrowed - total P&L + cost of long shares - proceeds of short shares has exactly the value it had when the account was opened |
| LedgerTheorems.UsableCoversAllButSlippage | BrokerageCenter/src/RiskManagement.cpp:430-456 | buying power minus the cash promised to short sales never falls below minus the adverse slippage of the fills so far, although an order is accepted on buying power read before any number of reports |
| LedgerTheorems.UsableStaysNonNegative | BrokerageCenter/src/RiskManagement.cpp:430-487 | when no purchase, and no sale beyond its reserved shares, executes above its reserved price, usable buying power is never negative |
| LedgerTheorems.NoSlippage | BrokerageCenter/src/RiskManagement.cpp:245-247 | such runs accumulate no slippage at all |
| LedgerTheorems.ReservationsMatchPendingOrders | BrokerageCenter/src/RiskManagement.cpp:445-487 | in every reachable state holding = opening holding + sum of price x shares over pending bids; pending short cash and, per symbol, pending short units are the sums over pending asks |
| LedgerTheorems.NoShareIsPromisedTwice | BrokerageCenter/src/RiskManagement.cpp:470-484 | 0 <= promised shares <= long shares for every symbol in every reachable state; no share count and no borrowed balance is ever negative |
| LedgerTheorems.BorrowedIsTheSumOverPositions | BrokerageCenter/src/RiskManagement.cpp:216-235 | the borrowed balance of the summary is the sum over the positions in every reachable state |
| LedgerTheorems.TotalSharesAreTraded | BrokerageCenter/src/RiskManagement.cpp:258-330 | in every reachable state the traded shares shown are the opening figure + 100 x the executed lots of all filled reports, purchases and sales alike |
| LedgerTheorems.SharesAreConserved | BrokerageCenter/src/RiskManagement.cpp:210-318 | in every reachable state and for every symbol, long - short shares = those at opening + shares bought - shares sold by the filled reports |
| LedgerTheorems.GainsAddUp | BrokerageCenter/src/RiskManagement.cpp:258-330 | the total P&L has moved by exactly what the P&L of all positions has moved |
| LedgerTheorems.PriceIffShares | BrokerageCenter/src/RiskManagement.cpp:223-313 | in an account opened so, a side of a position has average price 0 exactly when it has no shares, and no price is negative, in every reachable state |
| LedgerTheorems.PendingAsCommitted | BrokerageCenter/src/RiskManagement.cpp:437-487 | in every reachable state a pending order is the order as submitted but for its size and price; a limit order stands at its own price, a market order at the market price quoted when it was committed |
| LedgerTheorems.ReportTellsWhatIsLeft | BrokerageCenter/src/RiskManagement.cpp:248-326 | in every reachable state, after a fill has been settled the report passed on carries exactly the lots still pending, is Filled iff the order is no longer pending and PartiallyFilled otherwise, and is unchanged in every other field; any other report is passed on as it came |
| LedgerTheorems.LotsAreConserved | BrokerageCenter/src/RiskManagement.cpp:92-166 | in every reachable state, for every id but "0": lots the waiting list has not seen executed + lots still to be listed = pending lots + lots settled but not noted + lots lost to reports that found no entry |
| LedgerTheorems.WaitingListMatchesPendingOrders | BrokerageCenter/src/RiskManagement.cpp:92-163 | while nothing is on its way for an id, list and pending orders agree about it (waiting iff pending, on one side only, size - executed size = pending size >= 1) if and only if its order was put on the list before any report of it that executes something was noted |
| LedgerTheorems.WholeOrdersMatch | BrokerageCenter/src/RiskManagement.cpp:152-166 | the list agrees with the pending orders whenever reports are noted between orders only |
| LedgerTheorems.OvertakenOrderStays | BrokerageCenter/src/RiskManagement.cpp:152-163 | the race is real: in any opened account, any acceptable limit purchase that is filled at once and noted before it is listed stays on the list with nothing pending |
| LedgerTheorems.AcceptedCancelNamesALiveOrder | BrokerageCenter/src/RiskManagement.cpp:490-511 | in every reachable state with nothing on its way for its id and its order listed first, a cancellation is accepted iff it names a live order of its side at the price that order was submitted with; a limit order is pending at that very price |
| LedgerTheorems.AcceptedPlaceholderCancel | BrokerageCenter/src/RiskManagement.cpp:490-511 | a cancellation of id "0" is accepted, at any moment of any run, iff the placeholder is listed and it is a bid cancellation at price 0 |
| LedgerTheorems.AcceptedCancelIsAccountedFor | BrokerageCenter/src/RiskManagement.cpp:490-511 | at any moment of any run an accepted cancellation other than of "0" names lots that are pending, on their way to the list, or lost |
| LedgerTheorems.PlaceholderCancelIsAccepted | BrokerageCenter/src/RiskManagement.cpp:36 | the exception is real: in a freshly opened account cancelling the placeholder is accepted, whatever the symbol and the size, although nothing is live |
| LedgerTheorems.PartialBuyBack | BrokerageCenter/src/RiskManagement.cpp:229-237 | buying back x of s short shares turns a borrowed balance of b cents into b' cents with b(s-x) <= b's < b(s-x)+s |
| LedgerTheorems.FullBuyBackClears | BrokerageCenter/src/RiskManagement.cpp:229-241 | buying back every short share leaves nothing borrowed iff the borrowed balance was a whole number of cents |
| LedgerTheorems.ShortRoundTrip | BrokerageCenter/src/RiskManagement.cpp:275-282 | selling short and buying the same shares back ends with no short share, and with nothing borrowed iff the proceeds were a whole number of cents |
| LedgerTheorems.TinyPriceLeavesDebt | BrokerageCenter/src/RiskManagement.cpp:229-241 | the failing case: one lot sold short and bought back at a thousandth of a cent a share leaves no short share and a positive borrowed balance |
| LedgerTheorems.SellClearedIff | BrokerageCenter/src/RiskManagement.cpp:275-313 | a sale keeps a position owing whole cents, and nothing iff it has no short shares, if and only if the proceeds of the shares sold short are whole cents |
| LedgerTheorems.SettleClearedIff | BrokerageCenter/src/RiskManagement.cpp:182-366 | the same for all positions and any report |
| LedgerTheorems.NothingBorrowedIffNothingShort | BrokerageCenter/src/RiskManagement.cpp:199-330 | throughout a run every position owes whole cents, and nothing iff it has no short shares, if and only if every sale brings whole cents for the shares it sells short |
| LedgerTheorems.WholePricesKeepCleared | BrokerageCenter/src/RiskManagement.cpp:199-330 | so it is when every sale executes at a whole number of cents |
| LedgerRuns.RunKeeps | BrokerageCenter/src/RiskManagement.cpp:131-534 | every section of every run keeps the account sound, the slippage bound of the order being verified, and equity |
| LedgerRuns.StepKeeps | BrokerageCenter/src/RiskManagement.cpp:131-534 | the same for one lock section: an order read, committed or listed, a report settled or noted |
| LedgerRuns.ReportUsable | BrokerageCenter/src/RiskManagement.cpp:210-366 | a report lowers usable buying power by no more than its slippage |
| LedgerRuns.CommitUsable | BrokerageCenter/src/RiskManagement.cpp:436-489 | an order takes nothing, or less than the usable buying power it was checked against |
| LedgerSteps.SettleKeeps | BrokerageCenter/src/RiskManagement.cpp:190-366 | one settled report keeps the account sound and equity unchanged |
| LedgerSteps.CommitKeeps | BrokerageCenter/src/RiskManagement.cpp:436-515 | one verified order, accepted or not, keeps the account sound and equity unchanged |
| LedgerSteps.FillBuyIffKnown | BrokerageCenter/src/RiskManagement.cpp:248-256 | a purchase leaves proper pending orders iff it fills a known order and no more than is left of it; otherwise an order of negative size remains under its id |
| LedgerSteps.FillSellIffKnown | BrokerageCenter/src/RiskManagement.cpp:319-326 | the same for a sale |
| LedgerSteps.CancelBuyIffKnown | BrokerageCenter/src/RiskManagement.cpp:337-347 | the same for a bid cancellation |
| LedgerSteps.CancelSellIffKnown | BrokerageCenter/src/RiskManagement.cpp:348-364 | the same for an ask cancellation |
| LedgerSteps.OpenPositionKeeps | BrokerageCenter/src/RiskManagement.cpp:143-150 | an empty position for a new symbol changes neither |
| LedgerSteps.FillBuyKeeps | BrokerageCenter/src/RiskManagement.cpp:199-260 | a purchase keeps positions, reservations and promises consistent and moves cash, gain and cost basis by amounts that cancel out |
| LedgerSteps.FillSellKeeps | BrokerageCenter/src/RiskManagement.cpp:262-330 | the same for a sale, in all three branches |
| LedgerSteps.FillSellPromises | BrokerageCenter/src/RiskManagement.cpp:284-317 | promised and owned shares shrink together with a sale |
| LedgerSteps.CancelBuyKeeps | BrokerageCenter/src/RiskManagement.cpp:337-347 | the same for a cancelled bid |
| LedgerSteps.CancelSellKeeps | BrokerageCenter/src/RiskManagement.cpp:348-364 | the same for a cancelled ask, partial or whole |
| LedgerSteps.ReserveBuyKeeps | BrokerageCenter/src/RiskManagement.cpp:445-454 | reserving for a purchase keeps the sums and equity |
| LedgerSteps.ReserveSellKeeps | BrokerageCenter/src/RiskManagement.cpp:470-487 | reserving for a sale keeps the sums, the promises and equity |
| LedgerSteps.ReservedIsOwned | BrokerageCenter/src/RiskManagement.cpp:470-484 | the shares reserved for a live sell order are promised and owned |
| LedgerOutcomes.PurchaseDecision | BrokerageCenter/src/RiskManagement.cpp:437-456 | with price = market quote for a market order, order price for a limit order: a purchase is accepted iff price != 0 and price x 100 x size < usable buying power; then the cost moves from buying power to holding and the order is pending at that price; nothing else changes |
| LedgerOutcomes.SaleDecision | BrokerageCenter/src/RiskManagement.cpp:457-489 | with the same price: a sale is accepted iff price != 0 and either the free long shares suffice, or what is borrowed and the cost of the missing shares are both below the usable buying power; then min(shares, free) are promised and the cost of the rest is promised cash; nothing else changes |
| LedgerOutcomes.PurchaseReport | BrokerageCenter/src/RiskManagement.cpp:248-256 | for known and unknown orders, the report of a purchase carries the size left in the pending map and is Filled iff the order is gone |
| LedgerOutcomes.SaleReport | BrokerageCenter/src/RiskManagement.cpp:319-326 | the same for a sale |
| LedgerOutcomes.ReportLeavesPosition | BrokerageCenter/src/RiskManagement.cpp:193-377 | a confirmation changes nothing; any other report leaves a position in its symbol |
| LedgerOutcomes.SaleTakesReservedFirst | BrokerageCenter/src/RiskManagement.cpp:275-326 | a sale takes min(shares, reserved) from the long side and from the promises, the rest goes short and releases its promised cash at the reserved price |
| LedgerOutcomes.CancelGivesUpShortFirst | BrokerageCenter/src/RiskManagement.cpp:348-364 | a cancelled order keeps min(reserved, what is left of it) reserved shares; promised shares and cash drop by the rest |
| LedgerOutcomes.SettleKeepsPriced | BrokerageCenter/src/RiskManagement.cpp:210-318 | one report keeps the price of every side zero exactly when the side has no shares |
| LedgerHistory.RunAdds | BrokerageCenter/src/RiskManagement.cpp:199-330 | over a run, from any state of the invariant: traded shares, net shares of a symbol and unshown gains follow from the fills |
| LedgerHistory.RunKeepsPriced | BrokerageCenter/src/RiskManagement.cpp:199-330 | every run keeps the price of every side zero exactly when the side has no shares |
| WaitingList.RunKeepsListed | BrokerageCenter/src/RiskManagement.cpp:92-166 | every run keeps the relation between pending orders, waiting list, the order to be listed and the report to be noted |
| WaitingList.StepKeepsListed | BrokerageCenter/src/RiskManagement.cpp:92-166 | the same for one section |
| WaitingList.SettleShrinks | BrokerageCenter/src/RiskManagement.cpp:248-366 | a settled report takes its lots off one pending order, whose other fields it leaves alone, and leaves all other orders and the list alone |
| WaitingList.UpdateAt | BrokerageCenter/src/RiskManagement.cpp:92-112 | noting a report takes its lots off one entry, drops it when none are left, leaves it partially filled after a cancellation and with the status of the report otherwise, and leaves all others alone |
| WaitingList.MatchesIffListedFirst | BrokerageCenter/src/RiskManagement.cpp:92-163 | for one id, from any state of the invariant without losses: list and pending orders agree iff its order was listed first |
| WaitingList.MatchesIffNothingLost | BrokerageCenter/src/RiskManagement.cpp:92-112 | for one id: list and pending orders agree iff no noted lots missed the list |
| WaitingList.NoEntryIffUnlisted | BrokerageCenter/src/RiskManagement.cpp:92-99 | a report that executes something finds no entry iff its order is committed and not yet listed |
| WaitingList.LossIsPermanent | BrokerageCenter/src/RiskManagement.cpp:92-112 | what is lost stays lost |
| WaitingList.NothingLostIffListedFirst | BrokerageCenter/src/RiskManagement.cpp:152-163 | over a run no lots of an id miss the list iff its order is listed first |
| WaitingList.BetweenOrdersListsFirst | BrokerageCenter/src/RiskManagement.cpp:152-163 | when reports are noted between orders only, every order is listed first |
| WaitingList.AcceptedIffLive | BrokerageCenter/src/RiskManagement.cpp:490-511 | a cancellation is accepted iff it names a live order of its side at its submitted price, at which a limit order is pending, while nothing is on its way or lost |
| LedgerInvariant.BuyCostBasis | BrokerageCenter/src/PortfolioItem.cpp:52-64 | buying moves the cost basis by the cash spent plus the gain realised, through covering, crossing and opening |
| LedgerInvariant.SellCostBasis | BrokerageCenter/src/PortfolioItem.cpp:52-64 | selling moves the cost basis by the proceeds and the gain realised |
| LedgerInvariant.AverageTimesShares | BrokerageCenter/src/PortfolioItem.cpp:52-57 | the average price times the new share count is the old cost plus the cost of what was added |
| LedgerInvariant.ReturnedBounds | BrokerageCenter/src/RiskManagement.cpp:216-235 | what a purchase hands back lies between nothing and everything borrowed |
| RiskManagement.PortfolioItem.AddLongPrice | BrokerageCenter/src/PortfolioItem.cpp:52-57 | the long price becomes the average over old and added shares, or stays when nothing is added |
| RiskManagement.PortfolioItem.AddShortPrice | BrokerageCenter/src/PortfolioItem.cpp:59-64 | the same for the short price |
| RiskManagement.PortfolioSummary.HoldBalance | BrokerageCenter/src/PortfolioSummary.cpp:30-34 | cash moves into the holding balance; buying power + holding does not change |
| RiskManagement.PortfolioSummary.ReleaseBalance | BrokerageCenter/src/PortfolioSummary.cpp:36-40 | cash moves back; buying power + holding does not change |
| RiskManagement.PortfolioSummary.BorrowBalance | BrokerageCenter/src/PortfolioSummary.cpp:42-46 | the borrowed balance grows; buying power + borrowed does not change |
| RiskManagement.PortfolioSummary.ReturnBalance | BrokerageCenter/src/PortfolioSummary.cpp:48-52 | the borrowed balance shrinks and twice the amount comes back; buying power + 2 x borrowed does not change |
| RiskManagement.CutToCents | BrokerageCenter/src/RiskManagement.cpp:233 | the largest whole number of cents that is not more than the amount |
| RiskManagement.BuyShares | BrokerageCenter/src/RiskManagement.cpp:210-243 | the three branches of a purchase are one closed form: cover first, open long with the rest, return borrowed cash |
| RiskManagement.SettleBuy | BrokerageCenter/src/RiskManagement.cpp:208-260 | a purchase as a whole turns item and summary into the closed form the invariants are proved about; the traded shares grow by the shares bought, the total P&L by what the P&L of the position grows |
| RiskManagement.SellShares | BrokerageCenter/src/RiskManagement.cpp:273-318 | the three branches of a sale are one closed form: reserved shares first, the rest borrowed |
| RiskManagement.SettleSell | BrokerageCenter/src/RiskManagement.cpp:268-330 | the same for a sale as a whole: closed form, traded shares, P&L |
| RiskManagement.RiskManagement.OpenPosition | BrokerageCenter/src/RiskManagement.cpp:143-150 | a missing position is added empty; all other positions stay the same objects |
| RiskManagement.RiskManagement.InsertPortfolioItem | BrokerageCenter/src/RiskManagement.cpp:74-78 | the given position stands under its symbol, every other position and the rest of the account stay |
| Accounts.OpenAccount | BrokerageCenter/src/BCDocuments.cpp:254-298 | every symbol of a stored row, and no other, has a position: the one of its last row; the summary is the stored one, or 1000000 of buying power and zeros; nothing is pending |
| Accounts.PositionsAreLastRows | BrokerageCenter/src/BCDocuments.cpp:277-293 | the stored positions are, symbol by symbol, those of the last row of the symbol |
| Accounts.OpenedIffStoredOk | BrokerageCenter/src/BCDocuments.cpp:254-298 | that is an account the theorems speak of iff what is stored has no negative figures and its borrowed balances add up |
| Accounts.RunFromStore | BrokerageCenter/src/BCDocuments.cpp:254-298 | from the store through any interleaving of the two threads the mutable account satisfies the invariants, and its equity is the stored one |
| RiskManagement.RiskManagement.TouchBid | BrokerageCenter/src/RiskManagement.cpp:248-251 | looking up an unknown order creates an empty one |
| RiskManagement.RiskManagement.TouchAsk | BrokerageCenter/src/RiskManagement.cpp:275 | the same for a sell order |
| RiskManagement.RiskManagement.FillBuy | BrokerageCenter/src/RiskManagement.cpp:199-260 | the account becomes the closed form of a filled purchase, for known and unknown orders; the report carries the size left in the pending map, Filled iff the order is gone and PartiallyFilled otherwise, and is otherwise unchanged |
| RiskManagement.RiskManagement.TakePurchase | BrokerageCenter/src/RiskManagement.cpp:210-256 | position, summary and pending order of a purchase are updated together; the order stays iff lots are left |
| RiskManagement.RiskManagement.FillSell | BrokerageCenter/src/RiskManagement.cpp:262-330 | the same for a filled sale |
| RiskManagement.RiskManagement.TakeSale | BrokerageCenter/src/RiskManagement.cpp:275-326 | position, summary, reservations and promised shares of a sale are updated together; the order stays iff lots are left |
| RiskManagement.RiskManagement.ReduceAsk | BrokerageCenter/src/RiskManagement.cpp:275-326 | the pending order and what is promised to it shrink together |
| RiskManagement.RiskManagement.ReleaseSold | BrokerageCenter/src/RiskManagement.cpp:276-316 | promised cash shrinks by the shorted part at the reserved price, promised shares by the sold part |
| RiskManagement.RiskManagement.CancelBuy | BrokerageCenter/src/RiskManagement.cpp:337-347 | the held money of the cancelled part comes back and the order shrinks or disappears |
| RiskManagement.RiskManagement.CancelSell | BrokerageCenter/src/RiskManagement.cpp:348-364 | the part that would go short is given up first, then reserved shares |
| RiskManagement.RiskManagement.UpdateWaitingList | BrokerageCenter/src/RiskManagement.cpp:92-112 | the executed size grows; a completed order leaves the list, a partly cancelled one is partially filled |
| RiskManagement.RiskManagement.SettleReport | BrokerageCenter/src/RiskManagement.cpp:193-377 | the report is settled by its status and order type; any other changes nothing; all but confirmations leave a position in their symbol |
| RiskManagement.RiskManagement.BookReport | BrokerageCenter/src/RiskManagement.cpp:196-366 | with the position there, a fill or a cancellation is booked by its order type |
| RiskManagement.RiskManagement.NoteReport | BrokerageCenter/src/RiskManagement.cpp:414 | the noting section changes the waiting list only |
| RiskManagement.RiskManagement.ProcessExecRpt | BrokerageCenter/src/RiskManagement.cpp:182-421 | one pass of the report thread: the settled account with the outgoing report noted in the waiting list; that report carries the size left and is Filled iff nothing is, or is the incoming one when it is no fill |
| RiskManagement.RiskManagement.ReadUsable | BrokerageCenter/src/RiskManagement.cpp:430-434 | the position exists and the value read is buying power minus the cash promised to short sales |
| RiskManagement.RiskManagement.EnlistOrder | BrokerageCenter/src/RiskManagement.cpp:159-164 | the order is put on the waiting list, nothing else changes |
| RiskManagement.RiskManagement.ProcessOrder | BrokerageCenter/src/RiskManagement.cpp:131-171 | one pass of the order thread: read, committed, and listed iff accepted and not a cancellation |
| RiskManagement.RiskManagement.RunSection | BrokerageCenter/src/RiskManagement.cpp:131-534 | one lock section of either thread on the mutable account is one event of the state machine |
| RiskManagement.RiskManagement.RunSections | BrokerageCenter/src/RiskManagement.cpp:131-534 | any interleaving of the sections takes the mutable account where the state machine of the theorems takes it |
| RiskManagement.RiskManagement.VerifyOrder | BrokerageCenter/src/RiskManagement.cpp:436-515 | accepted iff acceptable for its kind, and then reserved for; otherwise nothing changes; a market order is checked and stored at the market price |
| RiskManagement.RiskManagement.VerifyBuy | BrokerageCenter/src/RiskManagement.cpp:437-456 | accepted iff the price - the market price for a market order - is not 0 and the cost is below the usable buying power; then exactly that cost is held and the order is stored at that price |
| RiskManagement.RiskManagement.VerifySell | BrokerageCenter/src/RiskManagement.cpp:457-489 | accepted iff the price - the market price for a market order - is not 0 and free long shares suffice or borrowed balance and cost of the rest are below the usable buying power; the free shares and the cash for the rest are then promised and the order is stored at that price |
| RiskManagement.RiskManagement.ReserveForPurchase | BrokerageCenter/src/RiskManagement.cpp:448-455 | accepted iff the cost is below the usable buying power; the cost is then held and the order stored at the checked price |
| RiskManagement.RiskManagement.ReserveForSale | BrokerageCenter/src/RiskManagement.cpp:469-488 | accepted iff free long shares suffice, or the borrowed balance and the cost of the short part are both below the usable buying power; free shares and cash are then promised |
| RiskManagement.RiskManagement.NamesWaitingOrder | BrokerageCenter/src/RiskManagement.cpp:490-511 | a cancellation succeeds iff it names a waiting order of its side at the same price |
| BookAgreement.GlobalBooksAgree | LibCoreClient/src/OrderBookGlobalAsk.cpp:18-41 | after any common history of updates and clears the client's list is sorted best first with unique (price, destination) keys and is, as a finite map, the broker's nested map |
| BookAgreement.GlobalStep | LibCoreClient/src/OrderBookGlobalBid.cpp:18-41 | one received entry keeps client list and broker map equal, and an update makes its price the best of both |
| BookAgreement.LastUpdateIsBest | BrokerageCenter/src/OrderBook.cpp:194-229 | after a history that ends in an update both sides report that update's price as best |
| BookAgreement.UpdateGlobalMap | LibCoreClient/src/OrderBookGlobalAsk.cpp:18-41 | the list algorithm discards exactly the better prices and sets the one key |
| BookAgreement.SaveGlobalMap | BrokerageCenter/src/OrderBook.cpp:194-229 | the nested-map algorithm is the same change of the finite map |
| LocalAgreement.AgreesIffNoClash | LibCoreClient/src/OrderBookLocalBid.cpp:18-43 | one update leaves client and broker with the same prices, destinations and sizes if and only if the client holds no entry of another destination at its price that has size, or that the update would give size |
| LocalAgreement.LocalBooksAgreeIffClashFree | LibCoreClient/src/OrderBookLocalAsk.cpp:18-43 | over any history, with any destinations, the two agree at every moment if and only if no update clashes |
| LocalAgreement.LocalBooksAgree | MatchingEngine/src/OrderBookEntry.cpp:13-21 | when every price has one destination, as when the matching engine makes all entries, they agree after any history |
| LocalAgreement.SharedPriceDiverges | BrokerageCenter/src/OrderBook.cpp:242-249 | two updates with size from two destinations at one price always part the books |
| LocalAgreement.UpdateWithoutClash | LibCoreClient/src/OrderBookLocalAsk.cpp:18-43 | without a clash the scan sets or removes exactly the entry of the update |
| LocalAgreement.UpdateWithClash | LibCoreClient/src/OrderBookLocalAsk.cpp:18-43 | with a clash it does something else |
| LocalAgreement.UpdateLocalSorted | LibCoreClient/src/OrderBookLocalBid.cpp:18-43 | the scan keeps the list strictly sorted |
| LocalAgreement.SaveLocalMap | BrokerageCenter/src/OrderBook.cpp:231-250 | the broker sets or removes exactly the entry of the update, whatever else is at its price |
| LocalAgreement.SaveLocalKeepsOk | BrokerageCenter/src/OrderBook.cpp:231-250 | the broker never holds a non-positive size or an empty level |
| LocalAgreement.ListingIsReplicaIffUnshared | BrokerageCenter/src/FIXAcceptor.cpp:198-229 | the listing a new subscriber gets of a local book is its replica iff no price has two destinations |
| Books.FindEntry | LibCoreClient/src/OrderBook.cpp:174-187 | the position of the key within the leading run of its price, or the end |
| BookAgreement.NotFoundIsAbsent | LibCoreClient/src/OrderBook.cpp:174-187 | in a sorted list without better prices a search that stops early has missed nothing |
| Snapshots.GlobalEntries | MatchingEngine/src/markets/Market.cpp:96-112 | with n the smaller of maxLevel (at least 0) and the number of orders: n + 1 entries, first the clear marker, then the best n orders from worst to best, each with its price, size and destination and the present time |
| Snapshots.LocalEntries | MatchingEngine/src/markets/Market.cpp:114-132 | the same for price levels, without those headed by a market order |
| Snapshots.GlobalSnapshotReplay | MatchingEngine/src/markets/Market.cpp:87-112 | whatever the broker held, after the snapshot it holds each of the sender's best n orders under its price and destination, in its full size, and nothing else; of orders with one price and destination the better placed one |
| Snapshots.LocalSnapshotReplay | MatchingEngine/src/markets/Market.cpp:114-132 | whatever the broker held, after the snapshot it holds exactly those of the sender's best n levels that hold any size and are not headed by a market order, each in its full size |
| Snapshots.SnapshotReachesTheClient | LibCoreClient/src/FIXInitiator.cpp:860-870 | the same for the client's list, which is sorted with unique keys: each of the best n orders with price, size and destination, and no other entry |
| Snapshots.LocalSnapshotReachesTheClient | LibCoreClient/src/FIXInitiator.cpp:860-870 | the same for the client's local list: each shown level in its full size, and no other entry of any size |
| BrokerOrderBook.OrderBook.SaveGlobalBidUpdate | BrokerageCenter/src/OrderBook.cpp:194-209 | the bid map becomes the saved map of the agreement theorems |
| BrokerOrderBook.OrderBook.SaveGlobalAskUpdate | BrokerageCenter/src/OrderBook.cpp:214-229 | the ask map becomes the saved map of the agreement theorems |
| BrokerOrderBook.OrderBook.SaveLocalUpdate | BrokerageCenter/src/OrderBook.cpp:231-250 | a local map becomes the saved map of the agreement theorems |
| BrokerOrderBook.OrderBook.Process | BrokerageCenter/src/OrderBook.cpp:41-71 | an update changes the book of its own type and no other |
| BrokerOrderBook.OrderBook.ProcessAll | BrokerageCenter/src/OrderBook.cpp:41-71 | working off the buffer leaves each book as the history of its own updates does, and broadcasts every update in its turn |
| BrokerOrderBook.FirstPrice | BrokerageCenter/src/OrderBook.cpp:270-312 | the best price in the map, 0 when it is empty |
| BrokerOrderBook.FirstPriceIsUnique | BrokerageCenter/src/OrderBook.cpp:270-312 | no other price satisfies that description |
| BrokerOrderBook.OrderBook.MarketFirstPrice | BrokerageCenter/src/BCDocuments.cpp:187-212 | the best price over the global and the local book of the side, 0 iff both are empty |
| BrokerOrderBook.SendOrderBook | BrokerageCenter/src/FIXAcceptor.cpp:198-229 | the listing sent to one subscriber is a replica of the book, best price first and destinations in order within a price |
| BrokerOrderBook.ListingIsUnique | BrokerageCenter/src/FIXAcceptor.cpp:198-229 | a book has only one listing in that order |
| BrokerOrderBook.SendRow | BrokerageCenter/src/FIXAcceptor.cpp:198-229 | a price level goes out behind all better ones, completely and with its destinations in order |
| ClientOrderBook.OrderBook.FindEntryAt | LibCoreClient/src/OrderBook.cpp:174-187 | the loop finds what the search is specified to find |
| ClientOrderBook.OrderBook.UpdateGlobalBook | LibCoreClient/src/OrderBookGlobalBid.cpp:18-41 | erasing, overwriting and inserting in place is the list update of the agreement theorems |
| ClientOrderBook.OrderBook.UpdateLocalBook | LibCoreClient/src/OrderBookLocalAsk.cpp:18-43 | the same for the local list |
| ClientOrderBook.OrderBook.Receive | LibCoreClient/src/FIXInitiator.cpp:860-870 | a positive price updates, any other clears |
| ClientOrderBook.OrderBook.ReceiveAll | LibCoreClient/src/FIXInitiator.cpp:860-870 | received updates leave the list as their history does |
| BookReplication.SubscribeGlobal | BrokerageCenter/src/OrderBook.cpp:101-122 | the listing makes the mutable global book of a subscriber a replica of the mutable book of the broker |
| BookReplication.SubscribeLocal | BrokerageCenter/src/OrderBook.cpp:101-122 | it makes the local book a replica iff no price has two destinations |
| BookReplication.FollowGlobal | BrokerageCenter/src/OrderBook.cpp:41-71 | after any number of updates worked off, broadcast and received the two global books are still replicas |
| BookReplication.FollowLocal | BrokerageCenter/src/OrderBook.cpp:41-71 | so are the two local books if no update clashes |
| ClientOrderBook.OrderBook.GetBestValues | LibCoreClient/src/OrderBook.cpp:30-50 | the first price and the total of its leading run, which in a sorted book is everything on offer at that price |
| ClientOrderBook.OrderBook.GetOrderBook | LibCoreClient/src/OrderBook.cpp:82-118 | the first maxLevel levels of the aggregation below, or all when there are fewer |
| ClientOrderBook.AggregationIsFaithful | LibCoreClient/src/OrderBook.cpp:82-118 | for a sorted book the levels are strictly sorted, each holds everything at its price, nothing is lost at any price, and an empty level shows iff nothing is left at the worst price |
| ClientOrderBook.LevelsAreNamed | LibCoreClient/src/OrderBook.cpp:96-114 | every level shown has the price, time and total size of the first entry at its price; global levels are all called the market, local ones after that entry's destination |
| PriceWalk.GetClosePrice | LibCoreClient/src/CoreClient.cpp:231-307 | min(size in absolute value, depth of both books) lots are priced, at a total that no other way of taking that many lots from the two books beats; 0 when disconnected, for size 0 and for empty books; no number iff entries are seen but hold no lot |
| PriceWalk.GreedyIsBest | LibCoreClient/src/CoreClient.cpp:231-307 | any pair of takings up to a common limit price has the least outlay (greatest proceeds) among all pairs of the same number of lots |
| PriceWalk.GreedyHasBestValue | LibCoreClient/src/CoreClient.cpp:231-307 | such a pair has the best value for its number of lots |
| PriceWalk.ExchangeBook | LibCoreClient/src/CoreClient.cpp:231-307 | in one book, exchanging lots against the limit price never helps |
| PriceWalk.WalkBooks | LibCoreClient/src/CoreClient.cpp:255-300 | the loop terminates, takes up to one limit in both books, takes min(wanted, depth) lots, and records exactly their prices and sizes |
| PriceWalk.NextBest | LibCoreClient/src/CoreClient.cpp:256-287 | stops iff both books are used up; otherwise passes the better of the two next entries, also while one iterator aliases the other |
| PriceWalk.Weighted | LibCoreClient/src/CoreClient.cpp:302-304 | price times total size is the inner product of prices and sizes; no number iff the total is zero |
| Sha1.Transform | LibMiscUtils/src/crypto/SHA1.cpp:94-195 | the 80 unrolled operations with rotated roles on a circular 16-word block are the compression function of FIPS 180-4 section 6.1.2 with its 80-word schedule, for every digest and block |
| Sha1.OperationIsRound | LibMiscUtils/src/crypto/SHA1.cpp:56-88 | one operation, with the five variables in any rotated role, is one round of the standard |
| Sha1.NextWord | LibMiscUtils/src/crypto/SHA1.cpp:47-50 | the word made in place is the next word of the schedule |
| Sha1.NextBlock | LibMiscUtils/src/crypto/SHA1.cpp:47-50 | it replaces the one word that no later round needs |
| Sha1.ChooseIsCh | LibMiscUtils/src/crypto/SHA1.cpp:56-60 | the code's choose formula is Ch |
| Sha1.MajorityIsMaj | LibMiscUtils/src/crypto/SHA1.cpp:76-81 | the code's majority formula is Maj |
| Sha1.MixIsSum | LibMiscUtils/src/crypto/SHA1.cpp:56-60 | the code's order of summands gives the standard's sum modulo 2^32 |
| SecureHash.ConstantsAreRoots | LibMiscUtils/src/crypto/SHA1.cpp:56-88 | the four round constants are 2^30 times the square roots of 2, 3, 5 and 10, rounded down |
| SecureHash.InitialIsPattern | LibMiscUtils/src/crypto/SHA1.cpp:28-40 | the initial value is a pattern of bytes in equal steps |
| SecureHash.PaddingLayout | LibMiscUtils/src/crypto/SHA1.cpp:244-249 | the padded message is the message, the byte 80 and zeros only |
| Sha1.R0 | LibMiscUtils/src/crypto/SHA1.cpp:56-60 | round t < 16 on the block as it came |
| Sha1.R1 | LibMiscUtils/src/crypto/SHA1.cpp:62-67 | rounds 16 to 19, making the schedule word in place |
| Sha1.R2 | LibMiscUtils/src/crypto/SHA1.cpp:69-74 | rounds 20 to 39 |
| Sha1.R3 | LibMiscUtils/src/crypto/SHA1.cpp:76-81 | rounds 40 to 59 |
| Sha1.R4 | LibMiscUtils/src/crypto/SHA1.cpp:83-88 | rounds 60 to 79 |
| Sha1.FirstRound | LibMiscUtils/src/crypto/SHA1.cpp:105-124 | the registers after 20 rounds |
| Sha1.SecondRound | LibMiscUtils/src/crypto/SHA1.cpp:125-144 | the registers after 40 rounds |
| Sha1.ThirdRound | LibMiscUtils/src/crypto/SHA1.cpp:145-164 | the registers after 60 rounds |
| Sha1.FourthRound | LibMiscUtils/src/crypto/SHA1.cpp:165-184 | the registers after 80 rounds |
| Sha1.AddBack | LibMiscUtils/src/crypto/SHA1.cpp:187-191 | the registers are added into the digest modulo 2^32 |
| Sha1Stream.Sha1Hash.Reset | LibMiscUtils/src/crypto/SHA1.cpp:28-40 | the object has been fed nothing |
| Sha1Stream.Sha1Hash.Update | LibMiscUtils/src/crypto/SHA1.cpp:219-233 | feeding appends: digest, buffer and block counter are those of the concatenation |
| Sha1Stream.SplitDoesNotMatter | LibMiscUtils/src/crypto/SHA1.cpp:219-233 | two objects fed the same message in any splits are in the same state, with less than a block in the buffer |
| Sha1Stream.Sha1Hash.Final | LibMiscUtils/src/crypto/SHA1.cpp:239-277 | the result is the FIPS 180-4 digest of everything fed, in hexadecimal, and the object starts over |
| Sha1Stream.Sha1Hash.Pad | LibMiscUtils/src/crypto/SHA1.cpp:244-249 | the buffer is filled up to a block with a one bit and zeros |
| Sha1Stream.Sha1Hash.PrintDigest | LibMiscUtils/src/crypto/SHA1.cpp:266-276 | the five words as eight digits each |
| Sha1Stream.HexRoundTrip | LibMiscUtils/src/crypto/SHA1.cpp:267-271 | the printed digits determine the word |
| Sha1Stream.HexStringRoundTrip | LibMiscUtils/src/crypto/SHA1.cpp:266-276 | the forty digits determine the five words in their order |
| Sha1Stream.OneLastBlock | LibMiscUtils/src/crypto/SHA1.cpp:251-264 | with less than 56 bytes left one block ends the padded message of section 5.1.1 |
| Sha1Stream.TwoLastBlocks | LibMiscUtils/src/crypto/SHA1.cpp:251-264 | with 56 or more two blocks do |
| Sha1Stream.PaddingSplits | LibMiscUtils/src/crypto/SHA1.cpp:239-264 | the padded message is the whole blocks already hashed followed by those last blocks |
| Sha1Stream.LengthModulo | LibMiscUtils/src/crypto/SHA1.cpp:242 | the length from the block counter is the length in bits modulo 2^64 |
| Sha1Stream.BufferToBlock | LibMiscUtils/src/crypto/SHA1.cpp:197-206 | 64 bytes are the 16 big-endian words of section 5.2.1 |
| OrderMerge.Market.GetNextOrder | MatchingEngine/src/markets/Market.cpp:163-195 | pops the local head if it is due and not later than the global head, else a due global head, else nothing; the out-parameter in every case |
| OrderMerge.Market.Drain | MatchingEngine/src/markets/Market.cpp:163-195 | repeated calls return the drained sequence, terminate, and leave exactly the orders that are not due |
| OrderMerge.DrainedIsStableMerge | MatchingEngine/src/markets/Market.cpp:163-195 | for time-ordered buffers the drained sequence is ordered by time, local first on ties, with each buffer's due orders once and in order |
| OrderMerge.StableMergeIsUnique | MatchingEngine/src/markets/Market.cpp:163-195 | there is only one such sequence |
| OrderMerge.DueIsFilter | MatchingEngine/src/markets/Market.cpp:163-195 | in a time-ordered buffer the due prefix is all that is due, and the rest is untouched |
| SharedStatics.HandlersDoNotInterfere | BrokerageCenter/src/FIXInitiator.cpp:375-437 | in every interleaving of up to 2^32 threads, access by access to the group and field objects, the counter counts the handlers in flight, at most one uses the shared objects, and every handler collects the fields of its own message |
| SharedStatics.ExclusiveIffCounterSuffices | BrokerageCenter/src/FIXInitiator.cpp:375-383 | every run is exclusive iff there are at most 2^32 threads: one more wraps the unsigned counter to zero |
| SharedStatics.OneTooMany | BrokerageCenter/src/FIXInitiator.cpp:375-383 | the run that breaks it, for any larger set of threads |
| SharedStatics.AssertionHoldsIffFewer | BrokerageCenter/src/FIXInitiator.cpp:381 | the assertion that the counter is positive holds in every run iff there are fewer than 2^32 threads |
| SharedStatics.StepKeeps | BrokerageCenter/src/FIXInitiator.cpp:375-437 | one atomic step keeps the protocol invariant |
| SharedStatics.StepCounts | BrokerageCenter/src/FIXInitiator.cpp:378-435 | one atomic step keeps the counter equal to the handlers in flight, modulo 2^32 |
| SharedStatics.StepExcludes | BrokerageCenter/src/FIXInitiator.cpp:378-401 | one atomic step keeps the shared objects exclusive |
| SharedStatics.StepIntact | BrokerageCenter/src/FIXInitiator.cpp:403-422 | one access keeps every handler's group, fields and collected entry those of its own message, object by object |
| UnavailableSweep.TrthApi.RemoveUnavailableRICs | DatafeedEngine/src/TRTHAPI.cpp:148-175 | every symbol of the unavailable list is removed with all its duplicates, every other keeps its multiplicity, the number removed is returned; nothing is touched when either list is empty |
| UnavailableSweep.Sweep | DatafeedEngine/src/TRTHAPI.cpp:160-172 | the pass with a cursor that never retreats is the filter |
| UnavailableSweep.LowerBound | DatafeedEngine/src/TRTHAPI.cpp:163 | the first position from the cursor on whose symbol is not smaller |
| UnavailableSweep.ListedAtCursor | DatafeedEngine/src/TRTHAPI.cpp:163-169 | with everything before the cursor smaller, a symbol is listed iff it stands at the cursor |
| UnavailableSweep.WithoutCounts | DatafeedEngine/src/TRTHAPI.cpp:148-175 | the filter in terms of multiplicities |
| UnavailableSweep.StableSortSorts | DatafeedEngine/src/TRTHAPI.cpp:156-157 | the sorted list is an ordered permutation |
| UnavailableSweep.StableSortIsStable | DatafeedEngine/src/TRTHAPI.cpp:157 | requests with one symbol keep their order |
| BasicStatistics.CovarianceBound | LibMiscUtils/include/statistics/BasicStatistics.h:44-62 | covariance squared is at most the product of the variances, for all data of any lengths |
| BasicStatistics.VarianceIsCovariance | LibMiscUtils/include/statistics/BasicStatistics.h:19-32 | the variance is the covariance of the data with itself and not negative |
| BasicStatistics.DeviationsAddUpToZero | LibMiscUtils/include/statistics/BasicStatistics.h:9-17 | the mean is the value that the data deviate from by nothing in total |
| BasicStatistics.CovarianceByMeans | LibMiscUtils/include/statistics/BasicStatistics.h:44-62 | the covariance is the mean of the products less the product of the means, and so is the variance |
| BasicStatistics.CauchySchwarz | LibMiscUtils/include/statistics/BasicStatistics.h:61 | the inequality for inner products |
| BasicStatistics.ZeroVarianceIffConstant | LibMiscUtils/include/statistics/BasicStatistics.h:19-32 | the variance is zero iff the data are constant |
| BasicStatistics.CorrelationBound | LibMiscUtils/include/statistics/BasicStatistics.h:64-72 | the correlation is no number iff one of two equally long, non-empty data sets is constant, and otherwise lies between -1 and 1 |

## Left out

- FIX sessions and messages, the database, REST, files, command lines, thread start and stop, wake-ups, and the Qt and web clients: input and output around the modelled state.
- The matching loops of the continuous and the batch-auction market: their implementation is not part of this model.
- Rounding of `double` and overflow of `int`, including the product of a size and 100 and the absolute value of the smallest `int`: arithmetic is exact.
- Opening the position of a new symbol and reading the usable buying power are one step; so are the reading and the settling of a report.
- Fills that would take an average price over no shares at all, which needs a negative share count: the source gets no number there, and no sound account does.
- User ids, order times, symbols of order-book entries and the storage of portfolio figures.
- Bid and ask classes of the client's order book are modelled once, with a side as parameter; so are the four first-price getters of the broker.
- Time stamps in the local books: the client keeps that of the first update at a price, so agreement is stated on prices, destinations and sizes.
- An empty book is not sent to a new subscriber, and updates between its snapshot and its registration are lost (BrokerageCenter/src/OrderBook.cpp:84-88): the model sends every listing, and subscribes in one step.
- GetClosePrice: comparing iterators of two different lists is modelled as unequal, and entries of negative size are excluded because no book update of a positive size makes one.
- `std::sort`, `std::stable_sort` and `std::lower_bound` are modelled by an insertion sort and a binary search with the same contract.
- CorrelationBound: the square root is not modelled; the standard deviations are parameters that square to the variances.
- Final: a message of 2^64 bits or more is outside FIPS 180-4; the model lets the length wrap as the code does. Hashing a file is feeding its bytes.
- HandlersDoNotInterfere: a handler reads its field objects in the order it filled them; the source reads the destination before the date and the time.
- Getters, factories, parameter holders, GUIDs, clocks and the remaining utilities.
