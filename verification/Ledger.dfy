/**
 The brokerage account of one user as a value: cash summary, positions, the
 orders that still hold a reservation, and the waiting list.  The functions
 below say in closed form what one order or one report does to the account.
 Money is exact (`real`); a lot is 100 shares.
 */
module Ledger {
  import opened Money

  /** `Unset` is the kind of an order that was never filled in. */
  datatype OrderKind =
    | LimitBuy | LimitSell | MarketBuy | MarketSell | CancelBid | CancelAsk
    | TrthTrade | TrthBid | TrthAsk | Unset
  {
    predicate IsBuy() { LimitBuy? || MarketBuy? }
    predicate IsSell() { LimitSell? || MarketSell? }
    predicate IsCancel() { CancelBid? || CancelAsk? }
  }

  datatype OrderStatus = PendingNew | New | PartiallyFilled | Filled | Canceled | PendingCancel | Rejected | NoStatus

  datatype Order = Order(
    kind: OrderKind,
    symbol: string,
    size: int,
    executedSize: int,
    price: real,
    id: string,
    status: OrderStatus)

  datatype Report = Report(
    orderID: string,
    kind: OrderKind,
    symbol: string,
    currentSize: int,
    executedSize: int,
    price: real,
    status: OrderStatus)

  datatype Position = Position(
    borrowed: real,
    pl: real,
    longPrice: real,
    shortPrice: real,
    longShares: int,
    shortShares: int)

  datatype Summary = Summary(buyingPower: real, holding: real, borrowed: real, totalPL: real, totalShares: int)

  /** A sell order that is still live, with the long shares promised to it. */
  datatype PendingAsk = PendingAsk(order: Order, reserved: int)

  datatype Account = Account(
    summary: Summary,
    positions: map<string, Position>,
    bids: map<string, Order>,
    asks: map<string, PendingAsk>,
    shortCash: real,
    shortUnits: map<string, int>,
    waiting: map<string, Order>)

  const EMPTY_POSITION := Position(0.0, 0.0, 0.0, 0.0, 0, 0)

  /** The placeholder that keeps the waiting list sent to clients non-empty. */
  const PLACEHOLDER := Order(LimitBuy, "0", 0, 0, 0.0, "0", PendingNew)

  /** What looking up an order that is not there makes: an order without contents. */
  const NO_ORDER := Order(Unset, "", 0, 0, 0.0, "", NoStatus)

  function BidOf(bids: map<string, Order>, id: string): Order {
    if id in bids then bids[id] else NO_ORDER
  }

  function AskOf(asks: map<string, PendingAsk>, id: string): PendingAsk {
    if id in asks then asks[id] else PendingAsk(NO_ORDER, 0)
  }

  function Units(units: map<string, int>, symbol: string): int {
    if symbol in units then units[symbol] else 0
  }

  function Long(positions: map<string, Position>, symbol: string): int {
    if symbol in positions then positions[symbol].longShares else 0
  }

  /** Buying power that is not promised to sell orders that may go short. */
  function Usable(a: Account): real {
    a.summary.buyingPower - a.shortCash
  }

  function Min(x: int, y: int): int { if x < y then x else y }

  function Average(price: real, shares: int, value: real, quantity: int): real
    requires shares + quantity != 0
  {
    (Cost(price, shares) + Cost(value, quantity)) / (shares + quantity) as real
  }

  /** Truncates an amount of money to whole cents, toward minus infinity. */
  function FloorCents(x: real): real {
    (x * 100.0).Floor as real / 100.0
  }

  predicate WholeCents(x: real) {
    FloorCents(x) == x
  }

  // ----- fills -------------------------------------------------------------

  /** The part of an amount that falls to `part` out of `whole` shares. */
  function Proportion(amount: real, part: int, whole: int): real
    requires whole != 0
  {
    amount * (part as real / whole as real)
  }

  /** Borrowed cash handed back when `shares` are bought against a position. */
  function Returned(p: Position, shares: int): real
  {
    if p.shortShares == 0 then 0.0
    else if shares > p.shortShares then p.borrowed
    else FloorCents(Proportion(p.borrowed, shares, p.shortShares))
  }

  /** Short shares that a purchase buys back. */
  function Covered(p: Position, shares: int): int {
    if p.shortShares == 0 then 0 else Min(shares, p.shortShares)
  }

  /** Long shares that a sale takes out of those reserved for it. */
  function Sold(shares: int, reserved: int): int {
    if reserved == 0 then 0 else Min(shares, reserved)
  }

  /** No average price is taken over no shares at all. */
  predicate BuyAverages(p: Position, shares: int) {
    shares - Covered(p, shares) > 0 ==> p.longShares + shares - Covered(p, shares) != 0
  }

  predicate SellAverages(p: Position, shares: int, reserved: int) {
    shares - Sold(shares, reserved) > 0 ==> p.shortShares + shares - Sold(shares, reserved) != 0
  }

  function BuySummary(s: Summary, p: Position, price: real, shares: int, reservedPrice: real): Summary {
    var held := Cost(reservedPrice, shares);
    var ret := Returned(p, shares);
    Summary(
      s.buyingPower + held - Cost(price, shares) + 2.0 * ret,
      s.holding - held,
      s.borrowed - ret,
      s.totalPL + BuyGain(p, price, shares),
      s.totalShares + shares)
  }

  function BuyGain(p: Position, price: real, shares: int): real {
    Cost(p.shortPrice - price, Covered(p, shares))
  }

  /** Short shares are bought back first; only the rest is added to the long side. */
  function BuyPosition(p: Position, price: real, shares: int): Position
    requires BuyAverages(p, shares)
  {
    var covered := Covered(p, shares);
    var bought := shares - covered;
    Position(
      p.borrowed - Returned(p, shares),
      p.pl + BuyGain(p, price, shares),
      if bought > 0 then Average(p.longPrice, p.longShares, price, bought) else p.longPrice,
      if p.shortShares != 0 && covered == p.shortShares then 0.0 else p.shortPrice,
      p.longShares + bought,
      p.shortShares - covered)
  }

  function SellGain(p: Position, price: real, shares: int, reserved: int): real {
    Cost(price - p.longPrice, Sold(shares, reserved))
  }

  function SellSummary(s: Summary, p: Position, price: real, shares: int, reserved: int): Summary {
    var sold := Sold(shares, reserved);
    Summary(
      s.buyingPower + Cost(price, sold) - Cost(price, shares - sold),
      s.holding,
      s.borrowed + Cost(price, shares - sold),
      s.totalPL + SellGain(p, price, shares, reserved),
      s.totalShares + shares)
  }

  /** Reserved long shares are sold first; only the rest is borrowed and sold short. */
  function SellPosition(p: Position, price: real, shares: int, reserved: int): Position
    requires SellAverages(p, shares, reserved)
  {
    var sold := Sold(shares, reserved);
    var shorted := shares - sold;
    Position(
      p.borrowed + Cost(price, shorted),
      p.pl + SellGain(p, price, shares, reserved),
      if reserved != 0 && p.longShares == sold then 0.0 else p.longPrice,
      if shorted > 0 then Average(p.shortPrice, p.shortShares, price, shorted) else p.shortPrice,
      p.longShares - sold,
      p.shortShares + shorted)
  }

  function Shrink(bids: map<string, Order>, id: string, size: int): map<string, Order> {
    var left := BidOf(bids, id).size - size;
    if left == 0 then bids - {id} else bids[id := BidOf(bids, id).(size := left)]
  }

  function ShrinkAsk(asks: map<string, PendingAsk>, id: string, size: int, used: int): map<string, PendingAsk> {
    var ask := AskOf(asks, id);
    var left := ask.order.size - size;
    if left == 0 then asks - {id}
    else asks[id := PendingAsk(ask.order.(size := left), ask.reserved - used)]
  }

  /** What the arithmetic of a fill needs; the order need not be known. */
  predicate BuyBookable(a: Account, r: Report) {
    r.symbol in a.positions && BuyAverages(a.positions[r.symbol], r.executedSize * 100)
  }

  predicate SellBookable(a: Account, r: Report) {
    r.symbol in a.positions
    && SellAverages(a.positions[r.symbol], r.executedSize * 100, AskOf(a.asks, r.orderID).reserved)
  }

  function FillBuy(a: Account, r: Report): Account
    requires BuyBookable(a, r)
  {
    var n := r.executedSize * 100;
    var p := a.positions[r.symbol];
    a.(summary := BuySummary(a.summary, p, r.price, n, BidOf(a.bids, r.orderID).price),
      positions := a.positions[r.symbol := BuyPosition(p, r.price, n)],
      bids := Shrink(a.bids, r.orderID, r.executedSize))
  }

  function FillSell(a: Account, r: Report): Account
    requires SellBookable(a, r)
  {
    var n := r.executedSize * 100;
    var p := a.positions[r.symbol];
    var ask := AskOf(a.asks, r.orderID);
    var sold := Sold(n, ask.reserved);
    var shorted := n - sold;
    a.(summary := SellSummary(a.summary, p, r.price, n, ask.reserved),
      positions := a.positions[r.symbol := SellPosition(p, r.price, n, ask.reserved)],
      asks := ShrinkAsk(a.asks, r.orderID, r.executedSize, sold),
      shortCash := a.shortCash - Cost(ask.order.price, shorted),
      shortUnits := if ask.reserved == 0 then a.shortUnits
                    else a.shortUnits[r.symbol := Units(a.shortUnits, r.symbol) - sold])
  }

  // ----- cancellations -----------------------------------------------------

  function CancelBuy(a: Account, r: Report): Account {
    var held := Cost(BidOf(a.bids, r.orderID).price, r.executedSize * 100);
    a.(summary := a.summary.(buyingPower := a.summary.buyingPower + held, holding := a.summary.holding - held),
       bids := Shrink(a.bids, r.orderID, r.executedSize))
  }

  /** The part that would have gone short is given up first, reserved shares last. */
  function CancelSell(a: Account, r: Report): Account {
    var n := r.executedSize * 100;
    var ask := AskOf(a.asks, r.orderID);
    var short := ask.order.size * 100 - ask.reserved;
    var dropped := Min(n, short);
    var freed := n - dropped;
    a.(asks := ShrinkAsk(a.asks, r.orderID, r.executedSize, freed),
       shortCash := a.shortCash - Cost(ask.order.price, dropped),
       shortUnits := if n < short then a.shortUnits
                     else a.shortUnits[r.symbol := Units(a.shortUnits, r.symbol) - freed])
  }

  // ----- the waiting list --------------------------------------------------

  function UpdateWaiting(waiting: map<string, Order>, r: Report): map<string, Order> {
    if r.orderID !in waiting then waiting
    else
      var o := waiting[r.orderID];
      var done := o.executedSize + r.executedSize;
      if done == o.size then waiting - {r.orderID}
      else
        var status := if r.status.Canceled? then PartiallyFilled else r.status;
        waiting[r.orderID := o.(executedSize := done, status := status)]
  }

  // ----- one report --------------------------------------------------------

  /** A confirmation is passed on without touching the account. */
  predicate IsConfirmation(r: Report) { r.status.New? || r.status.PendingCancel? }

  /** A fill of a known kind can be booked; nothing else needs anything. */
  predicate Processable(a: Account, r: Report) {
    r.status.Filled? ==>
      var b := OpenPosition(a, r.symbol);
      (r.kind.IsBuy() ==> BuyBookable(b, r)) && (r.kind.IsSell() ==> SellBookable(b, r))
  }

  /** Settlement by status and kind; every report but a confirmation makes sure that
      the user has a position in its symbol. */
  function Settle(a: Account, r: Report): Account
    requires Processable(a, r)
  {
    if IsConfirmation(r) then a
    else
      var b := OpenPosition(a, r.symbol);
      match r.status
      case Filled => if r.kind.IsBuy() then FillBuy(b, r) else if r.kind.IsSell() then FillSell(b, r) else b
      case Canceled => if r.kind.CancelBid? then CancelBuy(b, r) else if r.kind.CancelAsk? then CancelSell(b, r) else b
      case _ => b
  }

  /** The report that goes on to the user: a fill carries the size that is left. */
  function Outgoing(a: Account, r: Report): Report {
    if !r.status.Filled? || !(r.kind.IsBuy() || r.kind.IsSell()) then r
    else
      var size := if r.kind.IsBuy() then BidOf(a.bids, r.orderID).size else AskOf(a.asks, r.orderID).order.size;
      var left := size - r.executedSize;
      r.(currentSize := left, status := if left == 0 then r.status else PartiallyFilled)
  }

  /** A report as it is processed in one go: settled, then noted in the waiting list. */
  function ProcessReport(a: Account, r: Report): Account
    requires Processable(a, r)
  {
    var settled := Settle(a, r);
    settled.(waiting := UpdateWaiting(settled.waiting, Outgoing(a, r)))
  }

  // ----- one order ---------------------------------------------------------

  /** First section: make sure the user has a position in the symbol. */
  function OpenPosition(a: Account, symbol: string): Account {
    if symbol in a.positions then a else a.(positions := a.positions[symbol := EMPTY_POSITION])
  }

  predicate CancelAccepted(waiting: map<string, Order>, o: Order) {
    && o.id in waiting
    && waiting[o.id].price == o.price
    && if o.kind.CancelBid? then waiting[o.id].kind.IsBuy() else waiting[o.id].kind.IsSell()
  }

  function ReservePrice(o: Order, marketPrice: real): real {
    if o.kind.MarketBuy? || o.kind.MarketSell? then marketPrice else o.price
  }

  predicate Accepted(a: Account, o: Order, usable: real, marketPrice: real) {
    var price := ReservePrice(o, marketPrice);
    var short := o.size * 100 - (Long(a.positions, o.symbol) - Units(a.shortUnits, o.symbol));
    if o.kind.IsBuy() then price != 0.0 && Cost(price, o.size * 100) < usable
    else if o.kind.IsSell() then
      price != 0.0 && (short <= 0 || (a.summary.borrowed < usable && Cost(price, short) < usable))
    else if o.kind.IsCancel() then CancelAccepted(a.waiting, o)
    else false
  }

  /** Reserves what an accepted order may need, at the price it was checked at. */
  function Reserve(a: Account, o: Order, price: real): Account {
    var n := o.size * 100;
    if o.kind.IsBuy() then
      var cost := Cost(price, n);
      a.(summary := a.summary.(buyingPower := a.summary.buyingPower - cost, holding := a.summary.holding + cost),
         bids := a.bids[o.id := o.(price := price)])
    else if o.kind.IsSell() then
      var taken := Min(n, Long(a.positions, o.symbol) - Units(a.shortUnits, o.symbol));
      a.(asks := a.asks[o.id := PendingAsk(o.(price := price), taken)],
         shortCash := a.shortCash + Cost(price, n - taken),
         shortUnits := a.shortUnits[o.symbol := Units(a.shortUnits, o.symbol) + taken])
    else a
  }

  /** Second section: decide with the buying power read in the first section. */
  function CommitOrder(a: Account, o: Order, usable: real, marketPrice: real): Account {
    if Accepted(a, o, usable, marketPrice) then Reserve(a, o, ReservePrice(o, marketPrice)) else a
  }

  /** Third section: an accepted order goes on the waiting list. */
  function Enlist(a: Account, o: Order): Account {
    a.(waiting := a.waiting[o.id := o])
  }

  // ----- what the environment is assumed to do -----------------------------

  predicate FillsBid(a: Account, r: Report) {
    && r.orderID in a.bids && a.bids[r.orderID].symbol == r.symbol
    && 1 <= r.executedSize <= a.bids[r.orderID].size
  }

  predicate FillsAsk(a: Account, r: Report) {
    && r.orderID in a.asks && a.asks[r.orderID].order.symbol == r.symbol
    && 1 <= r.executedSize <= a.asks[r.orderID].order.size
  }

  /** What the matching engine reports: it names a live order of the right side and
      symbol, does not execute or cancel more than is left of it, and executes at a
      positive price. */
  predicate Reportable(a: Account, r: Report) {
    match r.status
    case Filled =>
      r.price > 0.0 && if r.kind.IsBuy() then FillsBid(a, r) else r.kind.IsSell() && FillsAsk(a, r)
    case Canceled =>
      if r.kind.CancelBid? then FillsBid(a, r) else r.kind.CancelAsk? && FillsAsk(a, r)
    case _ => r.executedSize == 0
  }
}
