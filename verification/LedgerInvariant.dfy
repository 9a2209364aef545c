/**
 The account invariant and the cost-basis identity, step by step: what every
 accepted order, fill, cancellation and confirmation keeps.
 */
module LedgerInvariant {
  import opened MapSums
  import opened Reals
  import opened Money
  import opened Ledger

  // ----- measures that are summed ------------------------------------------

  function BidCost(o: Order): real { Cost(o.price, o.size * 100) }

  function AskShortCash(a: PendingAsk): real {
    Cost(a.order.price, a.order.size * 100 - a.reserved)
  }

  function ReservedIn(symbol: string): PendingAsk -> real {
    (a: PendingAsk) => if a.order.symbol == symbol then a.reserved as real else 0.0
  }

  function Borrowed(p: Position): real { p.borrowed }

  /** Money put into the long side less money received for the short side. */
  function CostBasis(p: Position): real {
    Cost(p.longPrice, p.longShares) - Cost(p.shortPrice, p.shortShares)
  }

  /** The quantity that no order, fill or cancellation may change. */
  ghost function Equity(a: Account): real {
    a.summary.buyingPower + a.summary.holding + 2.0 * a.summary.borrowed - a.summary.totalPL
    + Sum(a.positions, CostBasis)
  }

  // ----- the invariant -----------------------------------------------------

  predicate PositionOk(p: Position) {
    p.longShares >= 0 && p.shortShares >= 0 && p.borrowed >= 0.0
  }

  predicate BidOk(id: string, o: Order) {
    id != PLACEHOLDER.id && o.kind.IsBuy() && o.size >= 1 && o.price > 0.0
  }

  predicate AskOk(id: string, a: PendingAsk) {
    id != PLACEHOLDER.id && a.order.kind.IsSell() && a.order.size >= 1 && a.order.price > 0.0
        && 0 <= a.reserved <= a.order.size * 100
  }

  predicate PositionsOk(positions: map<string, Position>) {
    forall s :: s in positions ==> PositionOk(positions[s])
  }

  predicate BidsOk(bids: map<string, Order>, positions: map<string, Position>) {
    forall id :: id in bids ==> BidOk(id, bids[id]) && bids[id].symbol in positions
  }

  predicate AsksOk(asks: map<string, PendingAsk>, positions: map<string, Position>) {
    forall id :: id in asks ==> AskOk(id, asks[id]) && asks[id].order.symbol in positions
  }

  /** `base` is the holding balance the account was opened with. */
  ghost predicate HoldingAgrees(holding: real, base: real, bids: map<string, Order>) {
    holding == base + Sum(bids, BidCost)
  }

  ghost predicate ShortCashAgrees(shortCash: real, asks: map<string, PendingAsk>) {
    shortCash == Sum(asks, AskShortCash)
  }

  ghost predicate UnitsAgree(units: map<string, int>, asks: map<string, PendingAsk>) {
    forall s :: Units(units, s) as real == Sum(asks, ReservedIn(s))
  }

  /** No long share is promised to two orders. */
  ghost predicate NotOverpromised(units: map<string, int>, positions: map<string, Position>) {
    forall s :: 0 <= Units(units, s) <= Long(positions, s)
  }

  ghost predicate BorrowedAgrees(borrowed: real, positions: map<string, Position>) {
    borrowed == Sum(positions, Borrowed)
  }

  /** Positions, reservations and promises agree. */
  ghost predicate Sound(a: Account, base: real) {
    && PositionsOk(a.positions) && BidsOk(a.bids, a.positions) && AsksOk(a.asks, a.positions)
    && HoldingAgrees(a.summary.holding, base, a.bids)
    && ShortCashAgrees(a.shortCash, a.asks)
    && UnitsAgree(a.shortUnits, a.asks)
    && NotOverpromised(a.shortUnits, a.positions)
    && BorrowedAgrees(a.summary.borrowed, a.positions)
  }

  // ----- arithmetic --------------------------------------------------------

  lemma AverageTimesShares(price: real, shares: int, value: real, quantity: int)
    requires shares + quantity != 0
    ensures Cost(Average(price, shares, value, quantity), shares + quantity)
        == Cost(price, shares) + Cost(value, quantity)
  {
    DivTimes(Cost(price, shares) + Cost(value, quantity), (shares + quantity) as real);
  }

  lemma FloorCentsBounds(x: real)
    ensures FloorCents(x) <= x < FloorCents(x) + 0.01
    ensures x >= 0.0 ==> FloorCents(x) >= 0.0
  {
  }

  /** What is handed back is never negative and never more than was borrowed. */
  lemma ReturnedBounds(p: Position, shares: int)
    requires PositionOk(p) && shares > 0
    ensures 0.0 <= Returned(p, shares) <= p.borrowed
  {
    if 0 < shares <= p.shortShares {
      ProportionBounds(p.borrowed, shares, p.shortShares);
      FloorCentsBounds(Proportion(p.borrowed, shares, p.shortShares));
      hide FloorCents, Proportion;
    }
  }

  lemma ProportionBounds(amount: real, part: int, whole: int)
    requires amount >= 0.0 && 0 < part <= whole
    ensures 0.0 <= Proportion(amount, part, whole) <= amount
    ensures part == whole ==> Proportion(amount, part, whole) == amount
    ensures part < whole && amount > 0.0 ==> Proportion(amount, part, whole) < amount
    ensures Proportion(amount, part, whole) * whole as real == amount * part as real
  {
    var x := part as real / whole as real;
    DivBounds(part as real, whole as real);
    DivTimes(part as real, whole as real);
    MulNonNegative(amount, x);
    MulMonotone(x, 1.0, amount);
    if part < whole && amount > 0.0 { MulStrictlyMonotone(x, 1.0, amount); }
    MulAssociates(amount, x, whole as real);
  }

  lemma MulAssociates(x: real, y: real, z: real)
    ensures x * y * z == x * (y * z)
  {
  }

  /** Buying moves the cost basis by the cash spent plus the gain realised. */
  lemma BuyCostBasis(p: Position, price: real, shares: int)
    requires PositionOk(p) && shares > 0
    ensures CostBasis(BuyPosition(p, price, shares)) == CostBasis(p) + Cost(price, shares) + BuyGain(p, price, shares)
  {
    var covered := Covered(p, shares);
    var bought := shares - covered;
    if bought > 0 {
      AverageTimesShares(p.longPrice, p.longShares, price, bought);
    }
    CostAdds(price, covered, bought);
    CostAdds(p.shortPrice, p.shortShares - covered, covered);
    CostOfDifference(p.shortPrice, price, covered);
    NoShares(price);
    NoShares(p.shortPrice);
    NoShares(0.0);
    hide Cost, Average, Returned;
  }

  lemma SellCostBasis(p: Position, price: real, shares: int, reserved: int)
    requires PositionOk(p) && shares > 0 && 0 <= reserved <= p.longShares && price > 0.0
    ensures CostBasis(SellPosition(p, price, shares, reserved))
        == CostBasis(p) - Cost(price, shares) + SellGain(p, price, shares, reserved)
  {
    var sold := Sold(shares, reserved);
    var shorted := shares - sold;
    if shorted > 0 {
      AverageTimesShares(p.shortPrice, p.shortShares, price, shorted);
    }
    CostAdds(price, sold, shorted);
    CostAdds(p.longPrice, p.longShares - sold, sold);
    CostOfDifference(price, p.longPrice, sold);
    NoShares(price);
    NoShares(p.longPrice);
    NoShares(0.0);
    hide Cost, Average;
  }

  lemma BuyPositionOk(p: Position, price: real, shares: int)
    requires PositionOk(p) && shares > 0
    ensures var q := BuyPosition(p, price, shares); PositionOk(q) && q.longShares >= p.longShares
  {
    ReturnedBounds(p, shares);
    hide Cost, Average, BuyGain, Returned;
  }

  lemma SellPositionOk(p: Position, price: real, shares: int, reserved: int)
    requires PositionOk(p) && shares > 0 && 0 <= reserved <= p.longShares && price > 0.0
    ensures PositionOk(SellPosition(p, price, shares, reserved))
  {
    CostNonNegative(price, shares - Sold(shares, reserved));
    hide Cost, Average, SellGain;
  }
}
