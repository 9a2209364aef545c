/**
 What one order or one report means for the user, said without the closed forms of
 module Ledger: what a quote decides, which shares a sale or a cancellation takes
 first, what the user is told, and what a position costs.
 */
module LedgerOutcomes {
  import opened Money
  import opened Ledger
  import opened LedgerInvariant
  import opened LedgerSteps

  // ----- orders ------------------------------------------------------------

  /** A purchase is accepted if it has a price and costs less than the usable buying
      power; the cost is then held.  A market order has the price quoted for it. */
  lemma PurchaseDecision(a: Account, o: Order, usable: real, quote: real)
    requires o.kind.IsBuy()
    ensures var price := if o.kind.MarketBuy? then quote else o.price;
            var cost := price * (o.size * 100) as real;
            && (Accepted(a, o, usable, quote) <==> price != 0.0 && cost < usable)
            && CommitOrder(a, o, usable, quote) ==
                 if price == 0.0 || cost >= usable then a
                 else a.(summary := a.summary.(buyingPower := a.summary.buyingPower - cost,
                                               holding := a.summary.holding + cost),
                         bids := a.bids[o.id := o.(price := price)])
  {
  }

  /** A sale is accepted if it has a price and the free long shares suffice, or what is
      owed and the cost of the missing shares are both less than the usable buying power.
      As many free shares as it needs are promised to it, and the cost of the rest. */
  lemma SaleDecision(a: Account, o: Order, usable: real, quote: real)
    requires o.kind.IsSell()
    ensures var price := if o.kind.MarketSell? then quote else o.price;
            var n, promised := o.size * 100, Units(a.shortUnits, o.symbol);
            var free := Long(a.positions, o.symbol) - promised;
            var taken := if n <= free then n else free;
            var cost := price * (n - taken) as real;
            var accepted := price != 0.0 && (n <= free || (a.summary.borrowed < usable && cost < usable));
            && (Accepted(a, o, usable, quote) <==> accepted)
            && CommitOrder(a, o, usable, quote) ==
                 if !accepted then a
                 else a.(asks := a.asks[o.id := PendingAsk(o.(price := price), taken)],
                         shortCash := a.shortCash + cost,
                         shortUnits := a.shortUnits[o.symbol := promised + taken])
  {
    hide Units, Long;
  }

  // ----- reports -----------------------------------------------------------

  /** A filled purchase tells the user what is left of the order, and whether all of it
      is filled; nothing else of the report changes. */
  lemma PurchaseReport(a: Account, r: Report)
    requires Processable(a, r) && r.status.Filled? && r.kind.IsBuy()
    ensures var bids := Settle(a, r).bids;
            Outgoing(a, r) == r.(currentSize := BidOf(bids, r.orderID).size,
                                 status := if r.orderID in bids then PartiallyFilled else Filled)
  {
    hide BuyBookable, BuySummary, BuyPosition;
  }

  lemma SaleReport(a: Account, r: Report)
    requires Processable(a, r) && r.status.Filled? && r.kind.IsSell()
    ensures var asks := Settle(a, r).asks;
            Outgoing(a, r) == r.(currentSize := AskOf(asks, r.orderID).order.size,
                                 status := if r.orderID in asks then PartiallyFilled else Filled)
  {
    hide SellBookable, SellSummary, SellPosition, Units, Sold;
  }

  /** Whatever is not a confirmation leaves a position to show; a confirmation leaves
      everything as it is. */
  lemma ReportLeavesPosition(a: Account, r: Report)
    requires Processable(a, r)
    ensures if r.status == New || r.status == PendingCancel then Settle(a, r) == a && Outgoing(a, r) == r
            else r.symbol in Settle(a, r).positions
  {
    hide BuyBookable, BuySummary, BuyPosition, SellBookable, SellSummary, SellPosition, Units, Sold;
  }

  /** A sale takes the shares reserved for it first: only when they are used up does it
      add to the short side. */
  lemma SaleTakesReservedFirst(a: Account, base: real, r: Report)
    requires Sound(a, base) && FillsAsk(a, r) && SellBookable(a, r)
    ensures var b, id, s := FillSell(a, r), r.orderID, r.symbol;
            var n, reserved := r.executedSize * 100, a.asks[r.orderID].reserved;
            var fromReserve := if n < reserved then n else reserved;
            && s in b.positions
            && b.positions[s].longShares == a.positions[s].longShares - fromReserve
            && b.positions[s].shortShares == a.positions[s].shortShares + (n - fromReserve)
            && Units(b.shortUnits, s) == Units(a.shortUnits, s) - fromReserve
            && b.shortCash == a.shortCash - a.asks[id].order.price * (n - fromReserve) as real
            && (id in b.asks <==> r.executedSize < a.asks[id].order.size)
            && (id in b.asks ==> b.asks[id].reserved == reserved - fromReserve)
  {
    assert AskOk(r.orderID, a.asks[r.orderID]);
    hide Sound;
    SalePosition(a, r);
    SaleReservation(a, r);
    hide FillSell, SellBookable;
  }

  lemma SalePosition(a: Account, r: Report)
    requires FillsAsk(a, r) && SellBookable(a, r) && a.asks[r.orderID].reserved >= 0
    ensures var b, s := FillSell(a, r), r.symbol;
            var n, reserved := r.executedSize * 100, a.asks[r.orderID].reserved;
            var fromReserve := if n < reserved then n else reserved;
            && s in b.positions
            && b.positions[s].longShares == a.positions[s].longShares - fromReserve
            && b.positions[s].shortShares == a.positions[s].shortShares + (n - fromReserve)
  {
    hide SellSummary, SellAverages, Average, SellGain, ShrinkAsk, Cost, Units;
  }

  lemma SaleReservation(a: Account, r: Report)
    requires FillsAsk(a, r) && SellBookable(a, r) && a.asks[r.orderID].reserved >= 0
    ensures var b, id, s := FillSell(a, r), r.orderID, r.symbol;
            var n, reserved := r.executedSize * 100, a.asks[r.orderID].reserved;
            var fromReserve := if n < reserved then n else reserved;
            && Units(b.shortUnits, s) == Units(a.shortUnits, s) - fromReserve
            && b.shortCash == a.shortCash - a.asks[id].order.price * (n - fromReserve) as real
            && (id in b.asks <==> r.executedSize < a.asks[id].order.size)
            && (id in b.asks ==> b.asks[id].reserved == reserved - fromReserve)
  {
    hide SellSummary, SellAverages, SellPosition;
  }

  /** A cancelled part gives up short shares first: the order keeps its reserved shares
      as long as they fit into what is left of it. */
  lemma CancelGivesUpShortFirst(a: Account, base: real, r: Report)
    requires Sound(a, base) && FillsAsk(a, r)
    ensures var b, id, s := CancelSell(a, r), r.orderID, r.symbol;
            var left, reserved := (a.asks[id].order.size - r.executedSize) * 100, a.asks[id].reserved;
            var kept := if reserved <= left then reserved else left;
            && (id in b.asks <==> left > 0)
            && (id in b.asks ==> b.asks[id].reserved == kept)
            && Units(b.shortUnits, s) == Units(a.shortUnits, s) - (reserved - kept)
            && b.shortCash == a.shortCash - a.asks[id].order.price * (r.executedSize * 100 - (reserved - kept)) as real
            && b.positions == a.positions
  {
    assert AskOk(r.orderID, a.asks[r.orderID]);
    hide Sound;
    CancelledOrder(a, r);
    CancelledPromises(a, r);
    hide CancelSell;
  }

  lemma CancelledOrder(a: Account, r: Report)
    requires FillsAsk(a, r) && 0 <= a.asks[r.orderID].reserved <= a.asks[r.orderID].order.size * 100
    ensures var b, id := CancelSell(a, r), r.orderID;
            var left, reserved := (a.asks[id].order.size - r.executedSize) * 100, a.asks[id].reserved;
            && (id in b.asks <==> left > 0)
            && (id in b.asks ==> b.asks[id].reserved == if reserved <= left then reserved else left)
            && b.positions == a.positions
  {
    hide Cost, Units;
  }

  lemma CancelledPromises(a: Account, r: Report)
    requires FillsAsk(a, r) && 0 <= a.asks[r.orderID].reserved <= a.asks[r.orderID].order.size * 100
    ensures var b, id, s := CancelSell(a, r), r.orderID, r.symbol;
            var left, reserved := (a.asks[id].order.size - r.executedSize) * 100, a.asks[id].reserved;
            var kept := if reserved <= left then reserved else left;
            && Units(b.shortUnits, s) == Units(a.shortUnits, s) - (reserved - kept)
            && b.shortCash == a.shortCash - a.asks[id].order.price * (r.executedSize * 100 - (reserved - kept)) as real
  {
    hide ShrinkAsk;
  }

  // ----- what the shares cost ----------------------------------------------

  /** A side has a price exactly when it has shares. */
  predicate Priced(p: Position) {
    && p.longPrice >= 0.0 && (p.longPrice == 0.0 <==> p.longShares == 0)
    && p.shortPrice >= 0.0 && (p.shortPrice == 0.0 <==> p.shortShares == 0)
  }

  predicate AllPriced(positions: map<string, Position>) {
    forall s :: s in positions ==> Priced(positions[s])
  }

  lemma AverageIsPositive(price: real, shares: int, value: real, quantity: int)
    requires price >= 0.0 && shares >= 0 && value > 0.0 && quantity > 0
    ensures Average(price, shares, value, quantity) > 0.0
  {
    CostNonNegative(price, shares);
    CostNonNegative(value, quantity);
    QuotientIsPositive(Cost(price, shares) + Cost(value, quantity), (shares + quantity) as real);
  }

  lemma QuotientIsPositive(x: real, y: real)
    requires x > 0.0 && y > 0.0
    ensures x / y > 0.0
  {
  }

  lemma BuyKeepsPriced(p: Position, price: real, shares: int)
    requires PositionOk(p) && Priced(p) && price > 0.0 && shares > 0
    ensures Priced(BuyPosition(p, price, shares))
  {
    var bought := shares - Covered(p, shares);
    if bought > 0 { AverageIsPositive(p.longPrice, p.longShares, price, bought); }
    hide Average, Returned, BuyGain;
  }

  lemma SellKeepsPriced(p: Position, price: real, shares: int, reserved: int)
    requires PositionOk(p) && Priced(p) && price > 0.0 && shares > 0 && 0 <= reserved <= p.longShares
    ensures Priced(SellPosition(p, price, shares, reserved))
  {
    var shorted := shares - Sold(shares, reserved);
    if shorted > 0 { AverageIsPositive(p.shortPrice, p.shortShares, price, shorted); }
    hide Average, SellGain, Cost;
  }

  lemma SettleKeepsPriced(a: Account, base: real, r: Report)
    requires Sound(a, base) && AllPriced(a.positions) && Reportable(a, r) && Processable(a, r)
    ensures AllPriced(Settle(a, r).positions)
  {
    LivePosition(a, base, r);
    if r.status.Filled? {
      var p, n := a.positions[r.symbol], r.executedSize * 100;
      assert PositionOk(p) && Priced(p);
      if r.kind.IsBuy() {
        BuyKeepsPriced(p, r.price, n);
      } else {
        ReservedIsOwned(a, base, r.orderID);
        SellKeepsPriced(p, r.price, n, a.asks[r.orderID].reserved);
      }
    }
    hide Sound, Priced, BuyPosition, SellPosition, BuySummary, SellSummary, Shrink, ShrinkAsk, Units, Sold, Min, Cost;
    assert Priced(EMPTY_POSITION) by { EmptyIsPriced(); }
  }

  lemma EmptyIsPriced()
    ensures Priced(EMPTY_POSITION)
  {
  }
}
