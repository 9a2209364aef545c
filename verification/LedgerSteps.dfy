/**
 Every order and every report keeps the account invariant and the cost-basis
 identity.
 */
module LedgerSteps {
  import opened MapSums
  import opened Money
  import opened Ledger
  import opened LedgerInvariant

  // ----- a pending buy order gets smaller ----------------------------------

  lemma ShrinkBids(bids: map<string, Order>, id: string, size: int, positions: map<string, Position>)
    requires BidsOk(bids, positions) && id in bids && 1 <= size <= bids[id].size
    ensures BidsOk(Shrink(bids, id, size), positions)
  {
  }

  lemma ShrinkHolding(bids: map<string, Order>, id: string, size: int, holding: real, base: real)
    requires HoldingAgrees(holding, base, bids) && id in bids
    ensures HoldingAgrees(holding - Cost(bids[id].price, size * 100), base, Shrink(bids, id, size))
  {
    hide Sum, Cost;
    var o := bids[id];
    if o.size == size {
      SumWithout(bids, BidCost, id);
    } else {
      SumUpdate(bids, BidCost, id, o.(size := o.size - size));
      CostAdds(o.price, (o.size - size) * 100, size * 100);
    }
  }

  // ----- a pending sell order gets smaller ---------------------------------

  /** `used` of the reserved shares go with `size` lots of the order. */
  predicate Shrinkable(asks: map<string, PendingAsk>, id: string, size: int, used: int) {
    && id in asks && 1 <= size <= asks[id].order.size
    && 0 <= used <= asks[id].reserved
    && asks[id].reserved - used <= (asks[id].order.size - size) * 100
  }

  lemma ShrinkAsks(asks: map<string, PendingAsk>, id: string, size: int, used: int, positions: map<string, Position>)
    requires AsksOk(asks, positions) && Shrinkable(asks, id, size, used)
    ensures AsksOk(ShrinkAsk(asks, id, size, used), positions)
  {
  }

  lemma ShrinkShortCash(asks: map<string, PendingAsk>, id: string, size: int, used: int, shortCash: real)
    requires ShortCashAgrees(shortCash, asks) && Shrinkable(asks, id, size, used)
    ensures ShortCashAgrees(shortCash - Cost(asks[id].order.price, size * 100 - used), ShrinkAsk(asks, id, size, used))
  {
    hide Sum, Cost;
    var a := asks[id];
    if a.order.size == size {
      SumWithout(asks, AskShortCash, id);
    } else {
      SumUpdate(asks, AskShortCash, id, PendingAsk(a.order.(size := a.order.size - size), a.reserved - used));
      CostAdds(a.order.price, (a.order.size - size) * 100 - (a.reserved - used), size * 100 - used);
    }
  }

  lemma ShrinkReserved(asks: map<string, PendingAsk>, id: string, size: int, used: int, s: string)
    requires Shrinkable(asks, id, size, used)
    ensures Sum(ShrinkAsk(asks, id, size, used), ReservedIn(s))
         == Sum(asks, ReservedIn(s)) - (if asks[id].order.symbol == s then used as real else 0.0)
  {
    hide Sum, Cost;
    var a := asks[id];
    if a.order.size == size {
      SumWithout(asks, ReservedIn(s), id);
    } else {
      SumUpdate(asks, ReservedIn(s), id, PendingAsk(a.order.(size := a.order.size - size), a.reserved - used));
    }
  }

  lemma ShrinkUnits(units: map<string, int>, asks: map<string, PendingAsk>, id: string, size: int, used: int)
    requires UnitsAgree(units, asks) && Shrinkable(asks, id, size, used)
    ensures var s := asks[id].order.symbol;
            UnitsAgree(units[s := Units(units, s) - used], ShrinkAsk(asks, id, size, used))
    ensures used == 0 ==> UnitsAgree(units, ShrinkAsk(asks, id, size, used))
  {
    hide Sum, Cost, ShrinkAsk;
    var units' := units[asks[id].order.symbol := Units(units, asks[id].order.symbol) - used];
    forall s
      ensures Units(units', s) as real == Sum(ShrinkAsk(asks, id, size, used), ReservedIn(s))
      ensures used == 0 ==> Units(units, s) as real == Sum(ShrinkAsk(asks, id, size, used), ReservedIn(s))
    {
      ShrinkReserved(asks, id, size, used, s);
    }
  }

  /** The shares reserved for one order are part of what its symbol has promised. */
  lemma ReservedIsPromised(units: map<string, int>, asks: map<string, PendingAsk>, positions: map<string, Position>,
      id: string)
    requires UnitsAgree(units, asks) && AsksOk(asks, positions) && id in asks
    ensures asks[id].reserved <= Units(units, asks[id].order.symbol)
  {
    hide Sum, Cost;
    SumBoundsEach(asks, ReservedIn(asks[id].order.symbol), id);
  }

  // ----- positions ---------------------------------------------------------

  lemma PositionSums(positions: map<string, Position>, s: string, p: Position)
    requires s in positions
    ensures Sum(positions[s := p], Borrowed) == Sum(positions, Borrowed) - positions[s].borrowed + p.borrowed
    ensures Sum(positions[s := p], CostBasis) == Sum(positions, CostBasis) - CostBasis(positions[s]) + CostBasis(p)
  {
    SumUpdate(positions, Borrowed, s, p);
    SumUpdate(positions, CostBasis, s, p);
  }

  lemma PositionChange(a: Account, s: string, p: Position)
    requires s in a.positions && PositionOk(p)
    requires PositionsOk(a.positions) && BidsOk(a.bids, a.positions) && AsksOk(a.asks, a.positions)
    ensures var positions := a.positions[s := p];
            PositionsOk(positions) && BidsOk(a.bids, positions) && AsksOk(a.asks, positions)
  {
  }

  // ----- reports -----------------------------------------------------------

  /** Shares given back, or sold out of the position, leave every promise covered. */
  lemma ReleaseUnits(units: map<string, int>, positions: map<string, Position>, s: string, released: int, sold: int,
      p: Position)
    requires NotOverpromised(units, positions) && s in positions
    requires 0 <= sold <= released <= Units(units, s) && p.longShares == positions[s].longShares - sold
    ensures NotOverpromised(units[s := Units(units, s) - released], positions[s := p])
  {
    var units' := units[s := Units(units, s) - released];
    forall t ensures 0 <= Units(units', t) <= Long(positions[s := p], t) {
      assert 0 <= Units(units, t) <= Long(positions, t);
    }
  }

  /** In a sound account a fill of a live order can be booked. */
  lemma LiveIsBookable(a: Account, base: real, r: Report)
    requires Sound(a, base)
    ensures FillsBid(a, r) ==> BuyBookable(a, r)
    ensures FillsAsk(a, r) ==> SellBookable(a, r)
  {
    hide Sum, Cost, HoldingAgrees, ShortCashAgrees, UnitsAgree, NotOverpromised, BorrowedAgrees;
  }

  lemma FillBuyKeeps(a: Account, base: real, r: Report)
    requires Sound(a, base) && FillsBid(a, r) && BuyBookable(a, r)
    ensures Sound(FillBuy(a, r), base)
    ensures Equity(FillBuy(a, r)) == Equity(a)
  {
    hide Sum, Cost, Average, FloorCents, Returned, BuyGain, CostBasis, BuyPosition, Shrink, BidsOk, AsksOk;
    hide ShortCashAgrees, UnitsAgree;
    var n := r.executedSize * 100;
    var p := a.positions[r.symbol];
    var q := BuyPosition(p, r.price, n);
    var positions := a.positions[r.symbol := q];
    BuyPositionOk(p, r.price, n);
    BuyCostBasis(p, r.price, n);
    BuyBorrowed(p, r.price, n);
    PositionSums(a.positions, r.symbol, q);
    PositionChange(a, r.symbol, q);
    ShrinkBids(a.bids, r.orderID, r.executedSize, positions);
    ShrinkHolding(a.bids, r.orderID, r.executedSize, a.summary.holding, base);
    assert NotOverpromised(a.shortUnits, positions);
  }

  lemma BuyBorrowed(p: Position, price: real, shares: int)
    requires PositionOk(p) && shares > 0
    ensures BuyPosition(p, price, shares).borrowed == p.borrowed - Returned(p, shares)
  {
  }

  /** The shares reserved for a sell order are promised to it and owned. */
  lemma ReservedIsOwned(a: Account, base: real, id: string)
    requires Sound(a, base) && id in a.asks
    ensures var s := a.asks[id].order.symbol;
            s in a.positions && 0 <= a.asks[id].reserved <= Units(a.shortUnits, s) <= a.positions[s].longShares
  {
    ReservedIsPromised(a.shortUnits, a.asks, a.positions, id);
    hide Sum, Cost, UnitsAgree;
    var s := a.asks[id].order.symbol;
    assert 0 <= Units(a.shortUnits, s) <= Long(a.positions, s);
  }

  lemma FillSellParts(a: Account, r: Report)
    requires FillsAsk(a, r) && SellBookable(a, r)
    ensures var n := r.executedSize * 100;
            var ask := a.asks[r.orderID];
            var sold := Sold(n, ask.reserved);
            var b := FillSell(a, r);
            && b.positions == a.positions[r.symbol := SellPosition(a.positions[r.symbol], r.price, n, ask.reserved)]
            && b.asks == ShrinkAsk(a.asks, r.orderID, r.executedSize, sold)
            && b.shortCash == a.shortCash - Cost(ask.order.price, n - sold)
            && ((sold == 0 && b.shortUnits == a.shortUnits)
                || b.shortUnits == a.shortUnits[r.symbol := Units(a.shortUnits, r.symbol) - sold])
  {
    hide SellPosition, ShrinkAsk, Units, SellGain;
  }

  /** Reservations shrink with a sale. */
  lemma FillSellOrders(a: Account, base: real, r: Report)
    requires Sound(a, base) && FillsAsk(a, r) && SellBookable(a, r) && r.price > 0.0
    ensures var b := FillSell(a, r);
            PositionsOk(b.positions) && BidsOk(b.bids, b.positions) && AsksOk(b.asks, b.positions)
            && ShortCashAgrees(b.shortCash, b.asks) && UnitsAgree(b.shortUnits, b.asks)
  {
    ReservedIsOwned(a, base, r.orderID);
    FillSellParts(a, r);
    var n := r.executedSize * 100;
    var p := a.positions[r.symbol];
    var ask := a.asks[r.orderID];
    var sold := Sold(n, ask.reserved);
    var q := SellPosition(p, r.price, n, ask.reserved);
    assert FillSell(a, r).bids == a.bids;
    assert Shrinkable(a.asks, r.orderID, r.executedSize, sold);
    SellPositionOk(p, r.price, n, ask.reserved);
    hide Sum, Cost, FillSell, Shrinkable, BorrowedAgrees, HoldingAgrees, ShrinkAsk, BidsOk, AsksOk, UnitsAgree,
        SellPosition, NotOverpromised, ShortCashAgrees;
    PositionChange(a, r.symbol, q);
    ShrinkAsks(a.asks, r.orderID, r.executedSize, sold, a.positions[r.symbol := q]);
    ShrinkShortCash(a.asks, r.orderID, r.executedSize, sold, a.shortCash);
    ShrinkUnits(a.shortUnits, a.asks, r.orderID, r.executedSize, sold);
  }

  /** Promises and owned shares shrink together with a sale. */
  lemma FillSellPromises(a: Account, base: real, r: Report)
    requires Sound(a, base) && FillsAsk(a, r) && SellBookable(a, r) && r.price > 0.0
    ensures NotOverpromised(FillSell(a, r).shortUnits, FillSell(a, r).positions)
  {
    ReservedIsOwned(a, base, r.orderID);
    FillSellParts(a, r);
    var n := r.executedSize * 100;
    var p := a.positions[r.symbol];
    var reserved := a.asks[r.orderID].reserved;
    var sold := Sold(n, reserved);
    var q := SellPosition(p, r.price, n, reserved);
    SellBorrowed(p, r.price, n, reserved);
    hide Sum, Cost, FillSell, BorrowedAgrees, HoldingAgrees, ShrinkAsk, BidsOk, AsksOk, UnitsAgree, SellPosition,
        NotOverpromised, ShortCashAgrees;
    ReleaseUnits(a.shortUnits, a.positions, r.symbol, sold, sold, q);
    NothingReleased(a.shortUnits, a.positions, r.symbol, sold, q);
  }

  lemma NothingReleased(units: map<string, int>, positions: map<string, Position>, s: string, sold: int, p: Position)
    requires NotOverpromised(units, positions) && s in positions && p.longShares == positions[s].longShares - sold
    ensures sold == 0 ==> NotOverpromised(units, positions[s := p])
  {
    assert sold == 0 ==> forall t :: Long(positions[s := p], t) == Long(positions, t);
  }

  /** A sale moves cash, borrowing, gain and cost basis by amounts that cancel out. */
  lemma FillSellMoney(a: Account, base: real, r: Report)
    requires Sound(a, base) && FillsAsk(a, r) && SellBookable(a, r) && r.price > 0.0
    requires a.asks[r.orderID].reserved <= a.positions[r.symbol].longShares
    ensures var b := FillSell(a, r); BorrowedAgrees(b.summary.borrowed, b.positions)
    ensures Equity(FillSell(a, r)) == Equity(a)
  {
    assert AskOk(r.orderID, a.asks[r.orderID]);
    hide Sum, Cost, SellGain, CostBasis, ShrinkAsk, BidsOk, AsksOk, UnitsAgree, SellPosition, NotOverpromised,
        HoldingAgrees, ShortCashAgrees;
    var n := r.executedSize * 100;
    var p := a.positions[r.symbol];
    var reserved := a.asks[r.orderID].reserved;
    var sold := Sold(n, reserved);
    SellBorrowed(p, r.price, n, reserved);
    SellCostBasis(p, r.price, n, reserved);
    PositionSums(a.positions, r.symbol, SellPosition(p, r.price, n, reserved));
    CostAdds(r.price, sold, n - sold);
  }

  lemma FillSellKeeps(a: Account, base: real, r: Report)
    requires Sound(a, base) && FillsAsk(a, r) && SellBookable(a, r) && r.price > 0.0
    ensures Sound(FillSell(a, r), base)
    ensures Equity(FillSell(a, r)) == Equity(a)
  {
    FillSellOrders(a, base, r);
    FillSellPromises(a, base, r);
    ReservedIsOwned(a, base, r.orderID);
    FillSellMoney(a, base, r);
    hide Sum, Cost, Equity, SellGain, ShrinkAsk, BidsOk, AsksOk, UnitsAgree, SellPosition, NotOverpromised,
        ShortCashAgrees, PositionsOk, BorrowedAgrees;
  }

  lemma SellBorrowed(p: Position, price: real, shares: int, reserved: int)
    requires PositionOk(p) && shares > 0 && reserved >= 0
    ensures var q := SellPosition(p, price, shares, reserved);
            q.borrowed == p.borrowed + Cost(price, shares - Sold(shares, reserved))
            && q.longShares == p.longShares - Sold(shares, reserved)
  {
  }

  lemma CancelBuyKeeps(a: Account, base: real, r: Report)
    requires Sound(a, base) && FillsBid(a, r)
    ensures Sound(CancelBuy(a, r), base)
    ensures Equity(CancelBuy(a, r)) == Equity(a)
  {
    hide Sum, Cost, Shrink, PositionsOk, BidsOk, AsksOk, ShortCashAgrees, UnitsAgree, NotOverpromised, BorrowedAgrees;
    ShrinkBids(a.bids, r.orderID, r.executedSize, a.positions);
    ShrinkHolding(a.bids, r.orderID, r.executedSize, a.summary.holding, base);
  }

  /** Reserved shares that go with a cancellation. */
  function Freed(a: Account, r: Report): int
    requires FillsAsk(a, r)
  {
    var n := r.executedSize * 100;
    n - Min(n, a.asks[r.orderID].order.size * 100 - a.asks[r.orderID].reserved)
  }

  lemma CancelSellParts(a: Account, r: Report)
    requires FillsAsk(a, r) && 0 <= a.asks[r.orderID].reserved <= a.asks[r.orderID].order.size * 100
    ensures var b := CancelSell(a, r);
            var freed := Freed(a, r);
            && Shrinkable(a.asks, r.orderID, r.executedSize, freed) && 0 <= freed <= a.asks[r.orderID].reserved
            && b.asks == ShrinkAsk(a.asks, r.orderID, r.executedSize, freed)
            && b.shortCash == a.shortCash - Cost(a.asks[r.orderID].order.price, r.executedSize * 100 - freed)
            && b.positions == a.positions
            && ((freed == 0 && b.shortUnits == a.shortUnits)
                || b.shortUnits == a.shortUnits[r.symbol := Units(a.shortUnits, r.symbol) - freed])
  {
    hide ShrinkAsk, Units;
  }

  lemma CancelSellOrders(a: Account, base: real, r: Report)
    requires Sound(a, base) && FillsAsk(a, r)
    ensures var b := CancelSell(a, r);
            AsksOk(b.asks, b.positions) && ShortCashAgrees(b.shortCash, b.asks) && UnitsAgree(b.shortUnits, b.asks)
  {
    ReservedIsOwned(a, base, r.orderID);
    CancelSellParts(a, r);
    hide Sum, Cost, AsksOk, Shrinkable, CancelSell, Freed, HoldingAgrees, BorrowedAgrees, ShrinkAsk, PositionsOk,
        BidsOk, UnitsAgree, NotOverpromised, ShortCashAgrees;
    var freed := Freed(a, r);
    ShrinkAsks(a.asks, r.orderID, r.executedSize, freed, a.positions);
    ShrinkShortCash(a.asks, r.orderID, r.executedSize, freed, a.shortCash);
    ShrinkUnits(a.shortUnits, a.asks, r.orderID, r.executedSize, freed);
  }

  lemma CancelSellPromises(a: Account, base: real, r: Report)
    requires Sound(a, base) && FillsAsk(a, r)
    ensures NotOverpromised(CancelSell(a, r).shortUnits, CancelSell(a, r).positions)
  {
    ReservedIsOwned(a, base, r.orderID);
    CancelSellParts(a, r);
    hide Sum, Cost, AsksOk, Shrinkable, CancelSell, Freed, HoldingAgrees, BorrowedAgrees, ShrinkAsk, PositionsOk,
        BidsOk, UnitsAgree, NotOverpromised, ShortCashAgrees;
    var p := a.positions[r.symbol];
    ReleaseUnits(a.shortUnits, a.positions, r.symbol, Freed(a, r), 0, p);
    assert a.positions[r.symbol := p] == a.positions;
  }

  lemma CancelSellKeeps(a: Account, base: real, r: Report)
    requires Sound(a, base) && FillsAsk(a, r)
    ensures Sound(CancelSell(a, r), base)
    ensures Equity(CancelSell(a, r)) == Equity(a)
  {
    CancelSellOrders(a, base, r);
    CancelSellPromises(a, base, r);
    hide Sum, Cost, HoldingAgrees, BorrowedAgrees, ShrinkAsk, PositionsOk, BidsOk, AsksOk, UnitsAgree, NotOverpromised,
        ShortCashAgrees;
  }

  /** A report about a live order meets a position that is already there. */
  lemma LivePosition(a: Account, base: real, r: Report)
    requires Sound(a, base) && Reportable(a, r)
    ensures Processable(a, r)
    ensures r.status.Filled? || r.status.Canceled? ==> OpenPosition(a, r.symbol) == a
    ensures r.status.Filled? ==> if r.kind.IsBuy() then BuyBookable(a, r) else SellBookable(a, r)
  {
    if r.status.Filled? {
      LiveIsBookable(a, base, r);
    }
    hide Sum, Cost, HoldingAgrees, ShortCashAgrees, UnitsAgree, NotOverpromised, BorrowedAgrees;
  }

  lemma OpenPositionKeeps(a: Account, base: real, symbol: string)
    requires Sound(a, base)
    ensures Sound(OpenPosition(a, symbol), base)
    ensures Equity(OpenPosition(a, symbol)) == Equity(a)
  {
    hide Sum, Cost, HoldingAgrees, ShortCashAgrees, UnitsAgree;
    SumUpdate(a.positions, Borrowed, symbol, EMPTY_POSITION);
    SumUpdate(a.positions, CostBasis, symbol, EMPTY_POSITION);
  }

  /** One settled report keeps the account sound and the cost-basis identity. */
  lemma SettleKeeps(a: Account, base: real, r: Report)
    requires Sound(a, base) && Reportable(a, r) && Processable(a, r)
    ensures Sound(Settle(a, r), base)
    ensures Equity(Settle(a, r)) == Equity(a)
  {
    LivePosition(a, base, r);
    OpenPositionKeeps(a, base, r.symbol);
    hide Sound, Equity, FillBuy, FillSell, CancelBuy, CancelSell, OpenPosition;
    match r.status
    case Filled =>
      if r.kind.IsBuy() { FillBuyKeeps(a, base, r); } else { FillSellKeeps(a, base, r); }
    case Canceled =>
      if r.kind.CancelBid? { CancelBuyKeeps(a, base, r); } else { CancelSellKeeps(a, base, r); }
    case _ =>
  }

  // ----- reports about unknown orders --------------------------------------

  predicate KnownBid(a: Account, r: Report) {
    r.orderID in a.bids && r.executedSize <= a.bids[r.orderID].size
  }

  predicate KnownAsk(a: Account, r: Report) {
    r.orderID in a.asks && r.executedSize <= a.asks[r.orderID].order.size
  }

  /** Pending buy orders stay proper exactly when a known order shrinks by no more than
      is left of it; otherwise an order of negative size remains. */
  lemma ShrinkBidsIff(bids: map<string, Order>, positions: map<string, Position>, id: string, size: int)
    requires BidsOk(bids, positions) && size >= 1
    ensures var next := Shrink(bids, id, size);
            var known := id in bids && size <= bids[id].size;
            (BidsOk(next, positions) <==> known) && (!known ==> id in next && next[id].size < 0)
  {
    var next := Shrink(bids, id, size);
    if !(id in bids && size <= bids[id].size) {
      assert !BidOk(id, next[id]);
    }
  }

  lemma ShrinkAsksIff(asks: map<string, PendingAsk>, positions: map<string, Position>, id: string, size: int, used: int)
    requires AsksOk(asks, positions) && size >= 1
    requires id in asks && size <= asks[id].order.size ==> Shrinkable(asks, id, size, used)
    ensures var next := ShrinkAsk(asks, id, size, used);
            var known := id in asks && size <= asks[id].order.size;
            (AsksOk(next, positions) <==> known) && (!known ==> id in next && next[id].order.size < 0)
  {
    var next := ShrinkAsk(asks, id, size, used);
    if !(id in asks && size <= asks[id].order.size) {
      assert !AskOk(id, next[id]);
    }
  }

  lemma SameSymbols(a: Account, s: string, p: Position)
    requires s in a.positions
    ensures BidsOk(a.bids, a.positions[s := p]) == BidsOk(a.bids, a.positions)
    ensures AsksOk(a.asks, a.positions[s := p]) == AsksOk(a.asks, a.positions)
  {
    hide BidOk, AskOk;
  }

  lemma FillBuyIffKnown(a: Account, base: real, r: Report)
    requires Sound(a, base) && r.executedSize >= 1 && r.symbol in a.positions
    ensures BuyBookable(a, r)
    ensures var b := FillBuy(a, r);
            && (BidsOk(b.bids, b.positions) <==> KnownBid(a, r))
            && (!KnownBid(a, r) ==> r.orderID in b.bids && b.bids[r.orderID].size < 0)
  {
    assert PositionOk(a.positions[r.symbol]);
    var positions := FillBuy(a, r).positions;
    SameSymbols(a, r.symbol, positions[r.symbol]);
    ShrinkBidsIff(a.bids, positions, r.orderID, r.executedSize);
    hide Sound, Shrink, BidsOk, BuyPosition, BuySummary;
  }

  lemma FillSellIffKnown(a: Account, base: real, r: Report)
    requires Sound(a, base) && r.executedSize >= 1 && r.symbol in a.positions
    ensures SellBookable(a, r)
    ensures var b := FillSell(a, r);
            && (AsksOk(b.asks, b.positions) <==> KnownAsk(a, r))
            && (!KnownAsk(a, r) ==> r.orderID in b.asks && b.asks[r.orderID].order.size < 0)
  {
    assert PositionOk(a.positions[r.symbol]);
    assert r.orderID in a.asks ==> AskOk(r.orderID, a.asks[r.orderID]);
    var sold := Sold(r.executedSize * 100, AskOf(a.asks, r.orderID).reserved);
    var positions := FillSell(a, r).positions;
    SameSymbols(a, r.symbol, positions[r.symbol]);
    ShrinkAsksIff(a.asks, positions, r.orderID, r.executedSize, sold);
    hide Sound, ShrinkAsk, AsksOk, SellPosition, SellSummary;
  }

  lemma CancelBuyIffKnown(a: Account, base: real, r: Report)
    requires Sound(a, base) && r.executedSize >= 1
    ensures var b := CancelBuy(a, r);
            && (BidsOk(b.bids, b.positions) <==> KnownBid(a, r))
            && (!KnownBid(a, r) ==> r.orderID in b.bids && b.bids[r.orderID].size < 0)
  {
    ShrinkBidsIff(a.bids, a.positions, r.orderID, r.executedSize);
    hide Sound, Shrink, BidsOk;
  }

  lemma CancelSellIffKnown(a: Account, base: real, r: Report)
    requires Sound(a, base) && r.executedSize >= 1
    ensures var b := CancelSell(a, r);
            && (AsksOk(b.asks, b.positions) <==> KnownAsk(a, r))
            && (!KnownAsk(a, r) ==> r.orderID in b.asks && b.asks[r.orderID].order.size < 0)
  {
    assert r.orderID in a.asks ==> AskOk(r.orderID, a.asks[r.orderID]);
    var n := r.executedSize * 100;
    var ask := AskOf(a.asks, r.orderID);
    ShrinkAsksIff(a.asks, a.positions, r.orderID, r.executedSize, n - Min(n, ask.order.size * 100 - ask.reserved));
    hide Sound, ShrinkAsk, AsksOk;
  }

  // ----- orders ------------------------------------------------------------

  /** What the acceptor lets through: a positive size and no negative price.  Only a
      cancellation may carry the id of the placeholder. */
  predicate Submittable(o: Order) {
    o.size > 0 && o.price >= 0.0 && o.executedSize == 0 && (o.kind.IsCancel() || o.id != PLACEHOLDER.id)
  }

  lemma ReserveBuyKeeps(a: Account, base: real, o: Order, price: real)
    requires Sound(a, base) && Submittable(o) && o.kind.IsBuy() && price > 0.0
    requires o.symbol in a.positions && o.id !in a.bids
    ensures Sound(Reserve(a, o, price), base)
    ensures Equity(Reserve(a, o, price)) == Equity(a)
  {
    hide Sum, Cost, UnitsAgree, ShortCashAgrees, NotOverpromised, AsksOk, PositionsOk, BorrowedAgrees;
    SumUpdate(a.bids, BidCost, o.id, o.(price := price));
  }

  lemma ReserveSellKeeps(a: Account, base: real, o: Order, price: real)
    requires Sound(a, base) && Submittable(o) && o.kind.IsSell() && price > 0.0
    requires o.symbol in a.positions && o.id !in a.asks
    ensures Sound(Reserve(a, o, price), base)
    ensures Equity(Reserve(a, o, price)) == Equity(a)
  {
    hide Sum, Cost, HoldingAgrees, BidsOk, PositionsOk, BorrowedAgrees;
    var b := Reserve(a, o, price);
    var ask := b.asks[o.id];
    SumUpdate(a.asks, AskShortCash, o.id, ask);
    forall s ensures Units(b.shortUnits, s) as real == Sum(b.asks, ReservedIn(s)) {
      hide NotOverpromised, AsksOk;
      SumUpdate(a.asks, ReservedIn(s), o.id, ask);
    }
  }

  lemma ReserveKeeps(a: Account, base: real, o: Order, price: real)
    requires Sound(a, base) && Submittable(o) && o.symbol in a.positions
    requires o.kind.IsCancel() || (price > 0.0 && o.id !in a.bids && o.id !in a.asks)
    ensures Sound(Reserve(a, o, price), base)
    ensures Equity(Reserve(a, o, price)) == Equity(a)
  {
    hide Sound, Equity;
    if o.kind.IsBuy() {
      ReserveBuyKeeps(a, base, o, price);
    } else if o.kind.IsSell() {
      ReserveSellKeeps(a, base, o, price);
    }
  }

  lemma AcceptedKind(a: Account, o: Order, usable: real, marketPrice: real)
    requires Accepted(a, o, usable, marketPrice)
    ensures o.kind.IsBuy() || o.kind.IsSell() || o.kind.IsCancel()
    ensures !o.kind.IsCancel() ==> ReservePrice(o, marketPrice) != 0.0
  {
  }

  /** One verified order, accepted or not, keeps the account sound and the cost-basis
      identity. */
  lemma CommitKeeps(a: Account, base: real, o: Order, usable: real, marketPrice: real)
    requires Sound(a, base) && Submittable(o) && o.symbol in a.positions && marketPrice >= 0.0
    requires o.kind.IsCancel() || (o.id !in a.bids && o.id !in a.asks)
    ensures Sound(CommitOrder(a, o, usable, marketPrice), base)
    ensures Equity(CommitOrder(a, o, usable, marketPrice)) == Equity(a)
  {
    if Accepted(a, o, usable, marketPrice) {
      AcceptedKind(a, o, usable, marketPrice);
      hide Sound, Equity, Accepted, Reserve;
      ReserveKeeps(a, base, o, ReservePrice(o, marketPrice));
    }
  }

  /** The waiting list holds no money and no shares. */
  lemma WaitingHoldsNothing(a: Account, b: Account, base: real)
    requires b == a.(waiting := b.waiting)
    ensures Sound(b, base) == Sound(a, base) && Equity(b) == Equity(a) && Usable(b) == Usable(a)
  {
    hide Sum, PositionsOk, BidsOk, AsksOk, HoldingAgrees, ShortCashAgrees, UnitsAgree, NotOverpromised, BorrowedAgrees;
  }
}
