/**
 The account as the broker keeps it: mutable summary and position objects and
 the pending-order maps, updated branch by branch.  Each method is proved
 against the closed-form account function of module Ledger.
 */
module RiskManagement {
  import L = Ledger
  import M = Money
  import O = LedgerOutcomes
  import R = LedgerRuns

  class PortfolioItem {
    var borrowedBalance: real
    var pl: real
    var longPrice: real
    var shortPrice: real
    var longShares: int
    var shortShares: int

    ghost function View(): L.Position
      reads this
    {
      L.Position(borrowedBalance, pl, longPrice, shortPrice, longShares, shortShares)
    }

    constructor ()
      ensures View() == L.EMPTY_POSITION
    {
      borrowedBalance, pl, longPrice, shortPrice, longShares, shortShares := 0.0, 0.0, 0.0, 0.0, 0, 0;
    }

    constructor Stored(p: L.Position)
      ensures View() == p
    {
      borrowedBalance, pl := p.borrowed, p.pl;
      longPrice, shortPrice, longShares, shortShares := p.longPrice, p.shortPrice, p.longShares, p.shortShares;
    }

    method AddLongShares(value: int)
      modifies this`longShares
      ensures longShares == old(longShares) + value
    {
      longShares := longShares + value;
    }

    method AddShortShares(value: int)
      modifies this`shortShares
      ensures shortShares == old(shortShares) + value
    {
      shortShares := shortShares + value;
    }

    method AddLongPrice(value: real, quantity: int)
      requires quantity > 0 ==> longShares + quantity != 0
      modifies this`longPrice
      ensures longPrice == if quantity > 0 then L.Average(old(longPrice), longShares, value, quantity)
          else old(longPrice)
    {
      if quantity > 0 {
        longPrice := (longPrice * longShares as real + value * quantity as real) / (longShares + quantity) as real;
      }
    }

    method AddShortPrice(value: real, quantity: int)
      requires quantity > 0 ==> shortShares + quantity != 0
      modifies this`shortPrice
      ensures shortPrice == if quantity > 0 then L.Average(old(shortPrice), shortShares, value, quantity)
          else old(shortPrice)
    {
      if quantity > 0 {
        shortPrice := (shortPrice * shortShares as real + value * quantity as real) / (shortShares + quantity) as real;
      }
    }

    method AddPL(value: real)
      modifies this`pl
      ensures pl == old(pl) + value
    {
      pl := pl + value;
    }

    method AddBorrowedBalance(value: real)
      modifies this`borrowedBalance
      ensures borrowedBalance == old(borrowedBalance) + value
    {
      borrowedBalance := borrowedBalance + value;
    }

    method ResetShortShares()
      modifies this`shortShares
      ensures shortShares == 0
    {
      shortShares := 0;
    }

    method ResetLongPrice()
      modifies this`longPrice
      ensures longPrice == 0.0
    {
      longPrice := 0.0;
    }

    method ResetShortPrice()
      modifies this`shortPrice
      ensures shortPrice == 0.0
    {
      shortPrice := 0.0;
    }

    method ResetBorrowedBalance()
      modifies this`borrowedBalance
      ensures borrowedBalance == 0.0
    {
      borrowedBalance := 0.0;
    }
  }

  class PortfolioSummary {
    var buyingPower: real
    var holdingBalance: real
    var borrowedBalance: real
    var totalPL: real
    var totalShares: int

    ghost function View(): L.Summary
      reads this
    {
      L.Summary(buyingPower, holdingBalance, borrowedBalance, totalPL, totalShares)
    }

    constructor (buyingPower: real, holdingBalance: real, borrowedBalance: real, totalPL: real, totalShares: int)
      ensures View() == L.Summary(buyingPower, holdingBalance, borrowedBalance, totalPL, totalShares)
    {
      this.buyingPower, this.holdingBalance, this.borrowedBalance := buyingPower, holdingBalance, borrowedBalance;
      this.totalPL, this.totalShares := totalPL, totalShares;
    }

    /** Cash moves between buying power and the holding balance; none appears or is lost. */
    method HoldBalance(value: real)
      modifies this`buyingPower, this`holdingBalance
      ensures buyingPower + holdingBalance == old(buyingPower + holdingBalance)
      ensures holdingBalance == old(holdingBalance) + value
    {
      buyingPower := buyingPower - value;
      holdingBalance := holdingBalance + value;
    }

    method ReleaseBalance(value: real)
      modifies this`buyingPower, this`holdingBalance
      ensures buyingPower + holdingBalance == old(buyingPower + holdingBalance)
      ensures holdingBalance == old(holdingBalance) - value
    {
      buyingPower := buyingPower + value;
      holdingBalance := holdingBalance - value;
    }

    method BorrowBalance(value: real)
      modifies this`buyingPower, this`borrowedBalance
      ensures buyingPower + borrowedBalance == old(buyingPower + borrowedBalance)
      ensures borrowedBalance == old(borrowedBalance) + value
    {
      buyingPower := buyingPower - value;
      borrowedBalance := borrowedBalance + value;
    }

    /** Twice the amount comes back: it was borrowed once and sold once. */
    method ReturnBalance(value: real)
      modifies this`buyingPower, this`borrowedBalance
      ensures buyingPower + 2.0 * borrowedBalance == old(buyingPower + 2.0 * borrowedBalance)
      ensures borrowedBalance == old(borrowedBalance) - value
    {
      buyingPower := buyingPower + value * 2.0;
      borrowedBalance := borrowedBalance - value;
    }

    method AddBuyingPower(value: real)
      modifies this`buyingPower
      ensures buyingPower == old(buyingPower) + value
    {
      buyingPower := buyingPower + value;
    }

    method AddTotalPL(value: real)
      modifies this`totalPL
      ensures totalPL == old(totalPL) + value
    {
      totalPL := totalPL + value;
    }

    method AddTotalShares(value: int)
      modifies this`totalShares
      ensures totalShares == old(totalShares) + value
    {
      totalShares := totalShares + value;
    }
  }

  /** Cents are kept, fractions of a cent are cut off. */
  method CutToCents(x: real) returns (r: real)
    ensures r == L.FloorCents(x)
    ensures r <= x < r + 0.01 && L.WholeCents(r)
  {
    r := (x * 100.0).Floor as real / 100.0;
    assert r * 100.0 == (x * 100.0).Floor as real;
  }

  /** The branches of a purchase: open long, close every short share and open long
      with the rest, or close part of the short shares. */
  method BuyShares(item: PortfolioItem, summary: PortfolioSummary, price: real, buyShares: int) returns (inc: real)
    requires L.BuyAverages(item.View(), buyShares)
    modifies item, summary
    ensures inc == L.BuyGain(old(item.View()), price, buyShares)
    ensures item.View() == L.BuyPosition(old(item.View()), price, buyShares).(pl := old(item.pl))
    ensures summary.View() == var ret := L.Returned(old(item.View()), buyShares);
      old(summary.View()).(buyingPower := old(summary.buyingPower) + 2.0 * ret,
          borrowed := old(summary.borrowedBalance) - ret)
  {
    M.NoShares(item.shortPrice - price);
    hide L.Average, L.FloorCents, M.Cost, L.Proportion;
    inc := 0.0;
    if item.shortShares == 0 {
      item.AddLongPrice(price, buyShares);
      item.AddLongShares(buyShares);
    } else if buyShares > item.shortShares {
      inc := M.Cost(item.shortPrice - price, item.shortShares);
      summary.ReturnBalance(item.borrowedBalance);
      item.ResetBorrowedBalance();
      var rem := buyShares - item.shortShares;
      item.AddLongPrice(price, rem);
      item.AddLongShares(rem);
      item.ResetShortShares();
      item.ResetShortPrice();
    } else {
      inc := M.Cost(item.shortPrice - price, buyShares);
      var ret := CutToCents(L.Proportion(item.borrowedBalance, buyShares, item.shortShares));
      summary.ReturnBalance(ret);
      item.AddBorrowedBalance(-ret);
      item.AddShortShares(-buyShares);
      if item.shortShares == 0 {
        item.ResetShortPrice();
      }
    }
  }

  /** The branches of a sale: everything borrowed, everything from the reserved
      shares, or the reserved shares first and the rest borrowed.  Returns the
      gain, the shares still reserved and the shares that were sold short. */
  method SellShares(item: PortfolioItem, summary: PortfolioSummary, price: real, sellShares: int, reserved: int)
    returns (inc: real, reservedLeft: int, shorted: int)
    requires L.SellAverages(item.View(), sellShares, reserved)
    modifies item, summary
    ensures inc == L.SellGain(old(item.View()), price, sellShares, reserved)
    ensures shorted == sellShares - L.Sold(sellShares, reserved)
        && reservedLeft == reserved - L.Sold(sellShares, reserved)
    ensures item.View() == L.SellPosition(old(item.View()), price, sellShares, reserved).(pl := old(item.pl))
    ensures summary.View() ==
      old(summary.View()).(
        buyingPower := old(summary.buyingPower) + M.Cost(price, sellShares - shorted) - M.Cost(price, shorted),
        borrowed := old(summary.borrowedBalance) + M.Cost(price, shorted))
  {
    M.NoShares(price);
    M.NoShares(price - item.longPrice);
    hide L.Average, M.Cost;
    inc := 0.0;
    if reserved == 0 {
      shorted := sellShares;
      reservedLeft := 0;
      summary.BorrowBalance(M.Cost(price, sellShares));
      item.AddBorrowedBalance(M.Cost(price, sellShares));
      item.AddShortPrice(price, sellShares);
      item.AddShortShares(sellShares);
    } else if sellShares < reserved {
      inc := M.Cost(price - item.longPrice, sellShares);
      summary.AddBuyingPower(M.Cost(price, sellShares));
      item.AddLongShares(-sellShares);
      if item.longShares == 0 {
        item.ResetLongPrice();
      }
      shorted := 0;
      reservedLeft := reserved - sellShares;
    } else {
      inc := M.Cost(price - item.longPrice, reserved);
      summary.AddBuyingPower(M.Cost(price, reserved));
      shorted := sellShares - reserved;
      summary.BorrowBalance(M.Cost(price, shorted));
      item.AddBorrowedBalance(M.Cost(price, shorted));
      item.AddShortPrice(price, shorted);
      item.AddShortShares(shorted);
      item.AddLongShares(-reserved);
      if item.longShares == 0 {
        item.ResetLongPrice();
      }
      reservedLeft := 0;
    }
  }

  /** A purchase as a whole: the branches above, then payment, release of the
      money held for the order, and the gain. */
  method SettleBuy(item: PortfolioItem, summary: PortfolioSummary, price: real, buyShares: int, reservedPrice: real)
    requires L.BuyAverages(item.View(), buyShares)
    modifies item, summary
    ensures item.View() == L.BuyPosition(old(item.View()), price, buyShares)
    ensures summary.View() == L.BuySummary(old(summary.View()), old(item.View()), price, buyShares, reservedPrice)
    ensures summary.totalShares == old(summary.totalShares) + buyShares
    ensures summary.totalPL - item.pl == old(summary.totalPL - item.pl)
  {
    var inc := BuyShares(item, summary, price, buyShares);
    hide L.BuyPosition, L.Returned, L.BuyGain, M.Cost;
    summary.AddBuyingPower(-M.Cost(price, buyShares));
    summary.ReleaseBalance(M.Cost(reservedPrice, buyShares));
    item.AddPL(inc);
    summary.AddTotalPL(inc);
    summary.AddTotalShares(buyShares);
    assert L.BuyPosition(old(item.View()), price, buyShares).pl == old(item.pl) + inc
        by { BuyAddsGain(old(item.View()), price, buyShares); }
  }

  lemma BuyAddsGain(p: L.Position, price: real, shares: int)
    requires L.BuyAverages(p, shares)
    ensures L.BuyPosition(p, price, shares).pl == p.pl + L.BuyGain(p, price, shares)
  {
  }

  method SettleSell(item: PortfolioItem, summary: PortfolioSummary, price: real, sellShares: int, reserved: int)
    returns (reservedLeft: int, shorted: int)
    requires L.SellAverages(item.View(), sellShares, reserved)
    modifies item, summary
    ensures shorted == sellShares - L.Sold(sellShares, reserved)
        && reservedLeft == reserved - L.Sold(sellShares, reserved)
    ensures item.View() == L.SellPosition(old(item.View()), price, sellShares, reserved)
    ensures summary.View() == L.SellSummary(old(summary.View()), old(item.View()), price, sellShares, reserved)
    ensures summary.totalShares == old(summary.totalShares) + sellShares
    ensures summary.totalPL - item.pl == old(summary.totalPL - item.pl)
  {
    var inc;
    inc, reservedLeft, shorted := SellShares(item, summary, price, sellShares, reserved);
    hide L.SellPosition, L.SellGain, M.Cost;
    item.AddPL(inc);
    summary.AddTotalPL(inc);
    summary.AddTotalShares(sellShares);
    assert L.SellPosition(old(item.View()), price, sellShares, reserved).pl == old(item.pl) + inc by {
      SellAddsGain(old(item.View()), price, sellShares, reserved);
    }
  }

  lemma SellAddsGain(p: L.Position, price: real, shares: int, reserved: int)
    requires L.SellAverages(p, shares, reserved)
    ensures L.SellPosition(p, price, shares, reserved).pl == p.pl + L.SellGain(p, price, shares, reserved)
  {
  }

  /** A sale field by field: nothing is taken off the promised shares exactly when
      none were reserved. */
  lemma SaleResult(a: L.Account, b: L.Account, r: L.Report)
    requires L.SellBookable(a, r)
    requires var n := r.executedSize * 100;
             var ask := L.AskOf(a.asks, r.orderID);
             var sold := L.Sold(n, ask.reserved);
             && b.summary == L.SellSummary(a.summary, a.positions[r.symbol], r.price, n, ask.reserved)
             && b.positions == a.positions[r.symbol := L.SellPosition(a.positions[r.symbol], r.price, n, ask.reserved)]
             && b.bids == a.bids && b.waiting == a.waiting
             && b.asks == L.ShrinkAsk(a.asks, r.orderID, r.executedSize, sold)
             && b.shortCash == a.shortCash - M.Cost(ask.order.price, n - sold)
             && b.shortUnits == if ask.reserved == 0 then a.shortUnits
                                else a.shortUnits[r.symbol := L.Units(a.shortUnits, r.symbol) - sold]
    ensures b == L.FillSell(a, r)
  {
    hide L.SellPosition, L.SellSummary, L.ShrinkAsk, M.Cost, L.Units;
  }

  lemma PurchaseResult(a: L.Account, b: L.Account, r: L.Report)
    requires L.BuyBookable(a, r)
    requires var n := r.executedSize * 100;
             var p := a.positions[r.symbol];
             && b.summary == L.BuySummary(a.summary, p, r.price, n, L.BidOf(a.bids, r.orderID).price)
             && b.positions == a.positions[r.symbol := L.BuyPosition(p, r.price, n)]
             && b.bids == L.Shrink(a.bids, r.orderID, r.executedSize)
             && b == a.(summary := b.summary, positions := b.positions, bids := b.bids)
    ensures b == L.FillBuy(a, r)
  {
    hide L.BuyPosition, L.BuySummary, L.Shrink, L.BidOf;
  }

  lemma CancelResult(a: L.Account, b: L.Account, r: L.Report)
    requires var n := r.executedSize * 100;
             var ask := L.AskOf(a.asks, r.orderID);
             var short := ask.order.size * 100 - ask.reserved;
             var dropped := if n < short then n else short;
             && b.asks == L.ShrinkAsk(a.asks, r.orderID, r.executedSize, n - dropped)
             && b.shortCash == a.shortCash - M.Cost(ask.order.price, dropped)
             && b.shortUnits == (if n < short then a.shortUnits
                  else a.shortUnits[r.symbol := L.Units(a.shortUnits, r.symbol) - (n - dropped)])
             && b == a.(asks := b.asks, shortCash := b.shortCash, shortUnits := b.shortUnits)
    ensures b == L.CancelSell(a, r)
  {
    hide L.ShrinkAsk, L.Units, L.AskOf, M.Cost;
  }

  lemma TouchedBid(bids: map<string, L.Order>, id: string, size: int)
    ensures L.Shrink(bids[id := L.BidOf(bids, id)], id, size) == L.Shrink(bids, id, size)
  {
  }

  lemma TouchedAsk(asks: map<string, L.PendingAsk>, id: string, size: int, used: int)
    ensures L.ShrinkAsk(asks[id := L.AskOf(asks, id)], id, size, used) == L.ShrinkAsk(asks, id, size, used)
  {
  }

  /** Opening the position first changes nothing about how a report is settled. */
  lemma OpenedFirst(a: L.Account, report: L.Report)
    requires L.Processable(a, report)
    ensures L.IsConfirmation(report) ==> L.Settle(a, report) == a && L.Outgoing(a, report) == report
    ensures var b := L.OpenPosition(a, report.symbol);
            && L.Processable(b, report) && L.Outgoing(b, report) == L.Outgoing(a, report)
            && (!L.IsConfirmation(report) ==> L.Settle(b, report) == L.Settle(a, report))
  {
    hide L.FillBuy, L.FillSell, L.CancelBuy, L.CancelSell, L.BuyBookable, L.SellBookable;
  }

  lemma OutgoingReport(a: L.Account, report: L.Report)
    requires L.Processable(a, report)
    ensures var b := L.Settle(a, report);
            L.Outgoing(a, report) == if report.status != L.Filled then report
                     else if report.kind.IsBuy() then
                       report.(currentSize := L.BidOf(b.bids, report.orderID).size,
                               status := if report.orderID in b.bids then L.PartiallyFilled else L.Filled)
                     else if report.kind.IsSell() then
                       report.(currentSize := L.AskOf(b.asks, report.orderID).order.size,
                               status := if report.orderID in b.asks then L.PartiallyFilled else L.Filled)
                     else report
  {
    if report.status.Filled? && report.kind.IsBuy() { O.PurchaseReport(a, report); }
    if report.status.Filled? && report.kind.IsSell() { O.SaleReport(a, report); }
    hide L.Settle;
  }

  lemma RunsOn(m: R.Machine, events: seq<R.Event>, i: nat)
    requires i < |events| && R.PossibleRun(m, events[i..])
    ensures R.Possible(m, events[i])
    ensures R.PossibleRun(R.Step(m, events[i]), events[i + 1..])
    ensures R.Run(R.Step(m, events[i]), events[i + 1..]) == R.Run(m, events[i..])
  {
    assert events[i..][0] == events[i] && events[i..][1..] == events[i + 1..];
    hide R.Step, R.Possible;
  }

  lemma RunsOut(m: R.Machine, events: seq<R.Event>)
    ensures R.PossibleRun(m, events[|events|..]) && R.Run(m, events[|events|..]) == m
  {
  }

  /** What the two threads remember between their sections. */
  ghost predicate StageIs(m: R.Machine, order: L.Order, usable: real, out: L.Report) {
    && (!m.stage.Idle? ==> m.stage.order == order)
    && (m.stage.Reading? ==> m.stage.usable == usable)
    && (m.noting.Noting? ==> m.noting.report == out)
  }

  class RiskManagement {
    const summary: PortfolioSummary
    var items: map<string, PortfolioItem>
    var pendingBids: map<string, L.Order>
    var pendingAsks: map<string, L.PendingAsk>
    var pendingShortCash: real
    var pendingShortUnits: map<string, int>
    var waitingList: map<string, L.Order>

    /** Every symbol has a position object of its own. */
    ghost predicate Valid()
      reads this
    {
      forall s, t :: s in items && t in items && s != t ==> items[s] != items[t]
    }

    /** No position object has been replaced. */
    ghost predicate Grown(before: map<string, PortfolioItem>)
      reads this
    {
      forall s :: s in before ==> s in items && items[s] == before[s]
    }

    ghost function Positions(): map<string, L.Position>
      reads this, items.Values
    {
      map s | s in items :: items[s].View()
    }

    ghost function View(): L.Account
      reads this, summary, items.Values
    {
      L.Account(summary.View(), Positions(), pendingBids, pendingAsks, pendingShortCash, pendingShortUnits, waitingList)
    }

    constructor (buyingPower: real, holdingBalance: real, borrowedBalance: real, totalPL: real, totalShares: int)
      ensures Valid() && fresh(summary) && items == map[]
      ensures View() == L.Account(L.Summary(buyingPower, holdingBalance, borrowedBalance, totalPL, totalShares),
                                  map[], map[], map[], 0.0, map[], map[L.PLACEHOLDER.id := L.PLACEHOLDER])
    {
      summary := new PortfolioSummary(buyingPower, holdingBalance, borrowedBalance, totalPL, totalShares);
      items, pendingBids, pendingAsks := map[], map[], map[];
      pendingShortCash, pendingShortUnits := 0.0, map[];
      waitingList := map[L.PLACEHOLDER.id := L.PLACEHOLDER];
    }

    /** Adds an empty position for a symbol the user has not traded yet. */
    method OpenPosition(symbol: string)
      requires Valid()
      modifies this`items
      ensures Valid() && Grown(old(items)) && fresh(items.Values - old(items.Values))
      ensures View() == L.OpenPosition(old(View()), symbol) && symbol in items
    {
      if symbol !in items {
        var item := new PortfolioItem();
        items := items[symbol := item];
        assert Positions() == old(Positions())[symbol := L.EMPTY_POSITION];
      }
    }

    /** Puts a stored position in place of whatever there is for its symbol. */
    method InsertPortfolioItem(symbol: string, p: L.Position)
      requires Valid()
      modifies this`items
      ensures Valid() && items.Keys == old(items.Keys) + {symbol} && fresh(items.Values - old(items.Values))
      ensures View() == old(View()).(positions := old(Positions())[symbol := p])
    {
      var item := new PortfolioItem.Stored(p);
      items := items[symbol := item];
      assert Positions() == old(Positions())[symbol := p];
    }

    /** Looking up an order that is not there makes an empty one. */
    method TouchBid(id: string)
      modifies this`pendingBids
      ensures pendingBids == old(pendingBids)[id := L.BidOf(old(pendingBids), id)]
      ensures Positions() == old(Positions())
    {
      if id !in pendingBids {
        pendingBids := pendingBids[id := L.NO_ORDER];
      }
      assert Positions() == old(Positions());
    }

    method TouchAsk(id: string)
      modifies this`pendingAsks
      ensures pendingAsks == old(pendingAsks)[id := L.AskOf(old(pendingAsks), id)]
      ensures Positions() == old(Positions())
    {
      if id !in pendingAsks {
        pendingAsks := pendingAsks[id := L.PendingAsk(L.NO_ORDER, 0)];
      }
      assert Positions() == old(Positions());
    }

    /** Takes `lots` off a pending buy order and drops it once nothing is left. */
    method ShrinkBid(id: string, lots: int) returns (left: int)
      requires id in pendingBids
      modifies this`pendingBids
      ensures pendingBids == L.Shrink(old(pendingBids), id, lots)
      ensures left == old(pendingBids)[id].size - lots == L.BidOf(pendingBids, id).size
      ensures id in pendingBids <==> left != 0
      ensures Positions() == old(Positions())
    {
      left := pendingBids[id].size - lots;
      pendingBids := pendingBids[id := pendingBids[id].(size := left)];
      if left == 0 {
        pendingBids := pendingBids - {id};
      }
      assert Positions() == old(Positions());
    }

    /** The same for a pending sell order, whose reservation becomes `reserved`. */
    method ShrinkAsk(id: string, lots: int, reserved: int) returns (left: int)
      requires id in pendingAsks
      modifies this`pendingAsks
      ensures pendingAsks == L.ShrinkAsk(old(pendingAsks), id, lots, old(pendingAsks)[id].reserved - reserved)
      ensures left == old(pendingAsks)[id].order.size - lots == L.AskOf(pendingAsks, id).order.size
      ensures id in pendingAsks <==> left != 0
      ensures Positions() == old(Positions())
    {
      pendingAsks := pendingAsks[id := pendingAsks[id].(reserved := reserved)];
      left := pendingAsks[id].order.size - lots;
      pendingAsks := pendingAsks[id := L.PendingAsk(pendingAsks[id].order.(size := left), reserved)];
      if left == 0 {
        pendingAsks := pendingAsks - {id};
      }
      assert Positions() == old(Positions());
    }

    /** Settles a purchase in the position of one symbol; every other position stays. */
    method BuyAt(symbol: string, price: real, shares: int, reservedPrice: real)
      requires Valid() && symbol in items && L.BuyAverages(items[symbol].View(), shares)
      modifies summary, items.Values
      ensures Positions() == old(Positions())[symbol := L.BuyPosition(old(items[symbol].View()), price, shares)]
      ensures summary.View()
           == L.BuySummary(old(summary.View()), old(items[symbol].View()), price, shares, reservedPrice)
    {
      hide L.BuyPosition, L.BuySummary;
      SettleBuy(items[symbol], summary, price, shares, reservedPrice);
    }

    method SellAt(symbol: string, price: real, shares: int, reserved: int) returns (reservedLeft: int, shorted: int)
      requires Valid() && symbol in items && L.SellAverages(items[symbol].View(), shares, reserved)
      modifies summary, items.Values
      ensures shorted == shares - L.Sold(shares, reserved) && reservedLeft == reserved - L.Sold(shares, reserved)
      ensures Positions()
           == old(Positions())[symbol := L.SellPosition(old(items[symbol].View()), price, shares, reserved)]
      ensures summary.View() == L.SellSummary(old(summary.View()), old(items[symbol].View()), price, shares, reserved)
    {
      hide L.SellPosition, L.SellSummary;
      reservedLeft, shorted := SettleSell(items[symbol], summary, price, shares, reserved);
    }

    method FillBuy(report: L.Report) returns (out: L.Report)
      requires Valid() && L.BuyBookable(View(), report) && report.status.Filled? && report.kind.IsBuy()
      modifies this, summary, items.Values
      ensures Valid() && items == old(items)
      ensures View() == L.FillBuy(old(View()), report)
      ensures out == L.Outgoing(old(View()), report)
      ensures out == report.(currentSize := L.BidOf(pendingBids, report.orderID).size,
                             status := if report.orderID in pendingBids then L.PartiallyFilled else L.Filled)
    {
      hide L.FillBuy;
      var left := TakePurchase(report);
      out := report.(currentSize := left);
      if left != 0 {
        out := out.(status := L.PartiallyFilled);
      }
    }

    method TakePurchase(report: L.Report) returns (left: int)
      requires Valid() && L.BuyBookable(View(), report)
      modifies this, summary, items.Values
      ensures Valid() && items == old(items)
      ensures View() == L.FillBuy(old(View()), report)
      ensures left == L.BidOf(old(pendingBids), report.orderID).size - report.executedSize
                   == L.BidOf(pendingBids, report.orderID).size
      ensures report.orderID in pendingBids <==> left != 0
    {
      hide L.BuyPosition, L.BuySummary, L.Shrink, L.BidOf, M.Cost;
      var buyShares := report.executedSize * 100;
      TouchBid(report.orderID);
      TouchedBid(old(pendingBids), report.orderID, report.executedSize);
      BuyAt(report.symbol, report.price, buyShares, pendingBids[report.orderID].price);
      assert buyShares / 100 == report.executedSize;
      left := ShrinkBid(report.orderID, buyShares / 100);
      hide L.FillBuy;
      PurchaseResult(old(View()), View(), report);
    }

    /** Cash and shares that were reserved for what has now been sold. */
    method ReleaseSold(report: L.Report, shorted: int, sold: int)
      requires report.orderID in pendingAsks
      modifies this`pendingShortCash, this`pendingShortUnits
      ensures pendingShortCash == old(pendingShortCash) - M.Cost(pendingAsks[report.orderID].order.price, shorted)
      ensures var s := report.symbol;
              pendingShortUnits == if pendingAsks[report.orderID].reserved == 0 then old(pendingShortUnits)
                                   else old(pendingShortUnits)[s := L.Units(old(pendingShortUnits), s) - sold]
    {
      hide M.Cost;
      var ask := pendingAsks[report.orderID];
      pendingShortCash := pendingShortCash - M.Cost(ask.order.price, shorted);
      if ask.reserved != 0 {
        pendingShortUnits := pendingShortUnits[report.symbol := L.Units(pendingShortUnits, report.symbol) - sold];
      }
    }

    method FillSell(report: L.Report) returns (out: L.Report)
      requires Valid() && L.SellBookable(View(), report) && report.status.Filled? && report.kind.IsSell()
      modifies this, summary, items.Values
      ensures Valid() && items == old(items)
      ensures View() == L.FillSell(old(View()), report)
      ensures out == L.Outgoing(old(View()), report)
      ensures out == report.(currentSize := L.AskOf(pendingAsks, report.orderID).order.size,
                             status := if report.orderID in pendingAsks then L.PartiallyFilled else L.Filled)
    {
      hide L.FillSell;
      var left := TakeSale(report);
      out := report.(currentSize := left);
      if left != 0 {
        out := out.(status := L.PartiallyFilled);
      }
    }

    /** The reservation of a sale in the pending maps: released, then shrunk. */
    method ReduceAsk(report: L.Report, shorted: int, reservedLeft: int) returns (left: int)
      requires report.orderID in pendingAsks
      modifies this`pendingAsks, this`pendingShortCash, this`pendingShortUnits
      ensures var ask := old(pendingAsks)[report.orderID];
              var sold := ask.reserved - reservedLeft;
              && pendingAsks == L.ShrinkAsk(old(pendingAsks), report.orderID, report.executedSize, sold)
              && pendingShortCash == old(pendingShortCash) - M.Cost(ask.order.price, shorted)
              && pendingShortUnits == (if ask.reserved == 0 then old(pendingShortUnits)
                   else old(pendingShortUnits)[report.symbol := L.Units(old(pendingShortUnits), report.symbol) - sold])
              && left == ask.order.size - report.executedSize == L.AskOf(pendingAsks, report.orderID).order.size
      ensures report.orderID in pendingAsks <==> left != 0
      ensures Positions() == old(Positions())
    {
      hide L.ShrinkAsk, L.Units, M.Cost;
      ReleaseSold(report, shorted, pendingAsks[report.orderID].reserved - reservedLeft);
      assert report.executedSize * 100 / 100 == report.executedSize;
      left := ShrinkAsk(report.orderID, report.executedSize * 100 / 100, reservedLeft);
      assert Positions() == old(Positions());
    }

    method TakeSale(report: L.Report) returns (left: int)
      requires Valid() && L.SellBookable(View(), report)
      modifies this, summary, items.Values
      ensures Valid() && items == old(items)
      ensures View() == L.FillSell(old(View()), report)
      ensures left == L.AskOf(old(pendingAsks), report.orderID).order.size - report.executedSize
                   == L.AskOf(pendingAsks, report.orderID).order.size
      ensures report.orderID in pendingAsks <==> left != 0
    {
      hide L.SellPosition, L.SellGain, M.Cost, L.SellSummary, L.ShrinkAsk, L.Units, L.FillSell, L.AskOf, L.Min;
      var sellShares := report.executedSize * 100;
      TouchAsk(report.orderID);
      var reserved := pendingAsks[report.orderID].reserved;
      var reservedLeft, shorted := SellAt(report.symbol, report.price, sellShares, reserved);
      left := ReduceAsk(report, shorted, reservedLeft);
      TouchedAsk(old(pendingAsks), report.orderID, report.executedSize, reserved - reservedLeft);
      SaleResult(old(View()), View(), report);
    }

    method CancelBuy(report: L.Report)
      requires Valid()
      modifies this, summary
      ensures Valid() && items == old(items)
      ensures View() == L.CancelBuy(old(View()), report)
    {
      hide M.Cost, L.Shrink;
      var cancelShares := report.executedSize * 100;
      TouchBid(report.orderID);
      TouchedBid(old(pendingBids), report.orderID, report.executedSize);
      summary.ReleaseBalance(M.Cost(pendingBids[report.orderID].price, cancelShares));
      var left := ShrinkBid(report.orderID, cancelShares / 100);
      assert Positions() == old(Positions());
    }

    method CancelSell(report: L.Report)
      requires Valid()
      modifies this
      ensures Valid() && items == old(items)
      ensures View() == L.CancelSell(old(View()), report)
    {
      hide M.Cost, L.ShrinkAsk, L.AskOf, L.Units;
      var cancelShares := report.executedSize * 100;
      TouchAsk(report.orderID);
      var ask := pendingAsks[report.orderID];
      var shortShares := ask.order.size * 100 - ask.reserved;
      var reserved := ask.reserved;
      if cancelShares < shortShares {
        pendingShortCash := pendingShortCash - M.Cost(ask.order.price, cancelShares);
      } else {
        pendingShortCash := pendingShortCash - M.Cost(ask.order.price, shortShares);
        var freed := cancelShares - shortShares;
        pendingShortUnits := pendingShortUnits[report.symbol := L.Units(pendingShortUnits, report.symbol) - freed];
        reserved := reserved - freed;
      }
      var left := ShrinkAsk(report.orderID, cancelShares / 100, reserved);
      TouchedAsk(old(pendingAsks), report.orderID, report.executedSize, ask.reserved - reserved);
      hide L.CancelSell;
      CancelResult(old(View()), View(), report);
    }

    method UpdateWaitingList(report: L.Report)
      modifies this`waitingList
      ensures waitingList == L.UpdateWaiting(old(waitingList), report)
    {
      if report.orderID !in waitingList {
        return;
      }
      var order := waitingList[report.orderID];
      order := order.(executedSize := order.executedSize + report.executedSize);
      if order.executedSize == order.size {
        waitingList := waitingList - {report.orderID};
      } else {
        order := order.(status := if report.status.Canceled? then L.PartiallyFilled else report.status);
        waitingList := waitingList[report.orderID := order];
      }
    }

    /** The settling section of a report, by its status and kind; all but confirmations
        make sure that there is a position to show. */
    method SettleReport(report: L.Report) returns (out: L.Report)
      requires Valid() && L.Processable(View(), report)
      modifies this, summary, items.Values
      ensures Valid() && Grown(old(items)) && fresh(items.Values - old(items.Values))
      ensures View() == L.Settle(old(View()), report)
      ensures out == L.Outgoing(old(View()), report)
    {
      out := report;
      ghost var a, before := View(), items;
      OpenedFirst(a, report);
      hide *;
      if !report.status.New? && !report.status.PendingCancel? {
        OpenPosition(report.symbol);
        assert View() == L.OpenPosition(a, report.symbol);
        assert L.Processable(View(), report);
        assert Grown(before);
        out := BookReport(report);
        assert View() == L.Settle(a, report);
      }
    }

    /** Books a fill or a cancellation against an open position. */
    method BookReport(report: L.Report) returns (out: L.Report)
      requires Valid() && L.Processable(View(), report) && report.symbol in items
      requires !report.status.New? && !report.status.PendingCancel?
      modifies this, summary, items.Values
      ensures Valid() && items == old(items)
      ensures View() == L.Settle(old(View()), report)
      ensures out == L.Outgoing(old(View()), report)
    {
      hide L.FillBuy, L.FillSell, L.CancelBuy, L.CancelSell, L.BuyBookable, L.SellBookable, L.AskOf, L.BidOf;
      out := report;
      if report.status.Filled? {
        hide L.Outgoing;
        if report.kind.IsBuy() {
          out := FillBuy(report);
        } else if report.kind.IsSell() {
          out := FillSell(report);
        }
      } else if report.status.Canceled? {
        hide L.Outgoing;
        if report.kind.CancelBid? {
          CancelBuy(report);
        } else if report.kind.CancelAsk? {
          CancelSell(report);
        }
      }
    }

    /** The noting section of a report. */
    method NoteReport(report: L.Report)
      requires Valid()
      modifies this`waitingList
      ensures View() == old(View()).(waiting := L.UpdateWaiting(old(waitingList), report))
    {
      hide L.UpdateWaiting;
      UpdateWaitingList(report);
      assert Positions() == old(Positions());
    }

    /** One pass of the report thread: settle, then update the waiting list with the
        report as it is passed on to the user. */
    method ProcessExecRpt(report: L.Report) returns (out: L.Report)
      requires Valid() && L.Processable(View(), report)
      modifies this, summary, items.Values
      ensures Valid() && Grown(old(items)) && fresh(items.Values - old(items.Values))
      ensures View() == L.ProcessReport(old(View()), report)
      ensures out == if report.status != L.Filled then report
                     else if report.kind.IsBuy() then
                       report.(currentSize := L.BidOf(pendingBids, report.orderID).size,
                               status := if report.orderID in pendingBids then L.PartiallyFilled else L.Filled)
                     else if report.kind.IsSell() then
                       report.(currentSize := L.AskOf(pendingAsks, report.orderID).order.size,
                               status := if report.orderID in pendingAsks then L.PartiallyFilled else L.Filled)
                     else report
    {
      OutgoingReport(View(), report);
      hide L.Settle, L.Outgoing, L.UpdateWaiting, L.Processable;
      out := SettleReport(report);
      NoteReport(out);
    }

    /** Read section of an order: the position exists from here on, and the buying
        power not promised to short sales is read. */
    method ReadUsable(symbol: string) returns (usable: real)
      requires Valid()
      modifies this`items
      ensures Valid() && Grown(old(items)) && fresh(items.Values - old(items.Values))
      ensures View() == L.OpenPosition(old(View()), symbol) && symbol in items
      ensures usable == L.Usable(View())
    {
      OpenPosition(symbol);
      usable := summary.buyingPower - pendingShortCash;
    }

    /** Last section of an accepted order that is not a cancellation. */
    method EnlistOrder(order: L.Order)
      requires Valid()
      modifies this`waitingList
      ensures View() == L.Enlist(old(View()), order)
    {
      waitingList := waitingList[order.id := order];
      assert Positions() == old(Positions());
    }

    /** One pass of the order thread. */
    method ProcessOrder(order: L.Order, marketPrice: real) returns (success: bool)
      requires Valid()
      modifies this, summary
      ensures Valid() && Grown(old(items)) && fresh(items.Values - old(items.Values))
      ensures var a := L.OpenPosition(old(View()), order.symbol);
              var b := L.CommitOrder(a, order, L.Usable(a), marketPrice);
              && (success <==> L.Accepted(a, order, L.Usable(a), marketPrice))
              && View() == if success && !order.kind.IsCancel() then L.Enlist(b, order) else b
    {
      hide L.OpenPosition, L.Accepted, L.Reserve, L.Usable;
      var usable := ReadUsable(order.symbol);
      success := VerifyOrder(order, usable, marketPrice);
      if success && !order.kind.IsCancel() {
        EnlistOrder(order);
      }
    }

    /** One section of either thread is one event of the state machine; `order`, `usable`
        and `out` are what the threads remember between their sections. */
    method RunSection(event: R.Event, ghost m: R.Machine, order0: L.Order, usable0: real, out0: L.Report)
      returns (order: L.Order, usable: real, out: L.Report)
      requires Valid() && m.account == View() && R.Possible(m, event)
      requires StageIs(m, order0, usable0, out0) && (m.stage.Reading? ==> order0.symbol in items)
      modifies this, summary, items.Values
      ensures Valid() && Grown(old(items)) && fresh(items.Values - old(items.Values))
      ensures View() == R.Step(m, event).account && StageIs(R.Step(m, event), order, usable, out)
      ensures R.Step(m, event).stage.Reading? ==> order.symbol in items
    {
      hide L.OpenPosition, L.Accepted, L.CommitOrder, L.Settle, L.UpdateWaiting, L.Outgoing, L.Usable;
      hide L.Reportable, L.Processable, R.Slippage, R.Lots;
      order, usable, out := order0, usable0, out0;
      match event {
        case ReadOrder(o) =>
          order := o;
          usable := ReadUsable(o.symbol);
        case Commit(marketPrice) =>
          var success := VerifyOrder(order, usable, marketPrice);
        case EnlistOrder =>
          EnlistOrder(order);
        case SettleReport(report) =>
          out := SettleReport(report);
        case NoteReport =>
          NoteReport(out);
      }
    }

    /** Any interleaving of the sections of the two threads takes the account where the
        state machine takes it. */
    method RunSections(events: seq<R.Event>, ghost m: R.Machine)
      requires Valid() && m.account == View() && m.stage.Idle? && m.noting.Free? && R.PossibleRun(m, events)
      modifies this, summary, items.Values
      ensures Valid() && View() == R.Run(m, events).account
    {
      ghost var r := m;
      var order, usable, out := L.NO_ORDER, 0.0, L.Report("", L.Unset, "", 0, 0, 0.0, L.NoStatus);
      var i := 0;
      assert events[0..] == events;
      hide R.Run, R.PossibleRun, R.Possible, R.Step;
      while i < |events|
        invariant 0 <= i <= |events| && Valid() && View() == r.account
        invariant fresh(items.Values - old(items.Values))
        invariant R.PossibleRun(r, events[i..]) && R.Run(r, events[i..]) == R.Run(m, events)
        invariant StageIs(r, order, usable, out) && (r.stage.Reading? ==> order.symbol in items)
      {
        RunsOn(r, events, i);
        order, usable, out := RunSection(events[i], r, order, usable, out);
        r := R.Step(r, events[i]);
        i := i + 1;
      }
      RunsOut(r, events);
    }

    /** Decides by the kind of the order; an accepted order holds its reservation. */
    method VerifyOrder(order: L.Order, usable: real, marketPrice: real) returns (success: bool)
      requires Valid() && order.symbol in items
      modifies this`pendingBids, this`pendingAsks, this`pendingShortCash, this`pendingShortUnits, summary
      ensures success <==> L.Accepted(old(View()), order, usable, marketPrice)
      ensures View() == L.CommitOrder(old(View()), order, usable, marketPrice)
      ensures order.kind == L.MarketBuy ==>
                && (success <==> marketPrice != 0.0 && M.Cost(marketPrice, order.size * 100) < usable)
                && (success ==> order.id in pendingBids && pendingBids[order.id] == order.(price := marketPrice))
      ensures order.kind == L.MarketSell && success ==>
                order.id in pendingAsks && pendingAsks[order.id].order == order.(price := marketPrice)
    {
      success := false;
      match order.kind {
        case LimitBuy | MarketBuy =>
          hide L.Reserve, L.Accepted;
          success := VerifyBuy(order, usable, marketPrice);
        case LimitSell | MarketSell =>
          hide L.Reserve, L.Accepted;
          success := VerifySell(order, usable, marketPrice);
        case CancelBid | CancelAsk =>
          hide L.CancelAccepted;
          success := NamesWaitingOrder(order);
        case _ =>
      }
    }

    method VerifyBuy(order: L.Order, usable: real, marketPrice: real) returns (success: bool)
      requires Valid() && order.symbol in items && order.kind.IsBuy()
      modifies this`pendingBids, summary
      ensures success <==> L.Accepted(old(View()), order, usable, marketPrice)
      ensures View() == if success then L.Reserve(old(View()), order, L.ReservePrice(order, marketPrice))
          else old(View())
      ensures var price := if order.kind.MarketBuy? then marketPrice else order.price;
              var cost := M.Cost(price, order.size * 100);
              && (success <==> price != 0.0 && cost < usable)
              && (success ==>
                    && pendingBids == old(pendingBids)[order.id := order.(price := price)]
                    && summary.buyingPower == old(summary.buyingPower) - cost
                    && summary.holdingBalance == old(summary.holdingBalance) + cost)
    {
      hide M.Cost;
      success := false;
      var price := if order.kind.MarketBuy? then marketPrice else order.price;
      if price != 0.0 {
        success := ReserveForPurchase(order, price, usable);
      }
      assert Positions() == old(Positions());
    }

    method VerifySell(order: L.Order, usable: real, marketPrice: real) returns (success: bool)
      requires Valid() && order.symbol in items && order.kind.IsSell()
      modifies this`pendingAsks, this`pendingShortCash, this`pendingShortUnits
      ensures success <==> L.Accepted(old(View()), order, usable, marketPrice)
      ensures View() == if success then L.Reserve(old(View()), order, L.ReservePrice(order, marketPrice))
          else old(View())
      ensures var price := if order.kind.MarketSell? then marketPrice else order.price;
              var n := order.size * 100;
              var free := items[order.symbol].longShares - L.Units(old(pendingShortUnits), order.symbol);
              && (success <==>
                    price != 0.0
                    && (n <= free || (summary.borrowedBalance < usable && M.Cost(price, n - free) < usable)))
              && (success ==>
                    && order.id in pendingAsks && pendingAsks[order.id].order == order.(price := price)
                    && pendingAsks[order.id].reserved == (if n <= free then n else free)
                    && pendingShortCash == old(pendingShortCash) + M.Cost(price, if n <= free then 0 else n - free))
    {
      hide M.Cost;
      success := false;
      var price := if order.kind.MarketSell? then marketPrice else order.price;
      if price != 0.0 {
        success := ReserveForSale(order, price, usable);
      }
      assert Positions() == old(Positions());
    }

    method NamesWaitingOrder(order: L.Order) returns (success: bool)
      requires order.kind.IsCancel()
      ensures success <==> L.CancelAccepted(waitingList, order)
    {
      success := false;
      if order.id in waitingList {
        var named := waitingList[order.id];
        if (if order.kind.CancelBid? then named.kind.IsBuy() else named.kind.IsSell()) {
          if named.price == order.price {
            success := true;
          }
        }
      }
    }

    method ReserveForPurchase(order: L.Order, price: real, usable: real) returns (success: bool)
      requires Valid() && order.kind.IsBuy()
      modifies this`pendingBids, summary
      ensures success <==> M.Cost(price, order.size * 100) < usable
      ensures success ==>
        && summary.View() == old(summary.View()).(
             buyingPower := old(summary.buyingPower) - M.Cost(price, order.size * 100),
             holding := old(summary.holdingBalance) + M.Cost(price, order.size * 100))
        && pendingBids == old(pendingBids)[order.id := order.(price := price)]
      ensures !success ==> unchanged(this) && unchanged(summary)
    {
      hide M.Cost;
      success := false;
      if M.Cost(price, order.size * 100) < usable {
        summary.HoldBalance(M.Cost(price, order.size * 100));
        pendingBids := pendingBids[order.id := order];
        pendingBids := pendingBids[order.id := pendingBids[order.id].(price := price)];
        success := true;
      }
    }

    method ReserveForSale(order: L.Order, price: real, usable: real) returns (success: bool)
      requires Valid() && order.symbol in items && order.kind.IsSell()
      modifies this`pendingAsks, this`pendingShortCash, this`pendingShortUnits
      ensures var short := order.size * 100
          - (items[order.symbol].longShares - L.Units(old(pendingShortUnits), order.symbol));
              success <==> short <= 0 || (summary.borrowedBalance < usable && M.Cost(price, short) < usable)
      ensures var taken := L.Min(order.size * 100,
          items[order.symbol].longShares - L.Units(old(pendingShortUnits), order.symbol));
              success ==>
                && pendingAsks == old(pendingAsks)[order.id := L.PendingAsk(order.(price := price), taken)]
                && pendingShortCash == old(pendingShortCash) + M.Cost(price, order.size * 100 - taken)
                && pendingShortUnits
                   == old(pendingShortUnits)[order.symbol := L.Units(old(pendingShortUnits), order.symbol) + taken]
      ensures !success ==> unchanged(this)
    {
      hide M.Cost;
      var availableShares := items[order.symbol].longShares - L.Units(pendingShortUnits, order.symbol);
      var shortShares := order.size * 100 - availableShares;
      success := false;
      if shortShares <= 0 {
        M.NoShares(price);
        pendingShortUnits :=
          pendingShortUnits[order.symbol := L.Units(pendingShortUnits, order.symbol) + order.size * 100];
        pendingAsks := pendingAsks[order.id := L.PendingAsk(order.(price := price), order.size * 100)];
        success := true;
      } else if summary.borrowedBalance < usable && M.Cost(price, shortShares) < usable {
        pendingShortCash := pendingShortCash + M.Cost(price, shortShares);
        pendingShortUnits :=
          pendingShortUnits[order.symbol := L.Units(pendingShortUnits, order.symbol) + availableShares];
        pendingAsks := pendingAsks[order.id := L.PendingAsk(order.(price := price), availableShares)];
        success := true;
      }
    }
  }
}
