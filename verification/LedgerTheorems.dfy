/**
 What the brokerage account promises over every run, from the moment it is
 opened: the invariant of the state machine read out property by property.
 */
module LedgerTheorems {
  import opened MapSums
  import opened Reals
  import opened Money
  import opened Ledger
  import opened LedgerInvariant
  import opened LedgerSteps
  import opened LedgerRuns
  import opened LedgerOutcomes
  import opened LedgerHistory
  import opened WaitingList

  /** An account as it is opened, possibly with a stored summary and positions:
      nothing pending, and the borrowed balances add up. */
  ghost predicate Opened(a: Account) {
    && a.bids == map[] && a.asks == map[] && a.shortUnits == map[] && a.shortCash == 0.0
    && a.waiting == map[PLACEHOLDER.id := PLACEHOLDER]
    && PositionsOk(a.positions)
    && BorrowedAgrees(a.summary.borrowed, a.positions)
    && a.summary.buyingPower >= 0.0
  }

  function Start(a: Account): Machine { Machine(a, Idle, Free, 0.0, map[], map[], map[]) }

  lemma OpenedIsInvariant(a: Account)
    requires Opened(a)
    ensures MachineInv(Start(a), a.summary.holding) && ListInv(Start(a))
  {
  }

  lemma Reachable(a: Account, events: seq<Event>)
    requires Opened(a) && PossibleRun(Start(a), events)
    ensures MachineInv(Run(Start(a), events), a.summary.holding) && ListInv(Run(Start(a), events))
    ensures Equity(Run(Start(a), events).account) == Equity(a)
  {
    OpenedIsInvariant(a);
    RunKeeps(Start(a), events, a.summary.holding);
    RunKeepsListed(Start(a), events, a.summary.holding);
  }

  /** Cost-basis accounting identity, over every interleaving of orders and reports. */
  lemma CostBasisIdentity(a: Account, events: seq<Event>)
    requires Opened(a) && PossibleRun(Start(a), events)
    ensures var b := Run(Start(a), events).account;
            (b.summary.buyingPower + b.summary.holding + 2.0 * b.summary.borrowed - b.summary.totalPL
                + Sum(b.positions, CostBasis)
          == a.summary.buyingPower + a.summary.holding + 2.0 * a.summary.borrowed - a.summary.totalPL
              + Sum(a.positions, CostBasis))
  {
    Reachable(a, events);
    hide Sum, Cost, Run, PossibleRun, MachineInv, ListInv;
  }

  /** Usable buying power never falls below minus the slippage suffered so far. */
  lemma UsableCoversAllButSlippage(a: Account, events: seq<Event>)
    requires Opened(a) && PossibleRun(Start(a), events)
    ensures var m := Run(Start(a), events);
            m.account.summary.buyingPower - m.account.shortCash >= -m.slippage
  {
    Reachable(a, events);
    hide Sum, Cost, Run, PossibleRun, Sound, ListInv;
  }

  /** No fill that needs cash executes above the price reserved for its order: a
      purchase, or a sale of more shares than are reserved for it. */
  predicate FillsWithinReserve(m: Machine, events: seq<Event>)
    requires PossibleRun(m, events)
    decreases |events|
  {
    events == [] ||
    ((events[0].SettleReport? && events[0].report.status.Filled? ==> WithinReserve(m.account, events[0].report))
     && FillsWithinReserve(Step(m, events[0]), events[1..]))
  }

  predicate WithinReserve(a: Account, r: Report)
    requires Reportable(a, r) && r.status.Filled?
  {
    if r.kind.IsBuy() then r.price <= a.bids[r.orderID].price
    else r.executedSize * 100 <= a.asks[r.orderID].reserved || r.price <= a.asks[r.orderID].order.price
  }

  lemma WithinReserveCostsNothing(a: Account, r: Report)
    requires Reportable(a, r)
    ensures r.status.Filled? && WithinReserve(a, r) ==> Slippage(a, r) == 0.0
  {
  }

  lemma {:induction false} NoSlippage(m: Machine, events: seq<Event>)
    requires PossibleRun(m, events) && FillsWithinReserve(m, events)
    ensures Run(m, events).slippage == m.slippage
    decreases |events|
  {
    if events != [] {
      NoSlippage(Step(m, events[0]), events[1..]);
      if events[0].SettleReport? {
        WithinReserveCostsNothing(m.account, events[0].report);
      }
      hide CommitOrder, Settle, Outgoing, UpdateWaiting, OpenPosition, Submittable, WithinReserve;
      assert Step(m, events[0]).slippage == m.slippage;
    }
  }

  /** Without such a fill an account never runs out of usable buying power. */
  lemma UsableStaysNonNegative(a: Account, events: seq<Event>)
    requires Opened(a) && PossibleRun(Start(a), events) && FillsWithinReserve(Start(a), events)
    ensures Usable(Run(Start(a), events).account) >= 0.0
  {
    UsableCoversAllButSlippage(a, events);
    NoSlippage(Start(a), events);
    hide Run, PossibleRun, FillsWithinReserve;
  }

  /** Reserved cash and reserved shares are exactly what the live orders need. */
  lemma ReservationsMatchPendingOrders(a: Account, events: seq<Event>)
    requires Opened(a) && PossibleRun(Start(a), events)
    ensures var b := Run(Start(a), events).account;
            && b.summary.holding == a.summary.holding + Sum(b.bids, BidCost)
            && b.shortCash == Sum(b.asks, AskShortCash)
            && forall s :: Units(b.shortUnits, s) as real == Sum(b.asks, ReservedIn(s))
  {
    Reachable(a, events);
    hide Sum, Cost, Run, PossibleRun, ListInv;
  }

  /** No long share is promised twice, and no share count ever goes negative. */
  lemma NoShareIsPromisedTwice(a: Account, events: seq<Event>, s: string)
    requires Opened(a) && PossibleRun(Start(a), events)
    ensures var b := Run(Start(a), events).account;
            && 0 <= Units(b.shortUnits, s) <= Long(b.positions, s)
            && (s in b.positions ==> PositionOk(b.positions[s]))
  {
    Reachable(a, events);
    hide Sum, Cost, Run, PossibleRun, ListInv;
  }

  /** The summary's borrowed balance is the sum over the positions. */
  lemma BorrowedIsTheSumOverPositions(a: Account, events: seq<Event>)
    requires Opened(a) && PossibleRun(Start(a), events)
    ensures var b := Run(Start(a), events).account;
            b.summary.borrowed == Sum(b.positions, Borrowed)
  {
    Reachable(a, events);
    hide Sum, Cost, Run, PossibleRun, ListInv;
  }

  // ----- what a run adds up to ---------------------------------------------

  /** The traded shares shown are those of all fills so far, purchases and sales alike. */
  lemma TotalSharesAreTraded(a: Account, events: seq<Event>)
    requires Opened(a) && PossibleRun(Start(a), events)
    ensures Run(Start(a), events).account.summary.totalShares == a.summary.totalShares + Traded(events)
  {
    OpenedIsInvariant(a);
    hide MachineInv, ListInv, Opened, Traded;
    RunAdds(Start(a), events, a.summary.holding, "");
  }

  /** Conservation of shares: long less short shares of a symbol are those the account was
      opened with, and those bought less those sold. */
  lemma SharesAreConserved(a: Account, events: seq<Event>, s: string)
    requires Opened(a) && PossibleRun(Start(a), events)
    ensures Net(Run(Start(a), events).account.positions, s) == Net(a.positions, s) + NetBought(events, s)
  {
    OpenedIsInvariant(a);
    hide MachineInv, ListInv, Opened, NetBought, Net;
    RunAdds(Start(a), events, a.summary.holding, s);
  }

  /** The total gain moves with the gains of the positions. */
  lemma GainsAddUp(a: Account, events: seq<Event>)
    requires Opened(a) && PossibleRun(Start(a), events)
    ensures var b := Run(Start(a), events).account;
            b.summary.totalPL - a.summary.totalPL == Sum(b.positions, Gain) - Sum(a.positions, Gain)
  {
    OpenedIsInvariant(a);
    RunAdds(Start(a), events, a.summary.holding, "");
    hide MachineInv, ListInv, Opened, Sum, Run, PossibleRun;
  }

  /** In an account opened so, a side of a position has a price exactly when it has
      shares, and no price is negative. */
  lemma PriceIffShares(a: Account, events: seq<Event>, s: string)
    requires Opened(a) && PossibleRun(Start(a), events) && AllPriced(a.positions)
    requires s in Run(Start(a), events).account.positions
    ensures var p := Run(Start(a), events).account.positions[s];
            && p.longPrice >= 0.0 && (p.longPrice == 0.0 <==> p.longShares == 0)
            && p.shortPrice >= 0.0 && (p.shortPrice == 0.0 <==> p.shortShares == 0)
  {
    OpenedIsInvariant(a);
    hide MachineInv, ListInv, Opened, Run;
    RunKeepsPriced(Start(a), events, a.summary.holding);
    assert Priced(Run(Start(a), events).account.positions[s]);
  }

  // ----- orders and reports on their way ------------------------------------

  /** A pending order is the order as it was submitted but for its size and price: a limit
      order stands at its own price, a market order at the one quoted at its commit. */
  lemma PendingAsCommitted(a: Account, events: seq<Event>, id: string)
    requires Opened(a) && PossibleRun(Start(a), events)
    ensures var m := Run(Start(a), events);
            id in m.account.bids || id in m.account.asks ==>
              && id in m.submitted && id in m.quotes
              && var o, quote := m.submitted[id], m.quotes[id];
                 var pending := if id in m.account.bids then m.account.bids[id] else m.account.asks[id].order;
                 && pending.price == (if o.kind == MarketBuy || o.kind == MarketSell then quote else o.price)
                 && pending == o.(size := pending.size, price := pending.price)
  {
    Reachable(a, events);
    assert ListedAt(Run(Start(a), events), id);
    hide Run, PossibleRun, MachineInv, ListInv, Balanced, Unseen;
  }

  /** The user is told what is left of the order that a fill names, and that it is filled
      exactly when nothing is; any other report is passed on as it came. */
  lemma ReportTellsWhatIsLeft(a: Account, events: seq<Event>, r: Report)
    requires Opened(a) && PossibleRun(Start(a), events) && Possible(Run(Start(a), events), SettleReport(r))
    ensures var m := Run(Start(a), events);
            var next := Step(m, SettleReport(r));
            var left := Remaining(m.account, r.orderID) - r.executedSize;
            && Remaining(next.account, r.orderID) == left
            && next.noting == Noting(
                 if r.status != Filled then r
                 else r.(currentSize := left, status := if left == 0 then Filled else PartiallyFilled))
            && (r.status == Filled ==>
                  (left == 0 <==> r.orderID !in next.account.bids && r.orderID !in next.account.asks))
  {
    Reachable(a, events);
    var m := Run(Start(a), events);
    assert ListedAt(m, r.orderID);
    assert Consistent(m, r.orderID);
    SettledStep(m, r);
    hide *;
    LeftAfterFill(m, a.summary.holding, r);
  }

  lemma SettledStep(m: Machine, r: Report)
    requires Possible(m, SettleReport(r))
    ensures Processable(m.account, r)
    ensures var next := Step(m, SettleReport(r));
            next.account == Settle(m.account, r) && next.noting == Noting(Outgoing(m.account, r))
  {
    hide Settle, Outgoing, Slippage, Reportable, Processable;
  }

  lemma LeftAfterFill(m: Machine, base: real, r: Report)
    requires MachineInv(m, base) && Consistent(m, r.orderID) && Possible(m, SettleReport(r))
    ensures var b, left := Settle(m.account, r), Remaining(m.account, r.orderID) - r.executedSize;
            && Remaining(b, r.orderID) == left
            && Outgoing(m.account, r) ==
                 (if r.status != Filled then r
                  else r.(currentSize := left, status := if left == 0 then Filled else PartiallyFilled))
            && (r.status == Filled ==> (left == 0 <==> r.orderID !in b.bids && r.orderID !in b.asks))
  {
    var a := m.account;
    SettleShrinks(a, base, r, r.orderID);
    SettleKeeps(a, base, r);
    var b := Settle(a, r);
    assert r.orderID in b.bids ==> BidOk(r.orderID, b.bids[r.orderID]);
    assert r.orderID in b.asks ==> AskOk(r.orderID, b.asks[r.orderID]);
    hide Sound, Settle, Consistent, BidOk, AskOk, Equity, Processable;
  }

  // ----- the waiting list --------------------------------------------------

  /** Conservation of lots: what the list has not seen executed, with what is still to
      be listed, is what is pending, on its way to the list, or lost. */
  lemma LotsAreConserved(a: Account, events: seq<Event>, id: string)
    requires Opened(a) && PossibleRun(Start(a), events) && id != PLACEHOLDER.id
    ensures var m := Run(Start(a), events);
            Unfinished(m.account, id) + Unlisted(m, id)
                == Remaining(m.account, id) + InTransit(m, id) + Lots(m.lost, id)
  {
    Reachable(a, events);
    var m := Run(Start(a), events);
    assert ListedAt(m, id);
    hide Run, PossibleRun, MachineInv, ListInv, Unfinished, Unlisted, Remaining, InTransit, Lots;
  }

  /** While nothing is on its way for an id, the list agrees with the pending orders
      about it if and only if its order was listed before any report of it that executes
      something was noted. */
  lemma WaitingListMatchesPendingOrders(a: Account, events: seq<Event>, id: string)
    requires Opened(a) && PossibleRun(Start(a), events) && id != PLACEHOLDER.id
    requires Quiet(Run(Start(a), events), id)
    ensures MatchesAt(Run(Start(a), events).account, id) <==> ListedFirst(Start(a), events, id)
  {
    OpenedIsInvariant(a);
    MatchesIffListedFirst(Start(a), events, a.summary.holding, id);
  }

  /** In particular the list agrees with the pending orders whenever reports are noted
      between orders only. */
  lemma WholeOrdersMatch(a: Account, events: seq<Event>, id: string)
    requires Opened(a) && PossibleRun(Start(a), events) && NotesBetweenOrders(Start(a), events)
    requires id != PLACEHOLDER.id && Quiet(Run(Start(a), events), id)
    ensures MatchesAt(Run(Start(a), events).account, id)
  {
    BetweenOrdersListsFirst(Start(a), events, id);
    WaitingListMatchesPendingOrders(a, events, id);
  }

  lemma Unroll(m: Machine, e: Event, rest: seq<Event>)
    requires Possible(m, e) && PossibleRun(Step(m, e), rest)
    ensures PossibleRun(m, [e] + rest) && Run(m, [e] + rest) == Run(Step(m, e), rest)
  {
    assert ([e] + rest)[1..] == rest;
    hide Possible, Step;
  }

  /** An accepted limit purchase in a freshly opened account, committed and not listed. */
  lemma FirstPurchase(a: Account, o: Order) returns (m: Machine)
    requires Opened(a) && Submittable(o) && o.kind.LimitBuy? && Accepted(a, o, Usable(a), 0.0)
    ensures Possible(Start(a), ReadOrder(o)) && Possible(Step(Start(a), ReadOrder(o)), Commit(0.0))
    ensures m == Step(Step(Start(a), ReadOrder(o)), Commit(0.0))
    ensures m.stage == Enlisting(o) && m.noting.Free? && m.account.bids == map[o.id := o] && m.account.asks == map[]
    ensures o.id !in m.account.waiting && m.lost == map[] && Sound(m.account, a.summary.holding)
  {
    var m1 := Step(Start(a), ReadOrder(o));
    m := Step(m1, Commit(0.0));
    OpenedIsInvariant(a);
    StepKeeps(Start(a), ReadOrder(o), a.summary.holding);
    StepKeeps(m1, Commit(0.0), a.summary.holding);
    assert Usable(m1.account) == Usable(a);
    hide Sound, Equity, ListInv, Cost;
  }

  /** All of it filled at once, and its report still to be noted. */
  predicate FilledUnlisted(m: Machine, o: Order) {
    && m.stage == Enlisting(o) && m.noting.Noting? && m.lost == map[]
    && m.noting.report.orderID == o.id && m.noting.report.executedSize == o.size
    && m.account.bids == map[] && m.account.asks == map[] && o.id !in m.account.waiting
  }

  lemma FilledAtOnce(m: Machine, base: real, o: Order, r: Report)
    requires Sound(m.account, base) && m.stage == Enlisting(o) && m.noting.Free? && m.lost == map[]
    requires m.account.bids == map[o.id := o] && m.account.asks == map[] && o.id !in m.account.waiting
    requires o.size > 0 && o.kind.LimitBuy? && r == Report(o.id, LimitBuy, o.symbol, 0, o.size, r.price, Filled)
    requires r.price > 0.0
    ensures Possible(m, SettleReport(r)) && FilledUnlisted(Step(m, SettleReport(r)), o)
  {
    LivePosition(m.account, base, r);
    hide Sound, BuyPosition, BuySummary, Slippage, Cost;
  }

  lemma NotedTooSoon(m: Machine, o: Order)
    requires FilledUnlisted(m, o)
    ensures Possible(m, NoteReport) && Possible(Step(m, NoteReport), EnlistOrder)
    ensures StaysListed(Step(Step(m, NoteReport), EnlistOrder), o)
  {
  }

  /** Filled at once and noted before it is listed, it stays on the list. */
  lemma OvertakenPurchase(m: Machine, base: real, o: Order, price: real)
    requires Sound(m.account, base) && m.stage == Enlisting(o) && m.noting.Free? && m.lost == map[]
    requires m.account.bids == map[o.id := o] && m.account.asks == map[] && o.id !in m.account.waiting
    requires o.size > 0 && o.kind.LimitBuy? && price > 0.0
    ensures var r := Report(o.id, LimitBuy, o.symbol, 0, o.size, price, Filled);
            && PossibleRun(m, [SettleReport(r), NoteReport, EnlistOrder])
            && StaysListed(Run(m, [SettleReport(r), NoteReport, EnlistOrder]), o)
  {
    var r := Report(o.id, LimitBuy, o.symbol, 0, o.size, price, Filled);
    FilledAtOnce(m, base, o, r);
    var m1 := Step(m, SettleReport(r));
    NotedTooSoon(m1, o);
    var m2 := Step(m1, NoteReport);
    var m3 := Step(m2, EnlistOrder);
    hide Step, Possible, StaysListed, Sound, FilledUnlisted;
    Unroll(m2, EnlistOrder, []);
    Unroll(m1, NoteReport, [EnlistOrder]);
    Unroll(m, SettleReport(r), [NoteReport, EnlistOrder]);
    assert [EnlistOrder] + [] == [EnlistOrder];
    assert [NoteReport] + [EnlistOrder] == [NoteReport, EnlistOrder];
    assert [SettleReport(r)] + [NoteReport, EnlistOrder] == [SettleReport(r), NoteReport, EnlistOrder];
  }

  predicate StaysListed(m: Machine, o: Order) {
    && Quiet(m, o.id) && o.id in m.account.waiting && o.id !in m.account.bids && o.id !in m.account.asks
    && Lots(m.lost, o.id) == o.size
  }

  /** What an overtaken report leaves behind, in any account that can afford it: an order
      that is filled at once and noted before it is listed stays on the list for good,
      though nothing of it is pending. */
  lemma OvertakenOrderStays(a: Account, o: Order, price: real) returns (events: seq<Event>)
    requires Opened(a) && Submittable(o) && o.kind.LimitBuy? && price > 0.0
    requires Accepted(a, o, Usable(a), 0.0)
    ensures PossibleRun(Start(a), events) && StaysListed(Run(Start(a), events), o)
  {
    var m := FirstPurchase(a, o);
    OvertakenPurchase(m, a.summary.holding, o, price);
    var r := Report(o.id, LimitBuy, o.symbol, 0, o.size, price, Filled);
    hide Opened, Accepted, Step, Possible, PossibleRun, Run, StaysListed, Sound, Usable;
    events := [SettleReport(r), NoteReport, EnlistOrder];
    Unroll(Step(Start(a), ReadOrder(o)), Commit(0.0), events);
    events := [Commit(0.0)] + events;
    Unroll(Start(a), ReadOrder(o), events);
    events := [ReadOrder(o)] + events;
  }

  // ----- cancellations -----------------------------------------------------

  /** While nothing is on its way for its id and its order was listed first, a
      cancellation is accepted exactly when it names a live order of its side at the price
      that order was submitted with; a limit order is pending at that price. */
  lemma AcceptedCancelNamesALiveOrder(a: Account, events: seq<Event>, o: Order, usable: real, marketPrice: real)
    requires Opened(a) && PossibleRun(Start(a), events) && o.kind.IsCancel() && o.id != PLACEHOLDER.id
    requires Quiet(Run(Start(a), events), o.id) && ListedFirst(Start(a), events, o.id)
    ensures var m := Run(Start(a), events);
            && (Accepted(m.account, o, usable, marketPrice) <==> NamesLiveOrder(m, o))
            && (NamesLiveOrder(m, o) && (m.submitted[o.id].kind.LimitBuy? || m.submitted[o.id].kind.LimitSell?) ==>
                  PendingPrice(m.account, o) == o.price)
  {
    Reachable(a, events);
    OpenedIsInvariant(a);
    NothingLostIffListedFirst(Start(a), events, a.summary.holding, o.id);
    var m := Run(Start(a), events);
    assert ListedAt(m, o.id);
    hide Run, PossibleRun, ListedFirst, MachineInv, ListInv, Accepted, ListedAt, Opened;
    AcceptedIffLive(m, a.summary.holding, o, usable, marketPrice);
  }

  /** The placeholder is accepted, at any moment of any run, exactly as a bid
      cancellation at price 0. */
  lemma AcceptedPlaceholderCancel(a: Account, events: seq<Event>, o: Order, usable: real, marketPrice: real)
    requires Opened(a) && PossibleRun(Start(a), events) && o.kind.IsCancel() && o.id == PLACEHOLDER.id
    ensures var b := Run(Start(a), events).account;
            Accepted(b, o, usable, marketPrice) <==> o.id in b.waiting && o.kind.CancelBid? && o.price == 0.0
  {
    Reachable(a, events);
    var m := Run(Start(a), events);
    assert ListedAt(m, o.id);
    hide Run, PossibleRun, MachineInv, ListInv, Accepted, ListedAt, Opened;
    PlaceholderIsAccepted(m, o, usable, marketPrice);
  }

  /** At any moment of any run an accepted cancellation names lots that are pending, on
      their way to the list, or lost. */
  lemma AcceptedCancelIsAccountedFor(a: Account, events: seq<Event>, o: Order, usable: real, marketPrice: real)
    requires Opened(a) && PossibleRun(Start(a), events) && o.kind.IsCancel() && o.id != PLACEHOLDER.id
    requires Accepted(Run(Start(a), events).account, o, usable, marketPrice)
    ensures var m := Run(Start(a), events);
            Remaining(m.account, o.id) + InTransit(m, o.id) + Lots(m.lost, o.id) >= 1
  {
    Reachable(a, events);
    var m := Run(Start(a), events);
    assert ListedAt(m, o.id);
    hide Run, PossibleRun, MachineInv, ListInv, Accepted, ListedAt;
    AcceptedIsAccountedFor(m, o, usable, marketPrice);
  }

  /** The placeholder can be "cancelled" in a freshly opened account, with any symbol and
      size: no live order is named. */
  lemma PlaceholderCancelIsAccepted(a: Account, symbol: string, size: int, usable: real, marketPrice: real)
    requires Opened(a) && size > 0
    ensures Accepted(a, Order(CancelBid, symbol, size, 0, 0.0, PLACEHOLDER.id, PendingNew), usable, marketPrice)
  {
  }

  // ----- borrowed balances in cents ----------------------------------------

  predicate ClearedTogether(p: Position) {
    WholeCents(p.borrowed) && (p.borrowed == 0.0 <==> p.shortShares == 0)
  }

  predicate AllCleared(positions: map<string, Position>) {
    forall s :: s in positions ==> ClearedTogether(positions[s])
  }

  lemma IntegerCents(x: real, i: int)
    requires x * 100.0 == i as real
    ensures WholeCents(x)
  {
    assert (x * 100.0).Floor == i;
  }

  lemma WholeCentsClosed(x: real, y: real)
    requires WholeCents(x) && WholeCents(y)
    ensures WholeCents(x + y) && WholeCents(x - y)
  {
    var i, j := (x * 100.0).Floor, (y * 100.0).Floor;
    assert x * 100.0 == i as real && y * 100.0 == j as real;
    hide WholeCents;
    IntegerCents(x + y, i + j);
    IntegerCents(x - y, i - j);
  }

  lemma WholeCentsScaled(x: real, n: int)
    requires WholeCents(x)
    ensures WholeCents(Cost(x, n))
  {
    var i := (x * 100.0).Floor;
    assert x * 100.0 == i as real;
    hide WholeCents;
    assert (x * n as real) * 100.0 == (x * 100.0) * n as real;
    CastProduct(i, n);
    IntegerCents(x * n as real, i * n);
  }

  lemma CastProduct(i: int, n: int)
    ensures i as real * n as real == (i * n) as real
  {
  }

  lemma FloorCentsIsWhole(x: real)
    ensures WholeCents(FloorCents(x))
  {
    IntegerCents(FloorCents(x), (x * 100.0).Floor);
  }

  /** Buying back x of s short shares keeps, in cents, the proportional part of the
      borrowed balance rounded up: b*(s-x) <= b'*s < b*(s-x) + s. */
  lemma PartialBuyBack(p: Position, price: real, shares: int)
    requires PositionOk(p) && 0 < shares <= p.shortShares
    ensures var s := p.shortShares as real;
            var kept := (p.shortShares - shares) as real;
            var b := p.borrowed * 100.0;
            var b' := BuyPosition(p, price, shares).borrowed * 100.0;
            b * kept <= b' * s < b * kept + s
  {
    var ret := FloorCents(Proportion(p.borrowed, shares, p.shortShares));
    FloorOfProportion(p.borrowed, shares, p.shortShares);
    FloorOfProportionIsClose(p.borrowed, shares, p.shortShares);
    BuyBorrowed(p, price, shares);
    hide FloorCents, Proportion, BuyGain;
    assert BuyPosition(p, price, shares).borrowed == p.borrowed - ret;
    hide BuyPosition;
    KeptBounds(p.borrowed, ret, p.borrowed - ret, shares as real, p.shortShares as real);
  }

  lemma FloorOfProportion(amount: real, part: int, whole: int)
    requires amount >= 0.0 && 0 < part <= whole
    ensures FloorCents(Proportion(amount, part, whole)) * whole as real <= amount * part as real
  {
    var due := Proportion(amount, part, whole);
    ProportionBounds(amount, part, whole);
    FloorCentsBounds(due);
    hide FloorCents, Proportion;
    MulMonotone(FloorCents(due), due, whole as real);
  }

  lemma FloorOfProportionIsClose(amount: real, part: int, whole: int)
    requires amount >= 0.0 && 0 < part <= whole
    ensures amount * part as real < (FloorCents(Proportion(amount, part, whole)) + 0.01) * whole as real
  {
    var due := Proportion(amount, part, whole);
    ProportionBounds(amount, part, whole);
    FloorCentsBounds(due);
    hide FloorCents, Proportion;
    MulStrictlyMonotone(due, FloorCents(due) + 0.01, whole as real);
  }

  lemma KeptBounds(b: real, ret: real, left: real, x: real, s: real)
    requires ret * s <= b * x && b * x < (ret + 0.01) * s && left == b - ret
    ensures b * 100.0 * (s - x) <= left * 100.0 * s
    ensures left * 100.0 * s < b * 100.0 * (s - x) + s
  {
    MulAdd(ret, 0.01, s);
    assert left * 100.0 * s == 100.0 * (b * s) - 100.0 * (ret * s);
    assert b * 100.0 * (s - x) == 100.0 * (b * s) - 100.0 * (b * x);
  }

  /** Buying back every short share leaves nothing borrowed exactly when the
      borrowed balance was a whole number of cents. */
  lemma FullBuyBackClears(p: Position, price: real)
    requires PositionOk(p) && p.shortShares > 0
    ensures BuyPosition(p, price, p.shortShares).borrowed == 0.0 <==> WholeCents(p.borrowed)
  {
    ProportionBounds(p.borrowed, p.shortShares, p.shortShares);
    BuyBorrowed(p, price, p.shortShares);
    hide FloorCents, Proportion, BuyGain;
  }

  /** A short sale that is bought back share for share leaves nothing borrowed
      exactly when its proceeds were a whole number of cents. */
  lemma ShortRoundTrip(p: Position, price: real, shares: int, q: Position)
    requires PositionOk(p) && p.shortShares == 0 && p.borrowed == 0.0 && price > 0.0 && shares > 0
    requires q == SellPosition(p, price, shares, 0)
    ensures q.shortShares == shares && PositionOk(q)
    ensures BuyPosition(q, price, shares).shortShares == 0
    ensures BuyPosition(q, price, shares).borrowed == 0.0 <==> WholeCents(Cost(price, shares))
  {
    SellBorrowed(p, price, shares, 0);
    SellPositionOk(p, price, shares, 0);
    hide Cost, Average, WholeCents, BuyGain, SellGain, Returned;
    FullBuyBackClears(q, price);
  }

  /** At a thousandth of a cent a share, selling one lot short and buying it back at the
      same price leaves a position without short shares that still owes money.  The
      client library rounds order prices to cents, but executions need not keep to them. */
  lemma TinyPriceLeavesDebt(p: Position, price: real)
    requires PositionOk(p) && p.shortShares == 0 && p.borrowed == 0.0 && price == 0.00001
    ensures var q := SellPosition(p, price, 100, 0);
            PositionOk(q) && BuyPosition(q, price, 100).shortShares == 0 && BuyPosition(q, price, 100).borrowed > 0.0
  {
    var q := SellPosition(p, price, 100, 0);
    assert Cost(price, 100) == 0.001;
    assert (0.001 * 100.0).Floor == 0;
    assert !WholeCents(Cost(price, 100));
    ShortRoundTrip(p, price, 100, q);
    hide WholeCents, Average, Returned, Cost;
    BuyPositionOk(q, price, 100);
  }

  lemma BuyPartKeepsCleared(p: Position, price: real, shares: int)
    requires PositionOk(p) && ClearedTogether(p) && 0 < shares < p.shortShares
    ensures ClearedTogether(BuyPosition(p, price, shares))
  {
    var due := Proportion(p.borrowed, shares, p.shortShares);
    FloorCentsIsWhole(due);
    FloorCentsBounds(due);
    hide FloorCents, BuyGain;
    WholeCentsClosed(p.borrowed, FloorCents(due));
    ProportionBounds(p.borrowed, shares, p.shortShares);
    BuyBorrowed(p, price, shares);
    hide WholeCents, Proportion;
    assert BuyPosition(p, price, shares).borrowed == p.borrowed - FloorCents(due);
  }

  lemma BuyKeepsCleared(p: Position, price: real, shares: int)
    requires PositionOk(p) && ClearedTogether(p) && shares > 0
    ensures ClearedTogether(BuyPosition(p, price, shares))
  {
    assert WholeCents(0.0);
    BuyBorrowed(p, price, shares);
    hide FloorCents, WholeCents;
    if 0 < shares < p.shortShares {
      BuyPartKeepsCleared(p, price, shares);
    } else if shares == p.shortShares {
      FullBuyBackClears(p, price);
    }
  }

  /** A sale keeps a position cleared exactly when the proceeds of the shares sold short
      are whole cents. */
  lemma SellClearedIff(p: Position, price: real, shares: int, reserved: int)
    requires PositionOk(p) && ClearedTogether(p) && shares > 0 && reserved >= 0 && price > 0.0
    ensures ClearedTogether(SellPosition(p, price, shares, reserved))
        <==> WholeCents(Cost(price, shares - Sold(shares, reserved)))
  {
    SellBorrowed(p, price, shares, reserved);
    var shorted := shares - Sold(shares, reserved);
    var owed := Cost(price, shorted);
    var left := SellPosition(p, price, shares, reserved).borrowed;
    CostNonNegative(price, shorted);
    NoShares(price);
    if WholeCents(owed) { WholeCentsClosed(p.borrowed, owed); }
    if WholeCents(left) { WholeCentsClosed(left, p.borrowed); }
    hide Cost, FloorCents, WholeCents, Average, SellGain;
    assert left == p.borrowed + owed;
  }

  predicate ShortInCents(a: Account, r: Report)
    requires Reportable(a, r)
  {
    r.status.Filled? && r.kind.IsSell() ==>
      var n := r.executedSize * 100;
      WholeCents(Cost(r.price, n - Sold(n, a.asks[r.orderID].reserved)))
  }

  lemma ClearedButFor(positions: map<string, Position>, s: string, p: Position)
    requires AllCleared(positions)
    ensures AllCleared(positions[s := p]) <==> ClearedTogether(p)
  {
    hide ClearedTogether;
    assert positions[s := p][s] == p;
  }

  lemma PurchaseKeepsCleared(a: Account, r: Report)
    requires BuyBookable(a, r) && AllCleared(a.positions) && PositionOk(a.positions[r.symbol]) && r.executedSize >= 1
    ensures AllCleared(FillBuy(a, r).positions)
  {
    var p, n := a.positions[r.symbol], r.executedSize * 100;
    hide ClearedTogether, AllCleared, BuyPosition, BuySummary;
    assert ClearedTogether(p) by { IsCleared(a.positions, r.symbol); }
    BuyKeepsCleared(p, r.price, n);
    ClearedButFor(a.positions, r.symbol, BuyPosition(p, r.price, n));
  }

  lemma IsCleared(positions: map<string, Position>, s: string)
    requires AllCleared(positions) && s in positions
    ensures ClearedTogether(positions[s])
  {
  }

  lemma SaleClearedIff(a: Account, r: Report)
    requires SellBookable(a, r) && AllCleared(a.positions) && PositionOk(a.positions[r.symbol]) && r.executedSize >= 1
    requires r.orderID in a.asks && a.asks[r.orderID].reserved >= 0 && r.price > 0.0
    ensures var n := r.executedSize * 100;
            var shorted := n - Sold(n, a.asks[r.orderID].reserved);
            AllCleared(FillSell(a, r).positions) <==> WholeCents(Cost(r.price, shorted))
  {
    var p, n, reserved := a.positions[r.symbol], r.executedSize * 100, a.asks[r.orderID].reserved;
    hide ClearedTogether, AllCleared, SellPosition, SellSummary, WholeCents, Cost, Sold;
    assert ClearedTogether(p) by { IsCleared(a.positions, r.symbol); }
    SellClearedIff(p, r.price, n, reserved);
    ClearedButFor(a.positions, r.symbol, SellPosition(p, r.price, n, reserved));
  }

  /** A report keeps every position cleared exactly when it sells nothing short for
      fractions of a cent. */
  lemma SettleClearedIff(a: Account, base: real, r: Report)
    requires Sound(a, base) && AllCleared(a.positions) && Reportable(a, r) && Processable(a, r)
    ensures AllCleared(Settle(a, r).positions) <==> ShortInCents(a, r)
  {
    LivePosition(a, base, r);
    if r.status.Filled? {
      assert PositionOk(a.positions[r.symbol]);
      assert r.orderID in a.asks ==> AskOk(r.orderID, a.asks[r.orderID]);
      hide Sound, AllCleared, FillBuy, FillSell, WholeCents, Cost, Sold;
      if r.kind.IsBuy() { PurchaseKeepsCleared(a, r); } else { SaleClearedIff(a, r); }
    } else {
      hide Sound, ClearedTogether, Shrink, ShrinkAsk, Cost, Min, Units, WholeCents;
      EmptyIsCleared();
    }
  }

  lemma EmptyIsCleared()
    ensures ClearedTogether(EMPTY_POSITION)
  {
  }

  lemma StepClearedIff(m: Machine, e: Event, base: real)
    requires MachineInv(m, base) && Possible(m, e) && AllCleared(m.account.positions)
    ensures AllCleared(Step(m, e).account.positions) <==> (e.SettleReport? ==> ShortInCents(m.account, e.report))
  {
    hide Sound, Settle, Reportable, Processable, Submittable, ClearedTogether, ShortInCents;
    EmptyIsCleared();
    match e
    case SettleReport(r) => SettleClearedIff(m.account, base, r);
    case _ =>
  }

  /** Every position is cleared at every moment of the run. */
  predicate ClearedThroughout(m: Machine, events: seq<Event>)
    requires PossibleRun(m, events)
    decreases |events|
  {
    AllCleared(m.account.positions) && (events == [] || ClearedThroughout(Step(m, events[0]), events[1..]))
  }

  /** Every sale brings whole cents for the shares it sells short. */
  predicate ShortProceedsInCents(m: Machine, events: seq<Event>)
    requires PossibleRun(m, events)
    decreases |events|
  {
    events == [] ||
    ((events[0].SettleReport? ==> ShortInCents(m.account, events[0].report))
     && ShortProceedsInCents(Step(m, events[0]), events[1..]))
  }

  lemma {:induction false} RunClearedIff(m: Machine, events: seq<Event>, base: real)
    requires MachineInv(m, base) && PossibleRun(m, events) && AllCleared(m.account.positions)
    ensures ClearedThroughout(m, events) <==> ShortProceedsInCents(m, events)
    decreases |events|
  {
    if events != [] {
      var next := Step(m, events[0]);
      StepKeeps(m, events[0], base);
      StepClearedIff(m, events[0], base);
      hide MachineInv, Step, AllCleared, ShortInCents;
      if AllCleared(next.account.positions) {
        RunClearedIff(next, events[1..], base);
      }
    }
  }

  /** Throughout a run every position owes whole cents, and nothing exactly when it has
      no short shares, if and only if every sale brings whole cents for the shares it
      sells short. */
  lemma NothingBorrowedIffNothingShort(a: Account, events: seq<Event>)
    requires Opened(a) && PossibleRun(Start(a), events) && AllCleared(a.positions)
    ensures ClearedThroughout(Start(a), events) <==> ShortProceedsInCents(Start(a), events)
  {
    OpenedIsInvariant(a);
    RunClearedIff(Start(a), events, a.summary.holding);
  }

  /** Every sale executes at a whole number of cents. */
  predicate SalesPricedInCents(events: seq<Event>) {
    forall i :: 0 <= i < |events| && IsSale(events[i]) ==> WholeCents(events[i].report.price)
  }

  predicate IsSale(e: Event) { e.SettleReport? && e.report.status.Filled? && e.report.kind.IsSell() }

  lemma {:induction false} WholePricesBringWholeCents(m: Machine, events: seq<Event>)
    requires PossibleRun(m, events) && SalesPricedInCents(events)
    ensures ShortProceedsInCents(m, events)
    decreases |events|
  {
    if events != [] {
      if IsSale(events[0]) {
        var r := events[0].report;
        var n := r.executedSize * 100;
        WholeCentsScaled(r.price, n - Sold(n, m.account.asks[r.orderID].reserved));
      }
      assert forall i :: 0 <= i < |events[1..]| ==> events[1..][i] == events[i + 1];
      hide WholeCents, Cost, Step;
      WholePricesBringWholeCents(Step(m, events[0]), events[1..]);
    }
  }

  /** With every sale at a whole number of cents, a position owes nothing exactly when it
      has no short shares, at every moment of the run. */
  lemma WholePricesKeepCleared(a: Account, events: seq<Event>)
    requires Opened(a) && PossibleRun(Start(a), events) && AllCleared(a.positions) && SalesPricedInCents(events)
    ensures ClearedThroughout(Start(a), events)
  {
    WholePricesBringWholeCents(Start(a), events);
    NothingBorrowedIffNothingShort(a, events);
  }
}
