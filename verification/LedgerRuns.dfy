/**
 The two worker threads of one account as a state machine, at the grain of their
 lock sections.  An order is read, then committed, then put on the waiting list; a
 report is settled, then noted in the waiting list.  The sections of the two
 threads interleave in any way.
 */
module LedgerRuns {
  import opened MapSums
  import opened Money
  import opened Ledger
  import opened LedgerInvariant
  import opened LedgerSteps

  /** How far the order thread is with its order.  A reading order remembers the usable
      buying power it read and the slippage that had been suffered by then. */
  datatype OrderStage =
    | Idle
    | Reading(order: Order, usable: real, slippage: real)
    | Enlisting(order: Order)

  /** The report that is settled but not yet noted in the waiting list. */
  datatype ReportStage = Free | Noting(report: Report)

  /** History variables: `slippage` is the adverse slippage of all fills so far,
      `submitted` holds all orders so far as they came in, `quotes` the market prices that accepted
      orders were committed at, and `lost` counts by id the lots of reports that found no entry in
      the waiting list. */
  datatype Machine = Machine(
    account: Account,
    stage: OrderStage,
    noting: ReportStage,
    slippage: real,
    submitted: map<string, Order>,
    quotes: map<string, real>,
    lost: map<string, int>)

  datatype Event =
    | ReadOrder(order: Order)
    | Commit(marketPrice: real)
    | EnlistOrder
    | SettleReport(report: Report)
    | NoteReport

  /** Orders come with ids of their own; reports keep to what the matching engine does. */
  predicate Possible(m: Machine, e: Event) {
    match e
    case ReadOrder(o) => m.stage.Idle? && Submittable(o) && (o.kind.IsCancel() || o.id !in m.submitted)
    case Commit(marketPrice) => m.stage.Reading? && marketPrice >= 0.0
    case EnlistOrder => m.stage.Enlisting?
    case SettleReport(r) => m.noting.Free? && Reportable(m.account, r) && Processable(m.account, r)
    case NoteReport => m.noting.Noting?
  }

  function PositivePart(x: real): real { if x > 0.0 then x else 0.0 }

  /** How much more cash a fill needs than its order reserved: the executed price
      above the reserved one, on the shares bought or sold short. */
  function Slippage(a: Account, r: Report): real
    requires Reportable(a, r)
  {
    if !r.status.Filled? then 0.0
    else
      var n := r.executedSize * 100;
      if r.kind.IsBuy() then Cost(PositivePart(r.price - a.bids[r.orderID].price), n)
      else
        var ask := a.asks[r.orderID];
        Cost(PositivePart(r.price - ask.order.price), n - Sold(n, ask.reserved))
  }

  function Lots(counts: map<string, int>, id: string): int {
    if id in counts then counts[id] else 0
  }

  function Step(m: Machine, e: Event): Machine
    requires Possible(m, e)
  {
    match e
    case ReadOrder(o) =>
      var a := OpenPosition(m.account, o.symbol);
      m.(account := a,
         stage := Reading(o, Usable(a), m.slippage),
         submitted := if o.kind.IsCancel() then m.submitted else m.submitted[o.id := o])
    case Commit(marketPrice) =>
      var Reading(o, usable, _) := m.stage;
      var enlists := Accepted(m.account, o, usable, marketPrice) && !o.kind.IsCancel();
      m.(account := CommitOrder(m.account, o, usable, marketPrice),
         stage := if enlists then Enlisting(o) else Idle,
         quotes := if enlists then m.quotes[o.id := marketPrice] else m.quotes)
    case EnlistOrder => m.(account := Enlist(m.account, m.stage.order), stage := Idle)
    case SettleReport(r) =>
      m.(account := Settle(m.account, r),
         noting := Noting(Outgoing(m.account, r)),
         slippage := m.slippage + Slippage(m.account, r))
    case NoteReport =>
      var r := m.noting.report;
      m.(account := m.account.(waiting := UpdateWaiting(m.account.waiting, r)),
         noting := Free,
         lost := if r.orderID in m.account.waiting then m.lost
                 else m.lost[r.orderID := Lots(m.lost, r.orderID) + r.executedSize])
  }

  predicate PossibleRun(m: Machine, events: seq<Event>)
    decreases |events|
  {
    events == [] || (Possible(m, events[0]) && PossibleRun(Step(m, events[0]), events[1..]))
  }

  function Run(m: Machine, events: seq<Event>): Machine
    requires PossibleRun(m, events)
    decreases |events|
  {
    if events == [] then m else Run(Step(m, events[0]), events[1..])
  }

  // ----- what one step keeps -----------------------------------------------

  ghost predicate MachineInv(m: Machine, base: real) {
    && Sound(m.account, base)
    && m.slippage >= 0.0
    && Usable(m.account) >= -m.slippage
    && m.account.bids.Keys + m.account.asks.Keys <= m.submitted.Keys
    && ReadingOk(m)
  }

  /** The order being read is still to come, and the usable buying power has dropped
      since it was read by no more than the slippage since then. */
  predicate ReadingOk(m: Machine) {
    m.stage.Reading? ==>
      var o := m.stage.order;
      && Submittable(o) && o.symbol in m.account.positions
      && (!o.kind.IsCancel() ==>
            && o.id in m.submitted && m.submitted[o.id] == o
            && o.id !in m.account.bids && o.id !in m.account.asks)
      && m.stage.slippage >= 0.0
      && Usable(m.account) >= m.stage.usable - (m.slippage - m.stage.slippage)
  }

  /** Reserved money less money spent is short by no more than the slippage. */
  lemma SlippageCovers(price: real, reserved: real, n: int)
    requires n >= 0
    ensures Cost(reserved, n) - Cost(price, n) >= -Cost(PositivePart(price - reserved), n)
    ensures Cost(PositivePart(price - reserved), n) >= 0.0
  {
    CostOfDifference(price, reserved, n);
    CostNonNegative(PositivePart(price - reserved), n);
    if price <= reserved {
      CostOfDifference(reserved, price, n);
      CostNonNegative(reserved - price, n);
    }
    hide Cost;
  }

  lemma FillBuyUsable(a: Account, r: Report)
    requires FillsBid(a, r) && BuyBookable(a, r) && PositionsOk(a.positions) && r.price > 0.0
    ensures Usable(FillBuy(a, r)) >= Usable(a)
        - Cost(PositivePart(r.price - a.bids[r.orderID].price), r.executedSize * 100)
  {
    var n := r.executedSize * 100;
    ReturnedBounds(a.positions[r.symbol], n);
    SlippageCovers(r.price, a.bids[r.orderID].price, n);
    hide Returned, BuyPosition, BuyGain, Shrink, Cost, PositivePart;
  }

  lemma FillSellUsable(a: Account, r: Report)
    requires FillsAsk(a, r) && SellBookable(a, r) && r.price > 0.0 && a.asks[r.orderID].reserved >= 0
    ensures var n := r.executedSize * 100;
            var ask := a.asks[r.orderID];
            Usable(FillSell(a, r)) >= Usable(a)
                - Cost(PositivePart(r.price - ask.order.price), n - Sold(n, ask.reserved))
  {
    var n := r.executedSize * 100;
    var ask := a.asks[r.orderID];
    var sold := Sold(n, ask.reserved);
    SlippageCovers(r.price, ask.order.price, n - sold);
    CostNonNegative(r.price, sold);
    hide SellPosition, SellGain, ShrinkAsk, Cost, PositivePart;
  }

  lemma CancelUsable(a: Account, base: real, r: Report)
    requires Sound(a, base) && Reportable(a, r) && Processable(a, r) && r.status.Canceled?
    ensures Usable(Settle(a, r)) >= Usable(a)
  {
    LivePosition(a, base, r);
    hide Sum, Cost, UnitsAgree, HoldingAgrees, ShortCashAgrees, NotOverpromised, BorrowedAgrees, Shrink, ShrinkAsk;
    var n := r.executedSize * 100;
    if r.kind.CancelBid? {
      CostNonNegative(a.bids[r.orderID].price, n);
    } else {
      var ask := a.asks[r.orderID];
      CostNonNegative(ask.order.price, Min(n, ask.order.size * 100 - ask.reserved));
    }
    hide Cost;
  }

  lemma SlippageNonNegative(a: Account, r: Report)
    requires Reportable(a, r)
    ensures Slippage(a, r) >= 0.0
  {
    if r.status.Filled? {
      var n := r.executedSize * 100;
      if r.kind.IsBuy() {
        SlippageCovers(r.price, a.bids[r.orderID].price, n);
      } else {
        SlippageCovers(r.price, a.asks[r.orderID].order.price, n - Sold(n, a.asks[r.orderID].reserved));
      }
    }
    hide Cost, PositivePart;
  }

  /** A report lowers the usable buying power by no more than its slippage. */
  lemma ReportUsable(a: Account, base: real, r: Report)
    requires Sound(a, base) && Reportable(a, r) && Processable(a, r)
    ensures Usable(Settle(a, r)) >= Usable(a) - Slippage(a, r)
  {
    LivePosition(a, base, r);
    hide FillBuy, FillSell, CancelBuy, CancelSell, PositivePart;
    match r.status
    case Filled =>
      if r.kind.IsBuy() {
        FillBuyUsable(a, r);
      } else {
        assert AskOk(r.orderID, a.asks[r.orderID]);
        FillSellUsable(a, r);
      }
    case Canceled => CancelUsable(a, base, r);
    case _ =>
  }

  /** An order takes less than the usable buying power it was checked against. */
  lemma CommitUsable(a: Account, o: Order, usable: real, marketPrice: real)
    requires Submittable(o)
    ensures var left := Usable(CommitOrder(a, o, usable, marketPrice));
            left == Usable(a) || left > Usable(a) - usable
  {
    var price := ReservePrice(o, marketPrice);
    NoShares(price);
    hide Cost;
    if o.kind.IsSell() && Accepted(a, o, usable, marketPrice) {
      var n, free := o.size * 100, Long(a.positions, o.symbol) - Units(a.shortUnits, o.symbol);
      assert n - Min(n, free) == if n <= free then 0 else n - free;
    }
  }

  /** A report adds no order and removes no position. */
  lemma SettleAddsNoOrder(a: Account, base: real, r: Report)
    requires Sound(a, base) && Reportable(a, r) && Processable(a, r)
    ensures var b := Settle(a, r);
            b.bids.Keys <= a.bids.Keys && b.asks.Keys <= a.asks.Keys && a.positions.Keys <= b.positions.Keys
  {
    LivePosition(a, base, r);
    hide BuyPosition, SellPosition, BuySummary, SellSummary, Sound;
  }

  /** A committed order adds at most its own id. */
  lemma CommitAddsOneOrder(a: Account, o: Order, usable: real, marketPrice: real)
    ensures var b := CommitOrder(a, o, usable, marketPrice);
            && b.positions == a.positions && b.waiting == a.waiting
            && b.bids.Keys + b.asks.Keys <= a.bids.Keys + a.asks.Keys + (if o.kind.IsCancel() then {} else {o.id})
  {
    hide Accepted, ReservePrice, Min, Units;
  }

  lemma OpensOnlyPosition(a: Account, symbol: string)
    ensures var b := OpenPosition(a, symbol);
            b.bids == a.bids && b.asks == a.asks && b.waiting == a.waiting && Usable(b) == Usable(a)
                && symbol in b.positions
  {
  }

  lemma ReadKeeps(m: Machine, o: Order, base: real)
    requires MachineInv(m, base) && Possible(m, ReadOrder(o))
    ensures MachineInv(Step(m, ReadOrder(o)), base)
    ensures Equity(Step(m, ReadOrder(o)).account) == Equity(m.account)
  {
    OpenPositionKeeps(m.account, base, o.symbol);
    OpensOnlyPosition(m.account, o.symbol);
    hide Sound, Equity, OpenPosition, Usable;
  }

  lemma CommitStepKeeps(m: Machine, marketPrice: real, base: real)
    requires MachineInv(m, base) && Possible(m, Commit(marketPrice))
    ensures MachineInv(Step(m, Commit(marketPrice)), base)
    ensures Equity(Step(m, Commit(marketPrice)).account) == Equity(m.account)
  {
    var Reading(o, usable, _) := m.stage;
    CommitKeeps(m.account, base, o, usable, marketPrice);
    CommitUsable(m.account, o, usable, marketPrice);
    CommitAddsOneOrder(m.account, o, usable, marketPrice);
    hide Sound, Equity, Usable, CommitOrder, Accepted;
  }

  lemma SettleStepKeeps(m: Machine, r: Report, base: real)
    requires MachineInv(m, base) && Possible(m, SettleReport(r))
    ensures MachineInv(Step(m, SettleReport(r)), base)
    ensures Equity(Step(m, SettleReport(r)).account) == Equity(m.account)
  {
    SettleKeeps(m.account, base, r);
    ReportUsable(m.account, base, r);
    SlippageNonNegative(m.account, r);
    SettleAddsNoOrder(m.account, base, r);
    hide Sound, Equity, Usable, Settle, Slippage, Reportable, Processable, Outgoing;
  }

  lemma StepKeeps(m: Machine, e: Event, base: real)
    requires MachineInv(m, base) && Possible(m, e)
    ensures MachineInv(Step(m, e), base)
    ensures Equity(Step(m, e).account) == Equity(m.account)
  {
    match e
    case ReadOrder(o) => ReadKeeps(m, o, base);
    case Commit(marketPrice) => CommitStepKeeps(m, marketPrice, base);
    case SettleReport(r) => SettleStepKeeps(m, r, base);
    case _ =>
      var b := Step(m, e).account;
      WaitingHoldsNothing(m.account, b, base);
      hide Sound, Equity, Usable, UpdateWaiting;
  }

  // ----- theorems over every run -------------------------------------------

  /** Every reachable state satisfies the invariant, and no run changes equity. */
  lemma {:induction false} RunKeeps(m: Machine, events: seq<Event>, base: real)
    requires MachineInv(m, base) && PossibleRun(m, events)
    ensures MachineInv(Run(m, events), base)
    ensures Equity(Run(m, events).account) == Equity(m.account)
    decreases |events|
  {
    hide MachineInv, Equity, Step, Possible;
    if events != [] {
      StepKeeps(m, events[0], base);
      RunKeeps(Step(m, events[0]), events[1..], base);
    }
  }
}
