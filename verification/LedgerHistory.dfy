/**
 What a run adds up to: the shares it trades, what is left of them in the positions,
 and the gains.
 */
module LedgerHistory {
  import opened MapSums
  import opened Money
  import opened Ledger
  import opened LedgerInvariant
  import opened LedgerSteps
  import opened LedgerRuns
  import opened LedgerOutcomes

  predicate IsFill(e: Event) { e.SettleReport? && e.report.status.Filled? }

  /** Shares executed by all fills, purchases and sales alike. */
  function Traded(events: seq<Event>): int {
    if events == [] then 0
    else (if IsFill(events[0]) then 100 * events[0].report.executedSize else 0) + Traded(events[1..])
  }

  /** Shares of one symbol bought by the fills less those sold. */
  function NetBought(events: seq<Event>, s: string): int {
    if events == [] then 0 else Bought(events[0], s) + NetBought(events[1..], s)
  }

  function Bought(e: Event, s: string): int {
    if !IsFill(e) || e.report.symbol != s then 0
    else if e.report.kind.IsBuy() then 100 * e.report.executedSize
    else -100 * e.report.executedSize
  }

  /** Long less short shares. */
  function Net(positions: map<string, Position>, s: string): int {
    if s in positions then positions[s].longShares - positions[s].shortShares else 0
  }

  function Gain(p: Position): real { p.pl }

  /** Gains of the account that no position shows. */
  ghost function UnshownGains(a: Account): real { a.summary.totalPL - Sum(a.positions, Gain) }

  /** What a fill adds to the account. */
  ghost predicate Adds(a: Account, b: Account, symbol: string, traded: int, bought: int) {
    && b.summary.totalShares == a.summary.totalShares + traded
    && (forall s :: Net(b.positions, s) == Net(a.positions, s) + if s == symbol then bought else 0)
    && UnshownGains(b) == UnshownGains(a)
  }

  lemma FillBuyAdds(a: Account, r: Report)
    requires BuyBookable(a, r)
    ensures Adds(a, FillBuy(a, r), r.symbol, r.executedSize * 100, r.executedSize * 100)
  {
    var p, n := a.positions[r.symbol], r.executedSize * 100;
    SumUpdate(a.positions, Gain, r.symbol, BuyPosition(p, r.price, n));
    hide Sum, Cost, Average, Returned, Shrink, BuyGain, Covered;
  }

  lemma FillSellAdds(a: Account, r: Report)
    requires SellBookable(a, r)
    ensures Adds(a, FillSell(a, r), r.symbol, r.executedSize * 100, -r.executedSize * 100)
  {
    var p, n, reserved := a.positions[r.symbol], r.executedSize * 100, AskOf(a.asks, r.orderID).reserved;
    SumUpdate(a.positions, Gain, r.symbol, SellPosition(p, r.price, n, reserved));
    hide Sum, Cost, Average, ShrinkAsk, SellGain, Sold, Units;
  }

  lemma OpenPositionAdds(a: Account, symbol: string)
    ensures Adds(a, OpenPosition(a, symbol), symbol, 0, 0)
  {
    SumUpdate(a.positions, Gain, symbol, EMPTY_POSITION);
    hide Sum;
  }

  lemma SettleAdds(a: Account, base: real, r: Report)
    requires Sound(a, base) && Reportable(a, r) && Processable(a, r)
    ensures var n := if r.status.Filled? then r.executedSize * 100 else 0;
            Adds(a, Settle(a, r), r.symbol, n, if r.kind.IsBuy() then n else -n)
  {
    LivePosition(a, base, r);
    OpenPositionAdds(a, r.symbol);
    hide Sound, Sum, FillBuy, FillSell, Shrink, ShrinkAsk, OpenPosition, Cost;
    if r.status.Filled? {
      if r.kind.IsBuy() { FillBuyAdds(a, r); } else { FillSellAdds(a, r); }
    }
  }

  lemma CommitAddsNothing(a: Account, o: Order, usable: real, marketPrice: real, s: string)
    ensures Adds(a, CommitOrder(a, o, usable, marketPrice), s, 0, 0)
  {
    hide Sum, Accepted, ReservePrice, Cost, Min, Units;
  }

  lemma StepAdds(m: Machine, e: Event, base: real)
    requires MachineInv(m, base) && Possible(m, e)
    ensures var a, b := m.account, Step(m, e).account;
            && b.summary.totalShares == a.summary.totalShares + Traded([e])
            && (forall s :: Net(b.positions, s) == Net(a.positions, s) + Bought(e, s))
            && UnshownGains(b) == UnshownGains(a)
  {
    var a, b := m.account, Step(m, e).account;
    hide Sound, CommitOrder, Accepted, Settle, OpenPosition, UnshownGains, Net, Slippage, UpdateWaiting, Outgoing;
    match e
    case ReadOrder(o) => OpenPositionAdds(a, o.symbol);
    case Commit(marketPrice) => CommitAddsNothing(a, m.stage.order, m.stage.usable, marketPrice, "");
    case SettleReport(r) => SettleAdds(a, base, r);
    case _ => SamePositions(a, b);
  }

  lemma SamePositions(a: Account, b: Account)
    requires b.positions == a.positions && b.summary == a.summary
    ensures UnshownGains(b) == UnshownGains(a) && forall s :: Net(b.positions, s) == Net(a.positions, s)
  {
  }

  /** Over a run: shares traded, shares held and gains shown all follow from the fills. */
  lemma {:induction false} RunAdds(m: Machine, events: seq<Event>, base: real, s: string)
    requires MachineInv(m, base) && PossibleRun(m, events)
    ensures var a, b := m.account, Run(m, events).account;
            && b.summary.totalShares == a.summary.totalShares + Traded(events)
            && Net(b.positions, s) == Net(a.positions, s) + NetBought(events, s)
            && UnshownGains(b) == UnshownGains(a)
    decreases |events|
  {
    if events != [] {
      StepKeeps(m, events[0], base);
      StepAdds(m, events[0], base);
      assert Traded(events) == Traded([events[0]]) + Traded(events[1..]);
      hide MachineInv, Step, Possible, UnshownGains, Net, Bought, Traded;
      RunAdds(Step(m, events[0]), events[1..], base, s);
    }
  }

  lemma StepKeepsPriced(m: Machine, e: Event, base: real)
    requires MachineInv(m, base) && Possible(m, e) && AllPriced(m.account.positions)
    ensures AllPriced(Step(m, e).account.positions)
  {
    hide Sound, Settle, Reportable, Processable, Priced, Slippage, UpdateWaiting, Accepted, Outgoing;
    EmptyIsPriced();
    match e
    case SettleReport(r) => SettleKeepsPriced(m.account, base, r);
    case _ =>
  }

  lemma {:induction false} RunKeepsPriced(m: Machine, events: seq<Event>, base: real)
    requires MachineInv(m, base) && PossibleRun(m, events) && AllPriced(m.account.positions)
    ensures AllPriced(Run(m, events).account.positions)
    decreases |events|
  {
    if events != [] {
      StepKeeps(m, events[0], base);
      StepKeepsPriced(m, events[0], base);
      hide MachineInv, Step, Possible, AllPriced;
      RunKeepsPriced(Step(m, events[0]), events[1..], base);
    }
  }
}
