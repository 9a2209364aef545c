/**
 The waiting list against the pending orders.  The two are updated under different
 locks, so they agree only up to what is on its way; a report that is noted before
 its order is listed is lost for good.
 */
module WaitingList {
  import opened Ledger
  import opened LedgerInvariant
  import opened LedgerSteps
  import opened LedgerRuns

  // ----- lots by where they are --------------------------------------------

  /** Lots of a pending order. */
  function Remaining(a: Account, id: string): int {
    if id in a.bids then a.bids[id].size else if id in a.asks then a.asks[id].order.size else 0
  }

  /** Lots that the waiting list has not seen executed. */
  function Unfinished(a: Account, id: string): int {
    if id in a.waiting then a.waiting[id].size - a.waiting[id].executedSize else 0
  }

  /** Lots of the report that is settled but not noted. */
  function InTransit(m: Machine, id: string): int {
    if m.noting.Noting? && m.noting.report.orderID == id then m.noting.report.executedSize else 0
  }

  predicate IsUnlisted(m: Machine, id: string) { m.stage.Enlisting? && m.stage.order.id == id }

  /** Lots of the order that is committed but not listed. */
  function Unlisted(m: Machine, id: string): int {
    if IsUnlisted(m, id) then m.stage.order.size else 0
  }

  /** Nothing is on its way to the waiting list for this id. */
  predicate Quiet(m: Machine, id: string) {
    !IsUnlisted(m, id) && InTransit(m, id) == 0
  }

  // ----- the invariant -----------------------------------------------------

  /** A pending order is the order as it was submitted, but for its size; a market order
      stands at the market price it was committed at. */
  predicate AsSubmitted(pending: Order, o: Order, quote: real) {
    && pending == o.(size := pending.size, price := pending.price)
    && pending.price == if o.kind.MarketBuy? || o.kind.MarketSell? then quote else o.price
  }

  predicate PendingOk(a: Account, id: string, o: Order, quote: real) {
    && (id in a.bids ==> AsSubmitted(a.bids[id], o, quote))
    && (id in a.asks ==> AsSubmitted(a.asks[id].order, o, quote))
  }

  /** Nothing has happened under this id yet. */
  predicate Unseen(m: Machine, id: string) {
    && id !in m.account.bids && id !in m.account.asks && (id in m.account.waiting ==> id == PLACEHOLDER.id)
    && Lots(m.lost, id) == 0 && InTransit(m, id) == 0 && !IsUnlisted(m, id)
  }

  predicate IsNew(m: Machine, id: string) {
    id !in m.submitted || (m.stage.Reading? && !m.stage.order.kind.IsCancel() && m.stage.order.id == id)
  }

  /** An entry is the order as it was submitted, but for what has been executed of it. */
  predicate EntryOk(m: Machine, id: string, o: Order) {
    if id == PLACEHOLDER.id then o.price == 0.0 && o.kind.LimitBuy?
    else
      && id in m.submitted && o == m.submitted[id].(executedSize := o.executedSize, status := o.status)
      && o.size - o.executedSize >= 1
  }

  /** Conservation: what the list still has to see is what is pending, on its way, or lost. */
  predicate Balanced(m: Machine, id: string) {
    id != PLACEHOLDER.id ==>
      Unfinished(m.account, id) + Unlisted(m, id) == Remaining(m.account, id) + InTransit(m, id) + Lots(m.lost, id)
  }

  /** The pending maps, the list and the order to be listed speak of submitted orders. */
  predicate Consistent(m: Machine, id: string) {
    var a := m.account;
    && !(id in a.bids && id in a.asks)
    && (id in a.bids || id in a.asks ==>
          id in m.submitted && id in m.quotes && PendingOk(a, id, m.submitted[id], m.quotes[id]))
    && (id in a.waiting ==> EntryOk(m, id, a.waiting[id]))
    && (IsUnlisted(m, id) ==>
          && id !in a.waiting && id in m.submitted && m.stage.order == m.submitted[id]
          && m.stage.order.size >= 1 && m.stage.order.executedSize == 0)
    && (id == PLACEHOLDER.id ==>
          id !in a.bids && id !in a.asks && !IsUnlisted(m, id) && InTransit(m, id) == 0)
  }

  predicate ListedAt(m: Machine, id: string) {
    && Consistent(m, id)
    && Lots(m.lost, id) >= 0 && InTransit(m, id) >= 0
    && (IsNew(m, id) ==> Unseen(m, id))
    && Balanced(m, id)
  }

  ghost predicate ListInv(m: Machine) { forall id :: ListedAt(m, id) }

  // ----- one event ---------------------------------------------------------

  lemma RemainingOfLive(m: Machine, base: real, id: string)
    requires MachineInv(m, base)
    ensures Remaining(m.account, id) >= if id in m.account.bids || id in m.account.asks then 1 else 0
  {
    assert id in m.account.bids ==> BidOk(id, m.account.bids[id]);
    assert id in m.account.asks ==> AskOk(id, m.account.asks[id]);
  }

  predicate TakesFromBid(r: Report) {
    (r.status.Filled? && r.kind.IsBuy()) || (r.status.Canceled? && r.kind.CancelBid?)
  }

  predicate TakesFromAsk(r: Report) {
    (r.status.Filled? && !r.kind.IsBuy()) || (r.status.Canceled? && !r.kind.CancelBid?)
  }

  /** A report takes its lots off one pending order and leaves the rest alone. */
  lemma SettleBooks(a: Account, base: real, r: Report) returns (taken: int)
    requires Sound(a, base) && Reportable(a, r) && Processable(a, r)
    ensures var b := Settle(a, r);
            && b.waiting == a.waiting
            && b.bids == (if TakesFromBid(r) then Shrink(a.bids, r.orderID, r.executedSize) else a.bids)
            && b.asks == (if TakesFromAsk(r) then ShrinkAsk(a.asks, r.orderID, r.executedSize, taken) else a.asks)
    ensures TakesFromBid(r) ==> r.executedSize >= 1 && r.orderID in a.bids
    ensures TakesFromAsk(r) ==> r.executedSize >= 1 && r.orderID in a.asks
    ensures !TakesFromBid(r) && !TakesFromAsk(r) ==> r.executedSize == 0
  {
    LivePosition(a, base, r);
    var n := r.executedSize * 100;
    var ask := AskOf(a.asks, r.orderID);
    taken := if r.status.Filled? then Sold(n, ask.reserved) else n - Min(n, ask.order.size * 100 - ask.reserved);
    hide Sound, BuyPosition, SellPosition, BuySummary, SellSummary, Units, Shrink, ShrinkAsk, Sold, Min, OpenPosition;
  }

  /** An order that is still pending has changed in its size only. */
  predicate SameButSize(a: Account, b: Account, id: string) {
    && (id in b.bids ==> id in a.bids && b.bids[id] == a.bids[id].(size := b.bids[id].size))
    && (id in b.asks ==> id in a.asks && b.asks[id].order == a.asks[id].order.(size := b.asks[id].order.size))
  }

  /** What one settled report does to the pending order of one id. */
  lemma SettleShrinks(a: Account, base: real, r: Report, id: string)
    requires Sound(a, base) && Reportable(a, r) && Processable(a, r) && !(id in a.bids && id in a.asks)
    ensures var b := Settle(a, r);
            && b.waiting == a.waiting
            && Remaining(b, id) == Remaining(a, id) - (if id == r.orderID then r.executedSize else 0)
            && SameButSize(a, b, id)
    ensures r.executedSize >= 0
    ensures r.executedSize > 0 ==> r.orderID in a.bids || r.orderID in a.asks
  {
    var taken := SettleBooks(a, base, r);
    hide Sound, Settle, Reportable, Processable, TakesFromBid, TakesFromAsk;
  }

  /** The step in terms of what `SettleShrinks` says about it. */
  predicate Shrunk(m: Machine, next: Machine, r: Report, id: string) {
    var a, b := m.account, next.account;
    && next.stage == m.stage && next.submitted == m.submitted && next.quotes == m.quotes && next.lost == m.lost
    && m.noting.Free?
    && next.noting.Noting? && next.noting.report.orderID == r.orderID
        && next.noting.report.executedSize == r.executedSize
    && b.waiting == a.waiting
    && Remaining(b, id) == Remaining(a, id) - (if id == r.orderID then r.executedSize else 0)
    && SameButSize(a, b, id)
    && r.executedSize >= 0
    && (r.executedSize > 0 && id == r.orderID ==> id in a.bids || id in a.asks)
  }

  lemma SettleIsShrunk(m: Machine, base: real, r: Report, id: string)
    requires MachineInv(m, base) && Possible(m, SettleReport(r)) && !(id in m.account.bids && id in m.account.asks)
    ensures Shrunk(m, Step(m, SettleReport(r)), r, id)
  {
    SettleShrinks(m.account, base, r, id);
    hide Sound, Settle, Reportable, Processable, Slippage, Remaining;
  }

  lemma ShrunkIsConsistent(m: Machine, next: Machine, r: Report, id: string)
    requires Shrunk(m, next, r, id) && Consistent(m, id)
    ensures Consistent(next, id)
  {
    hide Remaining;
  }

  lemma ShrunkIsListed(m: Machine, next: Machine, r: Report, id: string)
    requires Shrunk(m, next, r, id) && ListedAt(m, id)
    ensures ListedAt(next, id)
  {
    ShrunkIsConsistent(m, next, r, id);
    assert Unfinished(next.account, id) == Unfinished(m.account, id) && Unlisted(next, id) == Unlisted(m, id);
    hide Consistent, Remaining, Unfinished, Unlisted;
  }

  lemma SettleKeepsListed(m: Machine, base: real, r: Report, id: string)
    requires MachineInv(m, base) && Possible(m, SettleReport(r)) && ListedAt(m, id)
    ensures ListedAt(Step(m, SettleReport(r)), id)
  {
    SettleIsShrunk(m, base, r, id);
    ShrunkIsListed(m, Step(m, SettleReport(r)), r, id);
  }

  lemma ReadKeepsListed(m: Machine, o: Order, id: string)
    requires Possible(m, ReadOrder(o)) && ListedAt(m, id)
    ensures ListedAt(Step(m, ReadOrder(o)), id)
  {
    hide Usable;
  }

  /** An order that is reserved for is pending with all its lots. */
  lemma ReserveAdds(a: Account, o: Order, quote: real)
    requires o.kind.IsBuy() || o.kind.IsSell()
    requires o.id !in a.bids && o.id !in a.asks
    ensures var b := Reserve(a, o, ReservePrice(o, quote)); b.waiting == a.waiting && Added(a, b, o, quote)
  {
    hide Min, Units, Long;
    if o.kind.IsBuy() {
      assert Reserve(a, o, ReservePrice(o, quote)).asks == a.asks;
    } else {
      assert Reserve(a, o, ReservePrice(o, quote)).bids == a.bids;
    }
  }

  lemma CommitAdds(a: Account, o: Order, usable: real, marketPrice: real)
    requires o.kind.IsCancel() || (o.id !in a.bids && o.id !in a.asks)
    ensures var b := CommitOrder(a, o, usable, marketPrice);
            && b.waiting == a.waiting
            && (if Accepted(a, o, usable, marketPrice) && !o.kind.IsCancel() then Added(a, b, o, marketPrice)
                else b.bids == a.bids && b.asks == a.asks)
  {
    if Accepted(a, o, usable, marketPrice) {
      AcceptedKind(a, o, usable, marketPrice);
      hide Accepted, ReservePrice, Added;
      if o.kind.IsCancel() {
        assert Reserve(a, o, ReservePrice(o, marketPrice)) == a;
      } else {
        hide Reserve;
        ReserveAdds(a, o, marketPrice);
      }
    }
  }

  predicate Added(a: Account, b: Account, o: Order, quote: real) {
    && b.bids.Keys + b.asks.Keys == a.bids.Keys + a.asks.Keys + {o.id}
    && (forall id :: id in b.bids && id != o.id ==> id in a.bids && b.bids[id] == a.bids[id])
    && (forall id :: id in a.bids ==> id in b.bids)
    && (forall id :: id in b.asks && id != o.id ==> id in a.asks && b.asks[id] == a.asks[id])
    && (forall id :: id in a.asks ==> id in b.asks)
    && Remaining(b, o.id) == o.size && PendingOk(b, o.id, o, quote) && !(o.id in b.bids && o.id in b.asks)
  }

  lemma AddedIsListed(m: Machine, next: Machine, o: Order, quote: real, id: string)
    requires ListedAt(m, id) && m.stage.Reading? && m.stage.order == o && !o.kind.IsCancel()
    requires o.id in m.submitted && m.submitted[o.id] == o
    requires Submittable(o) && Added(m.account, next.account, o, quote) && next.account.waiting == m.account.waiting
    requires next == m.(account := next.account, stage := Enlisting(o), quotes := m.quotes[o.id := quote])
    ensures ListedAt(next, id)
  {
    if id != o.id {
      assert Remaining(next.account, id) == Remaining(m.account, id);
      assert Unfinished(next.account, id) == Unfinished(m.account, id);
      hide Remaining, Unfinished;
    } else {
      assert Unseen(m, id);
      hide Remaining;
    }
  }

  lemma NotAddedIsListed(m: Machine, next: Machine, id: string)
    requires ListedAt(m, id) && m.stage.Reading? && next == m.(account := next.account, stage := Idle)
    requires next.account.bids == m.account.bids && next.account.asks == m.account.asks
    requires next.account.waiting == m.account.waiting
    ensures ListedAt(next, id)
  {
    assert Remaining(next.account, id) == Remaining(m.account, id);
    assert Unfinished(next.account, id) == Unfinished(m.account, id);
    hide Remaining, Unfinished;
  }

  lemma CommitKeepsListed(m: Machine, base: real, marketPrice: real, id: string)
    requires MachineInv(m, base) && Possible(m, Commit(marketPrice)) && ListedAt(m, id)
    ensures ListedAt(Step(m, Commit(marketPrice)), id)
  {
    var Reading(o, usable, _) := m.stage;
    CommitAdds(m.account, o, usable, marketPrice);
    var next := Step(m, Commit(marketPrice));
    if Accepted(m.account, o, usable, marketPrice) && !o.kind.IsCancel() {
      hide Sound, CommitOrder, Accepted, ListedAt, Added;
      AddedIsListed(m, next, o, marketPrice, id);
    } else {
      hide Sound, CommitOrder, Accepted, ListedAt;
      NotAddedIsListed(m, next, id);
    }
  }

  lemma EnlistKeepsListed(m: Machine, id: string)
    requires Possible(m, EnlistOrder) && ListedAt(m, id)
    ensures ListedAt(Step(m, EnlistOrder), id)
  {
  }

  /** What noting a report does to the entry of one id. */
  lemma UpdateAt(waiting: map<string, Order>, r: Report, id: string)
    ensures var next := UpdateWaiting(waiting, r);
            if id != r.orderID || id !in waiting
                then (id in next <==> id in waiting) && (id in next ==> next[id] == waiting[id])
            else
              var left := waiting[id].size - waiting[id].executedSize - r.executedSize;
              && (id in next <==> left != 0)
              && (id in next ==>
                    && next[id].size - next[id].executedSize == left
                    && next[id].status == (if r.status == Canceled then PartiallyFilled else r.status)
                    && next[id] == waiting[id].(executedSize := next[id].executedSize, status := next[id].status))
  {
  }

  lemma NoteOther(m: Machine, id: string)
    requires Possible(m, NoteReport) && ListedAt(m, id) && id != m.noting.report.orderID
    ensures ListedAt(Step(m, NoteReport), id)
  {
    UpdateAt(m.account.waiting, m.noting.report, id);
    hide UpdateWaiting, EntryOk;
  }

  /** An entry never has fewer lots to see than the report being noted brings. */
  lemma NotMoreThanUnfinished(m: Machine, base: real)
    requires MachineInv(m, base) && m.noting.Noting? && ListedAt(m, m.noting.report.orderID)
    requires m.noting.report.orderID in m.account.waiting && m.noting.report.orderID != PLACEHOLDER.id
    ensures m.noting.report.executedSize <= Unfinished(m.account, m.noting.report.orderID)
  {
    RemainingOfLive(m, base, m.noting.report.orderID);
    hide MachineInv, Remaining, Unfinished, EntryOk, PendingOk;
  }

  lemma NoteOwnConsistent(m: Machine, base: real)
    requires MachineInv(m, base) && Possible(m, NoteReport) && ListedAt(m, m.noting.report.orderID)
    ensures Consistent(Step(m, NoteReport), m.noting.report.orderID)
  {
    var id := m.noting.report.orderID;
    UpdateAt(m.account.waiting, m.noting.report, id);
    if id in m.account.waiting && id != PLACEHOLDER.id { NotMoreThanUnfinished(m, base); }
    hide MachineInv, UpdateWaiting, Balanced, Unseen;
  }

  lemma NoteOwnBalanced(m: Machine, base: real)
    requires Possible(m, NoteReport) && ListedAt(m, m.noting.report.orderID)
    ensures Balanced(Step(m, NoteReport), m.noting.report.orderID)
  {
    var id := m.noting.report.orderID;
    UpdateAt(m.account.waiting, m.noting.report, id);
    assert Remaining(Step(m, NoteReport).account, id) == Remaining(m.account, id);
    hide UpdateWaiting, Consistent, Unseen, Remaining;
  }

  lemma NoteOwn(m: Machine, base: real)
    requires MachineInv(m, base) && Possible(m, NoteReport) && ListedAt(m, m.noting.report.orderID)
    ensures ListedAt(Step(m, NoteReport), m.noting.report.orderID)
  {
    NoteOwnConsistent(m, base);
    NoteOwnBalanced(m, base);
    UpdateAt(m.account.waiting, m.noting.report, m.noting.report.orderID);
    hide MachineInv, UpdateWaiting, Consistent, Balanced;
  }

  lemma NoteKeepsListed(m: Machine, base: real, id: string)
    requires MachineInv(m, base) && Possible(m, NoteReport) && ListedAt(m, id)
    ensures ListedAt(Step(m, NoteReport), id)
  {
    hide MachineInv, Step, ListedAt;
    if id == m.noting.report.orderID { NoteOwn(m, base); } else { NoteOther(m, id); }
  }

  lemma StepKeepsListed(m: Machine, e: Event, base: real)
    requires MachineInv(m, base) && ListInv(m) && Possible(m, e)
    ensures ListInv(Step(m, e))
  {
    forall id ensures ListedAt(Step(m, e), id) {
      assert ListedAt(m, id);
      hide MachineInv, ListedAt, ListInv, Step;
      match e
      case ReadOrder(o) => ReadKeepsListed(m, o, id);
      case Commit(marketPrice) => CommitKeepsListed(m, base, marketPrice, id);
      case EnlistOrder => EnlistKeepsListed(m, id);
      case SettleReport(r) => SettleKeepsListed(m, base, r, id);
      case NoteReport => NoteKeepsListed(m, base, id);
    }
  }

  lemma {:induction false} RunKeepsListed(m: Machine, events: seq<Event>, base: real)
    requires MachineInv(m, base) && ListInv(m) && PossibleRun(m, events)
    ensures MachineInv(Run(m, events), base) && ListInv(Run(m, events))
    decreases |events|
  {
    if events != [] {
      StepKeeps(m, events[0], base);
      StepKeepsListed(m, events[0], base);
      hide MachineInv, ListInv, Step, Possible;
      RunKeepsListed(Step(m, events[0]), events[1..], base);
    }
  }

  // ----- agreement ---------------------------------------------------------

  /** The id is waiting exactly when it is live, on one side only, and what has not
      been executed of it is what is pending. */
  predicate MatchesAt(a: Account, id: string) {
    && (id in a.waiting <==> id in a.bids || id in a.asks)
    && !(id in a.bids && id in a.asks)
    && (id in a.bids ==> 1 <= a.bids[id].size == a.waiting[id].size - a.waiting[id].executedSize)
    && (id in a.asks ==> 1 <= a.asks[id].order.size == a.waiting[id].size - a.waiting[id].executedSize)
  }

  lemma MatchesIffNothingLost(m: Machine, base: real, id: string)
    requires MachineInv(m, base) && ListedAt(m, id) && Quiet(m, id) && id != PLACEHOLDER.id
    ensures MatchesAt(m.account, id) <==> Lots(m.lost, id) == 0
  {
    RemainingOfLive(m, base, id);
    hide MachineInv;
  }

  /** The report of an order that is committed but not yet listed is noted. */
  predicate NotesWhileUnlisted(m: Machine, e: Event, id: string)
    requires Possible(m, e)
  {
    e.NoteReport? && m.noting.report.executedSize > 0 && m.noting.report.orderID == id && IsUnlisted(m, id)
  }

  /** The order of this id is listed before any report of it that executes something is
      noted. */
  predicate ListedFirst(m: Machine, events: seq<Event>, id: string)
    requires PossibleRun(m, events)
    decreases |events|
  {
    events == [] || (!NotesWhileUnlisted(m, events[0], id) && ListedFirst(Step(m, events[0]), events[1..], id))
  }

  /** A report that executes something finds no entry exactly when its order is still to
      be listed. */
  lemma NoEntryIffUnlisted(m: Machine, base: real)
    requires MachineInv(m, base) && m.noting.Noting? && m.noting.report.executedSize > 0
    requires ListedAt(m, m.noting.report.orderID)
    ensures m.noting.report.orderID !in m.account.waiting <==> IsUnlisted(m, m.noting.report.orderID)
  {
    var id := m.noting.report.orderID;
    RemainingOfLive(m, base, id);
    assert IsNew(m, id) ==> Unseen(m, id);
    hide MachineInv, Remaining;
  }

  lemma StepLoses(m: Machine, e: Event, base: real, id: string)
    requires MachineInv(m, base) && ListInv(m) && Possible(m, e)
    ensures Lots(Step(m, e).lost, id) >= Lots(m.lost, id)
    ensures Lots(Step(m, e).lost, id) == Lots(m.lost, id) <==> !NotesWhileUnlisted(m, e, id)
  {
    if e.NoteReport? {
      assert ListedAt(m, m.noting.report.orderID);
      if m.noting.report.executedSize > 0 { NoEntryIffUnlisted(m, base); }
    }
    hide MachineInv, ListInv, Consistent, Balanced, CommitOrder, Settle, Slippage, UpdateWaiting;
    hide Reportable, Processable, Accepted, OpenPosition, Outgoing;
  }

  /** What is lost stays lost. */
  lemma {:induction false} LossIsPermanent(m: Machine, events: seq<Event>, base: real, id: string)
    requires MachineInv(m, base) && ListInv(m) && PossibleRun(m, events)
    ensures Lots(Run(m, events).lost, id) >= Lots(m.lost, id)
    decreases |events|
  {
    if events != [] {
      StepKeeps(m, events[0], base);
      StepKeepsListed(m, events[0], base);
      StepLoses(m, events[0], base, id);
      hide MachineInv, ListInv, Step, Possible;
      LossIsPermanent(Step(m, events[0]), events[1..], base, id);
    }
  }

  /** Over a whole run nothing is lost of an order if and only if it is listed first. */
  lemma {:induction false} NothingLostIffListedFirst(m: Machine, events: seq<Event>, base: real, id: string)
    requires MachineInv(m, base) && ListInv(m) && PossibleRun(m, events)
    ensures ListedFirst(m, events, id) <==> Lots(Run(m, events).lost, id) == Lots(m.lost, id)
    decreases |events|
  {
    if events != [] {
      var next := Step(m, events[0]);
      StepKeeps(m, events[0], base);
      StepKeepsListed(m, events[0], base);
      StepLoses(m, events[0], base, id);
      hide MachineInv, ListInv, Step, Possible, Lots, NotesWhileUnlisted;
      LossIsPermanent(next, events[1..], base, id);
      NothingLostIffListedFirst(next, events[1..], base, id);
    }
  }

  /** In a quiet state reached from one without losses, list and pending orders agree
      about an id if and only if its order was listed first. */
  lemma MatchesIffListedFirst(m: Machine, events: seq<Event>, base: real, id: string)
    requires MachineInv(m, base) && ListInv(m) && PossibleRun(m, events) && Lots(m.lost, id) == 0
    requires Quiet(Run(m, events), id) && id != PLACEHOLDER.id
    ensures MatchesAt(Run(m, events).account, id) <==> ListedFirst(m, events, id)
  {
    RunKeepsListed(m, events, base);
    assert ListedAt(Run(m, events), id);
    hide MachineInv, ListInv, Run, PossibleRun, ListedFirst, ListedAt, MatchesAt, Quiet;
    NothingLostIffListedFirst(m, events, base, id);
    MatchesIffNothingLost(Run(m, events), base, id);
  }

  /** Reports are noted only between orders, never while one is still to be listed. */
  predicate NotesBetweenOrders(m: Machine, events: seq<Event>)
    requires PossibleRun(m, events)
    decreases |events|
  {
    events == [] ||
    ((events[0].NoteReport? ==> !m.stage.Enlisting?) && NotesBetweenOrders(Step(m, events[0]), events[1..]))
  }

  lemma {:induction false} BetweenOrdersListsFirst(m: Machine, events: seq<Event>, id: string)
    requires PossibleRun(m, events) && NotesBetweenOrders(m, events)
    ensures ListedFirst(m, events, id)
    decreases |events|
  {
    if events != [] {
      hide Step, Possible;
      BetweenOrdersListsFirst(Step(m, events[0]), events[1..], id);
    }
  }

  // ----- cancellations -----------------------------------------------------

  predicate LiveOnSide(a: Account, o: Order) {
    if o.kind.CancelBid? then o.id in a.bids else o.id in a.asks
  }

  /** The order names a live order of its side, at the price it was submitted with. */
  predicate NamesLiveOrder(m: Machine, o: Order) {
    LiveOnSide(m.account, o) && o.id in m.submitted && m.submitted[o.id].price == o.price
  }

  /** The price of the pending order itself. */
  function PendingPrice(a: Account, o: Order): real
    requires LiveOnSide(a, o)
  {
    if o.kind.CancelBid? then a.bids[o.id].price else a.asks[o.id].order.price
  }

  /** While nothing is on its way or lost for its id, a cancellation is accepted exactly
      when it names a live order of its side at the price that order was submitted with;
      for a limit order this is the price it is pending at. */
  lemma AcceptedIffLive(m: Machine, base: real, o: Order, usable: real, marketPrice: real)
    requires MachineInv(m, base) && ListedAt(m, o.id) && Quiet(m, o.id) && Lots(m.lost, o.id) == 0
    requires o.kind.IsCancel() && o.id != PLACEHOLDER.id
    ensures Accepted(m.account, o, usable, marketPrice) <==> NamesLiveOrder(m, o)
    ensures NamesLiveOrder(m, o) && (m.submitted[o.id].kind.LimitBuy? || m.submitted[o.id].kind.LimitSell?) ==>
              PendingPrice(m.account, o) == o.price
  {
    MatchesIffNothingLost(m, base, o.id);
    assert o.id in m.account.bids ==> BidOk(o.id, m.account.bids[o.id]);
    assert o.id in m.account.asks ==> AskOk(o.id, m.account.asks[o.id]);
    hide MachineInv, Balanced;
  }

  /** At any moment an accepted cancellation names lots that are pending, on their way to
      the waiting list, or lost. */
  lemma AcceptedIsAccountedFor(m: Machine, o: Order, usable: real, marketPrice: real)
    requires ListedAt(m, o.id) && o.kind.IsCancel() && o.id != PLACEHOLDER.id
    requires Accepted(m.account, o, usable, marketPrice)
    ensures Remaining(m.account, o.id) + InTransit(m, o.id) + Lots(m.lost, o.id) >= 1
  {
  }

  /** The placeholder is accepted as a bid cancellation at price 0. */
  lemma PlaceholderIsAccepted(m: Machine, o: Order, usable: real, marketPrice: real)
    requires ListedAt(m, o.id) && o.kind.IsCancel() && o.id == PLACEHOLDER.id
    ensures Accepted(m.account, o, usable, marketPrice) <==>
              o.id in m.account.waiting && o.kind.CancelBid? && o.price == 0.0
  {
  }
}
