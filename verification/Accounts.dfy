/**
 Opening the account of a user: from the stored summary and positions, or with the
 default buying power, and then running it.
 */
module Accounts {
  import opened MapSums
  import L = Ledger
  import I = LedgerInvariant
  import R = LedgerRuns
  import T = LedgerTheorems
  import W = WaitingList
  import A = RiskManagement

  datatype Option<T> = None | Some(value: T)

  /** One row of the stored positions. */
  datatype Row = Row(symbol: string, position: L.Position)

  const DEFAULT_BUYING_POWER := 1000000.0

  /** The positions in the rows; a later row replaces an earlier one of its symbol. */
  function PositionsIn(rows: seq<Row>): map<string, L.Position> {
    if rows == [] then map[]
    else var n := |rows| - 1; PositionsIn(rows[..n])[rows[n].symbol := rows[n].position]
  }

  /** No later row has the symbol of this one. */
  predicate IsLast(rows: seq<Row>, i: nat)
    requires i < |rows|
  {
    forall j :: i < j < |rows| ==> rows[j].symbol != rows[i].symbol
  }

  lemma {:induction false} PositionHasRow(rows: seq<Row>, s: string) returns (i: nat)
    requires s in PositionsIn(rows)
    ensures i < |rows| && rows[i].symbol == s
  {
    i := |rows| - 1;
    if rows[i].symbol != s {
      i := PositionHasRow(rows[..i], s);
    }
  }

  lemma {:induction false} LastRowIsPosition(rows: seq<Row>, i: nat)
    requires i < |rows|
    ensures rows[i].symbol in PositionsIn(rows)
    ensures IsLast(rows, i) ==> PositionsIn(rows)[rows[i].symbol] == rows[i].position
  {
    var n := |rows| - 1;
    if i < n {
      LastRowIsPosition(rows[..n], i);
      assert IsLast(rows, i) ==> IsLast(rows[..n], i) && rows[n].symbol != rows[i].symbol;
    }
  }

  /** Every symbol of a row has a position, the one in its last row, and no other has. */
  lemma PositionsAreLastRows(rows: seq<Row>)
    ensures forall s :: s in PositionsIn(rows) <==> exists i :: 0 <= i < |rows| && rows[i].symbol == s
    ensures forall i :: 0 <= i < |rows| && IsLast(rows, i) ==>
              rows[i].symbol in PositionsIn(rows) && PositionsIn(rows)[rows[i].symbol] == rows[i].position
  {
    hide PositionsIn, IsLast;
    forall s | s in PositionsIn(rows) ensures exists i :: 0 <= i < |rows| && rows[i].symbol == s {
      var i := PositionHasRow(rows, s);
    }
    forall i | 0 <= i < |rows|
      ensures rows[i].symbol in PositionsIn(rows)
      ensures IsLast(rows, i) ==> PositionsIn(rows)[rows[i].symbol] == rows[i].position
    {
      LastRowIsPosition(rows, i);
    }
  }

  function SummaryOf(stored: Option<L.Summary>): L.Summary {
    match stored
    case Some(summary) => summary
    case None => L.Summary(DEFAULT_BUYING_POWER, 0.0, 0.0, 0.0, 0)
  }

  function NewAccount(stored: Option<L.Summary>, rows: seq<Row>): L.Account {
    L.Account(SummaryOf(stored), PositionsIn(rows), map[], map[], 0.0, map[], map[L.PLACEHOLDER.id := L.PLACEHOLDER])
  }

  /** What is stored fits together: no negative figures, and the borrowed balances add up. */
  ghost predicate StoredOk(stored: Option<L.Summary>, rows: seq<Row>) {
    var s := SummaryOf(stored);
    s.buyingPower >= 0.0 && I.PositionsOk(PositionsIn(rows)) && s.borrowed == Sum(PositionsIn(rows), I.Borrowed)
  }

  /** An account is opened as the theorems ask for exactly when what is stored fits together. */
  lemma OpenedIffStoredOk(stored: Option<L.Summary>, rows: seq<Row>)
    ensures T.Opened(NewAccount(stored, rows)) <==> StoredOk(stored, rows)
  {
  }

  lemma NothingStoredIsOk()
    ensures StoredOk(None, [])
  {
  }

  method OpenAccount(stored: Option<L.Summary>, rows: seq<Row>) returns (account: A.RiskManagement)
    ensures fresh(account) && fresh(account.summary) && fresh(account.items.Values) && account.Valid()
    ensures account.View() == NewAccount(stored, rows)
    ensures forall s :: s in account.items <==> exists i :: 0 <= i < |rows| && rows[i].symbol == s
    ensures forall i :: 0 <= i < |rows| && IsLast(rows, i) ==>
              rows[i].symbol in account.items && account.items[rows[i].symbol].View() == rows[i].position
    ensures stored.Some? ==> account.summary.View() == stored.value
    ensures stored.None? ==> account.summary.View() == L.Summary(1000000.0, 0.0, 0.0, 0.0, 0)
    ensures account.pendingBids == map[] && account.pendingAsks == map[] && account.pendingShortUnits == map[]
        && account.pendingShortCash == 0.0
  {
    match stored {
      case Some(s) =>
        account := new A.RiskManagement(s.buyingPower, s.holding, s.borrowed, s.totalPL, s.totalShares);
      case None =>
        account := new A.RiskManagement(DEFAULT_BUYING_POWER, 0.0, 0.0, 0.0, 0);
    }
    assert account.Positions() == map[];
    var row := 0;
    while row < |rows|
      invariant 0 <= row <= |rows| && account.Valid()
      invariant fresh(account) && fresh(account.summary) && fresh(account.items.Values)
      invariant account.View() == NewAccount(stored, rows[..row])
    {
      assert rows[..row + 1][..row] == rows[..row];
      account.InsertPortfolioItem(rows[row].symbol, rows[row].position);
      row := row + 1;
    }
    assert rows[..|rows|] == rows;
    PositionsAreLastRows(rows);
    assert account.Positions() == PositionsIn(rows);
    hide PositionsIn, IsLast;
    assert forall s :: s in account.items <==> s in account.Positions();
  }

  /** From the store through any interleaving of the two threads: the mutable account
      satisfies the invariants of the theorems, and its equity is what was stored. */
  method RunFromStore(stored: Option<L.Summary>, rows: seq<Row>, events: seq<R.Event>)
    returns (account: A.RiskManagement)
    requires StoredOk(stored, rows) && R.PossibleRun(T.Start(NewAccount(stored, rows)), events)
    ensures account.Valid()
    ensures var m := R.Run(T.Start(NewAccount(stored, rows)), events);
            account.View() == m.account && R.MachineInv(m, SummaryOf(stored).holding) && W.ListInv(m)
    ensures I.Equity(account.View()) == I.Equity(NewAccount(stored, rows))
  {
    OpenedIffStoredOk(stored, rows);
    T.Reachable(NewAccount(stored, rows), events);
    hide StoredOk, I.Equity, R.MachineInv, W.ListInv, R.Run, R.PossibleRun, PositionsIn;
    account := OpenAccount(stored, rows);
    account.RunSections(events, T.Start(NewAccount(stored, rows)));
  }
}
