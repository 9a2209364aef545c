/**
 Removing the symbols that the data source is known not to have: both lists are
 sorted, and one pass with a cursor that never moves back finds what to erase.
 */
module UnavailableSweep {
  import opened Strings

  // ----- sorting -----------------------------------------------------------

  /** A request that could not be served; only its symbol orders it. */
  datatype Request = Request(symbol: string, date: string)

  predicate Sorted(s: seq<string>) {
    forall i, j :: 0 <= i < j < |s| ==> !Less(s[j], s[i])
  }

  function Symbols(requests: seq<Request>): (s: seq<string>)
    ensures |s| == |requests| && forall i :: 0 <= i < |s| ==> s[i] == requests[i].symbol
  {
    seq(|requests|, i requires 0 <= i < |requests| => requests[i].symbol)
  }

  /** Inserts in front of the first request that is not smaller. */
  function Insert(x: Request, s: seq<Request>): seq<Request> {
    if s == [] || !Less(s[0].symbol, x.symbol) then [x] + s else [s[0]] + Insert(x, s[1..])
  }

  /** Stable sort by symbol. */
  function StableSort(s: seq<Request>): seq<Request> {
    if s == [] then [] else Insert(s[0], StableSort(s[1..]))
  }

  predicate AtLeast(low: string, s: seq<Request>) {
    forall i :: 0 <= i < |s| ==> !Less(s[i].symbol, low)
  }

  predicate InOrder(s: seq<Request>) {
    forall i, j :: 0 <= i < j < |s| ==> !Less(s[j].symbol, s[i].symbol)
  }

  lemma Prepend(x: Request, s: seq<Request>)
    requires InOrder(s) && AtLeast(x.symbol, s)
    ensures InOrder([x] + s)
  {
  }

  lemma AllAtLeast(low: string, s: seq<Request>)
    requires InOrder(s) && s != [] && !Less(s[0].symbol, low)
    ensures AtLeast(low, s)
  {
    forall i | 0 <= i < |s| ensures !Less(s[i].symbol, low) {
      if i > 0 { NotLessTransitive(low, s[0].symbol, s[i].symbol); }
    }
  }

  lemma {:induction false} InsertKeeps(x: Request, s: seq<Request>, low: string)
    requires InOrder(s) && AtLeast(low, s) && !Less(x.symbol, low)
    ensures InOrder(Insert(x, s)) && AtLeast(low, Insert(x, s)) && multiset(Insert(x, s)) == multiset{x} + multiset(s)
  {
    if s == [] {
      LessIrreflexive(x.symbol);
    } else if !Less(s[0].symbol, x.symbol) {
      AllAtLeast(x.symbol, s);
      Prepend(x, s);
    } else {
      var rest := s[1..];
      assert s == [s[0]] + rest;
      LessTotal(s[0].symbol, x.symbol);
      if Less(x.symbol, s[0].symbol) {
        LessTransitive(s[0].symbol, x.symbol, s[0].symbol);
        LessIrreflexive(s[0].symbol);
      }
      InsertKeeps(x, rest, s[0].symbol);
      Prepend(s[0], Insert(x, rest));
      AllAtLeast(low, [s[0]] + Insert(x, rest));
    }
  }

  /** A permutation in symbol order. */
  lemma {:induction false} StableSortSorts(s: seq<Request>)
    ensures InOrder(StableSort(s)) && multiset(StableSort(s)) == multiset(s)
  {
    if s != [] {
      StableSortSorts(s[1..]);
      assert s == [s[0]] + s[1..];
      LessFromEmpty(StableSort(s[1..]));
      InsertKeeps(s[0], StableSort(s[1..]), "");
    }
  }

  lemma LessFromEmpty(s: seq<Request>)
    ensures AtLeast("", s)
  {
  }

  /** Requests with the same symbol keep their order. */
  function Same(s: seq<Request>, symbol: string): seq<Request> {
    if s == [] then [] else (if s[0].symbol == symbol then [s[0]] else []) + Same(s[1..], symbol)
  }

  lemma SameStep(x: Request, s: seq<Request>, symbol: string)
    ensures Same([x] + s, symbol) == if x.symbol == symbol then [x] + Same(s, symbol) else Same(s, symbol)
  {
    assert ([x] + s)[1..] == s;
  }

  lemma {:induction false} InsertIsStable(x: Request, s: seq<Request>, symbol: string)
    ensures Same(Insert(x, s), symbol) == if x.symbol == symbol then [x] + Same(s, symbol) else Same(s, symbol)
  {
    LessIrreflexive(x.symbol);
    hide Less;
    if s == [] || !Less(s[0].symbol, x.symbol) {
      SameStep(x, s, symbol);
    } else {
      InsertIsStable(x, s[1..], symbol);
      SameStep(s[0], Insert(x, s[1..]), symbol);
      SameStep(s[0], s[1..], symbol);
      assert s == [s[0]] + s[1..];
      assert s[0].symbol != x.symbol;
    }
  }

  lemma {:induction false} StableSortIsStable(s: seq<Request>, symbol: string)
    ensures Same(StableSort(s), symbol) == Same(s, symbol)
  {
    if s != [] {
      StableSortIsStable(s[1..], symbol);
      InsertIsStable(s[0], StableSort(s[1..]), symbol);
    }
  }

  /** Plain strings are sorted like requests without a date. */
  function SortStrings(s: seq<string>): seq<string> {
    Symbols(StableSort(Bare(s)))
  }

  function Bare(s: seq<string>): (r: seq<Request>)
    ensures |r| == |s| && forall i :: 0 <= i < |r| ==> r[i] == Request(s[i], "")
  {
    seq(|s|, i requires 0 <= i < |s| => Request(s[i], ""))
  }

  lemma CountFront<T>(head: T, tail: seq<T>, x: T)
    ensures multiset([head] + tail)[x] == (if head == x then 1 else 0) + multiset(tail)[x]
  {
  }

  lemma {:induction false} SymbolCount(r: seq<Request>, symbol: string)
    requires forall i :: 0 <= i < |r| ==> r[i].date == ""
    ensures multiset(Symbols(r))[symbol] == multiset(r)[Request(symbol, "")]
  {
    if r != [] {
      SymbolCount(r[1..], symbol);
      assert Symbols(r) == [r[0].symbol] + Symbols(r[1..]);
      hide Symbols;
      CountFront(r[0], r[1..], Request(symbol, ""));
      CountFront(r[0].symbol, Symbols(r[1..]), symbol);
      assert r == [r[0]] + r[1..];
    }
  }

  lemma SortStringsSorts(s: seq<string>)
    ensures Sorted(SortStrings(s)) && forall x :: multiset(SortStrings(s))[x] == multiset(s)[x]
  {
    var r := StableSort(Bare(s));
    StableSortSorts(Bare(s));
    forall x ensures multiset(SortStrings(s))[x] == multiset(s)[x] {
      forall i | 0 <= i < |r| ensures r[i].date == "" {
        assert r[i] in multiset(r);
        assert r[i] in Bare(s);
      }
      SymbolCount(r, x);
      SymbolCount(Bare(s), x);
      assert Symbols(Bare(s)) == s;
    }
  }

  // ----- the sweep ---------------------------------------------------------

  predicate Listed(requests: seq<Request>, symbol: string) {
    exists i :: 0 <= i < |requests| && requests[i].symbol == symbol
  }

  function Without(s: seq<string>, requests: seq<Request>): seq<string> {
    if s == [] then []
    else
      var n := |s| - 1;
      Without(s[..n], requests) + (if Listed(requests, s[n]) then [] else [s[n]])
  }

  lemma CountBack<T>(front: seq<T>, last: T, x: T)
    ensures multiset(front + [last])[x] == multiset(front)[x] + (if last == x then 1 else 0)
  {
  }

  lemma {:induction false} WithoutCounts(s: seq<string>, requests: seq<Request>, x: string)
    ensures multiset(Without(s, requests))[x] == if Listed(requests, x) then 0 else multiset(s)[x]
  {
    if s != [] {
      var n := |s| - 1;
      var kept := Without(s[..n], requests);
      WithoutCounts(s[..n], requests, x);
      assert s == s[..n] + [s[n]];
      assert Without(s, requests) == if Listed(requests, s[n]) then kept else kept + [s[n]];
      hide Without, Listed;
      CountBack(s[..n], s[n], x);
      CountBack(kept, s[n], x);
    }
  }

  lemma {:induction false} WithoutSorted(s: seq<string>, requests: seq<Request>)
    requires Sorted(s)
    ensures Sorted(Without(s, requests))
    ensures |Without(s, requests)| <= |s|
    ensures forall x :: x in Without(s, requests) ==> x in s
  {
    if s != [] {
      var n := |s| - 1;
      WithoutSorted(s[..n], requests);
      assert s == s[..n] + [s[n]];
      var kept := Without(s[..n], requests);
      forall i | 0 <= i < |kept| ensures !Less(s[n], kept[i]) {
        assert kept[i] in s[..n];
      }
      hide Less;
    }
  }

  lemma ListedSame(r: seq<Request>, s: seq<Request>, x: string)
    requires multiset(r) == multiset(s) && Listed(r, x)
    ensures Listed(s, x)
  {
    var i :| 0 <= i < |r| && r[i].symbol == x;
    assert r[i] in multiset(s);
    assert r[i] in s;
  }

  /** First position from `from` on whose symbol is not smaller. */
  method LowerBound(requests: seq<Request>, from: nat, symbol: string) returns (pos: nat)
    requires from <= |requests| && InOrder(requests)
    ensures from <= pos <= |requests|
    ensures forall i :: from <= i < pos ==> Less(requests[i].symbol, symbol)
    ensures forall i :: pos <= i < |requests| ==> !Less(requests[i].symbol, symbol)
  {
    hide Less;
    var lo, hi := from, |requests|;
    while lo < hi
      invariant from <= lo <= hi <= |requests|
      invariant forall i :: from <= i < lo ==> Less(requests[i].symbol, symbol)
      invariant forall i :: hi <= i < |requests| ==> !Less(requests[i].symbol, symbol)
    {
      var mid := (lo + hi) / 2;
      if Less(requests[mid].symbol, symbol) {
        forall i | lo <= i < mid ensures Less(requests[i].symbol, symbol) {
          SmallerFront(requests[i].symbol, requests[mid].symbol, symbol);
        }
        lo := mid + 1;
      } else {
        forall i | mid < i < hi ensures !Less(requests[i].symbol, symbol) {
          NotLessTransitive(symbol, requests[mid].symbol, requests[i].symbol);
        }
        hi := mid;
      }
    }
    pos := lo;
  }

  lemma SmallerFront(a: string, b: string, c: string)
    requires !Less(b, a) && Less(b, c)
    ensures Less(a, c)
  {
    hide Less;
    LessTotal(a, b);
    if a != b { LessTransitive(a, b, c); }
  }

  lemma SmallerStill(a: string, b: string, c: string)
    requires Less(a, b) && !Less(c, b)
    ensures Less(a, c)
  {
    hide Less;
    LessTotal(b, c);
    if b != c { LessTransitive(a, b, c); }
  }

  /** With everything before the cursor smaller, the symbol is listed exactly when it
      stands at the cursor. */
  lemma ListedAtCursor(requests: seq<Request>, pos: nat, symbol: string)
    requires InOrder(requests) && pos <= |requests|
    requires forall i :: 0 <= i < pos ==> Less(requests[i].symbol, symbol)
    requires forall i :: pos <= i < |requests| ==> !Less(requests[i].symbol, symbol)
    ensures Listed(requests, symbol) <==> pos < |requests| && requests[pos].symbol == symbol
  {
    hide Less;
    LessIrreflexive(symbol);
    if Listed(requests, symbol) {
      var i :| 0 <= i < |requests| && requests[i].symbol == symbol;
      assert pos <= i;
      LessTotal(requests[pos].symbol, symbol);
      assert pos < i ==> !Less(requests[i].symbol, requests[pos].symbol);
    }
  }

  class TrthApi {
    var requestsUnavailable: seq<Request>

    constructor ()
      ensures requestsUnavailable == []
    {
      requestsUnavailable := [];
    }

    method AddUnavailableRequest(request: Request)
      modifies this
      ensures requestsUnavailable == old(requestsUnavailable) + [request]
    {
      requestsUnavailable := requestsUnavailable + [request];
    }

    /** Erases every occurrence of every unavailable symbol and nothing else; sorts
        both lists unless there is nothing to do. */
    method RemoveUnavailableRICs(originalRICs: seq<string>) returns (rics: seq<string>, removed: nat)
      modifies this
      ensures forall x :: multiset(rics)[x] == if Listed(old(requestsUnavailable), x) then 0
          else multiset(originalRICs)[x]
      ensures removed == |originalRICs| - |rics|
      ensures if old(requestsUnavailable) == [] || originalRICs == []
              then rics == originalRICs && requestsUnavailable == old(requestsUnavailable)
              else Sorted(rics) && requestsUnavailable == StableSort(old(requestsUnavailable))
    {
      if requestsUnavailable == [] || originalRICs == [] {
        return originalRICs, 0;
      }
      var sorted := SortStrings(originalRICs);
      SortStringsSorts(originalRICs);
      StableSortSorts(requestsUnavailable);
      requestsUnavailable := StableSort(requestsUnavailable);
      rics := Sweep(sorted, requestsUnavailable);
      SweepCounts(originalRICs, old(requestsUnavailable), sorted, requestsUnavailable, rics);
      removed := |originalRICs| - |rics|;
    }
  }

  lemma SweepCounts(original: seq<string>, unavailable: seq<Request>, sorted: seq<string>, requests: seq<Request>,
      rics: seq<string>)
    requires forall x :: multiset(sorted)[x] == multiset(original)[x]
    requires multiset(requests) == multiset(unavailable) && rics == Without(sorted, requests) && Sorted(sorted)
    ensures forall x :: multiset(rics)[x] == if Listed(unavailable, x) then 0 else multiset(original)[x]
    ensures |rics| <= |original| && Sorted(rics)
  {
    forall x ensures multiset(rics)[x] == if Listed(unavailable, x) then 0 else multiset(original)[x] {
      WithoutCounts(sorted, requests, x);
      if Listed(requests, x) { ListedSame(requests, unavailable, x); }
      if Listed(unavailable, x) { ListedSame(unavailable, requests, x); }
    }
    WithoutSorted(sorted, requests);
    assert multiset(sorted) == multiset(original);
    assert |multiset(sorted)| == |sorted| && |multiset(original)| == |original|;
  }

  /** The pass itself: the cursor only moves forward. */
  method Sweep(sorted: seq<string>, requests: seq<Request>) returns (rics: seq<string>)
    requires Sorted(sorted) && InOrder(requests)
    ensures rics == Without(sorted, requests)
  {
    hide Less;
    rics := [];
    var cursor := 0;
    var k := 0;
    while k < |sorted|
      invariant 0 <= k <= |sorted| && cursor <= |requests|
      invariant k == 0 ==> cursor == 0
      invariant k > 0 ==> forall i :: 0 <= i < cursor ==> Less(requests[i].symbol, sorted[k - 1])
      invariant rics == Without(sorted[..k], requests)
    {
      var symbol := sorted[k];
      forall i | 0 <= i < cursor ensures Less(requests[i].symbol, symbol) {
        SmallerStill(requests[i].symbol, sorted[k - 1], symbol);
      }
      cursor := LowerBound(requests, cursor, symbol);
      ListedAtCursor(requests, cursor, symbol);
      assert sorted[..k + 1][..k] == sorted[..k];
      if !(cursor < |requests| && requests[cursor].symbol == symbol) {
        rics := rics + [symbol];
      }
      k := k + 1;
    }
    assert sorted[..k] == sorted;
  }
}
