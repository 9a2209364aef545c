/**
 The broker's order book of one symbol: four nested maps that received updates
 change in place, and the prices that market orders are checked against.
 */
module BrokerOrderBook {
  import opened Books
  import opened BookAgreement
  import opened LocalAgreement
  import opened Strings

  datatype BookType = GlobalBid | GlobalAsk | LocalBid | LocalAsk | Other

  /** An update as it waits in the buffer. */
  datatype BookUpdate = BookUpdate(kind: BookType, entry: Entry)

  /** The updates of one book, in order. */
  function Updates(buffer: seq<BookUpdate>, kind: BookType): seq<Entry> {
    if buffer == [] then []
    else
      var n := |buffer| - 1;
      Updates(buffer[..n], kind) + (if buffer[n].kind == kind then [buffer[n].entry] else [])
  }

  lemma NoUpdates(buffer: seq<BookUpdate>)
    ensures forall kind :: Updates(buffer[..0], kind) == []
  {
  }

  lemma OneMoreUpdate(buffer: seq<BookUpdate>, i: nat, kind: BookType)
    requires i < |buffer|
    ensures Updates(buffer[..i + 1], kind)
         == Updates(buffer[..i], kind) + (if buffer[i].kind == kind then [buffer[i].entry] else [])
  {
    assert buffer[..i + 1][..i] == buffer[..i];
  }

  lemma OneMoreGlobal(side: Side, book: Levels, buffer: seq<BookUpdate>, i: nat, kind: BookType)
    requires i < |buffer|
    ensures var before := SaveAllGlobal(side, book, Updates(buffer[..i], kind));
            SaveAllGlobal(side, book, Updates(buffer[..i + 1], kind))
            == if buffer[i].kind == kind then SaveGlobal(side, before, buffer[i].entry) else before
  {
    OneMoreUpdate(buffer, i, kind);
    var history := Updates(buffer[..i], kind);
    assert history + [] == history && (history + [buffer[i].entry])[..|history|] == history;
    hide Updates, SaveGlobal;
  }

  lemma OneMoreLocal(book: Levels, buffer: seq<BookUpdate>, i: nat, kind: BookType)
    requires i < |buffer|
    ensures var before := SaveAllLocal(book, Updates(buffer[..i], kind));
            SaveAllLocal(book, Updates(buffer[..i + 1], kind))
            == if buffer[i].kind == kind then SaveLocal(before, buffer[i].entry) else before
  {
    OneMoreUpdate(buffer, i, kind);
    var history := Updates(buffer[..i], kind);
    assert history + [] == history && (history + [buffer[i].entry])[..|history|] == history;
    hide Updates, SaveLocal;
  }

  lemma SomeMember<T>(s: set<T>) returns (x: T)
    requires s != {}
    ensures x in s
  {
    x :| x in s;
  }

  lemma {:induction false} BestKeyExists(side: Side, prices: set<real>)
    requires prices != {}
    ensures exists p :: p in prices && forall q :: q in prices ==> !Better(side, q, p)
    decreases |prices|
  {
    var p := SomeMember(prices);
    if prices == {p} {
      assert forall q :: q in prices ==> !Better(side, q, p);
    } else {
      var rest := prices - {p};
      BestKeyExists(side, rest);
      var b :| b in rest && forall q :: q in rest ==> !Better(side, q, b);
      var best := if Better(side, p, b) then p else b;
      assert forall q :: q in prices ==> q == p || q in rest;
      assert best in prices && forall q :: q in prices ==> !Better(side, q, best);
    }
  }

  /** The best price of a book has no choice. */
  lemma FirstPriceIsUnique(side: Side, book: Levels, p: real, q: real)
    requires IsFirstPrice(side, book, p) && IsFirstPrice(side, book, q)
    ensures p == q
  {
    assert book != map[] ==> !Better(side, p, q) && !Better(side, q, p);
  }

  /** First key of an ask map, last key of a bid map, 0 for an empty map. */
  method FirstPrice(side: Side, book: Levels) returns (price: real)
    ensures IsFirstPrice(side, book, price)
  {
    if book == map[] {
      return 0.0;
    }
    assert book.Keys != {};
    BestKeyExists(side, book.Keys);
    price :| price in book.Keys && forall q :: q in book.Keys ==> !Better(side, q, price);
  }

  // ----- sending the whole book to a new subscriber ------------------------

  /** Every entry of the list stands in the book under its own key. */
  ghost predicate Lists(list: seq<Entry>, book: Levels) {
    forall i :: 0 <= i < |list| ==>
      list[i].price in book && list[i].destination in book[list[i].price]
          && book[list[i].price][list[i].destination] == list[i]
  }

  /** Every entry of the book at one price is in the list. */
  ghost predicate ListsRow(list: seq<Entry>, row: map<string, Entry>) {
    forall d :: d in row ==> row[d] in list
  }

  lemma CompleteListing(side: Side, list: seq<Entry>, book: Levels)
    requires BookOk(book) && Sorted(side, list) && UniqueKeys(list) && Lists(list, book)
    requires forall p :: p in book ==> ListsRow(list, book[p])
    ensures GlobalReplica(side, list, book)
  {
    var m, n := ListMap(list), Flat(book);
    forall k: Key ensures (k in m <==> k in n) && (k in m ==> m[k] == n[k]) {
      ListMapMembers(list, k);
      FlatLookup(book, k.price, k.destination);
      if k in m {
        var i :| 0 <= i < |list| && KeyOf(list[i]) == k;
        ListMapLookup(list, i);
      }
      if k in n {
        var e := book[k.price][k.destination];
        assert ListsRow(list, book[k.price]);
        var i :| 0 <= i < |list| && list[i] == e;
        assert KeyOf(list[i]) == k;
      }
    }
    hide ListMap, Flat;
    SameMap(m, n);
  }

  /** Better prices go first, and within one price the destinations go in order. */
  predicate Before(side: Side, x: Entry, y: Entry) {
    Better(side, x.price, y.price) || (x.price == y.price && Less(x.destination, y.destination))
  }

  predicate InMapOrder(side: Side, list: seq<Entry>) {
    forall i, j :: 0 <= i < j < |list| ==> Before(side, list[i], list[j])
  }

  lemma MapOrderSorts(side: Side, list: seq<Entry>)
    requires InMapOrder(side, list)
    ensures Sorted(side, list) && UniqueKeys(list)
  {
    forall i, j | 0 <= i < j < |list|
      ensures !Better(side, list[j].price, list[i].price) && KeyOf(list[i]) != KeyOf(list[j])
    {
      assert Before(side, list[i], list[j]);
      LessIrreflexive(list[i].destination);
    }
  }

  lemma NeverBothBefore(side: Side, x: Entry, y: Entry)
    ensures !(Before(side, x, y) && Before(side, y, x))
  {
    if Less(x.destination, y.destination) && Less(y.destination, x.destination) {
      LessTransitive(x.destination, y.destination, x.destination);
      LessIrreflexive(x.destination);
    }
  }

  lemma ListedSomewhere(side: Side, list: seq<Entry>, other: seq<Entry>) returns (i: nat)
    requires UniqueKeys(list) && UniqueKeys(other) && ListMap(list) == ListMap(other) && other != []
    ensures i < |list| && list[i] == other[0]
  {
    ListMapLookup(other, 0);
    ListMapMembers(list, KeyOf(other[0]));
    i :| 0 <= i < |list| && KeyOf(list[i]) == KeyOf(other[0]);
    ListMapLookup(list, i);
  }

  /** A book has only one listing in this order. */
  lemma {:induction false} ListingIsUnique(side: Side, list: seq<Entry>, other: seq<Entry>)
    requires InMapOrder(side, list) && InMapOrder(side, other) && ListMap(list) == ListMap(other)
    ensures list == other
  {
    MapOrderSorts(side, list);
    MapOrderSorts(side, other);
    if list != [] && other != [] {
      var i := ListedSomewhere(side, list, other);
      var j := ListedSomewhere(side, other, list);
      NeverBothBefore(side, list[0], other[0]);
      assert list[0] == other[0];
      WithoutFirst(list);
      WithoutFirst(other);
      hide ListMap;
      ListingIsUnique(side, list[1..], other[1..]);
      assert list == [list[0]] + list[1..] && other == [other[0]] + other[1..];
    } else {
      if list != [] { ListMapLookup(list, 0); }
      if other != [] { ListMapLookup(other, 0); }
    }
  }

  lemma WithoutFirst(list: seq<Entry>)
    requires UniqueKeys(list) && list != []
    ensures ListMap(list[1..]) == ListMap(list) - {KeyOf(list[0])}
  {
    ListMapMembers(list[1..], KeyOf(list[0]));
  }

  lemma {:induction false} FirstDestinationExists(destinations: set<string>)
    requires destinations != {}
    ensures exists d :: d in destinations && forall x :: x in destinations ==> !Less(x, d)
    decreases |destinations|
  {
    var d := SomeMember(destinations);
    LessIrreflexive(d);
    var rest := destinations - {d};
    if rest != {} {
      FirstDestinationExists(rest);
      var f :| f in rest && forall x :: x in rest ==> !Less(x, f);
      if Less(d, f) && Less(f, d) { LessTransitive(d, f, d); }
      LessIrreflexive(f);
      hide Less;
      var first := if Less(d, f) then d else f;
      forall x | x in destinations ensures !Less(x, first) {
        if x in rest { NotLessTransitive(first, f, x); } else if first == d { LessIrreflexive(d); }
      }
      assert first in destinations;
    } else {
      assert destinations == {d};
    }
  }

  /** What is left of a price level comes behind everything sent. */
  predicate ComesNext(side: Side, list: seq<Entry>, price: real, rest: set<string>) {
    forall i, d :: 0 <= i < |list| && d in rest ==>
      Better(side, list[i].price, price) || (list[i].price == price && Less(list[i].destination, d))
  }

  lemma AppendKeeps(side: Side, list: seq<Entry>, e: Entry, rest: set<string>)
    requires InMapOrder(side, list) && ComesNext(side, list, e.price, rest)
    requires e.destination in rest && forall x :: x in rest ==> !Less(x, e.destination)
    ensures InMapOrder(side, list + [e]) && ComesNext(side, list + [e], e.price, rest - {e.destination})
  {
    var next := list + [e];
    assert forall i :: 0 <= i < |list| ==> next[i] == list[i] && Before(side, list[i], e);
    forall i, d | 0 <= i < |next| && d in rest - {e.destination}
      ensures Better(side, next[i].price, e.price) || (next[i].price == e.price && Less(next[i].destination, d))
    {
      if i == |list| { LessTotal(e.destination, d); }
    }
  }

  /** One price level goes out behind all better ones, its destinations in order. */
  method SendRow(side: Side, price: real, row: map<string, Entry>, sent: seq<Entry>) returns (list: seq<Entry>)
    requires forall d :: d in row ==> KeyOf(row[d]) == Key(price, d)
    requires InMapOrder(side, sent) && forall i :: 0 <= i < |sent| ==> Better(side, sent[i].price, price)
    ensures InMapOrder(side, list)
    ensures RowSent(price, row, sent, list)
  {
    list := sent;
    var rest := row;
    assert list[..|sent|] == sent;
    while rest != map[]
      invariant rest.Keys <= row.Keys && forall d :: d in rest ==> rest[d] == row[d]
      invariant InMapOrder(side, list) && ComesNext(side, list, price, rest.Keys)
      invariant RowSoFar(price, row, rest.Keys, sent, list)
      decreases |rest|
    {
      hide InMapOrder, ComesNext, Better, Less, RowSoFar;
      assert rest.Keys != {};
      FirstDestinationExists(rest.Keys);
      var d :| d in rest.Keys && forall x :: x in rest.Keys ==> !Less(x, d);
      assert rest[d] == row[d] && KeyOf(row[d]) == Key(price, d);
      AppendKeeps(side, list, rest[d], rest.Keys);
      RowSoFarStep(price, row, rest.Keys, sent, list, d);
      list := list + [rest[d]];
      rest := rest - {d};
    }
  }

  /** The part of a price level that has been sent. */
  ghost predicate RowSoFar(price: real, row: map<string, Entry>, rest: set<string>, sent: seq<Entry>,
      list: seq<Entry>) {
    && |list| >= |sent| && list[..|sent|] == sent
    && (forall i :: |sent| <= i < |list| ==>
          list[i].price == price && list[i].destination in row && row[list[i].destination] == list[i])
    && (forall d :: d in row && d !in rest ==> row[d] in list)
  }

  lemma RowSoFarStep(price: real, row: map<string, Entry>, rest: set<string>, sent: seq<Entry>, list: seq<Entry>,
      d: string)
    requires RowSoFar(price, row, rest, sent, list) && d in row && KeyOf(row[d]) == Key(price, d)
    ensures RowSoFar(price, row, rest - {d}, sent, list + [row[d]])
  {
    assert (list + [row[d]])[..|sent|] == list[..|sent|];
  }

  /** What has been sent is better than what is left, and nothing is missing. */
  ghost predicate SentSoFar(side: Side, list: seq<Entry>, book: Levels, rest: Levels) {
    && (forall i, p :: 0 <= i < |list| && p in rest ==> Better(side, list[i].price, p))
    && (forall p :: p in book && p !in rest ==> ListsRow(list, book[p]))
  }

  ghost predicate RowSent(price: real, row: map<string, Entry>, sent: seq<Entry>, list: seq<Entry>) {
    && |list| >= |sent| && list[..|sent|] == sent
    && (forall i :: |sent| <= i < |list| ==>
          list[i].price == price && list[i].destination in row && row[list[i].destination] == list[i])
    && ListsRow(list, row)
  }

  lemma SendRowLists(book: Levels, price: real, sent: seq<Entry>, list: seq<Entry>)
    requires price in book && RowSent(price, book[price], sent, list) && Lists(sent, book)
    ensures Lists(list, book)
  {
    assert forall i :: 0 <= i < |sent| ==> list[i] == sent[i];
  }

  lemma SendRowStep(side: Side, book: Levels, rest: Levels, price: real, sent: seq<Entry>, list: seq<Entry>)
    requires price in book && RowSent(price, book[price], sent, list) && SentSoFar(side, sent, book, rest)
    requires price in rest && IsFirstPrice(side, rest, price)
    ensures SentSoFar(side, list, book, rest - {price})
  {
    assert forall i :: 0 <= i < |sent| ==> list[i] == sent[i];
    forall p | p in book && p !in rest - {price} ensures ListsRow(list, book[p]) {
      if p != price {
        assert ListsRow(sent, book[p]);
      }
    }
    forall i, p | 0 <= i < |list| && p in rest - {price} ensures Better(side, list[i].price, p) {
      if i >= |sent| { assert !Better(side, p, price); }
    }
  }

  /** The whole book, best price first: what a new subscriber starts from. */
  method SendOrderBook(side: Side, book: Levels) returns (list: seq<Entry>)
    requires BookOk(book)
    ensures GlobalReplica(side, list, book) && InMapOrder(side, list)
  {
    list := [];
    var rest := book;
    while rest != map[]
      invariant rest.Keys <= book.Keys && forall p :: p in rest ==> rest[p] == book[p]
      invariant InMapOrder(side, list) && Lists(list, book)
      invariant SentSoFar(side, list, book, rest)
      decreases |rest|
    {
      var price := FirstPrice(side, rest);
      var sent := list;
      list := SendRow(side, price, rest[price], sent);
      hide InMapOrder, Lists, SentSoFar, ListsRow, Better;
      SendRowLists(book, price, sent, list);
      SendRowStep(side, book, rest, price, sent, list);
      rest := rest - {price};
    }
    MapOrderSorts(side, list);
    CompleteListing(side, list, book);
  }

  class OrderBook {
    var globalBid: Levels
    var globalAsk: Levels
    var localBid: Levels
    var localAsk: Levels

    constructor ()
      ensures globalBid == map[] && globalAsk == map[] && localBid == map[] && localAsk == map[]
    {
      globalBid, globalAsk, localBid, localAsk := map[], map[], map[], map[];
    }

    method SaveGlobalBidUpdate(update: Entry)
      modifies this`globalBid
      ensures globalBid == SaveGlobal(Bid, old(globalBid), update)
    {
      var price := update.price;
      if price <= 0.0 {
        globalBid := map[];
        return;
      }
      if price !in globalBid { globalBid := globalBid[price := map[]]; }
      globalBid := globalBid[price := globalBid[price][update.destination := update]];
      // erase from the first price above the update to the end
      globalBid := map p | p in globalBid && !(p > price) :: globalBid[p];
    }

    method SaveGlobalAskUpdate(update: Entry)
      modifies this`globalAsk
      ensures globalAsk == SaveGlobal(Ask, old(globalAsk), update)
    {
      var price := update.price;
      if price <= 0.0 {
        globalAsk := map[];
        return;
      }
      if price !in globalAsk { globalAsk := globalAsk[price := map[]]; }
      globalAsk := globalAsk[price := globalAsk[price][update.destination := update]];
      // erase from the beginning to the first price not below the update
      globalAsk := map p | p in globalAsk && !(p < price) :: globalAsk[p];
    }

    static method SaveLocalUpdate(update: Entry, localBook: Levels) returns (saved: Levels)
      ensures saved == SaveLocal(localBook, update)
    {
      var price := update.price;
      saved := localBook;
      if price <= 0.0 {
        return map[];
      }
      if price !in saved { saved := saved[price := map[]]; }
      if update.size > 0 {
        saved := saved[price := saved[price][update.destination := update]];
      } else {
        saved := saved[price := saved[price] - {update.destination}];
        if saved[price] == map[] {
          saved := saved - {price};
        }
      }
    }

    /** Dispatch of one buffered update; the other three books stay as they are. */
    method Process(kind: BookType, update: Entry)
      modifies this
      ensures globalBid == if kind.GlobalBid? then SaveGlobal(Bid, old(globalBid), update) else old(globalBid)
      ensures globalAsk == if kind.GlobalAsk? then SaveGlobal(Ask, old(globalAsk), update) else old(globalAsk)
      ensures localBid == if kind.LocalBid? then SaveLocal(old(localBid), update) else old(localBid)
      ensures localAsk == if kind.LocalAsk? then SaveLocal(old(localAsk), update) else old(localAsk)
    {
      match kind {
        case GlobalBid => SaveGlobalBidUpdate(update);
        case GlobalAsk => SaveGlobalAskUpdate(update);
        case LocalBid => localBid := SaveLocalUpdate(update, localBid);
        case LocalAsk => localAsk := SaveLocalUpdate(update, localAsk);
        case Other =>
      }
    }

    /** Works off the buffer; every update is broadcast in its turn. */
    method ProcessAll(buffer: seq<BookUpdate>) returns (broadcast: seq<BookUpdate>)
      modifies this
      ensures globalBid == SaveAllGlobal(Bid, old(globalBid), Updates(buffer, GlobalBid))
      ensures globalAsk == SaveAllGlobal(Ask, old(globalAsk), Updates(buffer, GlobalAsk))
      ensures localBid == SaveAllLocal(old(localBid), Updates(buffer, LocalBid))
      ensures localAsk == SaveAllLocal(old(localAsk), Updates(buffer, LocalAsk))
      ensures broadcast == buffer
    {
      broadcast := [];
      var i := 0;
      hide Updates, SaveGlobal, SaveLocal;
      assert Updates(buffer[..0], GlobalBid) == Updates(buffer[..0], GlobalAsk) == [] by { NoUpdates(buffer); }
      assert Updates(buffer[..0], LocalBid) == Updates(buffer[..0], LocalAsk) == [] by { NoUpdates(buffer); }
      assert buffer[..|buffer|] == buffer;
      while i < |buffer|
        invariant 0 <= i <= |buffer| && broadcast == buffer[..i]
        invariant globalBid == SaveAllGlobal(Bid, old(globalBid), Updates(buffer[..i], GlobalBid))
        invariant globalAsk == SaveAllGlobal(Ask, old(globalAsk), Updates(buffer[..i], GlobalAsk))
        invariant localBid == SaveAllLocal(old(localBid), Updates(buffer[..i], LocalBid))
        invariant localAsk == SaveAllLocal(old(localAsk), Updates(buffer[..i], LocalAsk))
      {
        OneMoreGlobal(Bid, old(globalBid), buffer, i, GlobalBid);
        OneMoreGlobal(Ask, old(globalAsk), buffer, i, GlobalAsk);
        OneMoreLocal(old(localBid), buffer, i, LocalBid);
        OneMoreLocal(old(localAsk), buffer, i, LocalAsk);
        var front := buffer[i];
        Process(front.kind, front.entry);
        broadcast := broadcast + [front];
        i := i + 1;
      }
    }

    /** The price a market order is checked against: the best over the global and the
        local book of the opposite side, 0 when both are empty. */
    method MarketFirstPrice(isBuy: bool) returns (price: real)
      requires BookOk(globalBid) && BookOk(globalAsk) && BookOk(localBid) && BookOk(localAsk)
      ensures isBuy ==> IsFirstOfBoth(Bid, globalBid, localBid, price)
      ensures !isBuy ==> IsFirstOfBoth(Ask, globalAsk, localAsk, price)
    {
      if isBuy {
        var globalPrice := FirstPrice(Bid, globalBid);
        var localPrice := FirstPrice(Bid, localBid);
        return if globalPrice < localPrice then localPrice else globalPrice;
      }
      var globalPrice := FirstPrice(Ask, globalAsk);
      var localPrice := FirstPrice(Ask, localAsk);
      if (globalPrice > 0.0 && globalPrice < localPrice) || localPrice == 0.0 {
        return globalPrice;
      }
      return localPrice;
    }
  }

  predicate IsFirstOfBoth(side: Side, global: Levels, local: Levels, price: real) {
    if global == map[] && local == map[] then price == 0.0
    else
      && price > 0.0
      && (price in global || price in local)
      && (forall p :: p in global ==> !Better(side, p, price))
      && (forall p :: p in local ==> !Better(side, p, price))
  }
}
