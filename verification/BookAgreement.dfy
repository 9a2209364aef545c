/**
 The client's list and the broker's nested map are the same global book after
 every common history of updates and clears.
 */
module BookAgreement {
  import opened Books

  function NotBetter(side: Side, m: map<Key, Entry>, price: real): map<Key, Entry> {
    map k | k in m && !Better(side, k.price, price) :: m[k]
  }

  lemma {:induction false} ListMapMembers(list: seq<Entry>, k: Key)
    ensures k in ListMap(list) <==> exists i :: 0 <= i < |list| && KeyOf(list[i]) == k
  {
    if list != [] {
      ListMapMembers(list[1..], k);
      if k in ListMap(list[1..]) {
        var i :| 0 <= i < |list[1..]| && KeyOf(list[1..][i]) == k;
        assert KeyOf(list[i + 1]) == k;
      }
      if i :| 0 < i < |list| && KeyOf(list[i]) == k {
        assert KeyOf(list[1..][i - 1]) == k;
      }
    }
  }

  lemma {:induction false} ListMapLookup(list: seq<Entry>, i: nat)
    requires UniqueKeys(list) && i < |list|
    ensures KeyOf(list[i]) in ListMap(list) && ListMap(list)[KeyOf(list[i])] == list[i]
  {
    if i > 0 {
      ListMapLookup(list[1..], i - 1);
      assert KeyOf(list[0]) != KeyOf(list[i]);
    }
  }

  /** Erasing the better prices from the front restricts the book to the rest. */
  lemma {:induction false} DropBetterKeeps(side: Side, list: seq<Entry>, price: real)
    requires Sorted(side, list) && UniqueKeys(list)
    ensures var kept := DropBetter(side, list, price);
            && Sorted(side, kept) && UniqueKeys(kept)
            && ListMap(kept) == NotBetter(side, ListMap(list), price)
            && forall i :: 0 <= i < |kept| ==> !Better(side, kept[i].price, price)
  {
    if list != [] && Better(side, list[0].price, price) {
      DropBetterKeeps(side, list[1..], price);
    } else {
      forall i | 0 <= i < |list| ensures !Better(side, list[i].price, price) {
        assert i > 0 ==> !Better(side, list[i].price, list[0].price);
      }
      forall k | k in ListMap(list) ensures !Better(side, k.price, price) {
        ListMapMembers(list, k);
      }
    }
  }

  lemma {:induction false} ReplaceInMap(list: seq<Entry>, i: nat, e: Entry)
    requires UniqueKeys(list) && i < |list| && KeyOf(list[i]) == KeyOf(e)
    ensures ListMap(list[i := e]) == ListMap(list)[KeyOf(e) := e]
  {
    if i == 0 {
      assert list[0 := e][1..] == list[1..];
    } else {
      assert list[i := e][1..] == list[1..][i - 1 := e];
      ReplaceInMap(list[1..], i - 1, e);
      assert KeyOf(list[0]) != KeyOf(e);
    }
  }

  /** In a list with nothing better than `price`, an entry that is not found is not there. */
  lemma {:induction false} NotFoundIsAbsent(side: Side, list: seq<Entry>, price: real, destination: string)
    requires Sorted(side, list) && forall i :: 0 <= i < |list| ==> !Better(side, list[i].price, price)
    requires FindEntry(list, price, destination) == |list|
    ensures forall i :: 0 <= i < |list| ==> KeyOf(list[i]) != Key(price, destination)
  {
    if list != [] {
      if list[0].price == price {
        NotFoundIsAbsent(side, list[1..], price, destination);
        assert forall i :: 0 < i < |list| ==> list[i] == list[1..][i - 1];
      } else {
        assert forall i :: 0 < i < |list| ==> !Better(side, list[i].price, list[0].price);
      }
    }
  }

  /** The client's update as a change of the finite map. */
  lemma UpdateGlobalMap(side: Side, list: seq<Entry>, e: Entry)
    requires Sorted(side, list) && UniqueKeys(list)
    ensures var next := UpdateGlobal(side, list, e);
            && Sorted(side, next) && UniqueKeys(next)
            && ListMap(next) == NotBetter(side, ListMap(list), e.price)[KeyOf(e) := e]
            && next != [] && next[0].price == e.price
  {
    DropBetterKeeps(side, list, e.price);
    var kept := DropBetter(side, list, e.price);
    var i := FindEntry(kept, e.price, e.destination);
    if i < |kept| {
      ReplaceInMap(kept, i, e);
    } else {
      NotFoundIsAbsent(side, kept, e.price, e.destination);
      assert ([e] + kept)[1..] == kept;
    }
  }

  lemma FlatLookup(book: Levels, p: real, d: string)
    ensures Key(p, d) in Flat(book) <==> p in book && d in book[p]
    ensures Key(p, d) in Flat(book) ==> Flat(book)[Key(p, d)] == book[p][d]
  {
  }

  /** What one save leaves at one price. */
  lemma SaveGlobalRow(side: Side, book: Levels, e: Entry, p: real)
    requires e.price > 0.0
    ensures var next := SaveGlobal(side, book, e);
            && (p in next <==> p == e.price || (p in book && !Better(side, p, e.price)))
            && (p in next ==> next[p] == if p == e.price then Row(book, p)[e.destination := e] else book[p])
  {
  }

  lemma SaveGlobalOk(side: Side, book: Levels, e: Entry)
    requires BookOk(book) && e.price > 0.0
    ensures BookOk(SaveGlobal(side, book, e)) && IsFirstPrice(side, SaveGlobal(side, book, e), e.price)
  {
    var next := SaveGlobal(side, book, e);
    SaveGlobalRow(side, book, e, e.price);
    forall p | p in next
      ensures p > 0.0 && next[p] != map[] && !Better(side, p, e.price)
      ensures forall d :: d in next[p] ==> KeyOf(next[p][d]) == Key(p, d)
    {
      SaveGlobalRow(side, book, e, p);
      hide SaveGlobal;
      if p == e.price { assert e.destination in next[p]; }
    }
    hide SaveGlobal, BookOk;
    assert next != map[];
  }

  lemma SaveGlobalAt(side: Side, book: Levels, e: Entry, p: real, d: string)
    requires e.price > 0.0
    ensures var next := Flat(SaveGlobal(side, book, e));
            && (Key(p, d) in next <==> Key(p, d) == KeyOf(e) || (Key(p, d) in Flat(book) && !Better(side, p, e.price)))
            && (Key(p, d) in next ==> next[Key(p, d)] == if Key(p, d) == KeyOf(e) then e else Flat(book)[Key(p, d)])
  {
    SaveGlobalRow(side, book, e, p);
    FlatLookup(SaveGlobal(side, book, e), p, d);
    FlatLookup(book, p, d);
    hide Flat, SaveGlobal;
  }

  lemma SameMap<K, V>(m: map<K, V>, n: map<K, V>)
    requires forall k :: k in m <==> k in n
    requires forall k :: k in m ==> m[k] == n[k]
    ensures m == n
  {
  }

  /** The broker's update as the same change of the finite map. */
  lemma SaveGlobalMap(side: Side, book: Levels, e: Entry)
    requires e.price > 0.0
    ensures Flat(SaveGlobal(side, book, e)) == NotBetter(side, Flat(book), e.price)[KeyOf(e) := e]
  {
    hide SaveGlobal, Flat, Better;
    var next := Flat(SaveGlobal(side, book, e));
    var expected := NotBetter(side, Flat(book), e.price)[KeyOf(e) := e];
    forall k ensures (k in next <==> k in expected) && (k in next ==> next[k] == expected[k]) {
      SaveGlobalAt(side, book, e, k.price, k.destination);
    }
    hide NotBetter;
    SameMap(next, expected);
  }

  /** Same book: the list is best first with unique keys and equals the nested map. */
  predicate GlobalReplica(side: Side, list: seq<Entry>, book: Levels) {
    Sorted(side, list) && UniqueKeys(list) && BookOk(book) && ListMap(list) == Flat(book)
  }

  lemma GlobalStep(side: Side, list: seq<Entry>, book: Levels, e: Entry)
    requires GlobalReplica(side, list, book)
    ensures GlobalReplica(side, ReceiveGlobal(side, list, e), SaveGlobal(side, book, e))
    ensures e.price > 0.0 ==>
              ReceiveGlobal(side, list, e) != [] && ReceiveGlobal(side, list, e)[0].price == e.price
              && IsFirstPrice(side, SaveGlobal(side, book, e), e.price)
  {
    if e.price > 0.0 {
      UpdateGlobalMap(side, list, e);
      SaveGlobalOk(side, book, e);
      SaveGlobalMap(side, book, e);
      hide NotBetter, UpdateGlobal, SaveGlobal, Flat, ListMap, Sorted, UniqueKeys, BookOk, IsFirstPrice;
    }
  }

  function ReceiveAllGlobal(side: Side, list: seq<Entry>, history: seq<Entry>): seq<Entry>
    decreases |history|
  {
    if history == [] then list
    else var n := |history| - 1; ReceiveGlobal(side, ReceiveAllGlobal(side, list, history[..n]), history[n])
  }

  function SaveAllGlobal(side: Side, book: Levels, history: seq<Entry>): Levels
    decreases |history|
  {
    if history == [] then book
    else var n := |history| - 1; SaveGlobal(side, SaveAllGlobal(side, book, history[..n]), history[n])
  }

  /** After any common history client and broker hold the same global book. */
  lemma {:induction false} GlobalBooksAgree(side: Side, list: seq<Entry>, book: Levels, history: seq<Entry>)
    requires GlobalReplica(side, list, book)
    ensures GlobalReplica(side, ReceiveAllGlobal(side, list, history), SaveAllGlobal(side, book, history))
    decreases |history|
  {
    if history != [] {
      var n := |history| - 1;
      GlobalBooksAgree(side, list, book, history[..n]);
      GlobalStep(side, ReceiveAllGlobal(side, list, history[..n]), SaveAllGlobal(side, book, history[..n]), history[n]);
    }
  }

  /** After a history that ends in an update, both report that update's price as best. */
  lemma LastUpdateIsBest(side: Side, list: seq<Entry>, book: Levels, history: seq<Entry>)
    requires GlobalReplica(side, list, book) && history != [] && history[|history| - 1].price > 0.0
    ensures var price := history[|history| - 1].price;
            var received := ReceiveAllGlobal(side, list, history);
            received != [] && received[0].price == price
                && IsFirstPrice(side, SaveAllGlobal(side, book, history), price)
  {
    var n := |history| - 1;
    GlobalBooksAgree(side, list, book, history[..n]);
    GlobalStep(side, ReceiveAllGlobal(side, list, history[..n]), SaveAllGlobal(side, book, history[..n]), history[n]);
  }
}
