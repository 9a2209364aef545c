/**
 Local books: an update sets or removes one entry.  The broker keeps every
 destination of a price; the client keeps one entry per price, whose destination
 is that of the first update.  The two stay the same book exactly as long as no
 update clashes with an entry of another destination at its price.
 */
module LocalAgreement {
  import opened Books
  import opened BookAgreement

  /** Price and destination to size of the entries that hold any; the client's
      entries without size are skipped. */
  function Live(list: seq<Entry>): map<Key, int> {
    if list == [] then map[]
    else if list[0].size > 0 then Live(list[1..])[KeyOf(list[0]) := list[0].size]
    else Live(list[1..])
  }

  /** Price and destination to size in the broker's nested map. */
  function Sizes(book: Levels): map<Key, int> {
    map p, d | p in book && d in book[p] :: Key(p, d) := book[p][d].size
  }

  /** One update as a change of such a map. */
  function SetSize(m: map<Key, int>, k: Key, size: int): map<Key, int> {
    if size > 0 then m[k := size] else m - {k}
  }

  /** A local book never holds an empty level or a size below one. */
  predicate LocalBookOk(book: Levels) {
    BookOk(book) && forall p, d :: p in book && d in book[p] ==> book[p][d].size > 0
  }

  /** Same local book: price, destination and size, the client's sizeless entries apart. */
  predicate LocalReplica(side: Side, list: seq<Entry>, book: Levels) {
    StrictlySorted(side, list) && LocalBookOk(book) && Live(list) == Sizes(book)
  }

  /** The client already has an entry of another destination at the price of the
      update, and one of the two holds some size. */
  predicate Clash(list: seq<Entry>, e: Entry) {
    exists i :: 0 <= i < |list| && ClashesWith(list[i], e)
  }

  predicate ClashesWith(held: Entry, e: Entry) {
    held.price == e.price && held.destination != e.destination && (held.size > 0 || e.size > 0)
  }

  // ----- the client's list -------------------------------------------------

  predicate AllWorse(side: Side, price: real, list: seq<Entry>) {
    forall i :: 0 <= i < |list| ==> Better(side, price, list[i].price)
  }

  lemma {:induction false} LiveMembers(list: seq<Entry>, k: Key)
    requires k in Live(list)
    ensures exists i :: 0 <= i < |list| && KeyOf(list[i]) == k
  {
    if k in Live(list[1..]) {
      LiveMembers(list[1..], k);
      var i :| 0 <= i < |list[1..]| && KeyOf(list[1..][i]) == k;
      assert KeyOf(list[i + 1]) == k;
    }
  }

  lemma WorseIsAbsent(side: Side, list: seq<Entry>, price: real, destination: string)
    requires AllWorse(side, price, list)
    ensures Key(price, destination) !in Live(list)
  {
    if Key(price, destination) in Live(list) {
      LiveMembers(list, Key(price, destination));
    }
  }

  lemma TailIsWorse(side: Side, list: seq<Entry>, price: real)
    requires StrictlySorted(side, list) && list != [] && !Better(side, list[0].price, price)
    ensures StrictlySorted(side, list[1..]) && AllWorse(side, list[0].price, list[1..])
    ensures list[0].price != price ==> AllWorse(side, price, list)
  {
    forall i | 0 <= i < |list[1..]| ensures Better(side, list[0].price, list[1..][i].price) {
      assert Better(side, list[0].price, list[i + 1].price);
    }
  }

  lemma Prepend(side: Side, head: Entry, tail: seq<Entry>)
    requires StrictlySorted(side, tail) && AllWorse(side, head.price, tail)
    ensures StrictlySorted(side, [head] + tail)
    ensures Live([head] + tail) == if head.size > 0 then Live(tail)[KeyOf(head) := head.size] else Live(tail)
  {
    assert ([head] + tail)[1..] == tail;
  }

  /** A price in front of an updated tail stays in front. */
  lemma {:induction false} UpdateLocalBound(side: Side, list: seq<Entry>, e: Entry, price: real)
    requires Better(side, price, e.price) && AllWorse(side, price, list)
    ensures AllWorse(side, price, UpdateLocal(side, list, e))
  {
    if list == [] || Better(side, e.price, list[0].price) || list[0].price == e.price {
    } else {
      UpdateLocalBound(side, list[1..], e, price);
    }
  }

  /** The scan keeps the list strictly sorted. */
  lemma {:induction false} UpdateLocalSorted(side: Side, list: seq<Entry>, e: Entry)
    requires StrictlySorted(side, list)
    ensures StrictlySorted(side, UpdateLocal(side, list, e))
  {
    if list == [] || Better(side, e.price, list[0].price) {
      if list != [] { TailIsWorse(side, list, e.price); }
      Prepend(side, e, list);
    } else {
      TailIsWorse(side, list, list[0].price);
      if list[0].price == e.price {
        Prepend(side, list[0].(size := e.size), list[1..]);
      } else {
        UpdateLocalSorted(side, list[1..], e);
        UpdateLocalBound(side, list[1..], e, list[0].price);
        Prepend(side, list[0], UpdateLocal(side, list[1..], e));
      }
    }
  }

  lemma SetSizeCommutes(m: map<Key, int>, k: Key, size: int, k': Key, size': int)
    requires k != k'
    ensures SetSize(m, k', size')[k := size] == SetSize(m[k := size], k', size')
  {
  }

  lemma ClashInTail(list: seq<Entry>, e: Entry)
    requires list != []
    ensures Clash(list, e) <==> ClashesWith(list[0], e) || Clash(list[1..], e)
  {
    if i :| 0 < i < |list| && ClashesWith(list[i], e) {
      assert list[1..][i - 1] == list[i];
    }
    if i :| 0 <= i < |list[1..]| && ClashesWith(list[1..][i], e) {
      assert list[i + 1] == list[1..][i];
    }
  }

  lemma NoneAtPrice(side: Side, list: seq<Entry>, e: Entry)
    requires AllWorse(side, e.price, list)
    ensures !Clash(list, e)
  {
  }

  /** Without a clash the scan sets or removes exactly the entry of the update. */
  lemma {:induction false} UpdateWithoutClash(side: Side, list: seq<Entry>, e: Entry)
    requires StrictlySorted(side, list) && !Clash(list, e)
    ensures Live(UpdateLocal(side, list, e)) == SetSize(Live(list), KeyOf(e), e.size)
  {
    if list == [] || Better(side, e.price, list[0].price) {
      if list != [] { TailIsWorse(side, list, e.price); }
      WorseIsAbsent(side, list, e.price, e.destination);
      Prepend(side, e, list);
    } else {
      TailIsWorse(side, list, list[0].price);
      ClashInTail(list, e);
      WorseIsAbsent(side, list[1..], list[0].price, e.destination);
      hide StrictlySorted, Clash, AllWorse;
      if list[0].price == e.price {
        Prepend(side, list[0].(size := e.size), list[1..]);
      } else {
        UpdateWithoutClash(side, list[1..], e);
        UpdateLocalSorted(side, list[1..], e);
        UpdateLocalBound(side, list[1..], e, list[0].price);
        Prepend(side, list[0], UpdateLocal(side, list[1..], e));
        SetSizeCommutes(Live(list[1..]), KeyOf(list[0]), list[0].size, KeyOf(e), e.size);
        hide SetSize;
      }
    }
  }

  /** With a clash it does something else: the size goes to the destination held, or
      the entry of another destination is removed. */
  lemma {:induction false} UpdateWithClash(side: Side, list: seq<Entry>, e: Entry)
    requires StrictlySorted(side, list) && Clash(list, e)
    ensures Live(UpdateLocal(side, list, e)) != SetSize(Live(list), KeyOf(e), e.size)
  {
    if Better(side, e.price, list[0].price) {
      TailIsWorse(side, list, e.price);
      NoneAtPrice(side, list, e);
    } else {
      TailIsWorse(side, list, list[0].price);
      ClashInTail(list, e);
      if list[0].price == e.price {
        NoneAtPrice(side, list[1..], e);
        WorseIsAbsent(side, list[1..], e.price, e.destination);
        WorseIsAbsent(side, list[1..], e.price, list[0].destination);
        Prepend(side, list[0].(size := e.size), list[1..]);
        assert e.size > 0 ==> KeyOf(e) !in Live(UpdateLocal(side, list, e));
        assert e.size <= 0 ==> KeyOf(list[0]) in Live(list) && KeyOf(list[0]) !in Live(list[1..]);
      } else {
        UpdateWithClash(side, list[1..], e);
        UpdateLocalSorted(side, list[1..], e);
        UpdateLocalBound(side, list[1..], e, list[0].price);
        Prepend(side, list[0], UpdateLocal(side, list[1..], e));
        AbsentBehind(side, list, e);
        SetSizeCommutes(Live(list[1..]), KeyOf(list[0]), list[0].size, KeyOf(e), e.size);
        hide Clash, StrictlySorted, AllWorse;
        SetUnderneath(Live(UpdateLocal(side, list[1..], e)), SetSize(Live(list[1..]), KeyOf(e), e.size), KeyOf(list[0]),
            list[0].size);
      }
    }
  }

  /** The key in front is in neither the updated tail nor its intended change. */
  lemma AbsentBehind(side: Side, list: seq<Entry>, e: Entry)
    requires StrictlySorted(side, list) && list != [] && Better(side, list[0].price, e.price)
    ensures KeyOf(list[0]) !in Live(UpdateLocal(side, list[1..], e))
    ensures KeyOf(list[0]) !in SetSize(Live(list[1..]), KeyOf(e), e.size)
  {
    TailIsWorse(side, list, list[0].price);
    WorseIsAbsent(side, list[1..], list[0].price, list[0].destination);
    UpdateLocalBound(side, list[1..], e, list[0].price);
    WorseIsAbsent(side, UpdateLocal(side, list[1..], e), list[0].price, list[0].destination);
  }

  lemma SetUnderneath(m: map<Key, int>, n: map<Key, int>, k: Key, size: int)
    requires m != n && k !in m && k !in n
    ensures m[k := size] != n[k := size]
  {
    assert m[k := size] - {k} == m && n[k := size] - {k} == n;
  }

  // ----- the broker's maps -------------------------------------------------

  lemma SizesLookup(book: Levels, p: real, d: string)
    ensures Key(p, d) in Sizes(book) <==> p in book && d in book[p]
    ensures Key(p, d) in Sizes(book) ==> Sizes(book)[Key(p, d)] == book[p][d].size
  {
  }

  /** What one save leaves at one price and destination. */
  lemma SaveLocalRow(book: Levels, e: Entry, p: real, d: string)
    requires e.price > 0.0
    ensures var next := SaveLocal(book, e);
            if Key(p, d) == KeyOf(e) then
              (p in next && d in next[p] <==> e.size > 0) && (p in next && d in next[p] ==> next[p][d] == e)
            else
              && (p in next && d in next[p] <==> p in book && d in book[p])
              && (p in next && d in next[p] ==> next[p][d] == book[p][d])
  {
    var row := Row(book, e.price);
    assert d in row - {e.destination} <==> d in row && d != e.destination;
  }

  lemma SaveLocalAt(book: Levels, e: Entry, p: real, d: string)
    requires e.price > 0.0
    ensures var next := Sizes(SaveLocal(book, e));
            if Key(p, d) == KeyOf(e) then
              (Key(p, d) in next <==> e.size > 0) && (Key(p, d) in next ==> next[Key(p, d)] == e.size)
            else
              && (Key(p, d) in next <==> Key(p, d) in Sizes(book))
              && (Key(p, d) in next ==> next[Key(p, d)] == Sizes(book)[Key(p, d)])
  {
    SaveLocalRow(book, e, p, d);
    SizesLookup(SaveLocal(book, e), p, d);
    SizesLookup(book, p, d);
    hide SaveLocal, Sizes;
  }

  lemma SaveLocalKeepsOk(book: Levels, e: Entry)
    requires LocalBookOk(book) && e.price > 0.0
    ensures LocalBookOk(SaveLocal(book, e))
  {
    var next := SaveLocal(book, e);
    forall p, d | p in next && d in next[p] ensures KeyOf(next[p][d]) == Key(p, d) && next[p][d].size > 0 {
      var entry := next[p][d];
      assert entry == e || (p in book && d in book[p] && entry == book[p][d]);
    }
    assert e.size > 0 ==> e.destination in next[e.price];
  }

  /** The broker sets or removes exactly the entry of the update, whatever else is
      at its price. */
  lemma SaveLocalMap(book: Levels, e: Entry)
    requires e.price > 0.0
    ensures Sizes(SaveLocal(book, e)) == SetSize(Sizes(book), KeyOf(e), e.size)
  {
    var next, expected := Sizes(SaveLocal(book, e)), SetSize(Sizes(book), KeyOf(e), e.size);
    hide SaveLocal, Sizes;
    forall k ensures (k in next <==> k in expected) && (k in next ==> next[k] == expected[k]) {
      assert k == Key(k.price, k.destination);
      SaveLocalAt(book, e, k.price, k.destination);
    }
    hide SetSize;
    assert next == expected;
  }

  // ----- one update --------------------------------------------------------

  /** An update leaves client and broker with the same local book exactly when it
      does not clash. */
  lemma AgreesIffNoClash(side: Side, list: seq<Entry>, book: Levels, e: Entry)
    requires LocalReplica(side, list, book) && e.price > 0.0
    ensures LocalReplica(side, ReceiveLocal(side, list, e), SaveLocal(book, e)) <==> !Clash(list, e)
  {
    UpdateLocalSorted(side, list, e);
    SaveLocalKeepsOk(book, e);
    SaveLocalMap(book, e);
    hide StrictlySorted, LocalBookOk, SaveLocal, UpdateLocal, Live, Sizes, SetSize, Clash;
    if Clash(list, e) {
      UpdateWithClash(side, list, e);
    } else {
      UpdateWithoutClash(side, list, e);
    }
  }

  lemma ClearsAgree(side: Side, list: seq<Entry>, book: Levels, e: Entry)
    requires e.price <= 0.0
    ensures LocalReplica(side, ReceiveLocal(side, list, e), SaveLocal(book, e))
  {
  }

  /** Two destinations with size at one price part the books. */
  lemma SharedPriceDiverges(side: Side, list: seq<Entry>, book: Levels, a: Entry, b: Entry)
    requires LocalReplica(side, list, book) && a.price == b.price > 0.0 && !Clash(list, a)
    requires a.destination != b.destination && a.size > 0 && b.size > 0
    ensures LocalReplica(side, ReceiveLocal(side, list, a), SaveLocal(book, a))
    ensures !LocalReplica(side, ReceiveLocal(side, ReceiveLocal(side, list, a), b), SaveLocal(SaveLocal(book, a), b))
  {
    var next := ReceiveLocal(side, list, a);
    AgreesIffNoClash(side, list, book, a);
    UpdateWithoutClash(side, list, a);
    LiveIsHeld(next, KeyOf(a));
    AgreesIffNoClash(side, next, SaveLocal(book, a), b);
  }

  lemma {:induction false} LiveIsHeld(list: seq<Entry>, k: Key)
    requires k in Live(list)
    ensures exists i :: 0 <= i < |list| && KeyOf(list[i]) == k && list[i].size > 0
  {
    if !(list[0].size > 0 && KeyOf(list[0]) == k) {
      LiveIsHeld(list[1..], k);
      var i :| 0 <= i < |list[1..]| && KeyOf(list[1..][i]) == k && list[1..][i].size > 0;
      assert KeyOf(list[i + 1]) == k && list[i + 1].size > 0;
    }
  }

  // ----- whole histories ---------------------------------------------------

  function ReceiveAllLocal(side: Side, list: seq<Entry>, history: seq<Entry>): seq<Entry>
    decreases |history|
  {
    if history == [] then list
    else var n := |history| - 1; ReceiveLocal(side, ReceiveAllLocal(side, list, history[..n]), history[n])
  }

  function SaveAllLocal(book: Levels, history: seq<Entry>): Levels
    decreases |history|
  {
    if history == [] then book
    else var n := |history| - 1; SaveLocal(SaveAllLocal(book, history[..n]), history[n])
  }

  /** No update of the history clashes with what the client holds when it arrives. */
  predicate ClashFree(side: Side, list: seq<Entry>, history: seq<Entry>)
    decreases |history|
  {
    history == [] ||
    var n := |history| - 1;
    && ClashFree(side, list, history[..n])
    && (history[n].price > 0.0 ==> !Clash(ReceiveAllLocal(side, list, history[..n]), history[n]))
  }

  ghost predicate AgreeThroughout(side: Side, list: seq<Entry>, book: Levels, history: seq<Entry>)
  {
    forall n {:trigger history[..n]} :: 0 <= n <= |history| ==>
      LocalReplica(side, ReceiveAllLocal(side, list, history[..n]), SaveAllLocal(book, history[..n]))
  }

  lemma AgreeOneMore(side: Side, list: seq<Entry>, book: Levels, history: seq<Entry>)
    requires history != []
    ensures AgreeThroughout(side, list, book, history) <==>
              && AgreeThroughout(side, list, book, history[..|history| - 1])
              && LocalReplica(side, ReceiveAllLocal(side, list, history), SaveAllLocal(book, history))
  {
    hide LocalReplica, ReceiveAllLocal, SaveAllLocal;
    var first := history[..|history| - 1];
    assert forall n :: 0 <= n <= |first| ==> first[..n] == history[..n];
    assert history[..|history|] == history;
    if AgreeThroughout(side, list, book, history) {
      forall n {:trigger first[..n]} | 0 <= n <= |first|
        ensures LocalReplica(side, ReceiveAllLocal(side, list, first[..n]), SaveAllLocal(book, first[..n]))
      {
        assert first[..n] == history[..n];
      }
    }
    if AgreeThroughout(side, list, book, first)
        && LocalReplica(side, ReceiveAllLocal(side, list, history), SaveAllLocal(book, history)) {
      forall n {:trigger history[..n]} | 0 <= n <= |history|
        ensures LocalReplica(side, ReceiveAllLocal(side, list, history[..n]), SaveAllLocal(book, history[..n]))
      {
        if n < |history| { assert first[..n] == history[..n]; }
      }
    }
  }

  /** Over every common history client and broker hold the same local book at every
      moment if and only if no update clashes. */
  lemma {:induction false} LocalBooksAgreeIffClashFree(side: Side, list: seq<Entry>, book: Levels, history: seq<Entry>)
    requires LocalReplica(side, list, book)
    ensures AgreeThroughout(side, list, book, history) <==> ClashFree(side, list, history)
    decreases |history|
  {
    if history == [] {
      assert history[..0] == [];
    } else {
      var n := |history| - 1;
      LocalBooksAgreeIffClashFree(side, list, book, history[..n]);
      AgreeOneMore(side, list, book, history);
      var held, saved := ReceiveAllLocal(side, list, history[..n]), SaveAllLocal(book, history[..n]);
      if AgreeThroughout(side, list, book, history[..n]) {
        assert history[..n][..n] == history[..n];
        hide LocalReplica, ReceiveLocal, SaveLocal, Clash;
        if history[n].price > 0.0 {
          AgreesIffNoClash(side, held, saved, history[n]);
        } else {
          ClearsAgree(side, held, saved, history[n]);
        }
      }
    }
  }

  // ----- one destination per price -----------------------------------------

  /** Every entry comes from the destination that its price belongs to. */
  predicate AtHome(entries: seq<Entry>, home: real -> string) {
    forall i :: 0 <= i < |entries| ==> entries[i].destination == home(entries[i].price)
  }

  lemma {:induction false} UpdateStaysAtHome(side: Side, list: seq<Entry>, e: Entry, home: real -> string)
    requires AtHome(list, home) && e.destination == home(e.price)
    ensures AtHome(UpdateLocal(side, list, e), home)
  {
    if list == [] || Better(side, e.price, list[0].price) || list[0].price == e.price {
    } else {
      UpdateStaysAtHome(side, list[1..], e, home);
    }
  }

  lemma {:induction false} AtHomeIsClashFree(side: Side, list: seq<Entry>, history: seq<Entry>, home: real -> string)
    requires AtHome(list, home) && AtHome(history, home)
    ensures ClashFree(side, list, history) && AtHome(ReceiveAllLocal(side, list, history), home)
    decreases |history|
  {
    if history != [] {
      var n := |history| - 1;
      AtHomeIsClashFree(side, list, history[..n], home);
      UpdateStaysAtHome(side, ReceiveAllLocal(side, list, history[..n]), history[n], home);
    }
  }

  /** When every price has one destination, all the same or not, both hold the same
      local book after any common history. */
  lemma LocalBooksAgree(side: Side, list: seq<Entry>, book: Levels, history: seq<Entry>, home: real -> string)
    requires LocalReplica(side, list, book) && AtHome(list, home) && AtHome(history, home)
    ensures LocalReplica(side, ReceiveAllLocal(side, list, history), SaveAllLocal(book, history))
    ensures AtHome(ReceiveAllLocal(side, list, history), home)
  {
    AtHomeIsClashFree(side, list, history, home);
    LocalBooksAgreeIffClashFree(side, list, book, history);
    assert history[..|history|] == history;
  }

  // ----- the listing a new subscriber starts from --------------------------

  lemma {:induction false} AllLive(list: seq<Entry>)
    requires forall i :: 0 <= i < |list| ==> list[i].size > 0
    ensures forall k :: k in Live(list) <==> k in ListMap(list)
    ensures forall k :: k in Live(list) ==> Live(list)[k] == ListMap(list)[k].size
  {
    if list != [] {
      AllLive(list[1..]);
    }
  }

  lemma ListedSizes(list: seq<Entry>, book: Levels)
    requires UniqueKeys(list) && LocalBookOk(book) && ListMap(list) == Flat(book)
    ensures Live(list) == Sizes(book)
  {
    forall i | 0 <= i < |list| ensures list[i].size > 0 {
      ListMapLookup(list, i);
      FlatLookup(book, list[i].price, list[i].destination);
    }
    AllLive(list);
    hide *;
    forall k ensures (k in Live(list) <==> k in Sizes(book)) && (k in Live(list) ==> Live(list)[k] == Sizes(book)[k]) {
      SizesAt(book, k);
    }
    SameMap(Live(list), Sizes(book));
  }

  lemma SizesAt(book: Levels, k: Key)
    ensures k in Flat(book) <==> k in Sizes(book)
    ensures k in Sizes(book) ==> Sizes(book)[k] == Flat(book)[k].size
  {
    assert k == Key(k.price, k.destination);
  }

  /** No price level has two destinations. */
  predicate Unshared(book: Levels) {
    forall p, d, d' :: p in book && d in book[p] && d' in book[p] ==> d == d'
  }

  lemma StrictIsUnshared(side: Side, list: seq<Entry>, book: Levels)
    requires StrictlySorted(side, list) && Live(list) == Sizes(book)
    ensures Unshared(book)
  {
    forall p, d, d' | p in book && d in book[p] && d' in book[p] ensures d == d' {
      assert Key(p, d) in Sizes(book) && Key(p, d') in Sizes(book);
      LiveMembers(list, Key(p, d));
      LiveMembers(list, Key(p, d'));
      var i :| 0 <= i < |list| && KeyOf(list[i]) == Key(p, d);
      var j :| 0 <= j < |list| && KeyOf(list[j]) == Key(p, d');
      assert !(i < j) && !(j < i);
    }
  }

  lemma UnsharedIsStrict(side: Side, list: seq<Entry>, book: Levels)
    requires Sorted(side, list) && UniqueKeys(list) && ListMap(list) == Flat(book) && Unshared(book)
    ensures StrictlySorted(side, list)
  {
    forall i, j | 0 <= i < j < |list| ensures Better(side, list[i].price, list[j].price) {
      ListMapLookup(list, i);
      ListMapLookup(list, j);
      FlatLookup(book, list[i].price, list[i].destination);
      FlatLookup(book, list[j].price, list[j].destination);
      hide Flat, ListMap;
      assert KeyOf(list[i]) != KeyOf(list[j]);
      assert !Better(side, list[j].price, list[i].price);
    }
  }

  /** A complete listing of a local book is the client's form of it exactly when no
      price level has two destinations. */
  lemma ListingIsReplicaIffUnshared(side: Side, list: seq<Entry>, book: Levels)
    requires Sorted(side, list) && UniqueKeys(list) && LocalBookOk(book) && ListMap(list) == Flat(book)
    ensures LocalReplica(side, list, book) <==> Unshared(book)
  {
    ListedSizes(list, book);
    hide Sorted, StrictlySorted, UniqueKeys, LocalBookOk, ListMap, Flat, Live, Sizes, Unshared;
    if LocalReplica(side, list, book) { StrictIsUnshared(side, list, book); }
    if Unshared(book) { UnsharedIsStrict(side, list, book); }
  }
}
