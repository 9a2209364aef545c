/**
 Order books as the broker and the client keep them.  The broker keeps nested
 maps, price to destination to entry; the client keeps a list, best price first.
 One direction, `Side`, serves the mirrored bid and ask code.
 */
module Books {

  datatype Side = Bid | Ask

  datatype Entry = Entry(price: real, size: int, destination: string, time: int)

  type Levels = map<real, map<string, Entry>>

  datatype Key = Key(price: real, destination: string)

  /** A higher bid and a lower ask are better. */
  predicate Better(side: Side, p: real, q: real) {
    if side.Bid? then p > q else p < q
  }

  function KeyOf(e: Entry): Key { Key(e.price, e.destination) }

  // ----- the broker's maps -------------------------------------------------

  function Row(book: Levels, price: real): map<string, Entry> {
    if price in book then book[price] else map[]
  }

  /** A global update is the best there is: everything better is out of date. */
  function SaveGlobal(side: Side, book: Levels, e: Entry): Levels {
    if e.price <= 0.0 then map[]
    else
      var saved := book[e.price := Row(book, e.price)[e.destination := e]];
      map p | p in saved && !Better(side, p, e.price) :: saved[p]
  }

  function SaveLocal(book: Levels, e: Entry): Levels {
    if e.price <= 0.0 then map[]
    else if e.size > 0 then book[e.price := Row(book, e.price)[e.destination := e]]
    else
      var row := Row(book, e.price) - {e.destination};
      if row == map[] then book - {e.price} else book[e.price := row]
  }

  /** The nested map as one finite map. */
  function Flat(book: Levels): map<Key, Entry> {
    map p, d | p in book && d in book[p] :: Key(p, d) := book[p][d]
  }

  /** No price level is empty, and entries sit under their own price and destination. */
  predicate BookOk(book: Levels) {
    forall p :: p in book ==> p > 0.0 && book[p] != map[] && forall d :: d in book[p] ==> KeyOf(book[p][d]) == Key(p, d)
  }

  /** The best price of a book, 0 when it is empty. */
  predicate IsFirstPrice(side: Side, book: Levels, price: real) {
    if book == map[] then price == 0.0
    else price in book && forall p :: p in book ==> !Better(side, p, price)
  }

  // ----- the client's lists ------------------------------------------------

  predicate Sorted(side: Side, list: seq<Entry>) {
    forall i, j :: 0 <= i < j < |list| ==> !Better(side, list[j].price, list[i].price)
  }

  predicate StrictlySorted(side: Side, list: seq<Entry>) {
    forall i, j :: 0 <= i < j < |list| ==> Better(side, list[i].price, list[j].price)
  }

  predicate NoNegativeSize(list: seq<Entry>) {
    forall i :: 0 <= i < |list| ==> list[i].size >= 0
  }

  predicate UniqueKeys(list: seq<Entry>) {
    forall i, j :: 0 <= i < j < |list| ==> KeyOf(list[i]) != KeyOf(list[j])
  }

  /** The list as a finite map; the entry nearer the front wins. */
  function ListMap(list: seq<Entry>): map<Key, Entry> {
    if list == [] then map[] else ListMap(list[1..])[KeyOf(list[0]) := list[0]]
  }

  function DropBetter(side: Side, list: seq<Entry>, price: real): seq<Entry> {
    if list != [] && Better(side, list[0].price, price) then DropBetter(side, list[1..], price) else list
  }

  /** Position of the entry in the leading run of entries at `price`; the length
      of the list when there is none. */
  function FindEntry(list: seq<Entry>, price: real, destination: string): (i: nat)
    ensures i <= |list|
    ensures i < |list| ==> KeyOf(list[i]) == Key(price, destination)
    ensures i < |list| ==> forall j :: 0 <= j < i ==> list[j].price == price && list[j].destination != destination
  {
    if list == [] then 0
    else if list[0].price != price then |list|
    else if list[0].destination == destination then 0
    else 1 + FindEntry(list[1..], price, destination)
  }

  function UpdateGlobal(side: Side, list: seq<Entry>, e: Entry): seq<Entry> {
    var kept := DropBetter(side, list, e.price);
    var i := FindEntry(kept, e.price, e.destination);
    if i < |kept| then kept[i := e] else [e] + kept
  }

  function UpdateLocal(side: Side, list: seq<Entry>, e: Entry): seq<Entry> {
    if list == [] || Better(side, e.price, list[0].price) then [e] + list
    else if list[0].price == e.price then
      (if e.size > 0 then [list[0].(size := e.size)] + list[1..] else list[1..])
    else [list[0]] + UpdateLocal(side, list[1..], e)
  }

  /** What the client does with a received update: a price of 0 or less clears. */
  function ReceiveGlobal(side: Side, list: seq<Entry>, e: Entry): seq<Entry> {
    if e.price > 0.0 then UpdateGlobal(side, list, e) else []
  }

  function ReceiveLocal(side: Side, list: seq<Entry>, e: Entry): seq<Entry> {
    if e.price > 0.0 then UpdateLocal(side, list, e) else []
  }
}
