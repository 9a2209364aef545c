/**
 A full refresh of an order book: the matching engine sends a clear marker and
 then its best levels from worst to best, and every receiver replays them with
 the ordinary update procedure.
 */
module Snapshots {
  import opened Books
  import opened BookAgreement
  import opened LocalAgreement

  /** A price level of a local book; `market` says that a market order heads it. */
  datatype Level = Level(price: real, size: int, market: bool)

  /** Destination of every entry the matching engine itself makes. */
  const HOME := "SHIFT"

  function ClearMarker(now: int): Entry { Entry(0.0, 0, HOME, now) }

  function Reversed<T>(s: seq<T>): seq<T> {
    if s == [] then [] else Reversed(s[1..]) + [s[0]]
  }

  function Stamped(orders: seq<Entry>, now: int): (s: seq<Entry>)
    ensures |s| == |orders| && forall i :: 0 <= i < |s| ==> s[i] == orders[i].(time := now)
  {
    seq(|orders|, i requires 0 <= i < |orders| => orders[i].(time := now))
  }

  /** Market orders are hidden: a level headed by one is not shown. */
  function Shown(levels: seq<Level>, now: int): seq<Entry> {
    if levels == [] then []
    else if levels[0].market then Shown(levels[1..], now)
    else [Entry(levels[0].price, levels[0].size, HOME, now)] + Shown(levels[1..], now)
  }

  // ----- building the entries ----------------------------------------------

  /** A full refresh with the best `n` orders of a global book: the marker, then these
      orders from worst to best. */
  predicate GlobalRefresh(entries: seq<Entry>, orders: seq<Entry>, n: nat, now: int) {
    && n <= |orders| && |entries| == n + 1 && entries[0] == Entry(0.0, 0, HOME, now)
    && forall i :: 0 <= i < n ==> entries[n - i] == Entry(orders[i].price, orders[i].size, orders[i].destination, now)
  }

  /** The same of a local book, whose levels headed by a market order are left out. */
  predicate LocalRefresh(entries: seq<Entry>, levels: seq<Level>, n: nat, now: int) {
    n <= |levels| && entries == [ClearMarker(now)] + Reversed(Shown(levels[..n], now))
  }

  /** Walks a global book backwards; `size` counts down to the level being looked at. */
  method GlobalEntries(orders: seq<Entry>, maxLevel: int, now: int) returns (entries: seq<Entry>)
    ensures GlobalRefresh(entries, orders,
                          if maxLevel <= 0 then 0 else if maxLevel < |orders| then maxLevel else |orders|, now)
  {
    ghost var n := if maxLevel <= 0 then 0 else if maxLevel < |orders| then maxLevel else |orders|;
    var size := |orders|;
    entries := [ClearMarker(now)];
    var rit := |orders|;
    while rit > 0
      invariant 0 <= rit <= |orders| && size == rit
      invariant |entries| == (if rit < n then n - rit else 0) + 1 && entries[0] == ClearMarker(now)
      invariant forall i :: rit <= i < n ==>
        entries[n - i] == Entry(orders[i].price, orders[i].size, orders[i].destination, now)
    {
      rit := rit - 1;
      size := size - 1;
      if size < maxLevel {
        entries := entries + [Entry(orders[rit].price, orders[rit].size, orders[rit].destination, now)];
      }
    }
  }

  /** The smaller of a position and the end of the part that is sent. */
  function Within(position: int, end: int): int { if position < end then position else end }

  method LocalEntries(levels: seq<Level>, maxLevel: int, now: int) returns (entries: seq<Entry>)
    ensures LocalRefresh(entries, levels,
                         if maxLevel <= 0 then 0 else if maxLevel < |levels| then maxLevel else |levels|, now)
  {
    assert Reversed(Shown([], now)) == [];
    hide Reversed, Shown;
    ghost var n := if maxLevel <= 0 then 0 else if maxLevel < |levels| then maxLevel else |levels|;
    ghost var best := levels[..n];
    var size := |levels|;
    entries := [ClearMarker(now)];
    var rit := |levels|;
    while rit > 0
      invariant 0 <= rit <= |levels| && size == rit
      invariant entries == [ClearMarker(now)] + Reversed(Shown(best[Within(rit, |best|)..], now))
    {
      rit := rit - 1;
      size := size - 1;
      if size < maxLevel {
        ghost var tail := best[rit + 1..];
        assert best[rit..] == [levels[rit]] + tail;
        ShownStep(levels[rit], tail, now);
        if !levels[rit].market {
          entries := entries + [Entry(levels[rit].price, levels[rit].size, HOME, now)];
        }
      }
    }
    assert best[0..] == best;
  }

  lemma ShownStep(level: Level, tail: seq<Level>, now: int)
    ensures Reversed(Shown([level] + tail, now))
         == Reversed(Shown(tail, now)) + (if level.market then [] else [Entry(level.price, level.size, HOME, now)])
  {
    assert ([level] + tail)[1..] == tail;
    if level.market {
      assert Shown([level] + tail, now) == Shown(tail, now);
    } else {
      ReversedPrepend(Entry(level.price, level.size, HOME, now), Shown(tail, now));
    }
  }

  lemma ReversedPrepend<T>(x: T, s: seq<T>)
    ensures Reversed([x] + s) == Reversed(s) + [x]
  {
    assert ([x] + s)[1..] == s;
  }

  // ----- replaying the entries ---------------------------------------------

  lemma {:induction false} SaveAllGlobalFirst(side: Side, book: Levels, first: Entry, history: seq<Entry>)
    ensures SaveAllGlobal(side, book, [first] + history) == SaveAllGlobal(side, SaveGlobal(side, book, first), history)
    decreases |history|
  {
    hide SaveGlobal;
    var all := [first] + history;
    var n := |all| - 1;
    assert all[n] == if history == [] then first else history[|history| - 1];
    if history == [] {
      assert all[..n] == [];
    } else {
      assert all[..n] == [first] + history[..|history| - 1];
      SaveAllGlobalFirst(side, book, first, history[..|history| - 1]);
    }
  }

  lemma {:induction false} SaveAllLocalFirst(book: Levels, first: Entry, history: seq<Entry>)
    ensures SaveAllLocal(book, [first] + history) == SaveAllLocal(SaveLocal(book, first), history)
    decreases |history|
  {
    hide SaveLocal;
    var all := [first] + history;
    var n := |all| - 1;
    assert all[n] == if history == [] then first else history[|history| - 1];
    if history == [] {
      assert all[..n] == [];
    } else {
      assert all[..n] == [first] + history[..|history| - 1];
      SaveAllLocalFirst(book, first, history[..|history| - 1]);
    }
  }

  lemma NothingBetter(side: Side, list: seq<Entry>)
    requires Sorted(side, list) && list != []
    ensures NotBetter(side, ListMap(list[1..]), list[0].price) == ListMap(list[1..])
  {
    forall k | k in ListMap(list[1..]) ensures !Better(side, k.price, list[0].price) {
      ListMapMembers(list[1..], k);
      var i :| 0 <= i < |list[1..]| && KeyOf(list[1..][i]) == k;
      assert !Better(side, list[i + 1].price, list[0].price);
    }
  }

  predicate Priced(list: seq<Entry>) {
    forall i :: 0 <= i < |list| ==> list[i].price > 0.0
  }

  lemma {:induction false} ReversedAt<T>(s: seq<T>, k: nat)
    requires k < |s|
    ensures |Reversed(s)| == |s| && Reversed(s)[|s| - 1 - k] == s[k]
  {
    if k > 0 { ReversedAt(s[1..], k - 1); } else { ReversedLength(s[1..]); }
  }

  lemma {:induction false} ReversedLength<T>(s: seq<T>)
    ensures |Reversed(s)| == |s|
  {
    if s != [] { ReversedLength(s[1..]); }
  }

  lemma RefreshIsReversed(entries: seq<Entry>, orders: seq<Entry>, n: nat, now: int)
    requires GlobalRefresh(entries, orders, n, now)
    ensures entries == [ClearMarker(now)] + Reversed(Stamped(orders[..n], now))
  {
    var list := Stamped(orders[..n], now);
    var all := [ClearMarker(now)] + Reversed(list);
    ReversedLength(list);
    forall k | 0 <= k < |entries| ensures entries[k] == all[k] {
      if k > 0 {
        ReversedAt(list, n - k);
        assert entries[n - (n - k)] == list[n - k];
      }
    }
  }

  /** Replayed from worst to best into an empty book, nothing is discarded. */
  lemma {:induction false} ReplayGlobal(side: Side, list: seq<Entry>)
    requires Sorted(side, list) && Priced(list)
    ensures var book := SaveAllGlobal(side, map[], Reversed(list)); BookOk(book) && Flat(book) == ListMap(list)
  {
    if list != [] {
      ReplayGlobal(side, list[1..]);
      var history := Reversed(list);
      assert history[..|history| - 1] == Reversed(list[1..]);
      var book := SaveAllGlobal(side, map[], Reversed(list[1..]));
      hide SaveGlobal, Flat, BookOk, IsFirstPrice;
      SaveGlobalOk(side, book, list[0]);
      SaveGlobalMap(side, book, list[0]);
      NothingBetter(side, list);
    }
  }

  /** The entry nearest to the front is the one of its key. */
  lemma {:induction false} ListMapFirst(list: seq<Entry>, i: nat)
    requires i < |list| && forall j :: 0 <= j < i ==> KeyOf(list[j]) != KeyOf(list[i])
    ensures KeyOf(list[i]) in ListMap(list) && ListMap(list)[KeyOf(list[i])] == list[i]
  {
    if i > 0 {
      assert forall j :: 0 <= j < i - 1 ==> list[1..][j] == list[j + 1];
      ListMapFirst(list[1..], i - 1);
      assert KeyOf(list[0]) != KeyOf(list[i]);
    }
  }

  lemma {:induction false} ListMapFrom(list: seq<Entry>, k: Key) returns (i: nat)
    requires k in ListMap(list)
    ensures i < |list| && KeyOf(list[i]) == k && ListMap(list)[k] == list[i]
  {
    if KeyOf(list[0]) == k {
      i := 0;
    } else {
      i := ListMapFrom(list[1..], k);
      i := i + 1;
    }
  }

  /** No order in front of this one has its price and destination. */
  predicate IsFirst(orders: seq<Entry>, i: nat)
    requires i < |orders|
  {
    forall j :: 0 <= j < i ==> orders[j].price != orders[i].price || orders[j].destination != orders[i].destination
  }

  /** Whatever the broker held, after a global snapshot of the best `n` orders it holds
      each of them under its price and destination, in its full size, and nothing else; of
      orders with one price and destination it holds the better placed one. */
  lemma GlobalSnapshotReplay(side: Side, book: Levels, orders: seq<Entry>, n: nat, now: int, entries: seq<Entry>)
    requires GlobalRefresh(entries, orders, n, now) && Sorted(side, orders[..n]) && Priced(orders[..n])
    ensures var replayed := SaveAllGlobal(side, book, entries);
            && BookOk(replayed)
            && (forall i :: 0 <= i < n && IsFirst(orders, i) ==>
                  var o := orders[i];
                  o.price in replayed && o.destination in replayed[o.price]
                  && replayed[o.price][o.destination] == Entry(o.price, o.size, o.destination, now))
            && (forall p, d :: p in replayed && d in replayed[p] ==>
                  exists i :: 0 <= i < n && orders[i].price == p && orders[i].destination == d)
  {
    ReplayedRefresh(side, book, orders, n, now, entries);
    HeldByOrders(SaveAllGlobal(side, book, entries), orders, n, now);
    hide *;
  }

  lemma ReplayedRefresh(side: Side, book: Levels, orders: seq<Entry>, n: nat, now: int, entries: seq<Entry>)
    requires GlobalRefresh(entries, orders, n, now) && Sorted(side, orders[..n]) && Priced(orders[..n])
    ensures var replayed := SaveAllGlobal(side, book, entries);
            BookOk(replayed) && Flat(replayed) == ListMap(Stamped(orders[..n], now))
  {
    var list := Stamped(orders[..n], now);
    assert Sorted(side, list) && Priced(list);
    RefreshIsReversed(entries, orders, n, now);
    hide Stamped, Sorted, Priced, GlobalRefresh;
    SaveAllGlobalFirst(side, book, ClearMarker(now), Reversed(list));
    ReplayGlobal(side, list);
    hide BookOk, Flat, Reversed, ListMap;
  }

  lemma HeldByOrders(replayed: Levels, orders: seq<Entry>, n: nat, now: int)
    requires n <= |orders| && Flat(replayed) == ListMap(Stamped(orders[..n], now))
    ensures forall i :: 0 <= i < n && IsFirst(orders, i) ==>
              var o := orders[i];
              o.price in replayed && o.destination in replayed[o.price]
              && replayed[o.price][o.destination] == Entry(o.price, o.size, o.destination, now)
    ensures forall p, d :: p in replayed && d in replayed[p] ==>
              exists i :: 0 <= i < n && orders[i].price == p && orders[i].destination == d
  {
    var list := Stamped(orders[..n], now);
    hide Stamped, ListMap;
    forall i | 0 <= i < n && IsFirst(orders, i)
      ensures var o := orders[i];
              o.price in replayed && o.destination in replayed[o.price]
              && replayed[o.price][o.destination] == Entry(o.price, o.size, o.destination, now)
    {
      ListMapFirst(list, i);
      assert KeyOf(list[i]) in Flat(replayed);
    }
    forall p, d | p in replayed && d in replayed[p]
      ensures exists i :: 0 <= i < n && orders[i].price == p && orders[i].destination == d
    {
      assert Key(p, d) in Flat(replayed);
      var i := ListMapFrom(list, Key(p, d));
      assert orders[i].price == p && orders[i].destination == d;
    }
  }

  /** Every local entry comes from the matching engine itself. */
  function Home(): real -> string { _ => HOME }

  lemma {:induction false} ShownAtHome(levels: seq<Level>, now: int)
    ensures AtHome(Shown(levels, now), Home())
  {
    if levels != [] {
      ShownAtHome(levels[1..], now);
    }
  }

  lemma FrontIsSet(side: Side, list: seq<Entry>)
    requires StrictlySorted(side, list) && list != []
    ensures StrictlySorted(side, list[1..])
    ensures Live(list) == SetSize(Live(list[1..]), KeyOf(list[0]), list[0].size)
  {
    TailIsWorse(side, list, list[0].price);
    WorseIsAbsent(side, list[1..], list[0].price, list[0].destination);
  }

  /** Replayed from worst to best into an empty book, no level replaces another. */
  lemma {:induction false} ReplayLocal(side: Side, list: seq<Entry>)
    requires StrictlySorted(side, list) && Priced(list)
    ensures var book := SaveAllLocal(map[], Reversed(list));
            LocalBookOk(book) && Sizes(book) == Live(list)
  {
    if list != [] {
      ReplayLocal(side, list[1..]);
      var history := Reversed(list);
      assert history[..|history| - 1] == Reversed(list[1..]);
      var book := SaveAllLocal(map[], Reversed(list[1..]));
      FrontIsSet(side, list);
      hide SaveLocal, BookOk, Sizes, Live, SetSize, Reversed;
      SaveLocalKeepsOk(book, list[0]);
      SaveLocalMap(book, list[0]);
    }
  }

  /** The levels that are shown have positive prices, best first. */
  predicate LevelsOk(side: Side, levels: seq<Level>) {
    && (forall i :: 0 <= i < |levels| && !levels[i].market ==> levels[i].price > 0.0)
    && (forall i, j :: 0 <= i < j < |levels| && !levels[i].market && !levels[j].market ==>
          Better(side, levels[i].price, levels[j].price))
  }

  lemma LevelsOkTail(side: Side, levels: seq<Level>)
    requires LevelsOk(side, levels) && levels != []
    ensures LevelsOk(side, levels[1..])
  {
  }

  lemma {:induction false} ShownFrom(levels: seq<Level>, now: int, k: nat) returns (i: nat)
    requires k < |Shown(levels, now)|
    ensures i < |levels| && !levels[i].market
    ensures Shown(levels, now)[k] == Entry(levels[i].price, levels[i].size, HOME, now)
  {
    if levels[0].market {
      i := ShownFrom(levels[1..], now, k);
      i := i + 1;
    } else if k == 0 {
      i := 0;
    } else {
      i := ShownFrom(levels[1..], now, k - 1);
      i := i + 1;
    }
  }

  lemma {:induction false} ShownSorted(side: Side, levels: seq<Level>, now: int)
    requires LevelsOk(side, levels)
    ensures StrictlySorted(side, Shown(levels, now)) && Priced(Shown(levels, now))
  {
    if levels != [] {
      var tail := Shown(levels[1..], now);
      LevelsOkTail(side, levels);
      ShownSorted(side, levels[1..], now);
      if !levels[0].market {
        forall k | 0 <= k < |tail| ensures Better(side, levels[0].price, tail[k].price) {
          var i := ShownFrom(levels[1..], now, k);
          assert levels[1..][i] == levels[i + 1];
        }
      }
    }
  }

  predicate IsShown(level: Level) { !level.market && level.size > 0 }

  function LevelKey(level: Level): Key { Key(level.price, HOME) }

  /** One more level in front. */
  lemma ShownStepSizes(levels: seq<Level>, now: int)
    requires levels != []
    ensures Live(Shown(levels, now)) ==
              var rest := Live(Shown(levels[1..], now));
              if IsShown(levels[0]) then rest[LevelKey(levels[0]) := levels[0].size] else rest
  {
    if !levels[0].market { assert Shown(levels, now)[1..] == Shown(levels[1..], now); }
  }

  lemma {:induction false} ShownHolds(side: Side, levels: seq<Level>, now: int, i: nat)
    requires LevelsOk(side, levels) && i < |levels| && IsShown(levels[i])
    ensures LevelKey(levels[i]) in Live(Shown(levels, now))
    ensures Live(Shown(levels, now))[LevelKey(levels[i])] == levels[i].size
  {
    ShownStepSizes(levels, now);
    if i > 0 {
      LevelsOkTail(side, levels);
      ShownHolds(side, levels[1..], now, i - 1);
      assert !levels[0].market ==> Better(side, levels[0].price, levels[i].price);
    }
  }

  lemma {:induction false} ShownHoldsOnly(levels: seq<Level>, now: int, k: Key) returns (i: nat)
    requires k in Live(Shown(levels, now))
    ensures i < |levels| && IsShown(levels[i]) && LevelKey(levels[i]) == k
  {
    ShownStepSizes(levels, now);
    if k in Live(Shown(levels[1..], now)) {
      i := ShownHoldsOnly(levels[1..], now, k);
      i := i + 1;
    } else {
      i := 0;
    }
  }

  /** What the shown entries hold, level by level. */
  lemma ShownSizes(side: Side, levels: seq<Level>, now: int)
    requires LevelsOk(side, levels)
    ensures forall i :: 0 <= i < |levels| && IsShown(levels[i]) ==>
              LevelKey(levels[i]) in Live(Shown(levels, now))
              && Live(Shown(levels, now))[LevelKey(levels[i])] == levels[i].size
    ensures forall k :: k in Live(Shown(levels, now)) ==>
              exists i :: 0 <= i < |levels| && IsShown(levels[i]) && LevelKey(levels[i]) == k
  {
    hide Live, Shown;
    forall i | 0 <= i < |levels| && IsShown(levels[i])
      ensures LevelKey(levels[i]) in Live(Shown(levels, now))
          && Live(Shown(levels, now))[LevelKey(levels[i])] == levels[i].size
    {
      ShownHolds(side, levels, now, i);
    }
    forall k | k in Live(Shown(levels, now))
      ensures exists i :: 0 <= i < |levels| && IsShown(levels[i]) && LevelKey(levels[i]) == k
    {
      var i := ShownHoldsOnly(levels, now, k);
    }
  }

  /** Whatever the broker held, after a local snapshot of the best `n` levels it holds
      exactly those that hold any size and are not headed by a market order, each in its
      full size and from one destination. */
  lemma LocalSnapshotReplay(side: Side, book: Levels, levels: seq<Level>, n: nat, now: int, entries: seq<Entry>)
    requires LocalRefresh(entries, levels, n, now) && LevelsOk(side, levels[..n])
    ensures var replayed := SaveAllLocal(book, entries);
            && LocalBookOk(replayed)
            && (forall i :: 0 <= i < n && !levels[i].market && levels[i].size > 0 ==>
                  var p := levels[i].price;
                  p in replayed && HOME in replayed[p] && replayed[p][HOME].size == levels[i].size)
            && (forall p, d :: p in replayed && d in replayed[p] ==>
                  d == HOME
                  && exists i :: 0 <= i < n && !levels[i].market && levels[i].size > 0 && levels[i].price == p)
  {
    ReplayedLocalRefresh(side, book, levels, n, now, entries);
    HeldByLevels(side, SaveAllLocal(book, entries), levels, n, now);
    hide *;
  }

  lemma ReplayedLocalRefresh(side: Side, book: Levels, levels: seq<Level>, n: nat, now: int, entries: seq<Entry>)
    requires LocalRefresh(entries, levels, n, now) && LevelsOk(side, levels[..n])
    ensures var replayed := SaveAllLocal(book, entries);
            LocalBookOk(replayed) && Sizes(replayed) == Live(Shown(levels[..n], now))
  {
    var shown := Shown(levels[..n], now);
    ShownSorted(side, levels[..n], now);
    hide LevelsOk, Shown, StrictlySorted, Priced;
    SaveAllLocalFirst(book, ClearMarker(now), Reversed(shown));
    ReplayLocal(side, shown);
    hide Live, Sizes, Reversed, LocalBookOk;
  }

  lemma HeldByLevels(side: Side, replayed: Levels, levels: seq<Level>, n: nat, now: int)
    requires n <= |levels| && LevelsOk(side, levels[..n]) && Sizes(replayed) == Live(Shown(levels[..n], now))
    ensures forall i :: 0 <= i < n && !levels[i].market && levels[i].size > 0 ==>
              var p := levels[i].price;
              p in replayed && HOME in replayed[p] && replayed[p][HOME].size == levels[i].size
    ensures forall p, d :: p in replayed && d in replayed[p] ==>
              d == HOME && exists i :: 0 <= i < n && !levels[i].market && levels[i].size > 0 && levels[i].price == p
  {
    var best := levels[..n];
    ShownSizes(side, best, now);
    hide Live, Shown, LevelsOk;
    forall i | 0 <= i < n && !levels[i].market && levels[i].size > 0
      ensures var p := levels[i].price;
              p in replayed && HOME in replayed[p] && replayed[p][HOME].size == levels[i].size
    {
      assert best[i] == levels[i] && IsShown(best[i]);
      assert LevelKey(levels[i]) in Sizes(replayed);
    }
    forall p, d | p in replayed && d in replayed[p]
      ensures d == HOME && exists i :: 0 <= i < n && !levels[i].market && levels[i].size > 0 && levels[i].price == p
    {
      assert Key(p, d) in Sizes(replayed);
      var i :| 0 <= i < |best| && IsShown(best[i]) && LevelKey(best[i]) == Key(p, d);
      assert levels[i] == best[i];
    }
  }

  // ----- from the matching engine to the client ----------------------------

  lemma {:induction false} ReceiveAllGlobalFirst(side: Side, list: seq<Entry>, first: Entry, history: seq<Entry>)
    ensures ReceiveAllGlobal(side, list, [first] + history)
        == ReceiveAllGlobal(side, ReceiveGlobal(side, list, first), history)
    decreases |history|
  {
    hide ReceiveGlobal;
    var all := [first] + history;
    var n := |all| - 1;
    assert all[n] == if history == [] then first else history[|history| - 1];
    if history == [] {
      assert all[..n] == [];
    } else {
      assert all[..n] == [first] + history[..|history| - 1];
      ReceiveAllGlobalFirst(side, list, first, history[..|history| - 1]);
    }
  }

  /** The broker forwards every snapshot entry, so the client too ends up with the
      matching engine's best `n` orders and nothing else, whatever it held before. */
  lemma SnapshotReachesTheClient(side: Side, list: seq<Entry>, orders: seq<Entry>, n: nat, now: int,
      entries: seq<Entry>)
    requires GlobalRefresh(entries, orders, n, now) && Sorted(side, orders[..n]) && Priced(orders[..n])
    ensures var received := ReceiveAllGlobal(side, list, entries);
            && Sorted(side, received) && UniqueKeys(received)
            && (forall i :: 0 <= i < n && IsFirst(orders, i) ==>
                  Entry(orders[i].price, orders[i].size, orders[i].destination, now) in received)
            && (forall e :: e in received ==>
                  exists i :: 0 <= i < n && e == Entry(orders[i].price, orders[i].size, orders[i].destination, now))
  {
    ReceivedRefresh(side, list, orders, n, now, entries);
    ListedByOrders(ReceiveAllGlobal(side, list, entries), orders, n, now);
    hide *;
  }

  lemma ReceivedRefresh(side: Side, list: seq<Entry>, orders: seq<Entry>, n: nat, now: int, entries: seq<Entry>)
    requires GlobalRefresh(entries, orders, n, now) && Sorted(side, orders[..n]) && Priced(orders[..n])
    ensures var received := ReceiveAllGlobal(side, list, entries);
            Sorted(side, received) && UniqueKeys(received) && ListMap(received) == ListMap(Stamped(orders[..n], now))
  {
    var best := Stamped(orders[..n], now);
    assert Sorted(side, best) && Priced(best);
    RefreshIsReversed(entries, orders, n, now);
    hide Stamped, Sorted, Priced, GlobalRefresh;
    ReceiveAllGlobalFirst(side, list, ClearMarker(now), Reversed(best));
    ReplayGlobal(side, best);
    EmptyReplica(side);
    GlobalBooksAgree(side, [], map[], Reversed(best));
    hide BookOk, Flat, Reversed, ListMap, UniqueKeys;
  }

  lemma EmptyReplica(side: Side)
    ensures GlobalReplica(side, [], map[])
  {
  }

  lemma ListedByOrders(received: seq<Entry>, orders: seq<Entry>, n: nat, now: int)
    requires UniqueKeys(received) && n <= |orders| && ListMap(received) == ListMap(Stamped(orders[..n], now))
    ensures forall i :: 0 <= i < n && IsFirst(orders, i) ==>
              Entry(orders[i].price, orders[i].size, orders[i].destination, now) in received
    ensures forall e :: e in received ==>
              exists i :: 0 <= i < n && e == Entry(orders[i].price, orders[i].size, orders[i].destination, now)
  {
    var best := Stamped(orders[..n], now);
    hide Stamped, ListMap;
    forall i | 0 <= i < n && IsFirst(orders, i)
      ensures Entry(orders[i].price, orders[i].size, orders[i].destination, now) in received
    {
      ListMapFirst(best, i);
      var j := ListMapFrom(received, KeyOf(best[i]));
      assert received[j] == best[i];
    }
    forall e | e in received
      ensures exists i :: 0 <= i < n && e == Entry(orders[i].price, orders[i].size, orders[i].destination, now)
    {
      var j :| 0 <= j < |received| && received[j] == e;
      ListMapLookup(received, j);
      var i := ListMapFrom(best, KeyOf(e));
      assert e == best[i];
    }
  }

  lemma {:induction false} ReceiveAllLocalFirst(side: Side, list: seq<Entry>, first: Entry, history: seq<Entry>)
    ensures ReceiveAllLocal(side, list, [first] + history)
        == ReceiveAllLocal(side, ReceiveLocal(side, list, first), history)
    decreases |history|
  {
    hide ReceiveLocal;
    var all := [first] + history;
    var n := |all| - 1;
    assert all[n] == if history == [] then first else history[|history| - 1];
    if history == [] {
      assert all[..n] == [];
    } else {
      assert all[..n] == [first] + history[..|history| - 1];
      ReceiveAllLocalFirst(side, list, first, history[..|history| - 1]);
    }
  }

  lemma {:induction false} ReversedAtHome(list: seq<Entry>, home: real -> string)
    requires AtHome(list, home)
    ensures AtHome(Reversed(list), home)
  {
    if list != [] {
      ReversedAtHome(list[1..], home);
    }
  }

  /** The same for a local snapshot: all its entries come from one destination. */
  lemma LocalSnapshotReachesTheClient(side: Side, list: seq<Entry>, levels: seq<Level>, n: nat, now: int,
      entries: seq<Entry>)
    requires LocalRefresh(entries, levels, n, now) && LevelsOk(side, levels[..n])
    ensures var received := ReceiveAllLocal(side, list, entries);
            && StrictlySorted(side, received)
            && (forall i :: 0 <= i < n && !levels[i].market && levels[i].size > 0 ==>
                  exists e :: e in received && e.price == levels[i].price && e.size == levels[i].size)
            && (forall e :: e in received && e.size > 0 ==>
                  e.destination == HOME
                  && exists i :: 0 <= i < n && !levels[i].market && levels[i].size == e.size
                                 && levels[i].price == e.price)
  {
    ReceivedLocalRefresh(side, list, levels, n, now, entries);
    ListedByLevels(side, ReceiveAllLocal(side, list, entries), levels, n, now);
    hide *;
  }

  lemma ReceivedLocalRefresh(side: Side, list: seq<Entry>, levels: seq<Level>, n: nat, now: int, entries: seq<Entry>)
    requires LocalRefresh(entries, levels, n, now) && LevelsOk(side, levels[..n])
    ensures var received := ReceiveAllLocal(side, list, entries);
            StrictlySorted(side, received) && Live(received) == Live(Shown(levels[..n], now))
  {
    var best := levels[..n];
    var shown := Shown(best, now);
    ShownSorted(side, best, now);
    ShownAtHome(best, now);
    hide LevelsOk, Shown, StrictlySorted, Priced;
    ReceiveAllLocalFirst(side, list, ClearMarker(now), Reversed(shown));
    ReversedAtHome(shown, Home());
    ReplayLocal(side, shown);
    EmptyLocalReplica(side);
    LocalBooksAgree(side, [], map[], Reversed(shown), Home());
    hide Live, Sizes, Reversed, AtHome, LocalBookOk;
  }

  lemma EmptyLocalReplica(side: Side)
    ensures LocalReplica(side, [], map[]) && AtHome([], Home())
  {
  }

  lemma ListedByLevels(side: Side, received: seq<Entry>, levels: seq<Level>, n: nat, now: int)
    requires n <= |levels| && LevelsOk(side, levels[..n])
    requires StrictlySorted(side, received) && Live(received) == Live(Shown(levels[..n], now))
    ensures forall i :: 0 <= i < n && !levels[i].market && levels[i].size > 0 ==>
              exists e :: e in received && e.price == levels[i].price && e.size == levels[i].size
    ensures forall e :: e in received && e.size > 0 ==>
              e.destination == HOME
              && exists i :: 0 <= i < n && !levels[i].market && levels[i].size == e.size && levels[i].price == e.price
  {
    var best := levels[..n];
    ShownSizes(side, best, now);
    hide Live, Shown;
    forall i | 0 <= i < n && !levels[i].market && levels[i].size > 0
      ensures exists e :: e in received && e.price == levels[i].price && e.size == levels[i].size
    {
      assert best[i] == levels[i] && IsShown(best[i]);
      var j := LiveFrom(received, LevelKey(levels[i]));
      assert received[j] in received;
    }
    forall e | e in received && e.size > 0
      ensures e.destination == HOME
      ensures exists i :: 0 <= i < n && !levels[i].market && levels[i].size == e.size && levels[i].price == e.price
    {
      var j :| 0 <= j < |received| && received[j] == e;
      LiveAt(side, received, j);
      var i :| 0 <= i < |best| && IsShown(best[i]) && LevelKey(best[i]) == KeyOf(e);
      assert levels[i] == best[i];
    }
  }

  lemma {:induction false} LiveFrom(list: seq<Entry>, k: Key) returns (i: nat)
    requires k in Live(list)
    ensures i < |list| && KeyOf(list[i]) == k && list[i].size == Live(list)[k]
  {
    if list[0].size > 0 && KeyOf(list[0]) == k {
      i := 0;
    } else {
      i := LiveFrom(list[1..], k);
      i := i + 1;
    }
  }

  lemma {:induction false} LiveAt(side: Side, list: seq<Entry>, i: nat)
    requires StrictlySorted(side, list) && i < |list| && list[i].size > 0
    ensures KeyOf(list[i]) in Live(list) && Live(list)[KeyOf(list[i])] == list[i].size
  {
    if i > 0 {
      assert Better(side, list[0].price, list[i].price);
      LiveAt(side, list[1..], i - 1);
    }
  }
}
