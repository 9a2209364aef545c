/**
 The client library's order book: a list of entries, best price first, that
 updates change in place by their own algorithms.
 */
module ClientOrderBook {
  import opened Books
  import opened BookAgreement
  import opened LocalAgreement

  /** The first `maxLevel` of a list, or all of it. */
  function Best<T>(s: seq<T>, maxLevel: int): seq<T> {
    if maxLevel <= 0 then [] else if maxLevel < |s| then s[..maxLevel] else s
  }

  // ----- aggregation by price ----------------------------------------------

  /** Total size of the entries at one price. */
  function SizeAt(list: seq<Entry>, price: real): int {
    if list == [] then 0 else (if list[0].price == price then list[0].size else 0) + SizeAt(list[1..], price)
  }

  /** Total size of the leading run at one price. */
  function LeadingSize(list: seq<Entry>, price: real): int {
    if list == [] || list[0].price != price then 0 else list[0].size + LeadingSize(list[1..], price)
  }

  lemma {:induction false} WorseHasNoSize(side: Side, list: seq<Entry>, price: real)
    requires forall i :: 0 <= i < |list| ==> Better(side, price, list[i].price)
    ensures SizeAt(list, price) == 0
  {
    if list != [] {
      WorseHasNoSize(side, list[1..], price);
    }
  }

  /** In a sorted book the leading run holds everything there is at the best price. */
  lemma {:induction false} LeadingIsAll(side: Side, list: seq<Entry>, price: real)
    requires Sorted(side, list) && forall i :: 0 <= i < |list| ==> !Better(side, list[i].price, price)
    ensures LeadingSize(list, price) == SizeAt(list, price)
  {
    if list != [] {
      if list[0].price == price {
        LeadingIsAll(side, list[1..], price);
      } else {
        forall i | 0 <= i < |list| ensures Better(side, price, list[i].price) {
          assert i > 0 ==> !Better(side, list[i].price, list[0].price);
        }
        WorseHasNoSize(side, list, price);
      }
    }
  }

  /** Global levels merge destinations and are all called the market. */
  function Named(merged: bool, destination: string): string {
    if merged then "Market" else destination
  }

  const BLANK := Entry(0.0, 0, "", 0)

  /** One level per run of equal prices, labelled when several destinations are merged. */
  function Emit(current: Entry, rest: seq<Entry>, merged: bool): seq<Entry>
    decreases |rest|
  {
    if rest == [] then [current]
    else if current.price == rest[0].price then Emit(current.(size := current.size + rest[0].size), rest[1..], merged)
    else
      var next := rest[0].(destination := Named(merged, rest[0].destination));
      (if current.size > 0 then [current] else []) + Emit(next, rest[1..], merged)
  }

  /** Every level but the last holds some size. */
  predicate SizedButLast(levels: seq<Entry>) {
    forall i :: 0 <= i < |levels| - 1 ==> levels[i].size > 0
  }

  predicate NoneBetter(side: Side, levels: seq<Entry>, price: real) {
    forall i :: 0 <= i < |levels| ==> !Better(side, levels[i].price, price)
  }

  lemma SortedTail(side: Side, current: Entry, rest: seq<Entry>, next: Entry)
    requires Sorted(side, [current] + rest) && NoNegativeSize([current] + rest) && rest != []
    requires next.price == rest[0].price && next.size >= 0
    ensures Sorted(side, [next] + rest[1..]) && NoNegativeSize([next] + rest[1..])
    ensures !Better(side, rest[0].price, current.price)
  {
    var all, tail := [current] + rest, [next] + rest[1..];
    assert forall i :: 0 <= i < |tail| ==> tail[i].price == all[i + 1].price && (i > 0 ==> tail[i] == all[i + 1]);
    assert !Better(side, all[1].price, all[0].price);
  }

  lemma SizeAtStep(head: Entry, tail: seq<Entry>, price: real)
    ensures SizeAt([head] + tail, price) == (if head.price == price then head.size else 0) + SizeAt(tail, price)
  {
    assert ([head] + tail)[1..] == tail;
  }

  lemma PutInFront(side: Side, head: Entry, tail: seq<Entry>, next: real)
    requires StrictlySorted(side, tail) && SizedButLast(tail) && NoneBetter(side, tail, next)
    requires tail != [] && head.size > 0 && head.price != next && !Better(side, next, head.price)
    ensures StrictlySorted(side, [head] + tail) && SizedButLast([head] + tail)
        && NoneBetter(side, [head] + tail, head.price)
  {
    var all := [head] + tail;
    assert forall i :: 0 < i < |all| ==> all[i] == tail[i - 1];
  }

  /** The level being filled after the next entry has been looked at. */
  function Next(current: Entry, rest: seq<Entry>, merged: bool): Entry
    requires rest != []
  {
    if current.price == rest[0].price then current.(size := current.size + rest[0].size)
    else rest[0].(destination := Named(merged, rest[0].destination))
  }

  lemma EmitStep(current: Entry, rest: seq<Entry>, merged: bool)
    requires rest != []
    ensures var tail := Emit(Next(current, rest, merged), rest[1..], merged);
            Emit(current, rest, merged) == if current.price == rest[0].price || current.size <= 0 then tail
                else [current] + tail
  {
  }

  lemma TopLevels(output: seq<Entry>, more: seq<Entry>)
    ensures Best(output + more, |output|) == output
  {
    if more == [] { assert output + more == output; }
  }

  lemma BestIsPrefix(levels: seq<Entry>, maxLevel: nat)
    ensures Best(levels, maxLevel) == if maxLevel < |levels| then levels[..maxLevel] else levels
  {
  }

  lemma BestOfFew(levels: seq<Entry>, n: nat, maxLevel: nat)
    requires |levels| <= n <= maxLevel && levels == Best(levels, n)
    ensures levels == Best(levels, maxLevel)
  {
  }

  /** What is shown so far, continued from the level being filled, is all there is to show. */
  ghost predicate OnTheWay(all: seq<Entry>, output: seq<Entry>, current: Entry, list: seq<Entry>, it: nat,
      merged: bool) {
    it <= |list| && all == output + Emit(current, list[it..], merged)
  }

  /** An empty level without a price is never shown. */
  lemma ShowFrom(current: Entry, list: seq<Entry>, merged: bool)
    requires list != [] && current.size == 0
    ensures OnTheWay(Emit(current, list, merged), [], current, list, 0, merged)
    ensures list[0].price != current.price ==> Emit(current, list, merged) == LevelsOf(list, merged)
  {
    EmitStep(current, list, merged);
    assert list[0..] == list;
    assert [] + Emit(current, list, merged) == Emit(current, list, merged);
  }

  /** The next entry is added to the level, or the level gives way to the entry's own. */
  lemma ShowOn(all: seq<Entry>, output: seq<Entry>, current: Entry, list: seq<Entry>, it: nat, merged: bool)
    requires OnTheWay(all, output, current, list, it, merged) && it < |list|
    ensures var next := Next(current, list[it..], merged);
            if current.price == list[it].price || current.size <= 0 then
              OnTheWay(all, output, next, list, it + 1, merged)
            else
              && OnTheWay(all, output + [current], next, list, it + 1, merged)
              && output + [current] == Best(all, |output| + 1)
  {
    var tail := Emit(Next(current, list[it..], merged), list[it + 1..], merged);
    assert list[it..][0] == list[it] && list[it..][1..] == list[it + 1..];
    EmitStep(current, list[it..], merged);
    hide Emit;
    if current.price != list[it].price && current.size > 0 {
      assert all == output + ([current] + tail) == (output + [current]) + tail;
      TopLevels(output + [current], tail);
    }
  }

  lemma ShowLast(all: seq<Entry>, output: seq<Entry>, current: Entry, list: seq<Entry>, merged: bool)
    requires OnTheWay(all, output, current, list, |list|, merged)
    ensures all == output + [current] == Best(all, |output| + 1)
  {
    assert list[|list|..] == [];
    TopLevels(output + [current], []);
  }

  /** Merging runs and dropping empty levels keeps the total at every price. */
  lemma {:induction false} EmitSizes(current: Entry, rest: seq<Entry>, merged: bool, price: real)
    requires NoNegativeSize([current] + rest)
    ensures SizeAt(Emit(current, rest, merged), price) == SizeAt([current] + rest, price)
    decreases |rest|
  {
    if rest != [] {
      assert forall i :: 0 <= i < |rest| ==> rest[i] == ([current] + rest)[i + 1];
      assert current.size >= 0 by { assert ([current] + rest)[0] == current; }
      var next := Next(current, rest, merged);
      EmitSizes(next, rest[1..], merged, price);
      EmitStep(current, rest, merged);
      hide Emit;
      SizeAtStep(current, rest, price);
      SizeAtStep(rest[0], rest[1..], price);
      assert [rest[0]] + rest[1..] == rest;
      SizeAtStep(next, rest[1..], price);
      SizeAtStep(current, Emit(next, rest[1..], merged), price);
    } else {
      assert [current] + rest == [current];
    }
  }

  function WorstPrice(current: Entry, rest: seq<Entry>): real {
    if rest == [] then current.price else rest[|rest| - 1].price
  }

  ghost predicate GoodLevels(side: Side, levels: seq<Entry>, bound: real, worst: real) {
    levels != [] && StrictlySorted(side, levels) && SizedButLast(levels) && NoneBetter(side, levels, bound)
    && levels[|levels| - 1].price == worst
  }

  /** The levels are strictly sorted, and only the last, at the worst price, may be empty. */
  lemma {:induction false} EmitLevels(side: Side, current: Entry, rest: seq<Entry>, merged: bool)
    requires Sorted(side, [current] + rest) && NoNegativeSize([current] + rest)
    ensures GoodLevels(side, Emit(current, rest, merged), current.price, WorstPrice(current, rest))
    decreases |rest|
  {
    if rest == [] {
    } else {
      var next := Next(current, rest, merged);
      FirstSizes(current, rest);
      SortedTail(side, current, rest, next);
      EmitStep(current, rest, merged);
      hide Emit, Sorted, NoNegativeSize, GoodLevels, Better;
      EmitLevels(side, next, rest[1..], merged);
      LevelInFront(side, current, Emit(next, rest[1..], merged), next.price, WorstPrice(current, rest));
    }
  }

  lemma FirstSizes(current: Entry, rest: seq<Entry>)
    requires NoNegativeSize([current] + rest) && rest != []
    ensures current.size >= 0 && rest[0].size >= 0
  {
    assert ([current] + rest)[0] == current && ([current] + rest)[1] == rest[0];
  }

  lemma LevelInFront(side: Side, head: Entry, tail: seq<Entry>, next: real, worst: real)
    requires GoodLevels(side, tail, next, worst) && !Better(side, next, head.price)
    ensures GoodLevels(side, tail, head.price, worst)
    ensures head.size > 0 && head.price != next ==> GoodLevels(side, [head] + tail, head.price, worst)
  {
    NoneBetterThanCurrent(side, tail, next, head.price);
    if head.size > 0 && head.price != next {
      PutInFront(side, head, tail, next);
      assert ([head] + tail)[|tail|] == tail[|tail| - 1];
    }
    hide StrictlySorted, SizedButLast, NoneBetter;
  }

  lemma NoneBetterThanCurrent(side: Side, levels: seq<Entry>, next: real, current: real)
    requires NoneBetter(side, levels, next) && !Better(side, next, current)
    ensures NoneBetter(side, levels, current)
  {
  }

  lemma {:induction false} StrictLevelSize(side: Side, levels: seq<Entry>, k: nat)
    requires StrictlySorted(side, levels) && k < |levels|
    ensures SizeAt(levels, levels[k].price) == levels[k].size
  {
    if k == 0 {
      WorseHasNoSize(side, levels[1..], levels[0].price);
    } else {
      assert Better(side, levels[0].price, levels[k].price);
      StrictLevelSize(side, levels[1..], k - 1);
    }
  }

  /** The levels shown for a book that is sorted best first. */
  function LevelsOf(list: seq<Entry>, merged: bool): seq<Entry>
    requires list != []
  {
    Emit(list[0].(destination := Named(merged, list[0].destination)), list[1..], merged)
  }

  /** Aggregation: strictly sorted levels, each with everything the book holds at its
      price; an empty level is shown exactly when nothing is left at the worst price. */
  lemma AggregationIsFaithful(side: Side, list: seq<Entry>, merged: bool)
    requires list != [] && Sorted(side, list) && NoNegativeSize(list)
    ensures var levels := LevelsOf(list, merged);
            && StrictlySorted(side, levels)
            && (forall i :: 0 <= i < |levels| ==> levels[i].size == SizeAt(list, levels[i].price))
            && (forall price :: SizeAt(levels, price) == SizeAt(list, price))
            && ((exists i :: 0 <= i < |levels| && levels[i].size == 0) <==> SizeAt(list, list[|list| - 1].price) == 0)
  {
    var levels := LevelsOf(list, merged);
    var first := list[0].(destination := Named(merged, list[0].destination));
    var relabelled := [first] + list[1..];
    assert forall i :: 0 <= i < |list| ==> relabelled[i].price == list[i].price && relabelled[i].size == list[i].size;
    assert Sorted(side, [first] + list[1..]);
    forall price ensures SizeAt(levels, price) == SizeAt(list, price) {
      EmitSizes(first, list[1..], merged, price);
      SizeAtStep(first, list[1..], price);
    }
    EmitLevels(side, first, list[1..], merged);
    forall i | 0 <= i < |levels| ensures levels[i].size == SizeAt(list, levels[i].price) {
      StrictLevelSize(side, levels, i);
    }
    var n := |levels| - 1;
    assert levels[n].price == list[|list| - 1].price;
    assert levels[n].size == SizeAt(list, list[|list| - 1].price);
    hide Sorted, StrictlySorted, Emit, SizeAt;
  }

  /** A level is called after this entry: the first one at its price, or the market. */
  predicate CalledAfter(level: Entry, e: Entry, merged: bool) {
    && level.price == e.price && level.time == e.time
    && level.destination == if merged then "Market" else e.destination
  }

  predicate FirstAtPrice(list: seq<Entry>, j: nat)
    requires j < |list|
  {
    forall k :: 0 <= k < j ==> list[k].price != list[j].price
  }

  lemma NewRun(side: Side, list: seq<Entry>, s: nat, k: nat)
    requires Sorted(side, list) && s < k < |list| && FirstAtPrice(list, s) && list[k].price != list[s].price
    requires forall x :: s <= x < k ==> list[x].price == list[s].price
    ensures FirstAtPrice(list, k)
  {
    forall x | 0 <= x < k ensures list[x].price != list[k].price {
      if x < s {
        assert !Better(side, list[s].price, list[x].price) && !Better(side, list[k].price, list[s].price);
      }
    }
  }

  /** The level being filled started at entry `s`; the walk stands at `k`. */
  lemma {:induction false} EmitNames(side: Side, list: seq<Entry>, s: nat, k: nat, current: Entry, merged: bool, i: nat)
    returns (j: nat)
    requires Sorted(side, list) && s < k <= |list| && FirstAtPrice(list, s) && CalledAfter(current, list[s], merged)
    requires forall x :: s <= x < k ==> list[x].price == list[s].price
    requires i < |Emit(current, list[k..], merged)|
    ensures j < |list| && FirstAtPrice(list, j) && CalledAfter(Emit(current, list[k..], merged)[i], list[j], merged)
    decreases |list| - k
  {
    j := s;
    if k < |list| {
      var next := Next(current, list[k..], merged);
      EmitStep(current, list[k..], merged);
      assert list[k..][0] == list[k] && list[k..][1..] == list[k + 1..];
      hide Emit, Sorted, FirstAtPrice;
      if current.price == list[k].price {
        j := EmitNames(side, list, s, k + 1, next, merged, i);
      } else {
        NewRun(side, list, s, k);
        if current.size <= 0 {
          j := EmitNames(side, list, k, k + 1, next, merged, i);
        } else if i > 0 {
          j := EmitNames(side, list, k, k + 1, next, merged, i - 1);
        }
      }
    }
  }

  /** Every level shown is the first entry at its price with everything the book holds
      there; merged levels are called the market, others after that entry. */
  lemma LevelsAreNamed(side: Side, list: seq<Entry>, merged: bool, i: nat)
    returns (j: nat)
    requires list != [] && Sorted(side, list) && NoNegativeSize(list) && i < |LevelsOf(list, merged)|
    ensures j < |list| && (forall k :: 0 <= k < j ==> list[k].price != list[j].price)
    ensures LevelsOf(list, merged)[i]
         == Entry(list[j].price, SizeAt(list, list[j].price), if merged then "Market" else list[j].destination,
                  list[j].time)
  {
    AggregationIsFaithful(side, list, merged);
    var first := list[0].(destination := Named(merged, list[0].destination));
    j := EmitNames(side, list, 0, 1, first, merged, i);
    hide Sorted, StrictlySorted, Emit, SizeAt;
  }

  /** What the update does to the list when its walk stands at `it`. */
  lemma Scan(side: Side, list: seq<Entry>, it: nat, e: Entry)
    requires it <= |list|
    ensures var result := list[..it] + UpdateLocal(side, list[it..], e);
            if it == |list| || Better(side, e.price, list[it].price) then result == list[..it] + [e] + list[it..]
            else if list[it].price != e.price then result == list[..it + 1] + UpdateLocal(side, list[it + 1..], e)
            else if e.size > 0 then result == list[it := list[it].(size := e.size)]
            else result == list[..it] + list[it + 1..]
  {
    hide Better;
    var rest := list[it..];
    if it < |list| {
      assert rest[0] == list[it] && rest[1..] == list[it + 1..];
      assert list[..it + 1] == list[..it] + [list[it]];
    }
  }

  class OrderBook {
    const side: Side
    const global: bool
    var entries: seq<Entry>

    constructor (side: Side, global: bool)
      ensures this.side == side && this.global == global && entries == []
    {
      this.side, this.global := side, global;
      entries := [];
    }

    method SetOrderBook(entries: seq<Entry>)
      modifies this`entries
      ensures this.entries == entries
    {
      this.entries := entries;
    }

    method ResetOrderBook()
      modifies this`entries
      ensures entries == []
    {
      entries := [];
    }

    method FindEntryAt(price: real, destination: string) returns (it: nat)
      ensures it == FindEntry(entries, price, destination)
    {
      it := 0;
      while it < |entries|
        invariant 0 <= it <= |entries|
        invariant forall j :: 0 <= j < it ==> entries[j].price == price && entries[j].destination != destination
        invariant FindEntry(entries, price, destination) == it + FindEntry(entries[it..], price, destination)
      {
        if entries[it].price != price {
          return |entries|;
        }
        if entries[it].destination == destination {
          return it;
        }
        assert entries[it..][1..] == entries[it + 1..];
        it := it + 1;
      }
    }

    /** Erases better prices from the front, then overwrites the entry of the same
        price and destination or puts the new one in front. */
    method UpdateGlobalBook(entry: Entry)
      modifies this`entries
      ensures entries == UpdateGlobal(side, old(entries), entry)
    {
      while 0 < |entries|
        invariant DropBetter(side, entries, entry.price) == DropBetter(side, old(entries), entry.price)
        decreases |entries|
      {
        if Better(side, entries[0].price, entry.price) {
          entries := entries[1..];
        } else {
          var dest := FindEntryAt(entry.price, entry.destination);
          if dest < |entries| {
            entries := entries[dest := entry];
            return;
          }
          break;
        }
      }
      entries := [entry] + entries;
    }

    /** Walks to the first worse price; sets, erases or inserts there. */
    method UpdateLocalBook(entry: Entry)
      modifies this`entries
      ensures entries == UpdateLocal(side, old(entries), entry)
    {
      var it := 0;
      assert entries[0..] == entries;
      hide Better, UpdateLocal;
      while it < |entries|
        invariant 0 <= it <= |entries| && entries == old(entries)
        invariant UpdateLocal(side, entries, entry) == entries[..it] + UpdateLocal(side, entries[it..], entry)
      {
        Scan(side, entries, it, entry);
        if Better(side, entry.price, entries[it].price) {
          break;
        }
        if entries[it].price == entry.price {
          if entry.size > 0 {
            entries := entries[it := entries[it].(size := entry.size)];
          } else {
            entries := entries[..it] + entries[it + 1..];
          }
          return;
        }
        it := it + 1;
      }
      Scan(side, entries, it, entry);
      entries := entries[..it] + [entry] + entries[it..];
    }

    /** A received update: a positive price updates, any other clears. */
    method Receive(entry: Entry)
      modifies this`entries
      ensures entries == if global then ReceiveGlobal(side, old(entries), entry)
          else ReceiveLocal(side, old(entries), entry)
    {
      if entry.price > 0.0 {
        if global {
          UpdateGlobalBook(entry);
        } else {
          UpdateLocalBook(entry);
        }
      } else {
        ResetOrderBook();
      }
    }

    /** One received update after another. */
    method ReceiveAll(history: seq<Entry>)
      modifies this`entries
      ensures entries == if global then ReceiveAllGlobal(side, old(entries), history)
                         else ReceiveAllLocal(side, old(entries), history)
    {
      var i := 0;
      while i < |history|
        invariant 0 <= i <= |history|
        invariant entries == if global then ReceiveAllGlobal(side, old(entries), history[..i])
                             else ReceiveAllLocal(side, old(entries), history[..i])
      {
        assert history[..i + 1][..i] == history[..i];
        Receive(history[i]);
        i := i + 1;
      }
      assert history[..|history|] == history;
    }

    /** Best price and, in a sorted book, everything that is on offer at it. */
    method GetBestValues() returns (bestPrice: real, bestSize: int)
      ensures entries == [] ==> bestPrice == 0.0 && bestSize == 0
      ensures entries != [] ==> bestPrice == entries[0].price && bestSize == LeadingSize(entries, bestPrice)
      ensures entries != [] && Sorted(side, entries) ==> bestSize == SizeAt(entries, bestPrice)
    {
      bestPrice, bestSize := 0.0, 0;
      if entries != [] {
        bestPrice := entries[0].price;
        var i := 0;
        while i < |entries|
          invariant 0 <= i <= |entries|
          invariant LeadingSize(entries, bestPrice) == bestSize + LeadingSize(entries[i..], bestPrice)
        {
          if entries[i].price == bestPrice {
            assert entries[i..][1..] == entries[i + 1..];
            bestSize := bestSize + entries[i].size;
          } else {
            break;
          }
          i := i + 1;
        }
        if Sorted(side, entries) {
          assert forall k :: 0 < k < |entries| ==> !Better(side, entries[k].price, entries[0].price);
          LeadingIsAll(side, entries, bestPrice);
        }
      }
    }

    /** Up to `maxLevel` levels, one per price.  The level being filled starts out
        blank, so it would take in leading entries without a price. */
    method GetOrderBook(maxLevel: int) returns (output: seq<Entry>)
      ensures maxLevel <= 0 || entries == [] ==> output == []
      ensures maxLevel > 0 && entries != [] ==> output == Best(Emit(BLANK, entries, global), maxLevel)
      ensures maxLevel > 0 && entries != [] && entries[0].price != 0.0 ==>
                var levels := LevelsOf(entries, global);
                output == if maxLevel < |levels| then levels[..maxLevel] else levels
    {
      output := [];
      if maxLevel <= 0 || entries == [] {
        return;
      }
      var newEntry := BLANK;
      var left := maxLevel;
      var original := entries;
      ghost var all := Emit(newEntry, original, global);
      ShowFrom(newEntry, original, global);
      assert entries[0].price != 0.0 ==> all == LevelsOf(entries, global);
      hide Emit, LevelsOf, Best, OnTheWay;
      var i := 0;
      while i < |original|
        invariant 0 <= i <= |original|
        invariant left == maxLevel - |output| && left > 0
        invariant OnTheWay(all, output, newEntry, original, i, global)
      {
        var entry := original[i];
        assert original[i..][0] == entry;
        ShowOn(all, output, newEntry, original, i, global);
        if newEntry.price == entry.price {
          newEntry := newEntry.(size := newEntry.size + entry.size);
        } else {
          if newEntry.size > 0 {
            output := output + [newEntry];
            left := left - 1;
            if left == 0 {
              BestIsPrefix(all, maxLevel);
              return;
            }
          }
          newEntry := entry.(destination := Named(global, entry.destination));
        }
        i := i + 1;
      }
      ShowLast(all, output, newEntry, original, global);
      output := output + [newEntry];
      assert output == Best(all, maxLevel) by {
        BestOfFew(all, |output|, maxLevel);
      }
      BestIsPrefix(all, maxLevel);
    }
  }
}
