/**
 Closing price of a position: the walk that merges the global and the local book
 of one side, best price first, until enough lots have been found.  The walk is
 greedy; the theorems say that no other way to take as many lots is cheaper to
 buy, or dearer to sell.
 */
module PriceWalk {
  import opened Reals
  import opened Money
  import opened Books

  // ----- taking lots from a book -------------------------------------------

  /** How many lots are taken from each entry of a book. */
  predicate IsTaking(list: seq<Entry>, taken: seq<int>) {
    |taken| == |list| && forall i :: 0 <= i < |list| ==> 0 <= taken[i] <= list[i].size
  }

  function Total(taken: seq<int>): int {
    if taken == [] then 0 else taken[0] + Total(taken[1..])
  }

  function Depth(list: seq<Entry>): int {
    if list == [] then 0 else list[0].size + Depth(list[1..])
  }

  function Value(list: seq<Entry>, taken: seq<int>): real
    requires |taken| == |list|
  {
    if list == [] then 0.0 else Cost(list[0].price, taken[0]) + Value(list[1..], taken[1..])
  }

  function InnerProduct(prices: seq<real>, sizes: seq<int>): real
    requires |prices| == |sizes|
  {
    if prices == [] then 0.0
    else InnerProduct(prices[..|prices| - 1], sizes[..|sizes| - 1]) + Cost(prices[|prices| - 1], sizes[|sizes| - 1])
  }

  /** Money in the direction the trader minds: spent when buying, forgone when selling. */
  function Outlay(side: Side, amount: real): real {
    if side.Ask? then amount else -amount
  }

  // ----- sums --------------------------------------------------------------

  lemma {:induction false} UpdateSums(list: seq<Entry>, taken: seq<int>, i: nat, n: int)
    requires |taken| == |list| && i < |list| && taken[i] == 0
    ensures Total(taken[i := n]) == Total(taken) + n
    ensures Value(list, taken[i := n]) == Value(list, taken) + Cost(list[i].price, n)
  {
    hide Cost;
    if i == 0 {
      assert taken[0 := n][1..] == taken[1..];
      NoShares(list[0].price);
    } else {
      assert taken[i := n][1..] == taken[1..][i - 1 := n];
      UpdateSums(list[1..], taken[1..], i - 1, n);
    }
  }

  lemma {:induction false} TotalBounds(list: seq<Entry>, taken: seq<int>)
    requires IsTaking(list, taken)
    ensures 0 <= Total(taken) <= Depth(list)
    ensures Total(taken) == 0 ==> forall i :: 0 <= i < |taken| ==> taken[i] == 0
  {
    if list != [] {
      TotalBounds(list[1..], taken[1..]);
      if Total(taken) == 0 {
        assert forall i :: 0 < i < |taken| ==> taken[i] == taken[1..][i - 1];
      }
    }
  }

  lemma {:induction false} TakingAll(list: seq<Entry>, taken: seq<int>)
    requires IsTaking(list, taken) && forall i :: 0 <= i < |list| ==> taken[i] == list[i].size
    ensures Total(taken) == Depth(list)
  {
    if list != [] {
      TakingAll(list[1..], taken[1..]);
    }
  }

  lemma {:induction false} TakingNothing(list: seq<Entry>, taken: seq<int>)
    requires |taken| == |list| && forall i :: 0 <= i < |list| ==> taken[i] == 0
    ensures Total(taken) == 0 && Value(list, taken) == 0.0
  {
    if list != [] {
      NoShares(list[0].price);
      TakingNothing(list[1..], taken[1..]);
    }
  }

  // ----- why greedy is best ------------------------------------------------

  /** Nothing worse than `limit` is taken, and nothing better is left. */
  predicate TakesUpTo(side: Side, list: seq<Entry>, taken: seq<int>, limit: real)
    requires |taken| == |list|
  {
    forall i :: 0 <= i < |list| ==>
      (taken[i] > 0 ==> !Better(side, limit, list[i].price))
          && (taken[i] < list[i].size ==> !Better(side, list[i].price, limit))
  }

  /** On one entry, exchanging lots against the limit price never helps. */
  lemma ExchangeEntry(side: Side, e: Entry, taken: int, other: int, limit: real)
    requires 0 <= taken <= e.size && 0 <= other <= e.size
    requires taken > 0 ==> !Better(side, limit, e.price)
    requires taken < e.size ==> !Better(side, e.price, limit)
    ensures Outlay(side, Cost(e.price, other) - Cost(limit, other))
         >= Outlay(side, Cost(e.price, taken) - Cost(limit, taken))
  {
    CostOfDifference(e.price, limit, other);
    CostOfDifference(e.price, limit, taken);
    CostAdds(e.price - limit, taken, other - taken);
    if other > taken {
      SignedCost(e.price - limit, other - taken);
    } else {
      CostAdds(e.price - limit, other - taken, taken - other);
      NoShares(e.price - limit);
      SignedCost(e.price - limit, taken - other);
    }
    hide Cost;
  }

  lemma SignedCost(price: real, n: int)
    requires n >= 0
    ensures price >= 0.0 ==> Cost(price, n) >= 0.0
    ensures price <= 0.0 ==> Cost(price, n) <= 0.0
  {
    if price >= 0.0 {
      CostNonNegative(price, n);
    } else {
      CostNonNegative(-price, n);
      CostOfDifference(0.0, price, n);
      assert Cost(0.0, n) == 0.0;
      assert 0.0 - price == -price;
    }
  }

  lemma {:induction false} ExchangeBook(side: Side, list: seq<Entry>, taken: seq<int>, other: seq<int>, limit: real)
    requires IsTaking(list, taken) && IsTaking(list, other) && TakesUpTo(side, list, taken, limit)
    ensures Outlay(side, Value(list, other) - Cost(limit, Total(other)))
         >= Outlay(side, Value(list, taken) - Cost(limit, Total(taken)))
  {
    if list == [] {
      assert taken == other;
    } else {
      ExchangeEntry(side, list[0], taken[0], other[0], limit);
      ExchangeBook(side, list[1..], taken[1..], other[1..], limit);
      CostAdds(limit, taken[0], Total(taken[1..]));
      CostAdds(limit, other[0], Total(other[1..]));
      hide Cost;
    }
  }

  /** A pair of takings up to a common limit has the least outlay of all pairs that
      take as many lots. */
  lemma GreedyIsBest(side: Side, global: seq<Entry>, local: seq<Entry>, g: seq<int>, l: seq<int>, limit: real,
      x: seq<int>, y: seq<int>)
    requires IsTaking(global, g) && IsTaking(local, l) && IsTaking(global, x) && IsTaking(local, y)
    requires TakesUpTo(side, global, g, limit) && TakesUpTo(side, local, l, limit)
    requires Total(x) + Total(y) == Total(g) + Total(l)
    ensures Outlay(side, Value(global, x) + Value(local, y)) >= Outlay(side, Value(global, g) + Value(local, l))
  {
    hide Cost, Value, Total, TakesUpTo, IsTaking;
    ExchangeBook(side, global, g, x, limit);
    ExchangeBook(side, local, l, y, limit);
    CostAdds(limit, Total(x), Total(y));
    CostAdds(limit, Total(g), Total(l));
  }

  // ----- the walk ----------------------------------------------------------

  /** An iterator into one of the two books; once a book has run out, its iterator
      is an alias of the other book's. */
  datatype Iter = InGlobal(i: nat) | InLocal(i: nat)

  function Advance(it: Iter): Iter {
    match it case InGlobal(i) => InGlobal(i + 1) case InLocal(i) => InLocal(i + 1)
  }

  predicate CanRead(global: seq<Entry>, local: seq<Entry>, it: Iter) {
    match it case InGlobal(i) => i < |global| case InLocal(i) => i < |local|
  }

  function Read(global: seq<Entry>, local: seq<Entry>, it: Iter): Entry
    requires CanRead(global, local, it)
  {
    match it case InGlobal(i) => global[i] case InLocal(i) => local[i]
  }

  /** The first `n` entries are used up, the others untouched. */
  predicate UsedUp(list: seq<Entry>, taken: seq<int>, n: nat) {
    && |taken| == |list| && n <= |list|
    && (forall i :: 0 <= i < n ==> taken[i] == list[i].size)
    && (forall i :: n <= i < |list| ==> taken[i] == 0)
  }

  /** `limit` separates the first `n` entries from the rest. */
  predicate Separates(side: Side, list: seq<Entry>, n: nat, limit: real)
    requires n <= |list|
  {
    (forall i :: 0 <= i < n ==> !Better(side, limit, list[i].price))
        && (forall i :: n <= i < |list| ==> !Better(side, list[i].price, limit))
  }

  /** Where the two iterators stand when `gi` and `li` entries have been passed. */
  predicate Positions(global: seq<Entry>, local: seq<Entry>, gi: nat, li: nat, globalIt: Iter, localIt: Iter,
      globalDone: bool, localDone: bool) {
    && !(globalDone && localDone)
    && (!globalDone ==> globalIt == InGlobal(gi))
    && (!localDone ==> localIt == InLocal(li))
    && (globalDone ==> gi == |global| && globalIt == localIt)
    && (localDone ==> li == |local| && localIt == globalIt)
  }

  lemma SeparatesNext(side: Side, list: seq<Entry>, n: nat, limit: real, price: real)
    requires Sorted(side, list) && n < |list| && list[n].price == price && Separates(side, list, n, limit)
    ensures Separates(side, list, n + 1, price)
  {
    forall i | n < i < |list| ensures !Better(side, list[i].price, price) {
      assert !Better(side, list[i].price, list[n].price);
    }
  }

  lemma SeparatesStill(side: Side, list: seq<Entry>, n: nat, limit: real, price: real)
    requires Sorted(side, list) && n <= |list| && Separates(side, list, n, limit)
    requires !Better(side, price, limit) && (n < |list| ==> !Better(side, list[n].price, price))
    ensures Separates(side, list, n, price)
  {
    forall i | n <= i < |list| ensures !Better(side, list[i].price, price) {
      assert i > n ==> !Better(side, list[i].price, list[n].price);
    }
  }

  /** Taking from entry `n` of one book, and nothing from the other, respects the
      new limit in both. */
  lemma TakeNext(side: Side, list: seq<Entry>, taken: seq<int>, n: nat, other: seq<Entry>, otherTaken: seq<int>, m: nat,
      limit: real, x: int)
    requires Sorted(side, list) && Sorted(side, other) && NoNegativeSize(list) && NoNegativeSize(other)
    requires UsedUp(list, taken, n) && UsedUp(other, otherTaken, m) && n < |list|
    requires Separates(side, list, n, limit) && Separates(side, other, m, limit)
    requires m < |other| ==> !Better(side, other[m].price, list[n].price)
    requires 0 <= x <= list[n].size
    ensures var price := list[n].price;
            && Separates(side, list, n + 1, price) && Separates(side, other, m, price)
            && IsTaking(list, taken[n := x]) && TakesUpTo(side, list, taken[n := x], price)
                && TakesUpTo(side, other, otherTaken, price)
            && (x == list[n].size ==> UsedUp(list, taken[n := x], n + 1))
            && Total(taken[n := x]) == Total(taken) + x
            && Value(list, taken[n := x]) == Value(list, taken) + Cost(price, x)
  {
    hide Cost, Value, Total;
    UpdateSums(list, taken, n, x);
    SeparatesNext(side, list, n, limit, list[n].price);
    assert !Better(side, list[n].price, limit);
    SeparatesStill(side, other, m, limit, list[n].price);
    hide Sorted;
  }

  lemma AllTaken(list: seq<Entry>, taken: seq<int>)
    requires UsedUp(list, taken, |list|) && NoNegativeSize(list)
    ensures Total(taken) == Depth(list)
  {
    TakingAll(list, taken);
  }

  /** The iterator stands on the next entry of its book, and the next entry of the
      other book, if there is one, is not better. */
  predicate IsBest(side: Side, global: seq<Entry>, local: seq<Entry>, gi: nat, li: nat, it: Iter) {
    match it
    case InGlobal(i) => i == gi < |global| && (li < |local| ==> !Better(side, local[li].price, global[gi].price))
    case InLocal(i) => i == li < |local| && (gi < |global| ==> !Better(side, global[gi].price, local[li].price))
  }

  function Passes(it: Iter, global: bool): nat {
    if it.InGlobal? == global then 1 else 0
  }

  /** One comparison of the walk: marks a book that has run out, aliases its
      iterator to the other book's, and passes the better of the two entries. */
  method NextBest(side: Side, global: seq<Entry>, local: seq<Entry>, globalIt0: Iter, localIt0: Iter, globalDone0: bool,
      localDone0: bool,
                  ghost gi: nat, ghost li: nat)
    returns (done: bool, bestPriceIt: Iter, globalIt: Iter, localIt: Iter, globalDone: bool, localDone: bool)
    requires gi <= |global| && li <= |local|
    requires Positions(global, local, gi, li, globalIt0, localIt0, globalDone0, localDone0)
    ensures done <==> gi == |global| && li == |local|
    ensures !done ==> IsBest(side, global, local, gi, li, bestPriceIt)
    ensures !done ==> Positions(global, local, gi + Passes(bestPriceIt, true), li + Passes(bestPriceIt, false),
        globalIt, localIt, globalDone, localDone)
  {
    globalIt, localIt, globalDone, localDone := globalIt0, localIt0, globalDone0, localDone0;
    bestPriceIt := globalIt;
    if globalIt == InGlobal(|global|) {
      globalDone := true;
      globalIt := localIt;
    }
    if localIt == InLocal(|local|) {
      localDone := true;
      localIt := globalIt;
    }
    done := globalDone && localDone;
    if done {
      return;
    }
    if Better(side, Read(global, local, globalIt).price, Read(global, local, localIt).price) {
      bestPriceIt := globalIt;
      if localIt == globalIt {
        localIt := Advance(localIt);
      }
      globalIt := Advance(globalIt);
    } else {
      bestPriceIt := localIt;
      if globalIt == localIt {
        globalIt := Advance(globalIt);
      }
      localIt := Advance(localIt);
    }
  }

  /** The two books of one side that the walk goes through. */
  datatype TwoBooks = TwoBooks(side: Side, global: seq<Entry>, local: seq<Entry>) {
    predicate Ok() {
      Sorted(side, global) && Sorted(side, local) && NoNegativeSize(global) && NoNegativeSize(local)
    }

    function Depths(): int { Depth(global) + Depth(local) }

    function Swapped(): TwoBooks { TwoBooks(side, local, global) }
  }

  /** How far the walk has come: what is taken from either book, how many entries are
      passed, the last price, and the lots found and money spent so far. */
  datatype Walk = Walk(g: seq<int>, l: seq<int>, gi: nat, li: nat, limit: real, found: int, spent: real) {
    function Swapped(): Walk { Walk(l, g, li, gi, limit, found, spent) }

    /** The walk after `x` lots of the entry under the iterator. */
    function Taking(it: Iter, e: Entry, x: int): Walk
      requires gi < |g| || it.InLocal?
      requires li < |l| || it.InGlobal?
    {
      if it.InGlobal? then Walk(g[gi := x], l, gi + 1, li, e.price, found + x, spent + Cost(e.price, x))
      else Walk(g, l[li := x], gi, li + 1, e.price, found + x, spent + Cost(e.price, x))
    }
  }

  /** Lots taken of an entry when `size` are wanted. */
  function TakenOf(e: Entry, size: int): int { if size > e.size then e.size else size }

  /** What holds between two comparisons of the walk; it is open while lots are wanted. */
  ghost predicate Walked(b: TwoBooks, w: Walk, open: bool) {
    && w.gi <= |b.global| && w.li <= |b.local| && IsTaking(b.global, w.g) && IsTaking(b.local, w.l)
    && (open ==> UsedUp(b.global, w.g, w.gi) && UsedUp(b.local, w.l, w.li))
    && Separates(b.side, b.global, w.gi, w.limit) && Separates(b.side, b.local, w.li, w.limit)
    && TakesUpTo(b.side, b.global, w.g, w.limit) && TakesUpTo(b.side, b.local, w.l, w.limit)
    && w.spent == Value(b.global, w.g) + Value(b.local, w.l)
    && w.found == Total(w.g) + Total(w.l)
  }

  /** The roles of the two books can be exchanged. */
  lemma WalkedSymmetric(b: TwoBooks, w: Walk, open: bool)
    ensures Walked(b, w, open) <==> Walked(b.Swapped(), w.Swapped(), open)
  {
    hide Separates, UsedUp, TakesUpTo, IsTaking, Value, Total;
  }

  /** The next lots come from the global book. */
  lemma WalkedStep(b: TwoBooks, w: Walk, x: int, open: bool)
    requires b.Ok() && Walked(b, w, true) && w.gi < |b.global|
    requires w.li < |b.local| ==> !Better(b.side, b.local[w.li].price, b.global[w.gi].price)
    requires 0 <= x <= b.global[w.gi].size && (open ==> x == b.global[w.gi].size)
    ensures |w.g| == |b.global| && Walked(b, w.Taking(InGlobal(w.gi), b.global[w.gi], x), open)
  {
    hide Sorted, Separates, TakesUpTo, Value, Total, NoNegativeSize, Cost, Better;
    TakeNext(b.side, b.global, w.g, w.gi, b.local, w.l, w.li, w.limit, x);
  }

  /** The next lots come from the book with the better price. */
  lemma WalkedNext(b: TwoBooks, w: Walk, it: Iter, size: int)
    requires b.Ok() && Walked(b, w, true) && IsBest(b.side, b.global, b.local, w.gi, w.li, it) && size > 0
    ensures CanRead(b.global, b.local, it) && |w.g| == |b.global| && |w.l| == |b.local|
    ensures var e := Read(b.global, b.local, it);
            e.size >= 0 && Walked(b, w.Taking(it, e, TakenOf(e, size)), size - TakenOf(e, size) > 0)
  {
    var e := Read(b.global, b.local, it);
    var x := TakenOf(e, size);
    assert |w.g| == |b.global| && |w.l| == |b.local|;
    hide Sorted, NoNegativeSize, Walked, Cost, Better;
    if it.InGlobal? {
      SizeIsNotNegative(b.global, w.gi);
      WalkedStep(b, w, x, size - x > 0);
    } else {
      SizeIsNotNegative(b.local, w.li);
      WalkedSymmetric(b, w, true);
      WalkedStep(b.Swapped(), w.Swapped(), x, size - x > 0);
      WalkedSymmetric(b, w.Taking(it, e, x), size - x > 0);
    }
  }

  /** Nothing is taken yet. */
  lemma WalkStarts(b: TwoBooks, wanted: int) returns (w: Walk)
    requires b.Ok() && wanted >= 0
    ensures Positions(b.global, b.local, 0, 0, InGlobal(0), InLocal(0), false, false)
    ensures w.gi == w.li == 0 && Progress(b, w, [], [], wanted, wanted)
  {
    w := Walk(seq(|b.global|, _ => 0), seq(|b.local|, _ => 0), 0, 0, FirstLimit(b), 0, 0.0);
    Untouched(b, w);
    assert Total([]) == 0 && InnerProduct([], []) == 0.0;
    hide Sorted, NoNegativeSize, Walked, Total, InnerProduct;
  }

  method WalkBooks(side: Side, global: seq<Entry>, local: seq<Entry>, wanted: int)
    returns (prices: seq<real>, sizes: seq<int>, ghost w: Walk)
    requires TwoBooks(side, global, local).Ok() && wanted >= 0
    ensures |prices| == |sizes|
    ensures prices == [] <==> wanted == 0 || (global == [] && local == [])
    ensures TakesBest(TwoBooks(side, global, local), w)
    ensures InnerProduct(prices, sizes) == Value(global, w.g) + Value(local, w.l)
    ensures Total(sizes) == Total(w.g) + Total(w.l)
    ensures var depths := TwoBooks(side, global, local).Depths();
            Total(sizes) == if wanted < depths then wanted else depths
  {
    var size := wanted;
    prices, sizes := [], [];
    var globalIt, localIt := InGlobal(0), InLocal(0);
    var globalDone, localDone := false, false;
    ghost var b := TwoBooks(side, global, local);
    hide *;
    w := WalkStarts(b, wanted);
    while size != 0
      invariant |prices| == |sizes| && size >= 0 && w.gi <= |global| && w.li <= |local|
      invariant size > 0 ==> Positions(global, local, w.gi, w.li, globalIt, localIt, globalDone, localDone)
      invariant Progress(b, w, prices, sizes, wanted, size)
      decreases |global| - w.gi + |local| - w.li
    {
      var bestPriceIt, done;
      done, bestPriceIt, globalIt, localIt, globalDone, localDone :=
        NextBest(side, global, local, globalIt, localIt, globalDone, localDone, w.gi, w.li);
      if done {
        break;
      }
      ghost var next := ProgressStep(b, w, prices, sizes, wanted, size, bestPriceIt);
      var best := Read(global, local, bestPriceIt);
      if size > best.size {
        prices, sizes := prices + [best.price], sizes + [best.size];
        size := size - best.size;
      } else {
        prices, sizes := prices + [best.price], sizes + [size];
        size := 0;
      }
      w := next;
    }
    WalkEnds(b, w, prices, sizes, wanted, size);
  }

  /** What is taken are the best prices of both books, up to a common limit. */
  ghost predicate TakesBest(b: TwoBooks, w: Walk) {
    && IsTaking(b.global, w.g) && IsTaking(b.local, w.l)
    && TakesUpTo(b.side, b.global, w.g, w.limit) && TakesUpTo(b.side, b.local, w.l, w.limit)
  }

  /** The walk so far together with the prices and sizes it has collected. */
  ghost predicate Progress(b: TwoBooks, w: Walk, prices: seq<real>, sizes: seq<int>, wanted: int, size: int) {
    && |prices| == |sizes| && size >= 0 && w.gi <= |b.global| && w.li <= |b.local|
    && (prices == [] <==> w.gi + w.li == 0)
    && (if prices == [] then size == wanted else wanted > 0)
    && Total(sizes) == w.found == wanted - size
    && w.spent == InnerProduct(prices, sizes)
    && Walked(b, w, size > 0)
  }

  lemma ProgressStep(b: TwoBooks, w: Walk, prices: seq<real>, sizes: seq<int>, wanted: int, size: int, it: Iter)
    returns (next: Walk)
    requires b.Ok() && Progress(b, w, prices, sizes, wanted, size)
    requires IsBest(b.side, b.global, b.local, w.gi, w.li, it) && size > 0
    ensures CanRead(b.global, b.local, it)
    ensures var e := Read(b.global, b.local, it);
            var x := if size > e.size then e.size else size;
            && size - x >= 0 && next.gi <= |b.global| && next.li <= |b.local|
            && next.gi == w.gi + Passes(it, true) && next.li == w.li + Passes(it, false)
            && Passes(it, true) + Passes(it, false) == 1
            && Progress(b, next, prices + [e.price], sizes + [x], wanted, size - x)
  {
    WalkedNext(b, w, it, size);
    var e := Read(b.global, b.local, it);
    var x := TakenOf(e, size);
    next := w.Taking(it, e, x);
    assert next.gi <= |b.global| && next.li <= |b.local|;
    hide Sorted, NoNegativeSize, Walked, IsBest, Total, InnerProduct, Cost;
    InnerProductStep(prices, sizes, e.price, x);
    TotalStep(sizes, x);
  }

  lemma WalkEnds(b: TwoBooks, w: Walk, prices: seq<real>, sizes: seq<int>, wanted: int, size: int)
    requires b.Ok() && wanted >= 0 && Progress(b, w, prices, sizes, wanted, size)
    requires size > 0 ==> w.gi == |b.global| && w.li == |b.local|
    ensures |prices| == |sizes|
    ensures prices == [] <==> wanted == 0 || (b.global == [] && b.local == [])
    ensures TakesBest(b, w)
    ensures InnerProduct(prices, sizes) == Value(b.global, w.g) + Value(b.local, w.l)
    ensures Total(sizes) == Total(w.g) + Total(w.l)
    ensures Total(sizes) == if wanted < b.Depths() then wanted else b.Depths()
  {
    if size > 0 {
      AllTaken(b.global, w.g);
      AllTaken(b.local, w.l);
    } else {
      TotalBounds(b.global, w.g);
      TotalBounds(b.local, w.l);
    }
    hide Depth, Separates, TakesUpTo, Total, Value, InnerProduct, Sorted;
  }

  lemma {:induction false} TotalStep(sizes: seq<int>, size: int)
    ensures Total(sizes + [size]) == Total(sizes) + size
  {
    if sizes != [] {
      assert (sizes + [size])[1..] == sizes[1..] + [size];
      TotalStep(sizes[1..], size);
    }
  }

  /** The better of the two best prices: nothing untouched is better. */
  function FirstLimit(b: TwoBooks): real {
    if b.global != [] && (b.local == [] || Better(b.side, b.global[0].price, b.local[0].price)) then b.global[0].price
    else if b.local != [] then b.local[0].price else 0.0
  }

  lemma Untouched(b: TwoBooks, w: Walk)
    requires b.Ok() && w == Walk(w.g, w.l, 0, 0, FirstLimit(b), 0, 0.0)
    requires |w.g| == |b.global| && |w.l| == |b.local|
    requires (forall i :: 0 <= i < |w.g| ==> w.g[i] == 0) && (forall i :: 0 <= i < |w.l| ==> w.l[i] == 0)
    ensures Walked(b, w, true)
  {
    TakingNothing(b.global, w.g);
    TakingNothing(b.local, w.l);
    assert b.global != [] ==> !Better(b.side, b.global[0].price, w.limit);
    assert b.local != [] ==> !Better(b.side, b.local[0].price, w.limit);
    forall i | 0 <= i < |b.global| ensures !Better(b.side, b.global[i].price, w.limit) {
      assert i > 0 ==> !Better(b.side, b.global[i].price, b.global[0].price);
    }
    forall i | 0 <= i < |b.local| ensures !Better(b.side, b.local[i].price, w.limit) {
      assert i > 0 ==> !Better(b.side, b.local[i].price, b.local[0].price);
    }
    hide Sorted, FirstLimit, Total, Value;
  }

  lemma SizeIsNotNegative(list: seq<Entry>, i: nat)
    requires NoNegativeSize(list) && i < |list|
    ensures list[i].size >= 0
  {
  }

  lemma InnerProductStep(prices: seq<real>, sizes: seq<int>, price: real, size: int)
    requires |prices| == |sizes|
    ensures InnerProduct(prices + [price], sizes + [size]) == InnerProduct(prices, sizes) + Cost(price, size)
  {
    hide Cost;
    assert (prices + [price])[..|prices|] == prices && (sizes + [size])[..|sizes|] == sizes;
  }

  // ----- the closing price -------------------------------------------------

  /** A division by zero gives no number. */
  datatype Quote = NotANumber | Price(value: real)

  /** Lots that can be closed: what is asked for, as far as both books go. */
  function Lots(b: TwoBooks, size: int): int {
    var wanted := if size < 0 then -size else size;
    if wanted < b.Depths() then wanted else b.Depths()
  }

  /** The takings `g` and `l` together are `lots` lots worth `value`. */
  ghost predicate Worth(b: TwoBooks, g: seq<int>, l: seq<int>, lots: int, value: real) {
    && IsTaking(b.global, g) && IsTaking(b.local, l)
    && Total(g) + Total(l) == lots && Value(b.global, g) + Value(b.local, l) == value
  }

  /** `value` is what the best way of taking `lots` lots from the two books costs a
      buyer, or brings a seller. */
  ghost predicate BestValue(b: TwoBooks, lots: int, value: real) {
    && (exists g, l :: Worth(b, g, l, lots, value))
    && (forall g, l, other :: Worth(b, g, l, lots, other) ==> Outlay(b.side, other) >= Outlay(b.side, value))
  }

  lemma GreedyHasBestValue(b: TwoBooks, w: Walk, lots: int, value: real)
    requires TakesBest(b, w) && Worth(b, w.g, w.l, lots, value)
    ensures BestValue(b, lots, value)
  {
    forall x, y, other | Worth(b, x, y, lots, other) ensures Outlay(b.side, other) >= Outlay(b.side, value) {
      GreedyIsBest(b.side, b.global, b.local, w.g, w.l, w.limit, x, y);
    }
  }

  lemma NothingToTake(b: TwoBooks, w: Walk, size: int)
    requires TakesBest(b, w)
    ensures Lots(b, size) >= 0
    ensures size == 0 || (b.global == [] && b.local == []) ==> Lots(b, size) == 0
  {
    TotalBounds(b.global, w.g);
    TotalBounds(b.local, w.l);
  }

  /** The volume-weighted price of the walk is the best there is for the lots that
      can be closed; it is no number exactly when entries are seen but hold no lot. */
  method GetClosePrice(connected: bool, buy: bool, size: int, global: seq<Entry>, local: seq<Entry>)
    returns (quote: Quote)
    requires TwoBooks(if buy then Ask else Bid, global, local).Ok()
    ensures !connected || size == 0 || (global == [] && local == []) ==> quote == Price(0.0)
    ensures var lots := Lots(TwoBooks(if buy then Ask else Bid, global, local), size);
            quote.NotANumber? <==> connected && size != 0 && (global != [] || local != []) && lots == 0
    ensures var b := TwoBooks(if buy then Ask else Bid, global, local);
            connected && Lots(b, size) != 0 ==> BestValue(b, Lots(b, size), Cost(quote.value, Lots(b, size)))
  {
    if !connected {
      return Price(0.0);
    }
    var side := if buy then Ask else Bid;
    ghost var b := TwoBooks(side, global, local);
    var prices, sizes, w := WalkBooks(side, global, local, if size < 0 then -size else size);
    GreedyHasBestValue(b, w, Lots(b, size), InnerProduct(prices, sizes));
    NothingToTake(b, w, size);
    hide Value, InnerProduct, Total, TakesBest, Depth, Sorted, NoNegativeSize, BestValue, Lots, Cost;
    quote := Weighted(prices, sizes);
  }

  /** Inner product of prices and sizes divided by the sum of the sizes. */
  method Weighted(prices: seq<real>, sizes: seq<int>) returns (quote: Quote)
    requires |prices| == |sizes|
    ensures prices == [] ==> quote == Price(0.0)
    ensures prices != [] ==> (quote.NotANumber? <==> Total(sizes) == 0)
    ensures quote.Price? && prices != [] ==> Cost(quote.value, Total(sizes)) == InnerProduct(prices, sizes)
  {
    if prices == [] {
      return Price(0.0);
    }
    var total := Total(sizes);
    if total == 0 {
      return NotANumber;
    }
    quote := Price(InnerProduct(prices, sizes) / total as real);
    DivTimes(InnerProduct(prices, sizes), total as real);
  }
}
