/**
 The matching engine's next order: two buffers, one fed with market data and one
 by clients, drained in time order up to the simulation time.
 */
module OrderMerge {

  datatype Order = Order(milli: int, id: string)

  /** An order together with the buffer it came from. */
  datatype Tagged = Tagged(order: Order, local: bool)

  predicate Sorted(q: seq<Order>) {
    forall i, j :: 0 <= i < j < |q| ==> q[i].milli <= q[j].milli
  }

  /** Orders at the head of a buffer that are due before time `t`. */
  function Due(q: seq<Order>, t: int): seq<Order> {
    if q != [] && q[0].milli < t then [q[0]] + Due(q[1..], t) else []
  }

  function Later(q: seq<Order>, t: int): seq<Order> {
    if q != [] && q[0].milli < t then Later(q[1..], t) else q
  }

  /** The choice of one call: a local order goes first when it is not later than a
      due global order, or is itself due when no global order is. */
  predicate TakesLocal(global: seq<Order>, local: seq<Order>, t: int) {
    local != [] && if global != [] && global[0].milli < t then local[0].milli <= global[0].milli else local[0].milli < t
  }

  predicate TakesGlobal(global: seq<Order>, local: seq<Order>, t: int) {
    !TakesLocal(global, local, t) && global != [] && global[0].milli < t
  }

  /** Everything repeated calls at a fixed time return. */
  function Drained(global: seq<Order>, local: seq<Order>, t: int): seq<Tagged>
    decreases |global| + |local|
  {
    if TakesLocal(global, local, t) then [Tagged(local[0], true)] + Drained(global, local[1..], t)
    else if TakesGlobal(global, local, t) then [Tagged(global[0], false)] + Drained(global[1..], local, t)
    else []
  }

  function Orders(s: seq<Tagged>): seq<Order> {
    if s == [] then [] else [s[0].order] + Orders(s[1..])
  }

  // ----- what a stable merge is --------------------------------------------

  /** The orders of one origin, in the order they appear. */
  function Of(s: seq<Tagged>, local: bool): seq<Order> {
    if s == [] then [] else (if s[0].local == local then [s[0].order] else []) + Of(s[1..], local)
  }

  /** Earlier first; at the same time, local before global. */
  predicate MayPrecede(x: Tagged, y: Tagged) {
    x.order.milli < y.order.milli || (x.order.milli == y.order.milli && (x.local || !y.local))
  }

  /** `s` is in time order, local first on ties, and holds each buffer's orders once
      and in their own order. */
  ghost predicate IsStableMerge(s: seq<Tagged>, global: seq<Order>, local: seq<Order>) {
    && (forall i, j :: 0 <= i < j < |s| ==> MayPrecede(s[i], s[j]))
    && Of(s, true) == local && Of(s, false) == global
  }

  lemma {:induction false} OfMember(s: seq<Tagged>, i: nat)
    requires i < |s|
    ensures s[i].order in Of(s, s[i].local)
  {
    if i > 0 {
      OfMember(s[1..], i - 1);
    }
  }

  lemma PutFirst(x: Tagged, s: seq<Tagged>, global: seq<Order>, local: seq<Order>)
    requires IsStableMerge(s, global, local)
    requires forall o :: o in global ==> MayPrecede(x, Tagged(o, false))
    requires forall o :: o in local ==> MayPrecede(x, Tagged(o, true))
    ensures IsStableMerge([x] + s,
                          if x.local then global else [x.order] + global,
                          if x.local then [x.order] + local else local)
  {
    var all := [x] + s;
    assert all[1..] == s;
    forall i, j | 0 <= i < j < |all| ensures MayPrecede(all[i], all[j]) {
      if i == 0 {
        OfMember(s, j - 1);
        assert all[j] == Tagged(all[j].order, all[j].local);
      } else {
        assert all[i] == s[i - 1] && all[j] == s[j - 1];
      }
    }
  }

  lemma {:induction false} DueSplits(q: seq<Order>, t: int)
    ensures Due(q, t) + Later(q, t) == q
    ensures forall o :: o in Due(q, t) ==> o.milli < t
  {
    if q != [] && q[0].milli < t {
      DueSplits(q[1..], t);
    }
  }

  lemma {:induction false} LaterIsNotDue(q: seq<Order>, t: int)
    requires Sorted(q)
    ensures Sorted(Later(q, t)) && forall o :: o in Later(q, t) ==> o.milli >= t
  {
    if q != [] && q[0].milli < t {
      LaterIsNotDue(q[1..], t);
    }
  }

  /** In a time-ordered buffer the due orders at the head are all that are due. */
  lemma DueIsFilter(q: seq<Order>, t: int)
    requires Sorted(q)
    ensures forall o :: o in Due(q, t) <==> o in q && o.milli < t
    ensures Due(q, t) + Later(q, t) == q
  {
    DueSplits(q, t);
    LaterIsNotDue(q, t);
    hide Due, Later, Sorted;
    assert forall o :: o in q ==> o in Due(q, t) || o in Later(q, t);
  }

  lemma LocalFirst(global: seq<Order>, local: seq<Order>, t: int)
    requires Sorted(global) && Sorted(local) && TakesLocal(global, local, t)
    ensures Due(local, t) == [local[0]] + Due(local[1..], t) && Sorted(local[1..])
    ensures forall o :: o in Due(global, t) ==> MayPrecede(Tagged(local[0], true), Tagged(o, false))
    ensures forall o :: o in Due(local[1..], t) ==> MayPrecede(Tagged(local[0], true), Tagged(o, true))
  {
    FirstIsEarliest(local);
    FirstIsEarliest(global);
    DueSplits(global, t);
    DueSplits(local[1..], t);
    assert Due(global, t) != [] ==> global[0].milli < t;
    hide Later;
    assert forall o :: o in Due(global, t) ==> o in global;
    assert forall o :: o in Due(local[1..], t) ==> o in local[1..];
  }

  lemma GlobalFirst(global: seq<Order>, local: seq<Order>, t: int)
    requires Sorted(global) && Sorted(local) && TakesGlobal(global, local, t)
    ensures Due(global, t) == [global[0]] + Due(global[1..], t) && Sorted(global[1..])
    ensures forall o :: o in Due(global[1..], t) ==> MayPrecede(Tagged(global[0], false), Tagged(o, false))
    ensures forall o :: o in Due(local, t) ==> MayPrecede(Tagged(global[0], false), Tagged(o, true))
  {
    FirstIsEarliest(local);
    FirstIsEarliest(global);
    DueSplits(global[1..], t);
    DueSplits(local, t);
    hide Later;
    assert forall o :: o in Due(global[1..], t) ==> o in global[1..];
    assert forall o :: o in Due(local, t) ==> o in local;
  }

  /** Draining two time-ordered buffers gives the stable merge of exactly their due orders. */
  lemma {:induction false} DrainedIsStableMerge(global: seq<Order>, local: seq<Order>, t: int)
    requires Sorted(global) && Sorted(local)
    ensures IsStableMerge(Drained(global, local, t), Due(global, t), Due(local, t))
    decreases |global| + |local|
  {
    if TakesLocal(global, local, t) {
      LocalFirst(global, local, t);
      DrainedIsStableMerge(global, local[1..], t);
      hide Due, IsStableMerge, TakesLocal, TakesGlobal, Sorted, MayPrecede;
      PutFirst(Tagged(local[0], true), Drained(global, local[1..], t), Due(global, t), Due(local[1..], t));
    } else if TakesGlobal(global, local, t) {
      GlobalFirst(global, local, t);
      DrainedIsStableMerge(global[1..], local, t);
      hide Due, IsStableMerge, TakesLocal, TakesGlobal, Sorted, MayPrecede;
      PutFirst(Tagged(global[0], false), Drained(global[1..], local, t), Due(global[1..], t), Due(local, t));
    }
  }

  lemma FirstIsEarliest(q: seq<Order>)
    requires Sorted(q)
    ensures forall o :: o in q ==> q[0].milli <= o.milli
  {
  }

  lemma {:induction false} OfLength(s: seq<Tagged>)
    ensures |Of(s, true)| + |Of(s, false)| == |s|
  {
    if s != [] {
      OfLength(s[1..]);
    }
  }

  /** There is only one stable merge. */
  lemma {:induction false} StableMergeIsUnique(r: seq<Tagged>, s: seq<Tagged>, global: seq<Order>, local: seq<Order>)
    requires IsStableMerge(r, global, local) && IsStableMerge(s, global, local)
    ensures r == s
  {
    OfLength(r);
    OfLength(s);
    if r != [] {
      SameHead(r, s, global, local);
      var x := r[0];
      assert IsStableMerge(r[1..], if x.local then global else global[1..], if x.local then local[1..] else local);
      assert IsStableMerge(s[1..], if x.local then global else global[1..], if x.local then local[1..] else local);
      StableMergeIsUnique(r[1..], s[1..],
                          if x.local then global else global[1..],
                          if x.local then local[1..] else local);
      assert r == [x] + r[1..] && s == [x] + s[1..];
    }
  }

  lemma SameHead(r: seq<Tagged>, s: seq<Tagged>, global: seq<Order>, local: seq<Order>)
    requires IsStableMerge(r, global, local) && IsStableMerge(s, global, local) && r != [] && s != []
    ensures r[0] == s[0]
  {
    if r[0].local != s[0].local {
      HeadIsIn(r, s, global, local);
      HeadIsIn(s, r, global, local);
      assert false;
    }
    assert Of(r, r[0].local)[0] == r[0].order && Of(s, s[0].local)[0] == s[0].order;
  }

  /** The head of one merge occurs somewhere in the other, and so may not be preceded by it. */
  lemma HeadIsIn(r: seq<Tagged>, s: seq<Tagged>, global: seq<Order>, local: seq<Order>)
    requires IsStableMerge(r, global, local) && IsStableMerge(s, global, local) && r != [] && s != []
    requires r[0].local != s[0].local
    ensures MayPrecede(s[0], r[0])
  {
    OfMember(r, 0);
    var i := FindIn(s, r[0]);
  }

  lemma {:induction false} FindIn(s: seq<Tagged>, x: Tagged) returns (i: nat)
    requires x.order in Of(s, x.local)
    ensures i < |s| && s[i] == x
  {
    if s[0] == x {
      i := 0;
    } else {
      i := FindIn(s[1..], x);
      i := i + 1;
    }
  }

  lemma DrainLocal(global: seq<Order>, local: seq<Order>, t: int)
    requires TakesLocal(global, local, t)
    ensures Orders(Drained(global, local, t)) == [local[0]] + Orders(Drained(global, local[1..], t))
    ensures Sorted(global) && Sorted(local) ==> Sorted(local[1..]) && Later(local[1..], t) == Later(local, t)
  {
    var rest := Drained(global, local[1..], t);
    assert ([Tagged(local[0], true)] + rest)[1..] == rest;
    hide Drained;
  }

  lemma DrainGlobal(global: seq<Order>, local: seq<Order>, t: int)
    requires TakesGlobal(global, local, t)
    ensures Orders(Drained(global, local, t)) == [global[0]] + Orders(Drained(global[1..], local, t))
    ensures Sorted(global) && Sorted(local) ==> Sorted(global[1..]) && Later(global[1..], t) == Later(global, t)
  {
    var rest := Drained(global[1..], local, t);
    assert ([Tagged(global[0], false)] + rest)[1..] == rest;
    hide Drained;
  }

  /** When no order is taken there is nothing left to drain. */
  lemma DrainedAll(global: seq<Order>, local: seq<Order>, t: int)
    requires !TakesLocal(global, local, t) && !TakesGlobal(global, local, t)
    ensures Orders(Drained(global, local, t)) == []
    ensures Later(global, t) == global && Later(local, t) == local
  {
  }

  // ----- the two buffers ---------------------------------------------------

  class Market {
    var newGlobalOrders: seq<Order>
    var newLocalOrders: seq<Order>

    constructor ()
      ensures newGlobalOrders == [] && newLocalOrders == []
    {
      newGlobalOrders, newLocalOrders := [], [];
    }

    method BufNewGlobalOrder(order: Order)
      modifies this`newGlobalOrders
      ensures newGlobalOrders == old(newGlobalOrders) + [order]
    {
      newGlobalOrders := newGlobalOrders + [order];
    }

    method BufNewLocalOrder(order: Order)
      modifies this`newLocalOrders
      ensures newLocalOrders == old(newLocalOrders) + [order]
    {
      newLocalOrders := newLocalOrders + [order];
    }

    /** Pops at most one due order; the out-parameter keeps the caller's value, or a
        copy of a global order that is not due, when there is none. */
    method GetNextOrder(orderRef: Order, simulationMS: int) returns (good: bool, order: Order)
      modifies this`newGlobalOrders, this`newLocalOrders
      ensures good <==>
                || TakesLocal(old(newGlobalOrders), old(newLocalOrders), simulationMS)
                || TakesGlobal(old(newGlobalOrders), old(newLocalOrders), simulationMS)
      ensures TakesLocal(old(newGlobalOrders), old(newLocalOrders), simulationMS) ==>
                order == old(newLocalOrders)[0] && newLocalOrders == old(newLocalOrders)[1..]
                    && newGlobalOrders == old(newGlobalOrders)
      ensures TakesGlobal(old(newGlobalOrders), old(newLocalOrders), simulationMS) ==>
                order == old(newGlobalOrders)[0] && newGlobalOrders == old(newGlobalOrders)[1..]
                    && newLocalOrders == old(newLocalOrders)
      ensures !good ==> unchanged(this) && order == (if newGlobalOrders == [] then orderRef else newGlobalOrders[0])
    {
      good, order := false, orderRef;
      if newGlobalOrders != [] {
        order := newGlobalOrders[0];
        if order.milli < simulationMS {
          good := true;
        }
      }
      if newLocalOrders != [] {
        var nextLocalOrder := newLocalOrders[0];
        if good {
          if order.milli >= nextLocalOrder.milli {
            order := nextLocalOrder;
            newLocalOrders := newLocalOrders[1..];
          } else {
            newGlobalOrders := newGlobalOrders[1..];
          }
        } else if nextLocalOrder.milli < simulationMS {
          good := true;
          order := nextLocalOrder;
          newLocalOrders := newLocalOrders[1..];
        }
      } else if good {
        newGlobalOrders := newGlobalOrders[1..];
      }
    }

    /** Calls until no order is due. */
    method Drain(simulationMS: int) returns (orders: seq<Order>)
      modifies this`newGlobalOrders, this`newLocalOrders
      ensures orders == Orders(Drained(old(newGlobalOrders), old(newLocalOrders), simulationMS))
      ensures Sorted(old(newGlobalOrders)) && Sorted(old(newLocalOrders)) ==>
                newGlobalOrders == Later(old(newGlobalOrders), simulationMS)
                    && newLocalOrders == Later(old(newLocalOrders), simulationMS)
    {
      hide Sorted, Later, Orders, Drained, TakesLocal, TakesGlobal;
      orders := [];
      var order := Order(0, "");
      var good := true;
      while good
        invariant orders + Orders(Drained(newGlobalOrders, newLocalOrders, simulationMS))
               == Orders(Drained(old(newGlobalOrders), old(newLocalOrders), simulationMS))
        invariant !good ==> !TakesLocal(newGlobalOrders, newLocalOrders, simulationMS)
        invariant !good ==> !TakesGlobal(newGlobalOrders, newLocalOrders, simulationMS)
        invariant Sorted(old(newGlobalOrders)) && Sorted(old(newLocalOrders)) ==>
          && Sorted(newGlobalOrders) && Sorted(newLocalOrders)
          && Later(newGlobalOrders, simulationMS) == Later(old(newGlobalOrders), simulationMS)
          && Later(newLocalOrders, simulationMS) == Later(old(newLocalOrders), simulationMS)
        decreases |newGlobalOrders| + |newLocalOrders|, good
      {
        ghost var global, local := newGlobalOrders, newLocalOrders;
        TakesFrom(global, local, simulationMS);
        good, order := GetNextOrder(order, simulationMS);
        if good {
          if TakesLocal(global, local, simulationMS) {
            DrainLocal(global, local, simulationMS);
          } else {
            DrainGlobal(global, local, simulationMS);
          }
          orders := orders + [order];
        }
      }
      DrainedAll(newGlobalOrders, newLocalOrders, simulationMS);
    }
  }

  lemma TakesFrom(global: seq<Order>, local: seq<Order>, t: int)
    ensures TakesLocal(global, local, t) ==> local != [] && !TakesGlobal(global, local, t)
    ensures TakesGlobal(global, local, t) ==> global != []
  {
  }
}
