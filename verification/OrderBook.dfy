/** The two-sided book of one symbol: two level maps and an index from order id to place. */
module OrderBooks {
  import opened Types
  import opened Sweep
  import opened BookSpec
  import opened PriceLevels
  import opened LevelMaps

  datatype Location = Location(side: Side, price: real)

  /** The index knows exactly the resting orders, each at its side and price. */
  ghost predicate Indexed(index: map<nat, Location>, b: BookV) {
    forall id :: (id in index <==> b.Rests(id))
                 && (id in index ==> index[id] == Location(Lookup(b, id).side, Lookup(b, id).price))
  }

  class OrderBook {
    const symbol: string
    const bids: LevelMap
    const asks: LevelMap
    var orderIndex: map<nat, Location>

    constructor (symbol: string)
      ensures Valid() && View() == Empty && this.symbol == symbol && fresh(Repr())
      ensures this in Repr() && bids in Repr() && asks in Repr()
    {
      hide Filed, Indexed, LevelMap.Sound, LevelMap.Valid, LevelMap.View;
      this.symbol := symbol;
      bids := new LevelMap(BUY);
      asks := new LevelMap(SELL);
      orderIndex := map[];
      new;
      bids.ValidIsSound();
      asks.ValidIsSound();
      EmptyFacts();
    }

    ghost function Repr(): set<object>
      reads bids, asks
    {
      {this} + bids.Repr + asks.Repr
    }

    ghost predicate Sound()
      reads this, bids, asks, Repr()
    {
      && bids.side == BUY && asks.side == SELL
      && bids in bids.Repr && asks in asks.Repr
      && this !in bids.Repr && this !in asks.Repr && bids.Repr !! asks.Repr
      && bids.Sound() && asks.Sound()
      && Filed(BookV(bids.View(), asks.View()))
      && Indexed(orderIndex, BookV(bids.View(), asks.View()))
    }

    ghost predicate Valid()
      reads this, bids, asks, Repr()
    {
      Sound() && bids.Valid() && asks.Valid()
    }

    ghost function View(): BookV
      requires Sound()
      reads this, bids, asks, Repr()
    {
      BookV(bids.View(), asks.View())
    }

    lemma Parts()
      requires Valid()
      ensures this in Repr() && bids in Repr() && asks in Repr() && Sound()
      ensures Repr() == {this} + bids.Repr + asks.Repr
    {
    }

    function SideMap(side: Side): (m: LevelMap)
    {
      if side.BUY? then bids else asks
    }

    // ---------------------------------------------------------- queries

    function BestBid(): real
      reads bids
    {
      if bids.keys == [] then 0.0 else bids.keys[0]
    }

    function BestAsk(): real
      reads asks
    {
      if asks.keys == [] then 0.0 else asks.keys[0]
    }

    function MidPrice(): real
      reads bids, asks
    {
      if bids.keys == [] || asks.keys == [] then 0.0 else (BestBid() + BestAsk()) / 2.0
    }

    function Spread(): real
      reads bids, asks
    {
      if bids.keys == [] || asks.keys == [] then 0.0 else BestAsk() - BestBid()
    }

    function RestingOrderCount(): nat
      reads this
    {
      |orderIndex|
    }

    /** The quick queries read off the heads of the two queues: the mid price is half way between
        them and, in an uncrossed book, strictly inside the spread. */
    lemma TopOfBook()
      requires Valid()
      ensures BestBid() == if View().bids == [] then 0.0 else View().bids[0].price
      ensures BestAsk() == if View().asks == [] then 0.0 else View().asks[0].price
      ensures View().bids != [] && View().asks != [] ==>
                2.0 * MidPrice() == View().bids[0].price + View().asks[0].price
                && Spread() == View().asks[0].price - View().bids[0].price
      ensures View().bids != [] && View().asks != [] && Uncrossed(View().bids, View().asks) ==>
                BestBid() < MidPrice() < BestAsk() && 0.0 < Spread()
      ensures View().bids == [] || View().asks == [] ==> MidPrice() == 0.0 == Spread()
    {
      bids.TopOfLevels();
      asks.TopOfLevels();
      hide LevelMap.Sound, LevelMap.View, Filed, Indexed;
    }

    /** The index has one entry per resting order. */
    lemma CountIsResting()
      requires Valid()
      ensures RestingOrderCount() == |View().bids| + |View().asks|
    {
      var b := View();
      IdsCount(b.bids);
      IdsCount(b.asks);
      forall id ensures id in orderIndex.Keys <==> id in Ids(b.bids) + Ids(b.asks) {
        IdsHold(b.bids, id);
        IdsHold(b.asks, id);
      }
      assert orderIndex.Keys == Ids(b.bids) + Ids(b.asks);
      assert Ids(b.bids) !! Ids(b.asks);
    }

    /** Up to `n` (price, total quantity) pairs from the best price outward. */
    method Depth(side: Side, n: nat) returns (result: seq<(real, nat)>)
      requires Valid()
      ensures var all := Levels(View().Get(side)); result == all[..Min(n, |all|)]
    {
      hide LevelMap.Sound, LevelMap.View, Levels, Filed, Indexed;
      result := SideMap(side).Depth(n);
    }

    // ---------------------------------------------------------- updates

    /** Rests an order behind everything at its price. */
    method AddLimitOrder(order: Order)
      requires Valid() && order !in Repr() && Resting(order.Val(), order.side)
      requires !View().Rests(order.id)
      modifies Repr()
      ensures Valid()
      ensures View() == old(View().Put(order.side, Insert(View().Get(order.side), order.Val())))
      ensures fresh(Repr() - old(Repr()) - {order}) && order in Repr()
      ensures order.Val() == old(order.Val())
    {
      hide Filed, Insert, Find, Indexed, Resting, BookV.Rests, LevelMap.Sound, LevelMap.View, Lookup, NoEmptyLevel;
      AddFacts(order.Val());
      if order.side.BUY? {
        assert !Holds(bids.View(), order.id) by { NotResting(View(), order.id); }
        bids.Add(order);
      } else {
        assert !Holds(asks.View(), order.id) by { NotResting(View(), order.id); }
        asks.Add(order);
      }
      orderIndex := orderIndex[order.id := Location(order.side, order.price)];
    }

    /** Removes a resting order; unknown ids are ignored. No order object is written to: the
        removed one, `gone`, stays as active as it was and is never marked cancelled. */
    method CancelOrder(id: nat) returns (found: bool, ghost gone: Order?)
      requires Valid()
      modifies Repr()
      ensures Valid() && Repr() == old(Repr())
      ensures found == old(View().Rests(id))
      ensures View() == if found then Cancel(old(View()), id) else old(View())
      ensures forall o: Order :: o in old(bids.Repr + asks.Repr) ==> o.Val() == old(o.Val())
      ensures found ==> gone != null && gone in Repr() && gone.Val() == old(Lookup(View(), id)) && gone.IsActive()
    {
      hide Filed, Indexed, Find, Remove, BookV.Rests, LevelMap.Sound, LevelMap.View, NoEmptyLevel;
      IndexFacts(id);
      if id !in orderIndex {
        return false, null;
      }
      var at := orderIndex[id];
      CancelFacts(id);
      SideMap(at.side).FoundAtItsPrice(id);
      if at.side.BUY? {
        gone := bids.Drop(at.price, id);
      } else {
        gone := asks.Drop(at.price, id);
      }
      orderIndex := orderIndex - {id};
      found := true;
    }

    /** Finds the object of a resting order: its side, its level and its place there. */
    method FindOrder(id: nat) returns (found: bool, side: Side, price: real, n: nat)
      requires Valid()
      ensures found == View().Rests(id)
      ensures found ==>
                var m := SideMap(side);
                price in m.levels && n < |m.levels[price].orders|
                && var target := m.levels[price].orders[n];
                   target in Repr() && target.id == id && target.Val() == Lookup(View(), id) && target.side == side
                   && target.price == price && 0 < target.Remaining()
                   && Holds(View().Get(side), id)
    {
      hide Filed, Indexed, Find, BookV.Rests, LevelMap.Sound, LevelMap.View, NoEmptyLevel;
      side, price, n := BUY, 0.0, 0;
      IndexFacts(id);
      if id !in orderIndex {
        return false, side, price, n;
      }
      side, price := orderIndex[id].side, orderIndex[id].price;
      var m := SideMap(side);
      m.FoundAtItsPrice(id);
      var level := m.levels[price];
      while n < |level.orders| && level.orders[n].id != id
        invariant n <= |level.orders|
        invariant forall j :: 0 <= j < n ==> level.orders[j].id != id
      {
        n := n + 1;
      }
      assert n < |level.orders|;
      FindIs(level.View(), id, n);
      found := true;
      TargetFacts(id, side, price, n);
    }

    lemma TargetFacts(id: nat, side: Side, price: real, n: nat)
      requires Sound() && id in orderIndex && side == orderIndex[id].side && price == orderIndex[id].price
      requires price in SideMap(side).levels && n < |SideMap(side).levels[price].orders|
      requires Find(SideMap(side).levels[price].View(), id) == n
      ensures var target := SideMap(side).levels[price].orders[n];
              target in Repr() && target.Val() == Lookup(View(), id) && target.side == side
              && target.price == price && 0 < target.Remaining() && Holds(View().Get(side), id)
    {
      var m := SideMap(side);
      LookupSide(View(), id);
      m.FoundAtItsPrice(id);
      assert m.levels[price].orders[n] in m.Repr;
      hide LevelMap.Sound, LevelMap.View, Find;
      LookupResting(View(), id);
    }

    lemma IndexFacts(id: nat)
      requires Sound()
      ensures id in orderIndex <==> View().Rests(id)
      ensures id in orderIndex ==>
                var s := View().Get(orderIndex[id].side);
                Holds(s, id) && s[Find(s, id)].price == orderIndex[id].price
                && orderIndex[id].side == Lookup(View(), id).side
    {
      if id in orderIndex {
        LookupSide(View(), id);
      }
    }

    lemma {:induction false} CancelFacts(id: nat)
      requires Sound() && id in orderIndex
      ensures Filed(Cancel(View(), id)) && Indexed(orderIndex - {id}, Cancel(View(), id))
      ensures View().Rests(id) && Lookup(View(), id).IsActive()
      ensures var s := View().Get(orderIndex[id].side);
              Holds(s, id) && Lookup(View(), id) == s[Find(s, id)]
      ensures var side := orderIndex[id].side;
              Cancel(View(), id) == View().Put(side, Remove(View().Get(side), id))
    {
      LookupSide(View(), id);
      CancelKeepsFiled(View(), id);
      CancelIndexed(orderIndex, View(), id);
    }

    // ---------------------------------------------------------- matching

    /** Midway through a sweep of `side`: its best level may have run empty. */
    ghost predicate Sweeping(side: Side)
      reads this, bids, asks, Repr()
    {
      Sound() && SideMap(side).FrontMayBeEmpty() && SideMap(side.Opposite()).Valid()
    }

    /** Matches `q` shares of the oldest order at the best price of a side, and lets go of
        the order once it is filled. */
    method FillBest(side: Side, q: nat)
      requires Sweeping(side)
      requires SideMap(side).keys[0] in SideMap(side).levels && SideMap(side).levels[SideMap(side).keys[0]].orders != []
      requires 0 < q <= SideMap(side).levels[SideMap(side).keys[0]].orders[0].Remaining()
      requires View().Get(side) != [] && q <= View().Get(side)[0].remaining
      modifies Repr()
      ensures Sweeping(side)
      ensures View() == old(View().Put(side, AfterFill(View().Get(side), q)))
      ensures SideMap(side).keys == old(SideMap(side).keys) && SideMap(side).levels == old(SideMap(side).levels)
      ensures Repr() == old(Repr())
      ensures var m := SideMap(side);
              old(m.levels[m.keys[0]].orders[0]).Val() == old(m.levels[m.keys[0]].orders[0].Val()).Take(q)
    {
      hide Filed, Indexed, AfterFill, Find, BookV.Rests, LevelMap.Sound, LevelMap.View, LevelMap.Valid;
      var m := SideMap(side);
      var resting := m.levels[m.keys[0]].orders[0];
      m.SweepingIsSound();
      m.FrontOfView();
      FillBestFacts(side, q);
      m.FillFront(q);
      if resting.Remaining() == 0 {
        orderIndex := orderIndex - {resting.id};
      }
    }

    /** When the loop over levels stops, the rule on values says to stop as well. */
    lemma SweepIsDone(side: Side, taker: Ticket)
      requires Valid() && taker.side == side.Opposite()
      requires 0 < taker.remaining && SideMap(side).keys != [] ==> !Crosses(taker, SideMap(side).keys[0])
      ensures Done(taker, View().Get(side))
    {
      if SideMap(side).keys != [] {
        StartSweep(side);
        FrontOfSide(side);
      }
    }

    lemma StartSweep(side: Side)
      requires Valid() && SideMap(side).keys != []
      ensures Sweeping(side)
      ensures SideMap(side).keys[0] in SideMap(side).levels
      ensures SideMap(side).levels[SideMap(side).keys[0]].orders != []
    {
      SideMap(side).FrontOfView();
      var m := SideMap(side);
      assert m.Snap()[m.keys[0]] == m.levels[m.keys[0]].View();
    }

    lemma FrontOfSide(side: Side)
      requires Sweeping(side)
      ensures var m := SideMap(side);
              m.keys != [] && m.keys[0] in m.levels
              && (m.levels[m.keys[0]].orders != [] ==>
                    var front := m.levels[m.keys[0]].orders[0];
                    View().Get(side) != [] && View().Get(side)[0] == front.Val()
                    && front in Repr() && front.price == m.keys[0] && 0 < front.Remaining())
    {
      SideMap(side).FrontOfView();
    }

    /** Erases the best level of a side once its queue is empty; otherwise only notes that none is. */
    method EraseBestIfEmpty(side: Side)
      requires Sweeping(side)
      modifies Repr()
      ensures Valid() && View() == old(View()) && Repr() == old(Repr())
    {
      hide Filed, Indexed, LevelMap.Sound, LevelMap.View, LevelMap.Valid;
      var m := SideMap(side);
      m.SweepingIsSound();
      m.FrontOfView();
      var best := m.keys[0];
      if m.levels[best].IsEmpty() {
        m.Erase(best);
      } else {
        m.NoneEmpty();
      }
    }

    /** Lowers what remains of a resting order to `qty`, in place. */
    method ReduceOrder(side: Side, price: real, n: nat, qty: nat)
      requires Valid()
      requires price in SideMap(side).levels && n < |SideMap(side).levels[price].orders|
      requires 0 < qty <= SideMap(side).levels[price].orders[n].Remaining()
      requires Holds(View().Get(side), SideMap(side).levels[price].orders[n].id)
      modifies Repr()
      ensures Valid() && Repr() == old(Repr())
      ensures View() == old(Shrink(View(), SideMap(side).levels[price].orders[n].id, qty))
      ensures old(SideMap(side).levels[price].orders[n]).Val()
              == old(SideMap(side).levels[price].orders[n].Val()).(remaining := qty)
    {
      hide Filed, Indexed, Shrink, Find, BookV.Rests, LevelMap.Sound, LevelMap.View, NoEmptyLevel;
      ShrinkFacts(side, price, n, qty);
      if side.BUY? {
        bids.Reduce(price, n, qty);
      } else {
        asks.Reduce(price, n, qty);
      }
    }

    lemma ShrinkFacts(side: Side, price: real, n: nat, qty: nat)
      requires Sound()
      requires price in SideMap(side).levels && n < |SideMap(side).levels[price].orders|
      requires 0 < qty <= SideMap(side).levels[price].orders[n].Remaining()
      requires Holds(View().Get(side), SideMap(side).levels[price].orders[n].id)
      ensures var m := SideMap(side);
              var t := m.levels[price].orders[n].Val();
              var flat := m.View()[Find(m.View(), t.id) := t.(remaining := qty)];
              && View().Rests(t.id)
              && Shrink(View(), t.id, qty) == View().Put(side, flat)
              && Filed(View().Put(side, flat))
              && Indexed(orderIndex, View().Put(side, flat))
    {
      var m := SideMap(side);
      var id := m.levels[price].orders[n].id;
      m.ReduceFacts(price, n, qty);
      hide LevelMap.Sound, LevelMap.View;
      ShrinkIs(View(), side, id, qty);
      ShrinkIndexed(orderIndex, View(), id, qty);
    }

    /** Lets go of an order that is no longer queued. */
    ghost method Disown(order: Order)
      requires Valid() && !View().Rests(order.id)
      modifies Repr()
      ensures Valid() && View() == old(View()) && Repr() == old(Repr()) - {order}
    {
      hide Filed, Indexed, Find, LevelMap.Sound, LevelMap.View, NoEmptyLevel;
      bids.ValidIsSound();
      asks.ValidIsSound();
      bids.Disown(order);
      asks.Disown(order);
    }

    lemma {:induction false} FillBestFacts(side: Side, q: nat)
      requires Sound() && View().Get(side) != [] && 0 < q <= View().Get(side)[0].remaining
      ensures var s := View().Get(side);
              var b := View().Put(side, AfterFill(s, q));
              Filed(b) && Indexed(if q == s[0].remaining then orderIndex - {s[0].id} else orderIndex, b)
    {
      FillKeepsFiled(View(), side, q);
      FillIndexed(orderIndex, View(), side, q);
    }

    lemma AddFacts(t: Ticket)
      requires Sound() && Resting(t, t.side) && !View().Rests(t.id)
      ensures var b := View().Put(t.side, Insert(View().Get(t.side), t));
              Filed(b) && Indexed(orderIndex[t.id := Location(t.side, t.price)], b)
    {
      InsertKeepsFiled(View(), t);
      InsertIndexed(orderIndex, View(), t);
    }
  }

  ghost function Ids(s: seq<Ticket>): set<nat> {
    set i | 0 <= i < |s| :: s[i].id
  }

  lemma IdsHold(s: seq<Ticket>, id: nat)
    ensures id in Ids(s) <==> Holds(s, id)
  {
    assert Holds(s, id) ==> s[Find(s, id)].id == id;
  }

  lemma {:induction false} IdsCount(s: seq<Ticket>)
    requires DistinctIds(s)
    ensures |Ids(s)| == |s|
  {
    if s != [] {
      IdsCount(s[1..]);
      assert forall i :: 1 <= i < |s| ==> s[1..][i - 1].id == s[i].id;
      assert Ids(s) == {s[0].id} + Ids(s[1..]);
    }
  }

  lemma LookupResting(b: BookV, id: nat)
    requires Filed(b) && b.Rests(id)
    ensures Resting(Lookup(b, id), Lookup(b, id).side) && Lookup(b, id).id == id
  {
  }

  lemma NotResting(b: BookV, id: nat)
    requires !b.Rests(id)
    ensures !Holds(b.bids, id) && !Holds(b.asks, id)
  {
  }

  lemma CancelIndexed(index: map<nat, Location>, b: BookV, id: nat)
    requires Filed(b) && b.Rests(id) && Indexed(index, b)
    ensures Indexed(index - {id}, Cancel(b, id))
  {
    forall other
      ensures other in index - {id} <==> Cancel(b, id).Rests(other)
      ensures other in index - {id} ==>
                (index - {id})[other] == Location(Lookup(Cancel(b, id), other).side, Lookup(Cancel(b, id), other).price)
    {
      hide Filed, Cancel, BookV.Rests, Lookup;
      CancelRemovesOnly(b, id, other);
    }
  }

  lemma {:induction false} FillKeepsFiled(b: BookV, side: Side, q: nat)
    requires Filed(b) && b.Get(side) != [] && 0 < q <= b.Get(side)[0].remaining
    ensures Filed(b.Put(side, AfterFill(b.Get(side), q)))
  {
    FilledQueue(b.Get(side), side, q);
    hide Queue, DistinctIds, AfterFill;
    var s, r, opp := b.Get(side), AfterFill(b.Get(side), q), b.Get(side.Opposite());
    forall i, j | 0 <= i < |r| && 0 <= j < |opp| ensures r[i].id != opp[j].id {
      FilledAt(s, q, i);
      assert s[|s| - |r| + i].id != opp[j].id;
    }
  }

  /** Matching the front order in full is, for the index, the same as cancelling it. */
  lemma {:induction false} FillIndexed(index: map<nat, Location>, b: BookV, side: Side, q: nat)
    requires Filed(b) && Indexed(index, b) && b.Get(side) != [] && 0 < q <= b.Get(side)[0].remaining
    ensures var s := b.Get(side);
            Indexed(if q == s[0].remaining then index - {s[0].id} else index, b.Put(side, AfterFill(s, q)))
  {
    var s, id := b.Get(side), b.Get(side)[0].id;
    assert Find(s, id) == 0;
    if q == s[0].remaining {
      CancelIndexed(index, b, id);
      LookupSide(b, id);
      assert Remove(s, id) == s[1..];
      assert b.Get(side.Opposite()) == Cancel(b, id).Get(side.Opposite());
    } else {
      PartFillIndexed(index, b, side, s[0].Take(q));
    }
  }

  /** Changing an order in place, at its price, leaves the index right. */
  lemma PartFillIndexed(index: map<nat, Location>, b: BookV, side: Side, t: Ticket)
    requires Indexed(index, b) && b.Get(side) != [] && b.Get(side)[0].SameOrder(t)
    ensures Indexed(index, b.Put(side, [t] + b.Get(side)[1..]))
  {
    var s := b.Get(side);
    var b' := b.Put(side, [t] + s[1..]);
    forall id
      ensures id in index <==> b'.Rests(id)
      ensures id in index ==> index[id] == Location(Lookup(b', id).side, Lookup(b', id).price)
    {
      assert ([t] + s[1..])[1..] == s[1..];
      assert id in index <==> b.Rests(id);
      assert Find([t] + s[1..], id) == Find(s, id);
    }
  }

  lemma ShrinkIs(b: BookV, side: Side, id: nat, qty: nat)
    requires Filed(b) && Holds(b.Get(side), id) && 0 < qty
    ensures var s := b.Get(side);
            b.Rests(id)
            && Shrink(b, id, qty) == b.Put(side, s[Find(s, id) := s[Find(s, id)].(remaining := qty)])
    ensures Filed(Shrink(b, id, qty))
  {
    LookupSide(b, id);
    var s := b.Get(side);
    assert Resting(s[Find(s, id)], side);
    LoweredQueue(s, side, Find(s, id), qty);
    hide Find, Queue, DistinctIds;
    assert side.SELL? ==> !Holds(b.bids, id);
  }

  lemma ShrinkIndexed(index: map<nat, Location>, b: BookV, id: nat, qty: nat)
    requires Indexed(index, b) && b.Rests(id)
    ensures Indexed(index, Shrink(b, id, qty))
  {
    var b' := Shrink(b, id, qty);
    forall other
      ensures other in index <==> b'.Rests(other)
      ensures other in index ==> index[other] == Location(Lookup(b', other).side, Lookup(b', other).price)
    {
      assert other in index <==> b.Rests(other);
      if Holds(b.bids, id) {
        var k := Find(b.bids, id);
        UpdatedFind(b.bids, k, b.bids[k].(remaining := qty), other);
      } else {
        var k := Find(b.asks, id);
        UpdatedFind(b.asks, k, b.asks[k].(remaining := qty), other);
      }
    }
  }

  lemma EmptyFacts()
    ensures Filed(Empty) && Indexed(map[], Empty)
  {
  }

  lemma InsertKeepsFiled(b: BookV, t: Ticket)
    requires Filed(b) && Resting(t, t.side) && !b.Rests(t.id)
    ensures Filed(b.Put(t.side, Insert(b.Get(t.side), t)))
  {
    var s, r, opp := b.Get(t.side), Insert(b.Get(t.side), t), b.Get(t.side.Opposite());
    InsertedSide(s, t);
    NotResting(b, t.id);
    hide Insert, Find, Place, Queue, DistinctIds, Resting;
    forall i, j | 0 <= i < |r| && 0 <= j < |opp| ensures r[i].id != opp[j].id {
      InsertAt(s, t);
      assert i != Place(s, t.side, t.price) ==> r[i] in s;
    }
  }

  lemma InsertIndexed(index: map<nat, Location>, b: BookV, t: Ticket)
    requires Indexed(index, b) && !b.Rests(t.id)
    ensures Indexed(index[t.id := Location(t.side, t.price)], b.Put(t.side, Insert(b.Get(t.side), t)))
  {
    var s := b.Get(t.side);
    var b' := b.Put(t.side, Insert(s, t));
    var index' := index[t.id := Location(t.side, t.price)];
    forall id
      ensures id in index' <==> b'.Rests(id)
      ensures id in index' ==> index'[id] == Location(Lookup(b', id).side, Lookup(b', id).price)
    {
      InsertHolds(s, t, id);
      InsertLookup(s, t, id);
      assert id != t.id ==> (id in index <==> b.Rests(id));
    }
  }

  lemma {:induction false} InsertLookup(s: seq<Ticket>, t: Ticket, id: nat)
    requires !Holds(s, t.id)
    ensures var r := Insert(s, t);
            (Holds(r, id) <==> id == t.id || Holds(s, id))
            && (Holds(r, id) ==> r[Find(r, id)] == if id == t.id then t else s[Find(s, id)])
  {
    hide Find, Insert, Place;
    InsertAt(s, t);
    if id == t.id {
      InsertedFind(s, t);
    } else {
      InsertedFindOther(s, t, id);
    }
  }
}
