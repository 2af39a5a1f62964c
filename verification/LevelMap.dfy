/** One side of a book: the price levels, kept in a map that is walked best price first. */
module LevelMaps {
  import opened Types
  import opened Sweep
  import opened BookSpec
  import opened LevelSpec
  import opened PriceLevels

  ghost predicate NoEmptyLevel(q: map<real, seq<Ticket>>) {
    forall k :: k in q ==> q[k] != []
  }

  lemma OthersNotEmpty(q: map<real, seq<Ticket>>, k: real, level: seq<Ticket>)
    requires NoEmptyLevel(q) && k in q
    ensures level != [] ==> NoEmptyLevel(q[k := level])
    ensures NoEmptyLevel(q[k := level] - {k})
  {
  }

  /** An ordered map from price to level. `keys` is the order in which it is walked, so
      `keys[0]` is where its first entry stands. */
  class LevelMap {
    const side: Side
    var keys: seq<real>
    var levels: map<real, PriceLevel>
    ghost var Repr: set<object>

    constructor (side: Side)
      ensures Valid() && this.side == side && View() == [] && fresh(Repr) && this in Repr
    {
      this.side := side;
      keys, levels := [], map[];
      Repr := {this};
    }

    ghost predicate Owned()
      reads this, Repr
    {
      && this in Repr
      && (forall k :: k in levels ==> levels[k] in Repr)
      && (forall k, i :: k in levels && 0 <= i < |levels[k].orders| ==> levels[k].orders[i] in Repr)
    }

    /** The content of every level. */
    ghost function Snap(): (q: map<real, seq<Ticket>>)
      requires Owned()
      reads this, Repr
    {
      map k | k in levels :: levels[k].View()
    }

    /** Each key is its level's price, and each running total is the sum of what remains. */
    ghost predicate Tallied()
      reads this, Repr
    {
      Owned() && forall k :: k in levels ==> levels[k].price == k && levels[k].totalQty == Total(levels[k].View())
    }

    /** Representation invariant; the levels in walking order form a queue. */
    ghost predicate Sound()
      reads this, Repr
    {
      && Tallied()
      && Coherent(side, keys, Snap())
      && Queue(Flatten(keys, Snap()), side)
      && DistinctIds(Flatten(keys, Snap()))
    }

    /** Between operations no level is empty. */
    ghost predicate Valid()
      reads this, Repr
    {
      Sound() && NoEmptyLevel(Snap())
    }

    /** During a sweep the best level, and only that one, may have run empty. */
    ghost predicate FrontMayBeEmpty()
      reads this, Repr
    {
      && Sound() && keys != []
      && forall k :: k in Snap() && k != keys[0] ==> Snap()[k] != []
    }

    ghost function View(): seq<Ticket>
      requires Sound()
      reads this, Repr
    {
      Flatten(keys, Snap())
    }

    lemma NoneEmpty()
      requires FrontMayBeEmpty() && keys[0] in levels && levels[keys[0]].orders != []
      ensures Valid()
    {
      assert Snap()[keys[0]] == levels[keys[0]].View();
    }

    lemma SweepingIsSound()
      requires FrontMayBeEmpty()
      ensures Sound() && this in Repr
    {
    }

    lemma ValidIsSound()
      requires Valid()
      ensures Sound() && this in Repr
    {
    }

    /** The running totals, walked best price first, are the totals of the queue. */
    lemma LevelTotals()
      requires Valid()
      ensures var all := Levels(View());
              |all| == |keys| && forall i :: 0 <= i < |keys| ==>
                keys[i] in levels && all[i] == (keys[i], levels[keys[i]].totalQty)
    {
      LevelsOfFlatten(side, keys, Snap());
    }

    method Depth(n: nat) returns (result: seq<(real, nat)>)
      requires Valid()
      ensures var all := Levels(View()); result == all[..Min(n, |all|)]
    {
      hide Levels, Flatten, Queue, DistinctIds, Coherent, Total, NoEmptyLevel;
      ghost var all := Levels(View());
      LevelTotals();
      hide Valid, Sound, View;
      result := [];
      var i := 0;
      while i < |keys| && i < n
        invariant 0 <= i <= |keys| && i <= n
        invariant |result| == i && forall j :: 0 <= j < i ==> result[j] == all[j]
      {
        result := result + [(keys[i], levels[keys[i]].totalQty)];
        i := i + 1;
      }
    }

    /** No level object and no order object stands in two places. */
    lemma Alone(k0: real, n: nat)
      requires Sound() && k0 in levels && n < |levels[k0].orders|
      ensures forall k :: k in levels && k != k0 ==> levels[k] != levels[k0]
      ensures forall k, i :: k in levels && 0 <= i < |levels[k].orders| && (k != k0 || i != n) ==>
                levels[k].orders[i] != levels[k0].orders[n]
    {
      LevelDistinct(side, keys, Snap(), k0);
      hide Flatten, Queue, Sorted, Total;
      forall k, i | k in levels && 0 <= i < |levels[k].orders| && (k != k0 || i != n)
        ensures levels[k].orders[i] != levels[k0].orders[n]
      {
        assert Snap()[k] == levels[k].View() && Snap()[k0] == levels[k0].View();
        assert Snap()[k][i].price == k && Snap()[k0][n].price == k0;
      }
    }

    lemma AloneLevel(k0: real)
      requires Tallied() && k0 in levels
      ensures forall k :: k in levels && k != k0 ==> levels[k] != levels[k0]
    {
    }

    /** When a single level has been worked on or put in, all others read as before. */
    twostate lemma OneLevelChanged(k0: real)
      requires old(Tallied()) && old(Repr) <= Repr
      requires k0 in levels && levels == old(levels)[k0 := levels[k0]] && levels[k0] in Repr
      requires forall k :: k in old(levels) && k != k0 ==> unchanged(old(levels[k]))
      requires forall k, i :: k in old(levels) && k != k0 && 0 <= i < |old(levels[k].orders)| ==>
                 unchanged(old(levels[k].orders)[i])
      requires forall i :: 0 <= i < |levels[k0].orders| ==> levels[k0].orders[i] in Repr
      requires levels[k0].price == k0 && levels[k0].totalQty == Total(levels[k0].View())
      ensures Tallied()
      ensures Snap() == old(Snap())[k0 := levels[k0].View()]
    {
      hide Total, Vals, PriceLevel.View;
      forall k | k in levels && k != k0
        ensures levels[k] == old(levels[k]) && levels[k].orders == old(levels[k].orders)
        ensures levels[k].View() == old(levels[k].View())
      {
        assert k in old(levels);
      }
      assert Owned();
    }

    twostate lemma OneLevelErased(k0: real)
      requires old(Tallied()) && old(Repr) == Repr && levels == old(levels) - {k0}
      requires forall k :: k in levels ==> unchanged(levels[k])
      requires forall k, i :: k in levels && 0 <= i < |levels[k].orders| ==> unchanged(levels[k].orders[i])
      ensures Tallied()
      ensures Snap() == old(Snap()) - {k0}
    {
      hide Total;
      forall k | k in levels ensures levels[k].View() == old(levels[k].View()) {
      }
    }

    /** The oldest order at the best price heads the queue. */
    lemma FrontOfView()
      requires Sound() && keys != []
      ensures keys[0] in levels
      ensures levels[keys[0]].orders != [] ==>
                var front := levels[keys[0]].orders[0];
                View() != [] && View()[0] == front.Val() && front in Repr && front.price == keys[0]
                && 0 < front.Remaining()
    {
      assert Snap()[keys[0]] == levels[keys[0]].View();
      if levels[keys[0]].orders != [] {
        assert Snap()[keys[0]][0].price == keys[0];
        assert View()[0] == levels[keys[0]].View()[0];
        assert Resting(View()[0], side);
      }
    }

    /** The first key is the price of the first order. */
    lemma TopOfLevels()
      requires Valid()
      ensures keys == [] <==> View() == []
      ensures keys != [] ==> View()[0].price == keys[0]
    {
      if keys == [] {
        assert Flatten(keys, Snap()) == [];
      } else {
        FrontOfView();
        assert Snap()[keys[0]] == levels[keys[0]].View();
        var q := Snap();
        assert NoEmptyLevel(q) && keys[0] in q;
        assert forall k :: k in q ==> q[k] != [];
        assert q[keys[0]] != [];
      }
    }

    lemma FillFacts(q: nat)
      requires FrontMayBeEmpty() && keys[0] in levels && levels[keys[0]].orders != []
      requires 0 < q <= levels[keys[0]].orders[0].Remaining()
      ensures var q0 := Snap()[keys[0] := AfterFill(levels[keys[0]].View(), q)];
              && View() != [] && q <= View()[0].remaining
              && Coherent(side, keys, q0)
              && Flatten(keys, q0) == AfterFill(View(), q)
              && Queue(AfterFill(View(), q), side)
              && DistinctIds(AfterFill(View(), q))
              && (forall k :: k in q0 && k != keys[0] ==> q0[k] != [])
    {
      assert Snap()[keys[0]] == levels[keys[0]].View();
      LevelFill(side, keys, Snap(), q);
      FilledQueue(View(), side, q);
    }

    /** Matches `q` shares of the oldest order at the best price. */
    method FillFront(q: nat)
      requires FrontMayBeEmpty() && keys[0] in levels && levels[keys[0]].orders != []
      requires 0 < q <= levels[keys[0]].orders[0].Remaining()
      requires View() != [] && q <= View()[0].remaining
      modifies Repr
      ensures FrontMayBeEmpty() && View() == AfterFill(old(View()), q)
      ensures keys == old(keys) && levels == old(levels) && Repr == old(Repr)
      ensures old(levels[keys[0]].orders[0]).Val() == old(levels[keys[0]].orders[0].Val()).Take(q)
    {
      hide Flatten, Queue, Sorted, Total, DistinctIds, AfterFill, Coherent;
      FillFacts(q);
      Alone(keys[0], 0);
      levels[keys[0]].FillFront(q);
      OneLevelChanged(keys[0]);
    }

    /** Erases a level whose queue has become empty. */
    method Erase(price: real)
      requires Sound() && price in levels && levels[price].orders == []
      modifies this`keys, this`levels
      ensures Sound() && View() == old(View()) && Repr == old(Repr)
      ensures Snap() == old(Snap()) - {price}
      ensures levels == old(levels) - {price}
      ensures old(keys) != [] && old(keys)[0] == price ==> keys == old(keys)[1..]
      ensures old(FrontMayBeEmpty()) && price == old(keys)[0] ==> Valid()
    {
      hide Flatten, Queue, Sorted, Total, DistinctIds;
      assert price in Snap() && Snap()[price] == levels[price].View();
      var i := 0;
      while keys[i] != price
        invariant 0 <= i < |keys|
        invariant price !in keys[..i]
        decreases |keys| - i
      {
        i := i + 1;
      }
      EraseEmpty(side, keys, Snap(), i);
      hide Coherent;
      levels := levels - {price};
      keys := keys[..i] + keys[i + 1..];
      OneLevelErased(price);
    }

    /** Where a new key belongs in the walking order. */
    method KeyPosition(price: real) returns (i: nat)
      requires Sorted(side, keys) && price !in keys
      ensures i <= |keys|
      ensures forall j :: 0 <= j < i ==> Rank(side, keys[j]) < Rank(side, price)
      ensures forall j :: i <= j < |keys| ==> Rank(side, price) < Rank(side, keys[j])
    {
      i := 0;
      while i < |keys| && Rank(side, keys[i]) < Rank(side, price)
        invariant 0 <= i <= |keys|
        invariant forall j :: 0 <= j < i ==> Rank(side, keys[j]) < Rank(side, price)
      {
        i := i + 1;
      }
      assert i < |keys| ==> keys[i] in keys;
    }

    lemma AppendFacts(t: Ticket)
      requires Sound() && Resting(t, side) && !Holds(View(), t.id) && t.price in levels
      ensures var q := Snap()[t.price := levels[t.price].View() + [t]];
              && Coherent(side, keys, q)
              && Flatten(keys, q) == Insert(View(), t)
              && Queue(Insert(View(), t), side)
              && DistinctIds(Insert(View(), t))
      ensures Total(levels[t.price].View() + [t]) == Total(levels[t.price].View()) + t.remaining
    {
      assert t.price in Snap() && Snap()[t.price] == levels[t.price].View();
      var at :| 0 <= at < |keys| && keys[at] == t.price;
      AppendIsInsert(side, keys, Snap(), at, t);
      InsertedSide(View(), t);
      TotalConcat(levels[t.price].View(), [t]);
      assert [t][1..] == [];
    }

    method AddToLevel(order: Order)
      requires Sound() && order !in Repr && Resting(order.Val(), side)
      requires !Holds(View(), order.id) && order.price in levels
      modifies this`Repr, levels[order.price]
      ensures Sound() && View() == Insert(old(View()), order.Val())
      ensures Snap() == old(Snap()[order.price := levels[order.price].View() + [order.Val()]])
      ensures Repr == old(Repr) + {order}
    {
      hide Flatten, Queue, Sorted, DistinctIds, Coherent, Insert, Total, Holds, Resting;
      var level := levels[order.price];
      AppendFacts(order.Val());
      AloneLevel(order.price);
      Repr := Repr + {order};
      level.AddOrder(order);
      assert level.View() == old(level.View()) + [order.Val()];
      OneLevelChanged(order.price);
    }

    lemma NewLevelFacts(t: Ticket, i: nat)
      requires Sound() && Resting(t, side) && !Holds(View(), t.id) && t.price !in levels && i <= |keys|
      requires forall j :: 0 <= j < i ==> Rank(side, keys[j]) < Rank(side, t.price)
      requires forall j :: i <= j < |keys| ==> Rank(side, t.price) < Rank(side, keys[j])
      ensures var keys', q := keys[..i] + [t.price] + keys[i..], Snap()[t.price := [t]];
              && Coherent(side, keys', q)
              && Flatten(keys', q) == Insert(View(), t)
              && Queue(Insert(View(), t), side)
              && DistinctIds(Insert(View(), t))
      ensures Total([t]) == t.remaining
    {
      NewLevelIsInsert(side, keys, Snap(), i, t);
      InsertedSide(View(), t);
      assert [t][1..] == [];
    }

    method AddNewLevel(order: Order)
      requires Sound() && order !in Repr && Resting(order.Val(), side)
      requires !Holds(View(), order.id) && order.price !in levels
      modifies this
      ensures Sound() && View() == Insert(old(View()), order.Val())
      ensures Snap() == old(Snap()[order.price := [order.Val()]])
      ensures fresh(Repr - old(Repr) - {order}) && order in Repr && old(Repr) <= Repr
    {
      hide Flatten, Queue, DistinctIds, Insert, Total, Holds, Resting, Find, Place, Rank;
      var price := order.price;
      assert price !in Snap();
      var i := KeyPosition(price);
      hide Sorted, Coherent;
      NewLevelFacts(order.Val(), i);
      var level := FirstAt(order);
      levels := levels[price := level];
      keys := keys[..i] + [price] + keys[i..];
      Repr := Repr + {level, order};
      assert level.View() == [order.Val()];
      OneLevelChanged(price);
    }

    /** A level that holds one order. */
    static method FirstAt(order: Order) returns (level: PriceLevel)
      ensures fresh(level) && level.orders == [order]
      ensures level.price == order.price && level.totalQty == order.Remaining()
    {
      level := new PriceLevel();
      level.price := order.price;
      level.AddOrder(order);
    }

    /** Queues an order at its price, creating the level if there is none. */
    method Add(order: Order)
      requires Valid() && order !in Repr && Resting(order.Val(), side)
      requires !Holds(View(), order.id)
      modifies Repr
      ensures Valid() && View() == Insert(old(View()), order.Val())
      ensures fresh(Repr - old(Repr) - {order}) && order in Repr && old(Repr) <= Repr
      ensures order.Val() == old(order.Val())
    {
      hide Flatten, Queue, Sorted, DistinctIds, Coherent, Insert, Total, Holds, Resting;
      var price := order.price;
      if price in levels {
        AddToLevel(order);
      } else {
        AddNewLevel(order);
      }
    }

    lemma RemoveFacts(price: real, id: nat)
      requires Sound() && price in levels && Holds(levels[price].View(), id)
      ensures var q := Snap()[price := Remove(levels[price].View(), id)];
              && Coherent(side, keys, q)
              && Flatten(keys, q) == Remove(View(), id)
              && Queue(Remove(View(), id), side)
              && DistinctIds(Remove(View(), id))
    {
      assert price in Snap() && Snap()[price] == levels[price].View();
      var at :| 0 <= at < |keys| && keys[at] == price;
      LevelRemove(side, keys, Snap(), at, id);
      hide Flatten, Sorted, Coherent, Find, Remove;
      var idx := RemovedFrom(View(), side, id);
      ThinnedSide(View(), Remove(View(), id), side, [], idx);
    }

    /** Takes an order out of its level. */
    method TakeOut(price: real, id: nat)
      requires Sound() && price in levels && Holds(levels[price].View(), id)
      modifies levels[price]
      ensures Sound() && View() == Remove(old(View()), id)
      ensures Snap() == old(Snap()[price := Remove(levels[price].View(), id)])
      ensures keys == old(keys) && levels == old(levels) && Repr == old(Repr)
      ensures levels[price].View() == Remove(old(levels[price].View()), id)
    {
      hide Flatten, Queue, Sorted, DistinctIds, Coherent, Total, Remove, Find, NoEmptyLevel;
      RemoveFacts(price, id);
      AloneLevel(price);
      var found := levels[price].RemoveOrder(id);
      OneLevelChanged(price);
    }

    /** Cancels an order: out of its level, and the level out of the map if that empties it.
        The object itself, `gone`, is not written to, nor is any other order. */
    method Drop(price: real, id: nat) returns (ghost gone: Order)
      requires Valid() && price in levels && Holds(levels[price].View(), id)
      modifies Repr
      ensures Valid() && View() == Remove(old(View()), id)
      ensures Repr == old(Repr)
      ensures forall o: Order :: o in old(Repr) ==> o.Val() == old(o.Val())
      ensures var k := Find(old(levels[price].View()), id);
              gone == old(levels[price].orders)[k] && gone in Repr
    {
      hide Flatten, Queue, Sorted, DistinctIds, Coherent, Total, Remove, Find, NoEmptyLevel;
      gone := levels[price].orders[Find(levels[price].View(), id)];
      OthersNotEmpty(Snap(), price, Remove(levels[price].View(), id));
      TakeOut(price, id);
      if levels[price].IsEmpty() {
        Erase(price);
      }
    }

    lemma ReduceFacts(price: real, n: nat, qty: nat)
      requires Sound() && price in levels && n < |levels[price].orders|
      requires 0 < qty <= levels[price].orders[n].Remaining()
      ensures var level := levels[price].View();
              var t := level[n].(remaining := qty);
              var q := Snap()[price := level[n := t]];
              && Find(level, t.id) == n
              && Holds(View(), t.id)
              && View()[Find(View(), t.id)] == level[n]
              && var flat := View()[Find(View(), t.id) := t];
              && Coherent(side, keys, q)
              && Flatten(keys, q) == flat
              && Queue(flat, side)
              && DistinctIds(flat)
              && Total(level[n := t]) == Total(level) - (level[n].remaining - qty)
    {
      var level := levels[price].View();
      assert price in Snap() && Snap()[price] == level;
      LevelDistinct(side, keys, Snap(), price);
      FindIs(level, level[n].id, n);
      var at :| 0 <= at < |keys| && keys[at] == price;
      LevelUpdate(side, keys, Snap(), at, level[n].id, level[n].(remaining := qty));
      TotalUpdate(level, n, level[n].(remaining := qty));
      hide Flatten, Sorted, Coherent, Find, Total, Queue, DistinctIds;
      LoweredQueue(View(), side, Find(View(), level[n].id), qty);
    }

    /** Lowers what remains of a resting order to `qty`, in place. */
    method Reduce(price: real, n: nat, qty: nat)
      requires Valid() && price in levels && n < |levels[price].orders|
      requires 0 < qty <= levels[price].orders[n].Remaining()
      modifies Repr
      ensures Valid() && Repr == old(Repr)
      ensures var t := old(levels[price].orders[n].Val());
              Holds(old(View()), t.id)
              && View() == old(View())[Find(old(View()), t.id) := t.(remaining := qty)]
      ensures old(levels[price].orders[n]).Val() == old(levels[price].orders[n].Val()).(remaining := qty)
    {
      hide Flatten, Queue, Sorted, DistinctIds, Coherent, Total, Find;
      var level := levels[price];
      var target := level.orders[n];
      ReduceFacts(price, n, qty);
      Alone(price, n);
      AloneLevel(price);
      var reduction := target.Remaining() - qty;
      target.quantity := target.quantity - reduction;
      level.UpdateQty(-(reduction as int));
      assert level.View() == old(level.View())[n := target.Val()];
      OneLevelChanged(price);
    }

    lemma QueuedRests(k: real, n: nat)
      requires Sound() && k in levels && n < |levels[k].orders|
      ensures Holds(View(), levels[k].orders[n].id)
    {
      hide Queue, DistinctIds, Sorted, Total;
      assert k in Snap() && Snap()[k] == levels[k].View();
      var at :| 0 <= at < |keys| && keys[at] == k;
      FlattenSplit(keys, Snap(), at);
      var front := Flatten(keys[..at], Snap());
      assert View()[|front| + n] == levels[k].View()[n];
    }

    /** A queued order is found in the level at its price. */
    lemma FoundAtItsPrice(id: nat)
      requires Sound() && Holds(View(), id)
      ensures var t := View()[Find(View(), id)];
              && t.price in levels
              && Holds(levels[t.price].View(), id)
              && levels[t.price].View()[Find(levels[t.price].View(), id)] == t
    {
      var t := View()[Find(View(), id)];
      var i, j := FlattenElement(keys, Snap(), Find(View(), id));
      var k := keys[i];
      assert Snap()[k] == levels[k].View() && Snap()[k][j].price == k;
      LevelDistinct(side, keys, Snap(), k);
      hide Flatten, Sorted, Coherent, Queue;
      FindIs(Snap()[k], id, j);
    }

    /** Gives up ownership of an order that is no longer queued. */
    ghost method Disown(order: Order)
      requires Sound() && !Holds(View(), order.id)
      modifies this`Repr
      ensures Sound() && View() == old(View()) && Snap() == old(Snap())
      ensures Repr == old(Repr) - {order}
    {
      hide Flatten, Queue, Sorted, DistinctIds, Coherent, Total, Find;
      forall k, n | k in levels && 0 <= n < |levels[k].orders| ensures levels[k].orders[n] != order {
        QueuedRests(k, n);
      }
      Repr := Repr - {order};
      assert Snap() == old(Snap());
    }
  }

  lemma LoweredQueue(s: seq<Ticket>, side: Side, k: nat, qty: nat)
    requires Queue(s, side) && DistinctIds(s) && k < |s| && 0 < qty
    ensures var s' := s[k := s[k].(remaining := qty)]; Queue(s', side) && DistinctIds(s')
  {
  }

  lemma FilledQueue(s: seq<Ticket>, side: Side, q: nat)
    requires Queue(s, side) && DistinctIds(s) && s != [] && q <= s[0].remaining
    ensures Queue(AfterFill(s, q), side) && DistinctIds(AfterFill(s, q))
  {
    assert Remnant(AfterFill(s, q), s);
    RemnantKeepsQueue(AfterFill(s, q), s, side);
  }
}
