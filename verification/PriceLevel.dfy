/** Orders as shared objects, and one price level's queue of them. */
module PriceLevels {
  import opened Types
  import opened Sweep
  import opened BookSpec
  import opened LevelSpec

  /** An order object, shared between its submitter and the book it rests in. */
  class Order {
    const id: nat
    const trader: nat
    const symbol: string
    const side: Side
    const kind: OrderType
    const tif: TimeInForce
    var price: real
    var quantity: nat
    var filledQty: nat
    var status: OrderStatus

    constructor (id: nat, trader: nat, symbol: string, side: Side, kind: OrderType, tif: TimeInForce,
                 price: real, quantity: nat)
      ensures Val() == Ticket(id, trader, symbol, side, kind, tif, price, 0, quantity, NEW)
      ensures filledQty <= this.quantity
    {
      this.id, this.trader, this.symbol := id, trader, symbol;
      this.side, this.kind, this.tif := side, kind, tif;
      this.price, this.quantity, this.filledQty, this.status := price, quantity, 0, NEW;
    }

    /** Shares still unfilled. */
    function Remaining(): nat
      reads this
    {
      if filledQty <= quantity then quantity - filledQty else 0
    }

    predicate IsActive()
      reads this
    {
      status == NEW || status == PARTIALLY_FILLED
    }

    ghost function Val(): Ticket
      reads this
    {
      Ticket(id, trader, symbol, side, kind, tif, price, filledQty, Remaining(), status)
    }

    /** Matches `q` more shares. */
    method Fill(q: nat)
      requires q <= Remaining() && 0 < Remaining()
      modifies this
      ensures Val() == old(Val()).Take(q)
      ensures filledQty <= quantity
    {
      filledQty := filledQty + q;
      status := if Remaining() == 0 then FILLED else PARTIALLY_FILLED;
    }

    /** Whatever was not filled is discarded. */
    method DropRemainder()
      modifies this`status
      ensures Val() == BookSpec.DropRemainder(old(Val()))
    {
      if 0 < Remaining() {
        status := CANCELLED;
      }
    }
  }

  ghost function Vals(os: seq<Order>): (v: seq<Ticket>)
    reads os
    ensures |v| == |os|
    ensures forall i :: 0 <= i < |os| ==> v[i] == os[i].Val()
  {
    seq(|os|, i requires 0 <= i < |os| reads os => os[i].Val())
  }

  class PriceLevel {
    var price: real
    var totalQty: nat
    /** First in, first out: the order at index 0 is matched first. */
    var orders: seq<Order>

    constructor ()
      ensures price == 0.0 && totalQty == 0 && orders == []
    {
      price, totalQty, orders := 0.0, 0, [];
    }

    ghost function View(): seq<Ticket>
      reads this, orders
    {
      Vals(orders)
    }

    method AddOrder(order: Order)
      modifies this
      ensures orders == old(orders) + [order]
      ensures price == old(price) && totalQty == old(totalQty) + order.Remaining()
    {
      totalQty := totalQty + order.Remaining();
      orders := orders + [order];
    }

    /** Removes the first order with this id. */
    method RemoveOrder(id: nat) returns (found: bool)
      requires totalQty == Total(View())
      modifies this
      ensures price == old(price) && totalQty == Total(View())
      ensures View() == Remove(old(View()), id)
      ensures found <==> Holds(old(View()), id)
      ensures var k := Find(old(View()), id);
              orders == if found then old(orders)[..k] + old(orders)[k + 1..] else old(orders)
    {
      hide Total, Remove, Find;
      var i := 0;
      while i < |orders|
        invariant 0 <= i <= |orders|
        invariant orders == old(orders) && totalQty == old(totalQty)
        invariant forall j :: 0 <= j < i ==> orders[j].id != id
      {
        if orders[i].id == id {
          FindIs(View(), id, i);
          TotalRemove(View(), id);
          RemovedAt(View(), id);
          totalQty := totalQty - orders[i].Remaining();
          orders := orders[..i] + orders[i + 1..];
          assert View() == Remove(old(View()), id);
          return true;
        }
        i := i + 1;
      }
      RemoveAbsent(View(), id);
      return false;
    }

    method UpdateQty(delta: int)
      requires 0 <= totalQty + delta
      modifies this`totalQty
      ensures totalQty == old(totalQty) + delta
    {
      totalQty := totalQty + delta;
    }

    /** Matches `q` shares of the oldest order, which leaves the queue once it is filled. */
    method FillFront(q: nat)
      requires orders != [] && 0 < q <= orders[0].Remaining()
      requires totalQty == Total(View())
      requires forall i :: 0 < i < |orders| ==> orders[i] != orders[0]
      modifies this, orders[0]
      ensures price == old(price)
      ensures View() == AfterFill(old(View()), q) && totalQty == Total(View())
      ensures orders == if q == old(orders[0].Remaining()) then old(orders)[1..] else old(orders)
      ensures old(orders[0]).Val() == old(orders[0].Val()).Take(q)
    {
      var order := orders[0];
      order.Fill(q);
      UpdateQty(-(q as int));
      if order.Remaining() == 0 {
        orders := orders[1..];
        assert View() == old(View())[1..];
      } else {
        assert View() == [order.Val()] + old(View())[1..];
        assert View()[1..] == old(View())[1..];
      }
    }

    predicate IsEmpty()
      reads this
    {
      orders == []
    }
  }
}
