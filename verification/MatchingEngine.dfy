/** The matching engine: it works on the objects of a book and is shown to do to them
    what `BookSpec.Submit` does to the book's value. */
module MatchingEngines {
  import opened Types
  import opened Sweep
  import opened BookSpec
  import opened PriceLevels
  import opened LevelMaps
  import opened OrderBooks
  import Conservation

  /** The subscriber to fills: it counts every report and passes it on. */
  class FillSink {
    var totalFills: nat
    var totalVolume: nat
    var delivered: seq<Report>

    constructor ()
      ensures totalFills == 0 && totalVolume == 0 && delivered == []
    {
      totalFills, totalVolume, delivered := 0, 0, [];
    }

    method OnFill(report: Report)
      modifies this
      ensures totalFills == old(totalFills) + 1
      ensures totalVolume == old(totalVolume) + report.qty
      ensures delivered == old(delivered) + [report]
    {
      totalFills := totalFills + 1;
      totalVolume := totalVolume + report.qty;
      delivered := delivered + [report];
    }
  }

  class MatchingEngine {
    const sink: FillSink
    var nextExecId: nat
    var ordersProcessed: nat
    var fillsGenerated: nat
    var volumeTraded: nat
    var totalValueTraded: real
    /** Every trade so far. */
    ghost var tape: seq<Trade>

    constructor (sink: FillSink)
      requires sink.totalFills == 0 && sink.totalVolume == 0 && sink.delivered == []
      ensures Valid() && tape == [] && ordersProcessed == 0 && this.sink == sink
    {
      this.sink := sink;
      nextExecId, ordersProcessed, fillsGenerated, volumeTraded, totalValueTraded := 1, 0, 0, 0, 0.0;
      tape := [];
    }

    /** All counters, and all that was delivered, are functions of the tape. The
        subscriber hears of each share twice. */
    ghost predicate Valid()
      reads this, sink
    {
      && nextExecId == 1 + |tape|
      && fillsGenerated == |tape|
      && volumeTraded == Volume(tape)
      && totalValueTraded == Value(tape)
      && sink.delivered == Reports(tape)
      && sink.totalFills == 2 * fillsGenerated
      && sink.totalVolume == 2 * volumeTraded
    }

    function Vwap(): real
      reads this
    {
      Conservation.Vwap(volumeTraded, totalValueTraded)
    }

    /** Counts one trade and reports it to both parties. */
    method Publish(trade: Trade)
      requires Valid()
      modifies this, sink
      ensures Valid() && tape == old(tape) + [trade] && ordersProcessed == old(ordersProcessed)
      ensures var (n, d) := (old(|sink.delivered|), sink.delivered);
              && |d| == n + 2 && d[..n] == old(sink.delivered)
              && d[n].price == d[n + 1].price == trade.price && d[n].qty == d[n + 1].qty == trade.qty
              && d[n].orderId == trade.makerId && d[n + 1].orderId == trade.takerId
    {
      hide Amount, Volume, Value, Reports;
      OneMoreTrade(tape, trade);
      var execId := nextExecId;
      nextExecId := nextExecId + 1;
      fillsGenerated := fillsGenerated + 1;
      volumeTraded := volumeTraded + trade.qty;
      totalValueTraded := totalValueTraded + Amount(trade.qty, trade.price);
      sink.OnFill(MakerReport(execId, trade));
      sink.OnFill(TakerReport(execId, trade));
      assert sink.delivered == old(sink.delivered) + [MakerReport(execId, trade), TakerReport(execId, trade)];
      tape := tape + [trade];
    }

    /** Matches the incoming order with the oldest order at the best price. */
    method ExecuteFill(aggressor: Order, resting: Order, price: real, book: OrderBook)
      requires Valid() && book.Sweeping(aggressor.side.Opposite())
      requires aggressor !in book.Repr() && 0 < aggressor.Remaining() && aggressor.filledQty <= aggressor.quantity
      requires this !in book.Repr() && sink !in book.Repr()
      requires var m := book.SideMap(aggressor.side.Opposite());
               price == m.keys[0] && price in m.levels && m.levels[price].orders != []
               && resting == m.levels[price].orders[0]
      modifies this, sink, aggressor, book.Repr()
      ensures Valid() && book.Sweeping(aggressor.side.Opposite())
      ensures aggressor.filledQty <= aggressor.quantity
      ensures book.Repr() == old(book.Repr()) && ordersProcessed == old(ordersProcessed)
      ensures var side := aggressor.side.Opposite();
              var makers := old(book.View().Get(side));
              makers != []
              && var q := Min(old(aggressor.Remaining()), makers[0].remaining);
              && tape == old(tape) + [TradeOf(old(aggressor.Val()), makers[0], q)]
              && aggressor.Val() == old(aggressor.Val()).Take(q)
              && book.View() == old(book.View()).Put(side, AfterFill(makers, q))
              && book.SideMap(side).keys == old(book.SideMap(side).keys)
              && book.SideMap(side).levels == old(book.SideMap(side).levels)
    {
      hide Valid, Filed, Indexed, AfterFill, OrderBook.Sound, LevelMap.Sound, LevelMap.View, LevelMap.Valid,
           LevelMap.FrontMayBeEmpty;
      var side := aggressor.side.Opposite();
      book.FrontOfSide(side);
      var q := Min(aggressor.Remaining(), resting.Remaining());
      var trade := TradeOfOrders(aggressor, resting, price, q);
      aggressor.Fill(q);
      book.FillBest(side, q);
      Publish(trade);
    }

    /** Matches the incoming order against one level, oldest first, until either runs out. */
    method SweepLevel(order: Order, book: OrderBook) returns (ghost done: seq<Trade>)
      requires Valid() && book.Valid() && book.SideMap(order.side.Opposite()).keys != []
      requires order !in book.Repr() && 0 < order.Remaining() && order.filledQty <= order.quantity
      requires this !in book.Repr() && sink !in book.Repr()
      requires Crosses(order.Val(), book.SideMap(order.side.Opposite()).keys[0])
      modifies this, sink, order, book.Repr()
      ensures Valid() && book.Valid()
      ensures order.filledQty <= order.quantity && order.Remaining() < old(order.Remaining())
      ensures book.Repr() == old(book.Repr()) && ordersProcessed == old(ordersProcessed)
      ensures var side := order.side.Opposite();
              && Underway(old(order.Val()), old(book.View().Get(side)), done, order.Val(), book.View().Get(side))
              && book.View() == old(book.View()).Put(side, book.View().Get(side))
              && tape == old(tape) + done
              && old(order.Val()).SameOrder(order.Val())
    {
      hide Filed, Indexed, AfterFill, Match, Underway, Valid, LevelMap.Sound, LevelMap.View, LevelMap.Valid,
           LevelMap.FrontMayBeEmpty;
      var side := order.side.Opposite();
      ghost var t0, m0 := order.Val(), book.View().Get(side);
      book.StartSweep(side);
      var price := book.SideMap(side).keys[0];
      var level := book.SideMap(side).levels[price];
      done := [];
      UnderwayStart(t0, m0);
      while 0 < order.Remaining() && !level.IsEmpty()
        invariant Valid() && book.Sweeping(side)
        invariant book.SideMap(side).keys == old(book.SideMap(side).keys)
        invariant price in book.SideMap(side).levels && level == book.SideMap(side).levels[price]
        invariant order.filledQty <= order.quantity
        invariant order.Remaining() < t0.remaining || (order.Val() == t0 && !level.IsEmpty())
        invariant book.Repr() == old(book.Repr()) && ordersProcessed == old(ordersProcessed)
        invariant Underway(t0, m0, done, order.Val(), book.View().Get(side))
        invariant book.View() == old(book.View()).Put(side, book.View().Get(side))
        invariant tape == old(tape) + done
        invariant t0.SameOrder(order.Val())
        decreases order.Remaining()
      {
        book.FrontOfSide(side);
        ghost var t, m := order.Val(), book.View().Get(side);
        ghost var q := Min(t.remaining, m[0].remaining);
        UnderwayStep(t0, m0, done, t, m);
        ExecuteFill(order, level.orders[0], price, book);
        done := done + [TradeOf(t, m[0], q)];
      }
      book.EraseBestIfEmpty(side);
    }

    /** Sweeps the opposite side, best price first. A limit order stops at its price; a
        market order has none. */
    method MatchOrder(order: Order, book: OrderBook) returns (ghost done: seq<Trade>)
      requires Valid() && book.Valid()
      requires order !in book.Repr() && order.filledQty <= order.quantity
      requires this !in book.Repr() && sink !in book.Repr()
      modifies this, sink, order, book.Repr()
      ensures Valid() && book.Valid() && order.filledQty <= order.quantity
      ensures book.Repr() == old(book.Repr()) && ordersProcessed == old(ordersProcessed)
      ensures var side := order.side.Opposite();
              && Match(old(order.Val()), old(book.View().Get(side)))
                 == Outcome(order.Val(), book.View().Get(side), done)
              && book.View() == old(book.View()).Put(side, book.View().Get(side))
              && tape == old(tape) + done
              && old(order.Val()).SameOrder(order.Val())
    {
      hide Filed, Indexed, AfterFill, Match, Underway, Valid, LevelMap.Sound, LevelMap.View, LevelMap.Valid, Done;
      var side := order.side.Opposite();
      ghost var t0, m0 := order.Val(), book.View().Get(side);
      done := [];
      UnderwayStart(t0, m0);
      while 0 < order.Remaining() && book.SideMap(side).keys != []
        invariant Valid() && book.Valid() && order.filledQty <= order.quantity
        invariant book.Repr() == old(book.Repr()) && ordersProcessed == old(ordersProcessed)
        invariant Underway(t0, m0, done, order.Val(), book.View().Get(side))
        invariant book.View() == old(book.View()).Put(side, book.View().Get(side))
        invariant tape == old(tape) + done
        invariant t0.SameOrder(order.Val())
        decreases order.Remaining()
      {
        var price := book.SideMap(side).keys[0];
        if order.kind.LIMIT? && BeyondLimit(order, price) {
          break;
        }
        ghost var t, m := order.Val(), book.View().Get(side);
        ghost var more := SweepLevel(order, book);
        UnderwayTrans(t0, m0, done, t, m, more, order.Val(), book.View().Get(side));
        done := done + more;
      }
      book.SweepIsDone(side, order.Val());
      UnderwayDone(t0, m0, done, order.Val(), book.View().Get(side));
    }

    /** Does the opposite side hold enough within reach for the whole order? Level totals
        are cut to 32 bits. */
    method CanFillCompletely(order: Order, book: OrderBook) returns (ok: bool)
      requires book.Valid()
      ensures book.Sound()
              && ok == CanFill(order.Val(), Levels(book.View().Get(order.side.Opposite())), order.Remaining())
    {
      hide Filed, Indexed, Levels, LevelMap.Valid, LevelMap.View, LevelMap.Sound, CanFill;
      var m := book.SideMap(order.side.Opposite());
      ghost var all := Levels(book.View().Get(order.side.Opposite()));
      m.LevelTotals();
      ghost var t := order.Val();
      var needed := order.Remaining();
      ScanEnds(t, all);
      if needed == 0 {
        return true;
      }
      var i := 0;
      while i < |m.keys|
        invariant 0 <= i <= |m.keys| && 0 < needed
        invariant CanFill(t, all, order.Remaining()) == CanFill(t, all[i..], needed)
      {
        var price := m.keys[i];
        ScanStep(t, all, i, needed);
        if order.kind.LIMIT? && BeyondLimit(order, price) {
          return false;
        }
        needed := needed - Min(needed, m.levels[price].totalQty % TWO_TO_32);
        if needed == 0 {
          return true;
        }
        i := i + 1;
      }
      return false;
    }

    /** Rests what is left of a matched limit order, or cancels it. */
    method RestOrCancel(order: Order, book: OrderBook)
      requires book.Valid() && order !in book.Repr() && order.kind.LIMIT? && order.filledQty <= order.quantity
      requires !book.View().Rests(order.id)
      modifies order, book.Repr()
      ensures book.Valid() && order.filledQty <= order.quantity
      ensures fresh(book.Repr() - old(book.Repr()) - {order})
      ensures var t := old(order.Val());
              && book.View() == RestOrDrop(old(book.View()), t)
              && order.Val() == if t.tif.GTC? || !t.IsActive() then t else DropRemainder(t)
    {
      hide Filed, Indexed, Insert, BookV.Rests, LevelMap.Sound, LevelMap.View, LevelMap.Valid;
      if order.IsActive() && 0 < order.Remaining() {
        if order.tif.IOC? || order.tif.FOK? {
          order.status := CANCELLED;
        } else {
          book.AddLimitOrder(order);
        }
      }
    }

    /** Matches an order, then rests, cancels or drops what is left of it. */
    method SettleOrder(order: Order, book: OrderBook)
      requires Valid() && book.Valid()
      requires order !in book.Repr() && order.filledQty <= order.quantity
      requires this !in book.Repr() && sink !in book.Repr()
      requires !book.View().Rests(order.id)
      modifies this, sink, order, book.Repr()
      ensures Valid() && book.Valid() && order.filledQty <= order.quantity
      ensures ordersProcessed == old(ordersProcessed)
      ensures fresh(book.Repr() - old(book.Repr()) - {order})
      ensures var r := Settle(old(book.View()), old(order.Val()));
              book.View() == r.book && order.Val() == r.order && tape == old(tape) + r.trades
    {
      hide Filed, Indexed, Match, Volume, Value, Reports, BookV.Rests, RestOrDrop, LevelMap.Sound, LevelMap.View,
           LevelMap.Valid;
      StillNotResting(book.View(), order.Val());
      ghost var done := MatchOrder(order, book);
      if order.kind.MARKET? {
        order.DropRemainder();
      } else {
        RestOrCancel(order, book);
      }
    }

    /** Processes an incoming order. A fill-or-kill order that the book cannot fill is cancelled untouched. */
    method SubmitOrder(order: Order, book: OrderBook)
      requires Valid() && book.Valid()
      requires order !in book.Repr() && order.filledQty <= order.quantity
      requires this !in book.Repr() && sink !in book.Repr()
      requires !book.View().Rests(order.id)
      modifies this, sink, order, book.Repr()
      ensures Valid() && book.Valid() && order.filledQty <= order.quantity
      ensures ordersProcessed == old(ordersProcessed) + 1
      ensures fresh(book.Repr() - old(book.Repr()) - {order})
      ensures var r := Submit(old(book.View()), old(order.Val()));
              book.View() == r.book && order.Val() == r.order && tape == old(tape) + r.trades
    {
      hide Filed, Indexed, Settle, CanFill, Levels, Volume, Value, Reports, BookV.Rests, LevelMap.Sound,
           LevelMap.View, LevelMap.Valid;
      ordersProcessed := ordersProcessed + 1;
      order.status := NEW;
      var accepted := true;
      if order.tif.FOK? {
        accepted := CanFillCompletely(order, book);
      }
      if accepted {
        SettleOrder(order, book);
      } else {
        order.status := CANCELLED;
      }
    }

    /** Cancels a resting order, whose status stays as it was: new or partially filled. */
    method CancelOrder(id: nat, book: OrderBook) returns (found: bool, ghost gone: Order?)
      requires book.Valid()
      modifies book.Repr()
      ensures book.Valid() && book.Repr() == old(book.Repr())
      ensures found == old(book.View().Rests(id))
      ensures book.View() == if found then Cancel(old(book.View()), id) else old(book.View())
      ensures forall o: Order :: o in old(book.bids.Repr + book.asks.Repr) ==> o.Val() == old(o.Val())
      ensures found ==>
                gone != null && gone in book.Repr() && gone.Val() == old(Lookup(book.View(), id))
                && (gone.status.NEW? || gone.status.PARTIALLY_FILLED?)
    {
      found, gone := book.CancelOrder(id);
    }
  }

  lemma ScanStep(t: Ticket, levels: seq<(real, nat)>, i: nat, needed: nat)
    requires i < |levels| && 0 < needed
    ensures CanFill(t, levels[i..], needed)
            == (Crosses(t, levels[i].0) && CanFill(t, levels[i + 1..], needed - Min(needed, levels[i].1 % TWO_TO_32)))
    ensures CanFill(t, levels[i + 1..], 0)
  {
    assert levels[i..][1..] == levels[i + 1..];
  }

  lemma ScanEnds(t: Ticket, levels: seq<(real, nat)>)
    ensures CanFill(t, levels, 0) && levels[0..] == levels
    ensures forall needed: nat :: 0 < needed ==> !CanFill(t, levels[|levels|..], needed)
  {
  }

  /** Is the best opposite price worse than the order's limit? */
  predicate BeyondLimit(order: Order, price: real)
    reads order
  {
    if order.side.BUY? then price > order.price else price < order.price
  }

  lemma {:induction false} StillNotResting(b: BookV, o: Ticket)
    requires Filed(b) && !b.Rests(o.id)
    ensures var opp := o.side.Opposite();
            !b.Put(opp, Match(o, b.Get(opp)).makers).Rests(o.id)
  {
    SweptHolds(o, b.Get(o.side.Opposite()), o.id);
  }

  function TradeOfOrders(aggressor: Order, resting: Order, price: real, q: nat): Trade {
    Trade(resting.id, resting.trader, resting.side, resting.symbol,
          aggressor.id, aggressor.trader, aggressor.side, aggressor.symbol, price, q)
  }
}
