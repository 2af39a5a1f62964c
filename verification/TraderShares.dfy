/** One trader's shares: what rests on each side of a book and what has been traded. */
module TraderShares {
  import opened Types
  import opened Sweep
  import opened BookSpec

  /** Unfilled shares of a trader's orders in a queue. */
  function Open(q: seq<Ticket>, trader: nat): nat {
    if q == [] then 0 else (if q[0].trader == trader then q[0].remaining else 0) + Open(q[1..], trader)
  }

  /** Shares a trader buys (or sells) in one trade; both, when trading with itself. */
  function TradedIn(t: Trade, trader: nat, side: Side): nat {
    (if t.makerTrader == trader && t.makerSide == side then t.qty else 0)
    + (if t.takerTrader == trader && t.takerSide == side then t.qty else 0)
  }

  function Traded(ts: seq<Trade>, trader: nat, side: Side): nat {
    if ts == [] then 0 else TradedIn(ts[0], trader, side) + Traded(ts[1..], trader, side)
  }

  lemma {:induction false} TradedConcat(a: seq<Trade>, b: seq<Trade>, trader: nat, side: Side)
    ensures Traded(a + b, trader, side) == Traded(a, trader, side) + Traded(b, trader, side)
  {
    if a == [] {
      assert a + b == b;
    } else {
      TailOfConcat(a, b);
      TradedConcat(a[1..], b, trader, side);
    }
  }

  lemma {:induction false} OpenInsert(q: seq<Ticket>, t: Ticket, trader: nat)
    ensures Open(Insert(q, t), trader) == Open(q, trader) + if t.trader == trader then t.remaining else 0
  {
    if q != [] && Rank(t.side, q[0].price) <= Rank(t.side, t.price) {
      OpenInsert(q[1..], t, trader);
    }
  }

  lemma {:induction false} OpenRemove(q: seq<Ticket>, id: nat, trader: nat)
    requires Holds(q, id)
    ensures var t := q[Find(q, id)];
            Open(q, trader) == Open(Remove(q, id), trader) + if t.trader == trader then t.remaining else 0
  {
    if q[0].id != id {
      OpenRemove(q[1..], id, trader);
    }
  }

  lemma {:induction false} OpenAtLeast(q: seq<Ticket>, i: nat)
    requires i < |q|
    ensures q[i].remaining <= Open(q, q[i].trader)
  {
    if i > 0 {
      OpenAtLeast(q[1..], i - 1);
    }
  }

  lemma {:induction false} OpenNone(q: seq<Ticket>, trader: nat)
    requires forall i :: 0 <= i < |q| ==> q[i].trader != trader
    ensures Open(q, trader) == 0
  {
    if q != [] {
      OpenNone(q[1..], trader);
    }
  }

  /** Over a sweep, what leaves the makers' side of a trader is what it traded there, and
      what leaves the taker is what its trader traded on the taker's side. */
  lemma {:induction false} SweepShares(taker: Ticket, makers: seq<Ticket>, trader: nat, side: Side)
    requires forall i :: 0 <= i < |makers| ==> makers[i].side == taker.side.Opposite()
    ensures var r := Match(taker, makers);
            if side == taker.side then
              Traded(r.trades, trader, side)
              == if taker.trader == trader then taker.remaining - r.taker.remaining else 0
            else
              Open(makers, trader) == Open(r.makers, trader) + Traded(r.trades, trader, side)
    decreases |makers| + taker.remaining
  {
    if !Done(taker, makers) {
      var q := Min(taker.remaining, makers[0].remaining);
      var makers' := AfterFill(makers, q);
      if q < makers[0].remaining {
        assert makers'[1..] == makers[1..];
      }
      SweepShares(taker.Take(q), makers', trader, side);
      var rest := Match(taker.Take(q), makers').trades;
      assert Match(taker, makers).trades[1..] == rest;
    }
  }

  /** Shares of a submitted order that neither traded nor rest. */
  function Dropped(order: Ticket, r: Submission): nat {
    if order.kind.LIMIT? && order.tif.GTC? then 0 else r.order.remaining
  }

  /** Everything about a sweep that share counting needs. */
  lemma SweepCounts(b: BookV, o: Ticket, trader: nat, side: Side)
    requires Filed(b)
    ensures var opp := b.Get(o.side.Opposite());
            var m := Match(o, opp);
            && (m.trades == [] ==> m.taker == o)
            && (m.trades != [] ==> m.taker.status == if m.taker.remaining == 0 then FILLED else PARTIALLY_FILLED)
            && if side == o.side then
                 Traded(m.trades, trader, side) == if o.trader == trader then o.remaining - m.taker.remaining else 0
               else
                 Open(opp, trader) == Open(m.makers, trader) + Traded(m.trades, trader, side)
    ensures var m := Match(o, b.Get(o.side.Opposite()));
            Open(Insert(b.Get(o.side), m.taker), trader)
            == Open(b.Get(o.side), trader) + if o.trader == trader then m.taker.remaining else 0
  {
    var opp := b.Get(o.side.Opposite());
    var m := Match(o, opp);
    MatchShape(o, opp);
    SweepShares(o, opp, trader, side);
    OpenInsert(b.Get(o.side), m.taker, trader);
  }

  lemma SettleShares(b: BookV, o: Ticket, trader: nat, side: Side)
    requires Filed(b) && o.IsActive()
    ensures var r := Settle(b, o);
            var mine := o.side == side && o.trader == trader;
            Open(r.book.Get(side), trader) + Traded(r.trades, trader, side) + (if mine then Dropped(o, r) else 0)
            == Open(b.Get(side), trader) + (if mine then o.remaining else 0)
  {
    hide Match, Insert, Filed, Open, Traded;
    SweepCounts(b, o, trader, side);
  }

  /** Shares are conserved per trader and side: what was open or submitted is still open,
      has been traded, or was dropped. */
  lemma SubmitShares(b: BookV, order: Ticket, trader: nat, side: Side)
    requires Filed(b)
    ensures var r := Submit(b, order);
            var mine := order.side == side && order.trader == trader;
            Open(r.book.Get(side), trader) + Traded(r.trades, trader, side) + (if mine then Dropped(order, r) else 0)
            == Open(b.Get(side), trader) + (if mine then order.remaining else 0)
  {
    hide Settle, CanFill, Levels, Filed, Open;
    SettleShares(b, order.(status := NEW), trader, side);
  }
}
