/** The matching rule on plain sequences: an incoming order (the taker) sweeps the
    orders resting on the opposite side, which are listed best price first and, at
    equal prices, oldest first. */
module Sweep {
  import opened Types

  // ------------------------------------------------------------ price priority

  /** Orders the prices of a side: the smaller rank is the better price. */
  function Rank(side: Side, price: real): real {
    if side.SELL? then price else -price
  }

  /** May the taker trade at a resting order's price? */
  predicate Crosses(taker: Ticket, price: real) {
    taker.kind.MARKET? || (if taker.side.BUY? then price <= taker.price else price >= taker.price)
  }

  /** A ticket that may sit on the given side of a book. */
  predicate Resting(t: Ticket, side: Side) {
    t.side == side && t.kind.LIMIT? && t.tif.GTC? && 0 < t.remaining && t.IsActive()
  }

  /** One side of a book in priority order. */
  ghost predicate Queue(s: seq<Ticket>, side: Side) {
    && (forall i :: 0 <= i < |s| ==> Resting(s[i], side))
    && (forall i, j :: 0 <= i < j < |s| ==> Rank(side, s[i].price) <= Rank(side, s[j].price))
  }

  ghost predicate DistinctIds(s: seq<Ticket>) {
    forall i, j :: 0 <= i < j < |s| ==> s[i].id != s[j].id
  }

  // ------------------------------------------------------------ the sweep

  datatype Outcome = Outcome(taker: Ticket, makers: seq<Ticket>, trades: seq<Trade>)

  predicate Done(taker: Ticket, makers: seq<Ticket>) {
    taker.remaining == 0 || makers == [] || !Crosses(taker, makers[0].price)
  }

  function TradeOf(taker: Ticket, maker: Ticket, qty: nat): Trade {
    Trade(maker.id, maker.trader, maker.side, maker.symbol,
          taker.id, taker.trader, taker.side, taker.symbol, maker.price, qty)
  }

  /** The opposite side after its first order gives up `q` shares. */
  function AfterFill(makers: seq<Ticket>, q: nat): seq<Ticket>
    requires makers != [] && q <= makers[0].remaining
  {
    if q == makers[0].remaining then makers[1..] else [makers[0].Take(q)] + makers[1..]
  }

  /** What is left after a fill are the same orders, the first perhaps matched further. */
  lemma FilledAt(makers: seq<Ticket>, q: nat, i: nat)
    requires makers != [] && q <= makers[0].remaining && i < |AfterFill(makers, q)|
    ensures |AfterFill(makers, q)| <= |makers|
    ensures makers[|makers| - |AfterFill(makers, q)| + i].SameOrder(AfterFill(makers, q)[i])
  {
  }

  function Match(taker: Ticket, makers: seq<Ticket>): (r: Outcome)
    ensures taker.SameOrder(r.taker)
    decreases |makers| + taker.remaining
  {
    if Done(taker, makers) then Outcome(taker, makers, [])
    else
      var q := Min(taker.remaining, makers[0].remaining);
      var rest := Match(taker.Take(q), AfterFill(makers, q));
      rest.(trades := [TradeOf(taker, makers[0], q)] + rest.trades)
  }

  /** A sweep from `(t0, m0)` that has made the trades `done` and now stands at `(t, m)`. */
  ghost predicate Underway(t0: Ticket, m0: seq<Ticket>, done: seq<Trade>, t: Ticket, m: seq<Ticket>) {
    Match(t0, m0) == Outcome(Match(t, m).taker, Match(t, m).makers, done + Match(t, m).trades)
  }

  lemma UnderwayStart(t: Ticket, m: seq<Ticket>)
    ensures Underway(t, m, [], t, m)
  {
    assert [] + Match(t, m).trades == Match(t, m).trades;
  }

  lemma UnderwayStep(t0: Ticket, m0: seq<Ticket>, done: seq<Trade>, t: Ticket, m: seq<Ticket>)
    requires Underway(t0, m0, done, t, m) && !Done(t, m)
    ensures var q := Min(t.remaining, m[0].remaining);
            Underway(t0, m0, done + [TradeOf(t, m[0], q)], t.Take(q), AfterFill(m, q))
  {
    var q := Min(t.remaining, m[0].remaining);
    ConcatAssoc(done, [TradeOf(t, m[0], q)], Match(t.Take(q), AfterFill(m, q)).trades);
  }

  lemma UnderwayTrans(t0: Ticket, m0: seq<Ticket>, a: seq<Trade>, t1: Ticket, m1: seq<Ticket>,
                      b: seq<Trade>, t: Ticket, m: seq<Ticket>)
    requires Underway(t0, m0, a, t1, m1) && Underway(t1, m1, b, t, m)
    ensures Underway(t0, m0, a + b, t, m)
  {
    ConcatAssoc(a, b, Match(t, m).trades);
  }

  lemma UnderwayDone(t0: Ticket, m0: seq<Ticket>, done: seq<Trade>, t: Ticket, m: seq<Ticket>)
    requires Underway(t0, m0, done, t, m) && Done(t, m)
    ensures Match(t0, m0) == Outcome(t, m, done)
  {
  }

  // ------------------------------------------------------------ what a sweep leaves

  /** `after` is what is left of `before` once a prefix has been consumed: the first
      survivor may have been matched in part, all others are untouched. */
  ghost predicate Remnant(after: seq<Ticket>, before: seq<Ticket>) {
    && |after| <= |before|
    && (after != [] ==>
          var first := before[|before| - |after|];
          && first.SameOrder(after[0])
          && after[0].filled + after[0].remaining == first.filled + first.remaining
          && 0 < after[0].remaining <= first.remaining
          && (after[0] == first || after[0].status == PARTIALLY_FILLED)
          && after[1..] == before[|before| - |after| + 1..])
  }

  lemma RemnantTrans(a: seq<Ticket>, b: seq<Ticket>, c: seq<Ticket>)
    requires Remnant(a, b) && Remnant(b, c)
    ensures Remnant(a, c)
  {
    if a != [] && |a| < |b| {
      assert b[|b| - |a|] == b[1..][|b| - |a| - 1] == c[|c| - |a|];
      assert b[|b| - |a| + 1..] == b[1..][|b| - |a|..] == c[|c| - |a| + 1..];
    }
  }

  /** A sweep consumes a prefix, never over-fills, conserves the taker's shares, and
      stops only when the taker is filled or the next price is out of reach. */
  lemma {:induction false} MatchShape(taker: Ticket, makers: seq<Ticket>)
    requires forall i :: 0 <= i < |makers| ==> 0 < makers[i].remaining
    ensures var r := Match(taker, makers);
            && Remnant(r.makers, makers)
            && taker.SameOrder(r.taker)
            && r.taker.filled + r.taker.remaining == taker.filled + taker.remaining
            && Volume(r.trades) == taker.remaining - r.taker.remaining
            && Done(r.taker, r.makers)
            && (r.trades == [] ==> r.taker == taker && r.makers == makers)
            && (r.trades != [] ==> r.taker.status == if r.taker.remaining == 0 then FILLED else PARTIALLY_FILLED)
    decreases |makers| + taker.remaining
  {
    if !Done(taker, makers) {
      var q := Min(taker.remaining, makers[0].remaining);
      var makers' := AfterFill(makers, q);
      MatchShape(taker.Take(q), makers');
      var rest := Match(taker.Take(q), makers');
      VolumeConcat([TradeOf(taker, makers[0], q)], rest.trades);
      assert Remnant(makers', makers) by {
        if makers' != [] && q == makers[0].remaining {
          assert makers'[1..] == makers[2..];
        }
      }
      RemnantTrans(rest.makers, makers', makers);
    }
  }

  /** Each survivor of a sweep is one of the orders that were there, in the same order. */
  lemma RemnantAt(after: seq<Ticket>, before: seq<Ticket>, i: nat)
    requires Remnant(after, before) && i < |after|
    ensures before[|before| - |after| + i].SameOrder(after[i])
    ensures i > 0 ==> after[i] == before[|before| - |after| + i]
  {
    if i > 0 {
      assert after[i] == after[1..][i - 1];
    }
  }

  lemma RemnantKeepsQueue(after: seq<Ticket>, before: seq<Ticket>, side: Side)
    requires Remnant(after, before) && Queue(before, side)
    ensures Queue(after, side)
    ensures DistinctIds(before) ==> DistinctIds(after)
  {
    forall i | 0 <= i < |after|
      ensures before[|before| - |after| + i].SameOrder(after[i]) && Resting(after[i], side)
    {
      RemnantAt(after, before, i);
    }
  }

  /** After a sweep that leaves the taker with shares to match, no resting price is within reach. */
  lemma NothingInReach(taker: Ticket, makers: seq<Ticket>, i: nat)
    requires Queue(makers, taker.side.Opposite()) && Done(taker, makers) && 0 < taker.remaining
    requires i < |makers|
    ensures !Crosses(taker, makers[i].price)
  {
    assert Rank(taker.side.Opposite(), makers[0].price) <= Rank(taker.side.Opposite(), makers[i].price);
  }

  // ------------------------------------------------------------ closed form

  /** Shares the taker could reach among the resting orders. */
  function Liquidity(taker: Ticket, makers: seq<Ticket>): nat {
    if makers == [] then 0
    else (if Crosses(taker, makers[0].price) then makers[0].remaining else 0) + Liquidity(taker, makers[1..])
  }

  lemma {:induction false} LiquidityBeyondReach(taker: Ticket, makers: seq<Ticket>)
    requires forall i :: 0 <= i < |makers| ==> !Crosses(taker, makers[i].price)
    ensures Liquidity(taker, makers) == 0
  {
    if makers != [] {
      LiquidityBeyondReach(taker, makers[1..]);
    }
  }

  lemma {:induction false} LiquiditySameTaker(a: Ticket, b: Ticket, makers: seq<Ticket>)
    requires a.SameOrder(b)
    ensures Liquidity(a, makers) == Liquidity(b, makers)
  {
    if makers != [] {
      LiquiditySameTaker(a, b, makers[1..]);
    }
  }

  /** The sweep fills exactly as much as is wanted and within reach. */
  lemma {:induction false} MatchFillsWhatItCan(taker: Ticket, makers: seq<Ticket>)
    requires Queue(makers, taker.side.Opposite())
    ensures Match(taker, makers).taker.remaining
            == if Liquidity(taker, makers) >= taker.remaining then 0 else taker.remaining - Liquidity(taker, makers)
    decreases |makers| + taker.remaining
  {
    if Done(taker, makers) {
      if 0 < taker.remaining {
        forall i | 0 <= i < |makers| ensures !Crosses(taker, makers[i].price) {
          NothingInReach(taker, makers, i);
        }
        LiquidityBeyondReach(taker, makers);
      }
    } else {
      var q := Min(taker.remaining, makers[0].remaining);
      var makers' := AfterFill(makers, q);
      assert Remnant(makers', makers);
      RemnantKeepsQueue(makers', makers, taker.side.Opposite());
      MatchFillsWhatItCan(taker.Take(q), makers');
      LiquiditySameTaker(taker, taker.Take(q), makers');
      if q < makers[0].remaining {
        assert makers'[1..] == makers[1..];
      }
    }
  }

  /** The opposite side after `n` shares are taken from its front. */
  function Consume(makers: seq<Ticket>, n: nat): seq<Ticket> {
    if makers == [] || n == 0 then makers
    else if n >= makers[0].remaining then Consume(makers[1..], n - makers[0].remaining)
    else [makers[0].Take(n)] + makers[1..]
  }

  /** What a sweep does to the book depends only on the number of shares it takes. */
  lemma {:induction false} MatchConsumes(taker: Ticket, makers: seq<Ticket>)
    requires forall i :: 0 <= i < |makers| ==> 0 < makers[i].remaining
    ensures var r := Match(taker, makers); r.makers == Consume(makers, Volume(r.trades))
    decreases |makers| + taker.remaining
  {
    if !Done(taker, makers) {
      var q := Min(taker.remaining, makers[0].remaining);
      var makers' := AfterFill(makers, q);
      MatchConsumes(taker.Take(q), makers');
      var rest := Match(taker.Take(q), makers');
      VolumeConcat([TradeOf(taker, makers[0], q)], rest.trades);
      if q < makers[0].remaining {
        assert Done(taker.Take(q), makers');
        assert rest.trades == [];
      }
    }
  }

  lemma {:induction false} ConsumeTwice(makers: seq<Ticket>, a: nat, b: nat)
    requires forall i :: 0 <= i < |makers| ==> 0 < makers[i].remaining
    ensures Consume(Consume(makers, a), b) == Consume(makers, a + b)
  {
    if makers != [] && a != 0 {
      if a >= makers[0].remaining {
        ConsumeTwice(makers[1..], a - makers[0].remaining, b);
      } else if b != 0 {
        var cut := [makers[0].Take(a)] + makers[1..];
        assert cut[1..] == makers[1..];
        if a + b < makers[0].remaining {
          assert makers[0].Take(a).Take(b) == makers[0].Take(a + b);
        }
      }
    }
  }

  // ------------------------------------------------------------ splitting an order

  /** Shares of resting order `id` that trades on a tape took. */
  function TakenFrom(tape: seq<Trade>, id: nat): nat {
    if tape == [] then 0
    else (if tape[0].makerId == id then tape[0].qty else 0) + TakenFrom(tape[1..], id)
  }

  /** Unfilled shares of order `id` in a queue. */
  function Unfilled(s: seq<Ticket>, id: nat): nat {
    if s == [] then 0 else (if s[0].id == id then s[0].remaining else 0) + Unfilled(s[1..], id)
  }

  /** Whatever a sweep takes from a resting order leaves that order's unfilled quantity. */
  lemma {:induction false} SharesMove(taker: Ticket, makers: seq<Ticket>, id: nat)
    ensures var r := Match(taker, makers);
            Unfilled(makers, id) == TakenFrom(r.trades, id) + Unfilled(r.makers, id)
    decreases |makers| + taker.remaining
  {
    if !Done(taker, makers) {
      var q := Min(taker.remaining, makers[0].remaining);
      var makers' := AfterFill(makers, q);
      SharesMove(taker.Take(q), makers', id);
      if q < makers[0].remaining {
        assert makers'[1..] == makers[1..];
      }
      var r := Match(taker, makers);
      assert r.trades[1..] == Match(taker.Take(q), makers').trades;
    }
  }

  ghost predicate SamePull(a: Ticket, b: Ticket) {
    a.side == b.side && a.kind == b.kind && a.price == b.price
  }

  lemma {:induction false} LiquiditySamePull(a: Ticket, b: Ticket, makers: seq<Ticket>)
    requires SamePull(a, b)
    ensures Liquidity(a, makers) == Liquidity(b, makers)
  {
    if makers != [] {
      LiquiditySamePull(a, b, makers[1..]);
    }
  }

  /** Consuming at most what is within reach lowers the reachable liquidity by that much. */
  lemma {:induction false} ConsumeLowersLiquidity(taker: Ticket, makers: seq<Ticket>, n: nat)
    requires Queue(makers, taker.side.Opposite()) && n <= Liquidity(taker, makers)
    ensures Liquidity(taker, Consume(makers, n)) == Liquidity(taker, makers) - n
  {
    if makers != [] && n != 0 {
      if !Crosses(taker, makers[0].price) {
        forall i | 0 <= i < |makers| ensures !Crosses(taker, makers[i].price) {
          assert Rank(taker.side.Opposite(), makers[0].price) <= Rank(taker.side.Opposite(), makers[i].price);
        }
        LiquidityBeyondReach(taker, makers);
      } else if n >= makers[0].remaining {
        ConsumeLowersLiquidity(taker, makers[1..], n - makers[0].remaining);
      } else {
        assert ([makers[0].Take(n)] + makers[1..])[1..] == makers[1..];
      }
    }
  }

  /** The closed form of a sweep: it takes the smaller of what is wanted and what is
      within reach, off the front of the opposite side. */
  lemma {:induction false} MatchClosedForm(taker: Ticket, makers: seq<Ticket>)
    requires Queue(makers, taker.side.Opposite())
    ensures var r := Match(taker, makers);
            var n := Min(taker.remaining, Liquidity(taker, makers));
            && r.makers == Consume(makers, n)
            && r.taker.remaining == taker.remaining - n
            && Volume(r.trades) == n
  {
    hide Match, Consume, Liquidity, Remnant, Volume, Done;
    MatchShape(taker, makers);
    MatchFillsWhatItCan(taker, makers);
    MatchConsumes(taker, makers);
  }

  /** Split law: one order for `a + b` shares does to the opposite side, order by
      order, exactly what an order for `a` followed by one for `b` does. */
  lemma {:induction false} SplitLaw(whole: Ticket, first: Ticket, second: Ticket, makers: seq<Ticket>, id: nat)
    requires Queue(makers, whole.side.Opposite())
    requires SamePull(whole, first) && SamePull(whole, second)
    requires whole.remaining == first.remaining + second.remaining
    ensures var one := Match(whole, makers);
            var left := Match(first, makers);
            var right := Match(second, left.makers);
            && one.makers == right.makers
            && TakenFrom(one.trades, id) == TakenFrom(left.trades, id) + TakenFrom(right.trades, id)
            && one.taker.remaining == left.taker.remaining + right.taker.remaining
  {
    hide Match, Consume, Liquidity;
    var left := Match(first, makers);
    assert Queue(left.makers, whole.side.Opposite()) by {
      MatchShape(first, makers);
      RemnantKeepsQueue(left.makers, makers, whole.side.Opposite());
    }
    var reach := Liquidity(whole, makers);
    var a := Min(first.remaining, reach);
    assert Liquidity(second, left.makers) == reach - a by {
      LiquiditySamePull(whole, first, makers);
      LiquiditySamePull(first, second, left.makers);
      MatchClosedForm(first, makers);
      ConsumeLowersLiquidity(first, makers, a);
    }
    SplitCounts(whole, first, second, makers, a);
    SharesMove(whole, makers, id);
    SharesMove(first, makers, id);
    SharesMove(second, left.makers, id);
  }

  lemma {:induction false} SplitCounts(whole: Ticket, first: Ticket, second: Ticket, makers: seq<Ticket>, a: nat)
    requires Queue(makers, whole.side.Opposite())
    requires SamePull(whole, first) && SamePull(whole, second)
    requires whole.remaining == first.remaining + second.remaining
    requires a == Min(first.remaining, Liquidity(whole, makers))
    requires Queue(Match(first, makers).makers, whole.side.Opposite())
    requires Liquidity(second, Match(first, makers).makers) == Liquidity(whole, makers) - a
    ensures var one := Match(whole, makers);
            var left := Match(first, makers);
            var right := Match(second, left.makers);
            && one.makers == right.makers
            && one.taker.remaining == left.taker.remaining + right.taker.remaining
  {
    hide Match, Consume, Liquidity;
    var left := Match(first, makers);
    LiquiditySamePull(whole, first, makers);
    MatchClosedForm(first, makers);
    MatchClosedForm(whole, makers);
    MatchClosedForm(second, left.makers);
    ConsumeTwice(makers, a, Min(second.remaining, Liquidity(second, left.makers)));
  }

  // ------------------------------------------------------------ limits and parties

  /** A market order has no price limit: it stops only when it is filled or nothing is left. */
  lemma {:induction false} MarketSweepsAll(taker: Ticket, makers: seq<Ticket>)
    requires taker.kind.MARKET?
    ensures var r := Match(taker, makers); r.taker.remaining == 0 || r.makers == []
    decreases |makers| + taker.remaining
  {
    if !Done(taker, makers) {
      var q := Min(taker.remaining, makers[0].remaining);
      MarketSweepsAll(taker.Take(q), AfterFill(makers, q));
    }
  }

  /** Each trade of a sweep is between the taker and one of the orders that were there, at that
      order's price, and a limit order never trades beyond its limit. */
  lemma {:induction false} TradeParties(taker: Ticket, makers: seq<Ticket>, k: nat) returns (i: nat)
    requires k < |Match(taker, makers).trades|
    ensures i < |makers|
    ensures var (t, m) := (Match(taker, makers).trades[k], makers[i]);
            && t.makerId == m.id && t.makerTrader == m.trader && t.makerSide == m.side && t.makerSymbol == m.symbol
            && t.takerId == taker.id && t.takerTrader == taker.trader && t.takerSide == taker.side
            && t.takerSymbol == taker.symbol && t.price == m.price
            && (taker.kind.LIMIT? ==> if taker.side.BUY? then t.price <= taker.price else taker.price <= t.price)
    decreases |makers| + taker.remaining
  {
    var q := Min(taker.remaining, makers[0].remaining);
    var after := AfterFill(makers, q);
    if k == 0 {
      i := 0;
    } else {
      var j := TradeParties(taker.Take(q), after, k - 1);
      FilledAt(makers, q, j);
      i := |makers| - |after| + j;
    }
  }

  /** A swept queue is a queue still. */
  lemma SweptQueue(taker: Ticket, makers: seq<Ticket>, side: Side)
    requires Queue(makers, side)
    ensures Queue(Match(taker, makers).makers, side)
  {
    hide Match, Volume, Done, Remnant;
    MatchShape(taker, makers);
    RemnantKeepsQueue(Match(taker, makers).makers, makers, side);
  }

  /** A limit order that is left with shares leaves no resting price it could have traded at. */
  lemma {:induction false} LimitExhausted(taker: Ticket, makers: seq<Ticket>, i: nat)
    requires taker.kind.LIMIT? && Queue(makers, taker.side.Opposite())
    requires var r := Match(taker, makers); 0 < r.taker.remaining && i < |r.makers|
    ensures var price := Match(taker, makers).makers[i].price;
            if taker.side.BUY? then taker.price < price else price < taker.price
  {
    hide Match, Queue, Remnant, Volume, Done;
    var r := Match(taker, makers);
    SweptQueue(taker, makers, taker.side.Opposite());
    assert Done(r.taker, r.makers) by {
      StopsWhenDone(taker, makers);
    }
    NothingInReach(r.taker, r.makers, i);
  }

  lemma {:induction false} StopsWhenDone(taker: Ticket, makers: seq<Ticket>)
    ensures Done(Match(taker, makers).taker, Match(taker, makers).makers)
    decreases |makers| + taker.remaining
  {
    if !Done(taker, makers) {
      var q := Min(taker.remaining, makers[0].remaining);
      StopsWhenDone(taker.Take(q), AfterFill(makers, q));
    }
  }
}
