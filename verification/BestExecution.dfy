/** Best execution: no other way of taking the same number of shares from the orders
    resting at submission is cheaper for a buyer or pays more to a seller. */
module BestExecution {
  import opened Types
  import opened Sweep

  /** A way of taking shares from resting orders: how many from each of them. */
  ghost predicate Feasible(makers: seq<Ticket>, takes: seq<nat>) {
    |takes| == |makers| && forall i :: 0 <= i < |takes| ==> takes[i] <= makers[i].remaining
  }

  function Shares(takes: seq<nat>): nat {
    if takes == [] then 0 else takes[0] + Shares(takes[1..])
  }

  /** Money that changes hands when `takes[i]` shares are taken at the price of `makers[i]`. */
  function Notional(makers: seq<Ticket>, takes: seq<nat>): real
    requires |takes| == |makers|
  {
    if makers == [] then 0.0
    else Amount(takes[0], makers[0].price) + Notional(makers[1..], takes[1..])
  }

  /** Notional measured with the rank of the price: the buyer's cost, or minus the seller's proceeds. */
  function Burden(side: Side, makers: seq<Ticket>, takes: seq<nat>): real
    requires |takes| == |makers|
  {
    if makers == [] then 0.0
    else Amount(takes[0], Rank(side, makers[0].price)) + Burden(side, makers[1..], takes[1..])
  }

  /** The burden of taking `q` shares greedily from the front. */
  function GreedyBurden(side: Side, makers: seq<Ticket>, q: nat): real {
    if makers == [] then 0.0
    else
      var n := Min(q, makers[0].remaining);
      Amount(n, Rank(side, makers[0].price)) + GreedyBurden(side, makers[1..], q - n)
  }

  function Supply(makers: seq<Ticket>): nat {
    if makers == [] then 0 else makers[0].remaining + Supply(makers[1..])
  }

  lemma {:induction false} FeasibleWithinSupply(makers: seq<Ticket>, takes: seq<nat>)
    requires Feasible(makers, takes)
    ensures Shares(takes) <= Supply(makers)
  {
    if makers != [] {
      FeasibleWithinSupply(makers[1..], takes[1..]);
    }
  }

  /** Every further share costs at least the best rank on offer. */
  lemma {:induction false} MarginalBurden(side: Side, makers: seq<Ticket>, k: nat, q: nat, floor: real)
    requires Queue(makers, side) && k <= q <= Supply(makers)
    requires forall i :: 0 <= i < |makers| ==> floor <= Rank(side, makers[i].price)
    ensures GreedyBurden(side, makers, q) >= GreedyBurden(side, makers, k) + Amount(q - k, floor)
  {
    hide Amount, Rank;
    if makers == [] {
      AmountSplits(0, 0, floor);
    } else {
      var m, n := Min(k, makers[0].remaining), Min(q, makers[0].remaining);
      MarginalBurden(side, makers[1..], k - m, q - n, floor);
      hide Queue;
      MarginalAmount(m, n, (q - n) - (k - m), floor, Rank(side, makers[0].price));
      assert n - m + ((q - n) - (k - m)) == q - k;
    }
  }

  lemma MarginalAmount(m: nat, n: nat, more: nat, floor: real, price: real)
    requires m <= n && floor <= price
    ensures Amount(n, price) + Amount(more, floor) >= Amount(m, price) + Amount(n - m + more, floor)
  {
    AmountSplits(m, n - m, price);
    AmountMonotone(n - m, floor, price);
    AmountSplits(n - m, more, floor);
    hide Amount;
  }

  lemma {:induction false} GreedyIsLeast(side: Side, makers: seq<Ticket>, takes: seq<nat>)
    requires Queue(makers, side) && Feasible(makers, takes)
    ensures GreedyBurden(side, makers, Shares(takes)) <= Burden(side, makers, takes)
  {
    hide Amount;
    var q := Shares(takes);
    if makers != [] {
      var rest := makers[1..];
      var price := Rank(side, makers[0].price);
      var n := Min(q, makers[0].remaining);
      assert GreedyBurden(side, rest, q - takes[0]) <= Burden(side, rest, takes[1..]) by {
        GreedyIsLeast(side, rest, takes[1..]);
      }
      assert GreedyBurden(side, rest, q - takes[0])
          >= GreedyBurden(side, rest, q - n) + Amount(n - takes[0], price) by {
        FeasibleWithinSupply(rest, takes[1..]);
        MarginalBurden(side, rest, q - n, q - takes[0], price);
      }
      AmountSplits(takes[0], n - takes[0], price);
    }
  }

  function Signed(side: Side, x: real): real {
    if side.SELL? then x else -x
  }

  lemma SignedAmount(side: Side, q: nat, price: real)
    ensures Amount(q, Rank(side, price)) == Signed(side, Amount(q, price))
  {
  }

  lemma {:induction false} BurdenIsSignedNotional(side: Side, makers: seq<Ticket>, takes: seq<nat>)
    requires |takes| == |makers|
    ensures Burden(side, makers, takes) == Signed(side, Notional(makers, takes))
  {
    if makers != [] {
      hide Amount;
      SignedAmount(side, takes[0], makers[0].price);
      BurdenIsSignedNotional(side, makers[1..], takes[1..]);
    }
  }

  /** The trades of a sweep cost what greedy taking costs. */
  lemma {:induction false} SweepIsGreedy(taker: Ticket, makers: seq<Ticket>, side: Side)
    requires Queue(makers, side)
    ensures var r := Match(taker, makers);
            Signed(side, Value(r.trades)) == GreedyBurden(side, makers, Volume(r.trades))
    decreases |makers| + taker.remaining
  {
    hide Amount;
    if !Done(taker, makers) {
      var q := Min(taker.remaining, makers[0].remaining);
      var makers' := AfterFill(makers, q);
      assert Remnant(makers', makers);
      RemnantKeepsQueue(makers', makers, side);
      SweepIsGreedy(taker.Take(q), makers', side);
      var rest := Match(taker.Take(q), makers').trades;
      if q < makers[0].remaining {
        assert rest == [];
      }
      GreedyStep(side, makers, q, rest, TradeOf(taker, makers[0], q));
    } else {
      GreedyNothing(side, makers);
    }
  }

  lemma {:induction false} GreedyNothing(side: Side, makers: seq<Ticket>)
    ensures GreedyBurden(side, makers, 0) == 0.0
  {
    if makers != [] {
      GreedyNothing(side, makers[1..]);
    }
  }

  /** One trade with the front order, followed by `rest`, costs what greedy taking costs. */
  lemma {:induction false} GreedyStep(side: Side, makers: seq<Ticket>, q: nat, rest: seq<Trade>, trade: Trade)
    requires makers != [] && q <= makers[0].remaining && trade.qty == q && trade.price == makers[0].price
    requires if q == makers[0].remaining
             then Signed(side, Value(rest)) == GreedyBurden(side, makers[1..], Volume(rest))
             else rest == []
    ensures Signed(side, Value([trade] + rest)) == GreedyBurden(side, makers, Volume([trade] + rest))
  {
    hide Amount;
    var price := makers[0].price;
    VolumeConcat([trade], rest);
    ValueConcat([trade], rest);
    assert [trade][..0] == [];
    assert Value([trade]) == Amount(q, makers[0].price);
    SignedAmount(side, q, makers[0].price);
    if q < makers[0].remaining {
      GreedyNothing(side, makers[1..]);
    }
  }

  function GreedyTakes(makers: seq<Ticket>, q: nat): (takes: seq<nat>)
    ensures Feasible(makers, takes)
  {
    if makers == [] then []
    else
      var n := Min(q, makers[0].remaining);
      [n] + GreedyTakes(makers[1..], q - n)
  }

  lemma {:induction false} GreedyTakesCost(side: Side, makers: seq<Ticket>, q: nat)
    requires q <= Supply(makers)
    ensures Shares(GreedyTakes(makers, q)) == q
    ensures Burden(side, makers, GreedyTakes(makers, q)) == GreedyBurden(side, makers, q)
  {
    hide Amount;
    if makers != [] {
      GreedyTakesCost(side, makers[1..], q - Min(q, makers[0].remaining));
    }
  }

  lemma {:induction false} SweepWithinSupply(taker: Ticket, makers: seq<Ticket>)
    ensures Volume(Match(taker, makers).trades) <= Supply(makers)
    decreases |makers| + taker.remaining
  {
    if !Done(taker, makers) {
      var q := Min(taker.remaining, makers[0].remaining);
      var makers' := AfterFill(makers, q);
      SweepWithinSupply(taker.Take(q), makers');
      VolumeConcat([TradeOf(taker, makers[0], q)], Match(taker.Take(q), makers').trades);
      if q < makers[0].remaining {
        assert makers'[1..] == makers[1..];
      }
    }
  }

  /** What a sweep pays is the notional of one feasible way of taking those shares, so
      the bounds below are attained. */
  lemma {:induction false} SweepIsFeasible(taker: Ticket, makers: seq<Ticket>)
    requires Queue(makers, taker.side.Opposite())
    ensures var r := Match(taker, makers);
            var takes := GreedyTakes(makers, Volume(r.trades));
            Shares(takes) == Volume(r.trades) && Notional(makers, takes) == Value(r.trades)
  {
    hide Amount;
    var r := Match(taker, makers);
    var side := taker.side.Opposite();
    SweepWithinSupply(taker, makers);
    GreedyTakesCost(side, makers, Volume(r.trades));
    SweepIsGreedy(taker, makers, side);
    BurdenIsSignedNotional(side, makers, GreedyTakes(makers, Volume(r.trades)));
  }

  /** A buyer who executes pays the least possible for that many of the resting asks. */
  lemma {:induction false} BuyerPaysLeast(taker: Ticket, asks: seq<Ticket>, takes: seq<nat>)
    requires taker.side.BUY? && Queue(asks, SELL)
    requires Feasible(asks, takes) && Shares(takes) == Volume(Match(taker, asks).trades)
    ensures Value(Match(taker, asks).trades) <= Notional(asks, takes)
  {
    hide Amount;
    SweepIsGreedy(taker, asks, SELL);
    GreedyIsLeast(SELL, asks, takes);
    BurdenIsSignedNotional(SELL, asks, takes);
  }

  /** A seller who executes receives the most possible for that many of the resting bids. */
  lemma {:induction false} SellerGetsMost(taker: Ticket, bids: seq<Ticket>, takes: seq<nat>)
    requires taker.side.SELL? && Queue(bids, BUY)
    requires Feasible(bids, takes) && Shares(takes) == Volume(Match(taker, bids).trades)
    ensures Value(Match(taker, bids).trades) >= Notional(bids, takes)
  {
    hide Amount;
    SweepIsGreedy(taker, bids, BUY);
    GreedyIsLeast(BUY, bids, takes);
    BurdenIsSignedNotional(BUY, bids, takes);
  }
}
