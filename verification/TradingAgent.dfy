/** A trading agent's books: inventory, average cost, realised profit, and the profit
    samples from which drawdown is measured. */
module TradingAgents {
  import opened Types

  // ------------------------------------------------------------ profit and loss

  datatype Fill = Fill(side: Side, price: real, qty: nat)

  datatype Account = Account(inventory: int, realized: real, avgCost: real, fills: nat, closing: nat)

  const Flat := Account(0, 0.0, 0.0, 0, 0)

  /** What the shares held, if any, have cost. */
  function HeldCost(avgCost: real, inventory: int): real {
    avgCost * (if inventory > 0 then inventory as real else 0.0)
  }

  function MeanCost(heldCost: real, price: real, qty: nat, inventory: int): real
    requires 0 < inventory
  {
    (heldCost + price * qty as real) / inventory as real
  }

  function Gain(closing: nat, price: real, avgCost: real): real {
    closing as real * (price - avgCost)
  }

  function Record(a: Account, f: Fill): Account {
    if f.side.BUY? then
      var inventory := a.inventory + f.qty;
      a.(inventory := inventory,
         avgCost := if inventory > 0 then MeanCost(HeldCost(a.avgCost, a.inventory), f.price, f.qty, inventory)
                    else a.avgCost,
         fills := a.fills + 1)
    else if a.inventory > 0 then
      var closing := Min(f.qty, a.inventory);
      a.(inventory := a.inventory - f.qty,
         realized := a.realized + Gain(closing, f.price, a.avgCost),
         closing := a.closing + closing,
         fills := a.fills + 1)
    else
      a.(inventory := a.inventory - f.qty, fills := a.fills + 1)
  }

  function Unrealized(a: Account, mid: real): real {
    if a.inventory == 0 || a.avgCost == 0.0 then 0.0 else a.inventory as real * (mid - a.avgCost)
  }

  function TotalPnl(a: Account, mid: real): real {
    a.realized + Unrealized(a, mid)
  }

  /** The account after a list of fills, oldest first. */
  function After(fs: seq<Fill>): Account {
    if fs == [] then Flat else Record(After(fs[..|fs| - 1]), fs[|fs| - 1])
  }

  /** Money received minus money paid. */
  function Cash(fs: seq<Fill>): real {
    if fs == [] then 0.0
    else
      var f := fs[|fs| - 1];
      Cash(fs[..|fs| - 1]) + Proceeds(f)
  }

  function Proceeds(f: Fill): real {
    if f.side.BUY? then -(f.price * f.qty as real) else f.price * f.qty as real
  }

  /** Shares bought minus shares sold. */
  function Net(fs: seq<Fill>): int {
    if fs == [] then 0
    else
      var q: int := fs[|fs| - 1].qty;
      Net(fs[..|fs| - 1]) + (if fs[|fs| - 1].side.BUY? then q else -q)
  }

  /** The account reads as cash plus inventory at cost, and a long position has a positive cost. */
  ghost predicate Reconciled(a: Account, cash: real) {
    && 0 <= a.inventory
    && a.realized - a.avgCost * a.inventory as real == cash
    && (0 < a.inventory ==> 0.0 < a.avgCost)
  }

  lemma AveragedCost(avg: real, held: real, price: real, bought: real)
    requires 0.0 <= held && 0.0 <= bought && 0.0 < held + bought && 0.0 < price && (0.0 < held ==> 0.0 < avg)
    ensures var mean := (avg * held + price * bought) / (held + bought);
            mean * (held + bought) == avg * held + price * bought && 0.0 < mean
  {
    var sum := avg * held + price * bought;
    assert 0.0 < sum by {
      assert 0.0 <= price * bought && (0.0 < bought ==> 0.0 < price * bought);
      if 0.0 < held {
        assert 0.0 < avg * held;
      } else {
        assert avg * held == 0.0;
      }
    }
    DivideBack(sum, held + bought);
  }

  lemma DivideBack(x: real, d: real)
    requires 0.0 < d
    ensures (x / d) * d == x
    ensures 0.0 < x ==> 0.0 < x / d
  {
  }

  lemma BuyReconciles(a: Account, cash: real, f: Fill)
    requires Reconciled(a, cash) && f.side.BUY? && 0.0 < f.price
    ensures Reconciled(Record(a, f), cash - f.price * f.qty as real)
  {
    var held, bought := a.inventory as real, f.qty as real;
    if a.inventory + f.qty > 0 {
      AveragedCost(a.avgCost, held, f.price, bought);
      assert HeldCost(a.avgCost, a.inventory) == a.avgCost * held;
      assert (a.inventory + f.qty) as real == held + bought;
    } else {
      assert f.price * bought == 0.0;
    }
  }

  lemma SellReconciles(a: Account, cash: real, f: Fill)
    requires Reconciled(a, cash) && f.side.SELL? && f.qty <= a.inventory
    ensures Reconciled(Record(a, f), cash + f.price * f.qty as real)
  {
    var held, sold, avg := a.inventory as real, f.qty as real, a.avgCost;
    assert (a.inventory - f.qty) as real == held - sold;
    if a.inventory == 0 {
      assert sold == 0.0;
    }
    assert sold * (f.price - avg) == f.price * sold - avg * sold;
    assert avg * (held - sold) == avg * held - avg * sold;
  }

  lemma ReconciledPnl(a: Account, cash: real, mid: real)
    requires Reconciled(a, cash)
    ensures TotalPnl(a, mid) == cash + a.inventory as real * mid
  {
    var held := a.inventory as real;
    assert held * (mid - a.avgCost) == held * mid - a.avgCost * held;
  }

  lemma FillReconciles(a: Account, cash: real, f: Fill)
    requires Reconciled(a, cash) && 0.0 < f.price && (f.side.SELL? ==> f.qty <= a.inventory)
    ensures Reconciled(Record(a, f), cash + Proceeds(f))
    ensures Record(a, f).inventory == if f.side.BUY? then a.inventory + f.qty else a.inventory - f.qty
  {
    if f.side.BUY? {
      BuyReconciles(a, cash, f);
    } else {
      SellReconciles(a, cash, f);
    }
  }

  /** No prefix of the fills takes the inventory below zero. */
  ghost predicate LongOnly(fs: seq<Fill>) {
    fs == [] || (LongOnly(fs[..|fs| - 1]) && 0.0 < fs[|fs| - 1].price && 0 <= Net(fs))
  }

  lemma {:induction false} NeverShort(fs: seq<Fill>)
    requires LongOnly(fs)
    ensures Reconciled(After(fs), Cash(fs)) && After(fs).inventory == Net(fs)
  {
    hide Record, Reconciled, Proceeds;
    if fs == [] {
      FlatReconciles();
    } else {
      var before, f := fs[..|fs| - 1], fs[|fs| - 1];
      NeverShort(before);
      FillReconciles(After(before), Cash(before), f);
    }
  }

  lemma FlatReconciles()
    ensures Reconciled(Flat, 0.0)
  {
  }

  /** Marking to market: for fills at positive prices that never take the inventory below
      zero, the profit shown is the cash received plus the inventory at the mid price,
      although only an average cost and a realised profit are kept. */
  lemma MarkToMarket(fs: seq<Fill>, mid: real)
    requires LongOnly(fs)
    ensures TotalPnl(After(fs), mid) == Cash(fs) + Net(fs) as real * mid
  {
    hide Reconciled, Record, TotalPnl, Net, Cash;
    NeverShort(fs);
    ReconciledPnl(After(fs), Cash(fs), mid);
  }

  /** Selling keeps the profit shown right, at every mid price, exactly when no more is
      sold than is held, or when the sale happens to be at the average cost. */
  lemma SaleShownRightWhen(a: Account, cash: real, f: Fill)
    requires Reconciled(a, cash) && f.side.SELL? && 0.0 < f.price && 0 < f.qty
    ensures (forall mid: real {:trigger TotalPnl(Record(a, f), mid)} ::
               TotalPnl(Record(a, f), mid) == cash + f.price * f.qty as real + (a.inventory - f.qty) as real * mid)
            <==> f.qty <= a.inventory || f.price == a.avgCost
  {
    var a' := Record(a, f);
    if f.qty <= a.inventory {
      SellReconciles(a, cash, f);
      forall mid: real
        ensures TotalPnl(a', mid) == cash + f.price * f.qty as real + (a.inventory - f.qty) as real * mid
      {
        ReconciledPnl(a', cash + f.price * f.qty as real, mid);
      }
    } else {
      forall mid: real
        ensures (TotalPnl(a', mid) == cash + f.price * f.qty as real + (a.inventory - f.qty) as real * mid)
                <==> if a.avgCost == 0.0 then mid == f.price else f.price == a.avgCost
      {
        Oversold(a, cash, f, mid);
      }
      var left := (a.inventory - f.qty) as real;
      assert a.avgCost == 0.0 ==>
          TotalPnl(a', f.price + 1.0) != cash + f.price * f.qty as real + left * (f.price + 1.0);
      assert a.avgCost != 0.0 ==>
          (TotalPnl(a', 0.0) == cash + f.price * f.qty as real + left * 0.0 <==> f.price == a.avgCost);
    }
  }

  /** One share sold short at 5 and marked at 4 has gained 1; nothing is shown. */
  lemma ShortSaleMisshown()
    ensures var a := Record(Flat, Fill(SELL, 5.0, 1));
            TotalPnl(a, 4.0) == 0.0 && 5.0 + a.inventory as real * 4.0 == 1.0
  {
  }

  lemma Oversold(a: Account, cash: real, f: Fill, mid: real)
    requires Reconciled(a, cash) && f.side.SELL? && a.inventory < f.qty
    ensures (TotalPnl(Record(a, f), mid) == cash + f.price * f.qty as real + (a.inventory - f.qty) as real * mid)
            <==> if a.avgCost == 0.0 then mid == f.price else f.price == a.avgCost
  {
    var held, sold, avg := a.inventory as real, f.qty as real, a.avgCost;
    var short := held - sold;
    assert (a.inventory - f.qty) as real == short && short < 0.0;
    assert Record(a, f).realized == a.realized + held * (f.price - avg);
    assert held * (f.price - avg) == held * f.price - avg * held;
    // the difference of the two sides is short * (price - mid) plus the unrealised part
    assert f.price * sold == f.price * held - f.price * short;
    assert short * (mid - avg) == short * mid - short * avg;
    assert short * f.price == short * avg <==> f.price == avg by { Cancel(short, f.price, avg); }
    assert short * f.price == short * mid <==> f.price == mid by { Cancel(short, f.price, mid); }
  }

  lemma Cancel(k: real, x: real, y: real)
    requires k != 0.0
    ensures k * x == k * y <==> x == y
  {
    assert k * x - k * y == k * (x - y);
  }

  /** A purchase realises nothing. What is held afterwards costs, in all, what it cost before plus
      the price of every share bought, those that only end a short position included. */
  lemma PurchaseAverages(a: Account, f: Fill)
    requires f.side.BUY?
    ensures var a' := Record(a, f);
            && a'.inventory == a.inventory + f.qty && a'.fills == a.fills + 1
            && a'.realized == a.realized && a'.closing == a.closing
            && (a'.inventory <= 0 ==> a'.avgCost == a.avgCost)
            && (0 < a'.inventory ==>
                  a'.avgCost * a'.inventory as real
                  == f.price * f.qty as real + if 0 < a.inventory then a.avgCost * a.inventory as real else 0.0)
  {
    if 0 < a.inventory + f.qty {
      DivideBack(HeldCost(a.avgCost, a.inventory) + f.price * f.qty as real, (a.inventory + f.qty) as real);
    }
  }

  /** A sale of shares held realises, share by share, what the price is above their average cost,
      and leaves that cost alone; shares sold short realise nothing. */
  lemma SaleRealises(a: Account, f: Fill)
    requires f.side.SELL?
    ensures var a' := Record(a, f);
            var closed := if a.inventory <= 0 then 0 else if f.qty <= a.inventory then f.qty else a.inventory;
            && a'.inventory == a.inventory - f.qty && a'.fills == a.fills + 1
            && a'.avgCost == a.avgCost && a'.closing == a.closing + closed
            && a'.realized - a.realized == closed as real * (f.price - a.avgCost)
  {
  }

  // ------------------------------------------------------------ profit samples

  datatype Samples = Samples(peak: real, maxDrawdown: real, last: real, steps: seq<real>)

  const NoSamples := Samples(0.0, 0.0, 0.0, [])

  function Sample(s: Samples, pnl: real): Samples {
    var peak := if pnl > s.peak then pnl else s.peak;
    Samples(peak,
            if peak - pnl > s.maxDrawdown then peak - pnl else s.maxDrawdown,
            pnl,
            s.steps + [pnl - s.last])
  }

  function Sampled(pnls: seq<real>): Samples {
    if pnls == [] then NoSamples else Sample(Sampled(pnls[..|pnls| - 1]), pnls[|pnls| - 1])
  }

  function Sum(xs: seq<real>): real {
    if xs == [] then 0.0 else Sum(xs[..|xs| - 1]) + xs[|xs| - 1]
  }

  /** The samples preceded by the zero profit everybody starts from. */
  function Curve(pnls: seq<real>): seq<real> {
    [0.0] + pnls
  }

  lemma {:induction false} PeakIsHighest(pnls: seq<real>) returns (top: nat)
    ensures forall i :: 0 <= i <= |pnls| ==> Curve(pnls)[i] <= Sampled(pnls).peak
    ensures top <= |pnls| && Curve(pnls)[top] == Sampled(pnls).peak
    ensures Sampled(pnls).last == Curve(pnls)[|pnls|]
    ensures Sum(Sampled(pnls).steps) == Sampled(pnls).last
  {
    if pnls == [] {
      top := 0;
    } else {
      var n := |pnls| - 1;
      var s := Sampled(pnls[..n]);
      top := PeakIsHighest(pnls[..n]);
      forall i | 0 <= i <= n ensures Curve(pnls)[i] == Curve(pnls[..n])[i] {
      }
      assert Sampled(pnls).steps[..|s.steps|] == s.steps;
      if pnls[n] > s.peak {
        top := n + 1;
      }
    }
  }

  /** The one-pass drawdown is the largest fall from any sample to any later one, the
      starting zero included, and the recorded returns add up to the last sample. */
  lemma {:induction false} DrawdownIsLargestFall(pnls: seq<real>) returns (from: nat, to: nat)
    ensures forall i, j :: 0 <= i <= j <= |pnls| ==> Curve(pnls)[i] - Curve(pnls)[j] <= Sampled(pnls).maxDrawdown
    ensures from <= to <= |pnls| && Curve(pnls)[from] - Curve(pnls)[to] == Sampled(pnls).maxDrawdown
    ensures Sum(Sampled(pnls).steps) == Curve(pnls)[|pnls|]
  {
    hide Sum;
    var top := PeakIsHighest(pnls);
    if pnls == [] {
      from, to := 0, 0;
    } else {
      var n := |pnls| - 1;
      from, to := DrawdownIsLargestFall(pnls[..n]);
      forall i | 0 <= i <= n ensures Curve(pnls)[i] == Curve(pnls[..n])[i] {
      }
      if Sampled(pnls).peak - pnls[n] > Sampled(pnls[..n]).maxDrawdown {
        from, to := top, n + 1;
      }
    }
  }

  /** Each recorded return is the change from the sample before. */
  lemma {:induction false} StepsAreChanges(pnls: seq<real>, i: nat)
    requires i < |pnls|
    ensures |Sampled(pnls).steps| == |pnls|
    ensures Sampled(pnls).steps[i] == Curve(pnls)[i + 1] - Curve(pnls)[i]
  {
    var n := |pnls| - 1;
    if 0 < n {
      StepsAreChanges(pnls[..n], if i < n then i else n - 1);
    }
  }

  // ------------------------------------------------------------ the agent object

  /** Bitwise or. */
  function Or(a: nat, b: nat): nat {
    if b == 0 then a else if a == 0 then b
    else 2 * Or(a / 2, b / 2) + if a % 2 == 1 || b % 2 == 1 then 1 else 0
  }

  /** The binary digit at a place, counted from the lowest. */
  predicate Bit(a: nat, place: nat) {
    if place == 0 then a % 2 == 1 else Bit(a / 2, place - 1)
  }

  /** A digit is set in the result exactly when it is set in one of the two. */
  lemma {:induction false} OrBits(a: nat, b: nat, place: nat)
    ensures Bit(Or(a, b), place) <==> Bit(a, place) || Bit(b, place)
  {
    if a == 0 || b == 0 {
      NoBits(place);
    } else if place > 0 {
      OrBits(a / 2, b / 2, place - 1);
    }
  }

  lemma {:induction false} NoBits(place: nat)
    ensures !Bit(0, place)
  {
    if place > 0 {
      NoBits(place - 1);
    }
  }

  /** `trader << 32 | counter` in 64 bits: the shift drops the trader's upper half, and a
      counter of more than 32 bits runs into what is left of it. */
  function OrderId(trader: nat, counter: nat): nat {
    Or(trader % TWO_TO_32, counter / TWO_TO_32 % TWO_TO_32) * TWO_TO_32 + counter % TWO_TO_32
  }

  lemma SmallCounter(trader: nat, n: nat)
    requires n < TWO_TO_32
    ensures OrderId(trader, n) == (trader % TWO_TO_32) * TWO_TO_32 + n
  {
    assert n / TWO_TO_32 == 0;
  }

  /** Ids made from 32-bit counters agree exactly when the counters do and the traders share
      their lower halves. */
  lemma OrderIdsDiffer(t: nat, n: nat, t': nat, n': nat)
    requires n < TWO_TO_32 && n' < TWO_TO_32
    ensures OrderId(t, n) == OrderId(t', n') <==> t % TWO_TO_32 == t' % TWO_TO_32 && n == n'
  {
    SmallCounter(t, n);
    SmallCounter(t', n');
  }

  /** Hence, with 32-bit counters, two different traders never share an id if and only if their
      lower halves differ. */
  lemma TradersApartWhen(t: nat, t': nat)
    requires t != t'
    ensures (forall n: nat, n': nat :: n < TWO_TO_32 && n' < TWO_TO_32 ==> OrderId(t, n) != OrderId(t', n'))
            <==> t % TWO_TO_32 != t' % TWO_TO_32
  {
    hide OrderId;
    forall n: nat, n': nat | n < TWO_TO_32 && n' < TWO_TO_32
      ensures OrderId(t, n) == OrderId(t', n') <==> t % TWO_TO_32 == t' % TWO_TO_32 && n == n'
    {
      OrderIdsDiffer(t, n, t', n');
    }
    assert t % TWO_TO_32 == t' % TWO_TO_32 ==> OrderId(t, 1) == OrderId(t', 1);
  }

  lemma {:induction false} OrCommutes(a: nat, b: nat)
    ensures Or(a, b) == Or(b, a)
  {
    if a != 0 && b != 0 {
      OrCommutes(a / 2, b / 2);
    }
  }

  /** With larger counters no two traders are safe from each other. */
  lemma AnyTradersMeet(t: nat, t': nat) returns (n: nat, n': nat)
    ensures 0 < n && 0 < n' && OrderId(t, n) == OrderId(t', n')
  {
    hide Or;
    var a, b := t % TWO_TO_32, t' % TWO_TO_32;
    n, n' := b * TWO_TO_32 + 1, a * TWO_TO_32 + 1;
    LargeCounter(t, b);
    LargeCounter(t', a);
    OrCommutes(a, b);
  }

  lemma LargeCounter(trader: nat, high: nat)
    requires high < TWO_TO_32
    ensures OrderId(trader, high * TWO_TO_32 + 1) == Or(trader % TWO_TO_32, high) * TWO_TO_32 + 1
  {
    hide Or;
    Halves(high, 1);
    Halves(0, high);
  }

  lemma Halves(high: nat, low: nat)
    requires low < TWO_TO_32
    ensures (high * TWO_TO_32 + low) / TWO_TO_32 == high
    ensures (high * TWO_TO_32 + low) % TWO_TO_32 == low
  {
  }

  /** Traders 1 and 2^32 + 1 make the same ids, and so do trader 1's counters n and 2^32 + n. */
  lemma OrderIdsCollide(n: nat)
    requires n < TWO_TO_32
    ensures OrderId(TWO_TO_32 + 1, n) == OrderId(1, n) == OrderId(1, TWO_TO_32 + n)
  {
    SmallCounter(TWO_TO_32 + 1, n);
    SmallCounter(1, n);
    assert (TWO_TO_32 + n) / TWO_TO_32 == 1 && (TWO_TO_32 + n) % TWO_TO_32 == n;
    assert Or(1, 1) == 1;
  }

  class TradingAgent {
    const traderId: nat
    var inventory: int
    var realizedPnl: real
    var avgCost: real
    var fillCount: nat
    var closingTrades: nat
    var orderCount: nat
    var idCounter: nat
    var peakPnl: real
    var maxDrawdown: real
    var lastPnlSample: real
    var pnlReturns: seq<real>

    constructor (traderId: nat)
      ensures this.traderId == traderId && Books() == Flat && History() == NoSamples
      ensures idCounter == 0 && orderCount == 0
    {
      this.traderId := traderId;
      inventory, realizedPnl, avgCost, fillCount, closingTrades := 0, 0.0, 0.0, 0, 0;
      orderCount, idCounter := 0, 0;
      peakPnl, maxDrawdown, lastPnlSample, pnlReturns := 0.0, 0.0, 0.0, [];
    }

    ghost function Books(): Account
      reads this
    {
      Account(inventory, realizedPnl, avgCost, fillCount, closingTrades)
    }

    ghost function History(): Samples
      reads this
    {
      Samples(peakPnl, maxDrawdown, lastPnlSample, pnlReturns)
    }

    function UnrealizedPnl(mid: real): real
      reads this
    {
      if inventory == 0 || avgCost == 0.0 then 0.0 else inventory as real * (mid - avgCost)
    }

    /** Enters a fill of one of this agent's orders. */
    method RecordFill(r: Report)
      modifies `inventory, `realizedPnl, `avgCost, `fillCount, `closingTrades
      ensures Books() == Record(old(Books()), Fill(r.side, r.price, r.qty))
    {
      hide HeldCost, MeanCost, Gain;
      fillCount := fillCount + 1;
      if r.side.BUY? {
        var oldCost := HeldCost(avgCost, inventory);
        inventory := inventory + r.qty;
        if inventory > 0 {
          avgCost := MeanCost(oldCost, r.price, r.qty, inventory);
        }
      } else {
        if inventory > 0 {
          var closing := Min(r.qty, inventory);
          realizedPnl := realizedPnl + Gain(closing, r.price, avgCost);
          closingTrades := closingTrades + closing;
        }
        inventory := inventory - r.qty;
      }
    }

    /** Samples the profit at the current mid price. */
    method RecordPnlSample(mid: real)
      modifies `peakPnl, `maxDrawdown, `lastPnlSample, `pnlReturns
      ensures History() == Sample(old(History()), TotalPnl(Books(), mid))
    {
      var current := realizedPnl + UnrealizedPnl(mid);
      pnlReturns := pnlReturns + [current - lastPnlSample];
      lastPnlSample := current;
      if current > peakPnl {
        peakPnl := current;
      }
      var drawdown := peakPnl - current;
      if drawdown > maxDrawdown {
        maxDrawdown := drawdown;
      }
    }

    method NextOrderId() returns (id: nat)
      modifies `orderCount, `idCounter
      ensures idCounter == old(idCounter) + 1 && orderCount == old(orderCount) + 1
      ensures id == OrderId(traderId, idCounter)
    {
      orderCount := orderCount + 1;
      idCounter := idCounter + 1;
      id := OrderId(traderId, idCounter);
    }
  }
}
