/** Nothing is created or lost: laws about the execution reports of whole runs. */
module Conservation {
  import opened Types
  import opened ExchangeSpec

  /** Net position change that a report list causes over all traders. */
  function NetShares(rs: seq<Report>): int {
    if rs == [] then 0
    else
      var q: int := rs[0].qty;
      (if rs[0].side.BUY? then q else -q) + NetShares(rs[1..])
  }

  /** Net cash that a report list moves into traders' hands. */
  function NetCash(rs: seq<Report>): real {
    if rs == [] then 0.0
    else
      var amount := Amount(rs[0].qty, rs[0].price);
      (if rs[0].side.BUY? then -amount else amount) + NetCash(rs[1..])
  }

  function SharesReported(rs: seq<Report>): nat {
    if rs == [] then 0 else rs[0].qty + SharesReported(rs[1..])
  }

  lemma {:induction false} SumsConcat(a: seq<Report>, b: seq<Report>)
    ensures NetShares(a + b) == NetShares(a) + NetShares(b)
    ensures NetCash(a + b) == NetCash(a) + NetCash(b)
    ensures SharesReported(a + b) == SharesReported(a) + SharesReported(b)
  {
    hide Amount;
    if a == [] {
      assert a + b == b;
    } else {
      SumsConcat(a[1..], b);
      assert (a + b)[1..] == a[1..] + b;
    }
  }

  lemma PairSums(m: Report, t: Report)
    requires m.side == t.side.Opposite() && m.qty == t.qty && m.price == t.price
    ensures NetShares([m, t]) == 0 && NetCash([m, t]) == 0.0
    ensures SharesReported([m, t]) == 2 * m.qty
  {
    hide Amount;
    assert [m, t][1..] == [t] && [t][1..] == [];
    assert NetShares([]) == 0 && SharesReported([t]) == t.qty;
    assert NetShares([t]) == if t.side.BUY? then t.qty as int else -(t.qty as int);
    assert NetCash([t]) == if t.side.BUY? then -Amount(t.qty, t.price) else Amount(t.qty, t.price);
  }

  /** Shares and cash only change hands, and every share is reported twice. */
  lemma {:induction false} TapeBalances(first: nat, tape: seq<Trade>)
    requires FairTape(tape)
    ensures NetShares(ReportsFrom(first, tape)) == 0
    ensures NetCash(ReportsFrom(first, tape)) == 0.0
    ensures SharesReported(ReportsFrom(first, tape)) == 2 * Volume(tape)
  {
    if tape != [] {
      var n := |tape| - 1;
      var m, t := MakerReport(first + n, tape[n]), TakerReport(first + n, tape[n]);
      TapeBalances(first, tape[..n]);
      SumsConcat(ReportsFrom(first, tape[..n]), [m, t]);
      assert FairTrade(tape[n]);
      PairSums(m, t);
    }
  }

  /** Report `2k` and report `2k + 1` carry execution id `first + k`; the rest agree with the trade. */
  lemma {:induction false} ReportAt(first: nat, tape: seq<Trade>, k: nat)
    requires k < |tape|
    ensures ReportsFrom(first, tape)[2 * k] == MakerReport(first + k, tape[k])
    ensures ReportsFrom(first, tape)[2 * k + 1] == TakerReport(first + k, tape[k])
  {
    var n := |tape| - 1;
    if k < n {
      ReportAt(first, tape[..n], k);
    }
  }

  /** In every run: net shares and net cash over all reports are zero, each share
      traded is reported twice, and an execution id labels exactly the two reports of
      one trade, the resting order's first, which agree on price, quantity and incoming
      order and have opposite sides. */
  lemma RunConserves(ops: seq<Op>, i: nat, j: nat)
    requires Legal(Start, ops)
    ensures var rs := Reports(Run(Start, ops).tape);
            && NetShares(rs) == 0
            && NetCash(rs) == 0.0
            && SharesReported(rs) == 2 * Volume(Run(Start, ops).tape)
            && (i < j < |rs| && rs[i].execId == rs[j].execId ==>
                  && i % 2 == 0 && j == i + 1
                  && rs[i].price == rs[j].price && rs[i].qty == rs[j].qty && 0 < rs[i].qty
                  && rs[i].side == rs[j].side.Opposite()
                  && rs[i].symbol == rs[j].symbol
                  && rs[i].aggressorId == rs[j].aggressorId == rs[j].orderId)
            && (i < |rs| && i % 2 == 0 ==> i + 1 < |rs| && rs[i].execId == rs[i + 1].execId)
  {
    hide Run, Legal, NetShares, NetCash, SharesReported, ReportsFrom, Volume, BookInv;
    InvRun(Start, ops);
    var tape := Run(Start, ops).tape;
    TapeBalances(1, tape);
    if i < |Reports(tape)| {
      ReportAt(1, tape, i / 2);
    }
    if i < j < |Reports(tape)| {
      ReportAt(1, tape, j / 2);
      assert FairTrade(tape[i / 2]);
    }
  }

  // ------------------------------------------------------------ what a report says

  /** In every run, each trade on the tape is told twice, field by field as it happened: first to
      the trader of the resting order, then to the trader of the incoming one. */
  lemma {:induction false} ReportsTellTheTape(ops: seq<Op>, k: nat)
    requires Legal(Start, ops) && k < |Run(Start, ops).tape|
    ensures var tape := Run(Start, ops).tape;
            var rs := Reports(tape);
            var (m, t) := (rs[2 * k], rs[2 * k + 1]);
            && |rs| == 2 * |tape|
            && m.execId == t.execId == k + 1
            && m.price == t.price == tape[k].price
            && m.qty == t.qty == tape[k].qty && 0 < m.qty
            && m.orderId == tape[k].makerId && t.orderId == tape[k].takerId
            && m.aggressorId == t.aggressorId == tape[k].takerId
            && m.trader == tape[k].makerTrader && t.trader == tape[k].takerTrader
            && m.side == tape[k].makerSide && t.side == tape[k].takerSide && m.side != t.side
            && m.symbol == tape[k].makerSymbol && t.symbol == tape[k].takerSymbol && m.symbol == t.symbol
  {
    hide Run, Legal, ReportsFrom, BookInv;
    InvRun(Start, ops);
    var tape := Run(Start, ops).tape;
    ReportAt(1, tape, k);
    assert FairTrade(tape[k]);
  }

  /** What a trader gains in cash by exchanging shares at a price. */
  function Gain(side: Side, qty: nat, price: real): real {
    if side.BUY? then -Amount(qty, price) else Amount(qty, price)
  }

  /** Money spent according to the reports of one side. */
  function SideMoney(rs: seq<Report>, side: Side): real {
    if rs == [] then 0.0
    else (if rs[0].side == side then Amount(rs[0].qty, rs[0].price) else 0.0) + SideMoney(rs[1..], side)
  }

  /** Cash that the reports addressed to one trader bring in. */
  function CashReported(rs: seq<Report>, trader: nat): real {
    if rs == [] then 0.0
    else (if rs[0].trader == trader then Gain(rs[0].side, rs[0].qty, rs[0].price) else 0.0)
         + CashReported(rs[1..], trader)
  }

  /** Cash that the trades of a tape bring in for one trader, who may be on both sides of a trade. */
  function CashTraded(tape: seq<Trade>, trader: nat): real {
    if tape == [] then 0.0
    else
      var t := tape[|tape| - 1];
      CashTraded(tape[..|tape| - 1], trader)
      + (if t.makerTrader == trader then Gain(t.makerSide, t.qty, t.price) else 0.0)
      + (if t.takerTrader == trader then Gain(t.takerSide, t.qty, t.price) else 0.0)
  }

  lemma {:induction false} SideMoneyConcat(a: seq<Report>, b: seq<Report>, side: Side)
    ensures SideMoney(a + b, side) == SideMoney(a, side) + SideMoney(b, side)
  {
    hide Amount;
    if a == [] {
      assert a + b == b;
    } else {
      SideMoneyConcat(a[1..], b, side);
      assert (a + b)[1..] == a[1..] + b;
    }
  }

  lemma {:induction false} CashConcat(a: seq<Report>, b: seq<Report>, trader: nat)
    ensures CashReported(a + b, trader) == CashReported(a, trader) + CashReported(b, trader)
  {
    hide Gain;
    if a == [] {
      assert a + b == b;
    } else {
      CashConcat(a[1..], b, trader);
      assert (a + b)[1..] == a[1..] + b;
    }
  }

  lemma {:induction false} SideMoneyPair(m: Report, t: Report, side: Side)
    requires m.side == t.side.Opposite() && m.qty == t.qty && m.price == t.price
    ensures SideMoney([m, t], side) == Amount(m.qty, m.price)
  {
    hide Amount;
    assert [m, t][1..] == [t] && [t][1..] == [];
    assert SideMoney([t], side) == if t.side == side then Amount(t.qty, t.price) else 0.0;
  }

  lemma {:induction false} CashPair(m: Report, t: Report, trader: nat)
    ensures CashReported([m, t], trader)
            == (if m.trader == trader then Gain(m.side, m.qty, m.price) else 0.0)
               + (if t.trader == trader then Gain(t.side, t.qty, t.price) else 0.0)
  {
    hide Gain;
    assert [m, t][1..] == [t] && [t][1..] == [];
    assert CashReported([t], trader) == if t.trader == trader then Gain(t.side, t.qty, t.price) else 0.0;
  }

  /** Buyers together spend, and sellers together earn, the value of the tape. */
  lemma {:induction false} MoneyOnTape(first: nat, tape: seq<Trade>, side: Side)
    requires FairTape(tape)
    ensures SideMoney(ReportsFrom(first, tape), side) == Value(tape)
  {
    if tape != [] {
      hide SideMoney, Amount;
      var n := |tape| - 1;
      var m, t := MakerReport(first + n, tape[n]), TakerReport(first + n, tape[n]);
      MoneyOnTape(first, tape[..n], side);
      SideMoneyConcat(ReportsFrom(first, tape[..n]), [m, t], side);
      assert FairTrade(tape[n]);
      SideMoneyPair(m, t, side);
    }
  }

  /** Each trader is told the cash the tape holds for them. */
  lemma {:induction false} CashOnTape(first: nat, tape: seq<Trade>, trader: nat)
    ensures CashReported(ReportsFrom(first, tape), trader) == CashTraded(tape, trader)
  {
    if tape != [] {
      hide CashReported, Gain;
      var n := |tape| - 1;
      var m, t := MakerReport(first + n, tape[n]), TakerReport(first + n, tape[n]);
      CashOnTape(first, tape[..n], trader);
      CashConcat(ReportsFrom(first, tape[..n]), [m, t], trader);
      CashPair(m, t, trader);
    }
  }

  /** In every run the buyers' reports alone, and the sellers' alone, add up to the value traded,
      and every trader's reports to that trader's cash on the tape. */
  lemma RunMoney(ops: seq<Op>, side: Side, trader: nat)
    requires Legal(Start, ops)
    ensures var tape := Run(Start, ops).tape;
            && SideMoney(Reports(tape), side) == Value(tape)
            && CashReported(Reports(tape), trader) == CashTraded(tape, trader)
  {
    hide Run, Legal, BookInv, SideMoney, CashReported, ReportsFrom, CashTraded, Value;
    InvRun(Start, ops);
    MoneyOnTape(1, Run(Start, ops).tape, side);
    CashOnTape(1, Run(Start, ops).tape, trader);
  }

  lemma AmountBounds(q: nat, low: real, price: real, high: real)
    requires low <= price <= high
    ensures Amount(q, low) <= Amount(q, price) <= Amount(q, high)
  {
    AmountMonotone(q, low, price);
    AmountMonotone(q, price, high);
  }

  lemma {:induction false} ValueBounds(tape: seq<Trade>, low: real, high: real)
    requires forall i :: 0 <= i < |tape| ==> low <= tape[i].price <= high
    ensures Amount(Volume(tape), low) <= Value(tape) <= Amount(Volume(tape), high)
  {
    if tape != [] {
      var n := |tape| - 1;
      ValueBounds(tape[..n], low, high);
      AmountBounds(tape[n].qty, low, tape[n].price, high);
      AmountSplits(Volume(tape[..n]), tape[n].qty, low);
      AmountSplits(Volume(tape[..n]), tape[n].qty, high);
      hide Amount;
    }
  }

  /** The volume-weighted average price reported by the engine. */
  function Vwap(volume: nat, value: real): real {
    if volume > 0 then value / volume as real else 0.0
  }

  lemma Quotient(v: nat, value: real, low: real, high: real)
    requires 0 < v && Amount(v, low) <= value <= Amount(v, high)
    ensures low <= value / v as real <= high
  {
    DivideBound(value, v as real, low, high);
  }

  lemma DivideBound(x: real, d: real, low: real, high: real)
    requires 0.0 < d && low * d <= x <= high * d
    ensures low <= x / d <= high
  {
    assert x == (x / d) * d;
  }

  /** The average lies between the lowest and the highest traded price. */
  lemma VwapWithinPrices(tape: seq<Trade>, low: real, high: real)
    requires 0 < Volume(tape)
    requires forall i :: 0 <= i < |tape| ==> low <= tape[i].price <= high
    ensures low <= Vwap(Volume(tape), Value(tape)) <= high
  {
    ValueBounds(tape, low, high);
    Quotient(Volume(tape), Value(tape), low, high);
  }

  /** The average times the shares traded is the value traded; without a trade it is zero. */
  lemma VwapTimesVolume(tape: seq<Trade>)
    ensures 0 < Volume(tape) ==> Vwap(Volume(tape), Value(tape)) * Volume(tape) as real == Value(tape)
    ensures Volume(tape) == 0 ==> Vwap(Volume(tape), Value(tape)) == 0.0
  {
    hide Value, Volume;
    if 0 < Volume(tape) {
      DivideBound(Value(tape), Volume(tape) as real, Vwap(Volume(tape), Value(tape)),
                  Vwap(Volume(tape), Value(tape)));
    }
  }
}
