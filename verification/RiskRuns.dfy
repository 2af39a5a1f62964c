/** The risk engine in front of the exchange, used as documented: check before submit,
    every report passed on, cancels and discarded remainders released. */
module RiskRuns {
  import opened Types
  import opened Sweep
  import opened BookSpec
  import opened TraderShares
  import opened RiskEngines

  // ------------------------------------------------------------ safety

  /** Limits hold for the position and would still hold if everything open were filled. */
  predicate SafeState(s: RiskState) {
    && 0 <= s.openBuy && 0 <= s.openSell
    && s.position + s.openBuy <= s.maxLong
    && -s.maxShort <= s.position - s.openSell
  }

  ghost predicate Safe(r: Risk) {
    forall trader: nat, symbol: string :: SafeState(At(r, trader, symbol))
  }

  /** The position itself is within its limits. */
  lemma SafePosition(r: Risk, trader: nat, symbol: string)
    requires Safe(r)
    ensures var s := At(r, trader, symbol); -s.maxShort <= s.position <= s.maxLong
  {
    assert SafeState(At(r, trader, symbol));
  }

  /** Safe now, and after every single one of the reports. */
  ghost predicate SafeThroughout(r: Risk, fs: seq<Report>)
    decreases |fs|
  {
    Safe(r) && (fs != [] ==> SafeThroughout(Filled(r, fs[0]), fs[1..]))
  }

  // ------------------------------------------------------------ one report

  ghost predicate Covers(r: Risk, f: Report) {
    && f.orderId in r.exposures
    && r.exposures[f.orderId].trader == f.trader && r.exposures[f.orderId].symbol == f.symbol
    && r.exposures[f.orderId].side == f.side && f.qty <= r.exposures[f.orderId].qty < TWO_TO_32
    && f.qty <= At(r, f.trader, f.symbol).Open(f.side)
  }

  function Moved(s: RiskState, side: Side, q: int): RiskState {
    s.SetOpen(side, s.Open(side) - q).(position := if side.BUY? then s.position + q else s.position - q)
  }

  lemma OneFill(r: Risk, f: Report)
    requires Covers(r, f) && Safe(r)
    ensures var r' := Filled(r, f);
            var e := r.exposures[f.orderId];
            && Safe(r')
            && (forall t: nat, s: string :: At(r', t, s)
                  == if t == f.trader && s == f.symbol then Moved(At(r, t, s), f.side, f.qty) else At(r, t, s))
            && r'.exposures == if f.qty == e.qty then r.exposures - {f.orderId}
                               else r.exposures[f.orderId := e.(qty := e.qty - f.qty)]
  {
    var r' := Filled(r, f);
    var e := r.exposures[f.orderId];
    assert Left(e.qty, f.qty) == e.qty - f.qty;
    forall t: nat, s: string
      ensures At(r', t, s) == if t == f.trader && s == f.symbol then Moved(At(r, t, s), f.side, f.qty) else At(r, t, s)
      ensures SafeState(At(r', t, s))
    {
      assert SafeState(At(r, t, s));
    }
  }

  // ------------------------------------------------------------ a sweep

  function ExposureOf(t: Ticket): Exposure {
    Exposure(t.remaining, t.side, t.trader, t.symbol)
  }

  /** Each order of the queue is on the engine's books with what remains of it. */
  ghost predicate Exposed(r: Risk, q: seq<Ticket>) {
    forall i :: 0 <= i < |q| ==>
      q[i].id in r.exposures && r.exposures[q[i].id] == ExposureOf(q[i]) && q[i].remaining < TWO_TO_32
  }

  /** Mid-sweep: the makers' side is open as it rests; on the taker's side the taker
      counts on top of what rests (`own`). */
  ghost predicate Midway(r: Risk, taker: Ticket, makers: seq<Ticket>, own: seq<Ticket>) {
    && Safe(r)
    && Exposed(r, makers)
    && (0 < taker.remaining ==> Exposed(r, [taker]))
    && (forall t: nat :: At(r, t, taker.symbol).Open(taker.side.Opposite()) == Open(makers, t))
    && (forall t: nat :: At(r, t, taker.symbol).Open(taker.side)
                         == Open(own, t) + if t == taker.trader then taker.remaining else 0)
  }

  /** The makers could be matched with the taker, and are orders other than it. */
  ghost predicate Facing(taker: Ticket, makers: seq<Ticket>) {
    && Tidy(makers, taker.side.Opposite())
    && (forall i :: 0 <= i < |makers| ==> makers[i].symbol == taker.symbol && makers[i].id != taker.id)
  }

  lemma {:induction false} OpenFilled(makers: seq<Ticket>, q: nat, trader: nat)
    requires makers != [] && q <= makers[0].remaining
    ensures Open(AfterFill(makers, q), trader) == Open(makers, trader) - if makers[0].trader == trader then q else 0
  {
    if q < makers[0].remaining {
      assert AfterFill(makers, q)[1..] == makers[1..];
    }
  }

  lemma FacingFilled(taker: Ticket, makers: seq<Ticket>, q: nat)
    requires Facing(taker, makers) && makers != [] && 0 < q <= Min(makers[0].remaining, taker.remaining)
    ensures Facing(taker.Take(q), AfterFill(makers, q))
  {
    var after := AfterFill(makers, q);
    assert Remnant(after, makers);
    RemnantKeepsQueue(after, makers, taker.side.Opposite());
    hide Queue, DistinctIds, Remnant, AfterFill;
    forall i | 0 <= i < |after| ensures after[i].symbol == taker.symbol && after[i].id != taker.id {
      FilledAt(makers, q, i);
    }
  }

  /** The maker's report keeps the engine safe and in step with the makers' side. */
  lemma MakerFilled(r: Risk, taker: Ticket, makers: seq<Ticket>, own: seq<Ticket>, q: nat, f: Report)
    requires Midway(r, taker, makers, own) && Facing(taker, makers) && makers != []
    requires 0 < q <= Min(makers[0].remaining, taker.remaining)
    requires f.orderId == makers[0].id && f.trader == makers[0].trader && f.side == makers[0].side
             && f.symbol == makers[0].symbol && f.qty == q
    ensures Midway(Filled(r, f), taker, AfterFill(makers, q), own)
    ensures At(Filled(r, f), f.trader, f.symbol) == Moved(At(r, f.trader, f.symbol), f.side, q)
  {
    hide Filled;
    var r', after := Filled(r, f), AfterFill(makers, q);
    assert r.exposures[makers[0].id] == ExposureOf(makers[0]);
    OpenAtLeast(makers, 0);
    OneFill(r, f);
    forall t: nat ensures At(r', t, taker.symbol).Open(taker.side.Opposite()) == Open(after, t) {
      OpenFilled(makers, q, t);
    }
    hide Open;
    MakersExposed(r, r', taker, makers, q);
    assert 0 < taker.remaining && r.exposures[[taker][0].id] == ExposureOf(taker);
  }

  lemma MakersExposed(r: Risk, r': Risk, taker: Ticket, makers: seq<Ticket>, q: nat)
    requires Exposed(r, makers) && Facing(taker, makers) && makers != [] && 0 < q <= makers[0].remaining
    requires r'.exposures == if q == makers[0].remaining then r.exposures - {makers[0].id}
                             else r.exposures[makers[0].id := ExposureOf(makers[0]).(qty := makers[0].remaining - q)]
    ensures Exposed(r', AfterFill(makers, q))
  {
    var after := AfterFill(makers, q);
    hide Queue;
    forall i | 0 <= i < |after|
      ensures after[i].id in r'.exposures && r'.exposures[after[i].id] == ExposureOf(after[i])
              && after[i].remaining < TWO_TO_32
    {
      var j := |makers| - |after| + i;
      assert makers[j].id in r.exposures && r.exposures[makers[j].id] == ExposureOf(makers[j]);
      assert j > 0 ==> after[i] == makers[j] && makers[j].id != makers[0].id;
    }
  }

  /** The taker's report does the same for the taker. */
  lemma TakerFilled(r: Risk, taker: Ticket, makers: seq<Ticket>, own: seq<Ticket>, q: nat, f: Report)
    requires Midway(r, taker, makers, own) && Facing(taker, makers) && 0 < q <= taker.remaining
    requires f.orderId == taker.id && f.trader == taker.trader && f.side == taker.side
             && f.symbol == taker.symbol && f.qty == q
    ensures Midway(Filled(r, f), taker.Take(q), makers, own)
    ensures At(Filled(r, f), f.trader, f.symbol) == Moved(At(r, f.trader, f.symbol), f.side, q)
  {
    hide Filled, Open;
    assert r.exposures[[taker][0].id] == ExposureOf(taker) && [taker][0].remaining < TWO_TO_32;
    OneFill(r, f);
    forall i | 0 <= i < |makers|
      ensures makers[i].id in Filled(r, f).exposures
              && Filled(r, f).exposures[makers[i].id] == ExposureOf(makers[i])
    {
      assert makers[i].id != taker.id && r.exposures[makers[i].id] == ExposureOf(makers[i]);
    }
  }

  /** What a stretch of reports between a taker and its makers leaves alone, and what it
      takes off the books. */
  ghost predicate Along(r: Risk, taker: Ticket, makers: seq<Ticket>, r': Risk, taker': Ticket, makers': seq<Ticket>) {
    && (forall t: nat, s: string :: s != taker.symbol ==> At(r', t, s) == At(r, t, s))
    && (forall t: nat, s: string ::
          At(r', t, s).maxLong == At(r, t, s).maxLong && At(r', t, s).maxShort == At(r, t, s).maxShort)
    && (forall id :: id in r'.exposures ==> id in r.exposures)
    && (forall id :: id in r.exposures && id != taker.id && !Holds(makers, id) ==>
          id in r'.exposures && r'.exposures[id] == r.exposures[id])
    && (forall id :: id in r'.exposures && Holds(makers, id) ==> Holds(makers', id))
    && (taker.id in r'.exposures && 0 < taker.remaining ==> 0 < taker'.remaining)
  }

  lemma AlongTrans(r: Risk, t: Ticket, m: seq<Ticket>, r1: Risk, t1: Ticket, m1: seq<Ticket>,
                   r2: Risk, t2: Ticket, m2: seq<Ticket>)
    requires Along(r, t, m, r1, t1, m1) && Along(r1, t1, m1, r2, t2, m2)
    requires t1.id == t.id && t1.symbol == t.symbol
    requires forall id :: Holds(m1, id) ==> Holds(m, id)
    requires t1.remaining == 0 ==> r2 == r1 && t2 == t1
    ensures Along(r, t, m, r2, t2, m2)
  {
    hide Holds, At;
  }

  /** Shares of a symbol that a trader bought, less those it sold, in a list of trades. */
  function NetOf(ts: seq<Trade>, trader: nat, symbol: string): int {
    if ts == [] then 0
    else (if ts[0].takerSymbol == symbol then NetIn(ts[0], trader) else 0) + NetOf(ts[1..], trader, symbol)
  }

  function NetIn(t: Trade, trader: nat): int {
    (TradedIn(t, trader, BUY) as int) - TradedIn(t, trader, SELL)
  }

  lemma {:induction false} NetOfConcat(a: seq<Trade>, b: seq<Trade>, trader: nat, symbol: string)
    ensures NetOf(a + b, trader, symbol) == NetOf(a, trader, symbol) + NetOf(b, trader, symbol)
  {
    hide NetIn;
    if a == [] {
      assert a + b == b;
    } else {
      TailOfConcat(a, b);
      NetOfConcat(a[1..], b, trader, symbol);
    }
  }

  lemma {:induction false} HoldsFilled(makers: seq<Ticket>, q: nat, id: nat)
    requires DistinctIds(makers) && makers != [] && q <= makers[0].remaining
    ensures Holds(AfterFill(makers, q), id) <==> Holds(makers, id) && !(id == makers[0].id && q == makers[0].remaining)
  {
    if q < makers[0].remaining {
      assert AfterFill(makers, q)[1..] == makers[1..];
    } else if id == makers[0].id {
      assert Find(makers, id) == 0;
    }
  }

  lemma {:induction false} ExposuresAlong(r: Risk, taker: Ticket, makers: seq<Ticket>, q: nat, m: Report, f: Report)
    requires Facing(taker, makers) && makers != [] && 0 < q <= Min(makers[0].remaining, taker.remaining)
    requires Covers(r, m) && m.orderId == makers[0].id && m.qty == q && Safe(r)
    requires Covers(Filled(r, m), f) && f.orderId == taker.id && f.qty == q && Safe(Filled(r, m))
    requires m.symbol == f.symbol == taker.symbol
    requires r.exposures[m.orderId].qty == makers[0].remaining
    requires Filled(r, m).exposures[f.orderId].qty == taker.remaining
    ensures Along(r, taker, makers, Filled(Filled(r, m), f), taker.Take(q), AfterFill(makers, q))
  {
    OneFill(r, m);
    OneFill(Filled(r, m), f);
    hide Filled, Queue;
    forall id
      ensures Holds(AfterFill(makers, q), id)
              <==> Holds(makers, id) && !(id == makers[0].id && q == makers[0].remaining)
    {
      HoldsFilled(makers, q, id);
    }
    assert Holds(makers, makers[0].id);
    hide Holds, AfterFill;
  }

  /** The two reports of one trade of a sweep. */
  lemma OneTrade(r: Risk, taker: Ticket, makers: seq<Ticket>, own: seq<Ticket>, e: nat)
    requires Midway(r, taker, makers, own) && Facing(taker, makers) && !Done(taker, makers)
    ensures var q := Min(taker.remaining, makers[0].remaining);
            var t := TradeOf(taker, makers[0], q);
            var r1 := Filled(r, MakerReport(e, t));
            var r2 := Filled(r1, TakerReport(e, t));
            && Safe(r) && Safe(r1)
            && Midway(r2, taker.Take(q), AfterFill(makers, q), own)
            && Facing(taker.Take(q), AfterFill(makers, q))
            && Along(r, taker, makers, r2, taker.Take(q), AfterFill(makers, q))
            && (forall trader: nat, s: string ::
                  At(r2, trader, s).position
                  == At(r, trader, s).position + if s == taker.symbol then NetIn(t, trader) else 0)
  {
    hide Filled, Facing, Along, Safe, Exposed, Covers, Moved, NetIn, AfterFill, At, Open;
    var q := Min(taker.remaining, makers[0].remaining);
    var t := TradeOf(taker, makers[0], q);
    var m, f := MakerReport(e, t), TakerReport(e, t);
    var r1, after := Filled(r, m), AfterFill(makers, q);
    FirstFacing(taker, makers);
    MakerCovered(r, taker, makers, own, m);
    MakerFilled(r, taker, makers, own, q, m);
    OneFill(r, m);
    FacingFilled(taker, makers, q);
    FacingSame(taker, taker.Take(q), after);
    TakerCovered(r1, taker, after, own, f);
    TakerFilled(r1, taker, after, own, q, f);
    OneFill(r1, f);
    ExposuresAlong(r, taker, makers, q, m, f);
    MovedBoth(r, r1, Filled(r1, f), taker, makers[0], q);
  }

  lemma FirstFacing(taker: Ticket, makers: seq<Ticket>)
    requires Facing(taker, makers) && makers != []
    ensures makers[0].symbol == taker.symbol && makers[0].side == taker.side.Opposite() && 0 < makers[0].remaining
  {
  }

  lemma FacingSame(t: Ticket, t': Ticket, makers: seq<Ticket>)
    requires t.side == t'.side && t.symbol == t'.symbol && t.id == t'.id
    ensures Facing(t, makers) == Facing(t', makers)
  {
  }

  /** The maker's move and the taker's, on both positions. */
  lemma MovedBoth(r: Risk, r1: Risk, r2: Risk, taker: Ticket, maker: Ticket, q: nat)
    requires maker.side == taker.side.Opposite() && maker.symbol == taker.symbol
    requires forall t: nat, s: string :: At(r1, t, s)
               == if t == maker.trader && s == maker.symbol then Moved(At(r, t, s), maker.side, q) else At(r, t, s)
    requires forall t: nat, s: string :: At(r2, t, s)
               == if t == taker.trader && s == taker.symbol then Moved(At(r1, t, s), taker.side, q) else At(r1, t, s)
    ensures forall t: nat, s: string :: At(r2, t, s).position
               == At(r, t, s).position + if s == taker.symbol then NetIn(TradeOf(taker, maker, q), t) else 0
  {
    hide At;
  }

  lemma MakerCovered(r: Risk, taker: Ticket, makers: seq<Ticket>, own: seq<Ticket>, m: Report)
    requires Midway(r, taker, makers, own) && Facing(taker, makers) && makers != [] && m.qty <= makers[0].remaining
    requires m.orderId == makers[0].id && m.trader == makers[0].trader && m.side == makers[0].side
             && m.symbol == makers[0].symbol
    ensures Covers(r, m) && r.exposures[m.orderId].qty == makers[0].remaining
  {
    assert r.exposures[makers[0].id] == ExposureOf(makers[0]);
    OpenAtLeast(makers, 0);
  }

  lemma TakerCovered(r: Risk, taker: Ticket, makers: seq<Ticket>, own: seq<Ticket>, f: Report)
    requires Midway(r, taker, makers, own) && 0 < taker.remaining && f.qty <= taker.remaining
    requires f.orderId == taker.id && f.trader == taker.trader && f.side == taker.side && f.symbol == taker.symbol
    ensures Covers(r, f) && r.exposures[f.orderId].qty == taker.remaining
  {
    assert r.exposures[[taker][0].id] == ExposureOf(taker) && [taker][0].remaining < TWO_TO_32;
  }

  lemma TwoReports(r: Risk, m: Report, f: Report, fs: seq<Report>)
    ensures FilledAll(r, [m, f] + fs) == FilledAll(Filled(Filled(r, m), f), fs)
    ensures SafeThroughout(r, [m, f] + fs)
            <==> Safe(r) && Safe(Filled(r, m)) && SafeThroughout(Filled(Filled(r, m), f), fs)
  {
    hide Filled, Safe;
    var all := [m, f] + fs;
    assert all[1..] == [f] + fs && all[1..][1..] == fs;
  }

  lemma OneTradeReports(e: nat, t: Trade, ts: seq<Trade>)
    ensures ReportsFrom(e, [t] + ts) == [MakerReport(e, t), TakerReport(e, t)] + ReportsFrom(e + 1, ts)
  {
    ReportsConcat(e, [t], ts);
    assert [t][..0] == [] && ReportsFrom(e, []) == [];
  }

  lemma NoReports(r: Risk, taker: Ticket, makers: seq<Ticket>, own: seq<Ticket>, e: nat)
    requires Midway(r, taker, makers, own)
    ensures ReportsFrom(e, []) == [] && FilledAll(r, []) == r && SafeThroughout(r, [])
    ensures Along(r, taker, makers, r, taker, makers)
  {
  }

  lemma FilledHolds(taker: Ticket, makers: seq<Ticket>, q: nat, id: nat)
    requires Facing(taker, makers) && makers != [] && q <= makers[0].remaining
    ensures Holds(AfterFill(makers, q), id) ==> Holds(makers, id)
  {
    HoldsFilled(makers, q, id);
  }

  /** A whole sweep, report by report. */
  lemma {:induction false} SweepTracked(r: Risk, taker: Ticket, makers: seq<Ticket>, own: seq<Ticket>, e: nat)
    requires Midway(r, taker, makers, own) && Facing(taker, makers)
    ensures var m := Match(taker, makers);
            var fs := ReportsFrom(e, m.trades);
            var r' := FilledAll(r, fs);
            && SafeThroughout(r, fs)
            && Midway(r', m.taker, m.makers, own)
            && Along(r, taker, makers, r', m.taker, m.makers)
            && (forall trader: nat, s: string ::
                  At(r', trader, s).position == At(r, trader, s).position + NetOf(m.trades, trader, s))
    decreases |makers| + taker.remaining
  {
    hide Filled, Facing, Midway, Safe, Exposed, At, Holds, NetIn, ReportsFrom;
    NoReports(r, taker, makers, own, e);
    if !Done(taker, makers) {
      var q := Min(taker.remaining, makers[0].remaining);
      var t := TradeOf(taker, makers[0], q);
      var makers' := AfterFill(makers, q);
      var m, f := MakerReport(e, t), TakerReport(e, t);
      var r2 := Filled(Filled(r, m), f);
      OneTrade(r, taker, makers, own, e);
      SweepTracked(r2, taker.Take(q), makers', own, e + 1);
      var rest := Match(taker.Take(q), makers');
      OneTradeReports(e, t, rest.trades);
      TwoReports(r, m, f, ReportsFrom(e + 1, rest.trades));
      forall id ensures Holds(makers', id) ==> Holds(makers, id) {
        FilledHolds(taker, makers, q, id);
      }
      NoReports(r2, taker.Take(q), makers', own, e + 1);
      assert ([t] + rest.trades)[1..] == rest.trades;
      hide Along, SafeThroughout, AfterFill;
      AlongTrans(r, taker, makers, r2, taker.Take(q), makers',
                 FilledAll(r2, ReportsFrom(e + 1, rest.trades)), rest.taker, rest.makers);
    }
  }
}
