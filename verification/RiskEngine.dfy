/** Pre-trade checks and exposure tracking, per trader and symbol. */
module RiskEngines {
  import opened Types
  import opened PriceLevels

  /** Net filled shares, shares of approved orders not yet filled, and the limits. */
  datatype RiskState = RiskState(position: int, openBuy: int, openSell: int, maxLong: int, maxShort: int) {
    function Open(side: Side): int {
      if side.BUY? then openBuy else openSell
    }

    function SetOpen(side: Side, q: int): RiskState {
      if side.BUY? then this.(openBuy := q) else this.(openSell := q)
    }
  }

  const DEFAULT_LIMIT := 1000
  const Untouched := RiskState(0, 0, 0, DEFAULT_LIMIT, DEFAULT_LIMIT)

  datatype Exposure = Exposure(qty: nat, side: Side, trader: nat, symbol: string)

  datatype Risk = Risk(state: map<(nat, string), RiskState>, exposures: map<nat, Exposure>)

  /** A trader's state in a symbol; it springs up, with default limits, when first looked at. */
  function At(r: Risk, trader: nat, symbol: string): RiskState {
    if (trader, symbol) in r.state then r.state[(trader, symbol)] else Untouched
  }

  function Put(r: Risk, trader: nat, symbol: string, s: RiskState): Risk {
    r.(state := r.state[(trader, symbol) := s])
  }

  /** Would the order, on top of everything already open, stay within its trader's limits? */
  predicate Within(s: RiskState, side: Side, quantity: nat) {
    if side.BUY? then s.position + s.openBuy + quantity <= s.maxLong
    else s.position - s.openSell - quantity >= -s.maxShort
  }

  function Approve(r: Risk, id: nat, trader: nat, symbol: string, side: Side, quantity: nat): (Risk, bool) {
    var s := At(r, trader, symbol);
    if !Within(s, side, quantity) then (Put(r, trader, symbol, s), false)
    else
      var r' := Put(r, trader, symbol, s.SetOpen(side, s.Open(side) + quantity));
      (r'.(exposures := r'.exposures[id := Exposure(quantity, side, trader, symbol)]), true)
  }

  /** Exposure left after a fill, in 32-bit arithmetic. */
  function Left(qty: nat, filled: nat): nat {
    ((qty as int) - filled) % TWO_TO_32
  }

  function Filled(r: Risk, f: Report): Risk {
    if f.orderId !in r.exposures then r
    else
      var s := At(r, f.trader, f.symbol);
      var q: int := f.qty;
      var position := if f.side.BUY? then s.position + q else s.position - q;
      var s' := s.SetOpen(f.side, s.Open(f.side) - q).(position := position);
      var e := r.exposures[f.orderId];
      var left := Left(e.qty, f.qty);
      Risk(r.state[(f.trader, f.symbol) := s'],
           if left == 0 then r.exposures - {f.orderId} else r.exposures[f.orderId := e.(qty := left)])
  }

  function Released(r: Risk, id: nat): Risk {
    if id !in r.exposures then r
    else
      var e := r.exposures[id];
      var s := At(r, e.trader, e.symbol);
      Risk(r.state[(e.trader, e.symbol) := s.SetOpen(e.side, s.Open(e.side) - e.qty)], r.exposures - {id})
  }

  function FilledAll(r: Risk, fs: seq<Report>): Risk
    decreases |fs|
  {
    if fs == [] then r else FilledAll(Filled(r, fs[0]), fs[1..])
  }

  // ------------------------------------------------------------ what the engine does

  /** An order is approved exactly when the position and everything open on its side leave room
      for all of it. Approval opens its quantity on its side and nothing else; a refused order
      changes no state. */
  lemma ApprovedWhen(r: Risk, id: nat, trader: nat, symbol: string, side: Side, quantity: nat, t: nat, y: string)
    ensures var (r', ok) := Approve(r, id, trader, symbol, side, quantity);
            var (s, was, now) := (At(r, trader, symbol), At(r, t, y), At(r', t, y));
            && (ok <==> if side.BUY? then s.position + s.openBuy + quantity <= s.maxLong
                        else -s.maxShort <= s.position - s.openSell - quantity)
            && now.position == was.position && now.maxLong == was.maxLong && now.maxShort == was.maxShort
            && now.openBuy == was.openBuy
               + (if ok && side.BUY? && (t, y) == (trader, symbol) then quantity else 0)
            && now.openSell == was.openSell
               + (if ok && side.SELL? && (t, y) == (trader, symbol) then quantity else 0)
            && r'.exposures == if ok then r.exposures[id := Exposure(quantity, side, trader, symbol)] else r.exposures
  {
  }

  /** With default limits a trader may build up 1000 shares either way and no more. */
  lemma DefaultLimits(id: nat, trader: nat, symbol: string, side: Side, quantity: nat)
    ensures var untouched := Risk(map[], map[]);
            Approve(untouched, id, trader, symbol, side, quantity).1 <==> quantity <= 1000
  {
  }

  /** A fill moves its shares from its side's open quantity to the position of its trader in its
      symbol, whatever is tracked under its order id; one for an untracked order is ignored. */
  lemma FillMoves(r: Risk, f: Report, t: nat, y: string)
    ensures f.orderId !in r.exposures ==> Filled(r, f) == r
    ensures f.orderId in r.exposures ==>
              var (was, now) := (At(r, t, y), At(Filled(r, f), t, y));
              && now.maxLong == was.maxLong && now.maxShort == was.maxShort
              && (if (t, y) != (f.trader, f.symbol) then now == was
                  else if f.side.BUY? then
                    now.openBuy == was.openBuy - f.qty && now.openSell == was.openSell
                    && now.position == was.position + f.qty
                  else
                    now.openSell == was.openSell - f.qty && now.openBuy == was.openBuy
                    && now.position == was.position - f.qty)
  {
  }

  /** What is tracked of an order shrinks by its fills until nothing is left; a fill beyond it
      wraps around, and other orders are not concerned. */
  lemma FillTracks(r: Risk, f: Report)
    requires f.orderId in r.exposures
    ensures var e := r.exposures[f.orderId];
            var after := Filled(r, f).exposures;
            && after - {f.orderId} == r.exposures - {f.orderId}
            && (f.qty == e.qty ==> f.orderId !in after)
            && (f.qty < e.qty < TWO_TO_32 ==> f.orderId in after && after[f.orderId] == e.(qty := e.qty - f.qty))
            && (e.qty < f.qty < TWO_TO_32 ==>
                  f.orderId in after && after[f.orderId] == e.(qty := 0x1_0000_0000 + e.qty - f.qty))
  {
    var after := Filled(r, f).exposures;
    assert after - {f.orderId} == r.exposures - {f.orderId};
  }

  /** Releasing an order closes what is tracked of it, on its own side and account only. */
  lemma ReleaseCloses(r: Risk, id: nat, t: nat, y: string)
    ensures id !in r.exposures ==> Released(r, id) == r
    ensures Released(r, id).exposures == r.exposures - {id}
    ensures id in r.exposures ==>
              var (e, was, now) := (r.exposures[id], At(r, t, y), At(Released(r, id), t, y));
              && now.position == was.position && now.maxLong == was.maxLong && now.maxShort == was.maxShort
              && now.openBuy == was.openBuy
                 - (if e.side.BUY? && (t, y) == (e.trader, e.symbol) then e.qty else 0)
              && now.openSell == was.openSell
                 - (if e.side.SELL? && (t, y) == (e.trader, e.symbol) then e.qty else 0)
  {
    if id !in r.exposures {
      assert r.exposures - {id} == r.exposures;
    }
  }

  // ------------------------------------------------------------ the engine object

  class RiskEngine {
    var state: map<(nat, string), RiskState>
    var orderExposures: map<nat, Exposure>

    constructor ()
      ensures View() == Risk(map[], map[])
    {
      state, orderExposures := map[], map[];
    }

    ghost function View(): Risk
      reads this
    {
      Risk(state, orderExposures)
    }

    function StateOf(trader: nat, symbol: string): RiskState
      reads this
    {
      if (trader, symbol) in state then state[(trader, symbol)] else Untouched
    }

    method SetLimits(trader: nat, symbol: string, maxLong: int, maxShort: int)
      modifies this
      ensures View() == Put(old(View()), trader, symbol,
                            At(old(View()), trader, symbol).(maxLong := maxLong, maxShort := maxShort))
    {
      state := state[(trader, symbol) := StateOf(trader, symbol).(maxLong := maxLong, maxShort := maxShort)];
    }

    /** Approves an order and books it as open exposure, or rejects it. */
    method CheckOrder(order: Order) returns (ok: bool)
      modifies this, order`status
      ensures (View(), ok) == Approve(old(View()), order.id, order.trader, order.symbol, order.side, order.quantity)
      ensures var s := old(StateOf(order.trader, order.symbol));
              ok <==> if order.side.BUY? then s.position + s.openBuy + order.quantity <= s.maxLong
                      else s.position - s.openSell - order.quantity >= -s.maxShort
      ensures order.status == if ok then old(order.status) else REJECTED
    {
      var s := StateOf(order.trader, order.symbol);
      var key := (order.trader, order.symbol);
      if order.side.BUY? {
        if s.position + s.openBuy + order.quantity > s.maxLong {
          state := state[key := s];
          order.status := REJECTED;
          return false;
        }
        state := state[key := s.(openBuy := s.openBuy + order.quantity)];
      } else {
        if s.position - s.openSell - order.quantity < -s.maxShort {
          state := state[key := s];
          order.status := REJECTED;
          return false;
        }
        state := state[key := s.(openSell := s.openSell + order.quantity)];
      }
      orderExposures := orderExposures[order.id := Exposure(order.quantity, order.side, order.trader, order.symbol)];
      ok := true;
    }

    /** Moves filled shares from open exposure to position. */
    method OnFill(f: Report)
      modifies this
      ensures View() == Filled(old(View()), f)
    {
      if f.orderId in orderExposures {
        var s := StateOf(f.trader, f.symbol);
        if f.side.BUY? {
          s := s.(openBuy := s.openBuy - f.qty, position := s.position + f.qty);
        } else {
          s := s.(openSell := s.openSell - f.qty, position := s.position - f.qty);
        }
        state := state[(f.trader, f.symbol) := s];
        var e := orderExposures[f.orderId];
        var left := Left(e.qty, f.qty);
        orderExposures := orderExposures[f.orderId := e.(qty := left)];
        if left == 0 {
          orderExposures := orderExposures - {f.orderId};
          assert orderExposures == old(orderExposures) - {f.orderId};
        }
      }
    }

    /** Releases the open exposure of a cancelled order. */
    method OnCancel(id: nat)
      modifies this
      ensures View() == Released(old(View()), id)
    {
      if id in orderExposures {
        var e := orderExposures[id];
        var s := StateOf(e.trader, e.symbol);
        state := state[(e.trader, e.symbol) := s.SetOpen(e.side, s.Open(e.side) - e.qty)];
        orderExposures := orderExposures - {id};
      }
    }
  }
}
