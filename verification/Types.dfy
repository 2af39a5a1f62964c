/** The values that flow through the exchange: orders as seen at one instant
    (tickets), trades, and the execution reports that each trade produces. */
module Types {

  const TWO_TO_32: nat := 0x1_0000_0000

  datatype Side = BUY | SELL {
    function Opposite(): Side {
      if BUY? then SELL else BUY
    }
  }

  datatype OrderType = LIMIT | MARKET

  datatype OrderStatus = NEW | PARTIALLY_FILLED | FILLED | CANCELLED | REJECTED

  datatype TimeInForce = GTC | IOC | FOK

  /** The content of an `Order` object at one instant. The total quantity is
      `filled + remaining`, so a ticket can never be over-filled. */
  datatype Ticket = Ticket(
    id: nat,
    trader: nat,
    symbol: string,
    side: Side,
    kind: OrderType,
    tif: TimeInForce,
    price: real,
    filled: nat,
    remaining: nat,
    status: OrderStatus)
  {
    predicate IsActive() {
      status == NEW || status == PARTIALLY_FILLED
    }

    /** The ticket after `q` more of its shares have been matched. */
    function Take(q: nat): Ticket
      requires q <= remaining
    {
      this.(filled := filled + q,
            remaining := remaining - q,
            status := if remaining == q then FILLED else PARTIALLY_FILLED)
    }

    /** Same order, possibly matched further: everything but the fill state agrees. */
    predicate SameOrder(other: Ticket) {
      other == this.(filled := other.filled, remaining := other.remaining, status := other.status)
    }
  }

  /** One match between a resting order (the maker) and an incoming one (the taker). */
  datatype Trade = Trade(
    makerId: nat,
    makerTrader: nat,
    makerSide: Side,
    makerSymbol: string,
    takerId: nat,
    takerTrader: nat,
    takerSide: Side,
    takerSymbol: string,
    price: real,
    qty: nat)

  datatype Report = Report(
    execId: nat,
    orderId: nat,
    aggressorId: nat,
    trader: nat,
    price: real,
    qty: nat,
    side: Side,
    symbol: string)

  function MakerReport(execId: nat, t: Trade): Report {
    Report(execId, t.makerId, t.takerId, t.makerTrader, t.price, t.qty, t.makerSide, t.makerSymbol)
  }

  function TakerReport(execId: nat, t: Trade): Report {
    Report(execId, t.takerId, t.takerId, t.takerTrader, t.price, t.qty, t.takerSide, t.takerSymbol)
  }

  /** The reports of a tape whose first trade has execution id `first`, in delivery order. */
  function ReportsFrom(first: nat, tape: seq<Trade>): (r: seq<Report>)
    ensures |r| == 2 * |tape|
  {
    if tape == [] then []
    else ReportsFrom(first, tape[..|tape| - 1])
         + [MakerReport(first + |tape| - 1, tape[|tape| - 1]), TakerReport(first + |tape| - 1, tape[|tape| - 1])]
  }

  /** Execution ids start at 1. */
  function Reports(tape: seq<Trade>): (r: seq<Report>)
    ensures |r| == 2 * |tape|
  {
    ReportsFrom(1, tape)
  }

  lemma TailOfConcat<T>(a: seq<T>, b: seq<T>)
    requires a != []
    ensures (a + b)[0] == a[0] && (a + b)[1..] == a[1..] + b
  {
  }

  lemma ConcatAssoc<T>(a: seq<T>, b: seq<T>, c: seq<T>)
    ensures a + (b + c) == a + b + c
  {
  }

  function Min(a: nat, b: nat): nat {
    if a <= b then a else b
  }

  /** Shares traded on a tape. */
  function Volume(tape: seq<Trade>): nat {
    if tape == [] then 0 else Volume(tape[..|tape| - 1]) + tape[|tape| - 1].qty
  }

  /** Money paid for `qty` shares. */
  function Amount(qty: nat, price: real): real {
    qty as real * price
  }

  lemma AmountSplits(j: nat, k: nat, price: real)
    ensures Amount(j + k, price) == Amount(j, price) + Amount(k, price)
  {
    assert (j + k) as real == j as real + k as real;
  }

  lemma AmountMonotone(k: nat, low: real, high: real)
    requires low <= high
    ensures Amount(k, low) <= Amount(k, high)
  {
  }

  /** Money exchanged on a tape. */
  function Value(tape: seq<Trade>): real {
    if tape == [] then 0.0
    else Value(tape[..|tape| - 1]) + Amount(tape[|tape| - 1].qty, tape[|tape| - 1].price)
  }

  /** What one more trade adds to a tape's totals and reports. */
  lemma {:induction false} OneMoreTrade(tape: seq<Trade>, t: Trade)
    ensures Volume(tape + [t]) == Volume(tape) + t.qty
    ensures Value(tape + [t]) == Value(tape) + Amount(t.qty, t.price)
    ensures Reports(tape + [t]) == Reports(tape) + [MakerReport(1 + |tape|, t), TakerReport(1 + |tape|, t)]
  {
    hide Amount, MakerReport, TakerReport;
    assert (tape + [t])[..|tape + [t]| - 1] == tape;
  }

  lemma {:induction false} VolumeConcat(a: seq<Trade>, b: seq<Trade>)
    ensures Volume(a + b) == Volume(a) + Volume(b)
  {
    if b == [] {
      assert a + b == a;
    } else {
      VolumeConcat(a, b[..|b| - 1]);
      assert (a + b)[..|a + b| - 1] == a + b[..|b| - 1];
    }
  }

  lemma {:induction false} ValueConcat(a: seq<Trade>, b: seq<Trade>)
    ensures Value(a + b) == Value(a) + Value(b)
  {
    hide Amount;
    if b == [] {
      assert a + b == a;
    } else {
      ValueConcat(a, b[..|b| - 1]);
      assert (a + b)[..|a + b| - 1] == a + b[..|b| - 1];
    }
  }

  lemma {:induction false} ReportsConcat(first: nat, a: seq<Trade>, b: seq<Trade>)
    ensures ReportsFrom(first, a + b) == ReportsFrom(first, a) + ReportsFrom(first + |a|, b)
  {
    if b == [] {
      assert a + b == a;
    } else {
      ReportsConcat(first, a, b[..|b| - 1]);
      assert (a + b)[..|a + b| - 1] == a + b[..|b| - 1];
    }
  }
}
