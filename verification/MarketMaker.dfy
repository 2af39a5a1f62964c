/** The market maker: cancels its two quotes on every tick and posts new ones around the
    mid price, skewed against its inventory. */
module MarketMakers {
  import opened Types
  import BookSpec
  import opened ExchangeSpec
  import opened PriceLevels
  import opened OrderBooks
  import opened Exchanges
  import opened TradingAgents

  datatype Config = Config(halfSpread: real, quoteQty: nat, maxPosition: int, skewFactor: real)

  const DefaultConfig := Config(0.05, 100, 500, 0.01)

  // ------------------------------------------------------------ quote prices

  /** Nearest integer, halves away from zero. */
  function Rounded(x: real): int {
    if x >= 0.0 then (x + 0.5).Floor else -((0.5 - x).Floor)
  }

  function ToCent(x: real): real {
    Rounded(x * 100.0) as real / 100.0
  }

  /** Long inventory lowers both quotes, short inventory raises them. */
  function Skew(c: Config, inventory: int): real {
    -(inventory as real / 100.0) * c.skewFactor
  }

  function BidTarget(c: Config, mid: real, inventory: int): real {
    ToCent(mid - c.halfSpread + Skew(c, inventory))
  }

  function AskTarget(c: Config, mid: real, inventory: int): real {
    ToCent(mid + c.halfSpread + Skew(c, inventory))
  }

  function QuotePrices(c: Config, mid: real, inventory: int): (real, real) {
    var (bid, ask) := (BidTarget(c, mid, inventory), AskTarget(c, mid, inventory));
    var (bid', ask') := if bid >= ask then (mid - 0.01, mid + 0.01) else (bid, ask);
    (if bid' <= 0.0 then 0.01 else bid', ask')
  }

  lemma CentGap(m: int, n: int)
    requires m < n && n as real / 100.0 <= 0.01
    ensures m as real / 100.0 <= 0.0
  {
    assert n as real <= 1.0;
  }

  /** The quotes are meant never to cross. At a positive mid price they do, exactly when the
      ask is a cent or less and above the bid: then the bid alone is raised to one cent. */
  lemma QuotesCrossWhen(c: Config, mid: real, inventory: int)
    requires 0.0 < mid
    ensures var (bid, ask) := QuotePrices(c, mid, inventory);
            bid >= ask <==> BidTarget(c, mid, inventory) < AskTarget(c, mid, inventory) <= 0.01
  {
    hide Rounded, Skew;
    var bid, ask := BidTarget(c, mid, inventory), AskTarget(c, mid, inventory);
    if bid < ask <= 0.01 {
      CentGap(Rounded((mid - c.halfSpread + Skew(c, inventory)) * 100.0),
              Rounded((mid + c.halfSpread + Skew(c, inventory)) * 100.0));
    }
  }

  /** With the default settings, a mid price of one cent and 499 shares held, both quotes are one cent. */
  lemma QuotesMeet()
    ensures QuotePrices(DefaultConfig, 0.01, 499) == (0.01, 0.01)
  {
    assert Skew(DefaultConfig, 499) == -0.0499;
    assert Rounded(0.01 * 100.0 - 8.99 - 1.0) == -9;
    assert Rounded(1.01) == 1;
  }

  /** Prices are rounded to the nearest whole cent, and half a cent away from zero. */
  lemma NearestCent(x: real)
    ensures var (cents, exact) := (ToCent(x) * 100.0, x * 100.0);
            && cents == cents.Floor as real
            && -0.5 <= cents - exact <= 0.5
            && (cents - exact == 0.5 ==> 0.0 < exact)
            && (cents - exact == -0.5 ==> exact < 0.0)
  {
    assert ToCent(x) * 100.0 == Rounded(x * 100.0) as real;
  }

  /** Every hundred shares held move the quotes down by the skew factor, every hundred shares
      owed move them up by it. */
  lemma SkewLeans(c: Config, inventory: int)
    ensures 100.0 * Skew(c, inventory) == -(inventory as real) * c.skewFactor
    ensures 0.0 < c.skewFactor && inventory < 0 ==> 0.0 < Skew(c, inventory)
    ensures 0.0 < c.skewFactor && 0 < inventory ==> Skew(c, inventory) < 0.0
  {
    var k := inventory as real;
    assert -(k / 100.0) * c.skewFactor * 100.0 == -k * c.skewFactor;
  }

  lemma Nearer(x: real)
    ensures -0.005 <= ToCent(x) - x <= 0.005
    ensures ToCent(x) <= 0.0 <==> x < 0.005
    ensures 0.0 < ToCent(x) ==> 0.01 <= ToCent(x)
  {
    NearestCent(x);
    hide ToCent;
  }

  lemma CentsApart(x: real, y: real)
    requires x + 0.01 < y
    ensures ToCent(x) < ToCent(y)
  {
    Nearer(x);
    Nearer(y);
    hide ToCent;
  }

  /** A spread of more than a cent is quoted, to the nearest cent, around the mid price moved by
      the skew; only a bid that would not be positive is one cent instead. */
  lemma QuotesAroundSkewedMid(c: Config, mid: real, inventory: int)
    requires 0.005 < c.halfSpread
    ensures var (bid, ask) := QuotePrices(c, mid, inventory);
            var around := mid - (inventory as real / 100.0) * c.skewFactor;
            && -0.005 <= ask - (around + c.halfSpread) <= 0.005
            && (0.005 <= around - c.halfSpread ==> -0.005 <= bid - (around - c.halfSpread) <= 0.005)
            && (around - c.halfSpread < 0.005 ==> bid == 0.01)
  {
    hide ToCent;
    var around := mid - (inventory as real / 100.0) * c.skewFactor;
    assert Skew(c, inventory) == around - mid by { MovedBy(inventory as real / 100.0, c.skewFactor); }
    hide Skew;
    CentsApart(around - c.halfSpread, around + c.halfSpread);
    Nearer(around - c.halfSpread);
    Nearer(around + c.halfSpread);
  }

  lemma MovedBy(k: real, f: real)
    ensures (-k) * f == -(k * f)
  {
  }

  /** Quotes that would meet or cross are put a cent to either side of the mid price instead. */
  lemma MeetingQuotesPartAtMid(c: Config, mid: real, inventory: int)
    requires var skew := Skew(c, inventory);
             ToCent(mid + c.halfSpread + skew) <= ToCent(mid - c.halfSpread + skew)
    ensures QuotePrices(c, mid, inventory) == (if mid <= 0.01 then 0.01 else mid - 0.01, mid + 0.01)
  {
    hide ToCent, Skew;
  }

  /** With the default settings a mid price of `n` cents is quoted five cents to either side, and
      every hundred shares held take a cent off both quotes. */
  lemma DefaultQuotes(n: nat, lots: int)
    requires 5 + lots < n
    ensures QuotePrices(DefaultConfig, n as real / 100.0, 100 * lots)
            == ((n - 5 - lots) as real / 100.0, (n + 5 - lots) as real / 100.0)
  {
    hide Rounded;
    assert Skew(DefaultConfig, 100 * lots) == -(lots as real / 100.0);
    WholeCents(n - 5 - lots);
    WholeCents(n + 5 - lots);
  }

  lemma WholeCents(k: int)
    ensures ToCent(k as real / 100.0) == k as real / 100.0
  {
    NearestCent(k as real / 100.0);
    hide ToCent;
    assert (ToCent(k as real / 100.0) * 100.0).Floor == k;
  }

  // ------------------------------------------------------------ one tick

  /** The market maker's state; `counter` numbers its orders, and 0 stands for no live quote. */
  datatype Maker = Maker(cfg: Config, trader: nat, symbol: string, books: Account, history: Samples,
                         counter: nat, bidId: nat, askId: nat)

  function Quote(m: Maker, id: nat, side: Side, price: real): Ticket {
    Ticket(id, m.trader, m.symbol, side, LIMIT, GTC, price, 0, m.cfg.quoteQty, NEW)
  }

  function Withdrawn(ex: Exch, id: nat): Exch {
    if id == 0 then ex else DoCancel(ex, id).0
  }

  function MayBuy(m: Maker): bool {
    m.books.inventory < m.cfg.maxPosition
  }

  function MaySell(m: Maker): bool {
    m.books.inventory > -m.cfg.maxPosition
  }

  /** New quotes after the old ones are gone: a side is left out at its position limit. */
  function Requoted(m: Maker, mid: real): (Maker, seq<Ticket>) {
    var (bid, ask) := QuotePrices(m.cfg, mid, m.books.inventory);
    var c1 := m.counter + if MayBuy(m) then 1 else 0;
    var c2 := c1 + if MaySell(m) then 1 else 0;
    var bidId := if MayBuy(m) then OrderId(m.trader, c1) else 0;
    var askId := if MaySell(m) then OrderId(m.trader, c2) else 0;
    (m.(counter := c2, bidId := bidId, askId := askId),
     (if MayBuy(m) then [Quote(m, bidId, BUY, bid)] else [])
     + (if MaySell(m) then [Quote(m, askId, SELL, ask)] else []))
  }

  /** A bid is quoted exactly while fewer shares are held than the position limit, an ask exactly
      while fewer are owed; each for the configured quantity, at its own side's price, and under
      the next number in line. */
  lemma QuotesWithinLimit(m: Maker, mid: real)
    ensures var ((m', qs), (bid, ask)) := (Requoted(m, mid), QuotePrices(m.cfg, mid, m.books.inventory));
            var (buys, sells) := (m.books.inventory < m.cfg.maxPosition, -m.cfg.maxPosition < m.books.inventory);
            && |qs| == (if buys then 1 else 0) + (if sells then 1 else 0)
            && m'.counter == m.counter + |qs|
            && (buys ==> qs[0].side.BUY? && qs[0].price == bid && m'.bidId == OrderId(m.trader, m.counter + 1))
            && (sells ==> qs[|qs| - 1].side.SELL? && qs[|qs| - 1].price == ask
                          && m'.askId == OrderId(m.trader, m'.counter))
            && (!buys ==> m'.bidId == 0) && (!sells ==> m'.askId == 0)
            && (forall i :: 0 <= i < |qs| ==>
                  && qs[i].id == (if qs[i].side.BUY? then m'.bidId else m'.askId)
                  && qs[i].filled == 0 && qs[i].remaining == m.cfg.quoteQty
                  && qs[i].kind.LIMIT? && qs[i].tif.GTC? && qs[i].status.NEW?
                  && qs[i].trader == m.trader && qs[i].symbol == m.symbol)
            && m' == m.(counter := m'.counter, bidId := m'.bidId, askId := m'.askId)
  {
    hide QuotePrices, OrderId;
  }

  /** One tick: state, exchange, and the quotes handed back for submission. */
  function Tick(m: Maker, ex: Exch, mid: real): (Maker, Exch, seq<Ticket>) {
    if mid <= 0.0 then (m, ex, [])
    else
      var history := Sample(m.history, TotalPnl(m.books, mid));
      var (m', quotes) := Requoted(m.(history := history, bidId := 0, askId := 0), mid);
      (m', Withdrawn(Withdrawn(ex, m.bidId), m.askId), quotes)
  }

  /** Without a positive mid price nothing happens. With one, the profit is sampled before any
      quote moves, and neither old quote is left in any book. */
  lemma {:induction false} TickOutcome(m: Maker, ex: Exch, mid: real)
    requires Inv(ex)
    ensures var (m', ex', quotes) := Tick(m, ex, mid);
            && (mid <= 0.0 ==> m' == m && ex' == ex && quotes == [])
            && (0.0 < mid ==>
                  && ex'.tape == ex.tape && m'.books == m.books
                  && (m.bidId != 0 ==> Idle(ex', m.bidId)) && (m.askId != 0 ==> Idle(ex', m.askId))
                  && m'.history.last == TotalPnl(m.books, mid)
                  && |m'.history.steps| == |m.history.steps| + 1)
  {
    hide Inv, DoCancel, Idle, QuotePrices, OrderId, TotalPnl;
    WithdrawnIdle(ex, m.bidId, m.askId);
    WithdrawnIdle(Withdrawn(ex, m.bidId), m.askId, m.bidId);
  }

  /** A withdrawn order rests nowhere, and no other order comes to rest. */
  lemma {:induction false} WithdrawnIdle(ex: Exch, id: nat, other: nat)
    requires Inv(ex)
    ensures var ex' := Withdrawn(ex, id);
            && Inv(ex') && ex'.tape == ex.tape
            && (id != 0 ==> Idle(ex', id)) && (Idle(ex, other) ==> Idle(ex', other))
  {
    if id != 0 {
      InvCancel(ex, id);
      CancelledIdle(ex, id);
      if Idle(ex, other) {
        StaysIdle(ex, id, other);
      }
      hide Inv, Idle;
      TapeGrows(ex, ExchangeSpec.Cancel(id));
    }
  }

  lemma {:induction false} StaysIdle(ex: Exch, id: nat, other: nat)
    requires Inv(ex) && Idle(ex, other)
    ensures Idle(DoCancel(ex, id).0, other)
  {
    hide BookSpec.Cancel, BookSpec.BookV.Rests, FairTape;
    if Routed(ex, id) && other != id {
      BookInvOf(ex, ex.home[id]);
      BookSpec.CancelRemovesOnly(ex.books[ex.home[id]], id, other);
    } else if other == id {
      CancelledIdle(ex, id);
    }
  }

  // ------------------------------------------------------------ the market maker object

  class MarketMaker {
    const ex: Exchange
    const cfg: Config
    const agent: TradingAgent
    var symbol: string
    var activeBidId: nat
    var activeAskId: nat

    constructor (traderId: nat, ex: Exchange, cfg: Config)
      requires ex.Valid()
      ensures this.ex == ex && fresh(agent) && Valid()
      ensures View() == Maker(cfg, traderId, "AAPL", Flat, NoSamples, 0, 0, 0)
    {
      this.ex, this.cfg := ex, cfg;
      agent := new TradingAgent(traderId);
      symbol := "AAPL";
      activeBidId, activeAskId := 0, 0;
    }

    ghost predicate Valid()
      reads ex, ex.Repr
    {
      ex.Valid() && this !in ex.Repr && agent !in ex.Repr
    }

    ghost function View(): Maker
      reads this, agent
    {
      Maker(cfg, agent.traderId, symbol, agent.Books(), agent.History(), agent.idCounter, activeBidId, activeAskId)
    }

    method SetSymbol(symbol: string)
      modifies `symbol
      ensures View() == old(View()).(symbol := symbol)
    {
      this.symbol := symbol;
    }

    /** A fill of one of this maker's orders. */
    method OnFill(r: Report)
      requires Valid()
      modifies agent
      ensures Valid() && View() == old(View()).(books := Record(old(View()).books, Fill(r.side, r.price, r.qty)))
    {
      agent.RecordFill(r);
    }

    method WithdrawQuotes()
      requires Valid()
      modifies this, ex.Repr
      ensures Valid() && activeBidId == activeAskId == 0 && symbol == old(symbol) && ex.Repr == old(ex.Repr)
      ensures ex.View() == Withdrawn(Withdrawn(old(ex.View()), old(activeBidId)), old(activeAskId))
    {
      hide Exchange.Valid, Exchange.View, DoCancel;
      if activeBidId != 0 {
        var _, _ := ex.CancelOrder(activeBidId);
        activeBidId := 0;
      }
      if activeAskId != 0 {
        var _, _ := ex.CancelOrder(activeAskId);
        activeAskId := 0;
      }
    }

    method NewQuote(side: Side, price: real) returns (order: Order)
      requires Valid()
      modifies this, agent
      ensures Valid() && fresh(order)
      ensures var m := old(View());
              var id := OrderId(m.trader, m.counter + 1);
              && order.Val() == Quote(m, id, side, price)
              && View() == m.(counter := m.counter + 1, bidId := if side.BUY? then id else m.bidId,
                              askId := if side.SELL? then id else m.askId)
      ensures agent.orderCount == old(agent.orderCount) + 1
    {
      hide Exchange.Valid;
      var id := agent.NextOrderId();
      order := new Order(id, agent.traderId, symbol, side, LIMIT, GTC, price, cfg.quoteQty);
      if side.BUY? {
        activeBidId := id;
      } else {
        activeAskId := id;
      }
    }

    /** Where the two quotes belong. */
    method PriceQuotes(mid: real) returns (bidPrice: real, askPrice: real)
      ensures (bidPrice, askPrice) == QuotePrices(cfg, mid, agent.inventory)
    {
      hide Rounded;
      var skew := -(agent.inventory as real / 100.0) * cfg.skewFactor;
      assert skew == Skew(cfg, agent.inventory);
      bidPrice := mid - cfg.halfSpread + skew;
      askPrice := mid + cfg.halfSpread + skew;
      bidPrice := Rounded(bidPrice * 100.0) as real / 100.0;
      askPrice := Rounded(askPrice * 100.0) as real / 100.0;
      assert bidPrice == BidTarget(cfg, mid, agent.inventory) && askPrice == AskTarget(cfg, mid, agent.inventory);
      hide BidTarget, AskTarget;
      if bidPrice >= askPrice {
        bidPrice := mid - 0.01;
        askPrice := mid + 0.01;
      }
      if bidPrice <= 0.0 {
        bidPrice := 0.01;
      }
    }

    method Requote(mid: real) returns (quotes: seq<Order>)
      requires Valid() && activeBidId == activeAskId == 0
      modifies this, agent
      ensures Valid() && (forall i :: 0 <= i < |quotes| ==> fresh(quotes[i]) && quotes[i].filledQty == 0)
      ensures (View(), Vals(quotes)) == Requoted(old(View()), mid)
      ensures agent.orderCount == old(agent.orderCount) + |quotes|
    {
      hide Exchange.Valid, QuotePrices;
      var bidPrice, askPrice := PriceQuotes(mid);
      hide Exchange.View, OrderId;
      quotes := [];
      if agent.inventory < cfg.maxPosition {
        var bid := NewQuote(BUY, bidPrice);
        quotes := quotes + [bid];
      }
      assert Vals(quotes) == if MayBuy(old(View())) then [Quote(old(View()), activeBidId, BUY, bidPrice)] else [];
      if agent.inventory > -cfg.maxPosition {
        var ask := NewQuote(SELL, askPrice);
        quotes := quotes + [ask];
      }
      assert View() == Requoted(old(View()), mid).0;
      assert Vals(quotes) == Requoted(old(View()), mid).1;
    }

    /** Repositions the quotes around the book's mid price; nothing happens without one. */
    method OnTick(book: OrderBook) returns (quotes: seq<Order>)
      requires Valid()
      modifies this, agent, ex.Repr
      ensures Valid() && ex.Repr == old(ex.Repr)
      ensures forall i :: 0 <= i < |quotes| ==> fresh(quotes[i]) && quotes[i].filledQty == 0
      ensures (View(), ex.View(), Vals(quotes)) == Tick(old(View()), old(ex.View()), old(book.MidPrice()))
      ensures agent.orderCount == old(agent.orderCount) + |quotes|
    {
      hide Exchange.Valid, Exchange.View, DoCancel, Requoted, OrderBook.MidPrice, Sample, TotalPnl;
      var mid := book.MidPrice();
      if mid <= 0.0 {
        quotes := [];
      } else {
        agent.RecordPnlSample(mid);
        WithdrawQuotes();
        quotes := Requote(mid);
      }
    }
  }
}
