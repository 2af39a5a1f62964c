/** The simulation loop around the market maker, carried out on the objects: tick, submit the
    quotes handed back, and pass each delivered report to the trader it is addressed to. */
module MakerDesk {
  import opened Types
  import opened ExchangeSpec
  import opened PriceLevels
  import opened OrderBooks
  import opened Exchanges
  import opened TradingAgents
  import opened MarketMakers
  import opened MakerRuns
  import RiskDesk

  ghost function DeskOf(mm: MarketMaker, pending: seq<Ticket>): Desk
    requires mm.Valid()
    reads mm, mm.agent, mm.ex, mm.ex.Repr
  {
    Desk(mm.ex.View(), mm.View(), pending)
  }

  lemma {:induction false} HeardOneMore(a: Account, rs: seq<Report>, trader: nat, i: nat)
    requires i < |rs|
    ensures Heard(a, rs[..i + 1], trader)
            == var b := Heard(a, rs[..i], trader);
               if rs[i].trader == trader then Record(b, Fill(rs[i].side, rs[i].price, rs[i].qty)) else b
    decreases i
  {
    hide Record;
    if i == 0 {
      assert rs[..1] == [rs[0]] && rs[..1][1..] == [] && rs[..0] == [];
    } else {
      assert rs[..i + 1][1..] == rs[1..][..i] && rs[..i][1..] == rs[1..][..i - 1];
      var f := Fill(rs[0].side, rs[0].price, rs[0].qty);
      HeardOneMore(if rs[0].trader == trader then Record(a, f) else a, rs[1..], trader, i - 1);
    }
  }

  /** Passes those of the reports delivered since the first `n` that are addressed to the maker
      on to it. */
  method PassOn(mm: MarketMaker, n: nat)
    requires mm.Valid() && n <= |mm.ex.engine.sink.delivered|
    modifies mm.agent
    ensures mm.Valid() && mm.ex.View() == old(mm.ex.View())
    ensures mm.View() == old(mm.View()).(books :=
              Heard(old(mm.View()).books, mm.ex.engine.sink.delivered[n..], mm.agent.traderId))
  {
    hide Exchange.Valid, Exchange.View, Record;
    mm.ex.AllDelivered();
    var rs := mm.ex.engine.sink.delivered[n..];
    var i := 0;
    while i < |rs|
      invariant 0 <= i <= |rs|
      invariant mm.View() == old(mm.View()).(books := Heard(old(mm.View()).books, rs[..i], mm.agent.traderId))
    {
      HeardOneMore(old(mm.View()).books, rs, mm.agent.traderId, i);
      if rs[i].trader == mm.agent.traderId {
        mm.OnFill(rs[i]);
      }
      i := i + 1;
    }
    assert rs[..|rs|] == rs;
  }

  lemma TradesDelivered(ex: Exch, op: Op)
    ensures |Reports(ex.tape)| <= |Reports(Apply(ex, op).tape)|
    ensures Reports(Apply(ex, op).tape)[|Reports(ex.tape)|..] == ReportsFrom(1 + |ex.tape|, TradesOf(ex, op))
  {
    hide Apply, TradesOf, Reports, ReportsFrom;
    TapeGrows(ex, op);
    RiskDesk.NewlyDelivered(ex.tape, TradesOf(ex, op));
  }

  /** Anybody's order is submitted and the maker hears of its fills. */
  method SubmitAndTell(mm: MarketMaker, order: Order)
    requires mm.Valid() && order !in mm.ex.Repr && order.filledQty <= order.quantity
    requires order.symbol in mm.ex.View().books ==> !mm.ex.View().books[order.symbol].Rests(order.id)
    modifies mm.ex.Repr, mm.agent, order
    ensures mm.Valid() && fresh(mm.ex.Repr - old(mm.ex.Repr) - {order})
    ensures DeskOf(mm, []) == Hear(old(DeskOf(mm, [])), Submit(old(order.Val())))
  {
    hide Exchange.Valid, Exchange.Loose, DoSubmit, TradesOf, Reports, ReportsFrom, Heard;
    mm.ex.AllDelivered();
    mm.ex.OutsideIsLoose(order);
    TradesDelivered(mm.ex.View(), Submit(order.Val()));
    var n := |mm.ex.engine.sink.delivered|;
    var _ := mm.ex.SubmitOrder(order);
    mm.ex.AllDelivered();
    PassOn(mm, n);
  }

  /** Anybody's modification likewise. */
  method ModifyAndTell(mm: MarketMaker, id: nat, price: real, qty: nat) returns (ok: bool)
    requires mm.Valid()
    modifies mm.ex.Repr, mm.agent
    ensures mm.Valid() && fresh(mm.ex.Repr - old(mm.ex.Repr))
    ensures DeskOf(mm, []) == Hear(old(DeskOf(mm, [])), Modify(id, price, qty))
  {
    hide Exchange.Valid, Exchange.View, DoModify, TradesOf, Reports, ReportsFrom, Heard;
    mm.ex.AllDelivered();
    TradesDelivered(mm.ex.View(), Modify(id, price, qty));
    var n := |mm.ex.engine.sink.delivered|;
    ok := mm.ex.ModifyOrder(id, price, qty);
    mm.ex.AllDelivered();
    PassOn(mm, n);
  }

  // ------------------------------------------------------------ one turn of the loop

  function Posts(n: nat): seq<Move> {
    seq(n, _ => Post)
  }

  lemma {:induction false} OneMoreMove(d: Desk, moves: seq<Move>, move: Move)
    ensures GoAll(d, moves + [move]) == Go(GoAll(d, moves), move)
    decreases |moves|
  {
    hide Go;
    if moves == [] {
      assert [] + [move] == [move] && [move][1..] == [];
    } else {
      TailOfConcat(moves, [move]);
      OneMoreMove(Go(d, moves[0]), moves[1..], move);
    }
  }

  lemma PostNext(d: Desk, d': Desk)
    requires d.pending != [] && d' == Hear(d.(pending := []), Submit(d.pending[0]))
    ensures Go(d, Post) == d'.(pending := d.pending[1..])
  {
  }

  lemma TurnSoFar(d: Desk, mid: real, i: nat)
    ensures GoAll(d, [OnTick(mid)] + Posts(i + 1)) == Go(GoAll(d, [OnTick(mid)] + Posts(i)), Post)
    ensures GoAll(d, [OnTick(mid)] + Posts(0)) == Go(d, OnTick(mid))
  {
    OneMoreMove(d, [OnTick(mid)] + Posts(i), Post);
    assert [OnTick(mid)] + Posts(i) + [Post] == [OnTick(mid)] + Posts(i + 1);
    OneMoreMove(d, [], OnTick(mid));
    assert [OnTick(mid)] + Posts(0) == [] + [OnTick(mid)];
  }

  lemma MayPost(d: Desk)
    requires DeskInv(d) && d.pending != []
    ensures var o := d.pending[0]; o.symbol in d.ex.books ==> !d.ex.books[o.symbol].Rests(o.id)
    ensures forall i :: 0 < i < |d.pending| ==> d.pending[i].id != d.pending[0].id
  {
    assert ReadyQuote(d, d.pending[0]);
  }

  /** Submits one of the quotes handed back. */
  method PostQuote(mm: MarketMaker, quotes: seq<Order>, i: nat)
    requires mm.Valid() && i < |quotes| && DeskInv(DeskOf(mm, Vals(quotes[i..])))
    requires forall j :: i <= j < |quotes| ==> quotes[j] !in mm.ex.Repr && quotes[j].filledQty == 0
    modifies mm.ex.Repr, mm.agent, quotes[i]
    ensures mm.Valid() && forall j :: i < j < |quotes| ==> quotes[j] !in mm.ex.Repr && quotes[j].filledQty == 0
    ensures fresh(mm.ex.Repr - old(mm.ex.Repr) - {quotes[i]})
    ensures DeskOf(mm, Vals(quotes[i + 1..])) == Go(old(DeskOf(mm, Vals(quotes[i..]))), Post)
    ensures DeskInv(DeskOf(mm, Vals(quotes[i + 1..])))
  {
    hide Exchange.Valid, Exchange.View, DeskInv, Go, Hear;
    ghost var d := DeskOf(mm, Vals(quotes[i..]));
    MayPost(d);
    assert forall j :: i < j < |quotes| ==> quotes[j].Val() == d.pending[j - i];
    SubmitAndTell(mm, quotes[i]);
    assert Vals(quotes[i + 1..]) == d.pending[1..];
    PostNext(d, DeskOf(mm, []));
    PostKeeps(d);
  }

  /** Submits all the quotes of a tick that has led from `d` to here. */
  method PostQuotes(mm: MarketMaker, quotes: seq<Order>, ghost d: Desk, ghost mid: real)
    requires mm.Valid() && DeskInv(DeskOf(mm, Vals(quotes))) && DeskOf(mm, Vals(quotes)) == Go(d, OnTick(mid))
    requires forall j :: 0 <= j < |quotes| ==> quotes[j] !in mm.ex.Repr && quotes[j].filledQty == 0
    modifies mm.ex.Repr, mm.agent, quotes
    ensures mm.Valid() && DeskInv(DeskOf(mm, []))
    ensures DeskOf(mm, []) == GoAll(d, [OnTick(mid)] + Posts(|quotes|))
  {
    hide Exchange.Valid, Exchange.View, DeskInv, GoAll, Go, Posts;
    assert Vals(quotes[0..]) == Vals(quotes);
    TurnSoFar(d, mid, 0);
    var i := 0;
    while i < |quotes|
      invariant 0 <= i <= |quotes| && mm.Valid()
      invariant forall j :: i <= j < |quotes| ==> quotes[j] !in mm.ex.Repr && quotes[j].filledQty == 0
      invariant fresh(mm.ex.Repr - old(mm.ex.Repr) - (set q | q in quotes))
      invariant DeskInv(DeskOf(mm, Vals(quotes[i..])))
      invariant DeskOf(mm, Vals(quotes[i..])) == GoAll(d, [OnTick(mid)] + Posts(i))
    {
      PostQuote(mm, quotes, i);
      TurnSoFar(d, mid, i);
      i := i + 1;
    }
    assert Vals(quotes[i..]) == [];
  }

  /** One turn of the loop: a tick and the submission of its quotes. It does to the objects what
      the specified moves do, and so keeps the position bound. */
  method Turn(mm: MarketMaker, book: OrderBook) returns (ghost posted: nat)
    requires mm.Valid() && DeskInv(DeskOf(mm, [])) && mm.agent.idCounter + 2 < TWO_TO_32
    modifies mm, mm.agent, mm.ex.Repr
    ensures mm.Valid() && DeskInv(DeskOf(mm, []))
    ensures DeskOf(mm, []) == GoAll(old(DeskOf(mm, [])), [OnTick(old(book.MidPrice()))] + Posts(posted))
    ensures Bounded(mm.View(), mm.agent.inventory)
  {
    hide Exchange.Valid, Exchange.View, DeskInv, Tick, GoAll, Posts, Bounded, OrderBook.MidPrice;
    ghost var d, mid := DeskOf(mm, []), book.MidPrice();
    MoveKeeps(d, OnTick(mid));
    var quotes := mm.OnTick(book);
    posted := |quotes|;
    PostQuotes(mm, quotes, d, mid);
    Settled(DeskOf(mm, []));
  }

  lemma Settled(d: Desk)
    requires DeskInv(d)
    ensures Bounded(d.maker, d.maker.books.inventory)
  {
    CoveredBounded(d);
  }
}
