/** The documented protocol between risk engine and exchange, carried out on the objects:
    check, submit, pass on each delivered report, release what is cut off or cancelled. */
module RiskDesk {
  import opened Types
  import opened ExchangeSpec
  import opened PriceLevels
  import opened Exchanges
  import opened RiskEngines
  import opened RiskSystem

  ghost predicate Apart(ex: Exchange, risk: RiskEngine)
    reads ex, ex.Repr
  {
    ex.Valid() && risk !in ex.Repr
  }

  ghost function Both(ex: Exchange, risk: RiskEngine): System
    requires Apart(ex, risk)
    reads ex, ex.Repr, risk
  {
    System(ex.View(), risk.View())
  }

  lemma {:induction false} FilledOneMore(r: Risk, fs: seq<Report>, i: nat)
    requires i < |fs|
    ensures FilledAll(r, fs[..i + 1]) == Filled(FilledAll(r, fs[..i]), fs[i])
    decreases i
  {
    hide Filled;
    if i == 0 {
      assert fs[..1] == [fs[0]] && fs[..1][1..] == [] && fs[..0] == [];
    } else {
      assert fs[..i + 1][1..] == fs[1..][..i] && fs[..i][1..] == fs[1..][..i - 1];
      FilledOneMore(Filled(r, fs[0]), fs[1..], i - 1);
    }
  }

  /** Passes every report delivered since the first `n` on to the risk engine. */
  method PassOn(ex: Exchange, risk: RiskEngine, n: nat)
    requires Apart(ex, risk) && n <= |ex.engine.sink.delivered|
    modifies risk
    ensures Apart(ex, risk) && ex.View() == old(ex.View())
    ensures risk.View() == FilledAll(old(risk.View()), ex.engine.sink.delivered[n..])
  {
    hide Exchange.Valid, Exchange.View, Filled;
    ex.AllDelivered();
    var fs := ex.engine.sink.delivered[n..];
    var i := 0;
    while i < |fs|
      invariant 0 <= i <= |fs|
      invariant risk.View() == FilledAll(old(risk.View()), fs[..i])
    {
      FilledOneMore(old(risk.View()), fs, i);
      risk.OnFill(fs[i]);
      i := i + 1;
    }
    assert fs[..|fs|] == fs;
  }

  lemma NewlyDelivered(tape: seq<Trade>, more: seq<Trade>)
    ensures |Reports(tape)| <= |Reports(tape + more)|
    ensures Reports(tape + more)[|Reports(tape)|..] == ReportsFrom(1 + |tape|, more)
  {
    ReportsConcat(1, tape, more);
    hide ReportsFrom;
  }

  /** Submits an approved order and passes its fills on. */
  method SubmitApproved(ex: Exchange, risk: RiskEngine, order: Order)
    requires Apart(ex, risk) && order !in ex.Repr && order.filledQty <= order.quantity
    requires order.symbol in ex.View().books ==> !ex.View().books[order.symbol].Rests(order.id)
    modifies ex.Repr, risk, order
    ensures Apart(ex, risk)
    ensures var e := DoSubmit(old(ex.View()), old(order.Val()));
            && ex.View() == e.ex && order.Val() == e.order
            && risk.View() == if order.symbol in old(ex.View()).books
                              then FilledAll(old(risk.View()), NewReports(old(ex.View()), old(order.Val())))
                              else old(risk.View())
  {
    hide Exchange.Valid, Exchange.Loose, BookSpec.Submit, FilledAll, Reports, ReportsFrom;
    ex.AllDelivered();
    ex.OutsideIsLoose(order);
    var n := |ex.engine.sink.delivered|;
    ghost var tape := ex.View().tape;
    ghost var more := MoreTrades(ex.View(), order.Val());
    var _ := ex.SubmitOrder(order);
    ex.AllDelivered();
    NewlyDelivered(tape, more);
    PassOn(ex, risk, n);
    NoReports(old(risk.View()), 1 + |tape|);
  }

  ghost function MoreTrades(ex: Exch, o: Ticket): (more: seq<Trade>)
    ensures DoSubmit(ex, o).ex.tape == ex.tape + more
    ensures o.symbol in ex.books ==> NewReports(ex, o) == ReportsFrom(1 + |ex.tape|, more)
    ensures o.symbol !in ex.books ==> more == []
  {
    if o.symbol in ex.books then BookSpec.Submit(ex.books[o.symbol], o).trades else []
  }

  lemma NoReports(r: Risk, e: nat)
    ensures FilledAll(r, ReportsFrom(e, [])) == r
  {
  }

  /** An order goes through the risk check, the exchange and back, exactly as specified; so the
      invariant holds of the objects, and with it every limit. */
  method PlaceOrder(ex: Exchange, risk: RiskEngine, order: Order)
    requires Apart(ex, risk) && order !in ex.Repr && order.filledQty <= order.quantity
    requires order.symbol in ex.View().books ==> !ex.View().books[order.symbol].Rests(order.id)
    modifies ex.Repr, risk, order
    ensures Apart(ex, risk)
    ensures Both(ex, risk) == DoOrder(old(Both(ex, risk)), old(order.Val()))
    ensures SysInv(old(Both(ex, risk))) && Proper(old(Both(ex, risk)), RiskSystem.Order(old(order.Val()))) ==>
              SysInv(Both(ex, risk))
  {
    hide Exchange.Valid, Exchange.View, DoSubmit, FilledAll, Approve, Released, NewReports, SysInv, Proper, SafeDuring;
    ghost var before, step := Both(ex, risk), RiskSystem.Order(order.Val());
    if SysInv(before) && Proper(before, step) {
      StepKeeps(before, step);
    }
    var ok := risk.CheckOrder(order);
    if ok {
      SubmitApproved(ex, risk, order);
      if order.status == CANCELLED || order.status == REJECTED {
        risk.OnCancel(order.id);
      }
    }
  }

  /** Cancels an order and releases its exposure. */
  method Withdraw(ex: Exchange, risk: RiskEngine, id: nat) returns (removed: bool)
    requires Apart(ex, risk)
    modifies ex.Repr, risk
    ensures Apart(ex, risk)
    ensures Both(ex, risk) == Do(old(Both(ex, risk)), RiskSystem.Withdraw(id))
    ensures removed == DoCancel(old(ex.View()), id).1
  {
    hide Exchange.Valid, Exchange.View, DoCancel, Released;
    ghost var gone;
    removed, gone := ex.CancelOrder(id);
    risk.OnCancel(id);
  }

  method ListSymbol(ex: Exchange, risk: RiskEngine, symbol: string) returns (added: bool)
    requires Apart(ex, risk)
    modifies ex
    ensures Apart(ex, risk)
    ensures Both(ex, risk) == Do(old(Both(ex, risk)), RiskSystem.List(symbol))
    ensures added == DoAddSymbol(old(ex.View()), symbol).1
  {
    hide Exchange.Valid, Exchange.View, DoAddSymbol;
    added := ex.AddSymbol(symbol);
  }
}
