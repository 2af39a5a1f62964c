/** The multi-symbol exchange as a state machine on values, and what holds in every
    state it can reach. */
module ExchangeSpec {
  import opened Types
  import opened Sweep
  import opened BookSpec

  datatype Stats = Stats(processed: nat, submitted: nat, cancelled: nat, modified: nat, rejected: nat)

  /** `home` is the global index from order id to symbol; `tape` lists every trade so far. */
  datatype Exch = Exch(books: map<string, BookV>, home: map<nat, string>, tape: seq<Trade>, stats: Stats)

  const Start := Exch(map[], map[], [], Stats(0, 0, 0, 0, 0))

  datatype Op =
    | AddSymbol(symbol: string)
    | Submit(order: Ticket)
    | Cancel(id: nat)
    | Modify(id: nat, price: real, qty: nat)

  /** State after an operation, the operation's return value, and the submitted order's final content. */
  datatype Effect = Effect(ex: Exch, ok: bool, order: Ticket)

  /** One side of a symbol's book. */
  function RestingOf(ex: Exch, symbol: string, side: Side): seq<Ticket> {
    if symbol in ex.books then ex.books[symbol].Get(side) else []
  }

  // ------------------------------------------------------------ operations

  function DoAddSymbol(ex: Exch, symbol: string): (Exch, bool) {
    if symbol in ex.books then (ex, false)
    else (ex.(books := ex.books[symbol := BookSpec.Empty]), true)
  }

  function DoSubmit(ex: Exch, o: Ticket): Effect {
    if o.symbol !in ex.books then
      Effect(ex.(stats := ex.stats.(rejected := ex.stats.rejected + 1)), false, o.(status := REJECTED))
    else
      var r := BookSpec.Submit(ex.books[o.symbol], o);
      var home :=
        if o.kind.MARKET? then ex.home
        else if r.order.status.FILLED? then ex.home[o.id := o.symbol] - {o.id}
        else ex.home[o.id := o.symbol];
      var stats := ex.stats.(submitted := ex.stats.submitted + 1, processed := ex.stats.processed + 1);
      Effect(Exch(ex.books[o.symbol := r.book], home, ex.tape + r.trades, stats), true, r.order)
  }

  /** The global index leads to a book in which the order really rests. */
  predicate Routed(ex: Exch, id: nat) {
    id in ex.home && ex.home[id] in ex.books && ex.books[ex.home[id]].Rests(id)
  }

  function DoCancel(ex: Exch, id: nat): (Exch, bool) {
    if !Routed(ex, id) then (ex, false)
    else
      var s := ex.home[id];
      (Exch(ex.books[s := BookSpec.Cancel(ex.books[s], id)], ex.home - {id}, ex.tape,
            ex.stats.(cancelled := ex.stats.cancelled + 1)), true)
  }

  function DoModify(ex: Exch, id: nat, price: real, qty: nat): (Exch, bool) {
    if !Routed(ex, id) || qty == 0 then (ex, false)
    else
      var s := ex.home[id];
      var t := Lookup(ex.books[s], id);
      var r := BookSpec.Modify(ex.books[s], id, price, qty);
      var anew := LosesPlace(t, price, qty);
      (Exch(ex.books[s := r.book],
            if anew then ex.home[id := t.symbol] else ex.home,
            ex.tape + r.trades,
            ex.stats.(modified := ex.stats.modified + 1,
                      processed := ex.stats.processed + if anew then 1 else 0)), true)
  }

  function Apply(ex: Exch, op: Op): Exch {
    match op
    case AddSymbol(s) => DoAddSymbol(ex, s).0
    case Submit(o) => DoSubmit(ex, o).ex
    case Cancel(id) => DoCancel(ex, id).0
    case Modify(id, price, qty) => DoModify(ex, id, price, qty).0
  }

  function Run(ex: Exch, ops: seq<Op>): Exch
    decreases |ops|
  {
    if ops == [] then ex else Run(Apply(ex, ops[0]), ops[1..])
  }

  /** The trades an operation makes. */
  function TradesOf(ex: Exch, op: Op): seq<Trade> {
    match op
    case AddSymbol(_) => []
    case Submit(o) => if o.symbol in ex.books then BookSpec.Submit(ex.books[o.symbol], o).trades else []
    case Cancel(_) => []
    case Modify(id, price, qty) =>
      if Routed(ex, id) && qty != 0 then BookSpec.Modify(ex.books[ex.home[id]], id, price, qty).trades else []
  }

  /** The tape only ever grows, by the trades of each operation. */
  lemma TapeGrows(ex: Exch, op: Op)
    ensures Apply(ex, op).tape == ex.tape + TradesOf(ex, op)
  {
    hide BookSpec.Submit, BookSpec.Modify;
  }

  // ------------------------------------------------------------ reachable states

  /** No book holds an order with this id. */
  ghost predicate Idle(ex: Exch, id: nat) {
    forall s :: s in ex.books ==> !ex.books[s].Rests(id)
  }

  /** The one thing asked of callers: a submitted order is not already resting. */
  ghost predicate Allowed(ex: Exch, op: Op) {
    op.Submit? ==> Idle(ex, op.order.id)
  }

  ghost predicate Legal(ex: Exch, ops: seq<Op>)
    decreases |ops|
  {
    ops != [] ==> Allowed(ex, ops[0]) && Legal(Apply(ex, ops[0]), ops[1..])
  }

  ghost predicate OfSymbol(q: seq<Ticket>, s: string) {
    forall i :: 0 <= i < |q| ==> q[i].symbol == s
  }

  ghost predicate BookInv(b: BookV, s: string) {
    WellFormed(b) && OfSymbol(b.bids, s) && OfSymbol(b.asks, s)
  }

  /** Both parties of a trade are on opposite sides, in the same symbol, and shares move. */
  ghost predicate FairTrade(t: Trade) {
    t.makerSide == t.takerSide.Opposite() && t.makerSymbol == t.takerSymbol && 0 < t.qty
  }

  ghost predicate FairTape(tape: seq<Trade>) {
    forall i :: 0 <= i < |tape| ==> FairTrade(tape[i])
  }

  /** The invariant of reachable states. The global index may know more ids than rest
      (stale entries), never fewer and never in the wrong place. */
  ghost predicate Inv(ex: Exch) {
    && (forall s :: s in ex.books ==> BookInv(ex.books[s], s))
    && (forall s, id :: s in ex.books && ex.books[s].Rests(id) ==> id in ex.home && ex.home[id] == s)
    && FairTape(ex.tape)
  }

  lemma BookInvOf(ex: Exch, s: string)
    requires Inv(ex) && s in ex.books
    ensures BookInv(ex.books[s], s) && WellFormed(ex.books[s]) && Filed(ex.books[s])
  {
    assert BookInv(ex.books[s], s);
  }

  lemma {:induction false} SweepSymbols(taker: Ticket, makers: seq<Ticket>, s: string)
    requires Queue(makers, taker.side.Opposite()) && OfSymbol(makers, s) && taker.symbol == s
    ensures var r := Match(taker, makers); OfSymbol(r.makers, s) && FairTape(r.trades)
    decreases |makers| + taker.remaining
  {
    if !Done(taker, makers) {
      var q := Min(taker.remaining, makers[0].remaining);
      var makers' := AfterFill(makers, q);
      assert Remnant(makers', makers);
      RemnantKeepsQueue(makers', makers, taker.side.Opposite());
      SweepSymbols(taker.Take(q), makers', s);
    }
  }

  lemma SubmitSymbols(b: BookV, o: Ticket)
    requires Queue(b.Get(o.side.Opposite()), o.side.Opposite())
    requires OfSymbol(b.bids, o.symbol) && OfSymbol(b.asks, o.symbol)
    ensures var r := BookSpec.Submit(b, o);
            OfSymbol(r.book.bids, o.symbol) && OfSymbol(r.book.asks, o.symbol) && FairTape(r.trades)
  {
    hide Queue, OfSymbol, Match, Insert, BookSpec.Submit;
    var o' := o.(status := NEW);
    var opp := b.Get(o.side.Opposite());
    SweepSymbols(o', opp, o.symbol);
    InsertSymbols(b.Get(o.side), Match(o', opp).taker, o.symbol);
    SubmitSides(b, o);
  }

  lemma SubmitKeepsBookInv(b: BookV, o: Ticket)
    requires BookInv(b, o.symbol) && !b.Rests(o.id)
    ensures var r := BookSpec.Submit(b, o); BookInv(r.book, o.symbol) && FairTape(r.trades)
  {
    SubmitKeepsWellFormed(b, o);
    SubmitSymbols(b, o);
    hide BookSpec.Submit;
  }

  lemma InsertSymbols(q: seq<Ticket>, t: Ticket, s: string)
    requires OfSymbol(q, s) && t.symbol == s
    ensures OfSymbol(Insert(q, t), s)
  {
  }

  lemma CancelKeepsBookInv(b: BookV, id: nat, s: string)
    requires BookInv(b, s)
    ensures BookInv(BookSpec.Cancel(b, id), s)
  {
    CancelKeepsWellFormed(b, id);
    RemoveSymbols(b.bids, id, s);
    RemoveSymbols(b.asks, id, s);
    hide WellFormed, Remove, Find, OfSymbol;
  }

  lemma {:induction false} RemoveSymbols(q: seq<Ticket>, id: nat, s: string)
    requires OfSymbol(q, s)
    ensures OfSymbol(Remove(q, id), s)
  {
    if q != [] && q[0].id != id {
      RemoveSymbols(q[1..], id, s);
    }
  }

  lemma LookupSymbol(b: BookV, id: nat, s: string)
    requires BookInv(b, s) && b.Rests(id)
    ensures Lookup(b, id).symbol == s && Lookup(b, id).id == id
  {
  }

  lemma ModifyKeepsBookInv(b: BookV, id: nat, price: real, qty: nat, s: string)
    requires BookInv(b, s) && b.Rests(id) && 0 < qty
    ensures var r := BookSpec.Modify(b, id, price, qty);
            BookInv(r.book, s) && FairTape(r.trades)
  {
    var t := Lookup(b, id);
    LookupSymbol(b, id, s);
    ModifyKeepsWellFormed(b, id, price, qty);
    if LosesPlace(t, price, qty) {
      CancelKeepsBookInv(b, id, s);
      CancelKeepsWellFormed(b, id);
      SubmitKeepsBookInv(BookSpec.Cancel(b, id), Amended(t, price, qty));
    }
  }

  /** A modification lets no other order into the book. */
  lemma RestsAfterModify(b: BookV, id: nat, price: real, qty: nat, other: nat)
    requires WellFormed(b) && b.Rests(id) && 0 < qty
    ensures BookSpec.Modify(b, id, price, qty).book.Rests(other) ==> b.Rests(other)
  {
    var t := Lookup(b, id);
    if LosesPlace(t, price, qty) {
      CancelKeepsWellFormed(b, id);
      CancelRemovesOnly(b, id, other);
      RestsAfterSubmit(BookSpec.Cancel(b, id), Amended(t, price, qty), other);
    } else if qty < t.remaining && other != id && Shrink(b, id, qty).Rests(other) {
      assert forall i :: 0 <= i < |b.bids| ==> Shrink(b, id, qty).bids[i].id == b.bids[i].id;
      assert forall i :: 0 <= i < |b.asks| ==> Shrink(b, id, qty).asks[i].id == b.asks[i].id;
    }
  }

  lemma RestingNotFilled(b: BookV, o: Ticket)
    requires WellFormed(b) && !b.Rests(o.id)
    ensures var r := BookSpec.Submit(b, o); r.book.Rests(o.id) ==> r.order.status != FILLED
  {
    RestsAfterSubmit(b, o, o.id);
    MatchShape(o.(status := NEW), b.Get(o.side.Opposite()));
    hide Match, CanFill, Levels, Insert, WellFormed;
  }

  /** Replacing one book, and the index entry of one order that rests nowhere else. */
  lemma {:induction false} InvReplace(ex: Exch, ex': Exch, s: string, id: nat)
    requires Inv(ex) && s in ex.books && s in ex'.books
    requires ex'.books == ex.books[s := ex'.books[s]]
    requires BookInv(ex'.books[s], s) && FairTape(ex'.tape)
    requires forall t :: t in ex.books && t != s ==> !ex.books[t].Rests(id)
    requires forall i :: i != id && ex'.books[s].Rests(i) ==> ex.books[s].Rests(i)
    requires ex'.books[s].Rests(id) ==> id in ex'.home && ex'.home[id] == s
    requires ex'.home - {id} == ex.home - {id}
    ensures Inv(ex')
  {
    hide BookInv, FairTape, BookV.Rests;
    forall t, i | t in ex'.books && ex'.books[t].Rests(i)
      ensures i in ex'.home && ex'.home[i] == t
    {
      if i != id {
        assert ex.books[t].Rests(i);
        SameEntry(ex.home, ex'.home, id, i);
      }
    }
  }

  lemma SameEntry(home: map<nat, string>, home': map<nat, string>, id: nat, i: nat)
    requires home' - {id} == home - {id} && i != id
    ensures i in home <==> i in home'
    ensures i in home ==> home'[i] == home[i]
  {
    assert i in home <==> i in home - {id};
    assert i in home' <==> i in home' - {id};
  }

  lemma FairConcat(a: seq<Trade>, b: seq<Trade>)
    requires FairTape(a) && FairTape(b)
    ensures FairTape(a + b)
  {
  }

  lemma {:induction false} InvSubmit(ex: Exch, o: Ticket)
    requires Inv(ex) && Idle(ex, o.id)
    ensures Inv(DoSubmit(ex, o).ex)
  {
    hide Inv, Idle, BookSpec.Submit, BookInv, FairTape, BookV.Rests;
    var ex' := DoSubmit(ex, o).ex;
    if o.symbol in ex.books {
      SubmitFacts(ex, o);
      InvReplace(ex, ex', o.symbol, o.id);
    } else {
      InvSameBooks(ex, ex');
    }
  }

  lemma InvSameBooks(ex: Exch, ex': Exch)
    requires Inv(ex) && ex'.books == ex.books && ex'.home == ex.home && ex'.tape == ex.tape
    ensures Inv(ex')
  {
    hide BookInv, FairTape, BookV.Rests;
  }

  lemma SubmitFacts(ex: Exch, o: Ticket)
    requires Inv(ex) && Idle(ex, o.id) && o.symbol in ex.books
    ensures var b := ex.books[o.symbol];
            var r := BookSpec.Submit(b, o);
            && BookInv(r.book, o.symbol)
            && FairTape(ex.tape + r.trades)
            && (forall id :: id != o.id && r.book.Rests(id) ==> b.Rests(id))
            && (r.book.Rests(o.id) ==> o.kind.LIMIT? && r.order.status != FILLED)
            && (forall t :: t in ex.books && t != o.symbol ==> !ex.books[t].Rests(o.id))
  {
    var b := ex.books[o.symbol];
    SubmitKeepsBookInv(b, o);
    var r := BookSpec.Submit(b, o);
    FairConcat(ex.tape, r.trades);
    RestingNotFilled(b, o);
    forall id ensures id != o.id && r.book.Rests(id) ==> b.Rests(id)
              ensures r.book.Rests(o.id) ==> o.kind.LIMIT?
    {
      RestsAfterSubmit(b, o, id);
    }
  }

  lemma {:induction false} InvCancel(ex: Exch, id: nat)
    requires Inv(ex)
    ensures Inv(DoCancel(ex, id).0)
  {
    if Routed(ex, id) {
      var s := ex.home[id];
      var b := ex.books[s];
      CancelKeepsBookInv(b, id, s);
      forall other ensures BookSpec.Cancel(b, id).Rests(other) ==> other != id && b.Rests(other) {
        CancelRemovesOnly(b, id, other);
      }
      hide BookInv, BookSpec.Cancel, FairTape;
      InvReplace(ex, DoCancel(ex, id).0, s, id);
    }
  }

  lemma {:induction false} InvModify(ex: Exch, id: nat, price: real, qty: nat)
    requires Inv(ex)
    ensures Inv(DoModify(ex, id, price, qty).0)
  {
    hide Inv, BookInv, BookSpec.Modify, FairTape, Lookup, LosesPlace, BookV.Rests;
    if Routed(ex, id) && qty != 0 {
      ModifyFacts(ex, id, price, qty);
      InvReplace(ex, DoModify(ex, id, price, qty).0, ex.home[id], id);
    }
  }

  lemma {:induction false} ModifyFacts(ex: Exch, id: nat, price: real, qty: nat)
    requires Inv(ex) && Routed(ex, id) && 0 < qty
    ensures var s := ex.home[id];
            var b := ex.books[s];
            var r := BookSpec.Modify(b, id, price, qty);
            && BookInv(r.book, s) && FairTape(ex.tape + r.trades)
            && Lookup(b, id).symbol == s
            && (forall other :: r.book.Rests(other) ==> b.Rests(other))
            && (forall t :: t in ex.books && t != s ==> !ex.books[t].Rests(id))
  {
    hide BookSpec.Modify, FairTape, Lookup, BookV.Rests, WellFormed;
    var s := ex.home[id];
    var b := ex.books[s];
    var r := BookSpec.Modify(b, id, price, qty);
    BookInvOf(ex, s);
    ModifyKeepsBookInv(b, id, price, qty, s);
    FairConcat(ex.tape, r.trades);
    LookupSymbol(b, id, s);
    forall other ensures r.book.Rests(other) ==> b.Rests(other) {
      RestsAfterModify(b, id, price, qty, other);
    }
    hide BookInv;
  }

  lemma {:induction false} InvApply(ex: Exch, op: Op)
    requires Inv(ex) && Allowed(ex, op)
    ensures Inv(Apply(ex, op))
  {
    hide DoSubmit, DoCancel, DoModify;
    match op
    case AddSymbol(s) =>
    case Submit(o) => InvSubmit(ex, o);
    case Cancel(id) => InvCancel(ex, id);
    case Modify(id, price, qty) => InvModify(ex, id, price, qty);
  }

  lemma {:induction false} InvRun(ex: Exch, ops: seq<Op>)
    requires Inv(ex) && Legal(ex, ops)
    ensures Inv(Run(ex, ops))
    decreases |ops|
  {
    if ops != [] {
      InvApply(ex, ops[0]);
      InvRun(Apply(ex, ops[0]), ops[1..]);
    }
  }

  /** In every run, over all order types and times in force, no book is ever crossed. */
  lemma NeverCrossed(ops: seq<Op>, s: string)
    requires Legal(Start, ops) && s in Run(Start, ops).books
    ensures var b := Run(Start, ops).books[s]; Uncrossed(b.bids, b.asks)
  {
    InvRun(Start, ops);
  }

  /** Despite stale index entries, a cancel succeeds exactly when the order rests
      somewhere, and then removes that order and nothing else. */
  lemma {:induction false} CancelRouting(ex: Exch, id: nat, s: string, other: nat)
    requires Inv(ex) && s in ex.books
    ensures var (ex', ok) := DoCancel(ex, id);
            && (ok <==> !Idle(ex, id))
            && Idle(ex', id)
            && ex'.books.Keys == ex.books.Keys && ex'.tape == ex.tape
            && (ok && s == ex.home[id] ==> ex'.books[s] == BookSpec.Cancel(ex.books[s], id))
            && (!(ok && s == ex.home[id]) ==> ex'.books[s] == ex.books[s])
            && (other != id && ex.books[s].Rests(other) ==>
                  ex'.books[s].Rests(other) && Lookup(ex'.books[s], other) == Lookup(ex.books[s], other))
  {
    hide BookSpec.Cancel, Find, FairTape;
    if Routed(ex, id) {
      BookInvOf(ex, ex.home[id]);
      hide BookInv;
      CancelRemovesOnly(ex.books[ex.home[id]], id, other);
    }
  }

  /** Giving up a queue place equals cancelling and submitting afresh under the same id: same
      books, same trades. The global index differs at most by a stale entry for an order
      that is filled at once. */
  lemma {:induction false} ModifyIsCancelAndSubmit(ex: Exch, id: nat, price: real, qty: nat)
    requires Inv(ex) && Routed(ex, id) && 0 < qty
    requires LosesPlace(Lookup(ex.books[ex.home[id]], id), price, qty)
    ensures var t := Lookup(ex.books[ex.home[id]], id);
            var modified := DoModify(ex, id, price, qty).0;
            var afresh := DoSubmit(DoCancel(ex, id).0, Amended(t, price, qty));
            && Amended(t, price, qty).id == id && afresh.ok
            && modified.books == afresh.ex.books
            && modified.tape == afresh.ex.tape
            && modified.home - {id} == afresh.ex.home - {id}
            && (id in afresh.ex.home ==> id in modified.home && modified.home[id] == afresh.ex.home[id])
            && (id in modified.home && id !in afresh.ex.home ==> Idle(modified, id))
  {
    hide BookSpec.Submit, BookSpec.Cancel, BookInv, Inv, FairTape, LosesPlace, Find;
    var s := ex.home[id];
    var b := ex.books[s];
    var t := Lookup(b, id);
    assert BookInv(b, s) by { BookInvOf(ex, s); }
    LookupSymbol(b, id, s);
    hide Lookup;
    var ex1, o := DoCancel(ex, id).0, Amended(t, price, qty);
    assert t.kind.LIMIT? by { LimitsRest(b, id, s); }
    assert Idle(ex1, id) by { CancelledIdle(ex, id); }
    InvCancel(ex, id);
    InvSubmit(ex1, o);
    SubmitFacts(ex1, o);
  }

  lemma LimitsRest(b: BookV, id: nat, s: string)
    requires BookInv(b, s) && b.Rests(id)
    ensures Lookup(b, id).kind.LIMIT?
  {
  }

  lemma CancelledIdle(ex: Exch, id: nat)
    requires Inv(ex)
    ensures Idle(DoCancel(ex, id).0, id)
  {
    var ex' := DoCancel(ex, id).0;
    forall s | s in ex'.books ensures !ex'.books[s].Rests(id) {
      CancelRouting(ex, id, s, id);
    }
  }

  /** A run from the start that kills a fill-or-kill order although there is enough for it. */
  lemma FokKillReached(a: Ticket, c: Ticket, taker: Ticket)
    requires Resting(a, SELL) && Resting(c, SELL) && a.status.NEW? && c.status.NEW? && a.price == c.price
    requires a.remaining == c.remaining == 0x8000_0000
    requires taker.side.BUY? && taker.tif.FOK? && taker.remaining == 1 && Crosses(taker, a.price)
    requires a.id != c.id && a.id != taker.id && c.id != taker.id && a.symbol == c.symbol == taker.symbol
    ensures var ops := [AddSymbol(a.symbol), Submit(a), Submit(c)];
            var ex := Run(Start, ops);
            var killed := DoSubmit(ex, taker);
            && Legal(Start, ops) && Allowed(ex, Submit(taker))
            && a.symbol in ex.books && taker.remaining <= Liquidity(taker, ex.books[a.symbol].asks)
            && killed.order.status.CANCELLED? && killed.ex.tape == [] && killed.ex.books == ex.books
  {
    hide BookSpec.Submit, DoSubmit, Legal, Run, Liquidity, WellFormed, Crosses, Find;
    var s := a.symbol;
    var ex1 := Apply(Start, AddSymbol(s));
    OneResting(a, c);
    var ex2 := SubmittedOnly(ex1, BookSpec.Empty, BookV([], [a]), a);
    var ex3 := SubmittedOnly(ex2, BookV([], [a]), BookV([], [a, c]), c);
    FokSpuriousKill(a, c, taker);
    KilledOnly(ex3, BookV([], [a, c]), taker);
    ThreeSteps(Start, AddSymbol(s), Submit(a), Submit(c));
    RestIds(a, c);
  }

  lemma RestIds(a: Ticket, c: Ticket)
    ensures forall id :: BookV([], [a]).Rests(id) ==> id == a.id
    ensures forall id :: BookV([], [a, c]).Rests(id) ==> id == a.id || id == c.id
    ensures forall id :: !BookSpec.Empty.Rests(id)
  {
    forall id ensures Holds([a, c], id) ==> id == a.id || id == c.id {
      assert Find([a, c], id) < 2 ==> [a, c][Find([a, c], id)].id == id;
    }
  }

  lemma OneResting(a: Ticket, c: Ticket)
    requires Resting(a, SELL) && Resting(c, SELL) && a.status.NEW? && c.status.NEW? && a.price == c.price
    ensures BookSpec.Submit(BookSpec.Empty, a) == Submission(BookV([], [a]), a, [])
    ensures BookSpec.Submit(BookV([], [a]), c) == Submission(BookV([], [a, c]), c, [])
  {
    hide BookSpec.Submit;
    assert Insert([], a) == [a] && Done(a, []);
    RestsAtOnce(BookSpec.Empty, a);
    assert Insert([a], c) == [a, c] && Done(c, []) by {
      assert Insert([a][1..], c) == [c];
    }
    RestsAtOnce(BookV([], [a]), c);
  }

  /** Resting an order in an exchange of a single book. */
  lemma SubmittedOnly(ex: Exch, b: BookV, b': BookV, o: Ticket) returns (ex': Exch)
    requires ex.books == map[o.symbol := b] && BookSpec.Submit(b, o) == Submission(b', o, [])
    ensures ex' == Apply(ex, Submit(o)) && ex'.books == map[o.symbol := b'] && ex'.tape == ex.tape
  {
    hide BookSpec.Submit;
    ex' := Apply(ex, Submit(o));
    assert ex.books[o.symbol := b'] == map[o.symbol := b'];
  }

  lemma KilledOnly(ex: Exch, b: BookV, o: Ticket)
    requires ex.books == map[o.symbol := b] && BookSpec.Submit(b, o) == Submission(b, o.(status := CANCELLED), [])
    ensures var e := DoSubmit(ex, o); e.order.status.CANCELLED? && e.ex.tape == ex.tape && e.ex.books == ex.books
  {
    hide BookSpec.Submit;
  }

  lemma ThreeSteps(ex: Exch, first: Op, second: Op, third: Op)
    ensures var ex1 := Apply(ex, first);
            var ex2 := Apply(ex1, second);
            && Run(ex, [first, second, third]) == Apply(ex2, third)
            && (Legal(ex, [first, second, third])
                <==> Allowed(ex, first) && Allowed(ex1, second) && Allowed(ex2, third))
  {
    hide Run, Legal, Apply, Allowed;
    var ex1 := Apply(ex, first);
    var ex2 := Apply(ex1, second);
    FirstStep(ex, first, [second, third]);
    FirstStep(ex1, second, [third]);
    FirstStep(ex2, third, []);
    NoSteps(Apply(ex2, third));
    assert [first] + [second, third] == [first, second, third];
    assert [second] + [third] == [second, third];
    assert [third] + [] == [third];
  }

  lemma FirstStep(ex: Exch, op: Op, rest: seq<Op>)
    ensures Run(ex, [op] + rest) == Run(Apply(ex, op), rest)
    ensures Legal(ex, [op] + rest) <==> Allowed(ex, op) && Legal(Apply(ex, op), rest)
  {
    hide Apply, Allowed;
    assert ([op] + rest)[1..] == rest;
  }

  lemma NoSteps(ex: Exch)
    ensures Run(ex, []) == ex && Legal(ex, [])
  {
  }

  // ------------------------------------------------------------ answers and counts

  /** A symbol is listed once, with an empty book, and nothing else changes; a second listing is refused. */
  lemma AddSymbolOutcome(ex: Exch, symbol: string, other: string)
    ensures var (ex', ok) := DoAddSymbol(ex, symbol);
            && (ok <==> symbol !in ex.books)
            && ex'.books.Keys == ex.books.Keys + {symbol}
            && (ok ==> ex'.books[symbol].bids == [] && ex'.books[symbol].asks == [])
            && (other in ex.books ==> ex'.books[other] == ex.books[other])
            && (other != symbol ==> RestingOf(ex', other, BUY) == RestingOf(ex, other, BUY)
                                    && RestingOf(ex', other, SELL) == RestingOf(ex, other, SELL))
            && ex'.home == ex.home && ex'.tape == ex.tape && ex'.stats == ex.stats
  {
  }

  /** An order for an unlisted symbol is rejected and leaves everything but the count of
      rejections alone; any other is answered with success and touches its own book only. */
  lemma SubmitOutcome(ex: Exch, o: Ticket, other: string)
    ensures var e := DoSubmit(ex, o);
            && (e.ok <==> o.symbol in ex.books)
            && (!e.ok ==> e.order.status.REJECTED? && e.ex.books == ex.books && e.ex.home == ex.home
                          && e.ex.tape == ex.tape)
            && o.SameOrder(e.order)
            && (other in ex.books && other != o.symbol ==> other in e.ex.books && e.ex.books[other] == ex.books[other])
  {
    hide Match, CanFill, Insert, Levels;
  }

  /** A modification succeeds exactly when the order rests somewhere and shares are asked for;
      one that fails changes nothing, one that succeeds touches that order's book only. */
  lemma {:induction false} ModifyOutcome(ex: Exch, id: nat, price: real, qty: nat, s: string)
    requires Inv(ex)
    ensures var (ex', ok) := DoModify(ex, id, price, qty);
            && (ok <==> !Idle(ex, id) && qty != 0)
            && (!ok ==> ex' == ex)
            && (s in ex.books && ok && ex.books[s].Rests(id) ==>
                  ex'.books[s] == BookSpec.Modify(ex.books[s], id, price, qty).book
                  && ex'.tape == ex.tape + BookSpec.Modify(ex.books[s], id, price, qty).trades)
            && (s in ex.books && !ex.books[s].Rests(id) ==> s in ex'.books && ex'.books[s] == ex.books[s])
  {
    hide BookSpec.Modify, BookV.Rests, FairTape, BookInv, Lookup, LosesPlace;
  }

  /** What every operation adds to the statistics: submissions to listed symbols, cancels and
      modifications of resting orders, and orders for unlisted symbols are each counted once.
      An order counts as processed each time it is given to matching. */
  lemma {:induction false} OpCounts(ex: Exch, op: Op, s: string)
    requires Inv(ex)
    ensures var (was, now) := (ex.stats, Apply(ex, op).stats);
            && now.submitted == was.submitted + (if op.Submit? && op.order.symbol in ex.books then 1 else 0)
            && now.rejected == was.rejected + (if op.Submit? && op.order.symbol !in ex.books then 1 else 0)
            && now.cancelled == was.cancelled + (if op.Cancel? && !Idle(ex, op.id) then 1 else 0)
            && now.modified == was.modified + (if op.Modify? && !Idle(ex, op.id) && op.qty != 0 then 1 else 0)
            && (!op.Modify? ==> now.processed - was.processed == now.submitted - was.submitted)
            && (op.Modify? && (Idle(ex, op.id) || op.qty == 0) ==> now.processed == was.processed)
            && (op.Modify? && op.qty != 0 && s in ex.books && ex.books[s].Rests(op.id) ==>
                  var t := Lookup(ex.books[s], op.id);
                  now.processed == was.processed + if op.price != t.price || t.remaining < op.qty then 1 else 0)
  {
    hide BookSpec.Modify, BookSpec.Submit, BookSpec.Cancel, BookV.Rests, FairTape, BookInv, Lookup;
  }
}
