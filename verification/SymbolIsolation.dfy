/** Symbols do not influence one another: what happens in one symbol's book is what
    would happen on an exchange that only ever saw that symbol. */
module SymbolIsolation {
  import opened Types
  import opened Sweep
  import opened BookSpec
  import opened ExchangeSpec

  /** Which symbol each order id belongs to, for ids that are never reused. */
  type Labels = nat -> string

  /** Submissions carry the symbol their id is labelled with. */
  predicate Labelled(op: Op, of: Labels) {
    op.Submit? ==> of(op.order.id) == op.order.symbol
  }

  predicate Concerns(op: Op, of: Labels, s: string) {
    match op
    case AddSymbol(t) => t == s
    case Submit(o) => o.symbol == s
    case Cancel(id) => of(id) == s
    case Modify(id, _, _) => of(id) == s
  }

  function Project(ops: seq<Op>, of: Labels, s: string): seq<Op> {
    if ops == [] then []
    else (if Concerns(ops[0], of, s) then [ops[0]] else []) + Project(ops[1..], of, s)
  }

  ghost predicate IndexLabelled(ex: Exch, of: Labels) {
    forall id :: id in ex.home ==> ex.home[id] == of(id)
  }

  /** `one` agrees with `ex` on everything that concerns symbol `s`. */
  ghost predicate Agree(ex: Exch, one: Exch, of: Labels, s: string) {
    && (s in ex.books <==> s in one.books)
    && (s in ex.books ==> ex.books[s] == one.books[s])
    && (forall id :: of(id) == s ==> (id in ex.home <==> id in one.home))
    && IndexLabelled(ex, of) && IndexLabelled(one, of)
  }

  /** A book's order carries the label of the index entry that leads to it. */
  lemma RoutedSymbol(ex: Exch, id: nat)
    requires Inv(ex) && Routed(ex, id)
    ensures var t := Lookup(ex.books[ex.home[id]], id); t.symbol == ex.home[id] && t.id == id
  {
    LookupSymbol(ex.books[ex.home[id]], id, ex.home[id]);
  }

  lemma SubmitStep(ex: Exch, one: Exch, o: Ticket, of: Labels, s: string)
    requires Agree(ex, one, of, s) && of(o.id) == o.symbol
    ensures o.symbol == s ==> Agree(DoSubmit(ex, o).ex, DoSubmit(one, o).ex, of, s)
    ensures o.symbol != s ==> Agree(DoSubmit(ex, o).ex, one, of, s)
  {
    hide BookSpec.Submit;
  }

  lemma CancelStep(ex: Exch, one: Exch, id: nat, of: Labels, s: string)
    requires Agree(ex, one, of, s)
    ensures of(id) == s ==> Agree(DoCancel(ex, id).0, DoCancel(one, id).0, of, s)
    ensures of(id) != s ==> Agree(DoCancel(ex, id).0, one, of, s)
  {
    hide BookSpec.Cancel;
  }

  /** When the index stays as it is, only the books matter. */
  lemma AgreeByBooks(ex: Exch, one: Exch, ex': Exch, one': Exch, of: Labels, s: string)
    requires Agree(ex, one, of, s) && ex'.home == ex.home && one'.home == one.home
    requires s in ex'.books <==> s in one'.books
    requires s in ex'.books ==> ex'.books[s] == one'.books[s]
    ensures Agree(ex', one', of, s)
  {
  }

  /** A modification acts on the book its label names and leaves the index alone. */
  lemma ModifyWithin(ex: Exch, id: nat, price: real, qty: nat)
    requires Routed(ex, id) ==> Lookup(ex.books[ex.home[id]], id).symbol == ex.home[id]
    ensures var ex' := DoModify(ex, id, price, qty).0;
            && ex'.home == ex.home
            && ex'.books == if Routed(ex, id) && qty != 0
                 then ex.books[ex.home[id] := BookSpec.Modify(ex.books[ex.home[id]], id, price, qty).book]
                 else ex.books
  {
    hide BookSpec.Modify, LosesPlace, Lookup, BookV.Rests;
    if Routed(ex, id) {
      assert ex.home[id := ex.home[id]] == ex.home;
    }
  }

  lemma ModifyStep(ex: Exch, one: Exch, id: nat, price: real, qty: nat, of: Labels, s: string)
    requires Inv(ex) && Agree(ex, one, of, s)
    ensures of(id) == s ==> Agree(DoModify(ex, id, price, qty).0, DoModify(one, id, price, qty).0, of, s)
    ensures of(id) != s ==> Agree(DoModify(ex, id, price, qty).0, one, of, s)
  {
    var ex', one' := DoModify(ex, id, price, qty).0, DoModify(one, id, price, qty).0;
    if Routed(ex, id) {
      RoutedSymbol(ex, id);
    }
    hide DoModify, Inv, BookSpec.Modify, Lookup, BookV.Rests;
    ModifyWithin(ex, id, price, qty);
    if of(id) == s {
      ModifyWithin(one, id, price, qty);
      AgreeByBooks(ex, one, ex', one', of, s);
    } else {
      AgreeByBooks(ex, one, ex', one, of, s);
    }
  }

  lemma {:induction false} Step(ex: Exch, one: Exch, op: Op, of: Labels, s: string)
    requires Inv(ex) && Agree(ex, one, of, s) && Labelled(op, of)
    ensures Agree(Apply(ex, op), if Concerns(op, of, s) then Apply(one, op) else one, of, s)
  {
    hide Inv, DoSubmit, DoCancel, DoModify;
    match op
    case AddSymbol(t) =>
    case Submit(o) => SubmitStep(ex, one, o, of, s);
    case Cancel(id) => CancelStep(ex, one, id, of, s);
    case Modify(id, price, qty) => ModifyStep(ex, one, id, price, qty, of, s);
  }

  // ------------------------------------------------------------ trades

  /** The trades of one symbol. */
  function TapeOf(tape: seq<Trade>, s: string): seq<Trade> {
    if tape == [] then []
    else if tape[0].takerSymbol == s then [tape[0]] + TapeOf(tape[1..], s)
    else TapeOf(tape[1..], s)
  }

  ghost predicate AllOf(tape: seq<Trade>, s: string) {
    forall i :: 0 <= i < |tape| ==> tape[i].takerSymbol == s
  }

  lemma {:induction false} TapeOfConcat(a: seq<Trade>, b: seq<Trade>, s: string)
    ensures TapeOf(a + b, s) == TapeOf(a, s) + TapeOf(b, s)
  {
    if a == [] {
      assert a + b == b;
    } else {
      TailOfConcat(a, b);
      TapeOfConcat(a[1..], b, s);
      ConcatAssoc([a[0]], TapeOf(a[1..], s), TapeOf(b, s));
    }
  }

  lemma {:induction false} TapeOfOne(tape: seq<Trade>, t: string, s: string)
    requires AllOf(tape, t)
    ensures TapeOf(tape, s) == if t == s then tape else []
  {
    if tape != [] {
      TapeOfOne(tape[1..], t, s);
    }
  }

  lemma {:induction false} SweepTrades(taker: Ticket, makers: seq<Ticket>)
    ensures AllOf(Match(taker, makers).trades, taker.symbol)
    decreases |makers| + taker.remaining
  {
    if !Done(taker, makers) {
      var q := Min(taker.remaining, makers[0].remaining);
      SweepTrades(taker.Take(q), AfterFill(makers, q));
    }
  }

  lemma SubmitTrades(b: BookV, o: Ticket)
    ensures AllOf(BookSpec.Submit(b, o).trades, o.symbol)
  {
    SweepTrades(o.(status := NEW), b.Get(o.side.Opposite()));
    SubmitSides(b, o);
    hide Match, BookSpec.Submit;
  }

  lemma ModifyTrades(ex: Exch, id: nat, price: real, qty: nat)
    requires Inv(ex) && Routed(ex, id)
    ensures AllOf(BookSpec.Modify(ex.books[ex.home[id]], id, price, qty).trades, ex.home[id])
  {
    hide BookSpec.Submit, BookSpec.Cancel, Shrink, Inv, AllOf;
    RoutedSymbol(ex, id);
    var b := ex.books[ex.home[id]];
    SubmitTrades(BookSpec.Cancel(b, id), Amended(Lookup(b, id), price, qty));
    assert AllOf([], ex.home[id]) by { NoTrades(ex.home[id]); }
  }

  lemma NoTrades(s: string)
    ensures AllOf([], s) && TapeOf([], s) == []
  {
  }

  /** An operation trades the same on both exchanges when it concerns the symbol, and trades
      nothing of the symbol when it does not. */
  lemma {:induction false} StepTrades(ex: Exch, one: Exch, op: Op, of: Labels, s: string)
    requires Inv(ex) && Agree(ex, one, of, s) && Labelled(op, of)
    ensures TapeOf(TradesOf(ex, op), s) == if Concerns(op, of, s) then TradesOf(one, op) else []
  {
    hide Inv, BookSpec.Submit, BookSpec.Modify, BookV.Rests, TapeOf, AllOf;
    NoTrades(s);
    match op
    case AddSymbol(_) =>
    case Submit(o) =>
      if o.symbol in ex.books {
        SubmitTrades(ex.books[o.symbol], o);
        TapeOfOne(TradesOf(ex, op), o.symbol, s);
      }
    case Cancel(_) =>
    case Modify(id, price, qty) =>
      if Routed(ex, id) {
        ModifyTrades(ex, id, price, qty);
        if qty != 0 {
          TapeOfOne(TradesOf(ex, op), ex.home[id], s);
        }
      }
  }

  /** Agreement on the symbol's book and on its trades. */
  ghost predicate AgreeFully(ex: Exch, one: Exch, of: Labels, s: string) {
    Agree(ex, one, of, s) && TapeOf(ex.tape, s) == one.tape
  }

  lemma {:induction false} StepFully(ex: Exch, one: Exch, op: Op, of: Labels, s: string)
    requires Inv(ex) && AgreeFully(ex, one, of, s) && Labelled(op, of)
    ensures AgreeFully(Apply(ex, op), if Concerns(op, of, s) then Apply(one, op) else one, of, s)
  {
    hide Inv, Agree, Apply, TapeOf, TradesOf, Labelled, Concerns;
    Step(ex, one, op, of, s);
    StepTrades(ex, one, op, of, s);
    TapeGrows(ex, op);
    TapeGrows(one, op);
    TapeOfConcat(ex.tape, TradesOf(ex, op), s);
  }

  // ------------------------------------------------------------ every run

  lemma {:induction false} ProjectedRun(ex: Exch, one: Exch, ops: seq<Op>, of: Labels, s: string)
    requires Inv(ex) && Legal(ex, ops) && AgreeFully(ex, one, of, s)
    requires forall i :: 0 <= i < |ops| ==> Labelled(ops[i], of)
    ensures AgreeFully(Run(ex, ops), Run(one, Project(ops, of, s)), of, s)
    decreases |ops|
  {
    hide Inv, AgreeFully, Apply, Labelled, Concerns, Allowed;
    if ops != [] {
      var op := ops[0];
      var ex', rest := Apply(ex, op), Project(ops[1..], of, s);
      InvApply(ex, op);
      assert Labelled(op, of);
      StepFully(ex, one, op, of, s);
      if Concerns(op, of, s) {
        ProjectedRun(ex', Apply(one, op), ops[1..], of, s);
        assert ([op] + rest)[1..] == rest;
      } else {
        ProjectedRun(ex', one, ops[1..], of, s);
        assert [] + rest == rest;
      }
    }
  }

  /** The book of a symbol after any run, and its trades, are those of that symbol's
      operations alone. */
  lemma Isolation(ops: seq<Op>, of: Labels, s: string)
    requires Legal(Start, ops)
    requires forall i :: 0 <= i < |ops| ==> Labelled(ops[i], of)
    requires s in Run(Start, ops).books
    ensures var all, alone := Run(Start, ops), Run(Start, Project(ops, of, s));
            s in alone.books && all.books[s] == alone.books[s] && TapeOf(all.tape, s) == alone.tape
  {
    hide Run, Legal, Labelled, TapeOf;
    StartAgrees(of, s);
    ProjectedRun(Start, Start, ops, of, s);
  }

  lemma StartAgrees(of: Labels, s: string)
    ensures Inv(Start) && AgreeFully(Start, Start, of, s)
  {
  }
}
