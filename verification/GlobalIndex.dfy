/** The exchange's global index from order id to symbol. It is cleaned lazily, so it may keep
    entries of orders that no longer rest; here is exactly when it does. */
module GlobalIndex {
  import opened Types
  import opened Sweep
  import opened BookSpec
  import opened ExchangeSpec

  /** The index lists resting orders only; it always lists all of them. */
  ghost predicate Exact(ex: Exch) {
    forall id :: id in ex.home ==> !Idle(ex, id)
  }

  // ------------------------------------------------------------ when an operation keeps it exact

  predicate Killed(b: BookV, o: Ticket) {
    o.tif.FOK? && !CanFill(o.(status := NEW), Levels(b.Get(o.side.Opposite())), o.remaining)
  }

  /** The order is large enough to use up the first order on the other side. */
  predicate UsesUpFirst(o: Ticket, opp: seq<Ticket>) {
    opp != [] && 0 < o.remaining && Crosses(o, opp[0].price) && opp[0].remaining <= o.remaining
  }

  /** The order's own entry is not left behind: it gets none, or rests, or is filled. */
  predicate OwnEntryRight(b: BookV, o: Ticket) {
    || o.kind.MARKET?
    || (0 < o.remaining
        && (o.tif.GTC? || (!Killed(b, o) && o.remaining <= Liquidity(o, b.Get(o.side.Opposite())))))
  }

  /** Can be read off the state before the operation. */
  predicate KeepsExact(ex: Exch, op: Op) {
    match op
    case AddSymbol(_) => true
    case Cancel(_) => true
    case Submit(o) =>
      o.symbol in ex.books ==>
        var b := ex.books[o.symbol];
        (Killed(b, o) || !UsesUpFirst(o, b.Get(o.side.Opposite()))) && OwnEntryRight(b, o)
    case Modify(id, price, qty) =>
      Routed(ex, id) && 0 < qty ==>
        var b := ex.books[ex.home[id]];
        var t := Lookup(b, id);
        var opp := b.Get(t.side.Opposite());
        LosesPlace(t, price, qty) ==> opp == [] || !Crosses(Amended(t, price, qty), opp[0].price)
  }

  // ------------------------------------------------------------ one book

  lemma {:induction false} SweptLength(taker: Ticket, makers: seq<Ticket>)
    requires Queue(makers, taker.side.Opposite())
    ensures |Match(taker, makers).makers| == |makers| <==> !UsesUpFirst(taker, makers)
  {
    if !Done(taker, makers) {
      var q := Min(taker.remaining, makers[0].remaining);
      RestIsShorter(taker.Take(q), AfterFill(makers, q), taker, makers);
    }
  }

  lemma {:induction false} RestIsShorter(t: Ticket, after: seq<Ticket>, taker: Ticket, makers: seq<Ticket>)
    requires Queue(makers, taker.side.Opposite()) && !Done(taker, makers)
    requires var q := Min(taker.remaining, makers[0].remaining); t == taker.Take(q) && after == AfterFill(makers, q)
    ensures |Match(t, after).makers| <= |after|
    ensures t.remaining == 0 ==> Match(t, after).makers == after
  {
    hide Match;
    assert Remnant(after, makers);
    RemnantKeepsQueue(after, makers, taker.side.Opposite());
    AllUnfilled(after, taker.side.Opposite());
    MatchShape(t, after);
    if t.remaining == 0 {
      DoneAtOnce(t, after);
    }
  }

  lemma DoneAtOnce(t: Ticket, makers: seq<Ticket>)
    requires Done(t, makers)
    ensures Match(t, makers) == Outcome(t, makers, [])
  {
  }

  /** The orders left after a sweep: all of them when as many are left, else the first is gone. */
  lemma {:induction false} WhoIsLeft(taker: Ticket, makers: seq<Ticket>, id: nat)
    requires Tidy(makers, taker.side.Opposite())
    ensures var after := Match(taker, makers).makers;
            && (|after| == |makers| ==> (Holds(after, id) <==> Holds(makers, id)))
            && (|after| != |makers| ==> makers != [] && !Holds(after, makers[0].id))
  {
    var after := Match(taker, makers).makers;
    AllUnfilled(makers, taker.side.Opposite());
    MatchShape(taker, makers);
    hide Match, Queue, Find;
    forall i | 0 <= i < |after| ensures makers[|makers| - |after| + i].id == after[i].id {
      RemnantAt(after, makers, i);
    }
    hide Remnant;
    if |after| == |makers| && Holds(makers, id) {
      assert after[Find(makers, id)].id == id;
    }
  }

  /** What settling an accepted order leaves on the two sides. */
  lemma SettleSides(b: BookV, o: Ticket)
    ensures var m := Match(o, b.Get(o.side.Opposite()));
            var r := Settle(b, o);
            && r.book.Get(o.side.Opposite()) == m.makers
            && (r.book.Get(o.side) == b.Get(o.side) || r.book.Get(o.side) == Insert(b.Get(o.side), m.taker))
  {
    hide Match, Insert;
  }

  /** The orders of a book all go on resting unless the submission uses up the first on its
      other side. */
  lemma {:induction false} AllStay(b: BookV, o: Ticket)
    requires WellFormed(b) && !b.Rests(o.id)
    ensures (forall id :: b.Rests(id) ==> BookSpec.Submit(b, o).book.Rests(id))
            <==> Killed(b, o) || !UsesUpFirst(o, b.Get(o.side.Opposite()))
  {
    hide Match, CanFill, Levels, Insert, Find, Settle;
    var o' := o.(status := NEW);
    var own, opp := b.Get(o.side), b.Get(o.side.Opposite());
    FromSide(b, o.side);
    hide WellFormed, Queue, DistinctIds;
    var r := BookSpec.Submit(b, o);
    if !Killed(b, o) {
      SettleSides(b, o');
      SweptLength(o', opp);
      if UsesUpFirst(o, opp) {
        WhoIsLeft(o', opp, opp[0].id);
        assert b.Rests(opp[0].id) by { HeadHeld(opp); }
        HeadGone(b, o, r.book);
      } else {
        forall id | b.Rests(id) ensures r.book.Rests(id) {
          WhoIsLeft(o', opp, id);
          InsertHolds(own, Match(o', opp).taker, id);
        }
      }
    }
  }

  lemma HeadHeld(q: seq<Ticket>)
    requires q != []
    ensures Holds(q, q[0].id)
  {
  }

  lemma HeadGone(b: BookV, o: Ticket, b': BookV)
    requires var own, opp := b.Get(o.side), b.Get(o.side.Opposite());
             && Apart(o.side, own, opp) && opp != [] && !b.Rests(o.id)
             && !Holds(b'.Get(o.side.Opposite()), opp[0].id)
             && (b'.Get(o.side) == own || exists t: Ticket :: t.id == o.id && b'.Get(o.side) == Insert(own, t))
    ensures !b'.Rests(b.Get(o.side.Opposite())[0].id)
  {
    var own, opp := b.Get(o.side), b.Get(o.side.Opposite());
    HeadHeld(opp);
    hide Find, Insert;
    assert !Holds(own, opp[0].id);
    if b'.Get(o.side) != own {
      var t: Ticket :| t.id == o.id && b'.Get(o.side) == Insert(own, t);
      InsertHolds(own, t, opp[0].id);
    }
  }

  /** How full an accepted limit order is after settling, and what becomes of it. */
  lemma {:induction false} LimitSettled(b: BookV, o: Ticket)
    requires Filed(b) && o.kind.LIMIT? && o.status.NEW?
    ensures var r := Settle(b, o);
            var enough := o.remaining <= Liquidity(o, b.Get(o.side.Opposite()));
            && (r.order.status.FILLED? <==> 0 < o.remaining && enough)
            && (o.tif.GTC? ==> (0 < r.order.remaining <==> !enough))
  {
    hide Match, Insert, Liquidity, Consume;
    var opp := b.Get(o.side.Opposite());
    var m := Match(o, opp);
    MatchClosedForm(o, opp);
    AllUnfilled(opp, o.side.Opposite());
    MatchShape(o, opp);
    if o.remaining == 0 {
      DoneAtOnce(o, opp);
    }
    hide Filed, Remnant, Done, Volume;
  }

  lemma {:induction false} OwnEntry(b: BookV, o: Ticket)
    requires WellFormed(b) && !b.Rests(o.id) && o.kind.LIMIT?
    ensures var r := BookSpec.Submit(b, o);
            (r.order.status.FILLED? || r.book.Rests(o.id)) <==> OwnEntryRight(b, o)
  {
    hide CanFill, Levels, Settle, Liquidity, Find;
    var o' := o.(status := NEW);
    RestsAfterSubmit(b, o, o.id);
    LimitSettled(b, o');
    LiquiditySamePull(o, o', b.Get(o.side.Opposite()));
    hide WellFormed, BookV.Rests;
  }

  /** A replacement at the back of the queue leaves the index exact just when it does not trade. */
  lemma {:induction false} NoTradeWhen(o: Ticket, opp: seq<Ticket>)
    requires Queue(opp, o.side.Opposite()) && 0 < o.remaining
    ensures !UsesUpFirst(o, opp) && Liquidity(o, opp) < o.remaining <==> opp == [] || !Crosses(o, opp[0].price)
  {
    if opp != [] && !Crosses(o, opp[0].price) {
      forall i | 0 <= i < |opp| ensures !Crosses(o, opp[i].price) {
        NothingInReach(o, opp, i);
      }
      LiquidityBeyondReach(o, opp);
    }
  }

  // ------------------------------------------------------------ one operation

  /** When one book and one order's entry change, the index is exact if everything else in the
      book stays and the order itself rests or has no entry. */
  lemma {:induction false} ReplacedExact(ex: Exch, ex': Exch, s: string, id: nat)
    requires Inv(ex) && Exact(ex) && s in ex.books && s in ex'.books
    requires ex'.books == ex.books[s := ex'.books[s]]
    requires forall i :: i != id ==> (i in ex'.home <==> i in ex.home)
    requires forall t :: t in ex.books && t != s ==> !ex.books[t].Rests(id)
    ensures Exact(ex')
            <==> && (forall i :: i != id && ex.books[s].Rests(i) ==> ex'.books[s].Rests(i))
                 && (id in ex'.home ==> ex'.books[s].Rests(id))
  {
    hide BookInv, FairTape, BookV.Rests;
    forall i
      ensures !Idle(ex', i) <==> ex'.books[s].Rests(i) || exists t :: t in ex.books && t != s && ex.books[t].Rests(i)
    {
      IdleSplit(ex, ex', s, i);
    }
    if Exact(ex') {
      forall i | i != id && ex.books[s].Rests(i) ensures ex'.books[s].Rests(i) {
        assert i in ex.home && ex.home[i] == s;
      }
    }
  }

  lemma IdleSplit(ex: Exch, ex': Exch, s: string, i: nat)
    requires s in ex.books && s in ex'.books && ex'.books == ex.books[s := ex'.books[s]]
    ensures !Idle(ex', i) <==> ex'.books[s].Rests(i) || exists t :: t in ex.books && t != s && ex.books[t].Rests(i)
  {
    hide BookV.Rests;
    if t :| t in ex.books && t != s && ex.books[t].Rests(i) {
      assert ex'.books[t].Rests(i);
    }
  }

  lemma {:induction false} SubmitExact(ex: Exch, o: Ticket)
    requires Inv(ex) && Exact(ex) && Idle(ex, o.id) && o.symbol in ex.books
    ensures Exact(DoSubmit(ex, o).ex) <==> KeepsExact(ex, Submit(o))
  {
    hide Inv, BookSpec.Submit, BookV.Rests, WellFormed, Filed, BookInv, Killed, UsesUpFirst;
    var s, b, ex' := o.symbol, ex.books[o.symbol], DoSubmit(ex, o).ex;
    BookInvOf(ex, s);
    assert o.id !in ex.home && !b.Rests(o.id);
    AllStay(b, o);
    if o.kind.LIMIT? {
      OwnEntry(b, o);
    }
    ReplacedExact(ex, ex', s, o.id);
    hide Exact, Idle, OwnEntryRight;
  }

  lemma {:induction false} CancelExact(ex: Exch, id: nat)
    requires Inv(ex) && Exact(ex)
    ensures Exact(DoCancel(ex, id).0)
  {
    hide Inv, BookSpec.Cancel, BookV.Rests, WellFormed, Filed, BookInv;
    if Routed(ex, id) {
      var s := ex.home[id];
      BookInvOf(ex, s);
      RestsOnly(ex, s, id);
      forall i | i != id && ex.books[s].Rests(i) ensures BookSpec.Cancel(ex.books[s], id).Rests(i) {
        CancelRemovesOnly(ex.books[s], id, i);
      }
      ReplacedExact(ex, DoCancel(ex, id).0, s, id);
    }
  }

  lemma RestsOnly(ex: Exch, s: string, id: nat)
    requires Inv(ex) && s in ex.books && ex.books[s].Rests(id)
    ensures forall t :: t in ex.books && t != s ==> !ex.books[t].Rests(id)
  {
    hide BookInv, FairTape, BookV.Rests;
    assert ex.home[id] == s;
  }

  /** A modification that gives up a place, as seen from its book. */
  lemma {:induction false} AnewStays(b: BookV, id: nat, price: real, qty: nat)
    requires WellFormed(b) && b.Rests(id) && 0 < qty && LosesPlace(Lookup(b, id), price, qty)
    ensures var t := Lookup(b, id);
            var o := Amended(t, price, qty);
            var opp := b.Get(t.side.Opposite());
            var b' := BookSpec.Modify(b, id, price, qty).book;
            (forall i :: i != id && b.Rests(i) ==> b'.Rests(i)) && b'.Rests(id)
            <==> opp == [] || !Crosses(o, opp[0].price)
  {
    hide BookSpec.Submit, BookSpec.Cancel, WellFormed, Filed, Find, Liquidity, CanFill, Levels, Crosses;
    var t := Lookup(b, id);
    var o, b1 := Amended(t, price, qty), BookSpec.Cancel(b, id);
    var opp := b.Get(t.side.Opposite());
    FiledOf(b);
    LookupSide(b, id);
    CancelKeepsWellFormed(b, id);
    FiledOf(b1);
    OtherSideKept(b, id);
    RestingLimit(b, id);
    forall i ensures b1.Rests(i) <==> i != id && b.Rests(i) {
      if i != id {
        CancelRemovesOnly(b, id, i);
      }
    }
    hide BookV.Rests, Lookup;
    AllStay(b1, o);
    OwnEntry(b1, o);
    RestsAfterSubmit(b1, o, id);
    LimitStays(b1, o);
    NoTradeWhen(o, opp);
  }

  lemma FiledOf(b: BookV)
    requires WellFormed(b)
    ensures Filed(b) && Queue(b.bids, BUY) && Queue(b.asks, SELL)
  {
  }

  lemma OtherSideKept(b: BookV, id: nat)
    requires Filed(b) && b.Rests(id)
    ensures BookSpec.Cancel(b, id).Get(Lookup(b, id).side.Opposite()) == b.Get(Lookup(b, id).side.Opposite())
  {
    LookupSide(b, id);
    hide Find, Remove, Filed;
  }

  lemma RestingLimit(b: BookV, id: nat)
    requires Filed(b) && b.Rests(id)
    ensures Lookup(b, id).kind.LIMIT? && Lookup(b, id).tif.GTC? && Lookup(b, id).id == id
  {
  }

  lemma {:induction false} LimitStays(b: BookV, o: Ticket)
    requires Filed(b) && o.kind.LIMIT? && o.tif.GTC? && o.status.NEW?
    ensures 0 < BookSpec.Submit(b, o).order.remaining <==> Liquidity(o, b.Get(o.side.Opposite())) < o.remaining
    ensures !Killed(b, o)
  {
    hide Settle, Liquidity;
    LimitSettled(b, o);
  }

  lemma {:induction false} ModifyExact(ex: Exch, id: nat, price: real, qty: nat)
    requires Inv(ex) && Exact(ex)
    ensures Exact(DoModify(ex, id, price, qty).0) <==> KeepsExact(ex, Modify(id, price, qty))
  {
    hide Inv, BookV.Rests, WellFormed, Filed, BookInv, Crosses, BookSpec.Submit, BookSpec.Cancel, Shrink;
    if Routed(ex, id) && qty != 0 {
      var s := ex.home[id];
      var b := ex.books[s];
      BookInvOf(ex, s);
      RestsOnly(ex, s, id);
      LookupSymbol(b, id, s);
      ReplacedExact(ex, DoModify(ex, id, price, qty).0, s, id);
      if LosesPlace(Lookup(b, id), price, qty) {
        AnewStays(b, id, price, qty);
      } else {
        ShrunkRests(b, id, qty);
      }
      hide Exact, Lookup;
    }
  }

  lemma ShrunkRests(b: BookV, id: nat, qty: nat)
    requires b.Rests(id)
    ensures forall i :: Shrink(b, id, qty).Rests(i) <==> b.Rests(i)
  {
    forall i ensures Shrink(b, id, qty).Rests(i) <==> b.Rests(i) {
      var own := if Holds(b.bids, id) then BUY else SELL;
      var q := b.Get(own);
      UpdatedFind(q, Find(q, id), q[Find(q, id)].(remaining := qty), i);
      hide Find;
    }
  }

  /** From an exact index, exactly the operations that use up no resting order, and leave no
      entry for an order of their own that neither rests nor was filled, keep it exact. */
  lemma {:induction false} ExactWhen(ex: Exch, op: Op)
    requires Inv(ex) && Exact(ex) && Allowed(ex, op)
    ensures Exact(Apply(ex, op)) <==> KeepsExact(ex, op)
  {
    hide Inv, DoCancel, DoModify;
    match op
    case AddSymbol(s) => ListingExact(ex, s);
    case Submit(o) =>
      if o.symbol in ex.books {
        SubmitExact(ex, o);
      }
    case Cancel(id) => CancelExact(ex, id);
    case Modify(id, price, qty) => ModifyExact(ex, id, price, qty);
  }

  lemma ListingExact(ex: Exch, s: string)
    requires Exact(ex)
    ensures Exact(DoAddSymbol(ex, s).0)
  {
    hide BookV.Rests;
    var ex' := DoAddSymbol(ex, s).0;
    forall id | id in ex'.home ensures !Idle(ex', id) {
      assert !Idle(ex, id);
      var t :| t in ex.books && ex.books[t].Rests(id);
      assert ex'.books[t].Rests(id);
    }
  }

  // ------------------------------------------------------------ every run

  ghost predicate ExactThroughout(ex: Exch, ops: seq<Op>)
    decreases |ops|
  {
    Exact(ex) && (ops != [] ==> ExactThroughout(Apply(ex, ops[0]), ops[1..]))
  }

  ghost predicate AllKeepExact(ex: Exch, ops: seq<Op>)
    decreases |ops|
  {
    ops != [] ==> KeepsExact(ex, ops[0]) && AllKeepExact(Apply(ex, ops[0]), ops[1..])
  }

  lemma {:induction false} ExactRun(ex: Exch, ops: seq<Op>)
    requires Inv(ex) && Exact(ex) && Legal(ex, ops)
    ensures ExactThroughout(ex, ops) <==> AllKeepExact(ex, ops)
    decreases |ops|
  {
    hide Inv, Exact, KeepsExact, Apply, Allowed;
    if ops != [] {
      InvApply(ex, ops[0]);
      ExactWhen(ex, ops[0]);
      if KeepsExact(ex, ops[0]) {
        ExactRun(Apply(ex, ops[0]), ops[1..]);
      }
    }
  }

  /** In a run from the start, the index is exact all along if and only if every operation
      keeps it so. */
  lemma ExactThroughoutWhen(ops: seq<Op>)
    requires Legal(Start, ops)
    ensures ExactThroughout(Start, ops) <==> AllKeepExact(Start, ops)
  {
    ExactRun(Start, ops);
  }

  /** A bid that a market order takes in full stops resting and keeps its entry. */
  lemma {:induction false} StaleEntry(a: Ticket, taker: Ticket)
    requires Resting(a, BUY) && a.status.NEW? && taker.kind.MARKET? && taker.tif.GTC? && taker.side.SELL?
    requires taker.remaining == a.remaining && taker.id != a.id && taker.symbol == a.symbol
    ensures var ops := [AddSymbol(a.symbol), Submit(a), Submit(taker)];
            var ex := Run(Start, ops);
            Legal(Start, ops) && a.id in ex.home && Idle(ex, a.id)
  {
    hide BookSpec.Submit, Legal, Run, Find;
    var s := a.symbol;
    BidTaken(a, taker);
    var ex1 := Apply(Start, AddSymbol(s));
    var ex2 := Apply(ex1, Submit(a));
    var ex3 := Apply(ex2, Submit(taker));
    assert ex2.books == map[s := BookV([a], [])] && a.id in ex2.home;
    assert ex3.books == map[s := BookSpec.Empty] && a.id in ex3.home;
    ThreeSteps(Start, AddSymbol(s), Submit(a), Submit(taker));
  }

  lemma {:induction false} BidTaken(a: Ticket, taker: Ticket)
    requires Resting(a, BUY) && a.status.NEW? && taker.kind.MARKET? && taker.tif.GTC? && taker.side.SELL?
    requires taker.remaining == a.remaining && taker.id != a.id
    ensures BookSpec.Submit(BookSpec.Empty, a) == Submission(BookV([a], []), a, [])
    ensures BookSpec.Submit(BookV([a], []), taker).book == BookSpec.Empty
    ensures !BookSpec.Empty.Rests(a.id) && !BookSpec.Empty.Rests(taker.id) && !BookV([a], []).Rests(taker.id)
  {
    assert Insert([], a) == [a] && Done(a, []);
    RestsAtOnce(BookSpec.Empty, a);
    var o := taker.(status := NEW);
    assert AfterFill([a], a.remaining) == [];
    DoneAtOnce(o.Take(a.remaining), []);
    assert Match(o, [a]).makers == [];
    assert [a][1..] == [];
  }
}
