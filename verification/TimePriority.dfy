/** First come, first served: among orders at one price the earlier arrival is matched first,
    in every run. */
module TimePriority {
  import opened Types
  import opened Sweep
  import opened BookSpec
  import opened ExchangeSpec

  /** Order `x` stands in front of order `y`, at the same price. */
  predicate Ahead(q: seq<Ticket>, x: nat, y: nat) {
    Holds(q, x) && Holds(q, y) && Find(q, x) < Find(q, y) && q[Find(q, x)].price == q[Find(q, y)].price
  }

  // ------------------------------------------------------------ one queue

  lemma EmbedsKeepsAhead(after: seq<Ticket>, before: seq<Ticket>, idx: seq<nat>, x: nat, y: nat)
    requires Embeds(after, before, idx) && DistinctIds(before) && Ahead(before, x, y)
    requires Holds(after, x) && Holds(after, y)
    ensures Ahead(after, x, y)
  {
    var i, j := Find(after, x), Find(after, y);
    assert before[idx[i]].id == x && before[idx[j]].id == y;
    assert idx[i] == Find(before, x) && idx[j] == Find(before, y);
    hide Find;
  }

  lemma InsertKeepsAhead(q: seq<Ticket>, t: Ticket, x: nat, y: nat)
    requires Ahead(q, x, y) && t.id != x && t.id != y
    ensures Ahead(Insert(q, t), x, y)
  {
    hide Find, Insert, Place;
    InsertedFindOther(q, t, x);
    InsertedFindOther(q, t, y);
    InsertAt(q, t);
  }

  lemma {:induction false} UnfilledIs(q: seq<Ticket>, id: nat)
    requires DistinctIds(q)
    ensures Unfilled(q, id) == if Holds(q, id) then q[Find(q, id)].remaining else 0
  {
    if q != [] {
      UnfilledIs(q[1..], id);
      if q[0].id == id {
        assert !Holds(q[1..], id);
      }
    }
  }

  lemma NothingTaken(taker: Ticket, makers: seq<Ticket>, id: nat)
    requires DistinctIds(makers) && !Holds(makers, id)
    ensures TakenFrom(Match(taker, makers).trades, id) == 0
  {
    hide Match, Find;
    UnfilledIs(makers, id);
    SharesMove(taker, makers, id);
  }

  /** While the earlier order has shares left after a sweep, the later one is untouched. */
  lemma SweptAhead(taker: Ticket, makers: seq<Ticket>, x: nat, y: nat)
    requires Tidy(makers, taker.side.Opposite()) && Ahead(makers, x, y)
    requires Holds(Match(taker, makers).makers, x)
    ensures var r := Match(taker, makers); Ahead(r.makers, x, y) && TakenFrom(r.trades, y) == 0
  {
    var r := Match(taker, makers);
    var shift := |makers| - |r.makers|;
    MatchShape(taker, makers);
    RemnantKeepsQueue(r.makers, makers, taker.side.Opposite());
    var idx := RemnantEmbeds(r.makers, makers, taker.side.Opposite());
    SharesMove(taker, makers, y);
    UnfilledIs(makers, y);
    UnfilledIs(r.makers, y);
    hide Match, Find, Remnant, Queue, Done, Volume, Embeds;
    SurvivorBehind(r.makers, makers, x, y);
    EmbedsKeepsAhead(r.makers, makers, idx, x, y);
  }

  lemma FoundAt(q: seq<Ticket>, id: nat, k: nat)
    requires DistinctIds(q) && k < |q| && q[k].id == id
    ensures Find(q, id) == k
  {
    FindIs(q, id, k);
  }

  lemma SurvivorBehind(after: seq<Ticket>, before: seq<Ticket>, x: nat, y: nat)
    requires Remnant(after, before) && DistinctIds(before) && DistinctIds(after)
    requires Ahead(before, x, y) && Holds(after, x)
    ensures Holds(after, y) && after[Find(after, y)] == before[Find(before, y)]
  {
    assert |after| <= |before|;
    hide Remnant, Find, DistinctIds;
    var shift := |before| - |after|;
    var i := Find(after, x);
    RemnantAt(after, before, i);
    FoundAt(before, x, shift + i);
    var j := Find(before, y) - shift;
    RemnantAt(after, before, j);
    FoundAt(after, y, j);
  }

  lemma {:induction false} FirstTrade(taker: Ticket, makers: seq<Ticket>)
    requires Match(taker, makers).trades != []
    ensures makers != []
    ensures var q := Min(taker.remaining, makers[0].remaining);
            var rest := Match(taker.Take(q), AfterFill(makers, q)).trades;
            && Match(taker, makers).trades == [TradeOf(taker, makers[0], q)] + rest
            && (q < makers[0].remaining ==> rest == [])
  {
  }

  /** Within a sweep, a trade takes from the later order only when everything the earlier one
      had has been taken before. */
  lemma {:induction false} EarlierFirst(taker: Ticket, makers: seq<Ticket>, i: nat, j: nat, k: nat)
    requires DistinctIds(makers) && i < j < |makers|
    requires k < |Match(taker, makers).trades| && Match(taker, makers).trades[k].makerId == makers[j].id
    ensures TakenFrom(Match(taker, makers).trades[..k], makers[i].id) == makers[i].remaining
    decreases |makers| + taker.remaining
  {
    hide Match, Done;
    var ts := Match(taker, makers).trades;
    FirstTrade(taker, makers);
    var q := Min(taker.remaining, makers[0].remaining);
    var first := TradeOf(taker, makers[0], q);
    var rest := Match(taker.Take(q), AfterFill(makers, q)).trades;
    assert 0 < k && ts[..k] == [first] + rest[..k - 1] && ts[..k][1..] == rest[..k - 1];
    if q == makers[0].remaining {
      assert rest[k - 1].makerId == makers[1..][j - 1].id;
      if i == 0 {
        NeverAgain(taker.Take(q), makers[1..], makers[0].id, k - 1);
      } else {
        EarlierFirst(taker.Take(q), makers[1..], i - 1, j - 1, k - 1);
      }
    }
  }

  lemma NeverAgain(taker: Ticket, makers: seq<Ticket>, id: nat, k: nat)
    requires DistinctIds(makers) && (forall i :: 0 <= i < |makers| ==> makers[i].id != id)
    requires k <= |Match(taker, makers).trades|
    ensures TakenFrom(Match(taker, makers).trades[..k], id) == 0
  {
    var ts := Match(taker, makers).trades;
    NothingTaken(taker, makers, id);
    hide Match;
    TakenPrefix(ts, id, k);
  }

  lemma {:induction false} TakenPrefix(ts: seq<Trade>, id: nat, k: nat)
    requires k <= |ts|
    ensures TakenFrom(ts[..k], id) <= TakenFrom(ts, id)
  {
    if k > 0 {
      assert ts[..k][1..] == ts[1..][..k - 1];
      TakenPrefix(ts[1..], id, k - 1);
    }
  }

  lemma {:induction false} TakenConcat(a: seq<Trade>, b: seq<Trade>, id: nat)
    ensures TakenFrom(a + b, id) == TakenFrom(a, id) + TakenFrom(b, id)
  {
    if a == [] {
      assert a + b == b;
    } else {
      TailOfConcat(a, b);
      TakenConcat(a[1..], b, id);
    }
  }

  // ------------------------------------------------------------ one book

  lemma SubmitAhead(b: BookV, o: Ticket, side: Side, x: nat, y: nat)
    requires Filed(b) && !b.Rests(o.id) && Ahead(b.Get(side), x, y)
    ensures var r := BookSpec.Submit(b, o);
            Holds(r.book.Get(side), x) ==> Ahead(r.book.Get(side), x, y) && TakenFrom(r.trades, y) == 0
  {
    var o' := o.(status := NEW);
    var opp := b.Get(o.side.Opposite());
    OfBook(b, o.side.Opposite());
    RestingIds(b, o.id, side, x);
    RestingIds(b, o.id, side, y);
    SubmitSides(b, o);
    if side == o.side {
      OtherSide(b, side, y);
      NothingTaken(o', opp, y);
      InsertKeepsAhead(b.Get(side), Match(o', opp).taker, x, y);
    } else if Holds(Match(o', opp).makers, x) {
      SweptAhead(o', opp, x, y);
    }
    hide BookSpec.Submit, Match, Filed, Insert, Find, Holds;
    assert TakenFrom([], y) == 0;
  }

  lemma OfBook(b: BookV, side: Side)
    requires Filed(b)
    ensures Tidy(b.Get(side), side)
  {
  }

  lemma OtherSide(b: BookV, side: Side, id: nat)
    requires Filed(b) && Holds(b.Get(side), id)
    ensures !Holds(b.Get(side.Opposite()), id) && b.Rests(id)
    ensures Lookup(b, id) == b.Get(side)[Find(b.Get(side), id)]
  {
    LookupSide(b, id);
  }

  lemma RestingIds(b: BookV, absent: nat, side: Side, id: nat)
    requires !b.Rests(absent) && Holds(b.Get(side), id)
    ensures id != absent
  {
  }

  lemma CancelAhead(b: BookV, id: nat, side: Side, x: nat, y: nat)
    requires Filed(b) && b.Rests(id) && id != x && id != y && Ahead(b.Get(side), x, y)
    ensures Ahead(BookSpec.Cancel(b, id).Get(side), x, y)
    ensures Lookup(BookSpec.Cancel(b, id), x) == Lookup(b, x)
  {
    var q := b.Get(side);
    OfBook(b, side);
    RemoveOther(q, id, x);
    RemoveOther(q, id, y);
    CancelRemovesOnly(b, id, x);
    var idx := RemovedFrom(q, side, id);
    if Holds(q, id) {
      LookupSide(b, id);
    } else {
      RemoveAbsent(q, id);
    }
    hide Find, Remove, Filed, Embeds;
    EmbedsKeepsAhead(Remove(q, id), q, idx, x, y);
  }

  lemma ShrinkAhead(b: BookV, id: nat, qty: nat, side: Side, x: nat, y: nat)
    requires b.Rests(id) && Ahead(b.Get(side), x, y)
    ensures Ahead(Shrink(b, id, qty).Get(side), x, y)
  {
    var own := if Holds(b.bids, id) then BUY else SELL;
    var q := b.Get(own);
    UpdatedFind(q, Find(q, id), q[Find(q, id)].(remaining := qty), x);
    UpdatedFind(q, Find(q, id), q[Find(q, id)].(remaining := qty), y);
    hide Find;
  }

  lemma ModifyAhead(b: BookV, id: nat, price: real, qty: nat, side: Side, x: nat, y: nat)
    requires Filed(b) && b.Rests(id) && Ahead(b.Get(side), x, y)
    requires LosesPlace(Lookup(b, id), price, qty) ==> id != x && id != y
    ensures var r := BookSpec.Modify(b, id, price, qty);
            Holds(r.book.Get(side), x) ==> Ahead(r.book.Get(side), x, y) && TakenFrom(r.trades, y) == 0
  {
    hide Filed, BookSpec.Submit, BookSpec.Cancel, Shrink, Find;
    var t := Lookup(b, id);
    if LosesPlace(t, price, qty) {
      LookupSide(b, id);
      CancelAhead(b, id, side, x, y);
      CancelKeepsFiled(b, id);
      CancelRemovesOnly(b, id, id);
      SubmitAhead(BookSpec.Cancel(b, id), Amended(t, price, qty), side, x, y);
    } else if qty < t.remaining {
      ShrinkAhead(b, id, qty, side, x, y);
    }
  }

  /** No trade of a submission takes from `y` before all of `x` is taken. */
  lemma SubmitEarlierFirst(b: BookV, o: Ticket, side: Side, x: nat, y: nat, k: nat)
    requires Filed(b) && Ahead(b.Get(side), x, y)
    requires var ts := BookSpec.Submit(b, o).trades; k < |ts| && ts[k].makerId == y
    ensures TakenFrom(BookSpec.Submit(b, o).trades[..k], x) == b.Get(side)[Find(b.Get(side), x)].remaining
  {
    var o' := o.(status := NEW);
    var opp := b.Get(o.side.Opposite());
    OfBook(b, o.side.Opposite());
    SubmitSides(b, o);
    MakersRest(o', opp, k);
    OtherSide(b, side, y);
    hide BookSpec.Submit, Match, Filed, Find;
    EarlierFirst(o', opp, Find(opp, x), Find(opp, y), k);
  }

  lemma ModifyEarlierFirst(b: BookV, id: nat, price: real, qty: nat, side: Side, x: nat, y: nat, k: nat)
    requires Filed(b) && b.Rests(id) && Ahead(b.Get(side), x, y)
    requires LosesPlace(Lookup(b, id), price, qty) ==> id != x && id != y
    requires var ts := BookSpec.Modify(b, id, price, qty).trades; k < |ts| && ts[k].makerId == y
    ensures TakenFrom(BookSpec.Modify(b, id, price, qty).trades[..k], x) == b.Get(side)[Find(b.Get(side), x)].remaining
  {
    hide Filed, BookSpec.Submit, BookSpec.Cancel, Shrink, Find, Lookup;
    var b1 := BookSpec.Cancel(b, id);
    OtherSide(b, side, x);
    CancelAhead(b, id, side, x, y);
    CancelKeepsFiled(b, id);
    OtherSide(b1, side, x);
    SubmitEarlierFirst(b1, Amended(Lookup(b, id), price, qty), side, x, y, k);
  }

  /** Every trade of a sweep is with one of the orders that were there. */
  lemma {:induction false} MakersRest(taker: Ticket, makers: seq<Ticket>, k: nat)
    requires k < |Match(taker, makers).trades|
    ensures Holds(makers, Match(taker, makers).trades[k].makerId)
    decreases |makers| + taker.remaining
  {
    if k > 0 {
      var q := Min(taker.remaining, makers[0].remaining);
      MakersRest(taker.Take(q), AfterFill(makers, q), k - 1);
    }
  }

  // ------------------------------------------------------------ one operation

  /** The operation takes the order out of its place, for its owner: a cancel, or a change of
      price or increase of quantity. */
  predicate Displaces(ex: Exch, op: Op, id: nat) {
    match op
    case Cancel(c) => c == id
    case Modify(m, price, qty) =>
      m == id && Routed(ex, m) && qty != 0 && LosesPlace(Lookup(ex.books[ex.home[m]], m), price, qty)
    case _ => false
  }

  lemma {:induction false} OpAhead(ex: Exch, op: Op, s: string, side: Side, x: nat, y: nat)
    requires Inv(ex) && Allowed(ex, op) && Ahead(RestingOf(ex, s, side), x, y)
    requires !Displaces(ex, op, x) && !Displaces(ex, op, y)
    requires Holds(RestingOf(Apply(ex, op), s, side), x)
    ensures Ahead(RestingOf(Apply(ex, op), s, side), x, y) && TakenFrom(TradesOf(ex, op), y) == 0
  {
    hide Inv, Idle, Filed, Find, Holds, BookSpec.Submit, BookSpec.Cancel, BookSpec.Modify, TakenFrom, Match;
    EmptyTape(y);
    RestsIn(ex, s, side, y);
    match op
    case AddSymbol(_) =>
    case Submit(o) =>
      if o.symbol in ex.books {
        BookInvOf(ex, o.symbol);
        NotHere(ex, o);
        if o.symbol == s {
          SubmitAhead(ex.books[s], o, side, x, y);
        } else {
          SubmitElsewhere(ex, o, s, y);
        }
      }
    case Cancel(id) =>
      if Routed(ex, id) {
        BookInvOf(ex, ex.home[id]);
        if ex.home[id] == s {
          CancelAhead(ex.books[s], id, side, x, y);
        }
      }
    case Modify(id, price, qty) =>
      if Routed(ex, id) && qty != 0 {
        BookInvOf(ex, ex.home[id]);
        if ex.home[id] == s {
          ModifyAhead(ex.books[s], id, price, qty, side, x, y);
        } else {
          ModifyElsewhere(ex, id, price, qty, s, y);
        }
      }
  }

  lemma EmptyTape(id: nat)
    ensures TakenFrom([], id) == 0
  {
  }

  lemma RestsIn(ex: Exch, s: string, side: Side, id: nat)
    requires Holds(RestingOf(ex, s, side), id)
    ensures s in ex.books && ex.books[s].Rests(id)
  {
  }

  lemma NotHere(ex: Exch, o: Ticket)
    requires Allowed(ex, Submit(o)) && o.symbol in ex.books
    ensures !ex.books[o.symbol].Rests(o.id)
  {
  }

  /** An order that rests in one symbol's book is not touched by trades in another's. */
  lemma Elsewhere(ex: Exch, t: string, s: string, id: nat)
    requires Inv(ex) && s in ex.books && t in ex.books && s != t && ex.books[s].Rests(id)
    ensures !ex.books[t].Rests(id)
  {
    assert forall u :: u in ex.books && ex.books[u].Rests(id) ==> id in ex.home && ex.home[id] == u;
  }

  lemma SubmitNoTake(b: BookV, o: Ticket, id: nat)
    requires Filed(b) && !b.Rests(id)
    ensures TakenFrom(BookSpec.Submit(b, o).trades, id) == 0
    ensures forall k :: 0 <= k < |BookSpec.Submit(b, o).trades| ==> BookSpec.Submit(b, o).trades[k].makerId != id
  {
    var o', opp := o.(status := NEW), b.Get(o.side.Opposite());
    OfBook(b, o.side.Opposite());
    NothingTaken(o', opp, id);
    forall k | 0 <= k < |Match(o', opp).trades| ensures Match(o', opp).trades[k].makerId != id {
      MakersRest(o', opp, k);
    }
    SubmitSides(b, o);
    EmptyTape(id);
    hide BookSpec.Submit, Filed, TakenFrom, Match;
  }

  lemma SubmitElsewhere(ex: Exch, o: Ticket, s: string, id: nat)
    requires Inv(ex) && o.symbol in ex.books && s in ex.books && s != o.symbol && ex.books[s].Rests(id)
    ensures var ts := BookSpec.Submit(ex.books[o.symbol], o).trades;
            TakenFrom(ts, id) == 0 && forall k :: 0 <= k < |ts| ==> ts[k].makerId != id
  {
    hide Inv, BookV.Rests, BookSpec.Submit;
    BookInvOf(ex, o.symbol);
    Elsewhere(ex, o.symbol, s, id);
    SubmitNoTake(ex.books[o.symbol], o, id);
  }

  lemma ModifyElsewhere(ex: Exch, m: nat, price: real, qty: nat, s: string, id: nat)
    requires Inv(ex) && Routed(ex, m) && ex.home[m] != s && s in ex.books && ex.books[s].Rests(id)
    ensures var ts := BookSpec.Modify(ex.books[ex.home[m]], m, price, qty).trades;
            TakenFrom(ts, id) == 0 && forall k :: 0 <= k < |ts| ==> ts[k].makerId != id
  {
    hide Inv, BookSpec.Submit, BookSpec.Cancel, Shrink, Filed, Lookup;
    var b := ex.books[ex.home[m]];
    BookInvOf(ex, ex.home[m]);
    Elsewhere(ex, ex.home[m], s, id);
    EmptyTape(id);
    if LosesPlace(Lookup(b, m), price, qty) {
      CancelKeepsFiled(b, m);
      CancelRemovesOnly(b, m, id);
      hide BookV.Rests;
      SubmitNoTake(BookSpec.Cancel(b, m), Amended(Lookup(b, m), price, qty), id);
    }
  }

  /** Within one operation no trade takes from `y` before all of `x` is taken. */
  lemma {:induction false} OpEarlierFirst(ex: Exch, op: Op, s: string, side: Side, x: nat, y: nat, k: nat)
    requires Inv(ex) && Ahead(RestingOf(ex, s, side), x, y)
    requires !Displaces(ex, op, x) && !Displaces(ex, op, y)
    requires k < |TradesOf(ex, op)| && TradesOf(ex, op)[k].makerId == y
    ensures TakenFrom(TradesOf(ex, op)[..k], x) == RestingOf(ex, s, side)[Find(RestingOf(ex, s, side), x)].remaining
  {
    hide Inv, Idle, Filed, Find, Holds, BookSpec.Submit, BookSpec.Cancel, BookSpec.Modify, TakenFrom, Match;
    RestsIn(ex, s, side, y);
    match op
    case AddSymbol(_) =>
    case Submit(o) =>
      BookInvOf(ex, o.symbol);
      if o.symbol == s {
        SubmitEarlierFirst(ex.books[s], o, side, x, y, k);
      } else {
        SubmitElsewhere(ex, o, s, y);
      }
    case Cancel(_) =>
    case Modify(id, price, qty) =>
      BookInvOf(ex, ex.home[id]);
      if ex.home[id] == s {
        ModifyEarlierFirst(ex.books[s], id, price, qty, side, x, y, k);
      } else {
        ModifyElsewhere(ex, id, price, qty, s, y);
      }
  }

  // ------------------------------------------------------------ every run

  /** Throughout the run neither order is displaced and `x` still rests after each operation. */
  ghost predicate Waits(ex: Exch, ops: seq<Op>, s: string, side: Side, x: nat, y: nat)
    decreases |ops|
  {
    ops != [] ==>
      var ex' := Apply(ex, ops[0]);
      && !Displaces(ex, ops[0], x) && !Displaces(ex, ops[0], y)
      && Holds(RestingOf(ex', s, side), x)
      && Waits(ex', ops[1..], s, side, x, y)
  }

  lemma {:induction false} AheadRun(ex: Exch, ops: seq<Op>, s: string, side: Side, x: nat, y: nat)
    requires Inv(ex) && Legal(ex, ops) && Ahead(RestingOf(ex, s, side), x, y) && Waits(ex, ops, s, side, x, y)
    ensures Inv(Run(ex, ops)) && Ahead(RestingOf(Run(ex, ops), s, side), x, y)
    ensures TakenFrom(Run(ex, ops).tape, y) == TakenFrom(ex.tape, y)
    decreases |ops|
  {
    hide Inv, Allowed, Apply, RestingOf, Ahead, Displaces, TakenFrom, TradesOf;
    if ops != [] {
      var op := ops[0];
      OpAhead(ex, op, s, side, x, y);
      InvApply(ex, op);
      TapeGrows(ex, op);
      TakenConcat(ex.tape, TradesOf(ex, op), y);
      AheadRun(Apply(ex, op), ops[1..], s, side, x, y);
    }
  }

  /** An order that comes to rest stands behind every order already there at its price. */
  lemma {:induction false} ArrivesBehind(ex: Exch, o: Ticket, x: nat)
    requires Inv(ex) && Allowed(ex, Submit(o)) && o.symbol in ex.books && x != o.id
    requires var q := RestingOf(Apply(ex, Submit(o)), o.symbol, o.side);
             Holds(q, x) && Holds(q, o.id) && q[Find(q, x)].price == q[Find(q, o.id)].price
    ensures Ahead(RestingOf(Apply(ex, Submit(o)), o.symbol, o.side), x, o.id)
  {
    hide Inv, Idle, WellFormed, BookSpec.Submit, Find;
    BookInvOf(ex, o.symbol);
    NotHere(ex, o);
    SubmittedIsLast(ex.books[o.symbol], o);
  }

  /** First come, first served. After any legal past an order `o` comes to rest behind an order
      `x` at its price. As long as neither is displaced and `x` still rests, `o` stays behind it
      and no trade takes from `o`; and whichever operation comes next, a trade of it takes from
      `o` only after everything left of `x` has been taken. */
  lemma FirstComeFirstServed(past: seq<Op>, o: Ticket, later: seq<Op>, next: Op, x: nat, k: nat)
    requires Legal(Start, past)
    requires var ex := Run(Start, past);
             && Allowed(ex, Submit(o)) && o.symbol in ex.books && x != o.id
             && var arrived := Apply(ex, Submit(o));
                var q := RestingOf(arrived, o.symbol, o.side);
                && Holds(q, x) && Holds(q, o.id) && q[Find(q, x)].price == q[Find(q, o.id)].price
                && Legal(arrived, later) && Waits(arrived, later, o.symbol, o.side, x, o.id)
    ensures var arrived := Apply(Run(Start, past), Submit(o));
            var now := Run(arrived, later);
            var q := RestingOf(now, o.symbol, o.side);
            var ts := TradesOf(now, next);
            && Ahead(q, x, o.id)
            && TakenFrom(now.tape, o.id) == TakenFrom(arrived.tape, o.id)
            && (!Displaces(now, next, x) && !Displaces(now, next, o.id) && k < |ts| && ts[k].makerId == o.id ==>
                  TakenFrom(ts[..k], x) == q[Find(q, x)].remaining)
  {
    hide Inv, Legal, Run, Allowed, Apply, Waits, Displaces, TakenFrom, TradesOf, RestingOf, Find;
    var ex := Run(Start, past);
    assert Inv(Start) by { StartInv(); }
    InvRun(Start, past);
    ArrivesBehind(ex, o, x);
    InvApply(ex, Submit(o));
    var arrived := Apply(ex, Submit(o));
    AheadRun(arrived, later, o.symbol, o.side, x, o.id);
    var now := Run(arrived, later);
    var ts := TradesOf(now, next);
    if !Displaces(now, next, x) && !Displaces(now, next, o.id) && k < |ts| && ts[k].makerId == o.id {
      OpEarlierFirst(now, next, o.symbol, o.side, x, o.id, k);
    }
  }

  lemma StartInv()
    ensures Inv(Start)
  {
  }
}
