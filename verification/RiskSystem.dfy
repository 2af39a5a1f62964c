/** Risk engine and exchange together, in every run of the documented protocol: an order is
    checked before it is submitted, each report is passed on, and cancels and discarded
    remainders are released. Limits stay fixed and orders are not modified. */
module RiskSystem {
  import opened Types
  import opened Sweep
  import opened BookSpec
  import opened ExchangeSpec
  import opened TraderShares
  import opened RiskEngines
  import opened RiskRuns

  datatype System = System(ex: Exch, risk: Risk)

  datatype Step = List(symbol: string) | Order(order: Ticket) | Withdraw(id: nat)

  /** The reports that a submission to the exchange causes. */
  function NewReports(ex: Exch, o: Ticket): seq<Report>
    requires o.symbol in ex.books
  {
    ReportsFrom(1 + |ex.tape|, BookSpec.Submit(ex.books[o.symbol], o).trades)
  }

  function Approved(s: System, o: Ticket): (Risk, bool) {
    Approve(s.risk, o.id, o.trader, o.symbol, o.side, o.filled + o.remaining)
  }

  /** An order that is cut off, or sent back for its symbol, will not fill any further. */
  function ReleasedIfOver(r: Risk, o: Ticket): Risk {
    if o.status.CANCELLED? || o.status.REJECTED? then Released(r, o.id) else r
  }

  function DoOrder(s: System, o: Ticket): System {
    var (r, ok) := Approved(s, o);
    if !ok then s.(risk := r)
    else
      var e := DoSubmit(s.ex, o);
      var r1 := if o.symbol in s.ex.books then FilledAll(r, NewReports(s.ex, o)) else r;
      System(e.ex, ReleasedIfOver(r1, e.order))
  }

  function Do(s: System, step: Step): System {
    match step
    case List(symbol) => s.(ex := DoAddSymbol(s.ex, symbol).0)
    case Order(o) => DoOrder(s, o)
    case Withdraw(id) => System(DoCancel(s.ex, id).0, Released(s.risk, id))
  }

  function DoAll(s: System, steps: seq<Step>): System
    decreases |steps|
  {
    if steps == [] then s else DoAll(Do(s, steps[0]), steps[1..])
  }

  /** What callers must see to: a new order has a fresh id, is unfilled, and is for some
      32-bit number of shares. */
  ghost predicate Proper(s: System, step: Step) {
    step.Order? ==>
      Idle(s.ex, step.order.id) && step.order.filled == 0 && 0 < step.order.remaining < TWO_TO_32
  }

  ghost predicate AllProper(s: System, steps: seq<Step>)
    decreases |steps|
  {
    steps != [] ==> Proper(s, steps[0]) && AllProper(Do(s, steps[0]), steps[1..])
  }

  // ------------------------------------------------------------ the invariant

  /** Open quantities are what rests, trader by trader and symbol by symbol. */
  ghost predicate OpenIsResting(r: Risk, ex: Exch) {
    forall t: nat, s: string, side: Side :: At(r, t, s).Open(side) == Open(RestingOf(ex, s, side), t)
  }

  /** Each resting order is on the engine's books with its remaining quantity. */
  ghost predicate RestingIsExposed(r: Risk, ex: Exch) {
    forall s: string, side: Side :: Exposed(r, RestingOf(ex, s, side))
  }

  /** The engine's books list resting orders only. */
  ghost predicate ExposedIsResting(r: Risk, ex: Exch) {
    forall id :: id in r.exposures ==> !Idle(ex, id)
  }

  /** Positions are what has been traded. */
  ghost predicate PositionIsTraded(r: Risk, ex: Exch) {
    forall t: nat, s: string :: At(r, t, s).position == NetOf(ex.tape, t, s)
  }

  ghost predicate SysInv(s: System) {
    && Inv(s.ex)
    && Safe(s.risk)
    && OpenIsResting(s.risk, s.ex)
    && RestingIsExposed(s.risk, s.ex)
    && ExposedIsResting(s.risk, s.ex)
    && PositionIsTraded(s.risk, s.ex)
  }

  /** A risk engine on which only limits, none negative, have been set. */
  ghost predicate Configured(r: Risk) {
    && r.exposures == map[]
    && forall t: nat, s: string ::
         var e := At(r, t, s); e.position == 0 && e.openBuy == 0 && e.openSell == 0 && 0 <= e.maxLong && 0 <= e.maxShort
  }

  lemma StartHolds(r: Risk)
    requires Configured(r)
    ensures SysInv(System(Start, r))
  {
  }

  /** Limits are never touched. */
  ghost predicate SameLimits(r: Risk, r': Risk) {
    forall t: nat, s: string ::
      At(r', t, s).maxLong == At(r, t, s).maxLong && At(r', t, s).maxShort == At(r, t, s).maxShort
  }

  /** Within limits after approval and after each single report of the step. */
  ghost predicate SafeDuring(s: System, step: Step) {
    && Safe(s.risk)
    && (step.Order? && Approved(s, step.order).1 ==>
          SafeThroughout(Approved(s, step.order).0,
                         if step.order.symbol in s.ex.books then NewReports(s.ex, step.order) else []))
  }

  // ------------------------------------------------------------ approval and release

  lemma ApproveChanges(r: Risk, o: Ticket)
    requires Safe(r) && o.filled == 0
    ensures var (r', ok) := Approve(r, o.id, o.trader, o.symbol, o.side, o.remaining);
            && Safe(r')
            && SameLimits(r, r')
            && (forall t: nat, s: string :: At(r', t, s).position == At(r, t, s).position)
            && (forall t: nat, s: string, side: Side :: At(r', t, s).Open(side) == At(r, t, s).Open(side)
                  + if ok && t == o.trader && s == o.symbol && side == o.side then o.remaining else 0)
            && r'.exposures == if ok then r.exposures[o.id := ExposureOf(o)] else r.exposures
  {
    var (r', ok) := Approve(r, o.id, o.trader, o.symbol, o.side, o.remaining);
    forall t: nat, s: string ensures SafeState(At(r', t, s)) {
      assert SafeState(At(r, t, s));
    }
  }

  lemma ReleaseChanges(r: Risk, t: Ticket)
    requires Safe(r) && (t.id in r.exposures ==> r.exposures[t.id] == ExposureOf(t))
    requires t.id in r.exposures ==> t.remaining <= At(r, t.trader, t.symbol).Open(t.side)
    ensures var r' := Released(r, t.id);
            && Safe(r')
            && SameLimits(r, r')
            && (forall u: nat, s: string :: At(r', u, s).position == At(r, u, s).position)
            && (forall u: nat, s: string, side: Side :: At(r', u, s).Open(side) == At(r, u, s).Open(side)
                  - if t.id in r.exposures && u == t.trader && s == t.symbol && side == t.side then t.remaining else 0)
            && r'.exposures == r.exposures - {t.id}
  {
    var r' := Released(r, t.id);
    forall u: nat, s: string ensures SafeState(At(r', u, s)) {
      assert SafeState(At(r, u, s));
    }
  }

  lemma OpenOf(r: Risk, ex: Exch, t: nat, s: string, side: Side)
    requires OpenIsResting(r, ex)
    ensures At(r, t, s).Open(side) == Open(RestingOf(ex, s, side), t)
  {
  }

  lemma ExposedOf(r: Risk, ex: Exch, s: string, side: Side)
    requires RestingIsExposed(r, ex)
    ensures Exposed(r, RestingOf(ex, s, side))
  {
  }

  // ------------------------------------------------------------ cancelling

  /** Away from one book, resting orders and their exposures stay as they are. */
  lemma WithdrawKeeps(s: System, id: nat)
    requires SysInv(s) && Routed(s.ex, id)
    ensures SysInv(Do(s, Withdraw(id)))
    ensures SameLimits(s.risk, Do(s, Withdraw(id)).risk)
  {
    hide Inv, Safe, Released, Open, Remove, OpenIsResting, RestingIsExposed, ExposedIsResting, PositionIsTraded,
         SameLimits, Filed, BookInv, BookSpec.Cancel;
    var sym := s.ex.home[id];
    var t := Lookup(s.ex.books[sym], id);
    WithdrawnIsExposed(s, id);
    ReleaseChanges(s.risk, t);
    InvCancel(s.ex, id);
    WithdrawOpen(s, id, t);
    WithdrawExposed(s, id, t);
    WithdrawPositions(s.risk, s.ex, Released(s.risk, id), DoCancel(s.ex, id).0);
  }

  lemma WithdrawPositions(r: Risk, ex: Exch, r': Risk, ex': Exch)
    requires PositionIsTraded(r, ex) && ex'.tape == ex.tape
    requires forall u: nat, s: string :: At(r', u, s).position == At(r, u, s).position
    ensures PositionIsTraded(r', ex')
  {
    hide At;
  }

  lemma {:induction false} WithdrawnIsExposed(s: System, id: nat)
    requires SysInv(s) && Routed(s.ex, id)
    ensures var b := s.ex.books[s.ex.home[id]];
            var t := Lookup(b, id);
            && t.id == id && t.symbol == s.ex.home[id]
            && Holds(b.Get(t.side), id) && !Holds(b.Get(t.side.Opposite()), id)
            && t == b.Get(t.side)[Find(b.Get(t.side), id)]
            && id in s.risk.exposures && s.risk.exposures[id] == ExposureOf(t)
            && t.remaining <= At(s.risk, t.trader, t.symbol).Open(t.side)
  {
    hide Safe, Filed, Find, PositionIsTraded, ExposedIsResting, OpenIsResting, RestingIsExposed, At, Open;
    var sym := s.ex.home[id];
    var b := s.ex.books[sym];
    var t := Lookup(b, id);
    BookInvOf(s.ex, sym);
    LookupSide(b, id);
    LookupSymbol(b, id, sym);
    var q := RestingOf(s.ex, sym, t.side);
    ExposedOf(s.risk, s.ex, sym, t.side);
    OpenAtLeast(q, Find(q, id));
    OpenOf(s.risk, s.ex, t.trader, sym, t.side);
  }

  lemma {:induction false} WithdrawOpen(s: System, id: nat, t: Ticket)
    requires SysInv(s) && Routed(s.ex, id) && t == Lookup(s.ex.books[s.ex.home[id]], id) && t.symbol == s.ex.home[id]
    requires var b := s.ex.books[s.ex.home[id]];
             Holds(b.Get(t.side), id) && !Holds(b.Get(t.side.Opposite()), id)
             && t == b.Get(t.side)[Find(b.Get(t.side), id)]
    requires var r' := Released(s.risk, id);
             forall u: nat, y: string, side: Side :: At(r', u, y).Open(side) == At(s.risk, u, y).Open(side)
                  - if u == t.trader && y == t.symbol && side == t.side then t.remaining else 0
    ensures OpenIsResting(Released(s.risk, id), DoCancel(s.ex, id).0)
  {
    hide Find, Released, Inv, Safe, Exposed, RestingIsExposed, ExposedIsResting, PositionIsTraded;
    var b := s.ex.books[s.ex.home[id]];
    var ex' := DoCancel(s.ex, id).0;
    forall u: nat, y: string, side: Side
      ensures At(Released(s.risk, id), u, y).Open(side) == Open(RestingOf(ex', y, side), u)
    {
      assert At(s.risk, u, y).Open(side) == Open(RestingOf(s.ex, y, side), u);
      OpenRemove(b.Get(t.side), id, u);
      hide Open, Remove, Holds;
    }
  }

  lemma {:induction false} WithdrawExposed(s: System, id: nat, t: Ticket)
    requires SysInv(s) && Routed(s.ex, id)
    requires Released(s.risk, id).exposures == s.risk.exposures - {id}
    ensures RestingIsExposed(Released(s.risk, id), DoCancel(s.ex, id).0)
    ensures ExposedIsResting(Released(s.risk, id), DoCancel(s.ex, id).0)
  {
    hide Inv, Routed, DoCancel, RestingOf, Released, Idle, Safe, OpenIsResting, PositionIsTraded;
    var ex', r' := DoCancel(s.ex, id).0, Released(s.risk, id);
    forall y: string, side: Side, i: nat | i < |RestingOf(ex', y, side)|
      ensures var x := RestingOf(ex', y, side)[i];
              x.id in r'.exposures && r'.exposures[x.id] == ExposureOf(x) && x.remaining < TWO_TO_32
    {
      var j := SurvivorOf(s.ex, id, y, side, i);
      ExposedOf(s.risk, s.ex, y, side);
    }
    forall x | x in r'.exposures ensures !Idle(ex', x) {
      OtherStays(s.ex, id, x);
    }
  }

  lemma OtherStays(ex: Exch, id: nat, other: nat)
    requires Inv(ex) && !Idle(ex, other) && other != id
    ensures !Idle(DoCancel(ex, id).0, other)
  {
    var y :| y in ex.books && ex.books[y].Rests(other);
    CancelRouting(ex, id, y, other);
  }

  lemma NoLongerIn(ex: Exch, id: nat, y: string)
    requires Inv(ex) && y in DoCancel(ex, id).0.books
    ensures !DoCancel(ex, id).0.books[y].Rests(id)
  {
    CancelledIdle(ex, id);
  }

  /** What rests after a cancel rested before, under another id than the cancelled one. */
  lemma SurvivorOf(ex: Exch, id: nat, y: string, side: Side, i: nat) returns (j: nat)
    requires Inv(ex) && Routed(ex, id)
    requires i < |RestingOf(DoCancel(ex, id).0, y, side)|
    ensures var t := RestingOf(DoCancel(ex, id).0, y, side)[i];
            t.id != id && j < |RestingOf(ex, y, side)| && RestingOf(ex, y, side)[j] == t
  {
    hide Inv, Idle, Find, Remove, Lookup;
    var ex' := DoCancel(ex, id).0;
    var q, q' := RestingOf(ex, y, side), RestingOf(ex', y, side);
    NoLongerIn(ex, id, y);
    assert !Holds(q', id);
    if Holds(q, id) {
      RemovedAt(q, id);
    } else {
      RemoveAbsent(q, id);
    }
    j := if q == q' || i < Find(q, id) then i else i + 1;
  }

  // ------------------------------------------------------------ submitting

  /** Approving an order and releasing it at once leaves every quantity as it was. */
  lemma ApproveThenRelease(r: Risk, o: Ticket)
    requires Safe(r) && o.filled == 0 && o.id !in r.exposures
    requires forall t: nat, s: string, side: Side :: 0 <= At(r, t, s).Open(side)
    requires Approve(r, o.id, o.trader, o.symbol, o.side, o.remaining).1
    ensures var r' := Released(Approve(r, o.id, o.trader, o.symbol, o.side, o.remaining).0, o.id);
            && Safe(r')
            && r'.exposures == r.exposures
            && (forall t: nat, s: string :: At(r', t, s) == At(r, t, s))
  {
    ApproveChanges(r, o);
    var r0 := Approve(r, o.id, o.trader, o.symbol, o.side, o.remaining).0;
    ReleaseChanges(r0, o);
  }

  lemma ReleasedLimits(r: Risk, o: Ticket)
    ensures SameLimits(r, Released(Approve(r, o.id, o.trader, o.symbol, o.side, o.remaining).0, o.id))
  {
  }

  /** What submitting does to a book: nothing for a killed order, else a sweep of one side
      after which a remainder rests on the other or is cut off. */
  lemma SettledShape(b: BookV, o: Ticket)
    requires Filed(b) && 0 < o.remaining
    ensures var own, opp := b.Get(o.side), b.Get(o.side.Opposite());
            var m := Match(o.(status := NEW), opp);
            var r := BookSpec.Submit(b, o);
            var stays := o.kind.LIMIT? && o.tif.GTC?;
            || r == Submission(b, o.(status := CANCELLED), [])
            || (&& r.trades == m.trades
                && r.book.Get(o.side.Opposite()) == m.makers
                && r.book.Get(o.side) == (if stays && 0 < m.taker.remaining then Insert(own, m.taker) else own)
                && (r.order.status.CANCELLED? <==> !stays && 0 < m.taker.remaining)
                && !r.order.status.REJECTED? && r.order.id == o.id)
  {
    hide Match, CanFill, Levels, Insert, Filed, Traded, Open;
    SweepCounts(b, o.(status := NEW), o.trader, o.side);
    SettleShape(b, o.(status := NEW));
    hide Settle;
  }

  lemma SettleShape(b: BookV, o: Ticket)
    requires o.status.NEW? && 0 < o.remaining
    requires var m := Match(o, b.Get(o.side.Opposite()));
             && (m.trades == [] ==> m.taker == o)
             && (m.trades != [] ==> m.taker.status == if m.taker.remaining == 0 then FILLED else PARTIALLY_FILLED)
    ensures var own, opp := b.Get(o.side), b.Get(o.side.Opposite());
            var m := Match(o, opp);
            var r := Settle(b, o);
            && r.trades == m.trades
            && r.book.Get(o.side.Opposite()) == m.makers
            && r.book.Get(o.side) == (if Stays(o) && 0 < m.taker.remaining then Insert(own, m.taker) else own)
            && (r.order.status.CANCELLED? <==> !Stays(o) && 0 < m.taker.remaining)
            && !r.order.status.REJECTED? && r.order.id == o.id
  {
    hide Match, Insert;
  }

  lemma FacingOf(ex: Exch, o: Ticket)
    requires Inv(ex) && Idle(ex, o.id) && o.symbol in ex.books
    ensures Facing(o.(status := NEW), ex.books[o.symbol].Get(o.side.Opposite()))
  {
    var b := ex.books[o.symbol];
    assert BookInv(b, o.symbol) && !b.Rests(o.id);
  }

  lemma ExposedApproved(r: Risk, q: seq<Ticket>, o: Ticket)
    requires Exposed(r, q) && forall i :: 0 <= i < |q| ==> q[i].id != o.id
    ensures Exposed(r.(exposures := r.exposures[o.id := ExposureOf(o)]), q)
  {
  }

  /** After approval the order faces the opposite side, and the engine is in step. */
  lemma {:induction false} Approached(s: System, o: Ticket)
    requires SysInv(s) && Proper(s, Order(o)) && o.symbol in s.ex.books && Approved(s, o).1
    ensures var b := s.ex.books[o.symbol];
            var o' := o.(status := NEW);
            Midway(Approved(s, o).0, o', b.Get(o.side.Opposite()), b.Get(o.side))
            && Facing(o', b.Get(o.side.Opposite()))
  {
    hide Safe, Approve, Inv, Idle, Open, Tidy, OpenIsResting, RestingIsExposed, ExposedIsResting, PositionIsTraded,
         SameLimits;
    var b := s.ex.books[o.symbol];
    var opp := b.Get(o.side.Opposite());
    var r0 := Approved(s, o).0;
    FacingOf(s.ex, o);
    ApproveChanges(s.risk, o);
    ExposedOf(s.risk, s.ex, o.symbol, o.side.Opposite());
    ExposedApproved(s.risk, opp, o);
    forall t: nat
      ensures At(r0, t, o.symbol).Open(o.side.Opposite()) == Open(opp, t)
      ensures At(r0, t, o.symbol).Open(o.side) == Open(b.Get(o.side), t) + if t == o.trader then o.remaining else 0
    {
      OpenOf(s.risk, s.ex, t, o.symbol, o.side);
      OpenOf(s.risk, s.ex, t, o.symbol, o.side.Opposite());
    }
  }

  /** A settled submission, with the sweep `m` and the engine before and after its reports. */
  ghost predicate Landing(s: System, o: Ticket, m: Outcome, r1: Risk) {
    && o.symbol in s.ex.books && Approved(s, o).1
    && var b := s.ex.books[o.symbol];
       var o' := o.(status := NEW);
       && m == Match(o', b.Get(o.side.Opposite()))
       && Midway(r1, m.taker, m.makers, b.Get(o.side))
       && Along(Approved(s, o).0, o', b.Get(o.side.Opposite()), r1, m.taker, m.makers)
  }

  predicate Stays(o: Ticket) {
    o.kind.LIMIT? && o.tif.GTC?
  }

  function OwnAfter(b: BookV, o: Ticket, m: Outcome): seq<Ticket> {
    if Stays(o) && 0 < m.taker.remaining then Insert(b.Get(o.side), m.taker) else b.Get(o.side)
  }

  function Landed(o: Ticket, m: Outcome, r1: Risk): Risk {
    if !Stays(o) && 0 < m.taker.remaining then Released(r1, o.id) else r1
  }

  /** Only the order's book has changed, to what the sweep leaves. */
  ghost predicate Replaced(ex: Exch, o: Ticket, m: Outcome, ex': Exch) {
    && o.symbol in ex.books && o.symbol in ex'.books
    && ex'.books == ex.books[o.symbol := ex'.books[o.symbol]]
    && ex'.books[o.symbol].Get(o.side.Opposite()) == m.makers
    && ex'.books[o.symbol].Get(o.side) == OwnAfter(ex.books[o.symbol], o, m)
  }

  lemma {:induction false} LandedChanges(s: System, o: Ticket, m: Outcome, r1: Risk)
    requires SysInv(s) && Proper(s, Order(o)) && Landing(s, o, m, r1)
    ensures var r2 := Landed(o, m, r1);
            && Safe(r2) && SameLimits(r1, r2)
            && (forall u: nat, y: string :: At(r2, u, y).position == At(r1, u, y).position)
            && (forall u: nat, y: string, side: Side :: At(r2, u, y).Open(side) == At(r1, u, y).Open(side)
                  - if !Stays(o) && u == o.trader && y == o.symbol && side == o.side then m.taker.remaining else 0)
            && r2.exposures == if !Stays(o) && 0 < m.taker.remaining then r1.exposures - {o.id} else r1.exposures
  {
    if !Stays(o) && 0 < m.taker.remaining {
      assert r1.exposures[[m.taker][0].id] == ExposureOf(m.taker);
      assert At(r1, o.trader, o.symbol).Open(o.side)
          == Open(s.ex.books[o.symbol].Get(o.side), o.trader) + m.taker.remaining;
      hide Safe, Released, Match;
      ReleaseChanges(r1, m.taker);
    }
  }

  /** Open quantities once the order has landed. */
  lemma {:induction false} LandedQuantity(s: System, o: Ticket, m: Outcome, r1: Risk, u: nat, y: string, side: Side)
    requires SysInv(s) && Proper(s, Order(o)) && Landing(s, o, m, r1)
    ensures At(Landed(o, m, r1), u, y).Open(side)
            == if y != o.symbol then Open(RestingOf(s.ex, y, side), u)
               else if side == o.side then Open(OwnAfter(s.ex.books[o.symbol], o, m), u)
               else Open(m.makers, u)
  {
    hide Safe, Approve, Inv, Idle, Open, OpenIsResting, RestingIsExposed, ExposedIsResting, PositionIsTraded,
         SameLimits, Landed, Match, Insert, Exposed;
    LandedChanges(s, o, m, r1);
    ApproveChanges(s.risk, o);
    OpenOf(s.risk, s.ex, u, y, side);
    OpenInsert(s.ex.books[o.symbol].Get(o.side), m.taker, u);
  }

  lemma {:induction false} LandedOpen(s: System, o: Ticket, m: Outcome, r1: Risk, ex': Exch)
    requires SysInv(s) && Proper(s, Order(o)) && Landing(s, o, m, r1) && Replaced(s.ex, o, m, ex')
    ensures OpenIsResting(Landed(o, m, r1), ex')
  {
    hide SysInv, Proper, Landing, Landed, OwnAfter, Open, At;
    forall u: nat, y: string, side: Side
      ensures At(Landed(o, m, r1), u, y).Open(side) == Open(RestingOf(ex', y, side), u)
    {
      LandedQuantity(s, o, m, r1, u, y, side);
    }
  }

  /** An order that rests in one book rests in no other and on no other side. */
  lemma RestsOnce(ex: Exch, y: string, side: Side, i: nat, sym: string, opp: Side)
    requires Inv(ex) && sym in ex.books && i < |RestingOf(ex, y, side)|
    requires y != sym || side != opp
    ensures !Holds(ex.books[sym].Get(opp), RestingOf(ex, y, side)[i].id)
  {
    var q := RestingOf(ex, y, side);
    var id := q[i].id;
    assert Holds(q, id);
    assert ex.books[y].Rests(id);
    assert ex.home[id] == y;
    assert ex.books[sym].Rests(id) ==> ex.home[id] == sym;
    if y == sym {
      assert BookInv(ex.books[y], y);
      LookupSide(ex.books[y], id);
    }
  }

  lemma {:induction false} LandedExposed(s: System, o: Ticket, m: Outcome, r1: Risk, ex': Exch, y: string, side: Side)
    requires SysInv(s) && Proper(s, Order(o)) && Landing(s, o, m, r1) && Replaced(s.ex, o, m, ex')
    ensures Exposed(Landed(o, m, r1), RestingOf(ex', y, side))
  {
    hide Safe, Approve, Inv, Idle, Open, OpenIsResting, RestingIsExposed, ExposedIsResting, PositionIsTraded,
         SameLimits, Landed, Match, Insert, Along;
    var r2 := Landed(o, m, r1);
    LandedChanges(s, o, m, r1);
    if y == o.symbol && side == o.side.Opposite() {
      MakersNotTaker(s, o, m);
    } else {
      KeptExposed(s, o, m, r1, y, side);
      if y == o.symbol && Stays(o) && 0 < m.taker.remaining {
        InsertedExposed(r2, RestingOf(s.ex, y, side), m.taker);
      }
    }
  }

  lemma InsertedExposed(r: Risk, q: seq<Ticket>, t: Ticket)
    requires Exposed(r, q) && Exposed(r, [t])
    ensures Exposed(r, Insert(q, t))
  {
    hide Insert, Place;
    InsertAt(q, t);
    var k, q' := Place(q, t.side, t.price), Insert(q, t);
    forall i | 0 <= i < |q'|
      ensures q'[i].id in r.exposures && r.exposures[q'[i].id] == ExposureOf(q'[i]) && q'[i].remaining < TWO_TO_32
    {
      assert q'[i] == if i < k then q[i] else if i == k then [t][0] else q[i - 1];
    }
  }

  lemma MakersNotTaker(s: System, o: Ticket, m: Outcome)
    requires Inv(s.ex) && o.symbol in s.ex.books && Idle(s.ex, o.id)
    requires m == Match(o.(status := NEW), s.ex.books[o.symbol].Get(o.side.Opposite()))
    ensures forall i :: 0 <= i < |m.makers| ==> m.makers[i].id != o.id
  {
    var opp := s.ex.books[o.symbol].Get(o.side.Opposite());
    assert BookInv(s.ex.books[o.symbol], o.symbol) && !s.ex.books[o.symbol].Rests(o.id);
    MatchShape(o.(status := NEW), opp);
    hide Match, Find, Inv, Idle;
    forall i | 0 <= i < |m.makers| ensures m.makers[i].id != o.id {
      RemnantAt(m.makers, opp, i);
    }
  }

  /** The sweep leaves the exposures of all orders outside the swept queue alone. */
  lemma {:induction false} KeptExposed(s: System, o: Ticket, m: Outcome, r1: Risk, y: string, side: Side)
    requires SysInv(s) && Proper(s, Order(o)) && Landing(s, o, m, r1)
    requires y != o.symbol || side == o.side
    ensures Exposed(Landed(o, m, r1), RestingOf(s.ex, y, side))
  {
    hide Safe, Approve, Inv, Idle, Open, OpenIsResting, RestingIsExposed, ExposedIsResting, PositionIsTraded,
         SameLimits, Landed, Match, Insert, Midway, At, Holds, RestingOf;
    LandedChanges(s, o, m, r1);
    ApproveChanges(s.risk, o);
    var r2, q := Landed(o, m, r1), RestingOf(s.ex, y, side);
    ExposedOf(s.risk, s.ex, y, side);
    forall i | 0 <= i < |q|
      ensures q[i].id in r2.exposures && r2.exposures[q[i].id] == ExposureOf(q[i]) && q[i].remaining < TWO_TO_32
    {
      RestsOnce(s.ex, y, side, i, o.symbol, o.side.Opposite());
      NotIdle(s.ex, y, side, i);
    }
  }

  lemma NotIdle(ex: Exch, y: string, side: Side, i: nat)
    requires i < |RestingOf(ex, y, side)|
    ensures !Idle(ex, RestingOf(ex, y, side)[i].id)
  {
    assert ex.books[y].Rests(RestingOf(ex, y, side)[i].id);
  }

  /** Which of the orders that rested still rest. */
  lemma StillResting(ex: Exch, o: Ticket, m: Outcome, ex': Exch, id: nat)
    requires Replaced(ex, o, m, ex') && !Idle(ex, id)
    requires Holds(ex.books[o.symbol].Get(o.side.Opposite()), id) ==> Holds(m.makers, id)
    ensures !Idle(ex', id)
  {
    var y :| y in ex.books && ex.books[y].Rests(id);
    var b, b' := ex.books[o.symbol], ex'.books[o.symbol];
    InsertHolds(b.Get(o.side), m.taker, id);
    hide Find, Insert, Holds;
    assert y == o.symbol ==> Holds(b.Get(o.side), id) || Holds(b.Get(o.side.Opposite()), id);
    assert y == o.symbol ==> Holds(b'.Get(o.side), id) || Holds(b'.Get(o.side.Opposite()), id);
    assert ex'.books[y].Rests(id);
  }

  lemma NowResting(ex: Exch, o: Ticket, m: Outcome, ex': Exch)
    requires Replaced(ex, o, m, ex') && Stays(o) && 0 < m.taker.remaining && m.taker.id == o.id
    ensures !Idle(ex', o.id)
  {
    InsertHolds(ex.books[o.symbol].Get(o.side), m.taker, o.id);
    hide Find, Insert, Holds;
    assert Holds(ex'.books[o.symbol].Get(o.side), o.id);
    assert ex'.books[o.symbol].Rests(o.id);
  }

  lemma {:induction false} LandedResting(s: System, o: Ticket, m: Outcome, r1: Risk, ex': Exch, id: nat)
    requires SysInv(s) && Proper(s, Order(o)) && Landing(s, o, m, r1) && Replaced(s.ex, o, m, ex')
    requires id in Landed(o, m, r1).exposures
    ensures !Idle(ex', id)
  {
    hide Safe, Approve, Inv, Idle, Open, OpenIsResting, RestingIsExposed, PositionIsTraded, SameLimits,
         Landed, Insert, Midway, At, Holds, Replaced, OwnAfter;
    LandedChanges(s, o, m, r1);
    ApproveChanges(s.risk, o);
    if id == o.id {
      NowResting(s.ex, o, m, ex');
    } else {
      StillResting(s.ex, o, m, ex', id);
    }
  }

  // ------------------------------------------------------------ every step

  /** An order that is refused, or at once withdrawn because nothing came of it. */
  lemma NothingComes(s: System, o: Ticket, ex': Exch)
    requires SysInv(s) && Proper(s, Order(o)) && Approved(s, o).1
    requires ex'.books == s.ex.books && ex'.tape == s.ex.tape && Inv(ex')
    ensures SysInv(System(ex', Released(Approved(s, o).0, o.id)))
    ensures SameLimits(s.risk, Released(Approved(s, o).0, o.id))
    ensures Safe(Approved(s, o).0)
  {
    hide Inv, Approve, Released, Safe, SameLimits, Idle, OpenIsResting, RestingIsExposed, PositionIsTraded;
    assert o.id !in s.risk.exposures;
    ApproveChanges(s.risk, o);
    forall t: nat, y: string, side: Side ensures 0 <= At(s.risk, t, y).Open(side) {
      OpenOf(s.risk, s.ex, t, y, side);
    }
    ReleasedLimits(s.risk, o);
    ApproveThenRelease(s.risk, o);
    SameView(s.risk, s.ex, Released(Approved(s, o).0, o.id), ex');
  }

  /** The invariant speaks of books, trades, quantities and exposures only. */
  lemma SameView(r: Risk, ex: Exch, r': Risk, ex': Exch)
    requires ex'.books == ex.books && ex'.tape == ex.tape && r'.exposures == r.exposures
    requires forall t: nat, y: string :: At(r', t, y) == At(r, t, y)
    ensures OpenIsResting(r, ex) ==> OpenIsResting(r', ex')
    ensures RestingIsExposed(r, ex) ==> RestingIsExposed(r', ex')
    ensures ExposedIsResting(r, ex) ==> ExposedIsResting(r', ex')
    ensures PositionIsTraded(r, ex) ==> PositionIsTraded(r', ex')
  {
    hide At, Open;
    assert forall y: string, side: Side :: RestingOf(ex', y, side) == RestingOf(ex, y, side);
    if RestingIsExposed(r, ex) {
      forall y: string, side: Side ensures Exposed(r', RestingOf(ex', y, side)) {
        assert Exposed(r, RestingOf(ex, y, side));
      }
    }
    if OpenIsResting(r, ex) {
      forall t: nat, y: string, side: Side ensures At(r', t, y).Open(side) == Open(RestingOf(ex', y, side), t) {
        assert At(r, t, y).Open(side) == Open(RestingOf(ex, y, side), t);
      }
    }
  }

  lemma Refused(s: System, o: Ticket)
    requires SysInv(s) && Proper(s, Order(o)) && !Approved(s, o).1
    ensures SysInv(s.(risk := Approved(s, o).0)) && SameLimits(s.risk, Approved(s, o).0)
  {
    hide Inv, OpenIsResting, RestingIsExposed, ExposedIsResting, PositionIsTraded;
    ApproveChanges(s.risk, o);
    SameView(s.risk, s.ex, Approved(s, o).0, s.ex);
  }

  /** A submission that is swept. */
  lemma {:induction false} Swept(s: System, o: Ticket, m: Outcome, r1: Risk)
    requires SysInv(s) && Proper(s, Order(o)) && o.symbol in s.ex.books && Approved(s, o).1
    requires m == Match(o.(status := NEW), s.ex.books[o.symbol].Get(o.side.Opposite()))
    requires r1 == FilledAll(Approved(s, o).0, ReportsFrom(1 + |s.ex.tape|, m.trades))
    ensures Landing(s, o, m, r1)
    ensures SafeThroughout(Approved(s, o).0, ReportsFrom(1 + |s.ex.tape|, m.trades))
    ensures SameLimits(s.risk, r1)
    ensures forall t: nat, y: string :: At(r1, t, y).position == At(s.risk, t, y).position + NetOf(m.trades, t, y)
  {
    hide Inv, Approve, Match, OpenIsResting, RestingIsExposed, ExposedIsResting, PositionIsTraded, Idle, Facing, Midway,
         FilledAll, SafeThroughout, ReportsFrom;
    var b := s.ex.books[o.symbol];
    ApproveChanges(s.risk, o);
    Approached(s, o);
    SweepTracked(Approved(s, o).0, o.(status := NEW), b.Get(o.side.Opposite()), b.Get(o.side), 1 + |s.ex.tape|);
  }

  lemma {:induction false} LandedKeeps(s: System, o: Ticket, m: Outcome, r1: Risk, ex': Exch)
    requires SysInv(s) && Proper(s, Order(o)) && Landing(s, o, m, r1) && Replaced(s.ex, o, m, ex')
    requires ex'.tape == s.ex.tape + m.trades && Inv(ex') && SameLimits(s.risk, r1)
    requires forall t: nat, y: string :: At(r1, t, y).position == At(s.risk, t, y).position + NetOf(m.trades, t, y)
    ensures SysInv(System(ex', Landed(o, m, r1))) && SameLimits(s.risk, Landed(o, m, r1))
  {
    hide Inv, Landed, Landing, Replaced, Proper, Safe, At, OpenIsResting;
    var r2 := Landed(o, m, r1);
    LandedChanges(s, o, m, r1);
    LandedOpen(s, o, m, r1, ex');
    forall y: string, side: Side ensures Exposed(r2, RestingOf(ex', y, side)) {
      LandedExposed(s, o, m, r1, ex', y, side);
    }
    forall id | id in r2.exposures ensures !Idle(ex', id) {
      LandedResting(s, o, m, r1, ex', id);
    }
    forall t: nat, y: string ensures At(r2, t, y).position == NetOf(ex'.tape, t, y) {
      NetOfConcat(s.ex.tape, m.trades, t, y);
      assert At(s.risk, t, y).position == NetOf(s.ex.tape, t, y);
    }
  }

  lemma OrderKeeps(s: System, o: Ticket)
    requires SysInv(s) && Proper(s, Order(o))
    ensures SysInv(DoOrder(s, o)) && SameLimits(s.risk, DoOrder(s, o).risk) && SafeDuring(s, Order(o))
  {
    hide SysInv, Approved, BookSpec.Submit, SafeThroughout, FilledAll, Landed, Landing, Replaced, SameLimits, Released;
    var (r, ok) := Approved(s, o);
    assert Inv(s.ex) && Safe(s.risk) by { Parts(s); }
    InvSubmit(s.ex, o);
    var ex' := DoSubmit(s.ex, o).ex;
    if !ok {
      Refused(s, o);
    } else if o.symbol !in s.ex.books {
      NothingComes(s, o, ex');
      OneState(r);
    } else {
      ListedOrderKeeps(s, o);
    }
  }

  lemma Parts(s: System)
    requires SysInv(s)
    ensures Inv(s.ex) && Safe(s.risk)
  {
  }

  lemma OneState(r: Risk)
    requires Safe(r)
    ensures SafeThroughout(r, []) && FilledAll(r, []) == r
  {
  }

  lemma {:induction false} ListedOrderKeeps(s: System, o: Ticket)
    requires SysInv(s) && Proper(s, Order(o)) && Approved(s, o).1 && o.symbol in s.ex.books
    requires Inv(DoSubmit(s.ex, o).ex)
    ensures SysInv(DoOrder(s, o)) && SameLimits(s.risk, DoOrder(s, o).risk) && SafeDuring(s, Order(o))
  {
    hide SysInv, Approved, BookSpec.Submit, SafeThroughout, FilledAll, Landing, Released, Match, Inv, Insert, Safe;
    Parts(s);
    var ex' := DoSubmit(s.ex, o).ex;
    var b := s.ex.books[o.symbol];
    assert Filed(b) by { BookInvOf(s.ex, o.symbol); }
    SettledShape(b, o);
    hide Filed, SameLimits;
    var sub := BookSpec.Submit(b, o);
    var r := Approved(s, o).0;
    if sub == Submission(b, o.(status := CANCELLED), []) {
      NothingComes(s, o, ex');
      OneState(r);
      assert ReportsFrom(1 + |s.ex.tape|, []) == [];
    } else {
      var m := Match(o.(status := NEW), b.Get(o.side.Opposite()));
      var r1 := FilledAll(r, ReportsFrom(1 + |s.ex.tape|, m.trades));
      Swept(s, o, m, r1);
      LandedKeeps(s, o, m, r1, ex');
    }
  }

  /** Each proper step keeps the invariant, never touches a limit, and is safe throughout. */
  lemma StepKeeps(s: System, step: Step)
    requires SysInv(s) && Proper(s, step)
    ensures SysInv(Do(s, step)) && SameLimits(s.risk, Do(s, step).risk) && SafeDuring(s, step)
  {
    hide Inv, DoOrder, Released, DoCancel;
    match step
    case List(symbol) => Listed(s, symbol);
    case Order(o) => OrderKeeps(s, o);
    case Withdraw(id) =>
      if Routed(s.ex, id) {
        WithdrawKeeps(s, id);
      } else {
        NotRouted(s, id);
      }
  }

  lemma NotRouted(s: System, id: nat)
    requires SysInv(s) && !Routed(s.ex, id)
    ensures Do(s, Withdraw(id)) == s
  {
    hide Safe, OpenIsResting, RestingIsExposed, PositionIsTraded;
    forall y | y in s.ex.books ensures !s.ex.books[y].Rests(id) {
      assert s.ex.books[y].Rests(id) ==> Routed(s.ex, id);
    }
  }

  lemma {:induction false} Listed(s: System, symbol: string)
    requires SysInv(s)
    ensures SysInv(Do(s, List(symbol)))
  {
    var ex' := DoAddSymbol(s.ex, symbol).0;
    InvApply(s.ex, AddSymbol(symbol));
    hide Inv, Safe;
    forall y: string, side: Side ensures RestingOf(ex', y, side) == RestingOf(s.ex, y, side) {
    }
    hide RestingOf;
    forall id ensures !Idle(s.ex, id) ==> !Idle(ex', id) {
      if !Idle(s.ex, id) {
        var y :| y in s.ex.books && s.ex.books[y].Rests(id);
        assert ex'.books[y].Rests(id);
      }
    }
    hide Idle;
    ListedView(s.risk, s.ex, ex');
  }

  lemma ListedView(r: Risk, ex: Exch, ex': Exch)
    requires forall y: string, side: Side :: RestingOf(ex', y, side) == RestingOf(ex, y, side)
    requires forall id :: !Idle(ex, id) ==> !Idle(ex', id)
    requires ex'.tape == ex.tape
    ensures OpenIsResting(r, ex) ==> OpenIsResting(r, ex')
    ensures RestingIsExposed(r, ex) ==> RestingIsExposed(r, ex')
    ensures ExposedIsResting(r, ex) ==> ExposedIsResting(r, ex')
    ensures PositionIsTraded(r, ex) ==> PositionIsTraded(r, ex')
  {
    hide At, Open, RestingOf, Idle, Exposed;
  }

  // ------------------------------------------------------------ every run

  /** Every step of the run is safe, down to the single report. */
  ghost predicate SafeRun(s: System, steps: seq<Step>)
    decreases |steps|
  {
    Safe(s.risk) && (steps != [] ==> SafeDuring(s, steps[0]) && SafeRun(Do(s, steps[0]), steps[1..]))
  }

  lemma {:induction false} RunKeeps(s: System, steps: seq<Step>)
    requires SysInv(s) && AllProper(s, steps)
    ensures SysInv(DoAll(s, steps)) && SafeRun(s, steps) && SameLimits(s.risk, DoAll(s, steps).risk)
    decreases |steps|
  {
    hide Do, SafeDuring, Proper;
    if steps != [] {
      StepKeeps(s, steps[0]);
      RunKeeps(Do(s, steps[0]), steps[1..]);
    }
  }

  /** In every run from a configured engine and an empty exchange: limits hold after every
      report of every step; open quantities are the unfilled shares of what rests; positions
      are what has been traded. */
  lemma RiskNeverExceeded(r: Risk, steps: seq<Step>, trader: nat, symbol: string)
    requires Configured(r) && AllProper(System(Start, r), steps)
    ensures SafeRun(System(Start, r), steps)
    ensures var end := DoAll(System(Start, r), steps);
            var e := At(end.risk, trader, symbol);
            && -At(r, trader, symbol).maxShort <= e.position <= At(r, trader, symbol).maxLong
            && e.openBuy == Open(RestingOf(end.ex, symbol, BUY), trader)
            && e.openSell == Open(RestingOf(end.ex, symbol, SELL), trader)
            && e.position == NetOf(end.ex.tape, trader, symbol)
  {
    var s := System(Start, r);
    StartHolds(r);
    RunKeeps(s, steps);
    hide Start, DoAll, SafeRun, AllProper, Configured, Open, RestingOf, NetOf, Inv;
    var end := DoAll(s, steps);
    SafePosition(end.risk, trader, symbol);
    OpenOf(end.risk, end.ex, trader, symbol, BUY);
    OpenOf(end.risk, end.ex, trader, symbol, SELL);
  }

  /** An approved order reaches the exchange as it is; a refused one does not, and costs nothing. */
  lemma OnlyApprovedReach(s: System, o: Ticket, t: nat, y: string)
    ensures var (r, ok) := Approved(s, o);
            && (ok ==> Do(s, Order(o)).ex == DoSubmit(s.ex, o).ex)
            && (!ok ==> Do(s, Order(o)).ex == s.ex && At(Do(s, Order(o)).risk, t, y) == At(s.risk, t, y)
                        && Do(s, Order(o)).risk.exposures == s.risk.exposures)
  {
    hide DoSubmit, FilledAll, Released;
  }

  /** In every run from a configured engine and an empty exchange, an order is let through
      exactly when the shares its trader has bought and sold so far, the trader's shares resting
      on the order's side, and the order itself stay together within the configured limit. */
  lemma LetThroughExactlyWhen(r: Risk, steps: seq<Step>, o: Ticket)
    requires Configured(r) && AllProper(System(Start, r), steps)
    ensures var s := DoAll(System(Start, r), steps);
            var net := NetOf(s.ex.tape, o.trader, o.symbol);
            var waiting := Open(RestingOf(s.ex, o.symbol, o.side), o.trader);
            var limits := At(r, o.trader, o.symbol);
            Approved(s, o).1
            <==> if o.side.BUY? then net + waiting + o.filled + o.remaining <= limits.maxLong
                 else -limits.maxShort <= net - waiting - (o.filled + o.remaining)
  {
    hide Start, DoAll, SafeRun, AllProper, Configured, Open, RestingOf, NetOf, Inv, Approve, At;
    RunKeeps(System(Start, r), steps) by { StartHolds(r); }
    var s := DoAll(System(Start, r), steps);
    RiskNeverExceeded(r, steps, o.trader, o.symbol);
    ApprovedWhen(s.risk, o.id, o.trader, o.symbol, o.side, o.filled + o.remaining, o.trader, o.symbol);
  }
}
