/** The market maker trading on the exchange: its position stays within its limit plus one
    quote, whatever the prices and whatever the other traders do. */
module MakerRuns {
  import opened Types
  import opened Sweep
  import opened BookSpec
  import opened ExchangeSpec
  import opened TraderShares
  import opened TradingAgents
  import opened MarketMakers

  // ------------------------------------------------------------ whose orders rest

  /** Ids that the trader's own counter makes; traders with the same lower half share them. */
  predicate OwnId(trader: nat, id: nat) {
    id / TWO_TO_32 == trader % TWO_TO_32 && id % TWO_TO_32 != 0
  }

  /** In this queue the trader owns exactly the orders with its ids, and at most order `live`. */
  ghost predicate Staffed(q: seq<Ticket>, trader: nat, live: nat) {
    forall i :: 0 <= i < |q| ==> MayStand(q[i], trader, live)
  }

  predicate MayStand(t: Ticket, trader: nat, live: nat) {
    (t.trader == trader <==> OwnId(trader, t.id)) && (t.trader == trader ==> t.id == live)
  }

  ghost predicate Crewed(b: BookV, trader: nat, bidId: nat, askId: nat) {
    Staffed(b.bids, trader, bidId) && Staffed(b.asks, trader, askId)
  }

  function LiveId(side: Side, bidId: nat, askId: nat): nat {
    if side.BUY? then bidId else askId
  }

  lemma NobodyOpen(q: seq<Ticket>, trader: nat)
    requires Staffed(q, trader, 0)
    ensures Open(q, trader) == 0
  {
    OpenNone(q, trader);
  }

  lemma {:induction false} StaffedSwept(taker: Ticket, makers: seq<Ticket>, trader: nat, live: nat)
    requires Queue(makers, taker.side.Opposite()) && Staffed(makers, trader, live)
    ensures Staffed(Match(taker, makers).makers, trader, live)
  {
    var after := Match(taker, makers).makers;
    MatchShape(taker, makers);
    hide Match;
    forall i | 0 <= i < |after| ensures MayStand(after[i], trader, live) {
      RemnantAt(after, makers, i);
      assert MayStand(makers[|makers| - |after| + i], trader, live);
    }
  }

  lemma {:induction false} StaffedInsert(q: seq<Ticket>, t: Ticket, trader: nat, live: nat)
    requires Staffed(q, trader, live) && MayStand(t, trader, live)
    ensures Staffed(Insert(q, t), trader, live)
  {
    hide MayStand;
    if q != [] && Rank(t.side, q[0].price) <= Rank(t.side, t.price) {
      StaffedInsert(q[1..], t, trader, live);
    }
  }

  lemma {:induction false} StaffedRemove(q: seq<Ticket>, id: nat, trader: nat, live: nat)
    requires Staffed(q, trader, live)
    ensures Staffed(Remove(q, id), trader, live)
  {
    hide MayStand;
    if q != [] && q[0].id != id {
      StaffedRemove(q[1..], id, trader, live);
    }
  }

  lemma SubmitCrewed(b: BookV, o: Ticket, trader: nat, bidId: nat, askId: nat)
    requires Filed(b) && Crewed(b, trader, bidId, askId) && MayStand(o, trader, LiveId(o.side, bidId, askId))
    ensures Crewed(BookSpec.Submit(b, o).book, trader, bidId, askId)
  {
    hide Match, CanFill, Levels, Insert, Queue, DistinctIds, DisjointIds, BookSpec.Submit, Staffed, OwnId, RestOrDrop;
    var o' := o.(status := NEW);
    var opp := b.Get(o.side.Opposite());
    StaffedSwept(o', opp, trader, LiveId(o.side.Opposite(), bidId, askId));
    StaffedInsert(b.Get(o.side), Match(o', opp).taker, trader, LiveId(o.side, bidId, askId));
    SubmitSides(b, o);
  }

  lemma CancelCrewed(b: BookV, id: nat, trader: nat, bidId: nat, askId: nat)
    requires Crewed(b, trader, bidId, askId)
    ensures Crewed(BookSpec.Cancel(b, id), trader, bidId, askId)
  {
    StaffedRemove(b.bids, id, trader, bidId);
    StaffedRemove(b.asks, id, trader, askId);
    hide Remove, Find, Staffed;
  }

  /** A resting order that is not the trader's by its id is not the trader's at all. */
  lemma ForeignTicket(b: BookV, id: nat, trader: nat, bidId: nat, askId: nat)
    requires Filed(b) && Crewed(b, trader, bidId, askId) && b.Rests(id) && !OwnId(trader, id)
    ensures var t := Lookup(b, id);
            t.id == id && t.trader != trader && forall live: nat :: MayStand(t, trader, live)
  {
    hide OwnId;
    LookupSide(b, id);
    var t := Lookup(b, id);
    assert MayStand(t, trader, LiveId(t.side, bidId, askId));
  }

  lemma ModifyCrewed(b: BookV, id: nat, price: real, qty: nat, trader: nat, bidId: nat, askId: nat)
    requires Filed(b) && Crewed(b, trader, bidId, askId) && b.Rests(id) && !OwnId(trader, id)
    ensures Crewed(BookSpec.Modify(b, id, price, qty).book, trader, bidId, askId)
  {
    hide OwnId, Filed, Staffed, BookSpec.Submit, BookSpec.Cancel, Find, Remove;
    var t := Lookup(b, id);
    ForeignTicket(b, id, trader, bidId, askId);
    if LosesPlace(t, price, qty) {
      CancelKeepsFiled(b, id);
      CancelCrewed(b, id, trader, bidId, askId);
      SubmitCrewed(BookSpec.Cancel(b, id), Amended(t, price, qty), trader, bidId, askId);
    } else if qty < t.remaining {
      ShrinkCrewed(b, id, qty, trader, bidId, askId);
    }
  }

  lemma ShrinkCrewed(b: BookV, id: nat, qty: nat, trader: nat, bidId: nat, askId: nat)
    requires Crewed(b, trader, bidId, askId) && b.Rests(id)
    ensures Crewed(Shrink(b, id, qty), trader, bidId, askId)
  {
    hide OwnId;
    forall i | 0 <= i < |b.bids| ensures MayStand(Shrink(b, id, qty).bids[i], trader, bidId) {
      assert MayStand(b.bids[i], trader, bidId);
    }
    forall i | 0 <= i < |b.asks| ensures MayStand(Shrink(b, id, qty).asks[i], trader, askId) {
      assert MayStand(b.asks[i], trader, askId);
    }
  }

  // ------------------------------------------------------------ the trader's shares

  /** Others' modifications leave the trader's open and traded shares in balance. */
  lemma {:induction false} OpenShrunk(q: seq<Ticket>, k: nat, t: Ticket, trader: nat)
    requires k < |q| && q[k].trader != trader && t.trader != trader
    ensures Open(q[k := t], trader) == Open(q, trader)
  {
    var q' := q[k := t];
    if k == 0 {
      assert q'[1..] == q[1..];
    } else {
      assert q'[1..] == q[1..][k - 1 := t];
      OpenShrunk(q[1..], k - 1, t, trader);
    }
  }

  lemma CancelShares(b: BookV, id: nat, trader: nat, side: Side)
    requires Filed(b) && b.Rests(id) && Lookup(b, id).trader != trader
    ensures Open(BookSpec.Cancel(b, id).Get(side), trader) == Open(b.Get(side), trader)
  {
    if Holds(b.Get(side), id) {
      LookupSide(b, id);
      hide Filed;
      OpenRemove(b.Get(side), id, trader);
    }
    hide Remove, Open;
  }

  lemma ModifyShares(b: BookV, id: nat, price: real, qty: nat, trader: nat, side: Side)
    requires Filed(b) && b.Rests(id) && Lookup(b, id).trader != trader
    ensures var r := BookSpec.Modify(b, id, price, qty);
            Open(r.book.Get(side), trader) + Traded(r.trades, trader, side) == Open(b.Get(side), trader)
  {
    hide Filed, BookSpec.Submit, BookSpec.Cancel, Find, Remove, Open;
    var t := Lookup(b, id);
    if LosesPlace(t, price, qty) {
      CancelKeepsFiled(b, id);
      CancelShares(b, id, trader, side);
      SubmitShares(BookSpec.Cancel(b, id), Amended(t, price, qty), trader, side);
    } else if qty < t.remaining {
      var q := b.Get(if Holds(b.bids, id) then BUY else SELL);
      OpenShrunk(q, Find(q, id), t.(remaining := qty), trader);
    }
  }

  // ------------------------------------------------------------ one operation of the exchange

  /** The trader's resting orders are at most its two live quotes in its symbol. */
  ghost predicate Manned(ex: Exch, trader: nat, symbol: string, bidId: nat, askId: nat) {
    forall s :: s in ex.books ==>
      Crewed(ex.books[s], trader, if s == symbol then bidId else 0, if s == symbol then askId else 0)
  }

  /** The operation submits no order under the trader's name or ids except one of its quotes,
      and cancels or modifies no order under its ids. */
  predicate Fits(op: Op, trader: nat, symbol: string, bidId: nat, askId: nat) {
    match op
    case AddSymbol(_) => true
    case Submit(o) => MayStand(o, trader, if o.symbol == symbol then LiveId(o.side, bidId, askId) else 0)
    case Cancel(id) => !OwnId(trader, id)
    case Modify(id, _, _) => !OwnId(trader, id)
  }

  lemma {:induction false} OpManned(ex: Exch, op: Op, trader: nat, symbol: string, bidId: nat, askId: nat)
    requires Inv(ex) && Manned(ex, trader, symbol, bidId, askId) && Fits(op, trader, symbol, bidId, askId)
    ensures Manned(Apply(ex, op), trader, symbol, bidId, askId)
  {
    hide Inv, BookSpec.Submit, BookSpec.Cancel, BookSpec.Modify, Filed, MayStand, OwnId;
    match op
    case AddSymbol(_) =>
    case Submit(o) =>
      if o.symbol in ex.books {
        BookInvOf(ex, o.symbol);
        SubmitCrewed(ex.books[o.symbol], o, trader, if o.symbol == symbol then bidId else 0,
                     if o.symbol == symbol then askId else 0);
      }
      hide Crewed;
    case Cancel(id) =>
      if Routed(ex, id) {
        var s := ex.home[id];
        CancelCrewed(ex.books[s], id, trader, if s == symbol then bidId else 0, if s == symbol then askId else 0);
      }
      hide Crewed;
    case Modify(id, price, qty) =>
      if Routed(ex, id) && qty != 0 {
        var s := ex.home[id];
        BookInvOf(ex, s);
        ModifyCrewed(ex.books[s], id, price, qty, trader, if s == symbol then bidId else 0,
                     if s == symbol then askId else 0);
      }
      hide Crewed;
  }

  /** Shares the trader puts up on one side. */
  function Placed(op: Op, trader: nat, side: Side): nat {
    if op.Submit? && op.order.trader == trader && op.order.side == side then op.order.remaining else 0
  }

  lemma NobodyIn(b: BookV, trader: nat, side: Side)
    requires Crewed(b, trader, 0, 0)
    ensures Open(b.Get(side), trader) == 0
  {
    NobodyOpen(b.Get(side), trader);
  }

  /** What the trader has open in its symbol and what it has just traded, anywhere, come out
      of what it had open and what it puts up. */
  lemma OpShares(ex: Exch, op: Op, trader: nat, symbol: string, bidId: nat, askId: nat, side: Side)
    requires Inv(ex) && Manned(ex, trader, symbol, bidId, askId) && Fits(op, trader, symbol, bidId, askId)
    ensures Open(RestingOf(Apply(ex, op), symbol, side), trader) + Traded(TradesOf(ex, op), trader, side)
            <= Open(RestingOf(ex, symbol, side), trader) + Placed(op, trader, side)
  {
    hide Inv, BookSpec.Submit, BookSpec.Cancel, BookSpec.Modify, Filed, Crewed, Open, OwnId;
    match op
    case AddSymbol(_) =>
    case Submit(o) =>
      if o.symbol in ex.books {
        BookInvOf(ex, o.symbol);
        var b := ex.books[o.symbol];
        SubmitShares(b, o, trader, side);
        if o.symbol != symbol {
          NobodyIn(b, trader, side);
          NoOwnZero(trader);
        }
      }
    case Cancel(id) =>
      if Routed(ex, id) {
        var s := ex.home[id];
        BookInvOf(ex, s);
        ForeignTicket(ex.books[s], id, trader, if s == symbol then bidId else 0, if s == symbol then askId else 0);
        CancelShares(ex.books[s], id, trader, side);
      }
    case Modify(id, price, qty) =>
      if Routed(ex, id) && qty != 0 {
        var s := ex.home[id];
        BookInvOf(ex, s);
        ForeignTicket(ex.books[s], id, trader, if s == symbol then bidId else 0, if s == symbol then askId else 0);
        ModifyShares(ex.books[s], id, price, qty, trader, side);
        if s != symbol {
          NobodyIn(ex.books[s], trader, side);
        }
      }
  }

  lemma NoOwnZero(trader: nat)
    ensures !OwnId(trader, 0)
  {
  }

  lemma {:induction false} SubmitIdle(ex: Exch, o: Ticket, id: nat)
    requires Inv(ex) && Idle(ex, o.id) && Idle(ex, id) && o.id != id
    ensures Idle(DoSubmit(ex, o).ex, id)
  {
    hide Inv, BookSpec.Submit, BookInv, FairTape, BookV.Rests;
    if o.symbol in ex.books {
      SubmitFacts(ex, o);
    }
  }

  lemma {:induction false} CancelKeepsIdle(ex: Exch, c: nat, id: nat)
    requires Inv(ex) && Idle(ex, id)
    ensures Idle(DoCancel(ex, c).0, id)
  {
    hide Inv, BookSpec.Cancel, BookV.Rests, Filed;
    if Routed(ex, c) {
      BookInvOf(ex, ex.home[c]);
      CancelRemovesOnly(ex.books[ex.home[c]], c, id);
      hide BookInv;
    }
  }

  lemma {:induction false} ModifyIdle(ex: Exch, m: nat, price: real, qty: nat, id: nat)
    requires Inv(ex) && Idle(ex, id)
    ensures Idle(DoModify(ex, m, price, qty).0, id)
  {
    hide Inv, BookSpec.Modify, BookV.Rests, WellFormed;
    if Routed(ex, m) && qty != 0 {
      BookInvOf(ex, ex.home[m]);
      RestsAfterModify(ex.books[ex.home[m]], m, price, qty, id);
      hide BookInv, Lookup, LosesPlace;
    }
  }

  /** An id that rests nowhere and is not being submitted still rests nowhere. */
  lemma {:induction false} OpIdle(ex: Exch, op: Op, id: nat)
    requires Inv(ex) && Allowed(ex, op) && Idle(ex, id) && (op.Submit? ==> op.order.id != id)
    ensures Idle(Apply(ex, op), id)
  {
    hide Inv, DoSubmit, DoCancel, DoModify;
    match op
    case AddSymbol(_) =>
    case Submit(o) => SubmitIdle(ex, o, id);
    case Cancel(c) => CancelKeepsIdle(ex, c, id);
    case Modify(m, price, qty) => ModifyIdle(ex, m, price, qty, id);
  }

  // ------------------------------------------------------------ hearing of fills

  /** The account after those of the reports that are addressed to the trader. */
  function Heard(a: Account, rs: seq<Report>, trader: nat): Account
    decreases |rs|
  {
    if rs == [] then a
    else
      Heard(if rs[0].trader == trader then Record(a, Fill(rs[0].side, rs[0].price, rs[0].qty)) else a,
            rs[1..], trader)
  }

  function SharesIn(rs: seq<Report>, trader: nat, side: Side): nat {
    if rs == [] then 0
    else (if rs[0].trader == trader && rs[0].side == side then rs[0].qty else 0) + SharesIn(rs[1..], trader, side)
  }

  lemma {:induction false} SharesInConcat(a: seq<Report>, b: seq<Report>, trader: nat, side: Side)
    ensures SharesIn(a + b, trader, side) == SharesIn(a, trader, side) + SharesIn(b, trader, side)
  {
    if a == [] {
      assert a + b == b;
    } else {
      TailOfConcat(a, b);
      SharesInConcat(a[1..], b, trader, side);
    }
  }

  lemma RecordMoves(a: Account, f: Fill)
    ensures Record(a, f).inventory == if f.side.BUY? then a.inventory + f.qty else a.inventory - f.qty
  {
  }

  lemma {:induction false} HeardNet(a: Account, rs: seq<Report>, trader: nat)
    ensures Heard(a, rs, trader).inventory
            == a.inventory + SharesIn(rs, trader, BUY) - SharesIn(rs, trader, SELL)
    decreases |rs|
  {
    hide Record;
    if rs != [] {
      var f := Fill(rs[0].side, rs[0].price, rs[0].qty);
      RecordMoves(a, f);
      HeardNet(if rs[0].trader == trader then Record(a, f) else a, rs[1..], trader);
    }
  }

  /** Part way through the reports the inventory has moved by no more than all of them could. */
  lemma HeardPartly(a: Account, rs: seq<Report>, trader: nat, k: nat)
    requires k <= |rs|
    ensures a.inventory - SharesIn(rs, trader, SELL) <= Heard(a, rs[..k], trader).inventory
            <= a.inventory + SharesIn(rs, trader, BUY)
  {
    HeardNet(a, rs[..k], trader);
    SharesInConcat(rs[..k], rs[k..], trader, BUY);
    SharesInConcat(rs[..k], rs[k..], trader, SELL);
    assert rs[..k] + rs[k..] == rs;
  }

  lemma PairShares(e: nat, t: Trade, trader: nat, side: Side)
    ensures SharesIn([MakerReport(e, t), TakerReport(e, t)], trader, side) == TradedIn(t, trader, side)
  {
    var m, f := MakerReport(e, t), TakerReport(e, t);
    assert [m, f][1..] == [f] && [f][1..] == [];
    assert SharesIn([f], trader, side) == if f.trader == trader && f.side == side then f.qty else 0;
  }

  lemma {:induction false} ReportedShares(e: nat, ts: seq<Trade>, trader: nat, side: Side)
    ensures SharesIn(ReportsFrom(e, ts), trader, side) == Traded(ts, trader, side)
  {
    hide TradedIn;
    if ts != [] {
      var n := |ts| - 1;
      ReportedShares(e, ts[..n], trader, side);
      SharesInConcat(ReportsFrom(e, ts[..n]), [MakerReport(e + n, ts[n]), TakerReport(e + n, ts[n])], trader, side);
      PairShares(e + n, ts[n], trader, side);
      TradedConcat(ts[..n], [ts[n]], trader, side);
      assert ts[..n] + [ts[n]] == ts;
      assert [ts[n]][1..] == [];
    }
  }

  // ------------------------------------------------------------ the desk

  /** Exchange, market maker, and the quotes it has handed back but not yet submitted. */
  datatype Desk = Desk(ex: Exch, maker: Maker, pending: seq<Ticket>)

  datatype Move = OnTick(mid: real) | Post | Others(op: Op)

  function NewReports(d: Desk, op: Op): seq<Report> {
    ReportsFrom(1 + |d.ex.tape|, TradesOf(d.ex, op))
  }

  /** The exchange performs an operation and the market maker hears of its fills. */
  function Hear(d: Desk, op: Op): Desk {
    d.(ex := Apply(d.ex, op), maker := d.maker.(books := Heard(d.maker.books, NewReports(d, op), d.maker.trader)))
  }

  function Go(d: Desk, move: Move): Desk {
    match move
    case OnTick(mid) => var (m, ex, quotes) := Tick(d.maker, d.ex, mid); Desk(ex, m, quotes)
    case Post => if d.pending == [] then d else Hear(d, Submit(d.pending[0])).(pending := d.pending[1..])
    case Others(op) => Hear(d, op)
  }

  function GoAll(d: Desk, moves: seq<Move>): Desk
    decreases |moves|
  {
    if moves == [] then d else GoAll(Go(d, moves[0]), moves[1..])
  }

  /** The quotes of a tick are submitted before the next tick, the 32-bit order counter has
      room, submitted orders are not already resting, and others keep to their own ids. */
  ghost predicate Playable(d: Desk, move: Move) {
    match move
    case OnTick(_) => d.pending == [] && d.maker.counter + 2 < TWO_TO_32
    case Post => true
    case Others(op) =>
      Allowed(d.ex, op)
      && match op
         case AddSymbol(_) => true
         case Submit(o) => o.trader != d.maker.trader && !OwnId(d.maker.trader, o.id)
         case Cancel(id) => !OwnId(d.maker.trader, id)
         case Modify(id, _, _) => !OwnId(d.maker.trader, id)
  }

  ghost predicate AllPlayable(d: Desk, moves: seq<Move>)
    decreases |moves|
  {
    moves != [] ==> Playable(d, moves[0]) && AllPlayable(Go(d, moves[0]), moves[1..])
  }

  function OnTheWay(pending: seq<Ticket>, side: Side): nat {
    if pending == [] then 0
    else (if pending[0].side == side then pending[0].remaining else 0) + OnTheWay(pending[1..], side)
  }

  /** The furthest the position can be pushed. */
  function Limit(c: Config): int {
    c.maxPosition + c.quoteQty - 1
  }

  ghost predicate ReadyQuote(d: Desk, o: Ticket) {
    && o.trader == d.maker.trader && OwnId(o.trader, o.id) && o.symbol == d.maker.symbol
    && o.id == LiveId(o.side, d.maker.bidId, d.maker.askId)
    && Idle(d.ex, o.id)
  }

  ghost predicate Ready(d: Desk) {
    && (forall i :: 0 <= i < |d.pending| ==> ReadyQuote(d, d.pending[i]))
    && (forall i, j :: 0 <= i < j < |d.pending| ==> d.pending[i].id != d.pending[j].id)
  }

  /** Inventory, live bid and bid on its way stay within the limit together; likewise asks. */
  ghost predicate Covered(d: Desk) {
    var m := d.maker;
    && m.books.inventory + Open(RestingOf(d.ex, m.symbol, BUY), m.trader) + OnTheWay(d.pending, BUY) <= Limit(m.cfg)
    && -Limit(m.cfg) <= m.books.inventory - Open(RestingOf(d.ex, m.symbol, SELL), m.trader) - OnTheWay(d.pending, SELL)
  }

  /** The inventory is what the maker has bought less what it has sold on the exchange's tape. */
  ghost predicate Booked(d: Desk) {
    var m := d.maker;
    m.books.inventory == Traded(d.ex.tape, m.trader, BUY) - Traded(d.ex.tape, m.trader, SELL)
  }

  ghost predicate DeskInv(d: Desk) {
    && Inv(d.ex)
    && Manned(d.ex, d.maker.trader, d.maker.symbol, d.maker.bidId, d.maker.askId)
    && Ready(d)
    && Covered(d)
    && Booked(d)
  }

  ghost predicate Bounded(m: Maker, inventory: int) {
    -Limit(m.cfg) <= inventory <= Limit(m.cfg)
  }

  /** Within bounds before the move and after each single report it causes. */
  ghost predicate BoundedDuring(d: Desk, move: Move) {
    && Bounded(d.maker, d.maker.books.inventory)
    && (move.Post? && d.pending != [] ==> BoundedHearing(d, Submit(d.pending[0])))
    && (move.Others? ==> BoundedHearing(d, move.op))
  }

  ghost predicate BoundedHearing(d: Desk, op: Op) {
    forall k :: 0 <= k <= |NewReports(d, op)| ==>
      Bounded(d.maker, Heard(d.maker.books, NewReports(d, op)[..k], d.maker.trader).inventory)
  }

  // ------------------------------------------------------------ hearing keeps the invariant

  /** What the operation puts up was on its way, and has left `rest` behind. */
  lemma {:induction false} HearCovered(d: Desk, op: Op, rest: seq<Ticket>)
    requires DeskInv(d) && Fits(op, d.maker.trader, d.maker.symbol, d.maker.bidId, d.maker.askId)
    requires forall side: Side :: OnTheWay(rest, side) + Placed(op, d.maker.trader, side) <= OnTheWay(d.pending, side)
    ensures Covered(Hear(d, op).(pending := rest)) && BoundedHearing(d, op)
  {
    hide Inv, Manned, Ready, Booked, Fits, Apply, TradesOf, ReportsFrom, Heard, Traded, Open, OnTheWay, Placed,
         RestingOf, SharesIn;
    var m := d.maker;
    var rs := NewReports(d, op);
    OpShares(d.ex, op, m.trader, m.symbol, m.bidId, m.askId, BUY);
    OpShares(d.ex, op, m.trader, m.symbol, m.bidId, m.askId, SELL);
    ReportedShares(1 + |d.ex.tape|, TradesOf(d.ex, op), m.trader, BUY);
    ReportedShares(1 + |d.ex.tape|, TradesOf(d.ex, op), m.trader, SELL);
    HeardNet(m.books, rs, m.trader);
    forall k | 0 <= k <= |rs| ensures Bounded(m, Heard(m.books, rs[..k], m.trader).inventory) {
      HeardPartly(m.books, rs, m.trader, k);
    }
  }

  /** What the maker hears of is what the operation adds to the tape. */
  lemma HearBooked(d: Desk, op: Op, rest: seq<Ticket>)
    requires Booked(d)
    ensures Booked(Hear(d, op).(pending := rest))
  {
    hide Apply, TradesOf, ReportsFrom, Heard, Traded, SharesIn;
    var ts, trader := TradesOf(d.ex, op), d.maker.trader;
    TapeGrows(d.ex, op);
    HeardNet(d.maker.books, NewReports(d, op), trader);
    ReportedShares(1 + |d.ex.tape|, ts, trader, BUY);
    ReportedShares(1 + |d.ex.tape|, ts, trader, SELL);
    TradedConcat(d.ex.tape, ts, trader, BUY);
    TradedConcat(d.ex.tape, ts, trader, SELL);
  }

  lemma {:induction false} PostKeeps(d: Desk)
    requires DeskInv(d) && d.pending != []
    ensures DeskInv(Go(d, Post)) && BoundedHearing(d, Submit(d.pending[0]))
  {
    hide Inv, Manned, Covered, Booked, DoSubmit, Open, Heard, ReportsFrom, TradesOf, OwnId, BoundedHearing;
    var m, o := d.maker, d.pending[0];
    var op := Submit(o);
    assert ReadyQuote(d, o);
    InvApply(d.ex, op);
    OpManned(d.ex, op, m.trader, m.symbol, m.bidId, m.askId);
    HearCovered(d, op, d.pending[1..]);
    HearBooked(d, op, d.pending[1..]);
    forall i | 0 <= i < |d.pending[1..]| ensures ReadyQuote(Go(d, Post), d.pending[1..][i]) {
      assert ReadyQuote(d, d.pending[i + 1]);
      OpIdle(d.ex, op, d.pending[i + 1].id);
    }
  }

  lemma {:induction false} OthersKeep(d: Desk, op: Op)
    requires DeskInv(d) && Playable(d, Others(op))
    ensures DeskInv(Go(d, Others(op))) && BoundedHearing(d, op)
  {
    hide Inv, Manned, Covered, Booked, Apply, Open, Heard, ReportsFrom, TradesOf, OwnId, BoundedHearing;
    var m := d.maker;
    InvApply(d.ex, op);
    OpManned(d.ex, op, m.trader, m.symbol, m.bidId, m.askId);
    HearCovered(d, op, d.pending);
    HearBooked(d, op, d.pending);
    forall i | 0 <= i < |d.pending| ensures ReadyQuote(Go(d, Others(op)), d.pending[i]) {
      assert ReadyQuote(d, d.pending[i]);
      OpIdle(d.ex, op, d.pending[i].id);
    }
  }

  // ------------------------------------------------------------ a tick keeps the invariant

  lemma StaffedNone(q: seq<Ticket>, trader: nat, live: nat)
    requires Staffed(q, trader, live) && (live == 0 || !Holds(q, live))
    ensures forall any: nat :: Staffed(q, trader, any)
  {
    NoOwnZero(trader);
    hide OwnId, Find;
    forall i | 0 <= i < |q| ensures q[i].trader != trader && !OwnId(trader, q[i].id) {
      assert MayStand(q[i], trader, live);
    }
  }

  /** After the old quotes are withdrawn no order of the maker rests anywhere, so any other
      two ids may take their place. */
  lemma {:induction false} WithdrawnManned(ex: Exch, trader: nat, symbol: string, bidId: nat, askId: nat,
                                           bid': nat, ask': nat)
    requires Inv(ex) && Manned(ex, trader, symbol, bidId, askId)
    ensures var ex' := Withdrawn(Withdrawn(ex, bidId), askId);
            && Inv(ex') && Manned(ex', trader, symbol, bid', ask') && Manned(ex', trader, symbol, 0, 0)
            && ex'.tape == ex.tape
  {
    hide Inv, Staffed, BookSpec.Cancel, Find;
    var ex1 := Withdrawn(ex, bidId);
    var ex2 := Withdrawn(ex1, askId);
    WithdrawnGone(ex, trader, symbol, bidId, askId, bidId);
    WithdrawnGone(ex1, trader, symbol, bidId, askId, askId);
    if bidId != 0 {
      WithdrawnStaysGone(ex1, askId, bidId);
    }
    hide Withdrawn, Idle;
    forall s | s in ex2.books
      ensures Crewed(ex2.books[s], trader, if s == symbol then bid' else 0, if s == symbol then ask' else 0)
      ensures Crewed(ex2.books[s], trader, 0, 0)
    {
      NotIn(ex2, s, bidId);
      NotIn(ex2, s, askId);
      StaffedNone(ex2.books[s].bids, trader, if s == symbol then bidId else 0);
      StaffedNone(ex2.books[s].asks, trader, if s == symbol then askId else 0);
    }
  }

  lemma NotIn(ex: Exch, s: string, id: nat)
    requires s in ex.books
    ensures Idle(ex, id) ==> !Holds(ex.books[s].bids, id) && !Holds(ex.books[s].asks, id)
  {
    assert Idle(ex, id) ==> !ex.books[s].Rests(id);
  }

  lemma {:induction false} WithdrawnGone(ex: Exch, trader: nat, symbol: string, bidId: nat, askId: nat, id: nat)
    requires Inv(ex) && Manned(ex, trader, symbol, bidId, askId)
    ensures var ex' := Withdrawn(ex, id);
            Inv(ex') && Manned(ex', trader, symbol, bidId, askId) && (id != 0 ==> Idle(ex', id)) && ex'.tape == ex.tape
  {
    if id != 0 {
      InvCancel(ex, id);
      CancelManned(ex, id, trader, symbol, bidId, askId);
      CancelledIdle(ex, id);
    }
    hide Inv, Idle, DoCancel, Manned;
  }

  lemma CancelManned(ex: Exch, id: nat, trader: nat, symbol: string, bidId: nat, askId: nat)
    requires Manned(ex, trader, symbol, bidId, askId)
    ensures Manned(DoCancel(ex, id).0, trader, symbol, bidId, askId)
    ensures DoCancel(ex, id).0.tape == ex.tape
  {
    if Routed(ex, id) {
      var s := ex.home[id];
      CancelCrewed(ex.books[s], id, trader, if s == symbol then bidId else 0, if s == symbol then askId else 0);
    }
    hide BookSpec.Cancel, Crewed;
  }

  lemma {:induction false} WithdrawnStaysGone(ex: Exch, id: nat, gone: nat)
    requires Inv(ex) && Idle(ex, gone)
    ensures Idle(Withdrawn(ex, id), gone)
  {
    if id != 0 {
      OpIdle(ex, Cancel(id), gone);
    }
  }

  lemma FreshId(ex: Exch, trader: nat, symbol: string, id: nat)
    requires Manned(ex, trader, symbol, 0, 0) && OwnId(trader, id)
    ensures Idle(ex, id)
  {
    NoOwnZero(trader);
    hide OwnId;
    forall s | s in ex.books ensures !ex.books[s].Rests(id) {
      NotStaffed(ex.books[s].bids, trader, id);
      NotStaffed(ex.books[s].asks, trader, id);
    }
  }

  lemma NotStaffed(q: seq<Ticket>, trader: nat, id: nat)
    requires Staffed(q, trader, 0) && OwnId(trader, id)
    ensures !Holds(q, id)
  {
    NoOwnZero(trader);
    hide OwnId;
    assert Find(q, id) < |q| ==> MayStand(q[Find(q, id)], trader, 0);
  }

  lemma MadeIds(trader: nat, c: nat)
    requires 0 < c < TWO_TO_32
    ensures OwnId(trader, OrderId(trader, c))
  {
    SmallCounter(trader, c);
  }

  lemma RequotedShape(m: Maker, mid: real)
    requires m.counter + 2 < TWO_TO_32
    ensures var (m', ps) := Requoted(m, mid);
            && m' == m.(counter := m'.counter, bidId := m'.bidId, askId := m'.askId)
            && |ps| <= 2 && (|ps| == 2 ==> ps[0].id != ps[1].id)
            && (forall i :: 0 <= i < |ps| ==>
                  && ps[i].trader == m.trader && ps[i].symbol == m.symbol
                  && OwnId(m.trader, ps[i].id) && ps[i].id == LiveId(ps[i].side, m'.bidId, m'.askId))
            && OnTheWay(ps, BUY) == (if MayBuy(m) then m.cfg.quoteQty else 0)
            && OnTheWay(ps, SELL) == (if MaySell(m) then m.cfg.quoteQty else 0)
  {
    hide QuotePrices, MayBuy, MaySell;
    var (m', ps) := Requoted(m, mid);
    MadeIds(m.trader, m.counter + 1);
    if MayBuy(m) && MaySell(m) {
      MadeIds(m.trader, m.counter + 2);
      OrderIdsDiffer(m.trader, m.counter + 1, m.trader, m.counter + 2);
    }
    hide OwnId, OrderId;
    if |ps| == 2 {
      assert ps[1..] == [ps[1]] && [ps[1]][1..] == [];
      assert forall side: Side :: OnTheWay([ps[1]], side) == if ps[1].side == side then ps[1].remaining else 0;
    } else if |ps| == 1 {
      assert ps[1..] == [];
    }
  }

  lemma {:induction false} TickKeeps(d: Desk, mid: real)
    requires DeskInv(d) && Playable(d, OnTick(mid)) && 0.0 < mid
    ensures DeskInv(Go(d, OnTick(mid)))
  {
    hide Inv, Idle, Manned, Open, OnTheWay, Requoted, Withdrawn, RestingOf, OwnId, TotalPnl, Sample;
    var m := d.maker;
    var m1 := m.(history := Sample(m.history, TotalPnl(m.books, mid)), bidId := 0, askId := 0);
    var d' := Go(d, OnTick(mid));
    RequotedShape(m1, mid);
    WithdrawnManned(d.ex, m.trader, m.symbol, m.bidId, m.askId, d'.maker.bidId, d'.maker.askId);
    forall i | 0 <= i < |d'.pending| ensures ReadyQuote(d', d'.pending[i]) {
      FreshId(d'.ex, m.trader, m.symbol, d'.pending[i].id);
    }
    NobodyResting(d'.ex, m.trader, m.symbol, BUY);
    NobodyResting(d'.ex, m.trader, m.symbol, SELL);
  }

  lemma NobodyResting(ex: Exch, trader: nat, symbol: string, side: Side)
    requires Manned(ex, trader, symbol, 0, 0)
    ensures Open(RestingOf(ex, symbol, side), trader) == 0
  {
    if symbol in ex.books {
      assert Crewed(ex.books[symbol], trader, 0, 0);
      NobodyIn(ex.books[symbol], trader, side);
    }
  }

  // ------------------------------------------------------------ every run

  lemma CoveredBounded(d: Desk)
    requires Covered(d)
    ensures Bounded(d.maker, d.maker.books.inventory)
  {
    hide Open, OnTheWay;
  }

  lemma {:induction false} MoveKeeps(d: Desk, move: Move)
    requires DeskInv(d) && Playable(d, move)
    ensures DeskInv(Go(d, move)) && BoundedDuring(d, move)
    ensures Go(d, move).maker.cfg == d.maker.cfg && Go(d, move).maker.trader == d.maker.trader
  {
    hide Inv, Manned, Ready, Covered, Booked, Hear, Requoted, Withdrawn, BoundedHearing;
    CoveredBounded(d);
    hide Bounded;
    match move
    case OnTick(mid) =>
      if 0.0 < mid {
        TickKeeps(d, mid);
      }
      SameConfig(d, mid);
    case Post =>
      if d.pending != [] {
        PostKeeps(d);
      }
      HearSame(d);
    case Others(op) => OthersKeep(d, op); HearSame(d);
  }

  lemma SameConfig(d: Desk, mid: real)
    ensures var m := Go(d, OnTick(mid)).maker; m.cfg == d.maker.cfg && m.trader == d.maker.trader
    ensures mid <= 0.0 && d.pending == [] ==> Go(d, OnTick(mid)) == d
  {
  }

  lemma HearSame(d: Desk)
    ensures forall op :: Hear(d, op).maker.cfg == d.maker.cfg && Hear(d, op).maker.trader == d.maker.trader
  {
  }

  ghost predicate BoundedRun(d: Desk, moves: seq<Move>)
    decreases |moves|
  {
    Bounded(d.maker, d.maker.books.inventory)
    && (moves != [] ==> BoundedDuring(d, moves[0]) && BoundedRun(Go(d, moves[0]), moves[1..]))
  }

  lemma {:induction false} DeskRun(d: Desk, moves: seq<Move>)
    requires DeskInv(d) && AllPlayable(d, moves)
    ensures DeskInv(GoAll(d, moves)) && BoundedRun(d, moves)
    ensures GoAll(d, moves).maker.cfg == d.maker.cfg && GoAll(d, moves).maker.trader == d.maker.trader
    decreases |moves|
  {
    hide Inv, Manned, Ready, Booked, Go, Playable, BoundedDuring;
    CoveredBounded(d);
    hide Covered, Bounded;
    if moves != [] {
      MoveKeeps(d, moves[0]);
      DeskRun(Go(d, moves[0]), moves[1..]);
    }
  }

  /** A new market maker on an empty exchange. */
  function Opening(cfg: Config, trader: nat, symbol: string): Desk {
    Desk(Start, Maker(cfg, trader, symbol, Flat, NoSamples, 0, 0, 0), [])
  }

  /** In every run, whatever the mid prices, the quotes and the other traders' orders, and
      after every single report, the maker is never longer or shorter than its position
      limit plus one quote less one share; and its inventory is what the exchange's tape says
      it has bought less what it has sold. */
  lemma PositionBounded(cfg: Config, trader: nat, symbol: string, moves: seq<Move>)
    requires AllPlayable(Opening(cfg, trader, symbol), moves) && 0 <= Limit(cfg)
    ensures BoundedRun(Opening(cfg, trader, symbol), moves)
    ensures var end := GoAll(Opening(cfg, trader, symbol), moves);
            && -Limit(cfg) <= end.maker.books.inventory <= cfg.maxPosition + cfg.quoteQty - 1
            && end.maker.books.inventory == Traded(end.ex.tape, trader, BUY) - Traded(end.ex.tape, trader, SELL)
  {
    var d := Opening(cfg, trader, symbol);
    assert Covered(d) && Inv(d.ex);
    DeskRun(d, moves);
    hide AllPlayable, BoundedRun, GoAll, Inv, Manned, Ready, Traded;
    CoveredBounded(GoAll(d, moves));
  }

  // ------------------------------------------------------------ the bound is met

  const Tight := Config(0.05, 100, 1, 0.01)

  function FirstBid(): Ticket {
    Ticket(OrderId(7, 1), 7, "X", BUY, LIMIT, GTC, 9.95, 0, 100, NEW)
  }

  function FirstAsk(): Ticket {
    Ticket(OrderId(7, 2), 7, "X", SELL, LIMIT, GTC, 10.05, 0, 100, NEW)
  }

  function Seller(): Ticket {
    Ticket(1, 1, "X", SELL, MARKET, GTC, 0.0, 0, 100, NEW)
  }

  lemma OpeningPrices()
    ensures QuotePrices(Tight, 10.0, 0) == (9.95, 10.05)
  {
    assert Skew(Tight, 0) == 0.0;
    assert Rounded(995.0) == 995 && Rounded(1005.0) == 1005;
    assert BidTarget(Tight, 10.0, 0) == 9.95 && AskTarget(Tight, 10.0, 0) == 10.05;
  }

  lemma OpeningQuotes(m: Maker, history: Samples)
    requires m == Opening(Tight, 7, "X").maker.(history := history)
    ensures Requoted(m, 10.0)
            == (m.(counter := 2, bidId := OrderId(7, 1), askId := OrderId(7, 2)), [FirstBid(), FirstAsk()])
  {
    hide QuotePrices, OrderId;
    OpeningPrices();
    assert MayBuy(m) && MaySell(m);
    assert Requoted(m, 10.0).1 == [FirstBid()] + [FirstAsk()] == [FirstBid(), FirstAsk()];
    assert Requoted(m, 10.0).0 == m.(counter := 2, bidId := OrderId(7, 1), askId := OrderId(7, 2));
  }

  lemma QuotesRest()
    ensures BookSpec.Submit(BookSpec.Empty, FirstBid()) == Submission(BookV([FirstBid()], []), FirstBid(), [])
    ensures BookSpec.Submit(BookV([FirstBid()], []), FirstAsk())
            == Submission(BookV([FirstBid()], [FirstAsk()]), FirstAsk(), [])
  {
    hide BookSpec.Submit, OrderId;
    RestsAtOnce(BookSpec.Empty, FirstBid());
    RestsAtOnce(BookV([FirstBid()], []), FirstAsk());
  }

  lemma BidIsHit(a: Account, e: nat)
    requires a.inventory == 0
    ensures var ts := BookSpec.Submit(BookV([FirstBid()], [FirstAsk()]), Seller()).trades;
            Heard(a, ReportsFrom(e, ts), 7).inventory == 100
  {
    var bid, sell := FirstBid(), Seller();
    var t := TradeOf(sell, bid, 100);
    assert AfterFill([bid], 100) == [];
    assert Match(sell.Take(100), []).trades == [];
    assert Match(sell, [bid]).trades == [t];
    assert ReportsFrom(e, []) == [] && [t][..0] == [];
    assert ReportsFrom(e, [t]) == [MakerReport(e, t), TakerReport(e, t)];
    HeardNet(a, ReportsFrom(e, [t]), 7);
    PairShares(e, t, 7, BUY);
    PairShares(e, t, 7, SELL);
  }

  /** A market maker that may buy while it holds less than one share. */
  function TightDesk(b: BookV, home: map<nat, string>, stats: Stats, m: Maker, pending: seq<Ticket>): Desk {
    Desk(Exch(map["X" := b], home, [], stats), m, pending)
  }

  lemma PostQuote(b: BookV, b': BookV, home: map<nat, string>, stats: Stats, m: Maker, pending: seq<Ticket>)
      returns (home': map<nat, string>, stats': Stats)
    requires pending != [] && pending[0].symbol == "X" && pending[0].kind.LIMIT?
    requires BookSpec.Submit(b, pending[0]) == Submission(b', pending[0], [])
    ensures Go(TightDesk(b, home, stats, m, pending), Post) == TightDesk(b', home', stats', m, pending[1..])
  {
    var d := TightDesk(b, home, stats, m, pending);
    var d' := Go(d, Post);
    home', stats' := d'.ex.home, d'.ex.stats;
    hide BookSpec.Submit;
    assert d'.ex.books == map["X" := b'];
    assert TradesOf(d.ex, Submit(pending[0])) == [] && ReportsFrom(1, []) == [];
  }

  /** The limit cannot be lowered: a run that ends exactly at it. */
  lemma BoundIsMet() returns (moves: seq<Move>)
    ensures AllPlayable(Opening(Tight, 7, "X"), moves)
    ensures GoAll(Opening(Tight, 7, "X"), moves).maker.books.inventory == Limit(Tight)
  {
    hide BookSpec.Submit, Requoted, Heard, ReportsFrom, Sample, TotalPnl, OrderId;
    var d0 := Opening(Tight, 7, "X");
    var m := d0.maker;
    var d1 := Go(d0, Others(AddSymbol("X")));
    assert d1 == TightDesk(BookSpec.Empty, map[], Start.stats, m, []) by {
      NoFills(m.books, 7);
    }
    var history := Sample(NoSamples, TotalPnl(Flat, 10.0));
    OpeningQuotes(m.(history := history), history);
    var m2 := m.(history := history, counter := 2, bidId := OrderId(7, 1), askId := OrderId(7, 2));
    var d2 := Go(d1, OnTick(10.0));
    assert d2 == TightDesk(BookSpec.Empty, map[], Start.stats, m2, [FirstBid(), FirstAsk()]);
    QuotesRest();
    var h3, s3 := PostQuote(BookSpec.Empty, BookV([FirstBid()], []), map[], Start.stats, m2, [FirstBid(), FirstAsk()]);
    var d3 := Go(d2, Post);
    assert [FirstBid(), FirstAsk()][1..] == [FirstAsk()] && [FirstAsk()][1..] == [];
    var h4, s4 := PostQuote(BookV([FirstBid()], []), BookV([FirstBid()], [FirstAsk()]), h3, s3, m2, [FirstAsk()]);
    var d4 := Go(d3, Post);
    var last := Others(Submit(Seller()));
    BidIsHit(m2.books, 1);
    SellerAllowed(d4);
    assert Go(d4, last).maker.books.inventory == 100;
    var run4 := FirstMove(d4, last, []);
    var run3 := FirstMove(d3, Post, run4);
    var run2 := FirstMove(d2, Post, run3);
    var run1 := FirstMove(d1, OnTick(10.0), run2);
    moves := FirstMove(d0, Others(AddSymbol("X")), run1);
  }

  lemma SellerAllowed(d: Desk)
    requires d.ex.books == map["X" := BookV([FirstBid()], [FirstAsk()])] && d.maker.trader == 7
    ensures Playable(d, Others(Submit(Seller())))
  {
    assert !BookV([FirstBid()], [FirstAsk()]).Rests(1);
  }

  lemma NoFills(a: Account, trader: nat)
    ensures ReportsFrom(1, []) == [] && Heard(a, [], trader) == a
  {
  }

  lemma FirstMove(d: Desk, move: Move, rest: seq<Move>) returns (moves: seq<Move>)
    ensures moves == [move] + rest
    ensures GoAll(d, moves) == GoAll(Go(d, move), rest)
    ensures AllPlayable(d, moves) <==> Playable(d, move) && AllPlayable(Go(d, move), rest)
  {
    hide Go, Playable;
    moves := [move] + rest;
    assert moves[1..] == rest;
  }
}
