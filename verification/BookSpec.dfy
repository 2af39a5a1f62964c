/** One symbol's book as two plain sequences in (price, arrival) order, and what
    submitting, cancelling and modifying an order do to it. */
module BookSpec {
  import opened Types
  import opened Sweep

  datatype BookV = BookV(bids: seq<Ticket>, asks: seq<Ticket>) {
    function Get(side: Side): seq<Ticket> {
      if side.BUY? then bids else asks
    }

    function Put(side: Side, s: seq<Ticket>): BookV {
      if side.BUY? then this.(bids := s) else this.(asks := s)
    }

    predicate Rests(id: nat) {
      Holds(bids, id) || Holds(asks, id)
    }
  }

  const Empty := BookV([], [])

  // ------------------------------------------------------------ queue operations

  /** Position of the order with the given id, or the length when there is none. */
  function Find(s: seq<Ticket>, id: nat): (k: nat)
    ensures k <= |s|
    ensures k < |s| ==> s[k].id == id
    ensures forall i :: 0 <= i < k ==> s[i].id != id
  {
    if s == [] || s[0].id == id then 0 else 1 + Find(s[1..], id)
  }

  predicate Holds(s: seq<Ticket>, id: nat) {
    Find(s, id) < |s|
  }

  /** The queue without its first order of the given id. */
  function Remove(s: seq<Ticket>, id: nat): seq<Ticket> {
    if s == [] then []
    else if s[0].id == id then s[1..]
    else [s[0]] + Remove(s[1..], id)
  }

  /** Where a new order goes: behind everything at its price or better. */
  function Place(s: seq<Ticket>, side: Side, price: real): (k: nat)
    ensures k <= |s|
    ensures k < |s| ==> Rank(side, s[k].price) > Rank(side, price)
    ensures forall i :: 0 <= i < k ==> Rank(side, s[i].price) <= Rank(side, price)
  {
    if s == [] || Rank(side, s[0].price) > Rank(side, price) then 0 else 1 + Place(s[1..], side, price)
  }

  function Insert(s: seq<Ticket>, t: Ticket): seq<Ticket> {
    if s == [] || Rank(t.side, s[0].price) > Rank(t.side, t.price) then [t] + s
    else [s[0]] + Insert(s[1..], t)
  }

  /** The removed order's successors close up; everything else stays. */
  lemma {:induction false} RemovedAt(s: seq<Ticket>, id: nat)
    requires Holds(s, id)
    ensures |Remove(s, id)| == |s| - 1
    ensures forall i :: 0 <= i < |s| - 1 ==> Remove(s, id)[i] == s[if i < Find(s, id) then i else i + 1]
  {
    if s[0].id != id {
      RemovedAt(s[1..], id);
    }
  }

  lemma {:induction false} RemoveAbsent(s: seq<Ticket>, id: nat)
    requires !Holds(s, id)
    ensures Remove(s, id) == s
  {
    if s != [] {
      RemoveAbsent(s[1..], id);
    }
  }

  lemma {:induction false} InsertAtIndex(s: seq<Ticket>, t: Ticket, i: nat)
    requires i <= |s|
    ensures |Insert(s, t)| == |s| + 1
    ensures var k := Place(s, t.side, t.price);
            Insert(s, t)[i] == if i < k then s[i] else if i == k then t else s[i - 1]
  {
    if s != [] && Rank(t.side, s[0].price) <= Rank(t.side, t.price) {
      InsertAtIndex(s[1..], t, if i == 0 then 0 else i - 1);
    }
  }

  /** Inserting puts the order at its place and moves nothing else around. */
  lemma InsertAt(s: seq<Ticket>, t: Ticket)
    ensures |Insert(s, t)| == |s| + 1
    ensures Insert(s, t)[Place(s, t.side, t.price)] == t
    ensures forall i :: 0 <= i < Place(s, t.side, t.price) ==> Insert(s, t)[i] == s[i]
    ensures forall i :: Place(s, t.side, t.price) < i <= |s| ==> Insert(s, t)[i] == s[i - 1]
  {
    InsertAtIndex(s, t, 0);
    forall i | 0 <= i <= |s|
      ensures var k := Place(s, t.side, t.price);
              Insert(s, t)[i] == if i < k then s[i] else if i == k then t else s[i - 1]
    {
      InsertAtIndex(s, t, i);
    }
  }

  // ------------------------------------------------------------ fill-or-kill

  /** The (price, total quantity) pairs of a side, best price first. */
  function Levels(s: seq<Ticket>): seq<(real, nat)> {
    if s == [] then []
    else
      var rest := Levels(s[1..]);
      if rest != [] && rest[0].0 == s[0].price
      then [(s[0].price, s[0].remaining + rest[0].1)] + rest[1..]
      else [(s[0].price, s[0].remaining)] + rest
  }

  /** The scan of level totals made for a fill-or-kill order. Each 64-bit total is cut
      to 32 bits before it is compared. */
  predicate CanFill(taker: Ticket, levels: seq<(real, nat)>, needed: nat)
    decreases |levels|
  {
    if needed == 0 then true
    else if levels == [] || !Crosses(taker, levels[0].0) then false
    else CanFill(taker, levels[1..], needed - Min(needed, levels[0].1 % TWO_TO_32))
  }

  // ------------------------------------------------------------ operations

  datatype Submission = Submission(book: BookV, order: Ticket, trades: seq<Trade>)

  /** What a matched order becomes when its remainder may not rest. */
  function DropRemainder(t: Ticket): Ticket {
    if 0 < t.remaining then t.(status := CANCELLED) else t
  }

  /** A limit order's remainder rests if it is good till cancelled, else it is dropped. */
  function RestOrDrop(b: BookV, t: Ticket): BookV {
    if t.tif.GTC? && t.IsActive() && 0 < t.remaining then b.Put(t.side, Insert(b.Get(t.side), t)) else b
  }

  /** Match the order, then rest or drop what is left of it. */
  function Settle(b: BookV, o: Ticket): Submission {
    var m := Match(o, b.Get(o.side.Opposite()));
    var b1 := b.Put(o.side.Opposite(), m.makers);
    if o.kind.MARKET? then Submission(b1, DropRemainder(m.taker), m.trades)
    else Submission(RestOrDrop(b1, m.taker),
                    if o.tif.GTC? || !m.taker.IsActive() then m.taker else DropRemainder(m.taker), m.trades)
  }

  function Submit(b: BookV, order: Ticket): Submission {
    var o := order.(status := NEW);
    if o.tif.FOK? && !CanFill(o, Levels(b.Get(o.side.Opposite())), o.remaining) then
      Submission(b, o.(status := CANCELLED), [])
    else Settle(b, o)
  }

  function Cancel(b: BookV, id: nat): BookV {
    if Holds(b.bids, id) then b.(bids := Remove(b.bids, id))
    else b.(asks := Remove(b.asks, id))
  }

  /** The resting order with the given id. */
  function Lookup(b: BookV, id: nat): Ticket
    requires b.Rests(id)
  {
    if Holds(b.bids, id) then b.bids[Find(b.bids, id)] else b.asks[Find(b.asks, id)]
  }

  /** The order a modification submits anew when the old place in the queue is given up. */
  function Amended(t: Ticket, price: real, qty: nat): Ticket {
    t.(price := price, filled := 0, remaining := qty, status := NEW)
  }

  function Shrink(b: BookV, id: nat, qty: nat): BookV
    requires b.Rests(id)
  {
    if Holds(b.bids, id) then b.(bids := b.bids[Find(b.bids, id) := Lookup(b, id).(remaining := qty)])
    else b.(asks := b.asks[Find(b.asks, id) := Lookup(b, id).(remaining := qty)])
  }

  predicate LosesPlace(t: Ticket, price: real, qty: nat) {
    price != t.price || qty > t.remaining
  }

  function Modify(b: BookV, id: nat, price: real, qty: nat): Submission
    requires b.Rests(id)
  {
    var t := Lookup(b, id);
    if LosesPlace(t, price, qty) then Submit(Cancel(b, id), Amended(t, price, qty))
    else if qty < t.remaining then Submission(Shrink(b, id, qty), t.(remaining := qty), [])
    else Submission(b, t, [])
  }

  // ------------------------------------------------------------ well-formed books

  /** No bid reaches any ask. */
  ghost predicate Uncrossed(bids: seq<Ticket>, asks: seq<Ticket>) {
    forall i, j :: 0 <= i < |bids| && 0 <= j < |asks| ==> bids[i].price < asks[j].price
  }

  ghost predicate DisjointIds(a: seq<Ticket>, b: seq<Ticket>) {
    forall i, j :: 0 <= i < |a| && 0 <= j < |b| ==> a[i].id != b[j].id
  }

  /** Both sides are queues and no id occurs twice. */
  ghost predicate Filed(b: BookV) {
    && Queue(b.bids, BUY)
    && Queue(b.asks, SELL)
    && DistinctIds(b.bids)
    && DistinctIds(b.asks)
    && DisjointIds(b.bids, b.asks)
  }

  ghost predicate WellFormed(b: BookV) {
    Filed(b) && Uncrossed(b.bids, b.asks)
  }

  /** What well-formedness says when looked at from one side. */
  ghost predicate Tidy(s: seq<Ticket>, side: Side) {
    Queue(s, side) && DistinctIds(s)
  }

  ghost predicate Apart(side: Side, own: seq<Ticket>, opp: seq<Ticket>) {
    forall i, j :: 0 <= i < |own| && 0 <= j < |opp| ==>
      own[i].id != opp[j].id && Rank(side, opp[j].price) < Rank(side, own[i].price)
  }

  lemma FromSide(b: BookV, side: Side)
    ensures WellFormed(b) <==>
            && Tidy(b.Get(side), side)
            && Tidy(b.Get(side.Opposite()), side.Opposite())
            && Apart(side, b.Get(side), b.Get(side.Opposite()))
  {
  }

  /** `after` is `before` with some orders dropped; `idx` says where the others were. */
  ghost predicate Embeds(after: seq<Ticket>, before: seq<Ticket>, idx: seq<nat>) {
    && |idx| == |after|
    && (forall i :: 0 <= i < |idx| ==>
          && idx[i] < |before|
          && before[idx[i]].SameOrder(after[i])
          && 0 < after[i].remaining
          && after[i].IsActive())
    && (forall i, j :: 0 <= i < j < |idx| ==> idx[i] < idx[j])
  }

  lemma ThinnedSide(s: seq<Ticket>, s': seq<Ticket>, side: Side, opp: seq<Ticket>, idx: seq<nat>)
    requires Tidy(s, side) && Apart(side, s, opp) && Embeds(s', s, idx)
    ensures Tidy(s', side) && Apart(side, s', opp)
  {
    forall i | 0 <= i < |s'|
      ensures s'[i].id == s[idx[i]].id && s'[i].price == s[idx[i]].price && Resting(s'[i], side)
    {
      assert Resting(s[idx[i]], side);
    }
  }

  /** A well-formed book stays so when one side loses orders or shares. */
  lemma ThinnedBook(b: BookV, side: Side, s': seq<Ticket>, idx: seq<nat>)
    requires WellFormed(b) && Embeds(s', b.Get(side), idx)
    ensures WellFormed(b.Put(side, s'))
  {
    FromSide(b, side);
    ThinnedSide(b.Get(side), s', side, b.Get(side.Opposite()), idx);
    FromSide(b.Put(side, s'), side);
  }

  lemma RemnantEmbeds(after: seq<Ticket>, before: seq<Ticket>, side: Side) returns (idx: seq<nat>)
    requires Remnant(after, before) && Queue(before, side)
    ensures Embeds(after, before, idx)
  {
    RemnantKeepsQueue(after, before, side);
    idx := seq(|after|, i requires 0 <= i => |before| - |after| + i);
    hide Remnant;
    forall i | 0 <= i < |after| ensures before[idx[i]].SameOrder(after[i]) && Resting(after[i], side) {
      RemnantAt(after, before, i);
    }
  }

  lemma {:induction false} SweptSide(b: BookV, taker: Ticket)
    requires WellFormed(b)
    ensures var opp := taker.side.Opposite();
            WellFormed(b.Put(opp, Match(taker, b.Get(opp)).makers))
  {
    var opp := taker.side.Opposite();
    var before, after := b.Get(opp), Match(taker, b.Get(opp)).makers;
    assert Queue(before, opp);
    MatchShape(taker, before);
    hide Match, WellFormed, Remnant, Done, Volume, Queue, Embeds;
    var idx := RemnantEmbeds(after, before, opp);
    ThinnedBook(b, opp, after, idx);
  }

  lemma {:induction false} RemovedFrom(s: seq<Ticket>, side: Side, id: nat) returns (idx: seq<nat>)
    requires Tidy(s, side)
    ensures Embeds(Remove(s, id), s, idx)
    ensures !Holds(Remove(s, id), id)
  {
    hide Find, Remove;
    var k, r := Find(s, id), Remove(s, id);
    if Holds(s, id) {
      RemovedAt(s, id);
    } else {
      RemoveAbsent(s, id);
    }
    idx := seq(|r|, i requires 0 <= i => if i < k then i else i + 1);
    forall i | 0 <= i < |r| ensures r[i] == s[idx[i]] && Resting(r[i], side) && r[i].id != id {
    }
  }

  lemma CancelKeepsWellFormed(b: BookV, id: nat)
    requires WellFormed(b)
    ensures WellFormed(Cancel(b, id)) && !Cancel(b, id).Rests(id)
  {
    var side := if Holds(b.bids, id) then BUY else SELL;
    var idx := RemovedFrom(b.Get(side), side, id);
    ThinnedBook(b, side, Remove(b.Get(side), id), idx);
    if side.BUY? {
      assert forall j :: 0 <= j < |b.asks| ==> b.bids[Find(b.bids, id)].id != b.asks[j].id;
    }
  }

  lemma InsertedSide(s: seq<Ticket>, t: Ticket)
    requires Tidy(s, t.side) && Resting(t, t.side) && !Holds(s, t.id)
    ensures Tidy(Insert(s, t), t.side)
  {
    hide Find, Place, Insert;
    var k := Place(s, t.side, t.price);
    var r := Insert(s, t);
    InsertAt(s, t);
    forall i | 0 <= i < |r| && i != k
      ensures r[i] == s[if i < k then i else i - 1]
      ensures Resting(r[i], t.side) && r[i].id != t.id
      ensures i < k ==> Rank(t.side, r[i].price) <= Rank(t.side, t.price)
      ensures i > k ==> Rank(t.side, t.price) <= Rank(t.side, r[i].price)
    {
      if i > k {
        assert Rank(t.side, s[k].price) <= Rank(t.side, s[i - 1].price);
      }
    }
  }

  lemma InsertedApart(s: seq<Ticket>, t: Ticket, opp: seq<Ticket>)
    requires Apart(t.side, s, opp) && t.kind.LIMIT? && !Holds(opp, t.id)
    requires forall i :: 0 <= i < |opp| ==> !Crosses(t, opp[i].price)
    ensures Apart(t.side, Insert(s, t), opp)
  {
    hide Find, Place, Insert;
    var k, r := Place(s, t.side, t.price), Insert(s, t);
    InsertAt(s, t);
    forall i, j | 0 <= i < |r| && 0 <= j < |opp|
      ensures r[i].id != opp[j].id && Rank(t.side, opp[j].price) < Rank(t.side, r[i].price)
    {
      assert i != k ==> r[i] == s[if i < k then i else i - 1];
    }
  }

  /** An order may rest beside the other side once nothing there is within its reach. */
  lemma InsertKeepsWellFormed(b: BookV, t: Ticket)
    requires WellFormed(b) && Resting(t, t.side) && !b.Rests(t.id)
    requires forall i :: 0 <= i < |b.Get(t.side.Opposite())| ==> !Crosses(t, b.Get(t.side.Opposite())[i].price)
    ensures WellFormed(b.Put(t.side, Insert(b.Get(t.side), t)))
  {
    var own, opp := b.Get(t.side), b.Get(t.side.Opposite());
    var r := Insert(own, t);
    FromSide(b, t.side);
    InsertedSide(own, t);
    InsertedApart(own, t, opp);
    hide Insert, WellFormed, Tidy, Apart;
    FromSide(b.Put(t.side, r), t.side);
  }

  /** A limit order that still has shares after its sweep may rest. */
  lemma RemainderMayRest(b: BookV, o: Ticket)
    requires WellFormed(b) && !b.Rests(o.id) && o.kind.LIMIT? && o.tif.GTC? && o.IsActive()
    requires 0 < Match(o, b.Get(o.side.Opposite())).taker.remaining
    ensures var m := Match(o, b.Get(o.side.Opposite()));
            var b1 := b.Put(o.side.Opposite(), m.makers);
            WellFormed(b1.Put(o.side, Insert(b1.Get(o.side), m.taker)))
  {
    var before := b.Get(o.side.Opposite());
    var m := Match(o, before);
    SweptSide(b, o);
    MatchShape(o, before);
    hide Match, Insert;
    forall i | 0 <= i < |m.makers|
      ensures !Crosses(m.taker, m.makers[i].price) && m.makers[i].id != o.id
    {
      NothingInReach(m.taker, m.makers, i);
      RemnantAt(m.makers, before, i);
    }
    InsertKeepsWellFormed(b.Put(o.side.Opposite(), m.makers), m.taker);
  }

  lemma SubmitKeepsWellFormed(b: BookV, order: Ticket)
    requires WellFormed(b) && !b.Rests(order.id)
    ensures WellFormed(Submit(b, order).book)
  {
    hide Match, Insert, WellFormed;
    var o := order.(status := NEW);
    SweptSide(b, o);
    if o.kind.LIMIT? && o.tif.GTC? && 0 < Match(o, b.Get(o.side.Opposite())).taker.remaining {
      RemainderMayRest(b, o);
    }
  }

  lemma ShrinkKeepsWellFormed(b: BookV, id: nat, qty: nat)
    requires WellFormed(b) && b.Rests(id) && 0 < qty
    ensures WellFormed(Shrink(b, id, qty))
  {
  }

  lemma ModifyKeepsWellFormed(b: BookV, id: nat, price: real, qty: nat)
    requires WellFormed(b) && b.Rests(id) && 0 < qty
    ensures WellFormed(Modify(b, id, price, qty).book)
  {
    var t := Lookup(b, id);
    if LosesPlace(t, price, qty) {
      CancelKeepsWellFormed(b, id);
      SubmitKeepsWellFormed(Cancel(b, id), Amended(t, price, qty));
    } else if qty < t.remaining {
      ShrinkKeepsWellFormed(b, id, qty);
    }
  }

  // ------------------------------------------------------------ fill-or-kill is all or nothing

  /** What the scan adds up: totals of the levels within reach, each cut to 32 bits. */
  function Reach32(taker: Ticket, levels: seq<(real, nat)>): nat {
    if levels == [] || !Crosses(taker, levels[0].0) then 0
    else levels[0].1 % TWO_TO_32 + Reach32(taker, levels[1..])
  }

  function Reach(taker: Ticket, levels: seq<(real, nat)>): nat {
    if levels == [] || !Crosses(taker, levels[0].0) then 0
    else levels[0].1 + Reach(taker, levels[1..])
  }

  /** Every level the scan may visit has a total that fits in 32 bits. */
  predicate Narrow(taker: Ticket, levels: seq<(real, nat)>) {
    levels == [] || !Crosses(taker, levels[0].0)
    || (levels[0].1 < TWO_TO_32 && Narrow(taker, levels[1..]))
  }

  lemma {:induction false} ScanIff(taker: Ticket, levels: seq<(real, nat)>, needed: nat)
    ensures CanFill(taker, levels, needed) <==> needed <= Reach32(taker, levels)
  {
    if needed != 0 && levels != [] && Crosses(taker, levels[0].0) {
      ScanIff(taker, levels[1..], needed - Min(needed, levels[0].1 % TWO_TO_32));
    }
  }

  lemma {:induction false} TruncationLoses(taker: Ticket, levels: seq<(real, nat)>)
    ensures Reach32(taker, levels) <= Reach(taker, levels)
    ensures Narrow(taker, levels) ==> Reach32(taker, levels) == Reach(taker, levels)
    ensures !Narrow(taker, levels) ==>
              Reach32(taker, levels) < Reach(taker, levels) && TWO_TO_32 <= Reach(taker, levels)
  {
    if levels != [] && Crosses(taker, levels[0].0) {
      TruncationLoses(taker, levels[1..]);
    }
  }

  /** The level totals within reach add up to the orders within reach. */
  lemma {:induction false} ReachIsLiquidity(taker: Ticket, makers: seq<Ticket>)
    requires Queue(makers, taker.side.Opposite())
    ensures Reach(taker, Levels(makers)) == Liquidity(taker, makers)
  {
    if makers != [] {
      var rest := Levels(makers[1..]);
      ReachIsLiquidity(taker, makers[1..]);
      if !Crosses(taker, makers[0].price) {
        forall i | 0 <= i < |makers| ensures !Crosses(taker, makers[i].price) {
          assert Rank(taker.side.Opposite(), makers[0].price) <= Rank(taker.side.Opposite(), makers[i].price);
        }
        LiquidityBeyondReach(taker, makers);
      } else if rest != [] && rest[0].0 == makers[0].price {
        assert Levels(makers)[1..] == rest[1..];
      } else {
        assert Levels(makers)[1..] == rest;
      }
    }
  }

  /** An accepted fill-or-kill order is filled; a rejected one leaves no trace. */
  lemma FokAllOrNothing(b: BookV, order: Ticket)
    requires WellFormed(b) && order.tif.FOK?
    ensures var opp := order.side.Opposite();
            var r := Submit(b, order);
            if order.remaining <= Reach32(order, Levels(b.Get(opp))) then
              r.order.remaining == 0 && Volume(r.trades) == order.remaining
            else
              r.book == b && r.trades == [] && r.order == order.(status := CANCELLED)
  {
    hide Match, CanFill, Levels, Reach, Reach32, Liquidity, Consume, Queue, DistinctIds, Uncrossed, DisjointIds, Volume,
         Insert;
    var o := order.(status := NEW);
    var makers := b.Get(o.side.Opposite());
    ScanIff(o, Levels(makers), o.remaining);
    Reach32SamePull(order, o, Levels(makers));
    TruncationLoses(o, Levels(makers));
    ReachIsLiquidity(o, makers);
    MatchClosedForm(o, makers);
  }

  lemma {:induction false} Reach32SamePull(a: Ticket, b: Ticket, levels: seq<(real, nat)>)
    requires SamePull(a, b)
    ensures Reach32(a, levels) == Reach32(b, levels)
  {
    if levels != [] {
      Reach32SamePull(a, b, levels[1..]);
    }
  }

  /** The scan decides "is there enough within reach?" for every 32-bit quantity exactly
      when all reachable level totals fit in 32 bits, or what is left of them after the
      cut still covers any 32-bit quantity. */
  lemma FokScanExactWhen(taker: Ticket, makers: seq<Ticket>)
    requires Queue(makers, taker.side.Opposite())
    ensures (forall needed: nat {:trigger CanFill(taker, Levels(makers), needed)} :: needed < TWO_TO_32 ==>
               (CanFill(taker, Levels(makers), needed) <==> needed <= Liquidity(taker, makers)))
            <==> Narrow(taker, Levels(makers)) || TWO_TO_32 - 1 <= Reach32(taker, Levels(makers))
  {
    var levels := Levels(makers);
    TruncationLoses(taker, levels);
    ReachIsLiquidity(taker, makers);
    forall needed: nat ensures CanFill(taker, levels, needed) <==> needed <= Reach32(taker, levels) {
      ScanIff(taker, levels, needed);
    }
    assert CanFill(taker, levels, TWO_TO_32 - 1) <==> TWO_TO_32 - 1 <= Reach32(taker, levels);
  }

  /** Two different orders of 2^31 shares rest at one price: a fill-or-kill order for one of
      those shares is killed, although 2^32 are within its reach. */
  lemma FokSpuriousKill(a: Ticket, c: Ticket, taker: Ticket)
    requires Resting(a, SELL) && Resting(c, SELL) && a.id != c.id && a.price == c.price
    requires a.remaining == c.remaining == 0x8000_0000
    requires taker.side.BUY? && taker.tif.FOK? && taker.remaining == 1 && Crosses(taker, a.price)
    ensures var b := BookV([], [a, c]);
            && WellFormed(b)
            && Liquidity(taker, b.asks) == TWO_TO_32
            && Submit(b, taker) == Submission(b, taker.(status := CANCELLED), [])
  {
    var s, o := [a, c], taker.(status := NEW);
    assert s[1..] == [c] && [c][1..] == [];
    assert Levels([c]) == [(c.price, 0x8000_0000)];
    assert Levels(s) == [(a.price, TWO_TO_32)];
    assert Liquidity(taker, [c]) == 0x8000_0000;
    ScanIff(o, Levels(s), 1);
  }

  // ------------------------------------------------------------ queue position

  /** Nothing at the order's own price stands behind it. */
  ghost predicate LastAtItsPrice(s: seq<Ticket>, id: nat) {
    Holds(s, id) && forall i :: Find(s, id) < i < |s| ==> s[i].price != s[Find(s, id)].price
  }

  lemma FindIs(s: seq<Ticket>, id: nat, k: nat)
    requires k < |s| && s[k].id == id && forall i :: 0 <= i < k ==> s[i].id != id
    ensures Find(s, id) == k
  {
  }

  lemma {:induction false} RemoveInserted(s: seq<Ticket>, t: Ticket)
    requires !Holds(s, t.id)
    ensures Remove(Insert(s, t), t.id) == s
  {
    if s != [] && Rank(t.side, s[0].price) <= Rank(t.side, t.price) {
      RemoveInserted(s[1..], t);
    }
  }

  lemma {:induction false} InsertedFind(s: seq<Ticket>, t: Ticket)
    requires !Holds(s, t.id)
    ensures Find(Insert(s, t), t.id) == Place(s, t.side, t.price)
  {
    if s != [] && Rank(t.side, s[0].price) <= Rank(t.side, t.price) {
      InsertedFind(s[1..], t);
    }
  }

  lemma FindBehindFirst(t: Ticket, q: seq<Ticket>, id: nat)
    requires t.id != id
    ensures Find([t] + q, id) == 1 + Find(q, id)
  {
    assert ([t] + q)[1..] == q;
  }

  lemma {:induction false} InsertedFindOther(q: seq<Ticket>, t: Ticket, id: nat)
    requires id != t.id
    ensures Find(Insert(q, t), id) == if Find(q, id) < Place(q, t.side, t.price) then Find(q, id) else Find(q, id) + 1
  {
    hide Rank;
    if q != [] && Rank(t.side, q[0].price) <= Rank(t.side, t.price) {
      InsertedFindOther(q[1..], t, id);
    } else {
      assert Insert(q, t) == [t] + q;
      FindBehindFirst(t, q, id);
    }
  }

  lemma WorseBehind(s: seq<Ticket>, side: Side, price: real)
    requires Queue(s, side)
    ensures forall i :: Place(s, side, price) <= i < |s| ==> s[i].price != price
  {
    hide Place;
    var k := Place(s, side, price);
    forall i | k <= i < |s| ensures s[i].price != price {
      assert Rank(side, s[k].price) <= Rank(side, s[i].price);
    }
  }

  lemma InsertedIsLast(s: seq<Ticket>, t: Ticket)
    requires Queue(s, t.side) && !Holds(s, t.id)
    ensures LastAtItsPrice(Insert(s, t), t.id)
  {
    hide Find, Place, Insert, Queue;
    InsertedFind(s, t);
    InsertAt(s, t);
    WorseBehind(s, t.side, t.price);
  }

  lemma {:induction false} InsertHolds(s: seq<Ticket>, t: Ticket, id: nat)
    ensures Holds(Insert(s, t), id) <==> id == t.id || Holds(s, id)
  {
    if s != [] && Rank(t.side, s[0].price) <= Rank(t.side, t.price) {
      InsertHolds(s[1..], t, id);
    }
  }

  lemma SweptHolds(taker: Ticket, makers: seq<Ticket>, id: nat)
    requires forall i :: 0 <= i < |makers| ==> 0 < makers[i].remaining
    ensures Holds(Match(taker, makers).makers, id) ==> Holds(makers, id)
  {
    var after := Match(taker, makers).makers;
    MatchShape(taker, makers);
    hide Match;
    if Holds(after, id) {
      RemnantAt(after, makers, Find(after, id));
    }
  }

  /** A submission leaves the opposite side swept and rests a remainder on the other. */
  lemma SubmitSides(b: BookV, order: Ticket)
    ensures var r := Submit(b, order);
            var o := order.(status := NEW);
            var m := Match(o, b.Get(o.side.Opposite()));
            && (|| (r.book.Get(o.side.Opposite()) == m.makers && r.trades == m.trades)
                || (r.book == b && r.trades == [] && order.tif.FOK?))
            && (r.order == m.taker || r.order == m.taker.(status := CANCELLED) || r.order == o.(status := CANCELLED))
            && if order.kind.LIMIT? && order.tif.GTC? && m.taker.IsActive() && 0 < m.taker.remaining
               then r.order == m.taker && r.book.Get(o.side) == Insert(b.Get(o.side), m.taker)
               else r.book.Get(o.side) == b.Get(o.side)
                    && (order.kind.LIMIT? && order.tif.GTC? ==> r.order == m.taker)
  {
    hide Match, CanFill, Levels, Insert;
  }

  /** Which orders rest after a submission: never one that was not there, except the
      submitted order itself, and that one exactly when it is a good-till-cancelled
      limit order with shares left. */
  lemma RestsAfterSubmit(b: BookV, order: Ticket, id: nat)
    requires WellFormed(b) && !b.Rests(order.id)
    ensures var r := Submit(b, order);
            && (id != order.id && r.book.Rests(id) ==> b.Rests(id))
            && (r.book.Rests(order.id) <==> order.kind.LIMIT? && order.tif.GTC? && 0 < r.order.remaining)
            && (r.book.Rests(order.id) ==> r.book.Get(order.side) == Insert(b.Get(order.side), r.order))
            && order.SameOrder(r.order)
  {
    var o := order.(status := NEW);
    var own, opp := b.Get(o.side), b.Get(o.side.Opposite());
    var m := Match(o, opp);
    SubmitSides(b, order);
    SweptHolds(o, opp, id);
    SweptHolds(o, opp, o.id);
    MatchShape(o, opp);
    InsertHolds(own, m.taker, id);
    InsertHolds(own, m.taker, o.id);
    hide Match, Submit, Insert, Holds, WellFormed, Remnant, Done, Volume;
  }

  /** A submitted order that rests is last at its price. */
  lemma SubmittedIsLast(b: BookV, order: Ticket)
    requires WellFormed(b) && !b.Rests(order.id)
    ensures var r := Submit(b, order);
            r.book.Rests(order.id) ==> LastAtItsPrice(r.book.Get(order.side), order.id)
  {
    RestsAfterSubmit(b, order, order.id);
    var r := Submit(b, order);
    hide Submit;
    InsertedIsLast(b.Get(order.side), r.order);
  }

  /** A modification that changes the price or raises the quantity sends the order to
      the back of the queue at its price. */
  lemma ReplacedIsLast(b: BookV, id: nat, price: real, qty: nat)
    requires WellFormed(b) && b.Rests(id) && LosesPlace(Lookup(b, id), price, qty)
    ensures var r := Modify(b, id, price, qty);
            r.book.Rests(id) ==> LastAtItsPrice(r.book.Get(Lookup(b, id).side), id)
  {
    CancelKeepsWellFormed(b, id);
    SubmittedIsLast(Cancel(b, id), Amended(Lookup(b, id), price, qty));
  }

  /** Raising the quantity at the same price never trades. */
  lemma RaiseNeverTrades(b: BookV, id: nat, qty: nat)
    requires WellFormed(b) && b.Rests(id) && Lookup(b, id).remaining < qty
    ensures Modify(b, id, Lookup(b, id).price, qty).trades == []
    ensures Modify(b, id, Lookup(b, id).price, qty).book.Rests(id)
  {
    var t := Lookup(b, id);
    var b1, o := Cancel(b, id), Amended(t, t.price, qty);
    CancelKeepsWellFormed(b, id);
    var opp := b1.Get(o.side.Opposite());
    assert opp == b.Get(o.side.Opposite());
    assert Done(o, opp) by {
      if opp != [] {
        assert Rank(BUY, t.price) == -t.price;
        assert !Crosses(o, opp[0].price);
      }
    }
    RestsAfterSubmit(b1, o, id);
  }

  /** Lowering the quantity keeps every order in its position and every other order as it was. */
  lemma LowerKeepsPlace(b: BookV, id: nat, qty: nat, side: Side, i: nat)
    requires WellFormed(b) && b.Rests(id) && 0 < qty < Lookup(b, id).remaining
    requires i < |b.Get(side)|
    ensures var r := Modify(b, id, Lookup(b, id).price, qty);
            && r.trades == []
            && |r.book.Get(side)| == |b.Get(side)|
            && r.book.Get(side)[i]
               == if b.Get(side)[i].id == id then b.Get(side)[i].(remaining := qty) else b.Get(side)[i]
  {
    if b.Get(side)[i].id == id {
      assert Holds(b.Get(side), id);
    }
  }

  // ------------------------------------------------------------ cancelling

  lemma LookupSide(b: BookV, id: nat)
    requires Filed(b) && b.Rests(id)
    ensures var t := Lookup(b, id);
            && Holds(b.Get(t.side), id) && !Holds(b.Get(t.side.Opposite()), id)
            && t == b.Get(t.side)[Find(b.Get(t.side), id)]
  {
    hide Find;
    var t := Lookup(b, id);
    assert Resting(t, t.side);
    if Holds(b.bids, id) {
      assert forall j :: 0 <= j < |b.asks| ==> b.bids[Find(b.bids, id)].id != b.asks[j].id;
    }
  }

  lemma CancelKeepsFiled(b: BookV, id: nat)
    requires Filed(b) && b.Rests(id)
    ensures Filed(Cancel(b, id))
  {
    LookupSide(b, id);
    var s := Lookup(b, id).side;
    RemovedAt(b.Get(s), id);
    var idx := RemovedFrom(b.Get(s), s, id);
    ThinnedSide(b.Get(s), Remove(b.Get(s), id), s, [], idx);
    hide Find, Remove, Queue, DistinctIds;
  }

  /** Cancelling removes the order and no other. */
  lemma CancelRemovesOnly(b: BookV, id: nat, other: nat)
    requires Filed(b) && b.Rests(id)
    ensures !Cancel(b, id).Rests(id)
    ensures other != id ==> (Cancel(b, id).Rests(other) <==> b.Rests(other))
    ensures other != id && b.Rests(other) ==> Lookup(Cancel(b, id), other) == Lookup(b, other)
  {
    LookupSide(b, id);
    var s := Lookup(b, id).side;
    var idx := RemovedFrom(b.Get(s), s, id);
    if other != id {
      RemoveOther(b.bids, id, other);
      RemoveOther(b.asks, id, other);
    }
    hide Filed, Remove, Find;
  }

  lemma {:induction false} UpdatedFind(q: seq<Ticket>, k: nat, t: Ticket, id: nat)
    requires k < |q| && t.id == q[k].id
    ensures Find(q[k := t], id) == Find(q, id)
  {
    hide Find;
    assert forall i :: 0 <= i < |q| ==> q[k := t][i].id == q[i].id;
  }

  /** Where the others are found once an order is gone: one place further on if they were behind it. */
  lemma {:induction false} RemovedFindOther(s: seq<Ticket>, id: nat, other: nat)
    requires id != other && Holds(s, id)
    ensures Find(Remove(s, id), other) == if Find(s, other) < Find(s, id) then Find(s, other) else Find(s, other) - 1
  {
    if s[0].id != id {
      RemovedFindOther(s[1..], id, other);
      assert Remove(s, id)[1..] == Remove(s[1..], id);
    }
  }

  lemma {:induction false} RemoveOther(s: seq<Ticket>, id: nat, other: nat)
    requires id != other
    ensures Holds(Remove(s, id), other) <==> Holds(s, other)
    ensures Holds(s, other) ==> Remove(s, id)[Find(Remove(s, id), other)] == s[Find(s, other)]
  {
    hide Find, Remove;
    if Holds(s, id) {
      RemovedFindOther(s, id, other);
      RemovedAt(s, id);
    } else {
      RemoveAbsent(s, id);
    }
  }

  /** Resting an order and cancelling it again restores the book. */
  lemma AddThenCancel(b: BookV, order: Ticket)
    requires WellFormed(b) && !b.Rests(order.id)
    requires order.kind.LIMIT? && order.tif.GTC? && 0 < order.remaining
    requires Liquidity(order, b.Get(order.side.Opposite())) == 0
    ensures var r := Submit(b, order);
            r.trades == [] && r.book.Rests(order.id) && Cancel(r.book, order.id) == b
  {
    var o := order.(status := NEW);
    var own, opp := b.Get(o.side), b.Get(o.side.Opposite());
    assert Match(o, opp) == Outcome(o, opp, []) by {
      assert Done(o, opp);
    }
    InsertHolds(own, o, o.id);
    RemoveInserted(own, o);
    hide Match, Insert, Remove, Find, WellFormed, CanFill, Levels;
  }

  /** A limit order that reaches nothing rests as it is. */
  lemma RestsAtOnce(b: BookV, o: Ticket)
    requires o.kind.LIMIT? && o.tif.GTC? && 0 < o.remaining && o.status.NEW? && Done(o, b.Get(o.side.Opposite()))
    ensures Submit(b, o) == Submission(b.Put(o.side, Insert(b.Get(o.side), o)), o, [])
  {
    hide Insert, Done;
    assert Match(o, b.Get(o.side.Opposite())) == Outcome(o, b.Get(o.side.Opposite()), []);
    hide Match;
  }

  // ------------------------------------------------------------ price levels

  /** Unfilled shares that rest at one price. */
  function TotalAt(s: seq<Ticket>, price: real): nat {
    if s == [] then 0 else (if s[0].price == price then s[0].remaining else 0) + TotalAt(s[1..], price)
  }

  lemma {:induction false} NoneAt(s: seq<Ticket>, price: real)
    requires forall i :: 0 <= i < |s| ==> s[i].price != price
    ensures TotalAt(s, price) == 0
  {
    if s != [] {
      NoneAt(s[1..], price);
    }
  }

  lemma QueueTail(s: seq<Ticket>, side: Side)
    requires Queue(s, side) && s != []
    ensures var tail := s[1..];
            && Queue(tail, side)
            && (tail != [] && s[0].price != tail[0].price ==> Rank(side, s[0].price) < Rank(side, tail[0].price))
            && (forall k :: 0 <= k < |tail| ==> Rank(side, tail[0].price) <= Rank(side, tail[k].price))
  {
  }

  lemma {:induction false} FirstLevel(s: seq<Ticket>)
    requires s != []
    ensures Levels(s) != [] && Levels(s)[0].0 == s[0].price
  {
  }

  lemma {:induction false} LevelsSorted(s: seq<Ticket>, side: Side, i: nat)
    requires Queue(s, side) && 0 < i < |Levels(s)|
    ensures Rank(side, Levels(s)[0].0) <= Rank(side, Levels(s)[i - 1].0) < Rank(side, Levels(s)[i].0)
  {
    var tail := s[1..];
    QueueTail(s, side);
    hide Queue, Rank;
    FirstLevel(tail);
    var k := if tail[0].price == s[0].price then i else i - 1;
    if 0 < k {
      LevelsSorted(tail, side, k);
    }
  }

  /** Level by level, best price first and each price once: the shares that rest at that price. */
  lemma {:induction false} LevelsAt(s: seq<Ticket>, side: Side, i: nat)
    requires Queue(s, side) && i < |Levels(s)|
    ensures Levels(s)[i].1 == TotalAt(s, Levels(s)[i].0)
    ensures i > 0 ==> Rank(side, Levels(s)[i - 1].0) < Rank(side, Levels(s)[i].0)
  {
    var tail := s[1..];
    var rest := Levels(tail);
    QueueTail(s, side);
    hide Queue, Rank;
    if i > 0 {
      LevelsSorted(s, side, i);
    }
    if rest != [] {
      FirstLevel(tail);
      if rest[0].0 == s[0].price {
        LevelsAt(tail, side, i);
      } else if i > 0 {
        LevelsAt(tail, side, i - 1);
      } else {
        LaterLevels(s, side);
      }
    }
  }

  lemma LaterLevels(s: seq<Ticket>, side: Side)
    requires Queue(s, side) && 1 < |s| && s[1].price != s[0].price
    ensures TotalAt(s[1..], s[0].price) == 0
  {
    QueueTail(s, side);
    NoneAt(s[1..], s[0].price);
  }

  /** Every order's price has its level. */
  lemma {:induction false} LevelOf(s: seq<Ticket>, k: nat) returns (i: nat)
    requires k < |s|
    ensures i < |Levels(s)| && Levels(s)[i].0 == s[k].price
  {
    if k == 0 {
      i := 0;
    } else {
      var j := LevelOf(s[1..], k - 1);
      i := if |Levels(s)| == |Levels(s[1..])| then j else j + 1;
    }
  }

  // ------------------------------------------------------------ what the scan covers

  /** Level totals, each cut to 32 bits, added up. */
  function Sum32(levels: seq<(real, nat)>): nat {
    if levels == [] then 0 else levels[0].1 % TWO_TO_32 + Sum32(levels[1..])
  }

  /** The fill-or-kill scan of a market order counts every level; that of a limit order counts
      the levels up to the first one beyond its limit. */
  lemma {:induction false} ScanCovers(taker: Ticket, levels: seq<(real, nat)>) returns (n: nat)
    ensures n <= |levels| && Reach32(taker, levels) == Sum32(levels[..n])
    ensures taker.kind.MARKET? ==> n == |levels|
    ensures taker.kind.LIMIT? ==>
              && (forall i :: 0 <= i < n ==>
                    if taker.side.BUY? then levels[i].0 <= taker.price else taker.price <= levels[i].0)
              && (n < |levels| ==>
                    if taker.side.BUY? then taker.price < levels[n].0 else levels[n].0 < taker.price)
  {
    if levels == [] || !Crosses(taker, levels[0].0) {
      n := 0;
    } else {
      var m := ScanCovers(taker, levels[1..]);
      n := m + 1;
      assert levels[..n][1..] == levels[1..][..m];
      forall i | 0 <= i < n
        ensures taker.kind.LIMIT? ==>
                  if taker.side.BUY? then levels[i].0 <= taker.price else taker.price <= levels[i].0
      {
        assert i > 0 ==> levels[i] == levels[1..][i - 1];
      }
    }
  }

  // ------------------------------------------------------------ what a modification asks for

  /** A new price or a larger quantity is a cancel followed by a fresh order with exactly the
      price and quantity asked for. */
  lemma ModifyResubmits(b: BookV, id: nat, price: real, qty: nat)
    requires b.Rests(id)
    requires var t := Lookup(b, id); price != t.price || t.remaining < qty
    ensures var t := Lookup(b, id);
            Modify(b, id, price, qty)
            == Submit(Cancel(b, id), t.(price := price, filled := 0, remaining := qty, status := NEW))
  {
    hide Submit, Cancel, Find;
  }

  /** The price and quantity asked for are those that trade and rest. */
  lemma {:induction false} ModifyObeys(b: BookV, id: nat, price: real, qty: nat)
    requires WellFormed(b) && b.Rests(id)
    requires var t := Lookup(b, id); price != t.price || t.remaining < qty
    ensures var t := Lookup(b, id);
            var r := Modify(b, id, price, qty);
            && r.order.price == price && r.order.filled + r.order.remaining == qty
            && r.order.id == id && r.order.trader == t.trader && r.order.symbol == t.symbol && r.order.side == t.side
            && Volume(r.trades) == qty - r.order.remaining
            && (r.book.Rests(id) <==> 0 < r.order.remaining)
            && (r.book.Rests(id) ==> Lookup(r.book, id) == r.order)
  {
    hide WellFormed, Submit, Cancel, Find, Volume;
    var t := Lookup(b, id);
    var o := t.(price := price, filled := 0, remaining := qty, status := NEW);
    RestingTicket(b, id);
    ModifyResubmits(b, id, price, qty);
    CancelKeepsWellFormed(b, id);
    RestsAfterSubmit(Cancel(b, id), o, id);
    SubmitKeepsWellFormed(Cancel(b, id), o);
    SubmitConserves(Cancel(b, id), o);
    if 0 < Submit(Cancel(b, id), o).order.remaining {
      InsertedLookup(Cancel(b, id), Submit(Cancel(b, id), o).book, Submit(Cancel(b, id), o).order);
    }
  }

  lemma RestingTicket(b: BookV, id: nat)
    requires WellFormed(b) && b.Rests(id)
    ensures var t := Lookup(b, id); t.id == id && t.kind.LIMIT? && t.tif.GTC? && 0 < t.remaining
  {
  }

  /** Shares of a submitted order either trade or are left over; what was filled stays filled. */
  lemma {:induction false} SubmitConserves(b: BookV, order: Ticket)
    requires Filed(b)
    ensures var r := Submit(b, order);
            r.order.filled + r.order.remaining == order.filled + order.remaining
            && Volume(r.trades) == order.remaining - r.order.remaining
  {
    hide Match, Insert, CanFill, Levels;
    var o := order.(status := NEW);
    var opp := b.Get(o.side.Opposite());
    AllUnfilled(opp, o.side.Opposite());
    MatchShape(o, opp);
    assert Volume([]) == 0;
    hide Filed, Remnant, Done, Volume, Queue;
  }

  lemma AllUnfilled(q: seq<Ticket>, side: Side)
    requires Queue(q, side)
    ensures forall i :: 0 <= i < |q| ==> 0 < q[i].remaining
  {
  }

  lemma {:induction false} InsertedLookup(b: BookV, b': BookV, t: Ticket)
    requires WellFormed(b') && !b.Rests(t.id) && b'.Get(t.side) == Insert(b.Get(t.side), t)
    ensures b'.Rests(t.id) && Lookup(b', t.id) == t
  {
    hide Find, Insert, Place, Queue, DistinctIds;
    InsertedFind(b.Get(t.side), t);
    InsertAt(b.Get(t.side), t);
    InsertHolds(b.Get(t.side), t, t.id);
    LookupSide(b', t.id);
  }

  /** Asking for the price and quantity an order has changes nothing. */
  lemma ModifySame(b: BookV, id: nat)
    requires b.Rests(id)
    ensures var t := Lookup(b, id); Modify(b, id, t.price, t.remaining) == Submission(b, t, [])
  {
    hide Submit, Cancel, Find;
  }

  // ------------------------------------------------------------ final status

  /** What a submitted order has become: filled when nothing is left of it, cancelled when killed or
      cut off, else new or partially filled according to whether it traded. One for no shares
      stays new. */
  lemma {:induction false} FinalStatus(b: BookV, order: Ticket)
    requires Filed(b)
    ensures var r := Submit(b, order);
            r.order.status
            == if order.remaining == 0 then NEW
               else if r.order.remaining == 0 then FILLED
               else if order.kind.MARKET? || !order.tif.GTC? then CANCELLED
               else if r.trades == [] then NEW
               else PARTIALLY_FILLED
  {
    hide Match, CanFill, Insert, Levels;
    var o := order.(status := NEW);
    var opp := b.Get(o.side.Opposite());
    if o.remaining == 0 {
      NothingWanted(o, opp);
    }
    AllUnfilled(opp, o.side.Opposite());
    MatchShape(o, opp);
    hide Filed, Remnant, Done, Volume, Queue;
  }

  lemma NothingWanted(o: Ticket, opp: seq<Ticket>)
    requires o.remaining == 0
    ensures Match(o, opp) == Outcome(o, opp, []) && CanFill(o, Levels(opp), 0)
  {
  }
}
