/** The exchange object: one book per symbol, a global index that routes cancels and
    modifications, one engine, and statistics. Each method does to the objects what
    the operation of the same name in `ExchangeSpec` does to the exchange's value. */
module Exchanges {
  import opened Types
  import opened BookSpec
  import opened ExchangeSpec
  import opened PriceLevels
  import opened LevelMaps
  import opened OrderBooks
  import opened MatchingEngines

  class Exchange {
    var books: map<string, OrderBook>
    var globalOrderIndex: map<nat, string>
    const engine: MatchingEngine
    var totalOrdersSubmitted: nat
    var totalOrdersCancelled: nat
    var totalOrdersModified: nat
    var totalRejects: nat
    ghost var Repr: set<object>

    constructor ()
      ensures Valid() && View() == Start && fresh(Repr)
    {
      hide MatchingEngine.Valid;
      var sink := new FillSink();
      engine := new MatchingEngine(sink);
      books, globalOrderIndex := map[], map[];
      totalOrdersSubmitted, totalOrdersCancelled, totalOrdersModified, totalRejects := 0, 0, 0, 0;
      new;
      Repr := {this, engine, sink};
    }

    /** A book that belongs to this exchange. */
    ghost predicate Holding(b: OrderBook)
      reads `Repr, b.bids, b.asks
    {
      b.Repr() <= Repr && this !in b.Repr() && engine !in b.Repr() && engine.sink !in b.Repr()
    }

    ghost predicate Owned()
      reads `books, `Repr, Repr - {this}
    {
      && this in Repr && engine in Repr && engine.sink in Repr
      && (forall s :: s in books ==> books[s] in Repr && books[s].bids in Repr && books[s].asks in Repr)
      && (forall s :: s in books ==> Holding(books[s]))
      && (forall s, t :: s in books && t in books && s != t ==> books[s].Repr() !! books[t].Repr())
    }

    ghost predicate BooksValid()
      requires Owned()
      reads `books, `Repr, Repr - {this}
    {
      forall s :: s in books ==> Holding(books[s]) && books[s].Valid()
    }

    ghost predicate Valid()
      reads `books, `Repr, Repr - {this}
    {
      Owned() && engine.Valid() && BooksValid()
    }

    ghost function BookViews(): map<string, BookV>
      requires Valid()
      reads `books, `Repr, Repr - {this}
    {
      map s | s in books :: books[s].View()
    }

    ghost function View(): Exch
      requires Valid()
      reads this, Repr
    {
      Exch(BookViews(), globalOrderIndex, engine.tape,
           Stats(engine.ordersProcessed, totalOrdersSubmitted, totalOrdersCancelled, totalOrdersModified, totalRejects))
    }

    /** An order object that no book holds. */
    ghost predicate Loose(order: Order)
      requires Valid()
      reads `books, `Repr, Repr - {this}
    {
      forall s :: s in books ==> order !in books[s].Repr()
    }

    lemma Extent(s: string)
      requires Valid()
      ensures this in Repr && engine in Repr && engine.sink in Repr
      ensures s in books ==>
                books[s].Repr() <= Repr && this !in books[s].Repr()
                && engine !in books[s].Repr() && engine.sink !in books[s].Repr()
      ensures BookViews().Keys == books.Keys
    {
    }

    /** The objects of one book are out of reach of the others. */
    lemma BooksApart(s: string)
      requires Valid() && s in books
      ensures this !in books[s].Repr() && engine !in books[s].Repr() && engine.sink !in books[s].Repr()
      ensures books[s].Repr() <= Repr
      ensures forall t :: t in books && t != s ==>
                books[t].Repr() <= Repr && books[t].Repr() !! books[s].Repr() && this !in books[t].Repr()
                && engine !in books[t].Repr() && engine.sink !in books[t].Repr()
                && books[t] in books[t].Repr() && books[t].bids in books[t].Repr() && books[t].asks in books[t].Repr()
    {
      hide OrderBook.Sound, LevelMap.Valid, MatchingEngine.Valid;
      forall t | t in books ensures books[t].bids in books[t].Repr() && books[t].asks in books[t].Repr() {
        books[t].Parts();
      }
    }

    /** Ownership after one book has grown by objects that are out of reach of the others. */
    twostate lemma BookGrew(s: string)
      requires old(Owned()) && s in books && books == old(books)
      requires Repr == old(Repr) + books[s].Repr() && books[s].Valid()
      requires this !in books[s].Repr() && engine !in books[s].Repr() && engine.sink !in books[s].Repr()
      requires forall t :: t in books && t != s ==>
                 books[t].Repr() == old(books[t].Repr()) && books[t].Repr() !! books[s].Repr()
      ensures Owned()
    {
      hide OrderBook.Sound, LevelMap.Valid;
      books[s].Parts();
      forall t | t in books ensures Holding(books[t]) {
      }
    }

    lemma AllHeld()
      requires Owned()
      ensures forall s :: s in books ==> Holding(books[s])
    {
    }

    /** When one book has been worked on or put in, the exchange's books read as before elsewhere. */
    twostate lemma OneBookChanged(s: string)
      requires old(Valid()) && Owned() && engine.Valid()
      requires s in books && books == old(books)[s := books[s]] && books[s].Valid()
      requires forall t :: t in old(books) && t != s ==> books[t].Valid() && books[t].View() == old(books[t].View())
      ensures Valid() && BookViews() == old(BookViews())[s := books[s].View()]
    {
      hide Owned, Holding, OrderBook.Sound, OrderBook.View, LevelMap.Valid;
      AllHeld();
    }

    /** Lists a symbol; false if it is listed already. */
    method AddSymbol(symbol: string) returns (added: bool)
      requires Valid()
      modifies this
      ensures Valid() && fresh(Repr - old(Repr))
      ensures (View(), added) == DoAddSymbol(old(View()), symbol)
    {
      hide Owned, OrderBook.Sound, OrderBook.View, OrderBook.Repr, LevelMap.Valid, MatchingEngine.Valid;
      NewcomerApart();
      if symbol in books {
        return false;
      }
      var book := new OrderBook(symbol);
      books := books[symbol := book];
      Repr := Repr + book.Repr();
      added := true;
      NewBookOwned(symbol);
      OneBookChanged(symbol);
    }

    lemma NewcomerApart()
      requires Valid()
      ensures forall t :: t in books ==>
                books[t].Repr() <= Repr && this !in books[t].Repr()
                && books[t] in books[t].Repr() && books[t].bids in books[t].Repr() && books[t].asks in books[t].Repr()
    {
      forall t | t in books ensures books[t].bids in books[t].Repr() && books[t].asks in books[t].Repr() {
        books[t].Parts();
      }
    }

    twostate lemma NewBookOwned(s: string)
      requires old(Owned()) && s !in old(books) && s in books && books == old(books)[s := books[s]]
      requires Repr == old(Repr) + books[s].Repr() && fresh(books[s].Repr())
      requires books[s].bids in books[s].Repr() && books[s].asks in books[s].Repr()
      requires forall t :: t in old(books) ==> books[t].Repr() == old(books[t].Repr())
      ensures Owned()
    {
      forall t | t in books ensures Holding(books[t]) {
      }
    }

    /** The book an order id is routed to, if any. */
    method FindBookForOrder(id: nat) returns (book: OrderBook?)
      requires Valid()
      ensures book != null <==> id in globalOrderIndex && globalOrderIndex[id] in books
      ensures book != null ==> book == books[globalOrderIndex[id]]
    {
      if id !in globalOrderIndex {
        return null;
      }
      if globalOrderIndex[id] !in books {
        return null;
      }
      return books[globalOrderIndex[id]];
    }

    /** Hands an order to the engine together with its book. */
    method SubmitTo(s: string, order: Order)
      requires Valid() && s in books && s in BookViews() && Loose(order) && order.filledQty <= order.quantity
      requires !BookViews()[s].Rests(order.id)
      modifies books[s].Repr(), engine, engine.sink, order, this`Repr
      ensures Valid() && fresh(Repr - old(Repr) - {order}) && old(Repr) <= Repr
      ensures order.filledQty <= order.quantity
      ensures engine.ordersProcessed == old(engine.ordersProcessed) + 1
      ensures var r := BookSpec.Submit(old(BookViews())[s], old(order.Val()));
              && BookViews() == old(BookViews())[s := r.book]
              && order.Val() == r.order
              && engine.tape == old(engine.tape) + r.trades
    {
      hide Owned, OrderBook.Sound, OrderBook.View, OrderBook.Repr, LevelMap.Valid, MatchingEngine.Valid,
           BookSpec.Submit, BookV.Rests;
      BooksApart(s);
      engine.SubmitOrder(order, books[s]);
      forall t | t in books && t != s
        ensures books[t].Valid() && books[t].View() == old(books[t].View()) && books[t].Repr() == old(books[t].Repr())
      {
      }
      Repr := Repr + books[s].Repr();
      BookGrew(s);
      OneBookChanged(s);
    }

    /** Turns away an order for a symbol that is not listed. */
    method Reject(order: Order)
      requires Valid() && Loose(order)
      modifies `totalRejects, order`status
      ensures Valid() && BookViews() == old(BookViews())
      ensures totalRejects == old(totalRejects) + 1 && engine.tape == old(engine.tape)
      ensures engine.ordersProcessed == old(engine.ordersProcessed)
      ensures order.Val() == old(order.Val()).(status := REJECTED)
    {
      hide OrderBook.Sound, OrderBook.View, LevelMap.Valid, MatchingEngine.Valid;
      order.status := REJECTED;
      totalRejects := totalRejects + 1;
      forall t | t in books
        ensures books[t].Valid() && books[t].View() == old(books[t].View()) && books[t].Repr() == old(books[t].Repr())
      {
      }
    }

    /** Submits an order for a listed symbol, with its entry in the global index. */
    method SubmitListed(order: Order)
      requires Valid() && Loose(order) && order.filledQty <= order.quantity
      requires order.symbol in books && order.symbol in BookViews() && !BookViews()[order.symbol].Rests(order.id)
      modifies Repr, order
      ensures Valid() && fresh(Repr - old(Repr) - {order}) && order.filledQty <= order.quantity
      ensures Effect(View(), true, order.Val()) == DoSubmit(old(View()), old(order.Val()))
    {
      hide Valid, Loose, BookViews, OrderBook.Repr, OrderBook.View, BookSpec.Submit, BookV.Rests;
      Extent(order.symbol);
      totalOrdersSubmitted := totalOrdersSubmitted + 1;
      if order.kind.LIMIT? {
        globalOrderIndex := globalOrderIndex[order.id := order.symbol];
      }
      SubmitTo(order.symbol, order);
      if order.kind.LIMIT? && order.status == FILLED {
        globalOrderIndex := globalOrderIndex - {order.id};
      }
    }

    /** Routes an order to its symbol's book; false if the symbol is unknown. */
    method SubmitOrder(order: Order) returns (ok: bool)
      requires Valid() && Loose(order) && order.filledQty <= order.quantity
      requires order.symbol in BookViews() ==> !BookViews()[order.symbol].Rests(order.id)
      modifies Repr, order
      ensures Valid() && fresh(Repr - old(Repr) - {order}) && order.filledQty <= order.quantity
      ensures Effect(View(), ok, order.Val()) == DoSubmit(old(View()), old(order.Val()))
    {
      hide Valid, Loose, BookViews, OrderBook.Repr, OrderBook.View, BookSpec.Submit, BookV.Rests;
      Extent(order.symbol);
      ok := order.symbol in books;
      if ok {
        SubmitListed(order);
      } else {
        Reject(order);
      }
    }

    /** Cancels an order in one book, whose content is `b`. */
    method CancelIn(s: string, id: nat, ghost b: BookV) returns (removed: bool, ghost gone: Order?)
      requires Valid() && s in books && s in BookViews() && b == BookViews()[s]
      modifies books[s].Repr()
      ensures books == old(books) && Valid() && removed == b.Rests(id)
      ensures BookViews() == if removed then old(BookViews())[s := BookSpec.Cancel(b, id)] else old(BookViews())
      ensures forall t :: t in books ==> books[t].Repr() == old(books[t].Repr())
      ensures forall o: Order :: o in old(Repr) ==> o.Val() == old(o.Val())
      ensures removed ==> gone != null && gone in books[s].Repr() && gone.Val() == Lookup(b, id) && gone.IsActive()
    {
      hide Owned, OrderBook.Sound, OrderBook.View, OrderBook.Repr, LevelMap.Valid, MatchingEngine.Valid,
           BookSpec.Cancel, BookV.Rests;
      BooksApart(s);
      books[s].Parts();
      removed, gone := engine.CancelOrder(id, books[s]);
      SameOwners(s);
      OneBookChanged(s);
    }

    /** Ownership when a book's objects are the same as before, or fewer. */
    twostate lemma SameOwners(s: string)
      requires old(Owned()) && s in books && books == old(books) && Repr == old(Repr)
      requires books[s].Repr() <= old(books[s].Repr())
      requires forall t :: t in books && t != s ==> books[t].Repr() == old(books[t].Repr())
      ensures Owned()
    {
    }

    /** Cancels an order wherever it rests; false if it rests nowhere. The cancelled object,
        `gone`, keeps its status, new or partially filled, and so does every other order. */
    method CancelOrder(id: nat) returns (removed: bool, ghost gone: Order?)
      requires Valid()
      modifies Repr
      ensures Valid() && Repr == old(Repr)
      ensures (View(), removed) == DoCancel(old(View()), id)
      ensures forall o: Order :: o in old(Repr) ==> o.Val() == old(o.Val())
      ensures removed ==>
                Routed(old(View()), id) && gone != null && gone in Repr
                && gone.Val() == Lookup(old(View()).books[old(View()).home[id]], id)
                && (gone.status.NEW? || gone.status.PARTIALLY_FILLED?)
    {
      hide Valid, Loose, BookViews, OrderBook.Repr, OrderBook.View, BookSpec.Cancel, BookV.Rests;
      var book := FindBookForOrder(id);
      if book == null {
        Extent("");
        return false, null;
      }
      var s := globalOrderIndex[id];
      Extent(s);
      removed, gone := CancelIn(s, id, BookViews()[s]);
      if removed {
        globalOrderIndex := globalOrderIndex - {id};
        totalOrdersCancelled := totalOrdersCancelled + 1;
      }
    }

    /** Lets go of an order object that a book no longer queues. */
    ghost method DisownIn(s: string, order: Order)
      requires Valid() && s in books && s in BookViews() && !BookViews()[s].Rests(order.id)
      requires forall t :: t in books && t != s ==> order !in books[t].Repr()
      modifies books[s].Repr()
      ensures books == old(books) && Valid() && BookViews() == old(BookViews()) && Loose(order)
      ensures books[s].Repr() <= old(books[s].Repr())
    {
      hide Owned, OrderBook.Sound, OrderBook.View, OrderBook.Repr, LevelMap.Valid, MatchingEngine.Valid, BookV.Rests;
      BooksApart(s);
      books[s].Disown(order);
      SameOwners(s);
      OneBookChanged(s);
      assert BookViews() == old(BookViews());
    }

    /** Gives a loose order a new price and quantity and makes it new again. */
    method Amend(order: Order, price: real, qty: nat)
      requires Valid() && Loose(order)
      modifies order
      ensures Valid() && BookViews() == old(BookViews()) && Loose(order)
      ensures forall t :: t in books ==> books[t].Repr() == old(books[t].Repr())
      ensures order.filledQty <= order.quantity
      ensures order.Val() == Amended(old(order.Val()), price, qty)
    {
      hide OrderBook.Sound, OrderBook.View, LevelMap.Valid, MatchingEngine.Valid;
      order.price := price;
      order.filledQty := 0;
      order.quantity := qty;
      order.status := NEW;
      forall t | t in books
        ensures books[t].Valid() && books[t].View() == old(books[t].View()) && books[t].Repr() == old(books[t].Repr())
      {
      }
    }

    /** Lowers a resting order's remaining quantity in place. */
    method ReduceIn(s: string, id: nat, side: Side, price: real, n: nat, qty: nat)
      requires Valid() && s in books && s in BookViews() && BookViews()[s].Rests(id)
      requires price in books[s].SideMap(side).levels && n < |books[s].SideMap(side).levels[price].orders|
      requires 0 < qty <= books[s].SideMap(side).levels[price].orders[n].Remaining()
      requires id == books[s].SideMap(side).levels[price].orders[n].id
      requires Holds(BookViews()[s].Get(side), id)
      modifies books[s].Repr()
      ensures Valid()
      ensures BookViews() == old(BookViews()[s := Shrink(BookViews()[s], id, qty)])
    {
      hide Owned, OrderBook.Sound, OrderBook.View, OrderBook.Repr, LevelMap.Valid, MatchingEngine.Valid, Shrink;
      BooksApart(s);
      books[s].ReduceOrder(side, price, n, qty);
      SameOwners(s);
      OneBookChanged(s);
    }

    /** Cancels a resting order whose object is then free to be submitted again. */
    method TakeBack(s: string, target: Order)
      requires Valid() && s in books && s in BookViews() && target in books[s].Repr()
      requires BookViews()[s].Rests(target.id)
      modifies books[s].Repr()
      ensures books == old(books) && Valid() && Loose(target) && target in Repr
      ensures BookViews() == old(BookViews())[s := BookSpec.Cancel(old(BookViews())[s], target.id)]
      ensures !BookViews()[s].Rests(target.id) && books[s].Repr() <= old(books[s].Repr())
    {
      hide Valid, Loose, BookViews, OrderBook.Repr, OrderBook.View, BookSpec.Submit, BookSpec.Cancel, BookV.Rests;
      Extent(s);
      TargetApart(s, target);
      CancelledIsGone(s, target.id);
      var _, _ := CancelIn(s, target.id, BookViews()[s]);
      DisownIn(s, target);
    }

    /** Cancels a resting order and submits the same object anew. */
    method Replace(s: string, target: Order, price: real, qty: nat)
      requires Valid() && s in books && s in BookViews() && target in books[s].Repr()
      requires BookViews()[s].Rests(target.id)
      modifies books[s].Repr(), engine, engine.sink, `Repr, `globalOrderIndex
      ensures Valid() && fresh(Repr - old(Repr))
      ensures engine.ordersProcessed == old(engine.ordersProcessed) + 1
      ensures globalOrderIndex == old(globalOrderIndex)[target.id := target.symbol]
      ensures var r := BookSpec.Submit(BookSpec.Cancel(old(BookViews()[s]), target.id),
                                       Amended(old(target.Val()), price, qty));
              BookViews() == old(BookViews())[s := r.book] && engine.tape == old(engine.tape) + r.trades
    {
      hide Valid, Loose, BookViews, OrderBook.Repr, OrderBook.View, BookSpec.Submit, BookSpec.Cancel, BookV.Rests;
      Extent(s);
      TakeBack(s, target);
      Amend(target, price, qty);
      hide Amended;
      globalOrderIndex := globalOrderIndex[target.id := target.symbol];
      SubmitTo(s, target);
    }

    lemma TargetApart(s: string, target: Order)
      requires Valid() && s in books && target in books[s].Repr()
      ensures target in Repr
      ensures forall t :: t in books && t != s ==> target !in books[t].Repr()
    {
      BooksApart(s);
    }

    lemma {:induction false} CancelledIsGone(s: string, id: nat)
      requires Valid() && s in books && s in BookViews() && BookViews()[s].Rests(id)
      ensures !BookSpec.Cancel(BookViews()[s], id).Rests(id)
    {
      books[s].Parts();
      assert Filed(books[s].View());
      hide Valid, Filed;
      CancelRemovesOnly(books[s].View(), id, id);
    }

    /** Changes a resting order of book `s`, whose content is `b`: anew if the price changes
        or the quantity grows, in place if it shrinks, not at all otherwise. */
    method ModifyIn(s: string, side: Side, price: real, n: nat, newPrice: real, newQty: nat, ghost b: BookV)
      requires Valid() && s in books && s in BookViews() && b == BookViews()[s] && 0 < newQty
      requires price in books[s].SideMap(side).levels && n < |books[s].SideMap(side).levels[price].orders|
      requires var target := books[s].SideMap(side).levels[price].orders[n];
               target in books[s].Repr() && b.Rests(target.id) && Holds(b.Get(side), target.id)
               && target.Val() == Lookup(b, target.id) && target.price == price
      modifies books[s].Repr(), engine, engine.sink, `Repr, `globalOrderIndex
      ensures Valid() && fresh(Repr - old(Repr))
      ensures var t := old(books[s].SideMap(side).levels[price].orders[n].Val());
              var r := BookSpec.Modify(b, t.id, newPrice, newQty);
              var anew := LosesPlace(t, newPrice, newQty);
              && BookViews() == old(BookViews())[s := r.book]
              && engine.tape == old(engine.tape) + r.trades
              && engine.ordersProcessed == old(engine.ordersProcessed) + (if anew then 1 else 0)
              && globalOrderIndex == if anew then old(globalOrderIndex)[t.id := t.symbol] else old(globalOrderIndex)
    {
      hide Valid, Loose, BookViews, OrderBook.Repr, OrderBook.View, BookSpec.Submit, BookSpec.Cancel, BookV.Rests,
           Shrink, Lookup, Holds;
      Extent(s);
      var target := books[s].SideMap(side).levels[price].orders[n];
      if newPrice != price || newQty > target.Remaining() {
        Replace(s, target, newPrice, newQty);
      } else if newQty < target.Remaining() {
        ReduceIn(s, target.id, side, price, n, newQty);
      } else {
        assert old(BookViews())[s := b] == BookViews();
      }
    }

    /** Changes the order found at place `n` of a level and counts the change. */
    method ModifyFound(id: nat, s: string, side: Side, price: real, n: nat, newPrice: real, newQty: nat)
      requires Valid() && s in books && Routed(View(), id) && s == View().home[id] && 0 < newQty
      requires price in books[s].SideMap(side).levels && n < |books[s].SideMap(side).levels[price].orders|
      requires var target := books[s].SideMap(side).levels[price].orders[n];
               var b := View().books[s];
               target in books[s].Repr() && target.id == id && Holds(b.Get(side), id)
               && target.Val() == Lookup(b, id) && target.price == price
      modifies Repr
      ensures Valid() && fresh(Repr - old(Repr))
      ensures (View(), true) == DoModify(old(View()), id, newPrice, newQty)
    {
      hide Valid, Loose, BookViews, OrderBook.Repr, OrderBook.View, OrderBook.Sound, LevelMap.Valid,
           LevelMap.Sound, Filed, Indexed, BookSpec.Modify, BookV.Rests, Lookup, Holds, LosesPlace;
      Extent(s);
      ghost var ex := View();
      ModifyIn(s, side, price, n, newPrice, newQty, ex.books[s]);
      totalOrdersModified := totalOrdersModified + 1;
      ModifyRouted(ex, View(), id, newPrice, newQty);
    }

    /** Changes the price or the remaining quantity of a resting order; false if the order
        rests nowhere or the new quantity is zero. */
    method ModifyOrder(id: nat, newPrice: real, newQty: nat) returns (ok: bool)
      requires Valid()
      modifies Repr
      ensures Valid() && fresh(Repr - old(Repr))
      ensures (View(), ok) == DoModify(old(View()), id, newPrice, newQty)
    {
      hide Valid, Loose, BookViews, OrderBook.Repr, OrderBook.View, OrderBook.Sound, LevelMap.Valid,
           LevelMap.Sound, Filed, Indexed, BookSpec.Modify, BookV.Rests, Lookup, Holds, LosesPlace;
      var book := FindBookForOrder(id);
      if book == null {
        Extent("");
        return false;
      }
      var s := globalOrderIndex[id];
      Extent(s);
      ViewOfBook(s);
      var found, side, price, n := book.FindOrder(id);
      if !found || newQty == 0 {
        return false;
      }
      ModifyFound(id, s, side, price, n, newPrice, newQty);
      ok := true;
    }

    /** What a modification that is carried out does to the exchange's value. */
    static lemma ModifyRouted(ex: Exch, ex': Exch, id: nat, price: real, qty: nat)
      requires Routed(ex, id) && qty != 0
      requires var s := ex.home[id];
               var t := Lookup(ex.books[s], id);
               var r := BookSpec.Modify(ex.books[s], id, price, qty);
               var anew := LosesPlace(t, price, qty);
               && ex'.books == ex.books[s := r.book]
               && ex'.home == (if anew then ex.home[id := t.symbol] else ex.home)
               && ex'.tape == ex.tape + r.trades
               && ex'.stats == ex.stats.(modified := ex.stats.modified + 1,
                                         processed := ex.stats.processed + if anew then 1 else 0)
      ensures (ex', true) == DoModify(ex, id, price, qty)
    {
      hide BookSpec.Modify, Lookup, LosesPlace, BookV.Rests;
    }

    lemma OutsideIsLoose(order: Order)
      requires Valid() && order !in Repr
      ensures Loose(order)
    {
      hide BooksValid, MatchingEngine.Valid;
    }

    /** Every report of the tape has been delivered, in order. */
    lemma AllDelivered()
      requires Valid()
      ensures engine in Repr && engine.sink in Repr && engine.sink.delivered == Reports(View().tape)
    {
      hide BooksValid, Reports, Holding;
    }

    lemma ViewOfBook(s: string)
      requires Valid() && s in books
      ensures books[s].Valid() && s in BookViews() && BookViews()[s] == books[s].View()
    {
    }
  }
}
