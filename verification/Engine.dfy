/** src/engine/matching_engine.cpp as an object: every critical section under the engine mutex is a
    method, proved to be a step of the machines in EngineRuns, Recovery and MarketData. */
module Engine {
  import opened Orders
  import opened FlatBook
  import opened Ladder
  import opened Resizing
  import opened BookShapes
  import opened Books
  import opened Fees
  import opened Matching
  import opened MatchingLaws
  import opened EngineCore
  import opened Recovery
  import opened EngineRuns
  import opened WriteAheadLog
  import opened OwnSymbols
  import opened MarketData
  import opened Calls
  import opened Persistence
  import opened SavedState
  import TokenBucket

  class MatchingEngine {
    var orderBooks: map<Symbol, OrderBook>
    const matchingAlgorithm: MatchingAlgorithm
    const limiters: TokenBucket.RateLimiterManager
    var triggerOrders: map<Symbol, seq<Ticket>>
    var wal: seq<Entry>
    var walEnabled: bool
    var replaying: bool
    var marketDataSeqs: map<Symbol, nat>
    var lastMarketSnapshot: map<Symbol, Snapshot>
    var tradeSeqs: map<Symbol, nat>
    var tradeHistory: map<Symbol, seq<Stamped>>
    ghost var books: map<Symbol, Book> // the reference books
    ghost var objects: set<Order> // covers every order object that a book holds
    ghost var sent: map<Symbol, seq<Message>> // every message that subscribers were given
    ghost var publications: map<Symbol, seq<Publication>> // every publication, suppressed or not
    ghost var stamped: map<Symbol, seq<Trade>> // every trade that was stamped

    /** The state of the step machine. */
    ghost function Abs(): Core
      reads this`books, this`triggerOrders, this`wal, this`walEnabled, this`replaying
    {
      Core(books, triggerOrders, wal, walEnabled && !replaying)
    }

    /** A book object that refines `flat`, with all its orders among `objs`. */
    static ghost predicate Holds(book: OrderBook, s: Symbol, flat: Book, objs: set<Order>)
      reads book, objs
    {
      book.orderMap.Values <= objs && book.symbol == s && book.Valid() && book.Flat() == flat
    }

    ghost predicate BookOk(s: Symbol)
      requires s in orderBooks
      reads this`orderBooks, this`books, this`objects, orderBooks.Values, objects
    {
      s in books && Holds(orderBooks[s], s, books[s], objects)
    }

    /** The same without the claim that the book is consistent: its sides can be read off. */
    static ghost predicate Reads(book: OrderBook, s: Symbol, flat: Book, objs: set<Order>)
      reads book, objs
    {
      book.orderMap.Values <= objs && book.symbol == s && book.Readable() && book.Flat() == flat
    }

    ghost predicate BooksReadable()
      reads this`orderBooks, this`books, this`objects, orderBooks.Values, objects
    {
      && books.Keys == orderBooks.Keys
      && (forall s | s in orderBooks :: s in books && Reads(orderBooks[s], s, books[s], objects))
    }

    static lemma {:induction false} HoldsMeansReads(book: OrderBook, s: Symbol, flat: Book, objs: set<Order>)
      requires Holds(book, s, flat, objs)
      ensures Reads(book, s, flat, objs)
    {
      book.ValidIsReadable();
    }

    lemma {:induction false} Consistently()
      requires BooksValid()
      ensures BooksConsistent()
    {
    }

    lemma {:induction false} ValidMeansReadable()
      requires BooksValid()
      ensures BooksReadable()
    {
      hide Holds, Reads, BooksOk, OneBook;
      forall s | s in orderBooks
        ensures s in books && Reads(orderBooks[s], s, books[s], objects)
      {
        assert BookOk(s);
        HoldsMeansReads(orderBooks[s], s, books[s], objects);
      }
    }

    /** Every book is consistent and filed under its own symbol. */
    ghost predicate BooksConsistent()
      reads this`orderBooks, this`books, this`objects, orderBooks.Values, objects
    {
      && books.Keys == orderBooks.Keys
      && (forall s | s in orderBooks :: BookOk(s))
    }

    /** Besides, it is uncrossed and shares no id with another. */
    ghost predicate BooksValid()
      reads this`orderBooks, this`books, this`objects, orderBooks.Values, objects
    {
      BooksConsistent() && BooksOk(books) && OneBook(books)
    }

    ghost predicate Valid()
      reads this`orderBooks, this`books, this`objects, orderBooks.Values, objects
      reads this`triggerOrders, this`wal, this`walEnabled, this`replaying
    {
      BooksValid() && Invariant(Abs())
    }

    /** The market-data feed of one symbol. */
    ghost function FeedOf(s: Symbol): Feed
      reads this`marketDataSeqs, this`lastMarketSnapshot, this`sent
    {
      var last := if s in lastMarketSnapshot then Some(lastMarketSnapshot[s]) else None;
      Feed(At(marketDataSeqs, s, 0), last, At(sent, s, []))
    }

    /** Every feed is where its publications have taken it, and each publication diffed correctly. */
    ghost predicate FeedsValid()
      reads this`marketDataSeqs, this`lastMarketSnapshot, this`sent, this`publications
    {
      forall s :: Published(At(publications, s, [])) && FeedOf(s) == After(At(publications, s, []))
    }

    /** The trade tape of one symbol. */
    ghost function TapeOf(s: Symbol): Tape
      reads this`tradeSeqs, this`tradeHistory
    {
      Tape(At(tradeSeqs, s, 0), At(tradeHistory, s, []))
    }

    ghost predicate TapesValid()
      reads this`tradeSeqs, this`tradeHistory, this`stamped
    {
      forall s :: TapeOf(s) == Recorded(At(stamped, s, []))
    }

    constructor (algorithm: MatchingAlgorithm, limiters: TokenBucket.RateLimiterManager)
      ensures Valid() && matchingAlgorithm == algorithm && this.limiters == limiters
      ensures Ready()
      ensures sent == map[] && publications == map[] && stamped == map[]
      ensures Abs() == Core(map[], map[], [], false)
    {
      marketDataSeqs, lastMarketSnapshot, tradeSeqs, tradeHistory := map[], map[], map[], map[];
      sent, publications, stamped := map[], map[], map[];
      orderBooks, triggerOrders, wal := map[], map[], [];
      walEnabled, replaying := false, false;
      matchingAlgorithm, this.limiters := algorithm, limiters;
      books, objects := map[], {};
    }

    // ----- One book among others

    /** An id that rests nowhere is in no book's index, and neither is its object. */
    lemma {:induction false} NotIndexed(order: Order)
      requires BooksValid() && !RestsAnywhere(books, order.id)
      ensures forall s | s in orderBooks ::
                order.id !in orderBooks[s].orderMap && order !in orderBooks[s].orderMap.Values
    {
      forall s | s in orderBooks
        ensures order.id !in orderBooks[s].orderMap && order !in orderBooks[s].orderMap.Values
      {
        assert BookOk(s) && !RestsIn(books, s, order.id);
        orderBooks[s].NotIndexed(order);
      }
    }

    /** No book holds this object. */
    ghost predicate NotFiled(order: Order)
      reads this`orderBooks, orderBooks.Values
    {
      forall s | s in orderBooks :: order !in orderBooks[s].orderMap.Values
    }

    lemma {:induction false} HasOrderMeans(s: Symbol, id: OrderId)
      requires BooksValid() && s in orderBooks
      ensures orderBooks[s].HasOrder(id) <==> RestsIn(books, s, id)
      ensures id in orderBooks[s].orderMap <==> RestsIn(books, s, id)
    {
      assert BookOk(s);
    }

    /** Two books share no order object. */
    lemma {:induction false} BooksDisjoint(s: Symbol, u: Symbol)
      requires BooksValid() && s in orderBooks && u in orderBooks && s != u
      ensures orderBooks[s] != orderBooks[u]
      ensures orderBooks[s].orderMap.Values !! orderBooks[u].orderMap.Values
    {
      assert BookOk(s) && BookOk(u);
      forall o | o in orderBooks[s].orderMap.Values && o in orderBooks[u].orderMap.Values
        ensures false
      {
        assert RestsIn(books, s, o.id) && RestsIn(books, u, o.id);
      }
    }

    /** Books that an operation on `book` and on the objects in `touched` leaves alone. */
    static ghost predicate Others(others: map<Symbol, OrderBook>, flats: map<Symbol, Book>, objs: set<Order>,
                                  book: OrderBook, touched: set<Order>)
      reads others.Values, objs
    {
      forall s | s in others ::
        s in flats && Holds(others[s], s, flats[s], objs) && others[s] != book && others[s].orderMap.Values !! touched
    }

    lemma {:induction false} OthersAre(symbol: Symbol)
      requires BooksValid() && symbol in orderBooks
      ensures Others(orderBooks - {symbol}, books, objects, orderBooks[symbol], orderBooks[symbol].orderMap.Values)
    {
      hide BooksOk, OneBook, Holds;
      forall s | s in orderBooks - {symbol}
        ensures orderBooks[s] != orderBooks[symbol]
                && orderBooks[s].orderMap.Values !! orderBooks[symbol].orderMap.Values
        ensures s in books && Holds(orderBooks[s], s, books[s], objects)
      {
        assert BookOk(s);
        BooksDisjoint(s, symbol);
      }
    }

    static method NewBook(symbol: Symbol, ghost objs: set<Order>) returns (book: OrderBook)
      ensures fresh(book) && Holds(book, symbol, EMPTY, objs) && book.orderMap == map[]
    {
      book := new OrderBook(symbol);
    }

    method GetOrCreateOrderBook(symbol: Symbol) returns (book: OrderBook)
      requires BooksConsistent()
      modifies this`orderBooks, this`books
      ensures BooksConsistent() && symbol in orderBooks && book == orderBooks[symbol]
      ensures old(BooksValid()) ==> BooksValid()
      ensures books == Open(old(books), symbol)
      ensures orderBooks == if symbol in old(orderBooks) then old(orderBooks) else old(orderBooks)[symbol := book]
      ensures symbol !in old(orderBooks) ==> fresh(book) && book.orderMap == map[]
    {
      hide BooksOk, OneBook, Holds;
      if symbol !in orderBooks {
        book := NewBook(symbol, objects);
        if BooksOk(books) && OneBook(books) { OpenKeeps(books, symbol); }
        orderBooks := orderBooks[symbol := book];
        books := books[symbol := EMPTY];
        forall s | s in orderBooks
          ensures BookOk(s)
        {
          assert s != symbol ==> old(BookOk(s));
        }
      } else {
        book := orderBooks[symbol];
      }
    }

    // ----- Matching

    /** Matches an order in the book of `symbol`, which is created if need be. */
    method ProcessIn(symbol: Symbol, order: Order) returns (trades: Option<seq<Trade>>)
      requires BooksValid() && !RestsIn(books, symbol, order.id) && NotFiled(order)
      requires LeavesRemainder(BookAt(books, symbol), order.View()) ==> !RestsAnywhere(books, order.id)
      modifies this`orderBooks, this`books, this`objects, orderBooks.Values, objects, order
      ensures BooksValid()
      ensures books == Match(old(books), symbol, old(order.View()))
      ensures trades.None? <==> IsTrigger(order.kind)
      ensures trades.Some? ==> trades.value == TradesOf(Process(BookAt(old(books), symbol), old(order.View())).fills,
                                         old(order.View()), old(matchingAlgorithm.Policy()))
      ensures fresh(orderBooks.Values - old(orderBooks.Values)) && objects == old(objects) + {order}
    {
      hide BooksOk, OneBook, Process, RestsAnywhere, LeavesRemainder, Holds;
      MatchKeeps(books, symbol, order.View());
      OpenKeeps(books, symbol);
      var book := GetOrCreateOrderBook(symbol);
      trades := ProcessInBook(book, symbol, order);
    }

    method ProcessInBook(book: OrderBook, ghost symbol: Symbol, order: Order) returns (trades: Option<seq<Trade>>)
      requires BooksValid() && !RestsIn(books, symbol, order.id) && NotFiled(order)
      requires symbol in orderBooks && book == orderBooks[symbol] && symbol in books
      requires var bs := books[symbol := Process(books[symbol], order.View()).book]; BooksOk(bs) && OneBook(bs)
      modifies this`books, this`objects, orderBooks.Values, objects, order
      ensures BooksValid()
      ensures books == old(books)[symbol := Process(old(books)[symbol], old(order.View())).book]
      ensures trades.None? <==> IsTrigger(order.kind)
      ensures trades.Some? ==>
                trades.value == TradesOf(Process(old(books)[symbol], old(order.View())).fills, old(order.View()),
                  old(matchingAlgorithm.Policy()))
      ensures objects == old(objects) + {order}
    {
      hide BooksOk, OneBook, Process, RestsAnywhere, Holds;
      ghost var t := order.View();
      HasOrderMeans(symbol, order.id);
      OthersAre(symbol);
      assert BookOk(symbol);
      trades := ProcessAlone(book, symbol, order, orderBooks - {symbol}, books, objects);
      books := books[symbol := Process(books[symbol], t).book];
      objects := objects + {order};
      forall s | s in orderBooks
        ensures BookOk(s)
      {
        if s != symbol { assert s in orderBooks - {symbol}; }
      }
    }

    /** Matching touches one book and its orders only. */
    method ProcessAlone(book: OrderBook, ghost s0: Symbol, order: Order,
                        ghost others: map<Symbol, OrderBook>, ghost flats: map<Symbol, Book>, ghost objs: set<Order>)
        returns (trades: Option<seq<Trade>>)
      requires s0 in flats && Holds(book, s0, flats[s0], objs)
      requires order.id !in book.orderMap
      requires Others(others, flats, objs, book, book.orderMap.Values + {order})
      modifies book, objs, order
      ensures trades.None? <==> IsTrigger(order.kind)
      ensures trades.Some? ==>
                trades.value == TradesOf(Process(flats[s0], old(order.View())).fills, old(order.View()),
                  old(matchingAlgorithm.Policy()))
      ensures Holds(book, s0, Process(flats[s0], old(order.View())).book, objs + {order})
      ensures forall s | s in others :: Holds(others[s], s, flats[s], objs + {order})
    {
      hide Consistent, Process;
      trades := matchingAlgorithm.ProcessOrder(book, order);
      forall s | s in others
        ensures Holds(others[s], s, flats[s], objs + {order})
      {
        var b := others[s];
        assert old(Holds(b, s, flats[s], objs));
        assert Quantities(b.orderMap) == old(Quantities(b.orderMap));
      }
    }

    // ----- Cancel and modify

    method CancelAlone(book: OrderBook, ghost s0: Symbol, orderId: OrderId,
                       ghost others: map<Symbol, OrderBook>, ghost flats: map<Symbol, Book>, ghost objs: set<Order>)
        returns (ok: bool)
      requires s0 in flats && Holds(book, s0, flats[s0], objs)
      requires Others(others, flats, objs, book, {})
      modifies book
      ensures ok <==> Rests(flats[s0], orderId)
      ensures Holds(book, s0, if ok then Cancel(flats[s0], orderId) else flats[s0], objs)
      ensures forall s | s in others :: Holds(others[s], s, flats[s], objs)
    {
      hide Consistent, Rests, Cancel;
      ok := book.CancelOrder(orderId);
      forall s | s in others
        ensures Holds(others[s], s, flats[s], objs)
      {
        assert old(Holds(others[s], s, flats[s], objs));
      }
    }

    method ModifyAlone(book: OrderBook, ghost s0: Symbol, orderId: OrderId, newQuantity: real,
                       ghost others: map<Symbol, OrderBook>, ghost flats: map<Symbol, Book>, ghost objs: set<Order>)
        returns (ok: bool)
      requires s0 in flats && Holds(book, s0, flats[s0], objs)
      requires Others(others, flats, objs, book, book.orderMap.Values)
      modifies book, objs
      ensures ok <==> Rests(flats[s0], orderId)
      ensures Reads(book, s0, Resized(flats[s0], orderId, newQuantity), objs)
      ensures Holds(book, s0, Resized(flats[s0], orderId, newQuantity), objs) <==> !ok || newQuantity > 0.0
      ensures forall s | s in others :: Holds(others[s], s, flats[s], objs)
    {
      hide Consistent, Rests, Resized, SidesOk;
      ok := book.ModifyOrder(orderId, newQuantity);
      forall s | s in others
        ensures Holds(others[s], s, flats[s], objs)
      {
        var b := others[s];
        assert old(Holds(b, s, flats[s], objs));
        assert Quantities(b.orderMap) == old(Quantities(b.orderMap));
      }
    }

    /** One round of the loop in cancelOrderUnlocked. */
    method CancelIn(s: Symbol, orderId: OrderId) returns (ok: bool)
      requires BooksValid() && s in orderBooks
      modifies this`books, orderBooks.Values
      ensures BooksValid()
      ensures ok <==> RestsIn(old(books), s, orderId)
      ensures books == if ok then old(books)[s := Cancel(old(books)[s], orderId)] else old(books)
    {
      hide BooksOk, OneBook, Rests, Holds, Cancel;
      assert BookOk(s);
      OthersAre(s);
      CancelInKeeps(books, s, orderId);
      ok := CancelAlone(orderBooks[s], s, orderId, orderBooks - {s}, books, objects);
      if ok { books := books[s := Cancel(books[s], orderId)]; }
      forall u | u in orderBooks
        ensures BookOk(u)
      {
        if u != s { assert u in orderBooks - {s}; }
      }
    }

    /** One round of the loop in modifyOrderUnlocked. */
    method ModifyIn(s: Symbol, orderId: OrderId, newQuantity: real) returns (ok: bool)
      requires BooksValid() && s in orderBooks
      modifies this`books, orderBooks.Values, objects
      ensures BooksReadable() && (BooksValid() <==> !ok || newQuantity > 0.0)
      ensures ok <==> RestsIn(old(books), s, orderId)
      ensures books == if ok then old(books)[s := Resized(old(books)[s], orderId, newQuantity)] else old(books)
    {
      hide BooksOk, OneBook, Rests, Holds, Reads, Resized;
      assert BookOk(s);
      OthersAre(s);
      ModifyInKeeps(books, s, orderId, newQuantity);
      ghost var flat := Resized(books[s], orderId, newQuantity);
      ok := ModifyAlone(orderBooks[s], s, orderId, newQuantity, orderBooks - {s}, books, objects);
      if ok { books := books[s := flat]; }
      forall u | u in orderBooks && u != s
        ensures BookOk(u) && Reads(orderBooks[u], u, books[u], objects)
      {
        assert u in orderBooks - {s};
        HoldsMeansReads(orderBooks[u], u, books[u], objects);
      }
      assert BookOk(s) <==> !ok || newQuantity > 0.0;
    }

    static lemma {:induction false} CancelInKeeps(books: map<Symbol, Book>, s: Symbol, id: OrderId)
      requires BooksOk(books) && OneBook(books) && s in books
      ensures RestsIn(books, s, id) ==> var bs := books[s := Cancel(books[s], id)]; BooksOk(bs) && OneBook(bs)
    {
      if RestsIn(books, s, id) {
        CancelKeepsWellFormed(books[s], id);
        CancelKeepsUncrossed(books[s], id);
        ReplaceBook(books, s, Cancel(books[s], id), id);
      }
    }

    static lemma {:induction false} ModifyInKeeps(books: map<Symbol, Book>, s: Symbol, id: OrderId, q: real)
      requires BooksOk(books) && OneBook(books) && s in books
      ensures RestsIn(books, s, id) && q > 0.0 ==>
                var bs := books[s := Resized(books[s], id, q)]; BooksOk(bs) && OneBook(bs)
      ensures !RestsIn(books, s, id) ==> Resized(books[s], id, q) == books[s]
    {
      if RestsIn(books, s, id) {
        if q > 0.0 {
          ResizedPositive(books[s], id, q);
          ModifyKeepsWellFormed(books[s], id, q);
          ReplaceBook(books, s, Modify(books[s], id, q), id);
        }
      } else {
        ResizedAbsent(books[s], id, q);
      }
    }

    lemma {:induction false} KeysAre()
      requires BooksValid()
      ensures books.Keys == orderBooks.Keys && OneBook(books)
    {
    }

    static lemma {:induction false} OneHolder(books: map<Symbol, Book>, s: Symbol, id: OrderId)
      requires OneBook(books) && RestsIn(books, s, id)
      ensures RestsAnywhere(books, id) && Holder(books, id) == s
    {
    }

    /** Stops at the first book that holds the order; books come in no particular order. */
    method CancelOrderUnlocked(orderId: OrderId) returns (found: bool, affectedSymbol: Symbol)
      requires BooksValid()
      modifies this`books, this`wal, orderBooks.Values
      ensures BooksValid()
      ensures Abs() == EngineCore.CancelOrder(old(Abs()), orderId)
      ensures found <==> RestsAnywhere(old(books), orderId)
      ensures found ==> affectedSymbol == Holder(old(books), orderId)
    {
      hide BooksValid, Cancel;
      found, affectedSymbol := false, 0;
      KeysAre();
      var todo := orderBooks.Keys;
      while todo != {}
        invariant BooksValid() && Abs() == old(Abs()) && todo <= orderBooks.Keys
        invariant forall s :: RestsIn(books, s, orderId) ==> s in todo
      {
        var symbol :| symbol in todo;
        var ok := CancelIn(symbol, orderId);
        if ok {
          OneHolder(old(books), symbol, orderId);
          Log(Cancelled(orderId));
          return true, symbol;
        }
        todo := todo - {symbol};
      }
    }

    /** The same loop. A resting order whose quantity becomes zero or less leaves its book inconsistent. */
    method ModifyOrderUnlocked(orderId: OrderId, newQuantity: real) returns (found: bool, affectedSymbol: Symbol)
      requires BooksValid()
      modifies this`books, this`wal, orderBooks.Values, objects
      ensures BooksReadable() && (BooksValid() <==> !found || newQuantity > 0.0)
      ensures Abs() == EngineCore.ModifyOrder(old(Abs()), orderId, newQuantity)
      ensures found <==> RestsAnywhere(old(books), orderId)
      ensures found ==> affectedSymbol == Holder(old(books), orderId)
    {
      hide BooksValid, BooksReadable, Resized;
      found, affectedSymbol := false, 0;
      KeysAre();
      var todo := orderBooks.Keys;
      ValidMeansReadable();
      while todo != {}
        invariant BooksValid() && BooksReadable() && Abs() == old(Abs()) && todo <= orderBooks.Keys
        invariant forall s :: RestsIn(books, s, orderId) ==> s in todo
      {
        var symbol :| symbol in todo;
        var ok := ModifyIn(symbol, orderId, newQuantity);
        if ok {
          OneHolder(old(books), symbol, orderId);
          Log(Modified(orderId, newQuantity));
          return true, symbol;
        }
        todo := todo - {symbol};
      }
    }

    method Log(e: Entry)
      modifies this`wal
      ensures Abs() == Write(old(Abs()), e)
    {
      if walEnabled && !replaying { wal := wal + [e]; }
    }

    // ----- Submit

    /** The trades that submitting an order publishes, and what the whole submit does, as of now. */
    ghost function TradesNow(order: Order): seq<Trade>
      reads this`books, this`triggerOrders, this`wal, this`walEnabled, this`replaying, order
      reads matchingAlgorithm, matchingAlgorithm.feeModel
    {
      Trades(Abs(), order.View(), matchingAlgorithm.Policy())
    }

    ghost function SubmittedNow(order: Order): Core
      reads this`books, this`triggerOrders, this`wal, this`walEnabled, this`replaying, order
      reads matchingAlgorithm, matchingAlgorithm.feeModel
    {
      Submitting(Abs(), order.View(), matchingAlgorithm.Policy())
    }

    /** Stores a trigger order until activation. */
    method Park(t: Ticket)
      requires BooksValid()
      modifies this`orderBooks, this`books, this`triggerOrders
      ensures BooksValid() && fresh(orderBooks.Values - old(orderBooks.Values))
      ensures Abs() == old(Abs()).(books := Open(old(books), t.symbol), triggers := Push(old(triggerOrders), t))
    {
      hide BooksValid, BooksConsistent;
      Consistently();
      var book := GetOrCreateOrderBook(t.symbol);
      triggerOrders := triggerOrders[t.symbol := At(triggerOrders, t.symbol, []) + [t]];
    }

    /** The critical section of submitOrder. */
    method SubmitSection(order: Order) returns (trades: seq<Trade>, isTriggerOrder: bool)
      requires Valid() && Allowed(Abs(), DoSubmit(order.View()))
      modifies this`orderBooks, this`books, this`objects, this`triggerOrders, this`wal, orderBooks.Values, objects,
               order
      ensures Valid() && Abs() == Submit(old(Abs()), old(order.View()))
      ensures isTriggerOrder <==> IsTrigger(order.kind)
      ensures trades == old(TradesNow(order))
      ensures fresh(orderBooks.Values - old(orderBooks.Values)) && fresh(objects - old(objects) - {order})
    {
      hide BooksOk, OneBook, Holds, BookOk, BooksValid, RestsAnywhere, PendingAnywhere, Process, TriggersOk, Apart,
           Match;
      var t := order.View();
      SubmitKeeps(Abs(), t);
      NotIndexed(order);
      NowhereIsNotHere(books, order.symbol, t.id);
      Log(Submitted(t));
      if IsTrigger(order.kind) {
        Park(t);
        return [], true;
      }
      var result := ProcessIn(order.symbol, order);
      return result.value, false;
    }

    static lemma {:induction false} NowhereIsNotHere(books: map<Symbol, Book>, s: Symbol, id: OrderId)
      requires !RestsAnywhere(books, id)
      ensures !RestsIn(books, s, id)
    {
    }

    // ----- Triggers

    /** The source's chain of tests. */
    static method Triggered(ord: Ticket, lastTradePrice: real) returns (triggered: bool)
      ensures triggered <==> Hit(ord, lastTradePrice)
      ensures ord.kind.STOP_LOSS? || ord.kind.STOP_LIMIT? ==>
                (triggered <==> if ord.side.SELL? then lastTradePrice <= ord.price else lastTradePrice >= ord.price)
      ensures ord.kind.TAKE_PROFIT? ==>
                (triggered <==> if ord.side.SELL? then lastTradePrice >= ord.price else lastTradePrice <= ord.price)
    {
      triggered := false;
      if ord.kind == STOP_LOSS {
        if ord.side == SELL {
          if lastTradePrice <= ord.price { triggered := true; }
        } else {
          if lastTradePrice >= ord.price { triggered := true; }
        }
      } else if ord.kind == TAKE_PROFIT {
        if ord.side == SELL {
          if lastTradePrice >= ord.price { triggered := true; }
        } else {
          if lastTradePrice <= ord.price { triggered := true; }
        }
      } else if ord.kind == STOP_LIMIT {
        if ord.side == SELL {
          if lastTradePrice <= ord.price { triggered := true; }
        } else {
          if lastTradePrice >= ord.price { triggered := true; }
        }
      }
    }

    /** Turns a pending order into an active one, matches it, and discards its trades. */
    method Activate(symbol: Symbol, ord: Ticket)
      requires BooksValid() && !RestsAnywhere(books, ord.id)
      modifies this`orderBooks, this`books, this`objects, this`wal, orderBooks.Values, objects
      ensures BooksValid()
      ensures Abs() == Write(old(Abs()).(books := Match(old(books), symbol, Active(ord))), Activated(ord.id, symbol))
      ensures fresh(orderBooks.Values - old(orderBooks.Values)) && fresh(objects - old(objects))
    {
      hide BooksOk, OneBook, Holds, BookOk, BooksValid, RestsAnywhere, Process, Match;
      var kind, price := MARKET, 0.0;
      if ord.kind == STOP_LIMIT { kind, price := LIMIT, ord.price; }
      NowhereIsNotHere(books, symbol, ord.id);
      NewObjects();
      var act := new Order(ord.id, ord.symbol, ord.side, kind, price, ord.qty);
      var trades := ProcessIn(symbol, act);
      Log(Activated(ord.id, symbol));
    }

    static lemma {:induction false} ActivationKeepsPendable(books: map<Symbol, Book>, s: Symbol, pending: seq<Ticket>,
                                                            active: bool)
      requires pending != [] && Pendable(books, pending) && BooksOk(books) && OneBook(books)
      ensures Pendable(if active then Match(books, s, Active(pending[0])) else books, pending[1..])
    {
      NowhereIsNotHere(books, s, pending[0].id);
      MatchKeeps(books, s, Active(pending[0]));
      assert forall i | 0 <= i < |pending[1..]| :: pending[1..][i] == pending[i + 1];
    }

    static lemma {:induction false} FireHead(c: Core, s: Symbol, pending: seq<Ticket>, price: real)
      requires pending != []
      ensures var head, tail := pending[0], pending[1..];
              && Fire(c, s, pending, price) ==
                 Fire(Examine(c, s, head, price), s, tail, price)
              && StillPending(pending, price) == (if Hit(head, price) then [] else [head]) + StillPending(tail, price)
    {
    }

    static lemma {:induction false} FireEmpty(c: Core, s: Symbol, price: real)
      ensures Fire(c, s, [], price) == c && StillPending([], price) == []
    {
    }

    method CheckTriggers(symbol: Symbol, lastTradePrice: real)
      requires Valid()
      modifies this`orderBooks, this`books, this`objects, this`triggerOrders, this`wal, orderBooks.Values, objects
      ensures Valid() && Abs() == EngineCore.CheckTriggers(old(Abs()), symbol, lastTradePrice)
      ensures fresh(orderBooks.Values - old(orderBooks.Values)) && fresh(objects - old(objects))
    {
      hide BooksOk, OneBook, Holds, BookOk, TriggersOk, Apart, RestsAnywhere, Pendable, Fire, StillPending;
      CheckKeeps(Abs(), symbol, lastTradePrice);
      if symbol !in triggerOrders { return; }
      PendingIsPendable(Abs(), symbol);
      FireFlags(Abs(), symbol, triggerOrders[symbol], lastTradePrice);
      var remaining := FirePending(symbol, triggerOrders[symbol], lastTradePrice);
      triggerOrders := triggerOrders[symbol := remaining];
    }

    static lemma {:induction false} FireFlags(c: Core, s: Symbol, pending: seq<Ticket>, price: real)
      requires BooksOk(c.books) && OneBook(c.books) && Pendable(c.books, pending)
      ensures Fire(c, s, pending, price).triggers == c.triggers
    {
      FireKeeps(c, s, pending, price);
    }

    /** The loop of checkTriggers. */
    method FirePending(symbol: Symbol, vec: seq<Ticket>, lastTradePrice: real) returns (remaining: seq<Ticket>)
      requires BooksValid() && Pendable(books, vec)
      modifies this`orderBooks, this`books, this`objects, this`wal, orderBooks.Values, objects
      ensures BooksValid() && Abs() == Fire(old(Abs()), symbol, vec, lastTradePrice)
      ensures remaining == StillPending(vec, lastTradePrice)
      ensures fresh(orderBooks.Values - old(orderBooks.Values)) && fresh(objects - old(objects))
    {
      hide BooksOk, OneBook, BooksValid, RestsAnywhere, Pendable, Match, Hit, Active, Fire, StillPending;
      ghost var c := Abs();
      remaining := [];
      assert vec[0..] == vec;
      var i := 0;
      while i < |vec|
        invariant i <= |vec| && BooksValid() && Pendable(books, vec[i..])
        invariant Fire(Abs(), symbol, vec[i..], lastTradePrice) == Fire(c, symbol, vec, lastTradePrice)
        invariant remaining + StillPending(vec[i..], lastTradePrice) == StillPending(vec, lastTradePrice)
        invariant fresh(orderBooks.Values - old(orderBooks.Values)) && fresh(objects - old(objects))
      {
        remaining := FireOne(symbol, vec[i..], lastTradePrice, remaining);
        assert vec[i..][1..] == vec[i + 1..];
        i := i + 1;
      }
      assert vec[|vec|..] == [];
      FireEmpty(Abs(), symbol, lastTradePrice);
    }

    method FireOne(symbol: Symbol, vec: seq<Ticket>, lastTradePrice: real, remaining0: seq<Ticket>)
        returns (remaining: seq<Ticket>)
      requires BooksValid() && vec != [] && Pendable(books, vec)
      modifies this`orderBooks, this`books, this`objects, this`wal, orderBooks.Values, objects
      ensures BooksValid() && Pendable(books, vec[1..])
      ensures Fire(Abs(), symbol, vec[1..], lastTradePrice) == Fire(old(Abs()), symbol, vec, lastTradePrice)
      ensures remaining + StillPending(vec[1..], lastTradePrice) == remaining0 + StillPending(vec, lastTradePrice)
      ensures fresh(orderBooks.Values - old(orderBooks.Values)) && fresh(objects - old(objects))
    {
      hide BooksOk, OneBook, BookOk, RestsAnywhere, Pendable, Match, Hit, Active, Fire, StillPending;
      var ord := vec[0];
      HeadIsPendable(books, vec);
      FireHead(Abs(), symbol, vec, lastTradePrice);
      var triggered := Triggered(ord, lastTradePrice);
      ActivationKeepsPendable(books, symbol, vec, triggered);
      remaining := remaining0;
      if triggered {
        Activate(symbol, ord);
      } else {
        remaining := remaining + [ord];
      }
    }

    static lemma {:induction false} HeadIsPendable(books: map<Symbol, Book>, pending: seq<Ticket>)
      requires pending != [] && Pendable(books, pending)
      ensures !RestsAnywhere(books, pending[0].id)
    {
    }

    // ----- Trades

    /** The critical section of publishTrade. */
    method StampTrade(trade: Trade) returns (t: Stamped)
      requires TapesValid()
      modifies this`tradeSeqs, this`tradeHistory, this`stamped, this`wal
      ensures TapesValid() && stamped == old(stamped)[trade.symbol := At(old(stamped), trade.symbol, []) + [trade]]
      ensures Abs() == Write(old(Abs()), Traded(trade))
      ensures t == Stamped(trade, |At(stamped, trade.symbol, [])|)
    {
      hide Recorded;
      ghost var all := At(stamped, trade.symbol, []);
      assert TapeOf(trade.symbol) == Recorded(all);
      HistoryIsLastThousand(all);
      RecordedNext(all, trade);
      var tseq := At(tradeSeqs, trade.symbol, 0) + 1;
      tradeSeqs := tradeSeqs[trade.symbol := tseq];
      t := Stamped(trade, tseq);
      var dq := At(tradeHistory, trade.symbol, []) + [t];
      if |dq| > 1000 { dq := dq[1..]; }
      tradeHistory := tradeHistory[trade.symbol := dq];
      stamped := stamped[trade.symbol := all + [trade]];
      Log(Traded(trade));
      assert forall s | s != trade.symbol :: TapeOf(s) == old(TapeOf(s));
    }

    static lemma {:induction false} RecordedNext(trades: seq<Trade>, trade: Trade)
      ensures Recorded(trades + [trade]) == Stamp(Recorded(trades), trade)
    {
      assert (trades + [trade])[..|trades|] == trades;
    }

    /** The most recent trades of a symbol out of everything ever stamped for it. */
    method GetRecentTrades(symbol: Symbol, count: nat) returns (out: seq<Stamped>)
      requires TapesValid()
      ensures var all := At(stamped, symbol, []);
              && |out| == (if |all| <= count && |all| <= 1000 then |all| else if count <= 1000 then count else 1000)
              && forall i | 0 <= i < |out| ::
                   out[i] == Stamped(all[|all| - |out| + i], |all| - |out| + i + 1)
      ensures out == Last(Numbered(At(stamped, symbol, [])), if count < HISTORY_LIMIT then count else HISTORY_LIMIT)
    {
      hide Recorded, Numbered, Last;
      LatestAre(At(stamped, symbol, []), count);
      assert TapeOf(symbol) == Recorded(At(stamped, symbol, []));
      RecentTradesAreTheLatest(At(stamped, symbol, []), count);
      NothingRecent(count);
      if symbol !in tradeHistory { return []; }
      out := RecentTrades(tradeHistory[symbol], count);
    }

    // ----- Market data

    /** getMarketData: nothing for an unknown symbol, which is the depth of an empty book. */
    method GetMarketData(symbol: Symbol, depth: nat)
        returns (bids: DepthList, asks: DepthList, bestBid: DepthEntry, bestAsk: DepthEntry)
      requires BooksReadable()
      ensures var b := BookAt(books, symbol);
              && bids == Top(b.bids, depth) && asks == Top(b.asks, depth)
              && bestBid == Best(b.bids) && bestAsk == Best(b.asks)
    {
      hide Top, SidesOk;
      if symbol !in orderBooks {
        TopOfNothing(depth);
        return [], [], DepthEntry(0.0, 0.0), DepthEntry(0.0, 0.0);
      }
      bids := orderBooks[symbol].GetTop(BUY, depth);
      asks := orderBooks[symbol].GetTop(SELL, depth);
      bestBid := orderBooks[symbol].GetBest(BUY);
      bestAsk := orderBooks[symbol].GetBest(SELL);
    }

    static lemma {:induction false} TopOfNothing(depth: nat)
      ensures Top([], depth) == []
    {
    }

    /** The critical section of publishMarketDataUpdate, on depths that an earlier one has read. */
    method PublishSection(symbol: Symbol, bids: DepthList, asks: DepthList) returns (message: Option<Message>)
      requires FeedsValid()
      modifies this`marketDataSeqs, this`lastMarketSnapshot, this`sent, this`publications
      ensures FeedsValid()
      ensures var ps := At(publications, symbol, []);
              && publications == old(publications)[symbol := ps]
              && ps != [] && ps[..|ps| - 1] == At(old(publications), symbol, [])
              && ps[|ps| - 1].bids == bids && ps[|ps| - 1].asks == asks
      ensures sent == if message.None? then old(sent)
                      else old(sent)[symbol := At(old(sent), symbol, []) + [message.value]]
    {
      hide After, Published, Publish, Diffs;
      ghost var f, ps := FeedOf(symbol), At(publications, symbol, []);
      assert f == After(ps) && Published(ps);
      ghost var p;
      message, p := PublishFeed(symbol, bids, asks);
      AfterNext(ps, p);
      publications := publications[symbol := ps + [p]];
      forall s
        ensures Published(At(publications, s, [])) && FeedOf(s) == After(At(publications, s, []))
      {
        assert s != symbol ==> FeedOf(s) == old(FeedOf(s));
      }
    }

    /** Takes one symbol's feed to the next publication and leaves the others alone. */
    method PublishFeed(symbol: Symbol, bids: DepthList, asks: DepthList)
        returns (message: Option<Message>, ghost p: Publication)
      modifies this`marketDataSeqs, this`lastMarketSnapshot, this`sent
      ensures p.bids == bids && p.asks == asks && Diffs(old(FeedOf(symbol)), p)
      ensures FeedOf(symbol) == Publish(old(FeedOf(symbol)), p)
      ensures forall s | s != symbol :: FeedOf(s) == old(FeedOf(s))
      ensures sent == if message.None? then old(sent)
                      else old(sent)[symbol := At(old(sent), symbol, []) + [message.value]]
    {
      hide IsDiff, AsMap;
      p := Publication(bids, asks, [], []);
      var seq1 := At(marketDataSeqs, symbol, 0) + 1;
      marketDataSeqs := marketDataSeqs[symbol := seq1];
      message := None;
      if symbol !in lastMarketSnapshot {
        lastMarketSnapshot := lastMarketSnapshot[symbol := Snapshot(seq1, bids, asks)];
        message := Some(Full(seq1, bids, asks));
      } else {
        var prev := lastMarketSnapshot[symbol];
        var bidsChanges := ComputeChanges(prev.bids, bids);
        var asksChanges := ComputeChanges(prev.asks, asks);
        p := Publication(bids, asks, bidsChanges, asksChanges);
        if bidsChanges == [] && asksChanges == [] { return; }
        message := Some(Increment(seq1, prev.seqNum, prev.seqNum + 1 != seq1, bidsChanges, asksChanges));
        lastMarketSnapshot := lastMarketSnapshot[symbol := Snapshot(seq1, bids, asks)];
      }
      sent := sent[symbol := At(sent, symbol, []) + [message.value]];
    }

    static lemma {:induction false} AfterNext(ps: seq<Publication>, p: Publication)
      requires Published(ps) && Diffs(After(ps), p)
      ensures Published(ps + [p]) && After(ps + [p]) == Publish(After(ps), p)
    {
      assert (ps + [p])[..|ps|] == ps;
    }

    /** publishMarketDataUpdate when no other thread comes in between: whoever got every message holds
        the current depth of the book. */
    method PublishMarketDataUpdate(symbol: Symbol)
      requires BooksReadable() && FeedsValid()
      modifies this`marketDataSeqs, this`lastMarketSnapshot, this`sent, this`publications
      ensures FeedsValid() && Current(books, sent, symbol)
      ensures forall s | s != symbol ::
                At(sent, s, []) == old(At(sent, s, [])) && At(publications, s, []) == old(At(publications, s, []))
      ensures PublishedOnce(old(publications), publications, symbol)
    {
      hide Reads, Top, AsMap, After, Published, ReceiveAll, BookAt;
      var bids, asks, bestBid, bestAsk := GetMarketData(symbol, 10);
      var message := PublishSection(symbol, bids, asks);
      ghost var b, ps := BookAt(books, symbol), At(publications, symbol, []);
      assert FeedOf(symbol) == After(ps);
      forall c
        ensures ReceiveAll(c, At(sent, symbol, [])) == Client(AsMap(Top(b.bids, 10)), AsMap(Top(b.asks, 10)))
      {
        ReplicaIsCurrent(ps, c, b, 10);
      }
    }

    // ----- Replay

    /** Objects that are allocated from here on are filed nowhere. */
    lemma {:induction false} NewObjects()
      requires BooksValid()
      ensures forall s | s in orderBooks :: orderBooks[s].orderMap.Values <= objects
    {
      hide BooksOk, OneBook;
      forall s | s in orderBooks
        ensures orderBooks[s].orderMap.Values <= objects
      {
        assert BookOk(s);
      }
    }

    /** Submits an order during replay unless its book holds it already. */
    method SubmitMissing(t: Ticket)
      requires BooksValid()
      requires RestsIn(books, t.symbol, t.id) || !LeavesRemainder(BookAt(books, t.symbol), t)
               || !RestsAnywhere(books, t.id)
      modifies this`orderBooks, this`books, this`objects, orderBooks.Values, objects
      ensures BooksValid()
      ensures books == if RestsIn(old(books), t.symbol, t.id) then old(books) else Match(old(books), t.symbol, t)
      ensures fresh(orderBooks.Values - old(orderBooks.Values)) && fresh(objects - old(objects))
    {
      hide BooksOk, OneBook, Holds, RestsAnywhere, Process, LeavesRemainder, BooksValid, Rests;
      OpenKeepsHere(t.symbol, t.id);
      Consistently();
      var book := GetOrCreateOrderBook(t.symbol);
      HasOrderMeans(t.symbol, t.id);
      if !book.HasOrder(t.id) {
        NewObjects();
        var order := new Order(t.id, t.symbol, t.side, t.kind, t.price, t.qty);
        var trades := ProcessIn(t.symbol, order);
      }
    }

    lemma {:induction false} OpenKeepsHere(s: Symbol, id: OrderId)
      requires BooksValid()
      ensures RestsIn(Open(books, s), s, id) <==> RestsIn(books, s, id)
      ensures RestsAnywhere(Open(books, s), id) <==> RestsAnywhere(books, id)
    {
      OpenKeeps(books, s);
    }

    /** Replays one log entry. */
    method ReplayOne(e: Entry)
      requires Valid() && !Abs().logging && Fits(Abs(), e)
      modifies this`orderBooks, this`books, this`objects, this`triggerOrders, this`wal, orderBooks.Values, objects
      ensures Valid() && Abs() == ReplayEntry(old(Abs()), e)
      ensures fresh(orderBooks.Values - old(orderBooks.Values)) && fresh(objects - old(objects))
    {
      hide BooksOk, OneBook, TriggersOk, Apart, BooksValid, RestsAnywhere, PendingAnywhere, LeavesRemainder, Match,
           Rests, Without, Resized;
      ReplayEntryKeeps(Abs(), e);
      match e {
        case Submitted(t) =>
          if IsTrigger(t.kind) {
            Park(t);
          } else {
            OpenKeepsHere(t.symbol, t.id);
            SubmitMissing(t);
          }
        case Cancelled(id) =>
          var found, affectedSymbol := CancelOrderUnlocked(id);
        case Modified(id, q) =>
          var found, affectedSymbol := ModifyOrderUnlocked(id, q);
        case Activated(id, symbol) =>
          if symbol in triggerOrders {
            triggerOrders := triggerOrders[symbol := Without(triggerOrders[symbol], id)];
          }
        case Traded(_) =>
      }
    }

    /** Replays a log into this engine, which may be live. */
    method ReplayWAL(log: seq<Entry>)
      requires Valid() && !replaying && Allowed(Abs(), DoReplay(log))
      modifies this`orderBooks, this`books, this`objects, this`triggerOrders, this`wal, this`replaying,
               orderBooks.Values, objects
      ensures Valid() && !replaying && Abs() == Step(old(Abs()), DoReplay(log))
      ensures fresh(orderBooks.Values - old(orderBooks.Values)) && fresh(objects - old(objects))
    {
      hide BooksValid, Invariant, ReplayEntry, Fits, FitsAll, Replay;
      SameUnderAnyFlag(Abs());
      replaying := true;
      ghost var c := Abs();
      NothingReplayed(c);
      var i := 0;
      while i < |log|
        invariant i <= |log| && replaying && Valid() && !Abs().logging
        invariant Abs() == Replay(c, log[..i])
        invariant fresh(orderBooks.Values - old(orderBooks.Values)) && fresh(objects - old(objects))
      {
        FitsNext(c, log, i);
        ReplayOne(log[i]);
        i := i + 1;
      }
      assert log[..|log|] == log;
      SameUnderAnyFlag(Abs());
      replaying := false;
    }

    static lemma {:induction false} SameUnderAnyFlag(c: Core)
      requires Invariant(c)
      ensures forall flag :: Invariant(c.(logging := flag))
    {
    }

    /** startWAL: opens a log in append mode; `contents` is what it holds already. */
    method StartWAL(contents: seq<Entry>)
      requires Valid() && !replaying
      modifies this`wal, this`walEnabled
      ensures Valid() && Abs() == old(Abs()).(log := contents, logging := true)
    {
      hide BooksValid, TriggersOk, BooksOk, OneBook, Apart;
      wal, walEnabled := contents, true;
    }

    method StopWAL()
      requires Valid()
      modifies this`walEnabled
      ensures Valid() && Abs() == old(Abs()).(logging := false)
    {
      hide BooksValid, TriggersOk, BooksOk, OneBook, Apart;
      walEnabled := false;
    }

    static lemma {:induction false} NothingReplayed(c: Core)
      ensures Replay(c, []) == c
    {
    }

    static lemma {:induction false} FitsNext(c: Core, log: seq<Entry>, i: nat)
      requires FitsAll(c, log) && i < |log|
      ensures Fits(Replay(c, log[..i]), log[i])
      ensures Replay(c, log[..i + 1]) == ReplayEntry(Replay(c, log[..i]), log[i])
      decreases |log|
    {
      hide Fits, ReplayEntry;
      if i == |log| - 1 {
        assert log[..i + 1] == log;
      } else {
        var l := log[..|log| - 1];
        FitsNext(c, l, i);
        assert l[..i] == log[..i] && l[..i + 1] == log[..i + 1];
      }
    }

    // ----- Saved state

    /** saveState into a directory that may hold files already: one file per symbol. */
    method SaveState(files0: map<Symbol, JsonBook>) returns (files: map<Symbol, JsonBook>)
      requires BooksValid() && AllOwn(books)
      ensures files.Keys == files0.Keys + books.Keys
      ensures forall s | s in books :: Describes(files[s], s) && Described(files[s], s) == books[s]
      ensures forall s | s in files0 && s !in books :: files[s] == files0[s]
    {
      hide BooksOk, OneBook, Describes, Described, Holds, BookOwn;
      files := files0;
      var todo := orderBooks.Keys;
      while todo != {}
        invariant todo <= orderBooks.Keys && files.Keys == files0.Keys + (orderBooks.Keys - todo)
        invariant forall s | s in books && s !in todo :: Describes(files[s], s) && Described(files[s], s) == books[s]
        invariant forall s | s in files0 && s !in books :: files[s] == files0[s]
      {
        var symbol :| symbol in todo;
        assert BookOk(symbol);
        var j := SaveBook(orderBooks[symbol], symbol, books[symbol], objects);
        files := files[symbol := j];
        todo := todo - {symbol};
      }
    }

    static method SaveBook(book: OrderBook, ghost s: Symbol, ghost flat: Book, ghost objs: set<Order>)
        returns (j: JsonBook)
      requires Holds(book, s, flat, objs) && BookOwn(flat, s)
      ensures Describes(j, s) && Described(j, s) == flat
    {
      j := ToJson(book);
      OwnLevels(book.bids, s);
      OwnLevels(book.asks, s);
      SavedBooksLoad(book, j);
    }

    lemma {:induction false} SoundMeansValid()
      requires BooksConsistent()
      ensures Valid() <==> Invariant(Abs())
    {
    }

    static method LoadAlone(book: OrderBook, ghost s0: Symbol, j: JsonBook, ghost others: map<Symbol, OrderBook>,
                            ghost flats: map<Symbol, Book>, ghost objs: set<Order>)
        returns (ghost objs': set<Order>)
      requires book.symbol == s0 && Describes(j, s0) && Others(others, flats, objs, book, {})
      modifies book
      ensures objs <= objs' && fresh(objs' - objs) && Holds(book, s0, Described(j, s0), objs')
      ensures forall s | s in others :: Holds(others[s], s, flats[s], objs')
    {
      hide Described, Describes, Consistent;
      FromJson(book, j);
      objs' := objs + book.orderMap.Values;
      forall s | s in others
        ensures Holds(others[s], s, flats[s], objs')
      {
        assert old(Holds(others[s], s, flats[s], objs));
      }
    }

    method LoadBook(symbol: Symbol, book: OrderBook, j: JsonBook)
      requires BooksConsistent() && symbol in orderBooks && book == orderBooks[symbol] && Describes(j, symbol)
      modifies this`books, this`objects, book
      ensures BooksConsistent() && books == old(books)[symbol := Described(j, symbol)]
      ensures fresh(objects - old(objects))
    {
      hide Described, Describes, Holds;
      OtherBooks(symbol);
      ghost var objs := LoadAlone(book, symbol, j, orderBooks - {symbol}, books, objects);
      books := books[symbol := Described(j, symbol)];
      objects := objs;
      forall s | s in orderBooks
        ensures BookOk(s)
      {
        assert s != symbol ==> s in orderBooks - {symbol};
      }
    }

    lemma {:induction false} OtherBooks(symbol: Symbol)
      requires BooksConsistent() && symbol in orderBooks
      ensures orderBooks[symbol].symbol == symbol
      ensures Others(orderBooks - {symbol}, books, objects, orderBooks[symbol], {})
    {
      assert BookOk(symbol);
      forall s | s in orderBooks - {symbol}
        ensures s in books && Holds(orderBooks[s], s, books[s], objects) && orderBooks[s] != orderBooks[symbol]
      {
        assert BookOk(s);
      }
    }

    /** One file of loadState. */
    method LoadFile(symbol: Symbol, j: JsonBook)
      requires BooksConsistent() && Describes(j, symbol)
      modifies this`orderBooks, this`books, this`objects, orderBooks.Values
      ensures BooksConsistent() && books == old(books)[symbol := Described(j, symbol)]
      ensures fresh(orderBooks.Values - old(orderBooks.Values)) && fresh(objects - old(objects))
    {
      hide BooksConsistent, BooksValid, Describes, Described;
      var book := GetOrCreateOrderBook(symbol);
      LoadBook(symbol, book, j);
    }

    static lemma {:induction false} OneMoreFile(base: map<Symbol, Book>, saved: map<Symbol, Book>, todo: set<Symbol>,
                                                s: Symbol)
      requires s in todo && s in saved
      ensures (base + (saved - todo))[s := saved[s]] == base + (saved - (todo - {s}))
    {
    }

    /** loadState: every file replaces the book of its symbol. The engine stays sound exactly when the loaded
        books are sound among themselves and share no id with what is pending or stays. */
    method LoadState(files: map<Symbol, JsonBook>)
      requires Valid() && forall s | s in files :: Describes(files[s], s)
      modifies this`orderBooks, this`books, this`objects, orderBooks.Values
      ensures BooksConsistent() && Abs() == Load(old(Abs()), AllDescribed(files))
      ensures Valid() <==> Loads(old(Abs()), AllDescribed(files))
      ensures fresh(orderBooks.Values - old(orderBooks.Values)) && fresh(objects - old(objects))
    {
      hide BooksOk, OneBook, Describes, Described, Holds, Invariant, Loads, BooksConsistent, BooksValid;
      ghost var saved := AllDescribed(files);
      Consistently();
      InvariantHolds();
      var todo := files.Keys;
      assert saved.Keys == todo && old(books) + (saved - todo) == old(books);
      while todo != {}
        invariant BooksConsistent() && todo <= files.Keys
        invariant Abs() == old(Abs()).(books := old(books) + (saved - todo))
        invariant fresh(orderBooks.Values - old(orderBooks.Values)) && fresh(objects - old(objects))
      {
        var symbol :| symbol in todo;
        OneMoreFile(old(books), saved, todo, symbol);
        LoadFile(symbol, files[symbol]);
        todo := todo - {symbol};
      }
      assert saved - todo == saved;
      LoadKeepsExactly(old(Abs()), saved);
      SoundMeansValid();
    }

    // ----- Whole calls, when no other thread comes in between

    /** What an engine remembers: the machine, its feeds and its tape. */
    ghost predicate AllValid()
      reads this, orderBooks.Values, objects
    {
      Valid() && FeedsValid() && TapesValid()
    }

    method PublishTrade(trade: Trade)
      requires AllValid()
      modifies this`tradeSeqs, this`tradeHistory, this`stamped
      modifies this`orderBooks, this`books, this`objects, this`triggerOrders, this`wal, orderBooks.Values, objects
      ensures AllValid()
      ensures Abs() == Step(Step(old(Abs()), DoStamp(trade)), DoCheck(trade.symbol, trade.price))
      ensures stamped == old(stamped)[trade.symbol := At(old(stamped), trade.symbol, []) + [trade]]
      ensures fresh(orderBooks.Values - old(orderBooks.Values)) && fresh(objects - old(objects))
    {
      hide BooksValid, BookOk, Holds, TriggersOk, BooksOk, OneBook, Apart, FeedsValid, TapesValid,
           EngineCore.CheckTriggers;
      StepKeeps(Abs(), DoStamp(trade));
      var t := StampTrade(trade);
      CheckTriggers(trade.symbol, trade.price);
    }

    /** Publishes, one by one, the trades of an order that was just submitted. */
    method PublishTrades(trades: seq<Trade>, ghost c: Core, ghost t: Ticket)
      requires AllValid() && Abs() == State(c, [DoSubmit(t)] + Publishing([]))
      requires forall i | 0 <= i < |trades| :: trades[i].symbol == t.symbol
      modifies this`tradeSeqs, this`tradeHistory, this`stamped
      modifies this`orderBooks, this`books, this`objects, this`triggerOrders, this`wal, orderBooks.Values, objects
      ensures AllValid() && Abs() == State(c, [DoSubmit(t)] + Publishing(trades))
      ensures stamped == Taped(old(stamped), t.symbol, trades)
    {
      hide Valid, FeedsValid, TapesValid, Step, State, Publishing;
      assert trades[..0] == [] && Taped(stamped, t.symbol, []) == stamped;
      hide Taped;
      var i := 0;
      while i < |trades|
        invariant i <= |trades| && AllValid()
        invariant Abs() == State(c, [DoSubmit(t)] + Publishing(trades[..i]))
        invariant stamped == Taped(old(stamped), t.symbol, trades[..i])
        invariant fresh(orderBooks.Values - old(orderBooks.Values)) && fresh(objects - old(objects))
      {
        TapedNext(old(stamped), t.symbol, trades, i);
        PublishTrade(trades[i]);
        PublishingNext(c, DoSubmit(t), trades, i);
        i := i + 1;
      }
      assert trades[..|trades|] == trades;
    }

    /** Asks the symbol's rate limiter first; where that refuses, the source throws "Rate limit exceeded"
        and nothing has changed but the limiter. */
    method SubmitOrder(order: Order, now: real) returns (accepted: bool)
      requires Ready() && limiters.Valid() && Allowed(Abs(), DoSubmit(order.View()))
      modifies limiters, limiters.limiters.Values
      modifies this, orderBooks.Values, objects, order
      ensures Ready() && limiters.Valid()
      ensures limiters.HistoryOf(order.symbol, now) ==
              old(limiters.HistoryOf(order.symbol, now)) + [TokenBucket.Request(now, 1)]
      ensures accepted <==> limiters.LastGranted(order.symbol)
      ensures accepted ==> Abs() == old(SubmittedNow(order))
      ensures accepted ==> At(stamped, order.symbol, []) == At(old(stamped), order.symbol, []) + old(TradesNow(order))
      ensures forall s | s != order.symbol :: At(stamped, s, []) == At(old(stamped), s, [])
      ensures accepted && IsTrigger(order.kind) ==> publications == old(publications)
      ensures accepted && !IsTrigger(order.kind) ==> PublishedOnce(old(publications), publications, order.symbol)
      ensures !accepted ==> Abs() == old(Abs()) && sent == old(sent) && stamped == old(stamped)
      ensures !accepted ==> publications == old(publications)
    {
      hide Ready, SubmittedNow, TradesNow, Taped, PublishedOnce, Allowed, Abs;
      TapedIs(stamped, order.symbol, TradesNow(order));
      accepted := limiters.TryAcceptOrder(order.symbol, now);
      if accepted { SubmitAccepted(order); }
    }

    /** Sound, and in touch with its clients: the state between calls. */
    ghost predicate Ready()
      reads this, orderBooks.Values, objects
    {
      AllValid() && Informed(books, sent, publications) && AllOwn(books)
    }

    /** submitOrder behind the rate limiter. */
    method SubmitAccepted(order: Order)
      requires Ready() && Allowed(Abs(), DoSubmit(order.View()))
      modifies this, orderBooks.Values, objects, order
      ensures Ready() && Abs() == old(SubmittedNow(order))
      ensures stamped == Taped(old(stamped), order.symbol, old(TradesNow(order)))
      ensures if IsTrigger(order.kind) then publications == old(publications)
              else PublishedOnce(old(publications), publications, order.symbol)
    {
      hide Valid, FeedsValid, TapesValid, Informed, AllOwn, SameElsewhere, Allowed, State, Publishing, Submit, Process,
           PublishedOnce;
      ghost var c, t := Abs(), order.View();
      InvariantHolds();
      TradesOwn(c, t, matchingAlgorithm.Policy());
      PublishingOwn(c, t, []);
      OnlySubmitted(c, t);
      var trades, isTriggerOrder := SubmitSection(order);
      if isTriggerOrder {
        TriggersStayInformed(c, t, sent, publications);
        return;
      }
      PublishAll(order.symbol, trades, c, t);
    }

    lemma {:induction false} InvariantHolds()
      requires Valid()
      ensures Invariant(Abs())
    {
    }

    /** Publishes the one book that has changed: its clients become current, and the others stay so. */
    method PublishTouched(symbol: Symbol, ghost before: map<Symbol, Book>)
      requires BooksReadable() && FeedsValid() && Informed(before, sent, publications)
      requires SameElsewhere(before, books, symbol)
      modifies this`marketDataSeqs, this`lastMarketSnapshot, this`sent, this`publications
      ensures FeedsValid() && Informed(books, sent, publications)
      ensures PublishedOnce(old(publications), publications, symbol)
    {
      hide Informed, Current, SameElsewhere, Reads;
      PublishMarketDataUpdate(symbol);
      StaysInformed(before, old(sent), old(publications), books, sent, publications, symbol);
    }

    lemma {:induction false} SoundIsReadable()
      requires Valid()
      ensures BooksReadable()
    {
      ValidMeansReadable();
    }

    /** What submitOrder does outside the lock. */
    method PublishAll(symbol: Symbol, trades: seq<Trade>, ghost c: Core, ghost t: Ticket)
      requires AllValid() && Abs() == Submit(c, t) && Informed(c.books, sent, publications) && t.symbol == symbol
      requires Invariant(c) && AllOwn(c.books) && Allowed(c, DoSubmit(t))
      requires forall i | 0 <= i < |trades| :: trades[i].symbol == t.symbol
      modifies this, orderBooks.Values, objects
      ensures Ready() && Abs() == State(c, [DoSubmit(t)] + Publishing(trades))
      ensures stamped == Taped(old(stamped), symbol, trades)
      ensures PublishedOnce(old(publications), publications, symbol)
    {
      hide Valid, BooksReadable, FeedsValid, TapesValid, Informed, AllOwn, Current, SameElsewhere, Invariant, Allowed,
           State, Publishing, Submit, Taped, PublishedOnce;
      OnlySubmitted(c, t);
      PublishingOwn(c, t, trades);
      PublishTrades(trades, c, t);
      SoundIsReadable();
      PublishTouched(symbol, c.books);
    }

    static lemma {:induction false} TriggersStayInformed(c: Core, t: Ticket, sent: map<Symbol, seq<Message>>,
                                                         publications: map<Symbol, seq<Publication>>)
      requires IsTrigger(t.kind) && Informed(c.books, sent, publications)
      ensures Informed(Submit(c, t).books, sent, publications)
    {
      hide Current;
      forall s | At(publications, s, []) != []
        ensures Current(Submit(c, t).books, sent, s)
      {
        assert Current(c.books, sent, s) && BookAt(Submit(c, t).books, s) == BookAt(c.books, s);
        SameDepthSameNews(c.books, Submit(c, t).books, sent, s);
      }
    }

    static lemma {:induction false} SameDepthSameNews(books: map<Symbol, Book>, books': map<Symbol, Book>,
                                                      sent: map<Symbol, seq<Message>>, s: Symbol)
      requires BookAt(books, s) == BookAt(books', s)
      ensures Current(books, sent, s) <==> Current(books', sent, s)
    {
    }

    method CancelOrder(orderId: OrderId) returns (cancelled: bool)
      requires AllValid() && Informed(books, sent, publications)
      modifies this`marketDataSeqs, this`lastMarketSnapshot, this`sent, this`publications
      modifies this`books, this`wal, orderBooks.Values
      ensures AllValid() && Abs() == Step(old(Abs()), DoCancel(orderId))
      ensures cancelled <==> RestsAnywhere(old(books), orderId)
      ensures Informed(books, sent, publications)
      ensures if cancelled then PublishedOnce(old(publications), publications, Holder(old(books), orderId))
              else publications == old(publications)
    {
      hide BooksValid, BooksReadable, Invariant, RestsAnywhere, FeedsValid, TapesValid, Informed, Current, Rests,
           PublishedOnce;
      CancelKeeps(Abs(), orderId);
      var affectedSymbol;
      cancelled, affectedSymbol := CancelOrderUnlocked(orderId);
      if cancelled {
        ValidMeansReadable();
        PublishTouched(affectedSymbol, old(books));
      }
    }

    /** The engine stays sound exactly when there was nothing to modify or the quantity is positive. */
    method ModifyOrder(orderId: OrderId, newQuantity: real) returns (modified: bool)
      requires AllValid() && Informed(books, sent, publications)
      modifies this`marketDataSeqs, this`lastMarketSnapshot, this`sent, this`publications
      modifies this`books, this`wal, orderBooks.Values, objects
      ensures Abs() == Step(old(Abs()), DoModify(orderId, newQuantity))
      ensures modified <==> RestsAnywhere(old(books), orderId)
      ensures AllValid() <==> !modified || newQuantity > 0.0
      ensures FeedsValid() && TapesValid() && Informed(books, sent, publications)
      ensures if modified then PublishedOnce(old(publications), publications, Holder(old(books), orderId))
              else publications == old(publications)
    {
      hide BooksValid, BooksReadable, Invariant, RestsAnywhere, FeedsValid, TapesValid, Informed, Current, Rests,
           PublishedOnce;
      InvariantHolds();
      ModifyKeepsIf(Abs(), orderId, newQuantity);
      var affectedSymbol;
      modified, affectedSymbol := ModifyOrderUnlocked(orderId, newQuantity);
      if modified {
        PublishTouched(affectedSymbol, old(books));
      }
    }

    static lemma {:induction false} ModifyKeepsIf(c: Core, id: OrderId, q: real)
      requires Invariant(c)
      ensures q > 0.0 || !RestsAnywhere(c.books, id) ==> Invariant(EngineCore.ModifyOrder(c, id, q))
    {
      if q > 0.0 || !RestsAnywhere(c.books, id) { ModifyKeeps(c, id, q); }
    }

    /** Between calls the last snapshot of a published symbol is the book's depth, so whoever joins then
        is seeded with it. */
    lemma {:induction false} JoinersAreSeeded(s: Symbol)
      requires FeedsValid() && Informed(books, sent, publications) && At(publications, s, []) != []
      ensures var b := BookAt(books, s);
              && FeedOf(s).last.Some?
              && Held(FeedOf(s).last.value) == Client(AsMap(Top(b.bids, 10)), AsMap(Top(b.asks, 10)))
    {
      hide Held, After, Published, ReceiveAll, Top;
      assert Current(books, sent, s) && FeedOf(s) == After(At(publications, s, []));
      SnapshotIsCurrent(At(publications, s, []), BookAt(books, s));
    }
  }

  /** Saves one engine and loads another: the books come back, pending triggers do not. */
  method Restart(engine: MatchingEngine, algorithm: MatchingAlgorithm, limiters: TokenBucket.RateLimiterManager)
      returns (copy: MatchingEngine)
    requires engine.Valid() && AllOwn(engine.books)
    ensures fresh(copy) && copy.Valid() && copy.books == engine.books && copy.triggerOrders == map[]
  {
    hide BooksOk, OneBook, Described, Describes, Loads, AllOwn, AllDescribed, MatchingEngine.BooksValid;
    ghost var empty, d := Core(map[], map[], [], false), engine.Abs();
    EmptyLoads(empty, d);
    var files := engine.SaveState(map[]);
    DescribedAre(files, engine.books);
    copy := new MatchingEngine(algorithm, limiters);
    copy.KeysAre();
    copy.LoadState(files);
  }

  lemma {:induction false} DescribedAre(files: map<Symbol, JsonBook>, books: map<Symbol, Book>)
    requires files.Keys == books.Keys && forall s | s in books :: Described(files[s], s) == books[s]
    ensures AllDescribed(files) == books
  {
  }
}
