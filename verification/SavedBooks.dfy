/** A book that was saved as JSON and loaded again behaves like the original from then on. */
module SavedBooks {
  import opened Orders
  import opened FlatBook
  import opened Ladder
  import opened Resizing
  import opened BookShapes
  import opened Books
  import opened Fees
  import opened Matching
  import opened MatchingLaws
  import opened Persistence

  /** What callers do to a book. */
  datatype Op =
    | Filing(order: Ticket)
    | Matching(order: Ticket)
    | Cancelling(id: OrderId)
    | Modifying(id: OrderId, quantity: real)
    | Decreasing(id: OrderId, amount: real)

  function AfterOp(b: Book, op: Op): Book {
    match op
    case Filing(t) => Add(b, t)
    case Matching(t) => Process(b, t).book
    case Cancelling(id) => Cancel(b, id)
    case Modifying(id, q) => Resized(b, id, q)
    case Decreasing(id, amount) => Decrease(b, id, amount)
  }

  function TradesOfOp(b: Book, op: Op, policy: FeePolicy): seq<Trade> {
    if op.Matching? then TradesOf(Process(b, op.order).fills, op.order, policy) else []
  }

  /** The operation keeps the book consistent. */
  predicate OpFits(b: Book, op: Op) {
    match op
    case Filing(t) => t.qty > 0.0 && !Rests(b, t.id)
    case Matching(t) => !Rests(b, t.id)
    case Modifying(id, q) => q > 0.0 || !Rests(b, id)
    case _ => true
  }

  function AfterOps(b: Book, ops: seq<Op>): Book
    decreases |ops|
  {
    if ops == [] then b else AfterOps(AfterOp(b, ops[0]), ops[1..])
  }

  function TradesOfOps(b: Book, ops: seq<Op>, policy: FeePolicy): seq<Trade>
    decreases |ops|
  {
    if ops == [] then [] else TradesOfOp(b, ops[0], policy) + TradesOfOps(AfterOp(b, ops[0]), ops[1..], policy)
  }

  predicate OpsFit(b: Book, ops: seq<Op>)
    decreases |ops|
  {
    ops != [] ==> OpFits(b, ops[0]) && OpsFit(AfterOp(b, ops[0]), ops[1..])
  }

  method NewOrder(t: Ticket) returns (order: Order)
    ensures fresh(order) && order.View() == t
  {
    order := new Order(t.id, t.symbol, t.side, t.kind, t.price, t.qty);
  }

  /** One operation on a heap book. */
  method RunOp(algorithm: MatchingAlgorithm, book: OrderBook, op: Op) returns (trades: seq<Trade>)
    requires book.Valid() && OpFits(book.Flat(), op)
    modifies book, book.orderMap.Values
    ensures book.Valid() && book.Flat() == AfterOp(old(book.Flat()), op)
    ensures trades == TradesOfOp(old(book.Flat()), op, old(algorithm.Policy()))
    ensures fresh(book.orderMap.Values - old(book.orderMap.Values))
  {
    hide Consistent, Add, Process, Cancel, Resized, Decrease, Rests;
    trades := [];
    match op {
      case Filing(t) =>
        var order := NewOrder(t);
        IndexIs(book, t.id);
        book.AddOrder(order);
      case Matching(t) =>
        var order := NewOrder(t);
        IndexIs(book, t.id);
        var result := algorithm.ProcessOrder(book, order);
        if result.Some? { trades := result.value; } else { NoFills(old(book.Flat()), t); }
      case Cancelling(id) =>
        var ok := book.CancelOrder(id);
        if !ok { NothingToCancel(old(book.Flat()), id); }
      case Modifying(id, q) =>
        var ok := book.ModifyOrder(id, q);
      case Decreasing(id, amount) =>
        var left := book.DecreaseOrderQuantity(id, amount);
    }
  }

  lemma {:induction false} IndexIs(book: OrderBook, id: OrderId)
    requires book.Valid()
    ensures id in book.orderMap <==> Rests(book.Flat(), id)
  {
  }

  lemma {:induction false} NoFills(b: Book, t: Ticket)
    requires IsTrigger(t.kind)
    ensures Process(b, t).fills == []
  {
  }

  lemma {:induction false} NothingToCancel(b: Book, id: OrderId)
    requires !Rests(b, id)
    ensures Cancel(b, id) == b
  {
    WithoutAbsent(b.bids, id);
    WithoutAbsent(b.asks, id);
  }

  /** Any sequence of operations: the trades and the book in the end depend on the reference book only. */
  method RunOps(algorithm: MatchingAlgorithm, book: OrderBook, ops: seq<Op>) returns (trades: seq<Trade>)
    requires book.Valid() && OpsFit(book.Flat(), ops)
    modifies book, book.orderMap.Values
    ensures book.Valid() && book.Flat() == AfterOps(old(book.Flat()), ops)
    ensures trades == TradesOfOps(old(book.Flat()), ops, old(algorithm.Policy()))
  {
    hide Consistent, AfterOp, TradesOfOp, OpFits;
    ghost var policy := algorithm.Policy();
    trades := [];
    var i := 0;
    assert ops[0..] == ops;
    while i < |ops|
      invariant i <= |ops| && book.Valid() && OpsFit(book.Flat(), ops[i..]) && algorithm.Policy() == policy
      invariant fresh(book.orderMap.Values - old(book.orderMap.Values))
      invariant AfterOps(book.Flat(), ops[i..]) == AfterOps(old(book.Flat()), ops)
      invariant trades + TradesOfOps(book.Flat(), ops[i..], policy) == TradesOfOps(old(book.Flat()), ops, policy)
    {
      assert ops[i..][0] == ops[i] && ops[i..][1..] == ops[i + 1..];
      var more := RunOp(algorithm, book, ops[i]);
      trades := trades + more;
      i := i + 1;
    }
    assert ops[|ops|..] == [];
  }

  /** toJson into a new book's fromJson. */
  method CopyThroughJson(book: OrderBook) returns (copy: OrderBook)
    requires book.Valid() && SymbolsAre(book.bids, book.symbol) && SymbolsAre(book.asks, book.symbol)
    ensures fresh(copy) && fresh(copy.orderMap.Values) && copy.symbol == book.symbol
    ensures copy.Valid() && copy.Flat() == book.Flat()
  {
    hide Consistent, Describes, SymbolsAre;
    var j := ToJson(book);
    SavedBooksLoad(book, j);
    copy := new OrderBook(book.symbol);
    FromJson(copy, j);
  }

  /** The same operations on a book and on its saved and loaded copy make the same trades and lead to
      the same book. */
  method BothRunAlike(algorithm: MatchingAlgorithm, book: OrderBook, ops: seq<Op>)
      returns (copy: OrderBook, trades: seq<Trade>, copied: seq<Trade>)
    requires book.Valid() && SymbolsAre(book.bids, book.symbol) && SymbolsAre(book.asks, book.symbol)
    requires OpsFit(book.Flat(), ops)
    modifies book, book.orderMap.Values
    ensures trades == copied && copy.Flat() == book.Flat()
    ensures book.Valid() && book.Flat() == AfterOps(old(book.Flat()), ops)
    ensures trades == TradesOfOps(old(book.Flat()), ops, old(algorithm.Policy()))
  {
    hide Consistent, SymbolsAre, OpsFit;
    copy := CopyThroughJson(book);
    copied := RunOps(algorithm, copy, ops);
    ghost var after := copy.Flat();
    trades := RunOps(algorithm, book, ops);
  }
}
