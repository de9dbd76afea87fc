/** Saving and loading books: the full JSON form (src/engine/order_book.cpp:228-321) and the compact
    one-order-per-level form (include/engine/persistence.h). JSON values are datatypes. */
module Persistence {
  import opened Orders
  import opened FlatBook
  import opened Fees
  import opened Ladder
  import opened BookShapes
  import opened Books
  import opened MatchingLaws
  import opened EngineCore
  import opened EngineRuns
  import opened OwnSymbols

  datatype JsonOrder = JsonOrder(id: OrderId, side: Side, kind: OrderType, price: real, quantity: real)
  datatype JsonLevel = JsonLevel(price: real, totalQuantity: real, orders: seq<JsonOrder>)
  datatype JsonBook = JsonBook(symbol: Symbol, bids: seq<JsonLevel>, asks: seq<JsonLevel>)

  // ----- What a JSON value describes

  function TicketOf(o: JsonOrder, symbol: Symbol): Ticket {
    Ticket(o.id, symbol, o.side, o.kind, o.price, o.quantity)
  }

  function TicketsOf(os: seq<JsonOrder>, symbol: Symbol): (r: seq<Ticket>)
    ensures |r| == |os| && forall i | 0 <= i < |os| :: r[i] == TicketOf(os[i], symbol)
  {
    if os == [] then [] else TicketsOf(os[..|os| - 1], symbol) + [TicketOf(os[|os| - 1], symbol)]
  }

  function LevelsOf(js: seq<JsonLevel>, symbol: Symbol): (r: seq<Level>)
    ensures |r| == |js|
    ensures forall i | 0 <= i < |js| :: r[i] == Level(js[i].price, TicketsOf(js[i].orders, symbol), js[i].totalQuantity)
  {
    if js == [] then []
    else
      var j := js[|js| - 1];
      LevelsOf(js[..|js| - 1], symbol) + [Level(j.price, TicketsOf(j.orders, symbol), j.totalQuantity)]
  }

  function JsonOrders(q: seq<Ticket>): (r: seq<JsonOrder>)
    ensures |r| == |q|
    ensures forall i | 0 <= i < |q| :: r[i] == JsonOrder(q[i].id, q[i].side, q[i].kind, q[i].price, q[i].qty)
  {
    if q == [] then []
    else
      var t := q[|q| - 1];
      JsonOrders(q[..|q| - 1]) + [JsonOrder(t.id, t.side, t.kind, t.price, t.qty)]
  }

  function JsonLevels(ls: seq<Level>): (r: seq<JsonLevel>)
    ensures |r| == |ls|
    ensures forall i | 0 <= i < |ls| :: r[i] == JsonLevel(ls[i].price, ls[i].total, JsonOrders(ls[i].queue))
  {
    if ls == [] then []
    else
      var l := ls[|ls| - 1];
      JsonLevels(ls[..|ls| - 1]) + [JsonLevel(l.price, l.total, JsonOrders(l.queue))]
  }

  /** The reference book that a JSON value describes. */
  function Described(j: JsonBook, symbol: Symbol): Book {
    Book(Flatten(LevelsOf(j.bids, symbol)), Flatten(LevelsOf(j.asks, symbol)))
  }

  function AllDescribed(files: map<Symbol, JsonBook>): map<Symbol, Book> {
    map s | s in files :: Described(files[s], s)
  }

  /** The JSON value describes a well-formed book. */
  ghost predicate Describes(j: JsonBook, symbol: Symbol) {
    var bids, asks := LevelsOf(j.bids, symbol), LevelsOf(j.asks, symbol);
    LadderOk(BUY, bids) && LadderOk(SELL, asks) && WellFormed(Described(j, symbol))
  }

  // ----- The round trip on values

  ghost predicate SymbolsAre(ls: seq<Level>, symbol: Symbol) {
    forall i, j | 0 <= i < |ls| && 0 <= j < |ls[i].queue| :: ls[i].queue[j].symbol == symbol
  }

  lemma {:induction false} LevelRoundTrip(ls: seq<Level>, symbol: Symbol, i: nat)
    requires i < |ls|
    ensures var l := LevelsOf(JsonLevels(ls), symbol)[i];
            && l.price == ls[i].price && l.total == ls[i].total && |l.queue| == |ls[i].queue|
            && forall j | 0 <= j < |ls[i].queue| :: l.queue[j] == ls[i].queue[j].(symbol := symbol)
  {
    hide TicketsOf, JsonOrders;
  }

  /** Loading what was saved restores levels, queues and totals exactly when every order carries the
      symbol of the book it is loaded into: symbols of orders are not saved. */
  lemma {:induction false} RoundTrip(ls: seq<Level>, symbol: Symbol)
    ensures LevelsOf(JsonLevels(ls), symbol) == ls <==> SymbolsAre(ls, symbol)
  {
    hide LevelsOf, JsonLevels;
    var r := LevelsOf(JsonLevels(ls), symbol);
    forall i | 0 <= i < |ls|
      ensures r[i].price == ls[i].price && r[i].total == ls[i].total && |r[i].queue| == |ls[i].queue|
      ensures forall j | 0 <= j < |ls[i].queue| :: r[i].queue[j] == ls[i].queue[j].(symbol := symbol)
    {
      LevelRoundTrip(ls, symbol, i);
    }
    if SymbolsAre(ls, symbol) {
      forall i | 0 <= i < |ls|
        ensures r[i] == ls[i]
      {
        assert r[i].queue == ls[i].queue;
      }
    } else {
      var i, j :| 0 <= i < |ls| && 0 <= j < |ls[i].queue| && ls[i].queue[j].symbol != symbol;
      assert r[i].queue[j].symbol == symbol;
    }
  }

  // ----- The round trip on books

  /** toJson: walks both maps and writes every field but the timestamp. */
  method ToJson(book: OrderBook) returns (j: JsonBook)
    requires book.Valid()
    ensures j == JsonBook(book.symbol, JsonLevels(book.bids), JsonLevels(book.asks))
  {
    assert SideOk(BUY, book.Levels(BUY), book.Image().View(BUY), book.orderMap, Quantities(book.orderMap));
    assert SideOk(SELL, book.Levels(SELL), book.Image().View(SELL), book.orderMap, Quantities(book.orderMap));
    var bids := SideToJson(book.buyLevels, book.bids, book.orderMap);
    var asks := SideToJson(book.sellLevels, book.asks, book.orderMap);
    j := JsonBook(book.symbol, bids, asks);
  }

  method SideToJson(ls: seq<PriceLevel>, ghost v: seq<Level>, ghost index: map<OrderId, Order>)
      returns (js: seq<JsonLevel>)
    requires Mirrors(ls, v, index, Quantities(index))
    ensures js == JsonLevels(v)
  {
    js := [];
    for k := 0 to |ls|
      invariant |js| == k
      invariant forall i | 0 <= i < k :: js[i] == JsonLevels(v)[i]
    {
      assert MirrorsQueue(ls[k].orders, v[k].queue, index, Quantities(index));
      var orders := QueueToJson(ls[k].orders, v[k].queue, index);
      js := js + [JsonLevel(ls[k].price, ls[k].totalQuantity, orders)];
    }
  }

  method QueueToJson(os: seq<Order>, ghost q: seq<Ticket>, ghost index: map<OrderId, Order>)
      returns (js: seq<JsonOrder>)
    requires MirrorsQueue(os, q, index, Quantities(index))
    ensures js == JsonOrders(q)
  {
    js := [];
    for k := 0 to |os|
      invariant |js| == k
      invariant forall i | 0 <= i < k :: js[i] == JsonOrders(q)[i]
    {
      var o := os[k];
      assert q[k] == FiledAs(o, o.quantity);
      js := js + [JsonOrder(o.id, o.side, o.kind, o.price, o.quantity)];
    }
  }

  /** fromJson: drops the current contents and rebuilds maps, totals and index with new objects. */
  method FromJson(book: OrderBook, j: JsonBook)
    requires Describes(j, book.symbol)
    modifies book
    ensures book.Valid()
    ensures book.bids == LevelsOf(j.bids, book.symbol) && book.asks == LevelsOf(j.asks, book.symbol)
    ensures book.Flat() == Described(j, book.symbol)
    ensures fresh(book.orderMap.Values)
  {
    hide Consistent, Describes;
    var bids, asks, index := LoadSides(j, book.symbol);
    book.buyLevels, book.sellLevels, book.orderMap := bids, asks, index;
    book.bids, book.asks := LevelsOf(j.bids, book.symbol), LevelsOf(j.asks, book.symbol);
  }

  method LoadSides(j: JsonBook, symbol: Symbol)
      returns (bids: seq<PriceLevel>, asks: seq<PriceLevel>, index: map<OrderId, Order>)
    requires Describes(j, symbol)
    ensures Consistent(Shape(bids, asks, LevelsOf(j.bids, symbol), LevelsOf(j.asks, symbol)), index, Quantities(index))
    ensures fresh(index.Values)
  {
    ghost var vb, va := LevelsOf(j.bids, symbol), LevelsOf(j.asks, symbol);
    ghost var b := Book(Flatten(vb), Flatten(va));
    UniqueSides(b);
    hide LadderOk, HasId, Flatten, Mirrors, WellFormed, Unique, Consistent;
    var index1;
    bids, index1 := LoadSide(BUY, j.bids, symbol, map[]);
    forall id | HasId(Flatten(va), id)
      ensures id !in index1
    {
      NotOnBothSides(b, id);
    }
    asks, index := LoadSide(SELL, j.asks, symbol, index1);
    MirrorsExtends(bids, vb, index1, Quantities(index1), index, Quantities(index));
    BothSidesOk(bids, asks, vb, va, index, Quantities(index));
  }

  lemma {:induction false} UniqueSides(b: Book)
    requires WellFormed(b)
    ensures Unique(b.bids) && Unique(b.asks)
  {
  }

  lemma {:induction false} NotOnBothSides(b: Book, id: OrderId)
    requires WellFormed(b) && HasId(b.asks, id)
    ensures !HasId(b.bids, id)
  {
    var k :| 0 <= k < |b.asks| && b.asks[k].id == id;
    DistinctSides(b, SELL, k);
  }

  lemma {:induction false} BothSidesOk(bids: seq<PriceLevel>, asks: seq<PriceLevel>, vb: seq<Level>, va: seq<Level>,
                                       index: map<OrderId, Order>, qs: map<OrderId, real>)
    requires Mirrors(bids, vb, index, qs) && Mirrors(asks, va, index, qs) && LadderOk(BUY, vb) && LadderOk(SELL, va)
    requires WellFormed(Book(Flatten(vb), Flatten(va)))
    requires forall id :: id in index <==> HasId(Flatten(vb), id) || HasId(Flatten(va), id)
    requires forall id | id in index :: index[id].id == id
    ensures Consistent(Shape(bids, asks, vb, va), index, qs)
  {
    hide LadderOk, HasId, Flatten, Mirrors, WellFormed;
    var sh := Shape(bids, asks, vb, va);
    forall s: Side
      ensures SideOk(s, sh.Levels(s), sh.View(s), index, qs)
    {
      assert s == BUY || s == SELL;
    }
    assert Indexes(index, sh.Flat());
  }

  /** More entries in the index do not disturb what is already there. */
  lemma {:induction false} MirrorsExtends(ls: seq<PriceLevel>, v: seq<Level>, index: map<OrderId, Order>,
                                          qs: map<OrderId, real>,
                                          index': map<OrderId, Order>, qs': map<OrderId, real>)
    requires Mirrors(ls, v, index, qs)
    requires forall id | id in index :: id in index' && index'[id] == index[id]
    requires forall id | id in qs :: id in qs' && qs'[id] == qs[id]
    ensures Mirrors(ls, v, index', qs')
  {
    forall k | 0 <= k < |v|
      ensures MirrorsQueue(ls[k].orders, v[k].queue, index', qs')
    {
    }
  }

  /** Adds a level to a sorted map unless its key is there already. */
  function EmplaceLevel(s: Side, ls: seq<PriceLevel>, l: PriceLevel): seq<PriceLevel> {
    var k := LowerBound(s, ls, l.price);
    if Find(ls, l.price) < |ls| then ls else ls[..k] + [l] + ls[k..]
  }

  lemma {:induction false} EmplaceAtEnd(s: Side, ls: seq<PriceLevel>, l: PriceLevel)
    requires forall i | 0 <= i < |ls| :: Better(s, ls[i].price, l.price)
    ensures EmplaceLevel(s, ls, l) == ls + [l]
  {
  }

  /** The first `k` levels have been loaded on top of `index0`. */
  ghost predicate Loaded(ls: seq<PriceLevel>, v: seq<Level>, k: nat, index0: map<OrderId, Order>,
                         index: map<OrderId, Order>,
                         qs: map<OrderId, real>)
    requires k <= |v|
  {
    && Mirrors(ls, v[..k], index, qs)
    && (forall id | id in index0 :: id in index && index[id] == index0[id])
    && (forall id :: id in index <==> id in index0 || HasId(Flatten(v[..k]), id))
  }

  lemma {:induction false} LoadedStep(s: Side, ls: seq<PriceLevel>, v: seq<Level>, k: nat, index0: map<OrderId, Order>,
                                      index: map<OrderId, Order>, qs: map<OrderId, real>, os: seq<Order>,
                                      index': map<OrderId, Order>, qs': map<OrderId, real>)
    requires k < |v| && LadderOk(s, v) && Loaded(ls, v, k, index0, index, qs)
    requires MirrorsQueue(os, v[k].queue, index', qs')
    requires forall id | id in index :: id in index' && index'[id] == index[id]
    requires forall id | id in qs :: id in qs' && qs'[id] == qs[id]
    requires forall id :: id in index' <==> id in index || HasId(v[k].queue, id)
    ensures Loaded(EmplaceLevel(s, ls, PriceLevel(v[k].price, os, v[k].total)), v, k + 1, index0, index', qs')
  {
    var level := PriceLevel(v[k].price, os, v[k].total);
    MirrorsExtends(ls, v[..k], index, qs, index', qs');
    ComesLast(s, ls, v, k, index, qs);
    FlattenSnoc(v, k);
    assert v[..k + 1] == v[..k] + [v[k]];
    hide Mirrors, MirrorsQueue, HasId, Flatten, EmplaceLevel, LadderOk;
    EmplaceAtEnd(s, ls, level);
    MirrorsSnoc(ls, v[..k], index', qs', level, v[k]);
  }

  lemma {:induction false} ComesLast(s: Side, ls: seq<PriceLevel>, v: seq<Level>, k: nat, index: map<OrderId, Order>,
                                     qs: map<OrderId, real>)
    requires k < |v| && LadderOk(s, v) && Mirrors(ls, v[..k], index, qs)
    ensures forall i | 0 <= i < |ls| :: Better(s, ls[i].price, v[k].price)
  {
    hide MirrorsQueue, LevelOk;
    assert forall i | 0 <= i < k :: ls[i].price == v[..k][i].price == v[i].price;
  }

  lemma {:induction false} MirrorsSnoc(ls: seq<PriceLevel>, v: seq<Level>, index: map<OrderId, Order>,
                                       qs: map<OrderId, real>,
                                       level: PriceLevel, l: Level)
    requires Mirrors(ls, v, index, qs) && MirrorsQueue(level.orders, l.queue, index, qs)
    requires level.price == l.price && level.totalQuantity == l.total
    ensures Mirrors(ls + [level], v + [l], index, qs)
  {
    hide MirrorsQueue;
  }

  lemma {:induction false} QuantitiesExtend(m: map<OrderId, Order>, m': map<OrderId, Order>)
    requires forall id | id in m :: id in m' && m'[id] == m[id]
    ensures forall id | id in Quantities(m) :: id in Quantities(m') && Quantities(m')[id] == Quantities(m)[id]
  {
  }

  method LoadSide(s: Side, js: seq<JsonLevel>, symbol: Symbol, index0: map<OrderId, Order>)
      returns (ls: seq<PriceLevel>, index: map<OrderId, Order>)
    requires LadderOk(s, LevelsOf(js, symbol)) && Unique(Flatten(LevelsOf(js, symbol)))
    requires forall id | HasId(Flatten(LevelsOf(js, symbol)), id) :: id !in index0
    ensures Mirrors(ls, LevelsOf(js, symbol), index, Quantities(index))
    ensures forall id | id in index0 :: id in index && index[id] == index0[id]
    ensures forall id :: id in index <==> id in index0 || HasId(Flatten(LevelsOf(js, symbol)), id)
    ensures forall id | id in index && id !in index0 :: fresh(index[id]) && index[id].id == id
  {
    ghost var v := LevelsOf(js, symbol);
    hide Mirrors, MirrorsQueue, HasId, Flatten, EmplaceLevel, Unique, Quantities;
    ls, index := [], index0;
    LoadedNothing(v, index0, Quantities(index0));
    for k := 0 to |js|
      invariant Loaded(ls, v, k, index0, index, Quantities(index))
      invariant forall id | id in index && id !in index0 :: fresh(index[id]) && index[id].id == id
    {
      LevelIsNew(v, k, index0);
      ghost var before := index;
      var orders;
      orders, index := LoadOrders(js[k].orders, symbol, index);
      QuantitiesExtend(before, index);
      LoadedStep(s, ls, v, k, index0, before, Quantities(before), orders, index, Quantities(index));
      ls := EmplaceLevel(s, ls, PriceLevel(js[k].price, orders, js[k].totalQuantity));
    }
    assert v[..|js|] == v;
  }

  lemma {:induction false} LoadedNothing(v: seq<Level>, index0: map<OrderId, Order>, qs: map<OrderId, real>)
    ensures Loaded([], v, 0, index0, index0, qs)
  {
    assert v[..0] == [];
  }

  lemma {:induction false} FlattenSnoc(v: seq<Level>, k: nat)
    requires k < |v|
    ensures forall id :: HasId(Flatten(v[..k + 1]), id) <==> HasId(Flatten(v[..k]), id) || HasId(v[k].queue, id)
  {
    var a, q := Flatten(v[..k]), v[k].queue;
    assert v[..k + 1] == v[..k] + [v[k]] + [];
    FlattenAround(v[..k], v[k], []);
    assert Flatten(v[..k + 1]) == a + q;
    forall id
      ensures HasId(a + q, id) <==> HasId(a, id) || HasId(q, id)
    {
      if i :| 0 <= i < |a| && a[i].id == id { assert (a + q)[i].id == id; }
      if i :| 0 <= i < |q| && q[i].id == id { assert (a + q)[|a| + i].id == id; }
      if i :| 0 <= i < |a + q| && (a + q)[i].id == id {
        if i < |a| { assert a[i].id == id; } else { assert q[i - |a|].id == id; }
      }
    }
  }

  /** The ids of a level occur neither earlier in the ladder nor in the index. */
  lemma {:induction false} LevelIsNew(v: seq<Level>, k: nat, index0: map<OrderId, Order>)
    requires k < |v| && Unique(Flatten(v)) && forall id | HasId(Flatten(v), id) :: id !in index0
    ensures forall id | HasId(v[k].queue, id) :: id !in index0 && !HasId(Flatten(v[..k]), id)
    ensures Unique(v[k].queue)
  {
    forall id | HasId(v[k].queue, id)
      ensures id !in index0 && !HasId(Flatten(v[..k]), id) && Unique(v[k].queue)
    {
      FlattenHas(v, k, id);
      OnlyHere(v, k, id);
    }
    if v[k].queue != [] {
      assert HasId(v[k].queue, v[k].queue[0].id);
    }
  }

  method LoadOrders(js: seq<JsonOrder>, symbol: Symbol, index0: map<OrderId, Order>)
      returns (os: seq<Order>, index: map<OrderId, Order>)
    requires Unique(TicketsOf(js, symbol))
    requires forall id | HasId(TicketsOf(js, symbol), id) :: id !in index0
    ensures MirrorsQueue(os, TicketsOf(js, symbol), index, Quantities(index))
    ensures forall id | id in index0 :: id in index && index[id] == index0[id]
    ensures forall id :: id in index <==> id in index0 || HasId(TicketsOf(js, symbol), id)
    ensures forall id | id in index && id !in index0 :: fresh(index[id]) && index[id].id == id
  {
    ghost var q := TicketsOf(js, symbol);
    os, index := [], index0;
    for k := 0 to |js|
      invariant |os| == k
      invariant forall i | 0 <= i < k :: q[i].id in index && os[i] == index[q[i].id] && os[i].View() == q[i]
      invariant forall id | id in index0 :: id in index && index[id] == index0[id]
      invariant forall id | id in index && id !in index0 :: fresh(index[id]) && index[id].id == id && HasId(q, id)
      invariant forall i | k <= i < |q| :: q[i].id !in index
    {
      var o := js[k];
      var order := new Order(o.id, symbol, o.side, o.kind, o.price, o.quantity);
      assert q[k].id == o.id && HasId(q, o.id);
      os := os + [order];
      index := index[o.id := order];
    }
  }

  /** Saving a valid book always gives a loadable value; loading it into a book of the same symbol gives
      back the same reference book exactly when all orders carry that symbol, as the engine's do. */
  lemma {:induction false} SavedBooksLoad(book: OrderBook, j: JsonBook)
    requires book.Valid() && j == JsonBook(book.symbol, JsonLevels(book.bids), JsonLevels(book.asks))
    requires SymbolsAre(book.bids, book.symbol) && SymbolsAre(book.asks, book.symbol)
    ensures Describes(j, book.symbol)
    ensures Described(j, book.symbol) == book.Flat()
  {
    RoundTrip(book.bids, book.symbol);
    RoundTrip(book.asks, book.symbol);
    assert SideOk(BUY, book.Levels(BUY), book.Image().View(BUY), book.orderMap, Quantities(book.orderMap));
    assert SideOk(SELL, book.Levels(SELL), book.Image().View(SELL), book.orderMap, Quantities(book.orderMap));
  }

  lemma {:induction false} QueueInFlatten(v: seq<Level>, i: nat, j: nat)
    requires i < |v| && j < |v[i].queue|
    ensures v[i].queue[j] in Flatten(v)
  {
    if i > 0 {
      QueueInFlatten(v[1..], i - 1, j);
    }
  }

  /** In every reachable state, every book survives saving and loading. */
  lemma {:induction false} RunBooksRoundTrip(c0: Core, es: seq<Event>, s: Symbol, bids: seq<Level>, asks: seq<Level>)
    requires Invariant(c0) && AllOwn(c0.books) && Run(c0, es) && s in State(c0, es).books
    requires Flatten(bids) == State(c0, es).books[s].bids && Flatten(asks) == State(c0, es).books[s].asks
    ensures LevelsOf(JsonLevels(bids), s) == bids && LevelsOf(JsonLevels(asks), s) == asks
  {
    hide State, Run, Invariant;
    RunsOwn(c0, es);
    OwnLevels(bids, s);
    OwnLevels(asks, s);
    RoundTrip(bids, s);
    RoundTrip(asks, s);
  }

  lemma {:induction false} OwnLevels(v: seq<Level>, s: Symbol)
    requires Own(Flatten(v), s)
    ensures SymbolsAre(v, s)
  {
    forall i, j | 0 <= i < |v| && 0 <= j < |v[i].queue|
      ensures v[i].queue[j].symbol == s
    {
      QueueInFlatten(v, i, j);
    }
  }

  // ----- The compact form

  datatype CompactBook = CompactBook(symbol: Symbol, bids: seq<DepthEntry>, asks: seq<DepthEntry>)

  method SaveCompact(book: OrderBook) returns (c: CompactBook)
    requires book.Valid()
    ensures c == CompactBook(book.symbol, Top(book.Flat().bids, 100), Top(book.Flat().asks, 100))
  {
    var bids := book.GetTop(BUY, 100);
    var asks := book.GetTop(SELL, 100);
    c := CompactBook(book.symbol, bids, asks);
  }

  function LevelId(s: Side, i: nat): OrderId {
    if s.BUY? then BidLevelId(i) else AskLevelId(i)
  }

  /** The one order that stands for level `i`. */
  function LevelOrder(s: Side, symbol: Symbol, d: seq<DepthEntry>, i: nat): Ticket
    requires i < |d|
  {
    Ticket(LevelId(s, i), symbol, s, LIMIT, d[i].price, d[i].qty)
  }

  function OnePerLevel(s: Side, symbol: Symbol, d: seq<DepthEntry>): (r: seq<Ticket>)
    ensures |r| == |d|
    ensures forall i | 0 <= i < |d| :: r[i] == LevelOrder(s, symbol, d, i)
  {
    seq(|d|, i requires 0 <= i < |d| => LevelOrder(s, symbol, d, i))
  }

  /** Levels as saved: positive quantities, best price first. */
  ghost predicate Ranked(s: Side, d: seq<DepthEntry>) {
    (forall i | 0 <= i < |d| :: d[i].qty > 0.0) && StrictlySorted(s, d)
  }

  /** Inserting behind a whole list. */
  lemma {:induction false} InsertLast(l: seq<Ticket>, t: Ticket)
    requires forall i | 0 <= i < |l| :: AtLeastAsGood(t.side, l[i].price, t.price)
    ensures Insert(l, t) == l + [t]
  {
    InsertSkips(l, [], t);
    assert l + [] == l && l + [t] + [] == l + [t];
  }

  method LoadCompact(c: CompactBook) returns (book: OrderBook)
    requires Ranked(BUY, c.bids) && Ranked(SELL, c.asks)
    ensures fresh(book) && book.Valid() && book.symbol == c.symbol
    ensures book.Flat() == Book(OnePerLevel(BUY, c.symbol, c.bids), OnePerLevel(SELL, c.symbol, c.asks))
    ensures |book.Flat().bids| == |c.bids| && |book.Flat().asks| == |c.asks|
    ensures forall i | 0 <= i < |c.bids| ::
              book.Flat().bids[i] == Ticket(BidLevelId(i), c.symbol, BUY, LIMIT, c.bids[i].price, c.bids[i].qty)
    ensures forall i | 0 <= i < |c.asks| ::
              book.Flat().asks[i] == Ticket(AskLevelId(i), c.symbol, SELL, LIMIT, c.asks[i].price, c.asks[i].qty)
  {
    book := new OrderBook(c.symbol);
    AddLevels(book, BUY, c.bids);
    AddLevels(book, SELL, c.asks);
  }

  method AddLevels(book: OrderBook, s: Side, d: seq<DepthEntry>)
    requires book.Valid() && Ranked(s, d) && book.Flat().On(s) == []
    requires forall i: nat :: LevelId(s, i) !in book.orderMap
    modifies book
    ensures book.Valid()
    ensures book.Flat() == old(book.Flat()).With(s, OnePerLevel(s, book.symbol, d))
    ensures forall i: nat :: LevelId(s.Opposite(), i) in book.orderMap <==>
            LevelId(s.Opposite(), i) in old(book.orderMap)
  {
    hide Consistent, Insert, Flatten;
    ghost var all, before := OnePerLevel(s, book.symbol, d), book.Flat();
    assert all[..0] == [];
    for idx := 0 to |d|
      invariant book.Valid()
      invariant book.Flat() == before.With(s, all[..idx])
      invariant forall i: nat | i >= idx :: LevelId(s, i) !in book.orderMap
      invariant forall i: nat :: LevelId(s.Opposite(), i) in book.orderMap <==>
                LevelId(s.Opposite(), i) in old(book.orderMap)
    {
      var order := new Order(LevelId(s, idx), book.symbol, s, LIMIT, d[idx].price, d[idx].qty);
      InsertLast(all[..idx], order.View());
      assert all[..idx + 1] == all[..idx] + [all[idx]];
      book.AddOrder(order);
    }
    assert all[..|d|] == all;
  }

  // ----- What the compact form keeps

  /** The orders of `c` stand for the levels `d`. */
  ghost predicate StandsFor(c: seq<Ticket>, d: seq<DepthEntry>) {
    |c| == |d| && forall i | 0 <= i < |d| :: c[i].price == d[i].price && c[i].qty == d[i].qty
  }

  lemma {:induction false} GroupOfOnePerLevel(s: Side, c: seq<Ticket>, d: seq<DepthEntry>)
    requires StandsFor(c, d) && Ranked(s, d)
    ensures Group(c) == d
  {
    if d != [] {
      assert forall i | 0 <= i < |d| - 1 :: c[1..][i] == c[i + 1] && d[1..][i] == d[i + 1];
      GroupOfOnePerLevel(s, c[1..], d[1..]);
      assert d == [d[0]] + d[1..];
    }
  }

  /** The reloaded side has the saved depth, which is the whole depth if and only if the side has at
      most a hundred levels. */
  lemma {:induction false} CompactKeepsDepth(s: Side, symbol: Symbol, l: seq<Ticket>)
    requires Queue(s, l)
    ensures Ranked(s, Top(l, 100))
    ensures var c := OnePerLevel(s, symbol, Top(l, 100));
            && Group(c) == Top(l, 100)
            && (Group(c) == Group(l) <==> |Group(l)| <= 100)
  {
    GroupSorted(s, l);
    GroupPositive(l);
    GroupOfOnePerLevel(s, OnePerLevel(s, symbol, Top(l, 100)), Top(l, 100));
  }

  /** Quantity traded at one price. */
  function TradedAt(fills: seq<Fill>, p: real): real {
    if fills == [] then 0.0 else (if fills[0].maker.price == p then fills[0].qty else 0.0) + TradedAt(fills[1..], p)
  }

  lemma {:induction false} TradedAtCons(f: Fill, fills: seq<Fill>, p: real)
    ensures TradedAt([f] + fills, p) == (if f.maker.price == p then f.qty else 0.0) + TradedAt(fills, p)
  {
    assert ([f] + fills)[1..] == fills;
  }

  /** Two executions that trade the same at every price. */
  ghost predicate SamePrices(r: Outcome, u: Outcome) {
    r.left == u.left && forall p :: TradedAt(r.fills, p) == TradedAt(u.fills, p)
  }

  /** Sweeping the orders of a side or one order per level trades the same at every price. */
  lemma {:induction false} SweepByLevels(l: seq<Ticket>, c: seq<Ticket>, t: Ticket, q: real)
    requires Positive(l) && StandsFor(c, Group(l))
    ensures SamePrices(Sweep(l, t, q), Sweep(c, t, q))
    decreases |l|, 1
  {
    hide Accepts, Group, StandsFor, Positive;
    if l == [] {
      assert c == [] by { StandsForNothing(c); }
    } else {
      HeadLevel(l, c);
      if q > 0.0 && Accepts(t, l[0].price) {
        if Group(l[1..]) != [] && Group(l[1..])[0].price == l[0].price {
          SweepSharedLevel(l, c, t, q);
        } else {
          SweepByLevels(l[1..], c[1..], t, q - l[0].qty);
          SweepOwnLevel(l, c, t, q);
        }
      }
    }
  }

  lemma {:induction false} StandsForNothing(c: seq<Ticket>)
    requires StandsFor(c, Group([]))
    ensures c == []
  {
  }

  lemma {:induction false} HeadLevel(l: seq<Ticket>, c: seq<Ticket>)
    requires l != [] && Positive(l) && StandsFor(c, Group(l))
    ensures c != [] && c[0].price == l[0].price && Positive(l[1..]) && l[0].qty > 0.0
    ensures !(Group(l[1..]) != [] && Group(l[1..])[0].price == l[0].price) ==>
              c[0].qty == l[0].qty && StandsFor(c[1..], Group(l[1..]))
  {
    var g := Group(l[1..]);
    if !(g != [] && g[0].price == l[0].price) {
      assert Group(l)[0].qty == l[0].qty && Group(l)[1..] == g;
      assert forall i | 0 <= i < |g| :: c[1..][i] == c[i + 1] && Group(l)[i + 1] == g[i];
    }
  }

  /** The first order is its whole price level. */
  lemma {:induction false} SweepOwnLevel(l: seq<Ticket>, c: seq<Ticket>, t: Ticket, q: real)
    requires l != [] && c != [] && q > 0.0 && Accepts(t, l[0].price)
    requires c[0].price == l[0].price && c[0].qty == l[0].qty && l[0].qty > 0.0
    requires SamePrices(Sweep(l[1..], t, q - l[0].qty), Sweep(c[1..], t, q - l[0].qty))
    ensures SamePrices(Sweep(l, t, q), Sweep(c, t, q))
  {
    hide Accepts;
    forall p
      ensures TradedAt(Sweep(l, t, q).fills, p) == TradedAt(Sweep(c, t, q).fills, p)
    {
      if l[0].qty <= q {
        TradedAtCons(Fill(l[0], l[0].qty), Sweep(l[1..], t, q - l[0].qty).fills, p);
        TradedAtCons(Fill(c[0], l[0].qty), Sweep(c[1..], t, q - l[0].qty).fills, p);
      } else {
        TradedAtOne(Fill(l[0], q), p);
        TradedAtOne(Fill(c[0], q), p);
      }
    }
  }

  /** The first order shares its price level with the second. */
  lemma {:induction false} SweepSharedLevel(l: seq<Ticket>, c: seq<Ticket>, t: Ticket, q: real)
    requires Positive(l) && StandsFor(c, Group(l)) && l != [] && q > 0.0 && Accepts(t, l[0].price)
    requires Group(l[1..]) != [] && Group(l[1..])[0].price == l[0].price
    ensures SamePrices(Sweep(l, t, q), Sweep(c, t, q))
    decreases |l|, 0
  {
    hide Accepts, Group, StandsFor;
    var x := l[0];
    SharedLevel(l, c);
    var rest := [c[0].(qty := c[0].qty - x.qty)] + c[1..];
    if x.qty <= q {
      SweepByLevels(l[1..], rest, t, q - x.qty);
      SplitMaker(c, t, q, x.qty);
      forall p
        ensures TradedAt(Sweep(l, t, q).fills, p) == TradedAt(Sweep(c, t, q).fills, p)
      {
        TradedAtCons(Fill(x, x.qty), Sweep(l[1..], t, q - x.qty).fills, p);
      }
    } else {
      InsideBoth(l, c, t, q);
    }
  }

  /** Neither first order is used up. */
  lemma {:induction false} InsideBoth(l: seq<Ticket>, c: seq<Ticket>, t: Ticket, q: real)
    requires l != [] && c != [] && c[0].price == l[0].price && Accepts(t, l[0].price) && 0.0 < q < l[0].qty
             && q < c[0].qty
    ensures SamePrices(Sweep(l, t, q), Sweep(c, t, q))
  {
    hide Accepts;
    forall p
      ensures TradedAt(Sweep(l, t, q).fills, p) == TradedAt(Sweep(c, t, q).fills, p)
    {
      TradedAtOne(Fill(l[0], q), p);
      TradedAtOne(Fill(c[0], q), p);
    }
  }

  lemma {:induction false} GroupShared(l: seq<Ticket>)
    requires l != [] && Group(l[1..]) != [] && Group(l[1..])[0].price == l[0].price
    ensures var g := Group(l[1..]); Group(l) == [DepthEntry(l[0].price, l[0].qty + g[0].qty)] + g[1..]
  {
  }

  lemma {:induction false} SharedLevel(l: seq<Ticket>, c: seq<Ticket>)
    requires Positive(l) && StandsFor(c, Group(l)) && l != []
    requires Group(l[1..]) != [] && Group(l[1..])[0].price == l[0].price
    ensures c != [] && c[0].price == l[0].price && 0.0 < l[0].qty < c[0].qty
    ensures StandsFor([c[0].(qty := c[0].qty - l[0].qty)] + c[1..], Group(l[1..])) && Positive(l[1..])
  {
    hide Group;
    var g := Group(l[1..]);
    GroupShared(l);
    GroupPositive(l[1..]);
    assert forall i | 0 < i < |g| :: c[1..][i - 1] == c[i] && Group(l)[i] == g[i];
  }

  lemma {:induction false} TradedAtOne(f: Fill, p: real)
    ensures TradedAt([f], p) == if f.maker.price == p then f.qty else 0.0
  {
    assert [f][1..] == [];
  }

  /** Trading against an order, or against a part of it and then the remainder, is the same at every price. */
  lemma {:induction false} SplitMaker(c: seq<Ticket>, t: Ticket, q: real, part: real)
    requires c != [] && 0.0 < part < c[0].qty && part <= q && Accepts(t, c[0].price)
    ensures var r, u := Sweep(c, t, q), Sweep([c[0].(qty := c[0].qty - part)] + c[1..], t, q - part);
            && r.left == u.left
            && forall p :: TradedAt(r.fills, p) == (if c[0].price == p then part else 0.0) + TradedAt(u.fills, p)
  {
    hide Accepts;
    var rest := [c[0].(qty := c[0].qty - part)] + c[1..];
    assert rest[1..] == c[1..] && rest[0].price == c[0].price;
    var r, u := Sweep(c, t, q), Sweep(rest, t, q - part);
    forall p
      ensures TradedAt(r.fills, p) == (if c[0].price == p then part else 0.0) + TradedAt(u.fills, p)
    {
      if c[0].qty <= q {
        var more := Sweep(c[1..], t, q - c[0].qty).fills;
        assert (q - part) - rest[0].qty == q - c[0].qty;
        TradedAtCons(Fill(c[0], c[0].qty), more, p);
        TradedAtCons(Fill(rest[0], rest[0].qty), more, p);
      } else {
        TradedAtOne(Fill(c[0], q), p);
        TradedAtOne(Fill(rest[0], q - part), p);
      }
    }
  }

  lemma {:induction false} GroupPositive(l: seq<Ticket>)
    requires Positive(l)
    ensures forall i | 0 <= i < |Group(l)| :: Group(l)[i].qty > 0.0
  {
    if l != [] {
      TailPositive(l);
      GroupPositive(l[1..]);
    }
  }

  /** On a side of at most a hundred levels, a MARKET or IOC order trades the same quantity at each price
      against the reloaded book as against the original. */
  lemma {:induction false} CompactKeepsSweeps(b: Book, symbol: Symbol, t: Ticket)
    requires WellFormed(b) && (t.kind.MARKET? || t.kind.IOC?)
    requires |Group(b.On(t.side.Opposite()))| <= 100
    ensures var c := Book(OnePerLevel(BUY, symbol, Top(b.bids, 100)),
            OnePerLevel(SELL, symbol, Top(b.asks, 100)));
            && Process(b, t).left == Process(c, t).left
            && forall p :: TradedAt(Process(b, t).fills, p) == TradedAt(Process(c, t).fills, p)
  {
    var s := t.side.Opposite();
    SweepByLevels(b.On(s), OnePerLevel(s, symbol, Top(b.On(s), 100)), t, t.qty);
  }
}
