/** src/engine/order_book.cpp: the two-level book with its id index.

    The sorted maps of price levels are sequences in key order; both maps, a level's list and the
    index share the same `Order` objects. Each method is proved against the flat reference book. */
module Books {
  import opened Orders
  import opened FlatBook
  import opened Ladder
  import opened Resizing
  import opened BookShapes
  import opened Fees

  /** Collecting from an acceptable level and then from the levels behind it. */
  lemma {:induction false} CappedAppend(queue: seq<Ticket>, tail: seq<Ticket>, t: Ticket, rem: real)
    requires forall j | 0 <= j < |queue| :: Accepts(t, queue[j].price)
    ensures var taken := Capped(queue, t, rem);
            Capped(queue + tail, t, rem) == taken + Capped(tail, t, rem - Depth(taken))
  {
    hide Accepts;
    if queue == [] {
      assert queue + tail == tail;
    } else if rem > 0.0 {
      CappedAppend(queue[1..], tail, t, rem - queue[0].qty);
      assert queue == [queue[0]] + queue[1..];
      CappedAppendCons(queue[0], queue[1..], tail, t, rem);
    }
  }

  lemma {:induction false} CappedAppendCons(x: Ticket, rest: seq<Ticket>, tail: seq<Ticket>, t: Ticket, rem: real)
    requires rem > 0.0 && Accepts(t, x.price)
    requires var taken := Capped(rest, t, rem - x.qty);
             Capped(rest + tail, t, rem - x.qty) == taken + Capped(tail, t, rem - x.qty - Depth(taken))
    ensures var taken := Capped([x] + rest, t, rem);
            Capped([x] + rest + tail, t, rem) == taken + Capped(tail, t, rem - Depth(taken))
  {
    hide Capped, Depth, Accepts;
    var taken := Capped(rest, t, rem - x.qty);
    var more := Capped(tail, t, rem - x.qty - Depth(taken));
    assert [x] + rest + tail == [x] + (rest + tail);
    CappedCons(x, rest, t, rem);
    CappedCons(x, rest + tail, t, rem);
    DepthCons(x, taken);
    assert rem - Depth([x] + taken) == rem - x.qty - Depth(taken);
    assert [x] + (taken + more) == ([x] + taken) + more;
  }

  lemma {:induction false} CappedCons(x: Ticket, rest: seq<Ticket>, t: Ticket, rem: real)
    requires rem > 0.0 && Accepts(t, x.price)
    ensures Capped([x] + rest, t, rem) == [x] + Capped(rest, t, rem - x.qty)
  {
    assert ([x] + rest)[1..] == rest;
  }

  lemma {:induction false} DepthCons(x: Ticket, l: seq<Ticket>)
    ensures Depth([x] + l) == x.qty + Depth(l)
  {
    assert ([x] + l)[1..] == l;
  }

  lemma {:induction false} CollectStep(whole: seq<Ticket>, found: seq<Ticket>, queue: seq<Ticket>, tail: seq<Ticket>,
                                       t: Ticket, rem: real)
    requires whole == found + Capped(queue + tail, t, rem)
    requires forall j | 0 <= j < |queue| :: Accepts(t, queue[j].price)
    ensures var taken := Capped(queue, t, rem); whole == (found + taken) + Capped(tail, t, rem - Depth(taken))
  {
    CappedAppend(queue, tail, t, rem);
    hide Capped, Depth, Accepts;
    var taken := Capped(queue, t, rem);
    var more := Capped(tail, t, rem - Depth(taken));
    assert found + (taken + more) == (found + taken) + more;
  }

  class OrderBook {
    const symbol: Symbol
    var buyLevels: seq<PriceLevel>
    var sellLevels: seq<PriceLevel>
    var orderMap: map<OrderId, Order>
    ghost var bids: seq<Level>
    ghost var asks: seq<Level>

    ghost predicate Valid()
      reads this, orderMap.Values
    {
      Consistent(Image(), orderMap, Quantities(orderMap))
    }

    /** Each side's levels, queues and totals agree with the objects that the index holds. */
    ghost predicate Readable()
      reads this, orderMap.Values
    {
      SidesOk(Image(), orderMap, Quantities(orderMap))
    }

    lemma {:induction false} ValidIsReadable()
      requires Valid()
      ensures Readable()
    {
    }

    lemma {:induction false} FlatIsWellFormed()
      requires Valid()
      ensures WellFormed(Flat())
    {
    }

    ghost function Image(): Shape
      reads this
    {
      Shape(buyLevels, sellLevels, bids, asks)
    }

    /** The reference book this book refines. */
    ghost function Flat(): Book
      reads this
    {
      Image().Flat()
    }

    constructor (symbol: Symbol)
      ensures Valid() && this.symbol == symbol
      ensures Flat() == EMPTY && orderMap == map[]
    {
      this.symbol := symbol;
      buyLevels, sellLevels, orderMap := [], [], map[];
      bids, asks := [], [];
    }

    /** One of the two maps: the source writes each branch out. */
    function Levels(s: Side): seq<PriceLevel>
      reads this
    {
      if s.BUY? then buyLevels else sellLevels
    }

    method SetLevels(s: Side, ls: seq<PriceLevel>, ghost view: seq<Level>)
      modifies this
      ensures Image() == old(Image()).With(s, ls, view)
      ensures orderMap == old(orderMap)
    {
      if s.BUY? {
        buyLevels, bids := ls, view;
      } else {
        sellLevels, asks := ls, view;
      }
    }

    /** Files an order behind its price level and indexes it. The book stays consistent exactly when
        the order's quantity is positive and its id was not indexed yet. */
    method AddOrder(order: Order)
      requires Valid()
      modifies this
      ensures Valid() <==> order.quantity > 0.0 && order.id !in old(orderMap)
      ensures Flat() == Add(old(Flat()), order.View())
      ensures Levels(order.side) == Filed(order.side, old(Levels(order.side)), order, order.quantity)
      ensures Levels(order.side.Opposite()) == old(Levels(order.side.Opposite()))
      ensures orderMap == old(orderMap)[order.id := order]
    {
      hide Consistent, SideOk, Flatten, Insert, Filed;
      var s := order.side;
      ghost var qs, was := Quantities(orderMap), orderMap;
      ghost var before := Image();
      SideIsOk(s);
      var ls, v := AddToSide(Levels(s), order, Image().View(s), orderMap, qs);
      SetLevels(s, ls, v);
      orderMap := orderMap[order.id := order];
      QuantitiesAdd(was, order);
      if order.quantity > 0.0 && order.id !in was {
        ReadyToAdd(before, was, qs, order, order.quantity);
        SideAdd(s, before.Levels(s), before.View(s), orderMap, Quantities(orderMap), order, v);
        ConsistentAdd(before, was, qs, order, order.quantity, ls, v);
      } else {
        AddBreaks(before, was, qs, order);
      }
    }

    lemma {:induction false} SideIsOk(s: Side)
      requires Valid()
      ensures SideOk(s, Levels(s), Image().View(s), orderMap, Quantities(orderMap))
    {
    }

    /** A second order under an indexed id, or one without a positive quantity, breaks the book. */
    lemma {:induction false} AddBreaks(before: Shape, was: map<OrderId, Order>, qs: map<OrderId, real>, order: Order)
      requires Consistent(before, was, qs) && (order.quantity <= 0.0 || order.id in was)
      requires orderMap == was[order.id := order] && Flat() == Add(before.Flat(), order.View())
      ensures !Valid()
    {
      IndexedPositive(order.id);
      if order.id in was {
        assert Rests(before.Flat(), order.id);
        AddDuplicate(before.Flat(), order.View());
      }
    }

    /** Finds or creates the order's level and appends the order to it. */
    static method AddToSide(ls0: seq<PriceLevel>, order: Order, ghost v0: seq<Level>, ghost index: map<OrderId, Order>,
                            ghost qs: map<OrderId, real>)
        returns (ls: seq<PriceLevel>, ghost v: seq<Level>)
      requires SideOk(order.side, ls0, v0, index, qs)
      ensures ls == Filed(order.side, ls0, order, order.quantity)
      ensures v == FiledView(order.side, ls0, v0, order.View()) && Flatten(v) == Insert(Flatten(v0), order.View())
    {
      hide MirrorsQueue, LevelOk, Flatten, Insert;
      var s, p := order.side, order.price;
      ls := ls0;
      FiledIs(s, ls0, v0, index, qs, order.View());
      v := FiledView(s, ls0, v0, order.View());
      var it := Find(ls, p);
      if it == |ls| {
        it := LowerBound(s, ls, p);
        EmplaceThenAppend(ls0, order, order.quantity, it);
        ls := ls[..it] + [PriceLevel(p, [], 0.0)] + ls[it..];
      }
      ls := Append(ls, it, order, order.quantity);
    }

    /** The level of an indexed order. */
    function LevelOf(order: Order): nat
      reads this
    {
      Find(Levels(order.side), order.price)
    }

    /** Stores back the levels with the adjusted total of an order whose quantity becomes `q`. */
    method Resize(order: Order, stored: seq<PriceLevel>, ghost total: real, q: real)
      requires Valid() && order.id in orderMap && orderMap[order.id] == order
      requires LevelOf(order) < |Levels(order.side)|
      requires total == Levels(order.side)[LevelOf(order)].totalQuantity - order.quantity + q
      requires stored == var ls, it := Levels(order.side), LevelOf(order);
                         var kept := ls[it := ls[it].(totalQuantity := total)];
                         if total <= 0.0 then Erase(kept, order.price) else kept
      modifies this, order
      ensures Flat() == Resized(old(Flat()), order.id, q)
      ensures orderMap == old(orderMap) && order.quantity == q && Readable()
      ensures q > 0.0 ==> Valid() && Flat() == Modify(old(Flat()), order.id, q)
    {
      hide Consistent, SidesOk, Flatten, SetQty, Resized, Modify, Erase, DropPrice;
      var id, s, it := order.id, order.side, LevelOf(order);
      ghost var sh, qs := Image(), Quantities(orderMap);
      Sizes(sh, orderMap, qs, s);
      SizeIs(id);
      ghost var after := if total <= 0.0 then CutShape(sh, s, it) else SetShape(sh, s, it, id, q, total);
      ResizedShape(sh, orderMap, qs, id, q, s, it, total);
      EraseAt(Levels(s), it, Levels(s)[it].(totalQuantity := total));
      assert forall x | x in orderMap && x != id :: orderMap[x] != order;
      SetLevels(s, stored, after.View(s));
      order.ModifyQuantity(q);
      QuantitiesAre(orderMap, qs[id := q]);
      assert Image() == after;
    }

    /** Removes an order from its level and from the index, erasing the level if it was the last. */
    method TakeOut(order: Order, total: real)
      requires Valid() && order.id in orderMap && orderMap[order.id] == order
      requires LevelOf(order) < |Levels(order.side)|
      requires total == Levels(order.side)[LevelOf(order)].totalQuantity - order.quantity
      modifies this
      ensures Valid()
      ensures Flat() == Cancel(old(Flat()), order.id)
      ensures orderMap == old(orderMap) - {order.id}
    {
      hide Consistent, Flatten, Without;
      var id, s, it, ls := order.id, order.side, LevelOf(order), Levels(order.side);
      ghost var v, qs := Image().View(s), Quantities(orderMap);
      Sizes(Image(), orderMap, qs, s);
      ConsistentRemove(Image(), orderMap, qs, id, s, it, total);
      QuantitiesRemove(orderMap, id);
      var level := PriceLevel(ls[it].price, RemoveById(ls[it].orders, id), total);
      SetLevels(s, StoreLevel(ls, it, level), Store(v, it, Level(v[it].price, Without(v[it].queue, id), total)));
      orderMap := orderMap - {id};
      assert Quantities(orderMap) == qs - {id};
    }

    /** What the methods below need to know about an indexed order. */
    lemma {:induction false} Indexed(id: OrderId)
      requires Valid() && id in orderMap
      ensures var order := orderMap[id];
              && order.id == id && order.quantity > 0.0
              && LevelOf(order) < |Levels(order.side)|
              && Levels(order.side)[LevelOf(order)].totalQuantity >= order.quantity
    {
      Position(Image(), orderMap, Quantities(orderMap), id);
    }

    lemma {:induction false} IndexedDecrease(id: OrderId, amount: real)
      requires Valid() && id in orderMap
      ensures var q := orderMap[id].quantity - amount;
              Decrease(Flat(), id, amount) == if q <= 0.0 then Cancel(Flat(), id) else Modify(Flat(), id, q)
    {
      var order := orderMap[id];
      Position(Image(), orderMap, Quantities(orderMap), id);
      DecreaseIs(Image(), orderMap, Quantities(orderMap), id, order.side, LevelOf(order), amount);
    }

    lemma {:induction false} IndexedPositive(id: OrderId)
      requires id in orderMap
      ensures Valid() ==> orderMap[id].quantity > 0.0
    {
      if Valid() { Indexed(id); }
    }

    /** Returns false where the source throws "Order not found". Any quantity is accepted; the level is
        erased when its total is no longer positive. The book stays consistent exactly when there was
        nothing to modify or the quantity is positive. */
    method ModifyOrder(orderId: OrderId, newQuantity: real) returns (ok: bool)
      requires Valid()
      modifies this, orderMap.Values
      ensures ok <==> Rests(old(Flat()), orderId)
      ensures Flat() == Resized(old(Flat()), orderId, newQuantity)
      ensures orderMap == old(orderMap) && Readable()
      ensures ok ==> orderMap[orderId].quantity == newQuantity
      ensures Valid() <==> !ok || newQuantity > 0.0
      ensures newQuantity > 0.0 ==> Flat() == Modify(old(Flat()), orderId, newQuantity)
    {
      if orderId !in orderMap {
        NotResting(orderId, newQuantity);
        return false;
      }
      var order := orderMap[orderId];
      Indexed(orderId);
      var ls, p, it := Levels(order.side), order.price, LevelOf(order);
      var total := ls[it].totalQuantity - order.quantity + newQuantity;
      ls := ls[it := ls[it].(totalQuantity := total)];
      if total <= 0.0 { ls := Erase(ls, p); }
      Resize(order, ls, total, newQuantity);
      IndexedPositive(orderId);
      return true;
    }

    lemma {:induction false} NotResting(id: OrderId, q: real)
      requires Valid() && id !in orderMap
      ensures !Rests(Flat(), id) && Resized(Flat(), id, q) == Flat() && Modify(Flat(), id, q) == Flat()
    {
      assert !Rests(Flat(), id);
      ResizedAbsent(Flat(), id, q);
      SetQtyAbsent(Flat().bids, id, q);
      SetQtyAbsent(Flat().asks, id, q);
    }

    lemma {:induction false} SizeIs(id: OrderId)
      requires Valid() && id in orderMap
      ensures IsAt(Image(), orderMap, Quantities(orderMap), id, orderMap[id].side, LevelOf(orderMap[id]))
      ensures Levels(orderMap[id].side)[LevelOf(orderMap[id])].price == orderMap[id].price
    {
      Position(Image(), orderMap, Quantities(orderMap), id);
    }

    method CancelOrder(orderId: OrderId) returns (ok: bool)
      requires Valid()
      modifies this
      ensures Valid()
      ensures ok <==> Rests(old(Flat()), orderId)
      ensures Flat() == if ok then Cancel(old(Flat()), orderId) else old(Flat())
      ensures orderMap == old(orderMap) - {orderId}
    {
      if orderId !in orderMap { return false; }
      var order := orderMap[orderId];
      Indexed(orderId);
      TakeOut(order, Levels(order.side)[LevelOf(order)].totalQuantity - order.quantity);
      return true;
    }

    /** Returns what is left of the order. The clamp on the level total is never needed. */
    method DecreaseOrderQuantity(orderId: OrderId, amount: real) returns (newQty: real)
      requires Valid()
      modifies this, orderMap.Values
      ensures Valid()
      ensures Flat() == Decrease(old(Flat()), orderId, amount)
      ensures orderId !in old(orderMap) ==> newQty == 0.0 && Flat() == old(Flat())
      ensures orderId in old(orderMap) ==> newQty == Max(0.0, old(orderMap[orderId].quantity) - amount)
      ensures orderMap == if newQty > 0.0 then old(orderMap) else old(orderMap) - {orderId}
      ensures orderMap.Values <= old(orderMap.Values)
    {
      if orderId !in orderMap {
        assert !Rests(Flat(), orderId);
        return 0.0;
      }
      hide Consistent, Decrease, Cancel, Modify, Resized;
      var order := orderMap[orderId];
      Indexed(orderId);
      IndexedDecrease(orderId, amount);
      var oldQty := order.quantity;
      newQty := oldQty - amount;
      if newQty < 0.0 { newQty := 0.0; }
      var ls, it := Levels(order.side), LevelOf(order);
      var total := ls[it].totalQuantity - (oldQty - newQty);
      assert total >= 0.0;
      if total < 0.0 { total := 0.0; }
      StoreDecreased(order, total, newQty);
    }

    /** Removes an order of which nothing is left, or stores the new quantity and total. */
    method StoreDecreased(order: Order, total: real, newQty: real)
      requires Valid() && order.id in orderMap && orderMap[order.id] == order
      requires LevelOf(order) < |Levels(order.side)| && newQty >= 0.0
      requires total == Levels(order.side)[LevelOf(order)].totalQuantity - (order.quantity - newQty)
      requires newQty > 0.0 ==> total > 0.0
      modifies this, order
      ensures Valid()
      ensures Flat() == if newQty <= 0.0 then Cancel(old(Flat()), order.id) else Modify(old(Flat()), order.id, newQty)
      ensures orderMap == if newQty > 0.0 then old(orderMap) else old(orderMap) - {order.id}
    {
      hide Consistent, Cancel, Modify, Resized, SidesOk;
      if newQty <= 0.0 {
        TakeOut(order, total);
      } else {
        var ls, it := Levels(order.side), LevelOf(order);
        Resize(order, ls[it := ls[it].(totalQuantity := total)], total, newQty);
      }
    }

    /** The object behind the best order of a side. */
    lemma {:induction false} HeadObject(s: Side)
      requires Valid() && Flat().On(s) != []
      ensures var head := Flat().On(s)[0]; head.id in orderMap && orderMap[head.id].View() == head
    {
      var v := Image().View(s);
      assert SideOk(s, Levels(s), v, orderMap, Quantities(orderMap));
      assert LevelOk(v[0]) && Flatten(v)[0] == v[0].queue[0];
    }

    /** The index files every object under its own id. */
    lemma {:induction false} NotIndexed(order: Order)
      requires Valid() && order.id !in orderMap
      ensures order !in orderMap.Values
    {
    }

    predicate HasMatchingOrders(order: Order)
      reads this
    {
      var ls := Levels(order.side.Opposite());
      && ls != []
      && (order.kind.MARKET? || if order.side.BUY? then ls[0].price <= order.price else ls[0].price >= order.price)
    }

    /** Looking at the best opposite price alone decides whether anything can be matched. */
    lemma {:induction false} HasMatchingOrdersMeans(order: Order)
      requires Readable()
      ensures var opp := Flat().On(order.side.Opposite());
              HasMatchingOrders(order) <==> opp != [] && Accepts(order.View(), opp[0].price)
    {
      var s := order.side.Opposite();
      var v := Image().View(s);
      assert SideOk(s, Levels(s), v, orderMap, Quantities(orderMap));
      if v != [] {
        assert LevelOk(v[0]) && Flatten(v)[0] == v[0].queue[0];
      }
    }

    /** The candidates: objects of acceptable opposite orders, in priority order, until their
        quantities add up to the incoming order's own quantity. */
    method GetMatchingOrders(incoming: Order) returns (matches: seq<Order>)
      requires Readable()
      ensures MirrorsQueue(matches, Capped(Flat().On(incoming.side.Opposite()), incoming.View(), incoming.quantity),
                           orderMap, Quantities(orderMap))
    {
      var s := incoming.side.Opposite();
      assert SideOk(s, Levels(s), Image().View(s), orderMap, Quantities(orderMap));
      matches := CollectLevels(Levels(s), incoming, s, Image().View(s), orderMap);
    }

    /** The outer loop, over the levels of the opposite side. */
    static method CollectLevels(ls: seq<PriceLevel>, incoming: Order, ghost s: Side, ghost v: seq<Level>,
                                ghost index: map<OrderId, Order>)
        returns (matches: seq<Order>)
      requires SideOk(s, ls, v, index, Quantities(index))
      ensures MirrorsQueue(matches, Capped(Flatten(v), incoming.View(), incoming.quantity), index, Quantities(index))
    {
      ghost var t, qs := incoming.View(), Quantities(index);
      ghost var found: seq<Ticket> := [];
      matches := [];
      var remaining := incoming.quantity;
      var k := 0;
      CollectedNone(v, t, index, qs);
      hide SideOk, MirrorsQueue, Collected, Capped, Flatten, Depth, Quantities, Accepts;
      while k < |ls|
        invariant k <= |ls| == |v|
        invariant MirrorsQueue(matches, found, index, qs) && Collected(v, t, k, found, remaining)
      {
        var level := ls[k];
        LevelStep(s, ls, v, index, qs, t, k, found, remaining);
        AcceptsIs(incoming, level.price);
        if !incoming.kind.MARKET? {
          if (if incoming.side.BUY? then level.price > incoming.price else level.price < incoming.price) { return; }
        }
        ghost var more := Capped(v[k].queue, t, remaining);
        matches, remaining := CollectLevel(level.orders, t, matches, remaining, v[k].queue, found, index);
        found := found + more;
        k := k + 1;
      }
      NothingMore(v, t, found, remaining);
    }

    /** What was found in the first `k` levels, and what is still to come. */
    static ghost predicate Collected(v: seq<Level>, t: Ticket, k: nat, found: seq<Ticket>, remaining: real)
      requires k <= |v|
    {
      Capped(Flatten(v), t, t.qty) == found + Capped(Flatten(v[k..]), t, remaining)
    }

    /** The next level: nothing more is found if it is not acceptable, else its orders and then those behind it. */
    static lemma {:induction false} LevelStep(s: Side, ls: seq<PriceLevel>, v: seq<Level>, index: map<OrderId, Order>,
                                              qs: map<OrderId, real>, t: Ticket, k: nat, found: seq<Ticket>,
                                                remaining: real)
      requires SideOk(s, ls, v, index, qs) && k < |ls| == |v| && Collected(v, t, k, found, remaining)
      ensures MirrorsQueue(ls[k].orders, v[k].queue, index, qs)
      ensures if !Accepts(t, ls[k].price) then Capped(Flatten(v), t, t.qty) == found
              else var more := Capped(v[k].queue, t, remaining);
                   && (forall j | 0 <= j < |v[k].queue| :: Accepts(t, v[k].queue[j].price))
                   && Collected(v, t, k + 1, found + more, remaining - Depth(more))
    {
      LevelFacts(s, ls, v, index, qs, t, k);
      var tail := Flatten(v[k + 1..]);
      hide SideOk, MirrorsQueue, Flatten, Accepts;
      if Accepts(t, ls[k].price) {
        CollectStep(Capped(Flatten(v), t, t.qty), found, v[k].queue, tail, t, remaining);
      } else {
        assert Capped(v[k].queue + tail, t, remaining) == [] && found + [] == found;
      }
    }

    static lemma {:induction false} LevelFacts(s: Side, ls: seq<PriceLevel>, v: seq<Level>, index: map<OrderId, Order>,
                                               qs: map<OrderId, real>, t: Ticket, k: nat)
      requires SideOk(s, ls, v, index, qs) && k < |ls| == |v|
      ensures MirrorsQueue(ls[k].orders, v[k].queue, index, qs)
      ensures Flatten(v[k..]) == v[k].queue + Flatten(v[k + 1..])
      ensures v[k].queue != [] && forall j | 0 <= j < |v[k].queue| :: v[k].queue[j].price == ls[k].price
    {
      assert v[k..][1..] == v[k + 1..];
      assert LevelOk(v[k]);
    }

    static lemma {:induction false} AcceptsIs(incoming: Order, p: real)
      ensures Accepts(incoming.View(), p) <==>
              incoming.kind.MARKET? || !(if incoming.side.BUY? then p > incoming.price else p < incoming.price)
    {
    }

    static lemma {:induction false} CollectedNone(v: seq<Level>, t: Ticket, index: map<OrderId, Order>,
                                                  qs: map<OrderId, real>)
      ensures MirrorsQueue([], [], index, qs) && Collected(v, t, 0, [], t.qty)
    {
      assert v[0..] == v;
    }

    static lemma {:induction false} NothingMore(v: seq<Level>, t: Ticket, found: seq<Ticket>, remaining: real)
      requires Collected(v, t, |v|, found, remaining)
      ensures Capped(Flatten(v), t, t.qty) == found
    {
      assert v[|v|..] == [] && found + [] == found;
    }

    /** The inner loop, over one acceptable level: takes orders until the quantity is covered. */
    static method CollectLevel(orders: seq<Order>, ghost t: Ticket, matches0: seq<Order>, remaining0: real,
                               ghost queue: seq<Ticket>, ghost found: seq<Ticket>, ghost index: map<OrderId, Order>)
        returns (matches: seq<Order>, remaining: real)
      requires MirrorsQueue(orders, queue, index, Quantities(index))
               && MirrorsQueue(matches0, found, index, Quantities(index))
      requires forall j | 0 <= j < |queue| :: Accepts(t, queue[j].price)
      ensures MirrorsQueue(matches, found + Capped(queue, t, remaining0), index, Quantities(index))
      ensures remaining == remaining0 - Depth(Capped(queue, t, remaining0))
    {
      matches, remaining := matches0, remaining0;
      ghost var taken: seq<Ticket> := [];
      var j := 0;
      assert queue[0..] == queue && found + [] == found && |orders| == |queue|;
      hide MirrorsQueue, Capped, Depth, Quantities, Accepts;
      DepthOfNone();
      while j < |orders|
        invariant j <= |orders| == |queue|
        invariant MirrorsQueue(matches, found + taken, index, Quantities(index))
        invariant Capped(queue, t, remaining0) == taken + Capped(queue[j..], t, remaining)
        invariant remaining == remaining0 - Depth(taken)
      {
        if remaining <= 0.0 { break; }
        var order := orders[j];
        TakeOne(orders, queue, j, t, remaining, matches, found, taken, index);
        matches := matches + [order];
        taken := taken + [queue[j]];
        remaining := remaining - order.quantity;
        j := j + 1;
      }
      NothingTaken(queue, j, t, remaining);
      assert taken + [] == taken;
    }

    static lemma {:induction false} DepthOfNone()
      ensures Depth([]) == 0.0
    {
    }

    static lemma {:induction false} NothingTaken(queue: seq<Ticket>, j: nat, t: Ticket, remaining: real)
      requires j <= |queue| && (j == |queue| || remaining <= 0.0)
      ensures Capped(queue[j..], t, remaining) == []
    {
    }

    static lemma {:induction false} TakeOne(orders: seq<Order>, queue: seq<Ticket>, j: nat, t: Ticket,
                                            remaining: real, matches: seq<Order>,
                                            found: seq<Ticket>, taken: seq<Ticket>, index: map<OrderId, Order>)
      requires j < |queue| == |orders| && remaining > 0.0 && Accepts(t, queue[j].price)
      requires MirrorsQueue(orders, queue, index, Quantities(index))
      requires MirrorsQueue(matches, found + taken, index, Quantities(index))
      ensures MirrorsQueue(matches + [orders[j]], found + (taken + [queue[j]]), index, Quantities(index))
      ensures taken + Capped(queue[j..], t, remaining) ==
              (taken + [queue[j]]) + Capped(queue[j + 1..], t, remaining - orders[j].quantity)
      ensures Depth(taken + [queue[j]]) == Depth(taken) + orders[j].quantity
    {
      var x := queue[j];
      assert orders[j].quantity == x.qty;
      assert queue[j..] == [x] + queue[j + 1..];
      CappedCons(x, queue[j + 1..], t, remaining);
      MirrorsCons(orders[j], matches, x, found + taken, index, Quantities(index));
      DepthAppend(taken, [x]);
      assert [x][1..] == [];
      assert Depth([x]) == x.qty;
      hide MirrorsQueue, Capped, Depth, Accepts, Quantities;
      assert found + taken + [x] == found + (taken + [x]);
      var more := Capped(queue[j + 1..], t, remaining - x.qty);
      assert taken + ([x] + more) == (taken + [x]) + more;
    }

    lemma {:induction false} SideSorted(s: Side)
      requires Readable()
      ensures Sorted(s, Flat().On(s))
    {
      assert SideOk(s, Levels(s), Image().View(s), orderMap, Quantities(orderMap));
      FlattenSorted(s, Image().View(s));
    }

    /** getTopBids and getTopAsks: the first `levels` prices of a side with their cached totals. */
    method GetTop(s: Side, levels: nat) returns (result: seq<DepthEntry>)
      requires Readable()
      ensures result == Top(Flat().On(s), levels)
      ensures |result| <= levels
      ensures forall i, j | 0 <= i < j < |result| ::
                if s.BUY? then result[i].price > result[j].price else result[i].price < result[j].price
      ensures forall k | 0 <= k < |result| ::
                result[k].qty == Depth(AtPrice(Flat().On(s), result[k].price)) && Occurs(Flat().On(s), result[k].price)
      ensures forall p | Occurs(Flat().On(s), p) && !Listed(result, p) ::
                |result| == levels
                && forall k | 0 <= k < |result| :: if s.BUY? then p < result[k].price else p > result[k].price
      ensures Flat().On(s) != [] && levels > 0 ==> result != [] && result[0].price == Flat().On(s)[0].price
    {
      SideSorted(s);
      TopIsBest(s, Flat().On(s), levels);
      hide Sorted, Occurs, Listed, AtPrice, Top;
      GroupFlatten(s, Image().View(s));
      assert SideOk(s, Levels(s), Image().View(s), orderMap, Quantities(orderMap));
      result := TopOf(Levels(s), levels, Image().View(s));
    }

    /** getBestBidPrice and getBestBidQuantity, or the same of the asks. */
    method GetBest(s: Side) returns (best: DepthEntry)
      requires Readable()
      ensures best == Best(Flat().On(s))
      ensures if Flat().On(s) == [] then best.price == 0.0 && best.qty == 0.0
              else best.price == Flat().On(s)[0].price
                   && best.qty == Depth(AtPrice(Flat().On(s), Flat().On(s)[0].price))
    {
      SideSorted(s);
      BestIs(s, Flat().On(s));
      GroupFlatten(s, Image().View(s));
      assert SideOk(s, Levels(s), Image().View(s), orderMap, Quantities(orderMap));
      var ls := Levels(s);
      best := if ls == [] then DepthEntry(0.0, 0.0) else DepthEntry(ls[0].price, ls[0].totalQuantity);
    }

    static method TopOf(ls: seq<PriceLevel>, levels: nat, ghost v: seq<Level>) returns (result: seq<DepthEntry>)
      requires |ls| == |v| && forall i | 0 <= i < |v| :: ls[i].price == v[i].price && ls[i].totalQuantity == v[i].total
      ensures result == if |v| <= levels then Entries(v) else Entries(v)[..levels]
    {
      ghost var all := Entries(v);
      assert |all| == |ls| && forall i | 0 <= i < |ls| :: all[i] == DepthEntry(ls[i].price, ls[i].totalQuantity);
      hide Entries;
      result := [];
      for k := 0 to |ls|
        invariant |result| == k <= levels
        invariant forall i | 0 <= i < k :: result[i] == all[i]
      {
        if |result| >= levels { break; }
        result := result + [DepthEntry(ls[k].price, ls[k].totalQuantity)];
      }
    }

    predicate HasOrder(orderId: OrderId)
      reads this
    {
      orderId in orderMap
    }
  }
}
