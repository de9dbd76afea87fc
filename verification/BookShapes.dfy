/** The fields of a book (include/engine/order_book.h:55-110) against the values they stand for:
    levels, queues, cached totals and the id index over shared `Order` objects. */
module BookShapes {
  import opened Orders
  import opened FlatBook
  import opened Ladder
  import opened Resizing

  datatype PriceLevel = PriceLevel(price: real, orders: seq<Order>, totalQuantity: real)

  // ----- What the standard containers do

  /** Position of a key in a sorted map, or its size when absent. */
  function Find(ls: seq<PriceLevel>, p: real): (k: nat)
    ensures k <= |ls|
    ensures k < |ls| ==> ls[k].price == p
    ensures forall i | 0 <= i < k :: ls[i].price != p
  {
    if ls == [] || ls[0].price == p then 0 else 1 + Find(ls[1..], p)
  }

  /** Where a sorted map puts a new key: behind all keys that come strictly before it. */
  function LowerBound(s: Side, ls: seq<PriceLevel>, p: real): (k: nat)
    ensures k <= |ls|
    ensures k < |ls| ==> !Better(s, ls[k].price, p)
    ensures forall i | 0 <= i < k :: Better(s, ls[i].price, p)
  {
    if ls == [] || !Better(s, ls[0].price, p) then 0 else 1 + LowerBound(s, ls[1..], p)
  }

  /** Erases a key. */
  function Erase(ls: seq<PriceLevel>, p: real): seq<PriceLevel> {
    if ls == [] then [] else if ls[0].price == p then ls[1..] else [ls[0]] + Erase(ls[1..], p)
  }

  lemma {:induction false} EraseAt(ls: seq<PriceLevel>, k: nat, l: PriceLevel)
    requires k == Find(ls, l.price) < |ls|
    ensures Erase(ls[k := l], l.price) == ls[..k] + ls[k + 1..]
  {
    if k > 0 {
      EraseAt(ls[1..], k - 1, l);
      assert ls[k := l][1..] == ls[1..][k - 1 := l];
    }
  }

  function RemoveById(os: seq<Order>, id: OrderId): seq<Order> {
    if os == [] then [] else if os[0].id == id then RemoveById(os[1..], id) else [os[0]] + RemoveById(os[1..], id)
  }

  // ----- Objects against values

  /** The quantities that the indexed objects hold at this moment. */
  ghost function Quantities(index: map<OrderId, Order>): map<OrderId, real>
    reads index.Values
  {
    map id | id in index :: index[id].quantity
  }

  lemma {:induction false} QuantitiesAre(index: map<OrderId, Order>, qs: map<OrderId, real>)
    requires index.Keys == qs.Keys && forall id | id in index :: index[id].quantity == qs[id]
    ensures Quantities(index) == qs
  {
  }

  lemma {:induction false} QuantitiesAdd(index: map<OrderId, Order>, order: Order)
    ensures Quantities(index[order.id := order]) == Quantities(index)[order.id := order.quantity]
  {
  }

  lemma {:induction false} QuantitiesRemove(index: map<OrderId, Order>, id: OrderId)
    ensures Quantities(index - {id}) == Quantities(index) - {id}
  {
  }

  /** An object's value, given its quantity. */
  ghost function FiledAs(o: Order, quantity: real): Ticket {
    Ticket(o.id, o.symbol, o.side, o.kind, o.price, quantity)
  }

  /** List and index share the objects, and with quantities `qs` the objects hold these values. */
  ghost predicate MirrorsQueue(os: seq<Order>, ts: seq<Ticket>, index: map<OrderId, Order>, qs: map<OrderId, real>) {
    && |os| == |ts|
    && forall j | 0 <= j < |ts| ::
         var id := ts[j].id;
         id in index && id in qs && os[j] == index[id] && ts[j] == FiledAs(index[id], qs[id])
  }

  ghost predicate Mirrors(ls: seq<PriceLevel>, view: seq<Level>, index: map<OrderId, Order>, qs: map<OrderId, real>) {
    && |ls| == |view|
    && forall k | 0 <= k < |view| ::
         && ls[k].price == view[k].price
         && ls[k].totalQuantity == view[k].total
         && MirrorsQueue(ls[k].orders, view[k].queue, index, qs)
  }

  /** No queue of the view mentions `id`, except possibly that of level `k`. */
  ghost predicate OnlyIn(v: seq<Level>, k: int, id: OrderId) {
    forall i | 0 <= i < |v| && i != k :: !HasId(v[i].queue, id)
  }

  lemma {:induction false} AbsentFromLevels(v: seq<Level>, id: OrderId)
    requires !HasId(Flatten(v), id)
    ensures OnlyIn(v, -1, id)
  {
    forall i | 0 <= i < |v|
      ensures !HasId(v[i].queue, id)
    {
      if HasId(v[i].queue, id) {
        FlattenHas(v, i, id);
      }
    }
  }

  /** Adding, changing or dropping the entry of an id that the levels do not use. */
  lemma {:induction false} MirrorsElsewhere(ls: seq<PriceLevel>, v: seq<Level>, index: map<OrderId, Order>,
                                            qs: map<OrderId, real>,
                         index': map<OrderId, Order>, qs': map<OrderId, real>, id: OrderId)
    requires Mirrors(ls, v, index, qs) && OnlyIn(v, -1, id)
    requires forall x | x != id && x in index :: x in index' && index'[x] == index[x]
    requires forall x | x != id && x in qs :: x in qs' && qs'[x] == qs[x]
    ensures Mirrors(ls, v, index', qs')
  {
    forall k | 0 <= k < |v|
      ensures MirrorsQueue(ls[k].orders, v[k].queue, index', qs')
    {
      assert !HasId(v[k].queue, id);
    }
  }

  // ----- Adding

  /** Pushes an order to the back of level `k` and adds its quantity to the cached total. */
  function Append(ls: seq<PriceLevel>, k: nat, order: Order, quantity: real): seq<PriceLevel>
    requires k < |ls|
  {
    ls[k := ls[k].(orders := ls[k].orders + [order], totalQuantity := ls[k].totalQuantity + quantity)]
  }

  lemma {:induction false} EmplaceThenAppend(ls: seq<PriceLevel>, order: Order, quantity: real, k: nat)
    requires k <= |ls|
    ensures Append(ls[..k] + [PriceLevel(order.price, [], 0.0)] + ls[k..], k, order, quantity)
         == ls[..k] + [PriceLevel(order.price, [order], quantity)] + ls[k..]
  {
    assert [] + [order] == [order];
  }

  lemma {:induction false} MirrorsAddTo(ls: seq<PriceLevel>, v: seq<Level>, index: map<OrderId, Order>,
                                        qs: map<OrderId, real>,
                                        order: Order, q: real, k: nat)
    requires Mirrors(ls, v, index, qs) && k < |ls|
    requires order.id in index && index[order.id] == order && order.id in qs && qs[order.id] == q
    ensures Mirrors(Append(ls, k, order, q),
                    v[k := v[k].(queue := v[k].queue + [FiledAs(order, q)], total := v[k].total + q)], index, qs)
  {
    assert MirrorsQueue(ls[k].orders + [order], v[k].queue + [FiledAs(order, q)], index, qs);
  }

  lemma {:induction false} MirrorsAddNew(ls: seq<PriceLevel>, v: seq<Level>, index: map<OrderId, Order>,
                                         qs: map<OrderId, real>,
                                         order: Order, q: real, k: nat)
    requires Mirrors(ls, v, index, qs) && k <= |ls|
    requires order.id in index && index[order.id] == order && order.id in qs && qs[order.id] == q
    ensures Mirrors(ls[..k] + [PriceLevel(order.price, [order], q)] + ls[k..],
                    v[..k] + [Level(order.price, [FiledAs(order, q)], q)] + v[k..], index, qs)
  {
    assert MirrorsQueue([order], [FiledAs(order, q)], index, qs);
  }

  /** A key that is not in the map splits its levels into strictly better and strictly worse ones. */
  lemma {:induction false} LowerBoundSplits(s: Side, ls: seq<PriceLevel>, v: seq<Level>, p: real)
    requires LadderOk(s, v) && |ls| == |v| && Find(ls, p) == |ls|
    requires forall k | 0 <= k < |v| :: ls[k].price == v[k].price
    ensures forall i | 0 <= i < LowerBound(s, ls, p) :: Better(s, v[i].price, p)
    ensures forall i | LowerBound(s, ls, p) <= i < |v| :: Better(s, p, v[i].price)
  {
    var k := LowerBound(s, ls, p);
    if k < |ls| {
      assert ls[k].price != p && v[k].price == ls[k].price;
    }
  }

  // ----- Finding, changing and removing

  /** The index leads to the right level: the order's price is a key, and that level lists the order. */
  lemma {:induction false} FindsLevel(s: Side, ls: seq<PriceLevel>, v: seq<Level>, index: map<OrderId, Order>,
                                      qs: map<OrderId, real>, id: OrderId)
    requires Mirrors(ls, v, index, qs) && LadderOk(s, v) && Queue(s, Flatten(v)) && HasId(Flatten(v), id)
    ensures id in index && id in qs && index[id].id == id && index[id].side == s
    ensures var k := Find(ls, index[id].price);
            && k < |ls| && HasId(v[k].queue, id) && OnlyIn(v, k, id) && Unique(v[k].queue)
            && Quantity(v[k].queue, id) == qs[id] == Quantity(Flatten(v), id)
            && 0.0 < qs[id] <= v[k].total
            && (Without(v[k].queue, id) != [] ==> qs[id] < v[k].total)
  {
    var k := Locate(v, id);
    var j :| 0 <= j < |v[k].queue| && v[k].queue[j].id == id;
    assert v[k].queue[j] == FiledAs(index[id], qs[id]);
    LevelInFlat(v, k);
    assert Find(ls, index[id].price) == k;
    OnlyHere(v, k, id);
    NoOtherLevel(v, k, id);
    QuantityAt(v[k].queue, j);
    QuantityInLevel(v, k, id);
    TotalsStayNonNegative(s, v, k, id);
  }

  /** An object's quantity changed: its level mirrors the changed queue. */
  lemma {:induction false} MirrorsSet(ls: seq<PriceLevel>, v: seq<Level>, index: map<OrderId, Order>,
                                      qs: map<OrderId, real>,
                   k: nat, id: OrderId, q: real, total: real)
    requires Mirrors(ls, v, index, qs) && k < |v| && OnlyIn(v, k, id)
    ensures Mirrors(ls[k := ls[k].(totalQuantity := total)],
                    v[k := v[k].(queue := SetQty(v[k].queue, id, q), total := total)], index, qs[id := q])
  {
    SetQtyAll(v[k].queue, id, q);
    forall i | 0 <= i < |v|
      ensures MirrorsQueue(ls[i].orders, if i == k then SetQty(v[k].queue, id, q) else v[i].queue, index, qs[id := q])
    {
      assert i != k ==> !HasId(v[i].queue, id);
    }
  }

  lemma {:induction false} MirrorsCons(o: Order, os: seq<Order>, t: Ticket, ts: seq<Ticket>, index: map<OrderId, Order>,
                                       qs: map<OrderId, real>)
    requires MirrorsQueue(os, ts, index, qs) && MirrorsQueue([o], [t], index, qs)
    ensures MirrorsQueue([o] + os, [t] + ts, index, qs) && MirrorsQueue(os + [o], ts + [t], index, qs)
  {
    assert [t][0] == t && [o][0] == o;
  }

  lemma {:induction false} RemoveMirrors(os: seq<Order>, ts: seq<Ticket>, index: map<OrderId, Order>,
                                         qs: map<OrderId, real>, id: OrderId)
    requires MirrorsQueue(os, ts, index, qs)
    ensures MirrorsQueue(RemoveById(os, id), Without(ts, id), index, qs)
  {
    if os != [] {
      assert ts[0] == FiledAs(os[0], qs[ts[0].id]);
      assert MirrorsQueue(os[1..], ts[1..], index, qs) by {
        assert forall j | 0 <= j < |ts| - 1 :: ts[1..][j] == ts[j + 1] && os[1..][j] == os[j + 1];
      }
      RemoveMirrors(os[1..], ts[1..], index, qs, id);
      var os', ts' := RemoveById(os[1..], id), Without(ts[1..], id);
      if ts[0].id != id {
        assert [ts[0]][0] == ts[0] && [os[0]][0] == os[0];
        MirrorsCons(os[0], os', ts[0], ts', index, qs);
      }
    }
  }

  lemma {:induction false} WithoutLosesId(l: seq<Ticket>, id: OrderId)
    ensures !HasId(Without(l, id), id)
  {
    if l != [] {
      WithoutLosesId(l[1..], id);
    }
  }

  /** Stores level `k` back, or erases it when its list is empty. */
  function StoreLevel(ls: seq<PriceLevel>, k: nat, l: PriceLevel): seq<PriceLevel>
    requires k < |ls|
  {
    if l.orders == [] then ls[..k] + ls[k + 1..] else ls[k := l]
  }

  lemma {:induction false} MirrorsRemove(ls: seq<PriceLevel>, v: seq<Level>, index: map<OrderId, Order>,
                                         qs: map<OrderId, real>,
                      k: nat, id: OrderId, total: real)
    requires Mirrors(ls, v, index, qs) && k < |v| && OnlyIn(v, k, id)
    ensures Mirrors(StoreLevel(ls, k, PriceLevel(ls[k].price, RemoveById(ls[k].orders, id), total)),
                    Store(v, k, Level(v[k].price, Without(v[k].queue, id), total)), index - {id}, qs - {id})
  {
    RemoveMirrors(ls[k].orders, v[k].queue, index, qs, id);
    WithoutLosesId(v[k].queue, id);
    var ls' := StoreLevel(ls, k, PriceLevel(ls[k].price, RemoveById(ls[k].orders, id), total));
    var v' := Store(v, k, Level(v[k].price, Without(v[k].queue, id), total));
    assert Mirrors(ls', v', index, qs);
    MirrorsElsewhere(ls', v', index, qs, index - {id}, qs - {id}, id);
  }

  // ----- The whole book as a value

  /** Both maps, and the values they mirror. */
  datatype Shape = Shape(buy: seq<PriceLevel>, sell: seq<PriceLevel>, bids: seq<Level>, asks: seq<Level>) {
    function Levels(s: Side): seq<PriceLevel> { if s.BUY? then buy else sell }

    ghost function View(s: Side): seq<Level> { if s.BUY? then bids else asks }

    ghost function Flat(): Book { Book(Flatten(bids), Flatten(asks)) }

    ghost function With(s: Side, ls: seq<PriceLevel>, v: seq<Level>): Shape {
      if s.BUY? then this.(buy := ls, bids := v) else this.(sell := ls, asks := v)
    }
  }

  ghost predicate SideOk(s: Side, ls: seq<PriceLevel>, v: seq<Level>, index: map<OrderId, Order>,
                         qs: map<OrderId, real>) {
    Mirrors(ls, v, index, qs) && LadderOk(s, v)
  }

  /** Both sides agree with the index, whatever the quantities are. */
  ghost predicate SidesOk(sh: Shape, index: map<OrderId, Order>, qs: map<OrderId, real>) {
    forall s: Side :: SideOk(s, sh.Levels(s), sh.View(s), index, qs)
  }

  /** Levels, queues, cached totals and index agree. */
  ghost predicate Consistent(sh: Shape, index: map<OrderId, Order>, qs: map<OrderId, real>) {
    && SidesOk(sh, index, qs)
    && WellFormed(sh.Flat())
    && Indexes(index, sh.Flat())
  }

  /** The index is exactly the set of resting orders. */
  ghost predicate Indexes(index: map<OrderId, Order>, b: Book) {
    && (forall id | id in index :: index[id].id == id)
    && (forall id :: id in index <==> Rests(b, id))
  }

  lemma {:induction false} Sizes(sh: Shape, index: map<OrderId, Order>, qs: map<OrderId, real>, s: Side)
    requires Consistent(sh, index, qs)
    ensures |sh.Levels(s)| == |sh.View(s)|
    ensures forall x, y | x in index && y in index && x != y :: index[x] != index[y]
  {
    ConsistentSides(sh, index, qs, s);
  }

  lemma {:induction false} ConsistentSides(sh: Shape, index: map<OrderId, Order>, qs: map<OrderId, real>, s: Side)
    requires Consistent(sh, index, qs)
    ensures SideOk(s, sh.Levels(s), sh.View(s), index, qs)
    ensures Queue(s, Flatten(sh.View(s)))
  {
  }

  lemma {:induction false} Assemble(sh: Shape, s: Side, ls: seq<PriceLevel>, v: seq<Level>,
                                    index: map<OrderId, Order>, qs: map<OrderId, real>, b: Book)
    requires SideOk(s, ls, v, index, qs)
    requires SideOk(s.Opposite(), sh.Levels(s.Opposite()), sh.View(s.Opposite()), index, qs)
    requires b == sh.Flat().With(s, Flatten(v)) && WellFormed(b) && Indexes(index, b)
    ensures Consistent(sh.With(s, ls, v), index, qs) && sh.With(s, ls, v).Flat() == b
  {
    var sh' := sh.With(s, ls, v);
    forall x: Side
      ensures SideOk(x, sh'.Levels(x), sh'.View(x), index, qs)
    {
      assert x == s || x == s.Opposite();
    }
  }

  /** Before a new order is filed, its own side already agrees with the extended index. */
  lemma {:induction false} ReadyToAdd(sh: Shape, index: map<OrderId, Order>, qs: map<OrderId, real>, order: Order,
                                      q: real)
    requires Consistent(sh, index, qs) && order.id !in index
    ensures SideOk(order.side, sh.Levels(order.side), sh.View(order.side), index[order.id := order], qs[order.id := q])
  {
    ConsistentSides(sh, index, qs, order.side);
    assert !Rests(sh.Flat(), order.id);
    AbsentFromLevels(sh.View(order.side), order.id);
    MirrorsElsewhere(sh.Levels(order.side), sh.View(order.side), index, qs, index[order.id := order],
      qs[order.id := q], order.id);
  }

  lemma {:induction false} ConsistentAdd(sh: Shape, index: map<OrderId, Order>, qs: map<OrderId, real>, order: Order,
                                         q: real,
                      ls: seq<PriceLevel>, v: seq<Level>)
    requires Consistent(sh, index, qs) && order.id !in index && q > 0.0
    requires SideOk(order.side, ls, v, index[order.id := order], qs[order.id := q])
    requires Flatten(v) == Insert(Flatten(sh.View(order.side)), FiledAs(order, q))
    ensures Consistent(sh.With(order.side, ls, v), index[order.id := order], qs[order.id := q])
    ensures sh.With(order.side, ls, v).Flat() == Add(sh.Flat(), FiledAs(order, q))
  {
    var other := order.side.Opposite();
    var index', qs' := index[order.id := order], qs[order.id := q];
    ConsistentSides(sh, index, qs, other);
    AddKeepsWellFormed(sh.Flat(), FiledAs(order, q));
    assert SideOk(other, sh.Levels(other), sh.View(other), index', qs') by {
      assert !Rests(sh.Flat(), order.id);
      AbsentFromLevels(sh.View(other), order.id);
      MirrorsElsewhere(sh.Levels(other), sh.View(other), index, qs, index', qs', order.id);
    }
    Assemble(sh, order.side, ls, v, index', qs', Add(sh.Flat(), FiledAs(order, q)));
  }

  /** Where an indexed order is: level `k` of side `s`, and nowhere else. */
  ghost predicate Located(sh: Shape, index: map<OrderId, Order>, qs: map<OrderId, real>, id: OrderId, s: Side, k: nat) {
    && id in index && id in qs && index[id].id == id && index[id].side == s
    && k == Find(sh.Levels(s), index[id].price) < |sh.View(s)| == |sh.Levels(s)|
    && HasId(sh.View(s)[k].queue, id) && OnlyIn(sh.View(s), k, id)
    && sh.Levels(s)[k].totalQuantity == sh.View(s)[k].total
    && sh.Levels(s)[k].price == sh.View(s)[k].price
    && Quantity(sh.View(s)[k].queue, id) == qs[id]
    && 0.0 < qs[id] <= sh.View(s)[k].total
    && HasId(Flatten(sh.View(s)), id) && Quantity(Flatten(sh.View(s)), id) == qs[id]
    && !HasId(Flatten(sh.View(s.Opposite())), id) && OnlyIn(sh.View(s.Opposite()), -1, id)
  }

  lemma {:induction false} Position(sh: Shape, index: map<OrderId, Order>, qs: map<OrderId, real>, id: OrderId)
    requires Consistent(sh, index, qs) && id in index
    ensures Located(sh, index, qs, id, index[id].side, Find(sh.Levels(index[id].side), index[id].price))
  {
    var s := if HasId(sh.Flat().bids, id) then BUY else SELL;
    assert HasId(Flatten(sh.View(s)), id);
    ConsistentSides(sh, index, qs, s);
    FindsLevel(s, sh.Levels(s), sh.View(s), index, qs, id);
    assert !HasId(Flatten(sh.View(s.Opposite())), id) by {
      var j :| 0 <= j < |sh.Flat().On(s)| && sh.Flat().On(s)[j].id == id;
      DistinctSides(sh.Flat(), s, j);
    }
    AbsentFromLevels(sh.View(s.Opposite()), id);
  }

  lemma {:induction false} SideSet(s: Side, ls: seq<PriceLevel>, v: seq<Level>, index: map<OrderId, Order>,
                                   qs: map<OrderId, real>,
                                   id: OrderId, q: real, k: nat, total: real)
    requires SideOk(s, ls, v, index, qs) && Unique(Flatten(v)) && k < |v| && OnlyIn(v, k, id) && HasId(v[k].queue, id)
    requires total == v[k].total - Quantity(v[k].queue, id) + q
    ensures var ls', v' := ls[k := ls[k].(totalQuantity := total)],
            v[k := v[k].(queue := SetQty(v[k].queue, id, q), total := total)];
            SideOk(s, ls', v', index, qs[id := q]) && Flatten(v') == SetQty(Flatten(v), id, q)
  {
    hide Mirrors, LadderOk, OnlyIn, Unique, HasId, Quantity, SetQty, Flatten;
    SetInLevel(s, v, k, id, q);
    MirrorsSet(ls, v, index, qs, k, id, q, total);
  }

  lemma {:induction false} SideRemove(s: Side, ls: seq<PriceLevel>, v: seq<Level>, index: map<OrderId, Order>,
                                      qs: map<OrderId, real>,
                                      id: OrderId, k: nat, total: real)
    requires SideOk(s, ls, v, index, qs) && Unique(Flatten(v)) && k < |v| && OnlyIn(v, k, id) && HasId(v[k].queue, id)
    requires total == v[k].total - Quantity(v[k].queue, id)
    ensures var ls' := StoreLevel(ls, k, PriceLevel(ls[k].price, RemoveById(ls[k].orders, id), total));
            var v' := Store(v, k, Level(v[k].price, Without(v[k].queue, id), total));
            SideOk(s, ls', v', index - {id}, qs - {id}) && Flatten(v') == Without(Flatten(v), id)
  {
    RemoveFromLevel(s, v, k, id, total);
    MirrorsRemove(ls, v, index, qs, k, id, total);
  }

  lemma {:induction false} BothSides(sh: Shape, s: Side, index: map<OrderId, Order>, qs: map<OrderId, real>)
    requires SideOk(s, sh.Levels(s), sh.View(s), index, qs)
    requires SideOk(s.Opposite(), sh.Levels(s.Opposite()), sh.View(s.Opposite()), index, qs)
    ensures SidesOk(sh, index, qs)
  {
    forall x: Side
      ensures SideOk(x, sh.Levels(x), sh.View(x), index, qs)
    {
      assert x == s || x == s.Opposite();
    }
  }

  /** The levels and the view after an order's quantity and its level's total are set. */
  ghost function SetShape(sh: Shape, s: Side, k: nat, id: OrderId, q: real, total: real): Shape
    requires k < |sh.Levels(s)| == |sh.View(s)|
  {
    var ls, v := sh.Levels(s), sh.View(s);
    sh.With(s, ls[k := ls[k].(totalQuantity := total)],
      v[k := v[k].(queue := SetQty(v[k].queue, id, q), total := total)])
  }

  ghost predicate IsAt(sh: Shape, index: map<OrderId, Order>, qs: map<OrderId, real>, id: OrderId, s: Side, k: nat) {
    && id in index && id in qs && s == index[id].side
    && k == Find(sh.Levels(s), index[id].price) < |sh.Levels(s)| == |sh.View(s)|
  }

  lemma {:induction false} SidesSet(sh: Shape, index: map<OrderId, Order>, qs: map<OrderId, real>, id: OrderId,
                                    q: real, s: Side,
                                    k: nat, total: real)
    requires Consistent(sh, index, qs) && IsAt(sh, index, qs, id, s, k)
    requires total == sh.Levels(s)[k].totalQuantity - qs[id] + q
    ensures var sh' := SetShape(sh, s, k, id, q, total);
            SidesOk(sh', index, qs[id := q]) && sh'.Flat() == Modify(sh.Flat(), id, q)
  {
    var ls, v, other := sh.Levels(s), sh.View(s), s.Opposite();
    Position(sh, index, qs, id);
    ConsistentSides(sh, index, qs, s);
    ConsistentSides(sh, index, qs, other);
    hide Consistent;
    SideSet(s, ls, v, index, qs, id, q, k, total);
    MirrorsElsewhere(sh.Levels(other), sh.View(other), index, qs, index, qs[id := q], id);
    SetQtyAbsent(Flatten(sh.View(other)), id, q);
    BothSides(SetShape(sh, s, k, id, q, total), s, index, qs[id := q]);
  }

  lemma {:induction false} ConsistentSet(sh: Shape, index: map<OrderId, Order>, qs: map<OrderId, real>, id: OrderId,
                                         q: real, s: Side,
                                         k: nat, total: real)
    requires Consistent(sh, index, qs) && IsAt(sh, index, qs, id, s, k) && q > 0.0
    requires total == sh.Levels(s)[k].totalQuantity - qs[id] + q
    ensures var sh' := SetShape(sh, s, k, id, q, total);
            Consistent(sh', index, qs[id := q]) && sh'.Flat() == Modify(sh.Flat(), id, q)
  {
    SidesSet(sh, index, qs, id, q, s, k, total);
    ModifyKeepsWellFormed(sh.Flat(), id, q);
    hide SideOk, WellFormed, SetShape, Modify;
  }

  /** The same book without level `k` of side `s`. */
  ghost function CutShape(sh: Shape, s: Side, k: nat): Shape
    requires k < |sh.Levels(s)| == |sh.View(s)|
  {
    var ls, v := sh.Levels(s), sh.View(s);
    sh.With(s, ls[..k] + ls[k + 1..], v[..k] + v[k + 1..])
  }

  lemma {:induction false} SideCut(s: Side, ls: seq<PriceLevel>, v: seq<Level>, index: map<OrderId, Order>,
                                   qs: map<OrderId, real>, id: OrderId, q: real, k: nat)
    requires SideOk(s, ls, v, index, qs) && k < |v| && OnlyIn(v, k, id)
    ensures var ls', v' := ls[..k] + ls[k + 1..], v[..k] + v[k + 1..];
            SideOk(s, ls', v', index, qs[id := q]) && Flatten(v') == DropPrice(Flatten(v), v[k].price)
  {
    var ls', v' := ls[..k] + ls[k + 1..], v[..k] + v[k + 1..];
    LevelAtPrice(s, v, k);
    MirrorsCut(ls, v, index, qs, k);
    CutWithout(v, k, id);
    hide Mirrors, LadderOk, Flatten, DropPrice, OnlyIn;
    MirrorsElsewhere(ls', v', index, qs, index, qs[id := q], id);
  }

  lemma {:induction false} CutWithout(v: seq<Level>, k: nat, id: OrderId)
    requires k < |v| && OnlyIn(v, k, id)
    ensures OnlyIn(v[..k] + v[k + 1..], -1, id)
  {
    hide HasId;
    var v' := v[..k] + v[k + 1..];
    assert forall i | 0 <= i < |v'| :: v'[i] == v[if i < k then i else i + 1];
  }

  /** Erasing a level while the index keeps its orders. */
  lemma {:induction false} SidesCut(sh: Shape, index: map<OrderId, Order>, qs: map<OrderId, real>, id: OrderId,
                                    q: real, s: Side, k: nat)
    requires Consistent(sh, index, qs) && IsAt(sh, index, qs, id, s, k)
    ensures var sh' := CutShape(sh, s, k);
            && SidesOk(sh', index, qs[id := q])
            && sh'.Flat() == sh.Flat().With(s, DropPrice(sh.Flat().On(s), index[id].price))
  {
    var other := s.Opposite();
    Position(sh, index, qs, id);
    ConsistentSides(sh, index, qs, s);
    ConsistentSides(sh, index, qs, other);
    hide Consistent, SideOk, Queue, DropPrice, Flatten, OnlyIn, HasId;
    SideCut(s, sh.Levels(s), sh.View(s), index, qs, id, q, k);
    OtherSide(other, sh.Levels(other), sh.View(other), index, qs, id, q);
    BothSides(CutShape(sh, s, k), s, index, qs[id := q]);
  }

  lemma {:induction false} OtherSide(s: Side, ls: seq<PriceLevel>, v: seq<Level>, index: map<OrderId, Order>,
                                     qs: map<OrderId, real>, id: OrderId, q: real)
    requires SideOk(s, ls, v, index, qs) && OnlyIn(v, -1, id)
    ensures SideOk(s, ls, v, index, qs[id := q])
  {
    hide LadderOk;
    MirrorsElsewhere(ls, v, index, qs, index, qs[id := q], id);
  }

  lemma {:induction false} MirrorsCut(ls: seq<PriceLevel>, v: seq<Level>, index: map<OrderId, Order>,
                                      qs: map<OrderId, real>, k: nat)
    requires Mirrors(ls, v, index, qs) && k < |v|
    ensures Mirrors(ls[..k] + ls[k + 1..], v[..k] + v[k + 1..], index, qs)
  {
    hide MirrorsQueue;
    var ls', v' := ls[..k] + ls[k + 1..], v[..k] + v[k + 1..];
    assert forall i | 0 <= i < |v'| ::
        v'[i] == v[if i < k then i else i + 1] && ls'[i] == ls[if i < k then i else i + 1];
  }

  /** The reference list's own account of a level's new total, and of what a modify does to the list. */
  lemma {:induction false} ListResized(s: Side, ls: seq<PriceLevel>, v: seq<Level>, index: map<OrderId, Order>,
                                       qs: map<OrderId, real>,
                                       id: OrderId, q: real, k: nat)
    requires SideOk(s, ls, v, index, qs) && Queue(s, Flatten(v)) && k < |v| == |ls|
    requires id in index && id in qs && v[k].price == index[id].price
    requires HasId(Flatten(v), id) && Quantity(Flatten(v), id) == qs[id]
    ensures NewTotal(Flatten(v), id, q) == ls[k].totalQuantity - qs[id] + q
    ensures PriceOf(Flatten(v), id) == index[id].price
  {
    var l := Flatten(v);
    var j :| 0 <= j < |l| && l[j].id == id;
    FlatPrice(s, ls, v, index, qs, j);
    LevelAtPrice(s, v, k);
    LevelTotal(s, ls, v, index, qs, k);
    hide SideOk, Sorted, Quantity, AtPrice, DropPrice, Flatten, Depth;
    PriceAt(l, j);
  }

  lemma {:induction false} LevelTotal(s: Side, ls: seq<PriceLevel>, v: seq<Level>, index: map<OrderId, Order>,
                                      qs: map<OrderId, real>, k: nat)
    requires SideOk(s, ls, v, index, qs) && k < |v| == |ls|
    ensures ls[k].totalQuantity == Depth(v[k].queue)
  {
    assert LevelOk(v[k]);
  }

  /** The same for the whole book. */
  lemma {:induction false} ResizedIs(sh: Shape, index: map<OrderId, Order>, qs: map<OrderId, real>, id: OrderId,
                                     q: real, s: Side, k: nat)
    requires Consistent(sh, index, qs) && IsAt(sh, index, qs, id, s, k)
    ensures var total := sh.Levels(s)[k].totalQuantity - qs[id] + q;
            && HasId(sh.Flat().On(s), id) && NewTotal(sh.Flat().On(s), id, q) == total
            && Resized(sh.Flat(), id, q) ==
               if total <= 0.0 then sh.Flat().With(s, DropPrice(sh.Flat().On(s), index[id].price))
               else Modify(sh.Flat(), id, q)
  {
    Position(sh, index, qs, id);
    ConsistentSides(sh, index, qs, s);
    hide Consistent, SideOk, Queue, HasId, NewTotal, PriceOf, Quantity, SetQty, DropPrice, Flatten, OnlyIn;
    ListResized(s, sh.Levels(s), sh.View(s), index, qs, id, q, k);
    SetQtyAbsent(sh.Flat().On(s.Opposite()), id, q);
  }

  lemma {:induction false} FlatPrice(s: Side, ls: seq<PriceLevel>, v: seq<Level>, index: map<OrderId, Order>,
                                     qs: map<OrderId, real>, j: nat)
    requires SideOk(s, ls, v, index, qs) && j < |Flatten(v)|
    ensures var t := Flatten(v)[j]; t.id in index && t.id in qs && t == FiledAs(index[t.id], qs[t.id])
  {
    if j < |v[0].queue| {
      assert MirrorsQueue(ls[0].orders, v[0].queue, index, qs);
    } else {
      assert SideOk(s, ls[1..], v[1..], index, qs) by {
        assert forall i | 0 <= i < |v| - 1 :: v[1..][i] == v[i + 1] && ls[1..][i] == ls[i + 1];
      }
      FlatPrice(s, ls[1..], v[1..], index, qs, j - |v[0].queue|);
    }
  }

  lemma {:induction false} ConsistentRemove(sh: Shape, index: map<OrderId, Order>, qs: map<OrderId, real>,
                                            id: OrderId, s: Side, k: nat, total: real)
    requires Consistent(sh, index, qs) && IsAt(sh, index, qs, id, s, k)
    requires total == sh.Levels(s)[k].totalQuantity - qs[id]
    ensures var ls, v := sh.Levels(s), sh.View(s);
            var sh' := sh.With(s, StoreLevel(ls, k, PriceLevel(ls[k].price, RemoveById(ls[k].orders, id), total)),
                               Store(v, k, Level(v[k].price, Without(v[k].queue, id), total)));
            Consistent(sh', index - {id}, qs - {id}) && sh'.Flat() == Cancel(sh.Flat(), id)
  {
    var ls, v, other := sh.Levels(s), sh.View(s), s.Opposite();
    var ls' := StoreLevel(ls, k, PriceLevel(ls[k].price, RemoveById(ls[k].orders, id), total));
    var v' := Store(v, k, Level(v[k].price, Without(v[k].queue, id), total));
    var index', qs' := index - {id}, qs - {id};
    Position(sh, index, qs, id);
    ConsistentSides(sh, index, qs, s);
    ConsistentSides(sh, index, qs, other);
    CancelKeepsWellFormed(sh.Flat(), id);
    SideRemove(s, ls, v, index, qs, id, k, total);
    MirrorsElsewhere(sh.Levels(other), sh.View(other), index, qs, index', qs', id);
    WithoutAbsent(Flatten(sh.View(other)), id);
    assert Indexes(index', Cancel(sh.Flat(), id));
    Assemble(sh, s, ls', v', index', qs', Cancel(sh.Flat(), id));
  }

  /** Reducing an order is cancelling it or setting its quantity, by what is left. */
  lemma {:induction false} DecreaseIs(sh: Shape, index: map<OrderId, Order>, qs: map<OrderId, real>, id: OrderId,
                                      s: Side, k: nat, amount: real)
    requires Located(sh, index, qs, id, s, k)
    ensures Decrease(sh.Flat(), id, amount) ==
            if qs[id] - amount <= 0.0 then Cancel(sh.Flat(), id) else Modify(sh.Flat(), id, qs[id] - amount)
  {
    WithoutAbsent(Flatten(sh.View(s.Opposite())), id);
    SetQtyAbsent(Flatten(sh.View(s.Opposite())), id, qs[id] - amount);
  }

  // ----- Setting a quantity, whatever it is

  /** The shape after the level is stored back, or erased because its total is no longer positive. */
  lemma {:induction false} ResizedShape(sh: Shape, index: map<OrderId, Order>, qs: map<OrderId, real>, id: OrderId,
                                        q: real, s: Side,
                                        k: nat, total: real)
    requires Consistent(sh, index, qs) && IsAt(sh, index, qs, id, s, k)
    requires total == sh.Levels(s)[k].totalQuantity - qs[id] + q
    ensures var sh' := if total <= 0.0 then CutShape(sh, s, k) else SetShape(sh, s, k, id, q, total);
            && SidesOk(sh', index, qs[id := q]) && sh'.Flat() == Resized(sh.Flat(), id, q)
            && (q > 0.0 ==> Consistent(sh', index, qs[id := q]) && sh'.Flat() == Modify(sh.Flat(), id, q))
    ensures q > 0.0 ==> total > 0.0
  {
    ResizedIs(sh, index, qs, id, q, s, k);
    Position(sh, index, qs, id);
    hide Consistent, SidesOk, Resized, Modify, DropPrice, CutShape, SetShape, Flatten;
    if total <= 0.0 {
      SidesCut(sh, index, qs, id, q, s, k);
    } else {
      SidesSet(sh, index, qs, id, q, s, k, total);
      if q > 0.0 { ConsistentSet(sh, index, qs, id, q, s, k, total); }
    }
  }

  // ----- Filing an order

  /** What filing an order makes of the levels of its side. */
  function Filed(s: Side, ls: seq<PriceLevel>, order: Order, quantity: real): seq<PriceLevel> {
    var it := Find(ls, order.price);
    if it < |ls| then Append(ls, it, order, quantity)
    else
      var k := LowerBound(s, ls, order.price);
      ls[..k] + [PriceLevel(order.price, [order], quantity)] + ls[k..]
  }

  ghost function FiledView(s: Side, ls: seq<PriceLevel>, v: seq<Level>, t: Ticket): seq<Level>
    requires |ls| == |v|
  {
    var it := Find(ls, t.price);
    if it < |ls| then v[it := v[it].(queue := v[it].queue + [t], total := v[it].total + t.qty)]
    else
      var k := LowerBound(s, ls, t.price);
      v[..k] + [Level(t.price, [t], t.qty)] + v[k..]
  }

  lemma {:induction false} FiledIs(s: Side, ls: seq<PriceLevel>, v: seq<Level>, index: map<OrderId, Order>,
                                   qs: map<OrderId, real>, t: Ticket)
    requires SideOk(s, ls, v, index, qs) && t.side == s
    ensures LadderOk(s, FiledView(s, ls, v, t)) && Flatten(FiledView(s, ls, v, t)) == Insert(Flatten(v), t)
  {
    hide MirrorsQueue, LevelOk, Flatten, Insert;
    var it := Find(ls, t.price);
    if it < |ls| {
      AddToLevel(v, t, it);
    } else {
      var k := LowerBound(s, ls, t.price);
      LowerBoundSplits(s, ls, v, t.price);
      AddNewLevel(v, t, k);
    }
  }

  lemma {:induction false} SideAdd(s: Side, ls: seq<PriceLevel>, v: seq<Level>, index: map<OrderId, Order>,
                                   qs: map<OrderId, real>,
                                   order: Order, v': seq<Level>)
    requires SideOk(s, ls, v, index, qs) && order.side == s
    requires order.id in index && index[order.id] == order && order.id in qs && qs[order.id] == order.quantity
    requires v' == FiledView(s, ls, v, order.View())
    ensures SideOk(s, Filed(s, ls, order, order.quantity), v', index, qs)
  {
    FiledIs(s, ls, v, index, qs, order.View());
    hide LadderOk, MirrorsQueue, Flatten, Insert;
    var it := Find(ls, order.price);
    if it < |ls| {
      MirrorsAddTo(ls, v, index, qs, order, order.quantity, it);
    } else {
      MirrorsAddNew(ls, v, index, qs, order, order.quantity, LowerBound(s, ls, order.price));
    }
  }
}
