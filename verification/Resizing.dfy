/** Modifying an order to any quantity, as src/engine/order_book.cpp:34-58 does it: the level goes
    when its cached total is no longer positive, and the index is left alone. */
module Resizing {
  import opened Orders
  import opened FlatBook
  import opened Ladder
  import opened MatchingLaws

  /** A list without the orders at one price. */
  function DropPrice(l: seq<Ticket>, p: real): seq<Ticket> {
    if l == [] then [] else if l[0].price == p then DropPrice(l[1..], p) else [l[0]] + DropPrice(l[1..], p)
  }

  function PriceOf(l: seq<Ticket>, id: OrderId): real
    requires HasId(l, id)
  {
    if l[0].id == id then l[0].price else PriceOf(l[1..], id)
  }

  /** What the level of an order holds once that order's quantity is `q`. */
  function NewTotal(l: seq<Ticket>, id: OrderId, q: real): real
    requires HasId(l, id)
  {
    Depth(AtPrice(l, PriceOf(l, id))) - Quantity(l, id) + q
  }

  function ResizedList(l: seq<Ticket>, id: OrderId, q: real): seq<Ticket> {
    if !HasId(l, id) then l
    else if NewTotal(l, id, q) <= 0.0 then DropPrice(l, PriceOf(l, id))
    else SetQty(l, id, q)
  }

  function Resized(b: Book, id: OrderId, q: real): Book {
    Book(ResizedList(b.bids, id, q), ResizedList(b.asks, id, q))
  }

  // ----- Levels and prices

  lemma {:induction false} PricesAppend(a: seq<Ticket>, b: seq<Ticket>, p: real)
    ensures AtPrice(a + b, p) == AtPrice(a, p) + AtPrice(b, p)
    ensures DropPrice(a + b, p) == DropPrice(a, p) + DropPrice(b, p)
  {
    if a == [] {
      assert a + b == b;
    } else {
      PricesAppend(a[1..], b, p);
      assert (a + b)[1..] == a[1..] + b && (a + b)[0] == a[0];
    }
  }

  ghost predicate NoneAt(l: seq<Ticket>, p: real) {
    forall i | 0 <= i < |l| :: l[i].price != p
  }

  lemma {:induction false} NoneAtPrice(l: seq<Ticket>, p: real)
    requires NoneAt(l, p)
    ensures AtPrice(l, p) == [] && DropPrice(l, p) == l
  {
    if l != [] {
      NoneAtPrice(l[1..], p);
    }
  }

  lemma {:induction false} AllAtPrice(l: seq<Ticket>, p: real)
    requires forall i | 0 <= i < |l| :: l[i].price == p
    ensures AtPrice(l, p) == l && DropPrice(l, p) == []
  {
    if l != [] {
      AllAtPrice(l[1..], p);
    }
  }

  lemma {:induction false} NotAmong(v: seq<Level>, p: real)
    requires forall i | 0 <= i < |v| :: LevelOk(v[i]) && v[i].price != p
    ensures NoneAt(Flatten(v), p)
  {
    if v != [] {
      NotAmong(v[1..], p);
    }
  }

  lemma {:induction false} WithoutLevel(s: Side, v: seq<Level>, k: nat)
    requires LadderOk(s, v) && k < |v|
    ensures LadderOk(s, v[..k] + v[k + 1..])
    ensures NoneAt(Flatten(v[..k]), v[k].price) && NoneAt(Flatten(v[k + 1..]), v[k].price)
  {
    hide LevelOk, Flatten;
    var a, b := v[..k], v[k + 1..];
    var r := a + b;
    assert forall i | 0 <= i < |r| :: r[i] == v[if i < k then i else i + 1];
    NotAmong(a, v[k].price);
    NotAmong(b, v[k].price);
  }

  lemma {:induction false} PricesAround(a: seq<Ticket>, q: seq<Ticket>, b: seq<Ticket>, p: real)
    requires NoneAt(a, p) && NoneAt(b, p)
    requires forall i | 0 <= i < |q| :: q[i].price == p
    ensures AtPrice(a + q + b, p) == q && DropPrice(a + q + b, p) == a + b
  {
    NoneAtPrice(a, p);
    NoneAtPrice(b, p);
    AllAtPrice(q, p);
    PricesAppend(a + q, b, p);
    PricesAppend(a, q, p);
  }

  /** The orders at a level's price are the level's queue; without the level, the others remain. */
  lemma {:induction false} LevelAtPrice(s: Side, v: seq<Level>, k: nat)
    requires LadderOk(s, v) && k < |v|
    ensures AtPrice(Flatten(v), v[k].price) == v[k].queue
    ensures DropPrice(Flatten(v), v[k].price) == Flatten(v[..k] + v[k + 1..])
    ensures LadderOk(s, v[..k] + v[k + 1..])
  {
    assert LevelOk(v[k]);
    WithoutLevel(s, v, k);
    FlattenAt(v, k);
    FlattenAppend(v[..k], v[k + 1..]);
    hide Flatten, LevelOk, LadderOk;
    PricesAround(Flatten(v[..k]), v[k].queue, Flatten(v[k + 1..]), v[k].price);
  }

  // ----- Exactly when a modify is an ordinary one

  lemma {:induction false} PriceAt(l: seq<Ticket>, k: nat)
    requires Unique(l) && k < |l|
    ensures HasId(l, l[k].id) && PriceOf(l, l[k].id) == l[k].price
  {
    if k > 0 {
      assert l[0].id != l[k].id && l[1..][k - 1] == l[k];
      PriceAt(l[1..], k - 1);
    }
  }

  /** A level holds at least each of its orders. */
  lemma {:induction false} LevelCovers(l: seq<Ticket>, id: OrderId)
    requires Positive(l) && HasId(l, id)
    ensures Depth(AtPrice(l, PriceOf(l, id))) >= Quantity(l, id)
  {
    var p := PriceOf(l, id);
    AtPricePositive(l[1..], p);
    DepthNonNegative(AtPrice(l[1..], p));
    if l[0].price == p {
      assert AtPrice(l, p)[1..] == AtPrice(l[1..], p);
    }
    hide AtPrice;
    if l[0].id != id {
      TailHas(l, id);
      LevelCovers(l[1..], id);
    }
  }

  lemma {:induction false} AtPricePositive(l: seq<Ticket>, p: real)
    requires Positive(l)
    ensures Positive(AtPrice(l, p))
  {
    if l != [] {
      AtPricePositive(l[1..], p);
    }
  }

  lemma {:induction false} ResizedPositiveList(l: seq<Ticket>, id: OrderId, q: real)
    requires Positive(l) && q > 0.0
    ensures ResizedList(l, id, q) == SetQty(l, id, q)
  {
    if HasId(l, id) {
      LevelCovers(l, id);
    } else {
      SetQtyAbsent(l, id, q);
    }
  }

  /** A positive quantity changes one order in place and nothing else. */
  lemma {:induction false} ResizedPositive(b: Book, id: OrderId, q: real)
    requires WellFormed(b) && q > 0.0
    ensures Resized(b, id, q) == Modify(b, id, q)
  {
    ResizedPositiveList(b.bids, id, q);
    ResizedPositiveList(b.asks, id, q);
  }

  lemma {:induction false} ResizedAbsent(b: Book, id: OrderId, q: real)
    requires !Rests(b, id)
    ensures Resized(b, id, q) == b
  {
  }

  lemma {:induction false} Dropped(l: seq<Ticket>, p: real)
    ensures forall j | 0 <= j < |DropPrice(l, p)| :: DropPrice(l, p)[j].price != p && DropPrice(l, p)[j] in l
  {
    if l != [] {
      Dropped(l[1..], p);
    }
  }

  /** Any other quantity either drops the order from the lists with its whole level, or leaves it
      queued without a positive quantity. */
  lemma {:induction false} ResizedNotPositive(l: seq<Ticket>, id: OrderId, q: real)
    requires Unique(l) && HasId(l, id) && q <= 0.0
    ensures var r := ResizedList(l, id, q);
            if NewTotal(l, id, q) <= 0.0 then !HasId(r, id) else HasId(r, id) && !Positive(r)
  {
    var k :| 0 <= k < |l| && l[k].id == id;
    PriceAt(l, k);
    Dropped(l, l[k].price);
    SetQtyAll(l, id, q);
    assert SetQty(l, id, q)[k].id == id && SetQty(l, id, q)[k].qty == q;
  }

  // ----- The next taker

  /** A taker that reaches an order of quantity zero trades nothing with it, and takes it out of the list. */
  lemma {:induction false} ZeroQuantityTrade(l: seq<Ticket>, t: Ticket, rem: real, k: nat)
    requires k < |l| && Positive(l[..k]) && l[k].qty == 0.0
    requires Depth(l[..k]) < rem && forall i | 0 <= i <= k :: Accepts(t, l[i].price)
    ensures var r := Sweep(l, t, rem);
            && k < |r.fills| && r.fills[k] == Fill(l[k], 0.0)
            && |r.rest| < |l| - k
  {
    hide Accepts;
    if k > 0 {
      assert l[..k][0] == l[0] && l[..k][1..] == l[1..][..k - 1];
      DepthNonNegative(l[1..][..k - 1]);
      ZeroQuantityTrade(l[1..], t, rem - l[0].qty, k - 1);
    } else {
      SweepShrinks(l[1..], t, rem);
    }
  }

  lemma {:induction false} SweepShrinks(l: seq<Ticket>, t: Ticket, rem: real)
    ensures |Sweep(l, t, rem).rest| <= |l|
  {
    if l != [] {
      SweepShrinks(l[1..], t, rem - l[0].qty);
    }
  }
}
