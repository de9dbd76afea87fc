/** The reference model: a book is two plain lists of orders in priority order, best first.
    Everything the two-level structure and the matching loops do is specified here. */
module FlatBook {
  import opened Orders

  datatype Book = Book(bids: seq<Ticket>, asks: seq<Ticket>) {
    function On(s: Side): seq<Ticket> {
      if s.BUY? then bids else asks
    }

    function With(s: Side, l: seq<Ticket>): Book {
      if s.BUY? then Book(l, asks) else Book(bids, l)
    }
  }

  const EMPTY := Book([], [])

  // ----- Priority lists

  /** On side `s`, price `p` has at least the priority of price `q`. */
  predicate AtLeastAsGood(s: Side, p: real, q: real) {
    if s.BUY? then p >= q else p <= q
  }

  predicate Better(s: Side, p: real, q: real) {
    if s.BUY? then p > q else p < q
  }

  ghost predicate Sorted(s: Side, l: seq<Ticket>) {
    forall i, j | 0 <= i < j < |l| :: AtLeastAsGood(s, l[i].price, l[j].price)
  }

  ghost predicate Unique(l: seq<Ticket>) {
    forall i, j | 0 <= i < j < |l| :: l[i].id != l[j].id
  }

  /** A well-formed side of a book. */
  ghost predicate Queue(s: Side, l: seq<Ticket>) {
    && Sorted(s, l)
    && Unique(l)
    && (forall i | 0 <= i < |l| :: l[i].side == s && l[i].qty > 0.0)
  }

  predicate HasId(l: seq<Ticket>, id: OrderId) {
    exists i | 0 <= i < |l| :: l[i].id == id
  }

  predicate Rests(b: Book, id: OrderId) {
    HasId(b.bids, id) || HasId(b.asks, id)
  }

  ghost predicate WellFormed(b: Book) {
    && Queue(BUY, b.bids)
    && Queue(SELL, b.asks)
    && (forall i, j | 0 <= i < |b.bids| && 0 <= j < |b.asks| :: b.bids[i].id != b.asks[j].id)
  }

  /** Best bid below best ask. */
  predicate Uncrossed(b: Book) {
    b.bids == [] || b.asks == [] || b.bids[0].price < b.asks[0].price
  }

  /** Total quantity of a list. */
  function Depth(l: seq<Ticket>): real {
    if l == [] then 0.0 else l[0].qty + Depth(l[1..])
  }

  // ----- Book operations

  /** Stable insertion: behind every order at an equal or better price. */
  function Insert(l: seq<Ticket>, t: Ticket): seq<Ticket> {
    if l == [] || !AtLeastAsGood(t.side, l[0].price, t.price) then [t] + l else [l[0]] + Insert(l[1..], t)
  }

  /** The order called `id` gets quantity `q`, in place. */
  function SetQty(l: seq<Ticket>, id: OrderId, q: real): (r: seq<Ticket>)
    ensures |r| == |l|
  {
    if l == [] then [] else [if l[0].id == id then l[0].(qty := q) else l[0]] + SetQty(l[1..], id, q)
  }

  /** The list without the order called `id`. */
  function Without(l: seq<Ticket>, id: OrderId): seq<Ticket> {
    if l == [] then [] else if l[0].id == id then Without(l[1..], id) else [l[0]] + Without(l[1..], id)
  }

  function Quantity(l: seq<Ticket>, id: OrderId): real
    requires HasId(l, id)
  {
    if l[0].id == id then l[0].qty else Quantity(l[1..], id)
  }

  function Add(b: Book, t: Ticket): Book {
    b.With(t.side, Insert(b.On(t.side), t))
  }

  function Modify(b: Book, id: OrderId, q: real): Book {
    Book(SetQty(b.bids, id, q), SetQty(b.asks, id, q))
  }

  function Cancel(b: Book, id: OrderId): Book {
    Book(Without(b.bids, id), Without(b.asks, id))
  }

  /** Takes `amount` off one order; the order leaves the list when nothing remains of it. */
  function Reduce(l: seq<Ticket>, id: OrderId, amount: real): seq<Ticket> {
    if !HasId(l, id) then l
    else if Quantity(l, id) - amount <= 0.0 then Without(l, id)
    else SetQty(l, id, Quantity(l, id) - amount)
  }

  function Decrease(b: Book, id: OrderId, amount: real): Book {
    Book(Reduce(b.bids, id, amount), Reduce(b.asks, id, amount))
  }

  // ----- Matching

  /** The taker is willing to trade at price `p`. */
  predicate Accepts(t: Ticket, p: real) {
    t.kind.MARKET? || (if t.side.BUY? then p <= t.price else p >= t.price)
  }

  datatype Fill = Fill(maker: Ticket, qty: real)

  /** Fills of a sweep, what is left of the swept list, what is left of the taker. */
  datatype Outcome = Outcome(fills: seq<Fill>, rest: seq<Ticket>, left: real)

  function Sweep(opp: seq<Ticket>, t: Ticket, rem: real): Outcome {
    if opp == [] || rem <= 0.0 || !Accepts(t, opp[0].price) then
      Outcome([], opp, rem)
    else if opp[0].qty <= rem then
      var r := Sweep(opp[1..], t, rem - opp[0].qty);
      Outcome([Fill(opp[0], opp[0].qty)] + r.fills, r.rest, r.left)
    else
      Outcome([Fill(opp[0], rem)], [opp[0].(qty := opp[0].qty - rem)] + opp[1..], 0.0)
  }

  /** A list whose head was filled by `amount`. */
  function Remaining(l: seq<Ticket>, amount: real): seq<Ticket>
    requires l != []
  {
    if amount == l[0].qty then l[1..] else [l[0].(qty := l[0].qty - amount)] + l[1..]
  }

  /** The capped list of candidates: acceptable orders until their sum reaches the quantity. */
  function Capped(opp: seq<Ticket>, t: Ticket, rem: real): seq<Ticket> {
    if opp == [] || rem <= 0.0 || !Accepts(t, opp[0].price) then []
    else [opp[0]] + Capped(opp[1..], t, rem - opp[0].qty)
  }

  /** All acceptable orders, however many. */
  function Acceptable(opp: seq<Ticket>, t: Ticket): seq<Ticket> {
    if opp == [] || !Accepts(t, opp[0].price) then [] else [opp[0]] + Acceptable(opp[1..], t)
  }

  datatype Matched = Matched(book: Book, fills: seq<Fill>, left: real)

  /** What `processOrder` does to a book, by order type. */
  function Process(b: Book, t: Ticket): Matched {
    var opp := b.On(t.side.Opposite());
    var r := Sweep(opp, t, t.qty);
    var swept := b.With(t.side.Opposite(), r.rest);
    match t.kind
    case MARKET => Matched(swept, r.fills, r.left)
    case IOC => Matched(swept, r.fills, r.left)
    case LIMIT => Matched(if r.left > 0.0 then Add(swept, t.(qty := r.left)) else swept, r.fills, r.left)
    case FOK => if Depth(Capped(opp, t, t.qty)) < t.qty then Matched(b, [], t.qty) else Matched(swept, r.fills, r.left)
    case _ => Matched(b, [], t.qty)
  }

  // ----- Lists: basic facts

  lemma {:induction false} DepthAppend(a: seq<Ticket>, b: seq<Ticket>)
    ensures Depth(a + b) == Depth(a) + Depth(b)
  {
    if a == [] {
      assert a + b == b;
    } else {
      DepthAppend(a[1..], b);
      assert (a + b)[1..] == a[1..] + b;
    }
  }

  lemma {:induction false} DepthNonNegative(l: seq<Ticket>)
    requires forall i | 0 <= i < |l| :: l[i].qty > 0.0
    ensures Depth(l) >= 0.0
    ensures l != [] ==> Depth(l) > 0.0
  {
    if l != [] {
      DepthNonNegative(l[1..]);
    }
  }

  lemma {:induction false} WithoutAppend(a: seq<Ticket>, b: seq<Ticket>, id: OrderId)
    ensures Without(a + b, id) == Without(a, id) + Without(b, id)
  {
    if a == [] {
      assert a + b == b;
    } else {
      WithoutAppend(a[1..], b, id);
      assert (a + b)[1..] == a[1..] + b && (a + b)[0] == a[0];
      assert [a[0]] + (Without(a[1..], id) + Without(b, id)) == ([a[0]] + Without(a[1..], id)) + Without(b, id);
    }
  }

  lemma {:induction false} WithoutAbsent(l: seq<Ticket>, id: OrderId)
    requires !HasId(l, id)
    ensures Without(l, id) == l
  {
    if l != [] {
      assert l[0].id != id;
      assert forall i | 0 <= i < |l| - 1 :: l[1..][i] == l[i + 1];
      WithoutAbsent(l[1..], id);
    }
  }

  /** With unique ids, cancelling deletes exactly one element and keeps all others in order. */
  lemma {:induction false} WithoutAt(l: seq<Ticket>, k: nat)
    requires Unique(l) && k < |l|
    ensures Without(l, l[k].id) == l[..k] + l[k + 1..]
  {
    var tail := l[1..];
    if k == 0 {
      assert !HasId(tail, l[0].id);
      WithoutAbsent(tail, l[0].id);
    } else {
      assert tail[k - 1] == l[k] && l[0].id != l[k].id;
      WithoutAt(tail, k - 1);
      assert l[..k] == [l[0]] + tail[..k - 1] && l[k + 1..] == tail[k..];
    }
  }

  lemma {:induction false} SetQtyAt(l: seq<Ticket>, id: OrderId, q: real, k: nat)
    requires k < |l|
    ensures SetQty(l, id, q)[k] == if l[k].id == id then l[k].(qty := q) else l[k]
  {
    if k > 0 {
      SetQtyAt(l[1..], id, q, k - 1);
    }
  }

  lemma {:induction false} SetQtyAll(l: seq<Ticket>, id: OrderId, q: real)
    ensures forall k | 0 <= k < |l| :: SetQty(l, id, q)[k] == if l[k].id == id then l[k].(qty := q) else l[k]
  {
    forall k | 0 <= k < |l|
      ensures SetQty(l, id, q)[k] == if l[k].id == id then l[k].(qty := q) else l[k]
    {
      SetQtyAt(l, id, q, k);
    }
  }

  lemma {:induction false} SetQtyAppend(a: seq<Ticket>, b: seq<Ticket>, id: OrderId, q: real)
    ensures SetQty(a + b, id, q) == SetQty(a, id, q) + SetQty(b, id, q)
  {
    SetQtyAll(a, id, q);
    SetQtyAll(b, id, q);
    SetQtyAll(a + b, id, q);
  }

  lemma {:induction false} SetQtyAbsent(l: seq<Ticket>, id: OrderId, q: real)
    requires !HasId(l, id)
    ensures SetQty(l, id, q) == l
  {
    SetQtyAll(l, id, q);
  }

  lemma {:induction false} QuantityAt(l: seq<Ticket>, k: nat)
    requires Unique(l) && k < |l|
    ensures HasId(l, l[k].id) && Quantity(l, l[k].id) == l[k].qty
  {
    if k > 0 {
      assert l[0].id != l[k].id;
      assert l[1..][k - 1] == l[k];
      QuantityAt(l[1..], k - 1);
    }
  }

  /** Adding is a stable insertion: some prefix is at least as good, everything behind is strictly worse. */
  lemma {:induction false} InsertSplits(l: seq<Ticket>, t: Ticket) returns (k: nat)
    requires Sorted(t.side, l)
    ensures k <= |l| && Insert(l, t) == l[..k] + [t] + l[k..]
    ensures forall i | 0 <= i < k :: AtLeastAsGood(t.side, l[i].price, t.price)
    ensures forall i | k <= i < |l| :: Better(t.side, t.price, l[i].price)
  {
    if l == [] || !AtLeastAsGood(t.side, l[0].price, t.price) {
      k := 0;
      assert l[..0] + [t] + l[0..] == [t] + l;
    } else {
      var m := InsertSplits(l[1..], t);
      k := m + 1;
      assert l[..k] == [l[0]] + l[1..][..m];
      assert l[k..] == l[1..][m..];
    }
  }

  // ----- Every operation keeps a list well formed

  lemma {:induction false} InsertedIds(l: seq<Ticket>, t: Ticket, k: nat, id: OrderId)
    requires k <= |l|
    ensures HasId(l[..k] + [t] + l[k..], id) <==> HasId(l, id) || id == t.id
  {
    var r := l[..k] + [t] + l[k..];
    assert r[k] == t;
    if i :| 0 <= i < |l| && l[i].id == id {
      assert r[if i < k then i else i + 1].id == id;
    }
    if i :| 0 <= i < |r| && r[i].id == id && i != k {
      assert l[if i < k then i else i - 1].id == id;
    }
  }

  lemma {:induction false} DepthInserted(l: seq<Ticket>, t: Ticket, k: nat)
    requires k <= |l|
    ensures Depth(l[..k] + [t] + l[k..]) == Depth(l) + t.qty
  {
    DepthAppend(l[..k] + [t], l[k..]);
    DepthAppend(l[..k], [t]);
    DepthAppend(l[..k], l[k..]);
    assert l[..k] + l[k..] == l;
    assert [t][1..] == [];
  }

  lemma {:induction false} InsertedQueue(s: Side, l: seq<Ticket>, t: Ticket, k: nat)
    requires Queue(s, l) && t.side == s && t.qty > 0.0 && !HasId(l, t.id) && k <= |l|
    requires forall i | 0 <= i < k :: AtLeastAsGood(s, l[i].price, t.price)
    requires forall i | k <= i < |l| :: Better(s, t.price, l[i].price)
    ensures Queue(s, l[..k] + [t] + l[k..])
  {
    var r := l[..k] + [t] + l[k..];
    assert forall i | 0 <= i < |r| :: r[i] == if i < k then l[i] else if i == k then t else l[i - 1];
    assert forall i | 0 <= i < |l| :: l[i].id != t.id;
    assert Unique(r);
    assert Sorted(s, r);
  }

  lemma {:induction false} QueueInsert(s: Side, l: seq<Ticket>, t: Ticket)
    requires Queue(s, l) && t.side == s && t.qty > 0.0 && !HasId(l, t.id)
    ensures Queue(s, Insert(l, t))
    ensures Depth(Insert(l, t)) == Depth(l) + t.qty
    ensures forall id :: HasId(Insert(l, t), id) <==> HasId(l, id) || id == t.id
  {
    var k := InsertSplits(l, t);
    InsertedQueue(s, l, t, k);
    DepthInserted(l, t, k);
    forall id
      ensures HasId(Insert(l, t), id) <==> HasId(l, id) || id == t.id
    {
      InsertedIds(l, t, k, id);
    }
  }

  lemma {:induction false} QueueSetQty(s: Side, l: seq<Ticket>, id: OrderId, q: real)
    requires Queue(s, l) && q > 0.0
    ensures Queue(s, SetQty(l, id, q))
    ensures forall x :: HasId(SetQty(l, id, q), x) <==> HasId(l, x)
  {
    SetQtyAll(l, id, q);
    forall x
      ensures HasId(SetQty(l, id, q), x) <==> HasId(l, x)
    {
      if i :| 0 <= i < |l| && l[i].id == x {
        assert SetQty(l, id, q)[i].id == x;
      }
    }
  }

  lemma {:induction false} RemovedAt(s: Side, l: seq<Ticket>, k: nat)
    requires Queue(s, l) && k < |l|
    ensures Queue(s, l[..k] + l[k + 1..])
    ensures forall x :: HasId(l[..k] + l[k + 1..], x) <==> HasId(l, x) && x != l[k].id
  {
    var r := l[..k] + l[k + 1..];
    assert forall i | 0 <= i < |r| :: r[i] == if i < k then l[i] else l[i + 1];
    forall x
      ensures HasId(r, x) <==> HasId(l, x) && x != l[k].id
    {
      if i :| 0 <= i < |l| && l[i].id == x && x != l[k].id {
        assert r[if i < k then i else i - 1].id == x;
      }
    }
  }

  lemma {:induction false} QueueWithout(s: Side, l: seq<Ticket>, id: OrderId)
    requires Queue(s, l)
    ensures Queue(s, Without(l, id))
    ensures forall x :: HasId(Without(l, id), x) <==> HasId(l, x) && x != id
  {
    if HasId(l, id) {
      var k :| 0 <= k < |l| && l[k].id == id;
      WithoutAt(l, k);
      RemovedAt(s, l, k);
    } else {
      WithoutAbsent(l, id);
    }
  }

  // ----- Every operation keeps a book well formed

  lemma {:induction false} DistinctSides(b: Book, s: Side, j: nat)
    requires WellFormed(b) && j < |b.On(s)|
    ensures !HasId(b.On(s.Opposite()), b.On(s)[j].id)
  {
  }

  lemma {:induction false} AddKeepsWellFormed(b: Book, t: Ticket)
    requires WellFormed(b) && t.qty > 0.0 && !Rests(b, t.id)
    ensures WellFormed(Add(b, t))
    ensures forall id :: Rests(Add(b, t), id) <==> Rests(b, id) || id == t.id
  {
    var l := Insert(b.On(t.side), t);
    var other := b.On(t.side.Opposite());
    QueueInsert(t.side, b.On(t.side), t);
    forall i, j | 0 <= i < |l| && 0 <= j < |other|
      ensures l[i].id != other[j].id
    {
      assert HasId(l, l[i].id);
      DistinctSides(b, t.side.Opposite(), j);
    }
  }

  lemma {:induction false} InsertDuplicate(l: seq<Ticket>, t: Ticket)
    requires Sorted(t.side, l)
    ensures HasId(Insert(l, t), t.id)
    ensures HasId(l, t.id) ==> !Unique(Insert(l, t))
  {
    var k := InsertSplits(l, t);
    var r := Insert(l, t);
    assert r[k] == t;
    if j :| 0 <= j < |l| && l[j].id == t.id {
      assert r[if j < k then j else j + 1] == l[j];
    }
  }

  lemma {:induction false} OnBothSides(b: Book, id: OrderId)
    requires HasId(b.bids, id) && HasId(b.asks, id)
    ensures !WellFormed(b)
  {
    var i :| 0 <= i < |b.bids| && b.bids[i].id == id;
    var j :| 0 <= j < |b.asks| && b.asks[j].id == id;
    assert b.bids[i].id == b.asks[j].id;
  }

  /** An order under an id that rests already makes two of them. */
  lemma {:induction false} AddDuplicate(b: Book, t: Ticket)
    requires WellFormed(b) && Rests(b, t.id)
    ensures !WellFormed(Add(b, t))
  {
    InsertDuplicate(b.On(t.side), t);
    hide Insert, HasId, Sorted, Unique;
    if HasId(b.On(t.side.Opposite()), t.id) { OnBothSides(Add(b, t), t.id); }
  }

  lemma {:induction false} ModifyKeepsWellFormed(b: Book, id: OrderId, q: real)
    requires WellFormed(b) && q > 0.0
    ensures WellFormed(Modify(b, id, q))
    ensures forall x :: Rests(Modify(b, id, q), x) <==> Rests(b, x)
    ensures Uncrossed(b) ==> Uncrossed(Modify(b, id, q))
  {
    QueueSetQty(BUY, b.bids, id, q);
    QueueSetQty(SELL, b.asks, id, q);
    SetQtyAll(b.bids, id, q);
    SetQtyAll(b.asks, id, q);
  }

  lemma {:induction false} CancelKeepsWellFormed(b: Book, id: OrderId)
    requires WellFormed(b)
    ensures WellFormed(Cancel(b, id))
    ensures forall x :: Rests(Cancel(b, id), x) <==> Rests(b, x) && x != id
  {
    QueueWithout(BUY, b.bids, id);
    QueueWithout(SELL, b.asks, id);
    var c := Cancel(b, id);
    forall i, j | 0 <= i < |c.bids| && 0 <= j < |c.asks|
      ensures c.bids[i].id != c.asks[j].id
    {
      assert HasId(c.bids, c.bids[i].id) && HasId(c.asks, c.asks[j].id);
    }
  }

  lemma {:induction false} CancelKeepsUncrossed(b: Book, id: OrderId)
    requires WellFormed(b) && Uncrossed(b)
    ensures Uncrossed(Cancel(b, id))
  {
    WithoutHead(BUY, b.bids, id);
    WithoutHead(SELL, b.asks, id);
  }

  lemma {:induction false} WithoutHead(s: Side, l: seq<Ticket>, id: OrderId)
    requires Queue(s, l)
    ensures Without(l, id) != [] ==> l != [] && AtLeastAsGood(s, l[0].price, Without(l, id)[0].price)
  {
    if HasId(l, id) {
      var k :| 0 <= k < |l| && l[k].id == id;
      WithoutAt(l, k);
    } else {
      WithoutAbsent(l, id);
    }
  }

  lemma {:induction false} DecreaseKeepsWellFormed(b: Book, id: OrderId, amount: real)
    requires WellFormed(b)
    ensures WellFormed(Decrease(b, id, amount))
    ensures forall x :: Rests(Decrease(b, id, amount), x) ==> Rests(b, x)
  {
    ReduceKeepsQueue(BUY, b.bids, id, amount);
    ReduceKeepsQueue(SELL, b.asks, id, amount);
    var d := Decrease(b, id, amount);
    forall i, j | 0 <= i < |d.bids| && 0 <= j < |d.asks|
      ensures d.bids[i].id != d.asks[j].id
    {
      assert HasId(d.bids, d.bids[i].id) && HasId(d.asks, d.asks[j].id);
    }
  }

  lemma {:induction false} ReduceKeepsQueue(s: Side, l: seq<Ticket>, id: OrderId, amount: real)
    requires Queue(s, l)
    ensures Queue(s, Reduce(l, id, amount))
    ensures forall x :: HasId(Reduce(l, id, amount), x) ==> HasId(l, x)
  {
    hide Queue, HasId, Without, SetQty;
    QueueWithout(s, l, id);
    if HasId(l, id) && Quantity(l, id) - amount > 0.0 {
      QueueSetQty(s, l, id, Quantity(l, id) - amount);
    }
  }
}
