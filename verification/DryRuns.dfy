/** Exactly when a check of triggers leaves a book as it was. The orders it hits may trade with each other
    and nothing else: a dry run of them alone, which knows the best prices of the book, must end empty. */
module DryRuns {
  import opened Orders
  import opened FlatBook
  import opened MatchingLaws
  import opened EngineCore
  import opened Resizing

  /** What a check does to its symbol's book. */
  function FireBook(b: Book, pending: seq<Ticket>, price: real): Book
    decreases |pending|
  {
    if pending == [] then b
    else FireBook(if Hit(pending[0], price) then Process(b, Active(pending[0])).book else b, pending[1..], price)
  }

  /** Strictly between the best prices. */
  predicate Inside(o: Book, p: real) {
    && (o.bids == [] || o.bids[0].price < p)
    && (o.asks == [] || p < o.asks[0].price)
  }

  /** The hits trade among themselves in `l`, which starts empty, and nothing of them is left. A stop-limit
      must fall between the best prices of the real book `o`; any other hit must be filled by hits before it,
      unless the real book has nothing to fill it with. */
  predicate Among(l: Book, o: Book, pending: seq<Ticket>, price: real)
    decreases |pending|
  {
    if pending == [] then l == EMPTY
    else
      var t := pending[0];
      if !Hit(t, price) || t.qty <= 0.0 then Among(l, o, pending[1..], price)
      else
        var m := Process(l, Active(t));
        Spares(o, t, m.left) && Among(m.book, o, pending[1..], price)
  }

  predicate Spares(o: Book, t: Ticket, left: real) {
    if t.kind.STOP_LIMIT? then Inside(o, t.price) else left == 0.0 || o.On(t.side.Opposite()) == []
  }

  /** Of the real book the best prices matter and nothing else. */
  lemma {:induction false} BestPricesDecide(l: Book, o: Book, o': Book, pending: seq<Ticket>, price: real)
    requires forall d: Side :: o.On(d) == [] <==> o'.On(d) == []
    requires forall d: Side | o.On(d) != [] :: o.On(d)[0].price == o'.On(d)[0].price
    ensures Among(l, o, pending, price) <==> Among(l, o', pending, price)
    decreases |pending|
  {
    hide Process, Hit, Active;
    assert o.bids == o.On(BUY) && o.asks == o.On(SELL) && o'.bids == o'.On(BUY) && o'.asks == o'.On(SELL);
    if pending != [] {
      var t := pending[0];
      if !Hit(t, price) || t.qty <= 0.0 {
        BestPricesDecide(l, o, o', pending[1..], price);
      } else {
        BestPricesDecide(Process(l, Active(t)).book, o, o', pending[1..], price);
      }
    }
  }

  // ----- Lists that still end with the original orders

  predicate EndsWith(l: seq<Ticket>, o: seq<Ticket>) {
    |o| <= |l| && l[|l| - |o|..] == o
  }

  /** No original order has gained quantity. */
  ghost predicate NoMore(l: seq<Ticket>, o: seq<Ticket>) {
    forall i, k | 0 <= i < |l| && 0 <= k < |o| && l[i].id == o[k].id :: l[i].qty <= o[k].qty
  }

  lemma {:induction false} EndsTail(l: seq<Ticket>, o: seq<Ticket>)
    requires l != []
    ensures EndsWith(l, o) <==> EndsWith(l[1..], o) || l == o
  {
    if |o| < |l| {
      assert l[|l| - |o|..] == l[1..][|l| - 1 - |o|..];
    }
  }

  lemma {:induction false} TailStays(l: seq<Ticket>, o: seq<Ticket>)
    requires NoMore(l, o) && l != []
    ensures NoMore(l[1..], o) && (EndsWith(l[1..], o) ==> EndsWith(l, o))
  {
    EndsTail(l, o);
    assert forall i | 0 <= i < |l| - 1 :: l[1..][i] == l[i + 1];
  }

  lemma {:induction false} HeadStays(l: seq<Ticket>, o: seq<Ticket>, q: real)
    requires NoMore(l, o) && l != [] && q < l[0].qty
    ensures var r := [l[0].(qty := q)] + l[1..]; NoMore(r, o) && (EndsWith(r, o) ==> EndsWith(l, o))
  {
    var r := [l[0].(qty := q)] + l[1..];
    assert r[1..] == l[1..];
    assert forall i | 0 < i < |l| :: r[i] == l[i];
    assert r[0].id == l[0].id && r[0].qty < l[0].qty;
    EndsTail(r, o);
    EndsTail(l, o);
  }

  /** A list that no longer ends with the original orders never does again: sweeps only take away ... */
  lemma {:induction false} SweepStays(l: seq<Ticket>, o: seq<Ticket>, t: Ticket, rem: real)
    requires NoMore(l, o)
    ensures var r := Sweep(l, t, rem).rest; NoMore(r, o) && (EndsWith(r, o) ==> EndsWith(l, o))
  {
    hide NoMore, EndsWith, Accepts;
    if l != [] && rem > 0.0 && Accepts(t, l[0].price) {
      if l[0].qty <= rem {
        TailStays(l, o);
        SweepStays(l[1..], o, t, rem - l[0].qty);
      } else {
        HeadStays(l, o, l[0].qty - rem);
      }
    }
  }

  /** ... and new orders only stand between. */
  lemma {:induction false} InsertStays(l: seq<Ticket>, o: seq<Ticket>, t: Ticket)
    requires NoMore(l, o) && !HasId(o, t.id)
    ensures var r := Insert(l, t); NoMore(r, o) && HasId(r, t.id) && (EndsWith(r, o) ==> EndsWith(l, o))
  {
    var r := Insert(l, t);
    EndsTail(r, o);
    if l == [] || !AtLeastAsGood(t.side, l[0].price, t.price) {
      assert r[0] == t && r[1..] == l;
    } else {
      InsertStays(l[1..], o, t);
      EndsTail(l, o);
      assert r[1..] == Insert(l[1..], t) && r[0] == l[0];
      var k :| 0 <= k < |r[1..]| && r[1..][k].id == t.id;
      assert r[k + 1].id == t.id;
    }
  }

  // ----- Sweeps and inserts in front of the original orders

  lemma {:induction false} SweepInFront(a: seq<Ticket>, o: seq<Ticket>, t: Ticket, rem: real)
    requires o == [] || !Accepts(t, o[0].price) || Sweep(a, t, rem).left <= 0.0
    ensures Sweep(a + o, t, rem).rest == Sweep(a, t, rem).rest + o
    ensures Sweep(a + o, t, rem).left == Sweep(a, t, rem).left
  {
    if a == [] {
      assert a + o == o;
    } else {
      assert (a + o)[1..] == a[1..] + o;
      if rem > 0.0 && Accepts(t, a[0].price) && a[0].qty <= rem { SweepInFront(a[1..], o, t, rem - a[0].qty); }
    }
  }

  /** A sweep that takes everything in front and wants more takes from the original orders. */
  lemma {:induction false} SweepReaches(a: seq<Ticket>, o: seq<Ticket>, t: Ticket, rem: real)
    requires Positive(o) && o != [] && Accepts(t, o[0].price)
    requires Sweep(a, t, rem).rest == [] && Sweep(a, t, rem).left > 0.0
    ensures !EndsWith(Sweep(a + o, t, rem).rest, o)
  {
    if a == [] {
      assert a + o == o;
      SweepShrinks(o[1..], t, rem - o[0].qty);
    } else {
      assert (a + o)[1..] == a[1..] + o;
      SweepReaches(a[1..], o, t, rem - a[0].qty);
    }
  }

  lemma {:induction false} InsertInFront(a: seq<Ticket>, o: seq<Ticket>, t: Ticket)
    requires o == [] || !AtLeastAsGood(t.side, o[0].price, t.price)
    ensures Insert(a + o, t) == Insert(a, t) + o
  {
    if a == [] {
      assert a + o == o;
    } else {
      assert (a + o)[1..] == a[1..] + o;
      if AtLeastAsGood(t.side, a[0].price, t.price) { InsertInFront(a[1..], o, t); }
    }
  }

  lemma {:induction false} InsertBehind(a: seq<Ticket>, o: seq<Ticket>, t: Ticket)
    requires o != [] && Sorted(t.side, a + o) && !HasId(o, t.id)
    requires AtLeastAsGood(t.side, o[0].price, t.price)
    ensures !EndsWith(Insert(a + o, t), o)
  {
    var l, r := a + o, Insert(a + o, t);
    var k := InsertSplits(l, t);
    assert l[|a|] == o[0];
    assert r[k] == t && |r| == |l| + 1;
    assert r[|a| + 1..][k - |a| - 1] == t;
  }

  // ----- Books

  /** The local orders stand in front of the original ones. */
  function Over(l: Book, o: Book): Book {
    Book(l.bids + o.bids, l.asks + o.asks)
  }

  predicate Ends(b: Book, o: Book) {
    EndsWith(b.bids, o.bids) && EndsWith(b.asks, o.asks)
  }

  ghost predicate Under(b: Book, o: Book) {
    NoMore(b.bids, o.bids) && NoMore(b.asks, o.asks)
  }

  lemma {:induction false} ProcessStays(b: Book, o: Book, t: Ticket)
    requires Under(b, o) && !Rests(o, t.id)
    ensures var r := Process(b, t).book; Under(r, o) && (Ends(r, o) ==> Ends(b, o))
  {
    var s := t.side.Opposite();
    var r := Sweep(b.On(s), t, t.qty);
    SweepStays(b.On(s), o.On(s), t, t.qty);
    InsertStays(b.On(t.side), o.On(t.side), t.(qty := r.left));
    hide Sweep, Insert, NoMore, EndsWith, HasId, Capped, Depth;
  }

  /** The pending orders may be activated in this book. */
  ghost predicate Waiting(b: Book, pending: seq<Ticket>) {
    Unique(pending) && forall i | 0 <= i < |pending| :: IsTrigger(pending[i].kind) && !Rests(b, pending[i].id)
  }

  lemma {:induction false} WaitingStep(b: Book, pending: seq<Ticket>, price: real)
    requires pending != [] && WellFormed(b) && Waiting(b, pending)
    ensures var b' := if Hit(pending[0], price) then Process(b, Active(pending[0])).book else b;
            WellFormed(b') && Waiting(b', pending[1..])
  {
    assert forall i | 0 <= i < |pending| - 1 :: pending[1..][i] == pending[i + 1];
    hide Process, WellFormed, Rests, Hit;
    ProcessKeepsWellFormed(b, Active(pending[0]));
  }

  /** Whatever a check does to a changed book, it does not restore it. */
  lemma {:induction false} FireStays(b: Book, o: Book, pending: seq<Ticket>, price: real)
    requires Under(b, o) && !Ends(b, o) && Waiting(o, pending)
    ensures FireBook(b, pending, price) != o
    decreases |pending|
  {
    hide Process, Under, Ends, Rests, Hit;
    if pending == [] {
      assert Ends(o, o) by { OriginalEnds(o); }
    } else {
      assert forall i | 0 <= i < |pending| - 1 :: pending[1..][i] == pending[i + 1];
      if Hit(pending[0], price) {
        ProcessStays(b, o, Active(pending[0]));
        FireStays(Process(b, Active(pending[0])).book, o, pending[1..], price);
      } else {
        FireStays(b, o, pending[1..], price);
      }
    }
  }

  lemma {:induction false} OriginalEnds(o: Book)
    ensures Ends(o, o)
  {
  }

  /** Local orders lie between the best prices of the real book, buys at or below the trade price and
      sells at or above it. */
  ghost predicate Local(l: Book, o: Book, price: real) {
    LocalSide(BUY, l.bids, o, price) && LocalSide(SELL, l.asks, o, price)
  }

  ghost predicate LocalSide(d: Side, l: seq<Ticket>, o: Book, price: real) {
    forall i | 0 <= i < |l| :: Inside(o, l[i].price) && AtLeastAsGood(d, price, l[i].price)
  }

  ghost predicate Running(l: Book, o: Book, price: real) {
    Local(l, o, price) && WellFormed(Over(l, o))
  }

  lemma {:induction false} QueueParts(s: Side, a: seq<Ticket>, o: seq<Ticket>)
    requires Queue(s, a + o)
    ensures Queue(s, a) && Queue(s, o) && NoMore(a + o, o)
    ensures forall i, j | 0 <= i < |a| && 0 <= j < |o| :: AtLeastAsGood(s, a[i].price, o[j].price)
  {
    var l := a + o;
    assert forall i | 0 <= i < |a| :: a[i] == l[i];
    assert forall j | 0 <= j < |o| :: o[j] == l[|a| + j];
  }

  lemma {:induction false} HasIdOver(a: seq<Ticket>, o: seq<Ticket>, id: OrderId)
    ensures HasId(o, id) ==> HasId(a + o, id)
  {
    if k :| 0 <= k < |o| && o[k].id == id {
      assert (a + o)[|a| + k].id == id;
    }
  }

  lemma {:induction false} WaitingOriginal(l: Book, o: Book, pending: seq<Ticket>)
    requires Waiting(Over(l, o), pending)
    ensures Waiting(o, pending)
  {
    hide HasId;
    forall i | 0 <= i < |pending|
      ensures !Rests(o, pending[i].id)
    {
      HasIdOver(l.bids, o.bids, pending[i].id);
      HasIdOver(l.asks, o.asks, pending[i].id);
    }
  }

  // ----- One hit

  /** A hit order with a quantity, about to be activated in the running book. */
  ghost predicate Due(l: Book, o: Book, t: Ticket, price: real) {
    Running(l, o, price) && Hit(t, price) && IsTrigger(t.kind) && t.qty > 0.0 && !Rests(o, t.id)
  }

  lemma {:induction false} SidesParts(l: Book, o: Book, d: Side)
    requires WellFormed(Over(l, o))
    ensures Queue(d, l.On(d)) && Queue(d, o.On(d)) && Queue(d, l.On(d) + o.On(d))
  {
    QueueParts(d, l.On(d), o.On(d));
  }

  lemma {:induction false} SweepLocal(l: Book, o: Book, price: real, d: Side, t: Ticket, q: real)
    requires Local(l, o, price) && Positive(l.On(d))
    ensures Local(l.With(d, Sweep(l.On(d), t, q).rest), o, price)
  {
    SweepLeavesSuffix(l.On(d), t, q);
    hide Sweep, Inside, LocalSide;
    SuffixLocal(d, l.On(d), o, price, Sweep(l.On(d), t, q).rest);
  }

  lemma {:induction false} SuffixLocal(d: Side, l: seq<Ticket>, o: Book, price: real, r: seq<Ticket>)
    requires LocalSide(d, l, o, price) && Suffix(r, l)
    ensures LocalSide(d, r, o, price)
  {
    assert forall i | 0 <= i < |r| :: r[i].price == l[|l| - |r| + i].price;
    hide Inside;
  }

  lemma {:induction false} InsertLocal(l: Book, o: Book, t: Ticket, price: real)
    requires Local(l, o, price) && Sorted(t.side, l.On(t.side))
    requires Inside(o, t.price) && AtLeastAsGood(t.side, price, t.price)
    ensures Local(Add(l, t), o, price)
  {
    var m := l.On(t.side);
    var k := InsertSplits(m, t);
    var r := m[..k] + [t] + m[k..];
    assert LocalSide(t.side, m, o, price);
    assert forall i | 0 <= i < |r| :: r[i] == if i < k then m[i] else if i == k then t else m[i - 1];
    hide Insert, Inside;
    assert LocalSide(t.side, r, o, price);
  }

  /** A hit that does as the dry run asks leaves the original orders alone. */
  lemma {:induction false} MarketSpares(l: Book, o: Book, t: Ticket, price: real)
    requires Due(l, o, t, price) && !t.kind.STOP_LIMIT? && Spares(o, t, Process(l, Active(t)).left)
    ensures var b := Process(l, Active(t)).book;
            Process(Over(l, o), Active(t)).book == Over(b, o) && Local(b, o, price)
  {
    var a, s := Active(t), t.side.Opposite();
    SidesParts(l, o, s);
    SweepInFront(l.On(s), o.On(s), a, t.qty);
    SweepLocal(l, o, price, s, a, t.qty);
    hide Sweep, WellFormed, Local;
  }

  lemma {:induction false} LimitSpares(l: Book, o: Book, t: Ticket, price: real)
    requires Due(l, o, t, price) && t.kind.STOP_LIMIT? && Inside(o, t.price)
    ensures var b := Process(l, Active(t)).book;
            Process(Over(l, o), Active(t)).book == Over(b, o) && Local(b, o, price)
  {
    var a, s := Active(t), t.side.Opposite();
    SidesParts(l, o, s);
    SidesParts(l, o, t.side);
    SweepInFront(l.On(s), o.On(s), a, t.qty);
    SweepLocal(l, o, price, s, a, t.qty);
    var r := Sweep(l.On(s), a, t.qty);
    InsertInFront(l.On(t.side), o.On(t.side), a.(qty := r.left));
    InsertLocal(l.With(s, r.rest), o, a.(qty := r.left), price);
    hide Sweep, Insert, WellFormed, Local;
  }

  /** A hit that does not, changes them: a market order goes on into them ... */
  lemma {:induction false} MarketDisturbs(l: Book, o: Book, t: Ticket, price: real)
    requires Due(l, o, t, price) && !t.kind.STOP_LIMIT? && !Spares(o, t, Process(l, Active(t)).left)
    ensures !Ends(Process(Over(l, o), Active(t)).book, o)
  {
    var a, s := Active(t), t.side.Opposite();
    SidesParts(l, o, s);
    SweepExhausts(l.On(s), a, t.qty);
    SweepReaches(l.On(s), o.On(s), a, t.qty);
    hide Sweep, WellFormed, EndsWith;
  }

  /** ... and so does a limit order that reaches them, with nothing in front ... */
  lemma {:induction false} LimitReaches(l: Book, o: Book, t: Ticket, price: real)
    requires Due(l, o, t, price) && t.kind.STOP_LIMIT?
    requires var best := o.On(t.side.Opposite()); best != [] && Accepts(Active(t), best[0].price)
    ensures !Ends(Process(Over(l, o), Active(t)).book, o)
  {
    var a, s := Active(t), t.side.Opposite();
    SidesParts(l, o, s);
    NothingInFront(l, o, t, price);
    SweepReaches([], o.On(s), a, t.qty);
    hide Sweep, Insert, WellFormed, EndsWith, Local, Accepts, Hit;
    assert l.On(s) + o.On(s) == [] + o.On(s);
  }

  /** Local orders on that side would have to be beyond the trade price and within it. */
  lemma {:induction false} NothingInFront(l: Book, o: Book, t: Ticket, price: real)
    requires Local(l, o, price) && Hit(t, price) && t.kind.STOP_LIMIT?
    requires var best := o.On(t.side.Opposite()); best != [] && Accepts(Active(t), best[0].price)
    ensures l.On(t.side.Opposite()) == []
  {
    FrontIsLocal(l, o, price, t.side.Opposite());
    hide Local;
  }

  /** ... while another one that does not fit between the best prices queues up behind its own side. */
  lemma {:induction false} LimitQueues(l: Book, o: Book, t: Ticket, price: real)
    requires Due(l, o, t, price) && t.kind.STOP_LIMIT?
    requires var best := o.On(t.side.Opposite()); best == [] || !Accepts(Active(t), best[0].price)
    requires var own := o.On(t.side); own != [] && AtLeastAsGood(t.side, own[0].price, t.price)
    ensures !Ends(Process(Over(l, o), Active(t)).book, o)
  {
    var a, s := Active(t), t.side.Opposite();
    var opp := l.On(s) + o.On(s);
    SidesParts(l, o, t.side);
    FrontIsLocal(l, o, price, s);
    hide Insert, WellFormed, EndsWith, Local, HasId;
    assert opp == [] || !Accepts(a, opp[0].price);
    assert Sweep(opp, a, t.qty) == Outcome([], opp, t.qty);
    InsertBehind(l.On(t.side), o.On(t.side), a);
    hide Sweep;
  }

  lemma {:induction false} FrontIsLocal(l: Book, o: Book, price: real, d: Side)
    requires Local(l, o, price)
    ensures l.On(d) != [] ==> Inside(o, l.On(d)[0].price) && AtLeastAsGood(d, price, l.On(d)[0].price)
  {
  }

  lemma {:induction false} LimitDisturbs(l: Book, o: Book, t: Ticket, price: real)
    requires Due(l, o, t, price) && t.kind.STOP_LIMIT? && !Inside(o, t.price)
    ensures !Ends(Process(Over(l, o), Active(t)).book, o)
  {
    var best := o.On(t.side.Opposite());
    hide Running, Ends, Over, Process;
    if best != [] && Accepts(Active(t), best[0].price) {
      LimitReaches(l, o, t, price);
    } else {
      LimitQueues(l, o, t, price);
    }
  }

  // ----- The check

  lemma {:induction false} RunsOn(l: Book, o: Book, t: Ticket, price: real)
    requires Due(l, o, t, price) && !Rests(Over(l, o), t.id)
    ensures var m := Process(l, Active(t));
            var b := Process(Over(l, o), Active(t)).book;
            if Spares(o, t, m.left) then b == Over(m.book, o) && Local(m.book, o, price) else !Ends(b, o)
  {
    hide Process, Local, WellFormed, EndsWith;
    if t.kind.STOP_LIMIT? {
      if Inside(o, t.price) { LimitSpares(l, o, t, price); } else { LimitDisturbs(l, o, t, price); }
    } else {
      if Spares(o, t, Process(l, Active(t)).left) {
        MarketSpares(l, o, t, price);
      } else {
        MarketDisturbs(l, o, t, price);
      }
    }
  }

  lemma {:induction false} OverIs(l: Book, o: Book)
    ensures Over(l, o) == o <==> l == EMPTY
  {
    assert |l.bids + o.bids| == |l.bids| + |o.bids| && |l.asks + o.asks| == |l.asks| + |o.asks|;
    if l == EMPTY { assert [] + o.bids == o.bids && [] + o.asks == o.asks; }
  }

  lemma {:induction false} OverUnder(l: Book, o: Book)
    requires WellFormed(Over(l, o))
    ensures Under(Over(l, o), o)
  {
    QueueParts(BUY, l.bids, o.bids);
    QueueParts(SELL, l.asks, o.asks);
  }

  /** With the dry run at `l`, the rest of a check leads back to the original book if and only if the rest
      of the dry run succeeds. */
  lemma {:induction false} DryRunDecides(l: Book, o: Book, pending: seq<Ticket>, price: real)
    requires Running(l, o, price) && Waiting(Over(l, o), pending)
    ensures FireBook(Over(l, o), pending, price) == o <==> Among(l, o, pending, price)
    decreases |pending|
  {
    hide Process, Local, WellFormed, Waiting, Over, Under, Ends, Hit, Rests, Active, Spares;
    var b := Over(l, o);
    if pending == [] {
      OverIs(l, o);
    } else {
      var t, tail := pending[0], pending[1..];
      WaitingStep(b, pending, price);
      if !Hit(t, price) {
        DryRunDecides(l, o, tail, price);
      } else if t.qty <= 0.0 {
        EmptyActivation(b, t);
        DryRunDecides(l, o, tail, price);
      } else {
        OneHit(l, o, pending, price);
        var m := Process(l, Active(t));
        if Spares(o, t, m.left) { DryRunDecides(m.book, o, tail, price); }
      }
    }
  }

  lemma {:induction false} EmptyActivation(b: Book, t: Ticket)
    requires t.qty <= 0.0
    ensures Process(b, Active(t)).book == b
  {
    EmptyOrder(b, Active(t));
  }

  lemma {:induction false} OneHit(l: Book, o: Book, pending: seq<Ticket>, price: real)
    requires Running(l, o, price) && Waiting(Over(l, o), pending)
    requires pending != [] && Hit(pending[0], price) && pending[0].qty > 0.0
    ensures var m := Process(l, Active(pending[0]));
            var b := Process(Over(l, o), Active(pending[0])).book;
            if Spares(o, pending[0], m.left) then b == Over(m.book, o) && Running(m.book, o, price)
            else FireBook(b, pending[1..], price) != o
  {
    var t := pending[0];
    var b := Process(Over(l, o), Active(t)).book;
    WaitingStep(Over(l, o), pending, price);
    WaitingOriginal(l, o, pending);
    OverUnder(l, o);
    hide Process, Local, WellFormed, Over, Under, Ends, Hit, Active, Spares;
    RunsOn(l, o, t, price);
    if !Spares(o, t, Process(l, Active(t)).left) {
      ProcessStays(Over(l, o), o, Active(t));
      WaitingTail(o, pending);
      FireStays(b, o, pending[1..], price);
    }
  }

  lemma {:induction false} WaitingTail(b: Book, pending: seq<Ticket>)
    requires Waiting(b, pending) && pending != []
    ensures Waiting(b, pending[1..])
  {
    assert forall i | 0 <= i < |pending| - 1 :: pending[1..][i] == pending[i + 1];
  }

  /** A check leaves its book exactly as it was, if and only if a dry run of the hits among themselves, from
      an empty book on, stays between the book's best prices and ends empty. */
  lemma {:induction false} UnchangedExactly(o: Book, pending: seq<Ticket>, price: real)
    requires WellFormed(o) && Waiting(o, pending)
    ensures FireBook(o, pending, price) == o <==> Among(EMPTY, o, pending, price)
  {
    OverIs(EMPTY, o);
    hide Among, FireBook, WellFormed, Waiting;
    DryRunDecides(EMPTY, o, pending, price);
  }
}
