/** The engine around the books as a value: books, pending trigger orders and the write-ahead log, what
    each critical section of src/engine/matching_engine.cpp does to them, and what it keeps. */
module EngineCore {
  import opened Orders
  import opened FlatBook
  import opened MatchingLaws
  import opened Resizing

  /** One line of the write-ahead log. Cancel and modify lines carry no symbol. */
  datatype Entry =
    | Submitted(order: Ticket)
    | Cancelled(id: OrderId)
    | Modified(id: OrderId, quantity: real)
    | Activated(id: OrderId, symbol: Symbol)
    | Traded(trade: Trade)

  type Books = map<Symbol, Book>
  type Triggers = map<Symbol, seq<Ticket>>

  /** `logging` is walEnabled && !replaying. */
  datatype Core = Core(books: Books, triggers: Triggers, log: seq<Entry>, logging: bool)

  /** An empty engine whose log has just been started. */
  const START := Core(map[], map[], [], true)

  /** An empty engine about to replay a log. */
  const REPLAYING := Core(map[], map[], [], false)

  // ----- Where an id lives

  predicate RestsIn(books: Books, s: Symbol, id: OrderId) {
    s in books && Rests(books[s], id)
  }

  ghost predicate RestsAnywhere(books: Books, id: OrderId) {
    exists s :: RestsIn(books, s, id)
  }

  predicate PendingIn(triggers: Triggers, s: Symbol, id: OrderId) {
    s in triggers && HasId(triggers[s], id)
  }

  ghost predicate PendingAnywhere(triggers: Triggers, id: OrderId) {
    exists s :: PendingIn(triggers, s, id)
  }

  /** The book in which cancel and modify find an id. The source takes the first one its iteration
      meets; when no id rests in two books there is only one candidate. */
  ghost function Holder(books: Books, id: OrderId): (s: Symbol)
    requires RestsAnywhere(books, id)
    ensures RestsIn(books, s, id)
  {
    var s :| RestsIn(books, s, id); s
  }

  // ----- Steps

  function Write(c: Core, e: Entry): Core {
    if c.logging then c.(log := c.log + [e]) else c
  }

  /** getOrCreateOrderBook. */
  function Open(books: Books, s: Symbol): (r: Books)
    ensures s in r
  {
    if s in books then books else books[s := EMPTY]
  }

  /** The book of a symbol; an unknown one is empty. */
  function BookAt(books: Books, s: Symbol): Book {
    Open(books, s)[s]
  }

  /** Matches an order in its symbol's book. */
  function Match(books: Books, s: Symbol, t: Ticket): Books {
    Open(books, s)[s := Process(BookAt(books, s), t).book]
  }

  function Push(triggers: Triggers, t: Ticket): Triggers {
    triggers[t.symbol := (if t.symbol in triggers then triggers[t.symbol] else []) + [t]]
  }

  function Submit(c: Core, t: Ticket): Core {
    var c' := Write(c.(books := Open(c.books, t.symbol)), Submitted(t));
    if IsTrigger(t.kind) then c'.(triggers := Push(c.triggers, t)) else c'.(books := Match(c.books, t.symbol, t))
  }

  ghost function CancelOrder(c: Core, id: OrderId): Core {
    if !RestsAnywhere(c.books, id) then c
    else
      var s := Holder(c.books, id);
      Write(c.(books := c.books[s := Cancel(c.books[s], id)]), Cancelled(id))
  }

  ghost function ModifyOrder(c: Core, id: OrderId, q: real): Core {
    if !RestsAnywhere(c.books, id) then c
    else
      var s := Holder(c.books, id);
      Write(c.(books := c.books[s := Resized(c.books[s], id, q)]), Modified(id, q))
  }

  /** The condition under which a pending order triggers at a last trade price. */
  predicate Hit(t: Ticket, price: real) {
    match t.kind
    case STOP_LOSS => if t.side.SELL? then price <= t.price else price >= t.price
    case TAKE_PROFIT => if t.side.SELL? then price >= t.price else price <= t.price
    case STOP_LIMIT => if t.side.SELL? then price <= t.price else price >= t.price
    case _ => false
  }

  /** The order that an activated trigger becomes. */
  function Active(t: Ticket): Ticket {
    if t.kind.STOP_LIMIT? then t.(kind := LIMIT) else t.(kind := MARKET, price := 0.0)
  }

  function StillPending(pending: seq<Ticket>, price: real): seq<Ticket> {
    if pending == [] then []
    else if Hit(pending[0], price) then StillPending(pending[1..], price)
    else [pending[0]] + StillPending(pending[1..], price)
  }

  /** Looks at one pending order: matches and logs it if the price hits it. */
  function Examine(c: Core, s: Symbol, t: Ticket, price: real): Core {
    if Hit(t, price) then Write(c.(books := Match(c.books, s, Active(t))), Activated(t.id, s)) else c
  }

  /** Activates, in order, the pending orders that the price hits. */
  function Fire(c: Core, s: Symbol, pending: seq<Ticket>, price: real): Core
    decreases |pending|
  {
    if pending == [] then c else Fire(Examine(c, s, pending[0], price), s, pending[1..], price)
  }

  function CheckTriggers(c: Core, s: Symbol, price: real): Core {
    if s !in c.triggers then c
    else Fire(c, s, c.triggers[s], price).(triggers := c.triggers[s := StillPending(c.triggers[s], price)])
  }

  // ----- Invariant

  ghost predicate BooksOk(books: Books) {
    forall s | s in books :: WellFormed(books[s]) && Uncrossed(books[s])
  }

  ghost predicate OneBook(books: Books) {
    forall s1, s2, id :: RestsIn(books, s1, id) && RestsIn(books, s2, id) ==> s1 == s2
  }

  ghost predicate TriggersOk(triggers: Triggers) {
    && (forall s | s in triggers :: Unique(triggers[s]))
    && (forall s, i | s in triggers && 0 <= i < |triggers[s]| ::
          IsTrigger(triggers[s][i].kind) && triggers[s][i].symbol == s)
    && (forall s1, s2, id :: PendingIn(triggers, s1, id) && PendingIn(triggers, s2, id) ==> s1 == s2)
  }

  /** No id is both pending and resting. */
  ghost predicate Apart(books: Books, triggers: Triggers) {
    forall id :: !(RestsAnywhere(books, id) && PendingAnywhere(triggers, id))
  }

  ghost predicate Invariant(c: Core) {
    BooksOk(c.books) && OneBook(c.books) && TriggersOk(c.triggers) && Apart(c.books, c.triggers)
  }

  // ----- The invariant is kept by every step

  /** Changing one book keeps the invariant on books, when the ids it gains rest nowhere else. */
  lemma {:induction false} ReplaceBook(books: Books, s: Symbol, b: Book, extra: OrderId)
    requires BooksOk(books) && OneBook(books)
    requires WellFormed(b) && Uncrossed(b)
    requires forall id :: Rests(b, id) ==> RestsIn(books, s, id) || (id == extra && !RestsAnywhere(books, id))
    ensures BooksOk(books[s := b]) && OneBook(books[s := b])
    ensures forall id :: RestsAnywhere(books[s := b], id) ==> RestsAnywhere(books, id) || id == extra
  {
    var books' := books[s := b];
    forall s1, s2, id | RestsIn(books', s1, id) && RestsIn(books', s2, id)
      ensures s1 == s2
    {
      if s1 != s { assert RestsIn(books, s1, id); }
      if s2 != s { assert RestsIn(books, s2, id); }
    }
    forall id | RestsAnywhere(books', id)
      ensures RestsAnywhere(books, id) || id == extra
    {
      var s1 :| RestsIn(books', s1, id);
      if s1 != s { assert RestsIn(books, s1, id); }
    }
  }

  lemma {:induction false} OpenKeeps(books: Books, s: Symbol)
    requires BooksOk(books) && OneBook(books)
    ensures BooksOk(Open(books, s)) && OneBook(Open(books, s))
    ensures forall x, id :: RestsIn(Open(books, s), x, id) <==> RestsIn(books, x, id)
    ensures forall id :: RestsAnywhere(Open(books, s), id) <==> RestsAnywhere(books, id)
  {
    forall x, id
      ensures RestsIn(Open(books, s), x, id) <==> RestsIn(books, x, id)
    {
    }
    forall id
      ensures RestsAnywhere(Open(books, s), id) <==> RestsAnywhere(books, id)
    {
      if x :| RestsIn(books, x, id) { assert RestsIn(Open(books, s), x, id); }
      if x :| RestsIn(Open(books, s), x, id) { assert RestsIn(books, x, id); }
    }
  }

  /** A match keeps the books sound if its order rests in no other book when it comes to rest. */
  lemma {:induction false} MatchKeeps(books: Books, s: Symbol, t: Ticket)
    requires BooksOk(books) && OneBook(books) && !RestsIn(books, s, t.id)
    requires LeavesRemainder(BookAt(books, s), t) ==> !RestsAnywhere(books, t.id)
    ensures BooksOk(Match(books, s, t)) && OneBook(Match(books, s, t))
    ensures forall id :: RestsAnywhere(Match(books, s, t), id) ==>
                           RestsAnywhere(books, id) || (id == t.id && LeavesRemainder(BookAt(books, s), t))
  {
    hide LeavesRemainder, WellFormed, Uncrossed, Process, Rests;
    OpenKeeps(books, s);
    var b := BookAt(books, s);
    assert !RestsIn(Open(books, s), s, t.id);
    ProcessKeepsWellFormed(b, t);
    ProcessKeepsUncrossed(b, t);
    assert forall id :: Rests(b, id) ==> RestsIn(Open(books, s), s, id);
    if LeavesRemainder(b, t) {
      ReplaceBook(Open(books, s), s, Process(b, t).book, t.id);
    } else {
      ShrinkBook(Open(books, s), s, Process(b, t).book);
    }
  }

  /** Changing one book keeps the invariant on books, when it gains no id. */
  lemma {:induction false} ShrinkBook(books: Books, s: Symbol, b: Book)
    requires BooksOk(books) && OneBook(books) && WellFormed(b) && Uncrossed(b)
    requires forall id :: Rests(b, id) ==> RestsIn(books, s, id)
    ensures BooksOk(books[s := b]) && OneBook(books[s := b])
    ensures forall id :: RestsAnywhere(books[s := b], id) ==> RestsAnywhere(books, id)
  {
    hide WellFormed, Uncrossed, Rests;
    var books' := books[s := b];
    forall x, id | RestsIn(books', x, id)
      ensures RestsIn(books, x, id)
    {
    }
  }

  lemma {:induction false} PushAdds(triggers: Triggers, t: Ticket, id: OrderId)
    ensures PendingAnywhere(Push(triggers, t), id) <==> PendingAnywhere(triggers, id) || id == t.id
  {
    var r := Push(triggers, t);
    var l := if t.symbol in triggers then triggers[t.symbol] else [];
    assert r[t.symbol] == l + [t] && r[t.symbol][|l|] == t;
    assert PendingIn(r, t.symbol, t.id);
    if s :| PendingIn(triggers, s, id) {
      if s == t.symbol {
        var i :| 0 <= i < |l| && l[i].id == id;
        assert (l + [t])[i].id == id;
      }
      assert PendingIn(r, s, id);
    }
    if s :| PendingIn(r, s, id) {
      if s == t.symbol && id != t.id {
        var i :| 0 <= i < |l + [t]| && (l + [t])[i].id == id;
        assert l[i].id == id;
      }
      assert id == t.id || PendingIn(triggers, s, id);
    }
  }

  lemma {:induction false} PushKeeps(triggers: Triggers, t: Ticket)
    requires TriggersOk(triggers) && IsTrigger(t.kind) && !PendingAnywhere(triggers, t.id)
    ensures TriggersOk(Push(triggers, t))
  {
    var r := Push(triggers, t);
    var l := if t.symbol in triggers then triggers[t.symbol] else [];
    assert r[t.symbol] == l + [t];
    assert !PendingIn(triggers, t.symbol, t.id);
    assert !HasId(l, t.id);
    forall s, id | PendingIn(r, s, id)
      ensures PendingIn(triggers, s, id) || (s == t.symbol && id == t.id)
    {
      if s == t.symbol {
        var i :| 0 <= i < |l + [t]| && (l + [t])[i].id == id;
        if i < |l| { assert l[i].id == id; }
      }
    }
    forall s1, s2, id | PendingIn(r, s1, id) && PendingIn(r, s2, id)
      ensures s1 == s2
    {
      assert PendingIn(triggers, s1, id) || (s1 == t.symbol && id == t.id);
      assert PendingIn(triggers, s2, id) || (s2 == t.symbol && id == t.id);
    }
  }

  lemma {:induction false} SubmitKeeps(c: Core, t: Ticket)
    requires Invariant(c) && !RestsAnywhere(c.books, t.id) && !PendingAnywhere(c.triggers, t.id)
    ensures Invariant(Submit(c, t))
  {
    OpenKeeps(c.books, t.symbol);
    if IsTrigger(t.kind) {
      PushKeeps(c.triggers, t);
      forall id | RestsAnywhere(c.books, id)
        ensures !PendingAnywhere(Push(c.triggers, t), id)
      {
        PushAdds(c.triggers, t, id);
      }
    } else {
      assert !RestsIn(c.books, t.symbol, t.id);
      MatchKeeps(c.books, t.symbol, t);
    }
  }

  lemma {:induction false} CancelKeeps(c: Core, id: OrderId)
    requires Invariant(c)
    ensures Invariant(CancelOrder(c, id))
  {
    if RestsAnywhere(c.books, id) {
      var s := Holder(c.books, id);
      CancelKeepsWellFormed(c.books[s], id);
      CancelKeepsUncrossed(c.books[s], id);
      ReplaceBook(c.books, s, Cancel(c.books[s], id), id);
    }
  }

  lemma {:induction false} ModifyKeeps(c: Core, id: OrderId, q: real)
    requires Invariant(c) && (q > 0.0 || !RestsAnywhere(c.books, id))
    ensures Invariant(ModifyOrder(c, id, q))
  {
    if RestsAnywhere(c.books, id) {
      var s := Holder(c.books, id);
      ResizedPositive(c.books[s], id, q);
      ModifyKeepsWellFormed(c.books[s], id, q);
      ReplaceBook(c.books, s, Modify(c.books[s], id, q), id);
    }
  }

  // ----- Triggers

  /** The pending list after a check is a sublist in the same order ... */
  ghost predicate Sublist(r: seq<Ticket>, l: seq<Ticket>) {
    r == [] || (l != [] && if r[0] == l[0] then Sublist(r[1..], l[1..]) else Sublist(r, l[1..]))
  }

  /** ... of exactly the orders whose condition fails. */
  lemma {:induction false} StillPendingExact(l: seq<Ticket>, price: real)
    ensures Sublist(StillPending(l, price), l)
    ensures forall t :: t in StillPending(l, price) <==> t in l && !Hit(t, price)
  {
    if l != [] {
      StillPendingExact(l[1..], price);
      var r := StillPending(l, price);
      if !Hit(l[0], price) {
        assert r[0] == l[0] && r[1..] == StillPending(l[1..], price);
      } else if r != [] {
        assert r[0] in StillPending(l[1..], price);
      }
    }
  }

  /** What a check of triggers leaves pending, in prices: stops fire when the price has gone their way, a
      stop of a seller at or below its price and of a buyer at or above; take-profits the other way round. */
  lemma {:induction false} CheckDecides(c: Core, s: Symbol, price: real, t: Ticket)
    requires s in c.triggers && t in c.triggers[s] && IsTrigger(t.kind)
    ensures var after := CheckTriggers(c, s, price).triggers;
            && s in after && Sublist(after[s], c.triggers[s])
            && (forall u | u in c.triggers && u != s :: u in after && after[u] == c.triggers[u])
            && (t.kind.STOP_LOSS? && t.side.SELL? ==> (t in after[s] <==> price > t.price))
            && (t.kind.STOP_LOSS? && t.side.BUY? ==> (t in after[s] <==> price < t.price))
            && (t.kind.TAKE_PROFIT? && t.side.SELL? ==> (t in after[s] <==> price < t.price))
            && (t.kind.TAKE_PROFIT? && t.side.BUY? ==> (t in after[s] <==> price > t.price))
            && (t.kind.STOP_LIMIT? && t.side.SELL? ==> (t in after[s] <==> price > t.price))
            && (t.kind.STOP_LIMIT? && t.side.BUY? ==> (t in after[s] <==> price < t.price))
  {
    StillPendingExact(c.triggers[s], price);
    hide Fire, StillPending, Sublist;
  }

  /** An order that one price hits is hit by every price further on its side: for a seller's stop and a
      buyer's take-profit that is below, for the others above. */
  lemma {:induction false} HitsPersist(t: Ticket, price: real, further: real)
    requires Hit(t, price)
    requires if t.kind.TAKE_PROFIT? <==> t.side.BUY? then further <= price else further >= price
    ensures Hit(t, further)
  {
  }

  /** Away from the price itself, exactly one of a stop-loss and a take-profit of the same side is hit. */
  lemma {:induction false} StopOrProfit(stop: Ticket, profit: Ticket, price: real)
    requires stop.kind.STOP_LOSS? && profit.kind.TAKE_PROFIT?
    requires stop.side == profit.side && stop.price == profit.price
    ensures price != stop.price ==> (Hit(profit, price) <==> !Hit(stop, price))
    ensures price == stop.price ==> Hit(profit, price) && Hit(stop, price)
  {
  }

  /** The price activates the pending order called `id`. */
  ghost predicate HitId(l: seq<Ticket>, price: real, id: OrderId) {
    exists i | 0 <= i < |l| :: l[i].id == id && Hit(l[i], price)
  }

  lemma {:induction false} HitIdTail(l: seq<Ticket>, price: real, id: OrderId)
    requires l != []
    ensures HitId(l, price, id) <==> (l[0].id == id && Hit(l[0], price)) || HitId(l[1..], price, id)
    ensures HasId(l, id) <==> l[0].id == id || HasId(l[1..], id)
  {
    if i :| 0 <= i < |l[1..]| && l[1..][i].id == id {
      assert l[i + 1].id == id;
    }
    if i :| 0 <= i < |l[1..]| && l[1..][i].id == id && Hit(l[1..][i], price) {
      assert l[i + 1].id == id;
    }
    if i :| 0 < i < |l| && l[i].id == id {
      assert l[1..][i - 1].id == id;
    }
  }

  /** In a list without repeated ids, the ids that stay are the ones that are not hit. */
  lemma {:induction false} StillPendingIds(l: seq<Ticket>, price: real)
    requires Unique(l)
    ensures Unique(StillPending(l, price))
    ensures forall id :: HasId(StillPending(l, price), id) <==> HasId(l, id) && !HitId(l, price, id)
  {
    if l != [] {
      var tail := StillPending(l[1..], price);
      StillPendingIds(l[1..], price);
      forall id
        ensures HasId(StillPending(l, price), id) <==> HasId(l, id) && !HitId(l, price, id)
      {
        HitIdTail(l, price, id);
        if id == l[0].id {
          assert !HasId(l[1..], id);
        }
        if !Hit(l[0], price) {
          HitIdTail([l[0]] + tail, price, id);
          assert ([l[0]] + tail)[1..] == tail;
        }
      }
      if !Hit(l[0], price) {
        assert !HasId(l[1..], l[0].id);
        assert !HasId(tail, l[0].id);
        UniqueCons(l[0], tail);
      }
    }
  }

  lemma {:induction false} UniqueCons(t: Ticket, l: seq<Ticket>)
    requires Unique(l) && !HasId(l, t.id)
    ensures Unique([t] + l)
  {
    var r := [t] + l;
    forall i, j | 0 <= i < j < |r|
      ensures r[i].id != r[j].id
    {
      assert HasId(l, l[j - 1].id);
    }
  }

  /** What a pending list looks like while it is being checked. */
  ghost predicate Pendable(books: Books, pending: seq<Ticket>) {
    && Unique(pending)
    && forall i | 0 <= i < |pending| ::
         IsTrigger(pending[i].kind) && !RestsAnywhere(books, pending[i].id)
  }

  lemma {:induction false} FireKeeps(c: Core, s: Symbol, pending: seq<Ticket>, price: real)
    requires BooksOk(c.books) && OneBook(c.books) && Pendable(c.books, pending)
    ensures var f := Fire(c, s, pending, price);
            && BooksOk(f.books) && OneBook(f.books) && f.triggers == c.triggers && f.logging == c.logging
            && forall id :: RestsAnywhere(f.books, id) ==> RestsAnywhere(c.books, id) || HitId(pending, price, id)
    decreases |pending|
  {
    if pending != [] {
      var head, tail := pending[0], pending[1..];
      var c' := Examine(c, s, head, price);
      if Hit(head, price) {
        assert !RestsIn(c.books, s, head.id);
        MatchKeeps(c.books, s, Active(head));
        assert forall i | 0 <= i < |tail| :: tail[i] == pending[i + 1];
      }
      FireKeeps(c', s, tail, price);
      forall id | RestsAnywhere(Fire(c, s, pending, price).books, id)
        ensures RestsAnywhere(c.books, id) || HitId(pending, price, id)
      {
        HitIdTail(pending, price, id);
      }
    }
  }

  lemma {:induction false} CheckKeepsTriggers(triggers: Triggers, s: Symbol, price: real)
    requires TriggersOk(triggers) && s in triggers
    ensures var r := triggers[s := StillPending(triggers[s], price)];
            && TriggersOk(r)
            && forall id :: PendingAnywhere(r, id) <==> PendingAnywhere(triggers, id) && !HitId(triggers[s], price, id)
  {
    var r: Triggers := triggers[s := StillPending(triggers[s], price)];
    StillPendingIds(triggers[s], price);
    StillPendingExact(triggers[s], price);
    forall x, i | x in r && 0 <= i < |r[x]|
      ensures IsTrigger(r[x][i].kind) && r[x][i].symbol == x
    {
      if x == s { assert r[s][i] in triggers[s]; }
    }
    forall x, id
      ensures PendingIn(r, x, id) <==> PendingIn(triggers, x, id) && !(x == s && HitId(triggers[s], price, id))
    {
    }
    forall id
      ensures PendingAnywhere(r, id) <==> PendingAnywhere(triggers, id) && !HitId(triggers[s], price, id)
    {
      if HitId(triggers[s], price, id) {
        assert PendingIn(triggers, s, id);
      } else if x :| PendingIn(triggers, x, id) {
        assert PendingIn(r, x, id);
      }
    }
  }

  lemma {:induction false} PendingIsPendable(c: Core, s: Symbol)
    requires Invariant(c) && s in c.triggers
    ensures Pendable(c.books, c.triggers[s])
  {
    forall i | 0 <= i < |c.triggers[s]|
      ensures !RestsAnywhere(c.books, c.triggers[s][i].id)
    {
      assert PendingIn(c.triggers, s, c.triggers[s][i].id);
    }
  }

  lemma {:induction false} CheckKeeps(c: Core, s: Symbol, price: real)
    requires Invariant(c)
    ensures Invariant(CheckTriggers(c, s, price))
  {
    if s in c.triggers {
      PendingIsPendable(c, s);
      FireKeeps(c, s, c.triggers[s], price);
      CheckKeepsTriggers(c.triggers, s, price);
    }
  }

  lemma {:induction false} FireLogging(c: Core, s: Symbol, pending: seq<Ticket>, price: real)
    ensures Fire(c, s, pending, price).logging == c.logging
    decreases |pending|
  {
    if pending != [] {
      var c' := Examine(c, s, pending[0], price);
      FireLogging(c', s, pending[1..], price);
    }
  }
}
