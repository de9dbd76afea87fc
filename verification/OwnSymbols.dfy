/** Orders stay in the book of their own symbol, and a step changes one book only. */
module OwnSymbols {
  import opened Orders
  import opened FlatBook
  import opened Resizing
  import opened EngineCore
  import opened Recovery
  import opened EngineRuns
  import opened Fees
  import opened Matching

  predicate Own(l: seq<Ticket>, s: Symbol) {
    forall i | 0 <= i < |l| :: l[i].symbol == s
  }

  predicate BookOwn(b: Book, s: Symbol) {
    Own(b.bids, s) && Own(b.asks, s)
  }

  ghost predicate AllOwn(books: map<Symbol, Book>) {
    forall s | s in books :: BookOwn(books[s], s)
  }

  predicate MakersOwn(fills: seq<Fill>, s: Symbol) {
    forall i | 0 <= i < |fills| :: fills[i].maker.symbol == s
  }

  ghost predicate SameElsewhere(books: map<Symbol, Book>, books': map<Symbol, Book>, s: Symbol) {
    forall u | u != s :: BookAt(books, u) == BookAt(books', u)
  }

  lemma {:induction false} SweepOwn(opp: seq<Ticket>, t: Ticket, rem: real, s: Symbol)
    requires Own(opp, s)
    ensures Own(Sweep(opp, t, rem).rest, s) && MakersOwn(Sweep(opp, t, rem).fills, s)
  {
    if opp != [] && rem > 0.0 && Accepts(t, opp[0].price) && opp[0].qty <= rem {
      SweepOwn(opp[1..], t, rem - opp[0].qty, s);
    }
  }

  lemma {:induction false} InsertOwn(l: seq<Ticket>, t: Ticket, s: Symbol)
    requires Own(l, s) && t.symbol == s
    ensures Own(Insert(l, t), s)
  {
    if l != [] && AtLeastAsGood(t.side, l[0].price, t.price) {
      InsertOwn(l[1..], t, s);
    }
  }

  lemma {:induction false} WithoutOwn(l: seq<Ticket>, id: OrderId, s: Symbol)
    requires Own(l, s)
    ensures Own(Without(l, id), s)
  {
    if l != [] {
      WithoutOwn(l[1..], id, s);
    }
  }

  lemma {:induction false} SetQtyOwn(l: seq<Ticket>, id: OrderId, q: real, s: Symbol)
    requires Own(l, s)
    ensures Own(SetQty(l, id, q), s)
  {
    SetQtyAll(l, id, q);
  }

  lemma {:induction false} DropPriceOwn(l: seq<Ticket>, p: real, s: Symbol)
    requires Own(l, s)
    ensures Own(DropPrice(l, p), s)
  {
    if l != [] {
      DropPriceOwn(l[1..], p, s);
    }
  }

  lemma {:induction false} ResizedOwn(b: Book, id: OrderId, q: real, s: Symbol)
    requires BookOwn(b, s)
    ensures BookOwn(Resized(b, id, q), s)
  {
    ResizedListOwn(b.bids, id, q, s);
    ResizedListOwn(b.asks, id, q, s);
  }

  lemma {:induction false} ResizedListOwn(l: seq<Ticket>, id: OrderId, q: real, s: Symbol)
    requires Own(l, s)
    ensures Own(ResizedList(l, id, q), s)
  {
    if HasId(l, id) {
      DropPriceOwn(l, PriceOf(l, id), s);
      SetQtyOwn(l, id, q, s);
    }
  }

  lemma {:induction false} ProcessOwn(b: Book, t: Ticket, s: Symbol)
    requires BookOwn(b, s) && t.symbol == s
    ensures BookOwn(Process(b, t).book, s) && MakersOwn(Process(b, t).fills, s)
  {
    var r := Sweep(b.On(t.side.Opposite()), t, t.qty);
    SweepOwn(b.On(t.side.Opposite()), t, t.qty, s);
    InsertOwn(b.On(t.side), t.(qty := r.left), s);
  }

  lemma {:induction false} MatchOwn(books: map<Symbol, Book>, t: Ticket)
    requires AllOwn(books)
    ensures AllOwn(Match(books, t.symbol, t)) && SameElsewhere(books, Match(books, t.symbol, t), t.symbol)
    ensures MakersOwn(Process(BookAt(books, t.symbol), t).fills, t.symbol)
  {
    hide Process;
    ProcessOwn(BookAt(books, t.symbol), t, t.symbol);
  }

  lemma {:induction false} FireOwn(c: Core, s: Symbol, pending: seq<Ticket>, price: real)
    requires AllOwn(c.books) && Own(pending, s)
    ensures AllOwn(Fire(c, s, pending, price).books) && SameElsewhere(c.books, Fire(c, s, pending, price).books, s)
    decreases |pending|
  {
    hide Match, Hit, BookAt, AllOwn;
    if pending != [] {
      var c' := Examine(c, s, pending[0], price);
      MatchOwn(c.books, Active(pending[0]));
      FireOwn(c', s, pending[1..], price);
    }
  }

  /** The symbol whose book a step may change. */
  ghost predicate Concerns(c: Core, e: Event, s: Symbol) {
    match e
    case DoSubmit(t) => t.symbol == s
    case DoCancel(id) => RestsIn(c.books, s, id)
    case DoModify(id, _) => RestsIn(c.books, s, id)
    case DoCheck(symbol, _) => symbol == s
    case DoStamp(_) => true
    case DoReplay(_) => false
  }

  lemma {:induction false} CheckOwn(c: Core, s: Symbol, price: real)
    requires Invariant(c) && AllOwn(c.books)
    ensures AllOwn(CheckTriggers(c, s, price).books) && SameElsewhere(c.books, CheckTriggers(c, s, price).books, s)
  {
    if s in c.triggers {
      FireOwn(c, s, c.triggers[s], price);
    }
  }

  lemma {:induction false} CancelOwn(c: Core, id: OrderId)
    requires AllOwn(c.books)
    ensures AllOwn(CancelOrder(c, id).books)
    ensures RestsAnywhere(c.books, id) ==> SameElsewhere(c.books, CancelOrder(c, id).books, Holder(c.books, id))
  {
    hide Rests;
    if RestsAnywhere(c.books, id) {
      var s := Holder(c.books, id);
      WithoutOwn(c.books[s].bids, id, s);
      WithoutOwn(c.books[s].asks, id, s);
    }
  }

  lemma {:induction false} ModifyOwn(c: Core, id: OrderId, q: real)
    requires AllOwn(c.books)
    ensures AllOwn(ModifyOrder(c, id, q).books)
    ensures RestsAnywhere(c.books, id) ==> SameElsewhere(c.books, ModifyOrder(c, id, q).books, Holder(c.books, id))
  {
    hide Rests, Resized;
    if RestsAnywhere(c.books, id) {
      var s := Holder(c.books, id);
      ResizedOwn(c.books[s], id, q, s);
    }
  }

  /** Every step but replay changes at most the book of the symbol it concerns, and brings no foreign
      order there. */
  lemma {:induction false} StepOwn(c: Core, e: Event, s: Symbol)
    requires Invariant(c) && AllOwn(c.books) && Concerns(c, e, s)
    ensures AllOwn(Step(c, e).books) && SameElsewhere(c.books, Step(c, e).books, s)
  {
    hide Process, Fire, Rests, BooksOk, TriggersOk, Apart, BookOwn;
    match e
    case DoSubmit(t) =>
      OpenOwn(c.books, t.symbol);
      MatchOwn(c.books, t);
    case DoCancel(id) =>
      CancelOwn(c, id);
      assert Holder(c.books, id) == s;
    case DoModify(id, q) =>
      ModifyOwn(c, id, q);
      assert Holder(c.books, id) == s;
    case DoCheck(_, price) => CheckOwn(c, s, price);
    case DoStamp(_) =>
  }

  lemma {:induction false} ReplayOwn(c: Core, log: seq<Entry>)
    requires AllOwn(c.books)
    ensures AllOwn(Replay(c, log).books)
  {
    hide Match, Push, AllOwn;
    if log != [] {
      var r, e := Replay(c, log[..|log| - 1]), log[|log| - 1];
      ReplayOwn(c, log[..|log| - 1]);
      match e
      case Submitted(t) =>
        OpenOwn(r.books, t.symbol);
        MatchOwn(r.books, t);
      case Cancelled(id) => CancelOwn(r, id);
      case Modified(id, q) => ModifyOwn(r, id, q);
      case Activated(_, _) =>
      case Traded(_) =>
    }
  }

  lemma {:induction false} OpenOwn(books: map<Symbol, Book>, s: Symbol)
    requires AllOwn(books)
    ensures AllOwn(Open(books, s))
  {
  }

  /** In every reachable state every order rests in the book of its own symbol. */
  lemma {:induction false} RunsOwn(c0: Core, es: seq<Event>)
    requires Invariant(c0) && AllOwn(c0.books) && Run(c0, es)
    ensures AllOwn(State(c0, es).books)
  {
    hide Invariant, RestsAnywhere, Submit, CheckTriggers, AllOwn, CancelOrder, ModifyOrder, Replay;
    if es != [] {
      var c, e := State(c0, es[..|es| - 1]), es[|es| - 1];
      RunsAreSafe(c0, es[..|es| - 1]);
      RunsOwn(c0, es[..|es| - 1]);
      match e
      case DoSubmit(t) => StepOwn(c, e, t.symbol);
      case DoCancel(id) => CancelOwn(c, id);
      case DoModify(id, q) => ModifyOwn(c, id, q);
      case DoCheck(s, _) => StepOwn(c, e, s);
      case DoStamp(_) => StepOwn(c, e, 0);
      case DoReplay(log) => ReplayOwn(c.(logging := false), log);
    }
  }
}
