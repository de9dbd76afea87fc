/** loadState (src/engine/matching_engine.cpp:587-607) on values: it replaces the books that were saved, and
    leaves other books and all pending triggers as they are. When does that give a sound engine? */
module SavedState {
  import opened Orders
  import opened FlatBook
  import opened MatchingLaws
  import opened Resizing
  import opened EngineCore
  import opened Recovery
  import opened EngineRuns
  import opened WriteAheadLog
  import opened DryRuns
  import opened Activations

  /** The books of a saved directory take the place of the engine's. */
  function Load(c: Core, saved: Books): Core {
    c.(books := c.books + saved)
  }

  /** The saved books are sound, and none of their ids is pending, or rests in a book that stays. */
  ghost predicate Loads(c: Core, saved: Books) {
    && BooksOk(saved) && OneBook(saved)
    && (forall id | RestsAnywhere(saved, id) :: !PendingAnywhere(c.triggers, id))
    && (forall s, id | s !in saved && RestsIn(c.books, s, id) :: !RestsAnywhere(saved, id))
  }

  lemma {:induction false} LoadedIds(books: Books, saved: Books, s: Symbol, id: OrderId)
    ensures RestsIn(books + saved, s, id) <==> if s in saved then RestsIn(saved, s, id) else RestsIn(books, s, id)
  {
  }

  lemma {:induction false} LoadedAnywhere(books: Books, saved: Books, id: OrderId)
    ensures RestsAnywhere(books + saved, id) <==>
            RestsAnywhere(saved, id) || exists s :: s !in saved && RestsIn(books, s, id)
  {
    hide RestsIn;
    forall s
      ensures RestsIn(books + saved, s, id) <==> if s in saved then RestsIn(saved, s, id) else RestsIn(books, s, id)
      ensures RestsIn(saved, s, id) ==> s in saved
    {
      LoadedIds(books, saved, s, id);
      OnlyInBooks(saved, s, id);
    }
    if RestsAnywhere(saved, id) {
      var s :| RestsIn(saved, s, id);
      assert RestsIn(books + saved, s, id);
    }
    if s :| s !in saved && RestsIn(books, s, id) {
      assert RestsIn(books + saved, s, id);
    }
  }

  lemma {:induction false} OnlyInBooks(books: Books, s: Symbol, id: OrderId)
    ensures RestsIn(books, s, id) ==> s in books
  {
  }

  lemma {:induction false} LoadedOneBook(books: Books, saved: Books)
    requires OneBook(books)
    ensures OneBook(books + saved) <==>
            OneBook(saved) && forall s, id | s !in saved && RestsIn(books, s, id) :: !RestsAnywhere(saved, id)
  {
    forall s, id
      ensures RestsIn(books + saved, s, id) <==> if s in saved then RestsIn(saved, s, id) else RestsIn(books, s, id)
      ensures RestsIn(saved, s, id) ==> s in saved
    {
      LoadedIds(books, saved, s, id);
      OnlyInBooks(saved, s, id);
    }
    hide RestsIn;
    if OneBook(books + saved) {
      forall s, u, id | RestsIn(saved, s, id) && RestsIn(saved, u, id)
        ensures s == u
      {
        assert RestsIn(books + saved, s, id) && RestsIn(books + saved, u, id);
      }
      forall s, id | s !in saved && RestsIn(books, s, id)
        ensures !RestsAnywhere(saved, id)
      {
        assert forall u | RestsIn(saved, u, id) :: RestsIn(books + saved, u, id) && RestsIn(books + saved, s, id);
      }
    }
  }

  lemma {:induction false} LoadedApart(c: Core, saved: Books)
    requires Apart(c.books, c.triggers)
    ensures Apart(c.books + saved, c.triggers) <==>
            forall id | RestsAnywhere(saved, id) :: !PendingAnywhere(c.triggers, id)
  {
    hide RestsIn, PendingAnywhere;
    forall id
      ensures RestsAnywhere(saved, id) ==> RestsAnywhere(c.books + saved, id)
      ensures RestsAnywhere(c.books + saved, id) ==> RestsAnywhere(saved, id) || RestsAnywhere(c.books, id)
    {
      LoadedAnywhere(c.books, saved, id);
    }
  }

  lemma {:induction false} LoadedBooksOk(books: Books, saved: Books)
    requires BooksOk(books)
    ensures BooksOk(books + saved) <==> BooksOk(saved)
  {
    hide WellFormed, Uncrossed;
    if BooksOk(books + saved) {
      forall s | s in saved
        ensures WellFormed(saved[s]) && Uncrossed(saved[s])
      {
        assert (books + saved)[s] == saved[s];
      }
    }
  }

  /** A sound engine is sound after loading, if and only if the saved books are sound among themselves and
      share no id with the pending orders or with the books that stay. */
  lemma {:induction false} LoadKeepsExactly(c: Core, saved: Books)
    requires Invariant(c)
    ensures Invariant(Load(c, saved)) <==> Loads(c, saved)
  {
    LoadedBooksOk(c.books, saved);
    LoadedOneBook(c.books, saved);
    LoadedApart(c, saved);
    hide BooksOk, OneBook, Apart, TriggersOk;
  }

  /** Starting up: an empty engine loads the books of any sound one. Its pending triggers are not saved. */
  lemma {:induction false} EmptyLoads(c: Core, d: Core)
    requires c.books == map[] && c.triggers == map[] && Invariant(d)
    ensures Loads(c, d.books) && Load(c, d.books).books == d.books
    ensures Load(c, d.books).triggers == d.triggers <==> d.triggers == map[]
  {
    EmptyEngine(c);
    hide BooksOk, OneBook;
  }

  // ----- Going back to a state of the same engine

  /** No saved id has become pending, and none rests anywhere but where it was saved. */
  ghost predicate Stays(c: Core, saved: Books) {
    forall id | RestsAnywhere(saved, id) ::
      !PendingAnywhere(c.triggers, id) && forall s | RestsIn(c.books, s, id) :: RestsIn(saved, s, id)
  }

  lemma {:induction false} FireBookBrings(b: Book, pending: seq<Ticket>, price: real, id: OrderId)
    requires WellFormed(b) && Waiting(b, pending) && Rests(FireBook(b, pending, price), id)
    ensures Rests(b, id) || HasId(pending, id)
    decreases |pending|
  {
    hide Process, WellFormed, Waiting, Hit, HasId;
    if pending != [] {
      var b' := if Hit(pending[0], price) then Process(b, Active(pending[0])).book else b;
      WaitingStep(b, pending, price);
      FireBookBrings(b', pending[1..], price, id);
      HasTail(pending, id);
      HeadWaits(b, pending);
      if Hit(pending[0], price) { ProcessKeepsWellFormed(b, Active(pending[0])); }
    }
  }

  lemma {:induction false} HasTail(l: seq<Ticket>, id: OrderId)
    requires l != []
    ensures HasId(l, l[0].id) && (HasId(l[1..], id) ==> HasId(l, id))
  {
    if k :| 0 <= k < |l| - 1 && l[1..][k].id == id { assert l[k + 1].id == id; }
  }

  lemma {:induction false} HeadWaits(b: Book, pending: seq<Ticket>)
    requires Waiting(b, pending) && pending != []
    ensures !Rests(b, pending[0].id)
  {
  }

  /** Where a step lets an id rest, it rested before, unless the step submits it or it was pending. */
  lemma {:induction false} StepRests(c: Core, e: Event, s: Symbol, id: OrderId)
    requires Invariant(c) && Allowed(c, e) && !e.DoReplay? && c.triggers.Keys <= c.books.Keys
    requires RestsIn(Step(c, e).books, s, id)
    ensures RestsIn(c.books, s, id) || PendingAnywhere(c.triggers, id) || (e.DoSubmit? && e.order.id == id)
  {
    hide Process, WellFormed, Rests, Uncrossed;
    match e
    case DoSubmit(t) =>
      OpenKeeps(c.books, t.symbol);
      assert !RestsIn(c.books, t.symbol, t.id);
      if s == t.symbol && !IsTrigger(t.kind) { ProcessKeepsWellFormed(BookAt(c.books, s), t); }
    case DoCancel(x) => if RestsAnywhere(c.books, x) { CancelKeepsWellFormed(c.books[Holder(c.books, x)], x); }
    case DoModify(x, q) =>
      if RestsAnywhere(c.books, x) {
        ResizedPositive(c.books[Holder(c.books, x)], x, q);
        ModifyKeepsWellFormed(c.books[Holder(c.books, x)], x, q);
      }
    case DoStamp(_) =>
    case DoCheck(u, price) => if u in c.triggers { CheckRests(c, u, price, s, id); }
  }

  lemma {:induction false} CheckRests(c: Core, u: Symbol, price: real, s: Symbol, id: OrderId)
    requires Invariant(c) && u in c.triggers && u in c.books && RestsIn(CheckTriggers(c, u, price).books, s, id)
    ensures RestsIn(c.books, s, id) || PendingAnywhere(c.triggers, id)
  {
    var b, pending := c.books[u], c.triggers[u];
    FireIs(c, u, pending, price);
    CheckedIsWaiting(c, u);
    hide FireBook, Fire, WellFormed, Waiting;
    if s == u {
      FireBookBrings(b, pending, price, id);
      if HasId(pending, id) { assert PendingIn(c.triggers, u, id); }
    }
  }

  lemma {:induction false} StepPends(c: Core, e: Event, id: OrderId)
    requires Invariant(c) && !e.DoReplay? && PendingAnywhere(Step(c, e).triggers, id)
    ensures PendingAnywhere(c.triggers, id) || (e.DoSubmit? && e.order.id == id)
  {
    hide Process, Match, Fire, StillPending, Push;
    match e
    case DoSubmit(t) => PushAdds(c.triggers, t, id);
    case DoCheck(s, price) => if s in c.triggers { CheckKeepsTriggers(c.triggers, s, price); }
    case _ =>
  }

  predicate Resubmits(es: seq<Event>, id: OrderId) {
    exists k | 0 <= k < |es| :: es[k].DoSubmit? && es[k].order.id == id
  }

  /** As long as no saved id is submitted again, an engine can go back to the books it once had. */
  lemma {:induction false} CanGoBack(c0: Core, es: seq<Event>)
    requires Invariant(c0) && c0.triggers.Keys <= c0.books.Keys && Run(c0, es) && Live(es)
    requires forall id | RestsAnywhere(c0.books, id) :: !Resubmits(es, id)
    ensures Stays(State(c0, es), c0.books) && Loads(State(c0, es), c0.books)
  {
    RunsAreSafe(c0, es);
    hide Run, State, Allowed, Step, BooksOk, OneBook, TriggersOk, Stays;
    StillStays(c0, es);
    StaysLoads(State(c0, es), c0.books);
  }

  lemma {:induction false} StaysLoads(c: Core, saved: Books)
    requires Stays(c, saved) && BooksOk(saved) && OneBook(saved)
    ensures Loads(c, saved)
  {
    hide BooksOk, OneBook, PendingAnywhere;
  }

  lemma {:induction false} StillStays(c0: Core, es: seq<Event>)
    requires Invariant(c0) && c0.triggers.Keys <= c0.books.Keys && Run(c0, es) && Live(es)
    requires forall id | RestsAnywhere(c0.books, id) :: !Resubmits(es, id)
    ensures Stays(State(c0, es), c0.books)
  {
    hide Allowed, Step, BooksOk, OneBook, TriggersOk, RestsIn, PendingIn;
    if es != [] {
      var p, e := es[..|es| - 1], es[|es| - 1];
      assert forall id | Resubmits(p, id) :: Resubmits(es, id) by { MoreResubmits(p, e); assert es == p + [e]; }
      StillStays(c0, p);
      RunsAreSafe(c0, p);
      PendingHaveBooks(c0, p);
      var c := State(c0, p);
      forall id | RestsAnywhere(c0.books, id)
        ensures !PendingAnywhere(Step(c, e).triggers, id)
        ensures forall s | RestsIn(Step(c, e).books, s, id) :: RestsIn(c0.books, s, id)
      {
        assert !(e.DoSubmit? && e.order.id == id);
        if PendingAnywhere(Step(c, e).triggers, id) { StepPends(c, e, id); }
        forall s | RestsIn(Step(c, e).books, s, id)
          ensures RestsIn(c0.books, s, id)
        {
          StepRests(c, e, s, id);
        }
      }
    }
  }

  lemma {:induction false} MoreResubmits(p: seq<Event>, e: Event)
    ensures forall id | Resubmits(p, id) :: Resubmits(p + [e], id)
  {
    forall id | Resubmits(p, id)
      ensures Resubmits(p + [e], id)
    {
      var k :| 0 <= k < |p| && p[k].DoSubmit? && p[k].order.id == id;
      assert (p + [e])[k] == p[k];
    }
  }

  const ONE: seq<Event> := [DoSubmit(SELL_ORDER)]
  const RESUBMITTED: seq<Event> := ONE + [DoCancel(SELL_ORDER.id)] + [DoSubmit(AGAIN)]

  lemma {:induction false} OneRests()
    ensures Run(START, ONE) && State(START, ONE).books == map[0 := Book([], [SELL_ORDER])]
    ensures State(START, ONE).triggers == map[] && RestsIn(State(START, ONE).books, 0, SELL_ORDER.id)
  {
    var none: seq<Event> := [];
    EmptyEngine(START);
    assert none + ONE == ONE;
    NextState(START, none, DoSubmit(SELL_ORDER));
    assert Process(EMPTY, SELL_ORDER).book == Book([], [SELL_ORDER]);
    assert [SELL_ORDER][0].id == SELL_ORDER.id;
  }

  lemma {:induction false} NothingRests(c: Core)
    requires c.books == map[0 := Book([], [SELL_ORDER])]
    ensures CancelOrder(c, SELL_ORDER.id).books == map[0 := EMPTY]
            && CancelOrder(c, SELL_ORDER.id).triggers == c.triggers
    ensures !RestsAnywhere(map[0 := EMPTY], SELL_ORDER.id)
  {
    assert [SELL_ORDER][0].id == SELL_ORDER.id;
    assert RestsIn(c.books, 0, SELL_ORDER.id);
    assert Without([SELL_ORDER], SELL_ORDER.id) == [];
  }

  /** Saved with an order resting; the order is cancelled and its id submitted as a trigger; loading brings
      the order back, and its id both rests and waits. */
  lemma {:induction false} LoadBreaksApart()
    ensures var c, saved := State(START, RESUBMITTED), State(START, ONE).books;
            Run(START, RESUBMITTED) && RestsIn(saved, 0, AGAIN.id) && !Apart(Load(c, saved).books, c.triggers)
  {
    var two := ONE + [DoCancel(SELL_ORDER.id)];
    var none: seq<Event> := [];
    var c1 := State(START, ONE);
    OneRests();
    NextState(START, ONE, DoCancel(SELL_ORDER.id));
    NextState(START, two, DoSubmit(AGAIN));
    hide State, Run;
    NothingRests(c1);
    var c2 := CancelOrder(c1, SELL_ORDER.id);
    PushAdds(c2.triggers, AGAIN, AGAIN.id);
    LoadedIds(State(START, RESUBMITTED).books, c1.books, 0, AGAIN.id);
  }
}
