/** Replaying a log a second time (the idempotency check at src/engine/matching_engine.cpp:517-520). */
module ReplayTwice {
  import opened Orders
  import opened FlatBook
  import opened MatchingLaws
  import opened Resizing
  import opened EngineCore
  import opened Recovery
  import opened EngineRuns
  import opened WriteAheadLog
  import opened ReplayLists

  // ----- From lists to engines

  /** A resting order that some submit of the log put there. */
  ghost predicate Sourced(x: Ticket, log: seq<Entry>, s: Symbol, d: Side) {
    exists j | 0 <= j < |log| :: Mine(log[j], s, d) && log[j].order.id == x.id && log[j].order.price == x.price
  }

  ghost predicate From(books: Books, log: seq<Entry>) {
    && BooksOk(books)
    && forall s, d, k | 0 <= k < |SideOf(books, s, d)| :: Sourced(SideOf(books, s, d)[k], log, s, d)
  }

  /** Ids are distinct in the log, so an id rests on one side of one symbol only. */
  lemma {:induction false} OnePlace(books: Books, log: seq<Entry>, id: OrderId, s1: Symbol, d1: Side, s2: Symbol,
                                    d2: Side)
    requires Gentle(log) && From(books, log)
    requires HasId(SideOf(books, s1, d1), id) && HasId(SideOf(books, s2, d2), id)
    ensures s1 == s2 && d1 == d2
  {
    var k1 :| 0 <= k1 < |SideOf(books, s1, d1)| && SideOf(books, s1, d1)[k1].id == id;
    var k2 :| 0 <= k2 < |SideOf(books, s2, d2)| && SideOf(books, s2, d2)[k2].id == id;
    assert Sourced(SideOf(books, s1, d1)[k1], log, s1, d1) && Sourced(SideOf(books, s2, d2)[k2], log, s2, d2);
    var j1 :| 0 <= j1 < |log| && Mine(log[j1], s1, d1) && log[j1].order.id == id;
    var j2 :| 0 <= j2 < |log| && Mine(log[j2], s2, d2) && log[j2].order.id == id;
    assert j1 == j2;
  }

  /** Nothing crosses, so a submit only files the order behind its own side. */
  lemma {:induction false} NothingToMatch(books: Books, log: seq<Entry>, j: nat)
    requires Gentle(log) && From(books, log) && j < |log| && log[j].Submitted?
    ensures var t := log[j].order;
            var b := Open(books, t.symbol)[t.symbol];
            Process(b, t).book == Add(b, t)
  {
    var t := log[j].order;
    var b := Open(books, t.symbol)[t.symbol];
    var opp := b.On(t.side.Opposite());
    if opp != [] {
      assert opp == SideOf(books, t.symbol, t.side.Opposite());
      assert Sourced(opp[0], log, t.symbol, t.side.Opposite());
      var i :| 0 <= i < |log| && Mine(log[i], t.symbol, t.side.Opposite()) && log[i].order.price == opp[0].price;
      assert CrossFree(log[i].order, log[j].order) && CrossFree(log[j].order, log[i].order);
      assert !Accepts(t, opp[0].price);
    }
    assert t.(qty := t.qty) == t;
  }

  /** An id that rests at all rests on the side its submit names. */
  lemma {:induction false} RestsOnItsSide(books: Books, log: seq<Entry>, j: nat)
    requires Gentle(log) && From(books, log) && j < |log| && log[j].Submitted?
    ensures var t := log[j].order;
            Rests(Open(books, t.symbol)[t.symbol], t.id) <==> HasId(SideOf(books, t.symbol, t.side), t.id)
  {
    var t := log[j].order;
    var b := Open(books, t.symbol)[t.symbol];
    assert forall d: Side :: b.On(d) == SideOf(books, t.symbol, d);
    assert b.On(BUY) == b.bids && b.On(SELL) == b.asks;
    if Rests(b, t.id) {
      var d := if HasId(b.bids, t.id) then BUY else SELL;
      var k :| 0 <= k < |b.On(d)| && b.On(d)[k].id == t.id;
      assert Sourced(SideOf(books, t.symbol, d)[k], log, t.symbol, d);
      var i :| 0 <= i < |log| && Mine(log[i], t.symbol, d) && log[i].order.id == t.id;
      assert i == j;
    }
  }

  /** One entry takes each list where the list argument says. */
  ghost predicate Follows(books: Books, books': Books, e: Entry) {
    forall s, d :: SideOf(books', s, d) == TrackEntry(SideOf(books, s, d), e, s, d)
  }

  ghost predicate FollowsAll(books: Books, books': Books, log: seq<Entry>) {
    forall s, d :: SideOf(books', s, d) == Track(SideOf(books, s, d), log, s, d)
  }

  lemma {:induction false} SubmitIs(c: Core, e: Entry)
    requires e.Submitted? && !IsTrigger(e.order.kind)
    ensures var t := e.order;
            var books := Open(c.books, t.symbol);
            ReplayEntry(c, e).books == if Rests(books[t.symbol], t.id) then books
              else books[t.symbol := Process(books[t.symbol], t).book]
  {
  }

  lemma {:induction false} SubmitTracks(c: Core, log: seq<Entry>, j: nat)
    requires Gentle(log) && From(c.books, log) && j < |log| && log[j].Submitted?
    ensures var books := ReplayEntry(c, log[j]).books;
            && BooksOk(books)
            && books.Keys == c.books.Keys + {log[j].order.symbol}
            && Follows(c.books, books, log[j])
  {
    GentleSubmit(c.books, log, j);
    hide Gentle, From, Follows, BooksOk;
    RestsOnItsSide(c.books, log, j);
    NothingToMatch(c.books, log, j);
    SubmitOne(c, log[j].order);
  }

  /** A LIMIT order that meets nothing is filed behind its own side, unless it rests already. */
  lemma {:induction false} SubmitOne(c: Core, t: Ticket)
    requires t.kind.LIMIT? && BooksOk(Open(c.books, t.symbol))
    requires var b := BookAt(c.books, t.symbol);
             && WellFormed(b) && Uncrossed(b) && Process(b, t).book == Add(b, t)
             && (Rests(b, t.id) <==> HasId(SideOf(c.books, t.symbol, t.side), t.id))
    ensures var books := ReplayEntry(c, Submitted(t)).books;
            BooksOk(books) && books.Keys == c.books.Keys + {t.symbol} && Follows(c.books, books, Submitted(t))
  {
    hide Follows, Process, Rests, WellFormed, Uncrossed, Add, SideOf, HasId, BooksOk;
    var b := BookAt(c.books, t.symbol);
    SubmitIs(c, Submitted(t));
    if !Rests(b, t.id) {
      ProcessKeepsWellFormed(b, t);
      ProcessKeepsUncrossed(b, t);
      PutBook(Open(c.books, t.symbol), t.symbol, Process(b, t).book);
    }
    SubmitFollows(c.books, ReplayEntry(c, Submitted(t)).books, Submitted(t));
  }

  lemma {:induction false} PutBook(books: Books, s: Symbol, b: Book)
    requires BooksOk(books) && WellFormed(b) && Uncrossed(b)
    ensures BooksOk(books[s := b])
  {
  }

  lemma {:induction false} GentleSubmit(books: Books, log: seq<Entry>, j: nat)
    requires Gentle(log) && From(books, log) && j < |log| && log[j].Submitted?
    ensures log[j].order.kind.LIMIT? && log[j].order.qty > 0.0
    ensures var s := log[j].order.symbol;
            BooksOk(Open(books, s)) && WellFormed(BookAt(books, s)) && Uncrossed(BookAt(books, s))
  {
    assert GentleEntry(log[j]);
  }

  lemma {:induction false} SubmitFollows(books: Books, books': Books, e: Entry)
    requires e.Submitted?
    requires var t, open := e.order, Open(books, e.order.symbol);
             books' == if HasId(SideOf(books, t.symbol, t.side), t.id) then open
               else open[t.symbol := Add(open[t.symbol], t)]
    ensures Follows(books, books', e)
  {
    forall s, d
      ensures SideOf(books', s, d) == TrackEntry(SideOf(books, s, d), e, s, d)
    {
      AddTracks(books, e.order, s, d);
    }
  }

  lemma {:induction false} AddTracks(books: Books, t: Ticket, s: Symbol, d: Side)
    ensures SideOf(Open(books, t.symbol), s, d) == SideOf(books, s, d)
    ensures SideOf(Open(books, t.symbol)[t.symbol := Add(Open(books, t.symbol)[t.symbol], t)], s, d) ==
            if s == t.symbol && d == t.side then Insert(SideOf(books, s, d), t) else SideOf(books, s, d)
  {
  }

  /** A list that a cancel or modify does not reach does not hold the id. */
  lemma {:induction false} OutOfReach(books: Books, log: seq<Entry>, id: OrderId, s: Symbol, d: Side)
    requires Gentle(log) && From(books, log)
    requires RestsAnywhere(books, id) ==> s != Holder(books, id)
    ensures !HasId(SideOf(books, s, d), id)
  {
    if HasId(SideOf(books, s, d), id) {
      assert RestsIn(books, s, id);
      var h := Holder(books, id);
      OnePlace(books, log, id, s, d, h, if HasId(books[h].bids, id) then BUY else SELL);
      assert false;
    }
  }

  lemma {:induction false} ChangeKeeps(c: Core, e: Entry)
    requires BooksOk(c.books) && GentleEntry(e) && (e.Cancelled? || e.Modified?)
    ensures BooksOk(ReplayEntry(c, e).books) && ReplayEntry(c, e).books.Keys == c.books.Keys
  {
    hide BooksOk;
    EntryKeepsBooks(c, e);
  }

  lemma {:induction false} ChangeTracks(c: Core, log: seq<Entry>, j: nat)
    requires Gentle(log) && From(c.books, log) && j < |log| && !log[j].Submitted?
    ensures var books := ReplayEntry(c, log[j]).books;
            && BooksOk(books)
            && books.Keys == c.books.Keys
            && Follows(c.books, books, log[j])
  {
    var e := log[j];
    assert GentleEntry(e);
    ChangeKeeps(c, e);
    forall s, d
      ensures SideOf(ReplayEntry(c, e).books, s, d) == TrackEntry(SideOf(c.books, s, d), e, s, d)
    {
      ChangeTracksAt(c, log, j, s, d);
    }
    hide Gentle, From, ReplayEntry, SideOf, TrackEntry;
  }

  lemma {:induction false} ChangeTracksAt(c: Core, log: seq<Entry>, j: nat, s: Symbol, d: Side)
    requires Gentle(log) && From(c.books, log) && j < |log| && !log[j].Submitted?
    ensures SideOf(ReplayEntry(c, log[j]).books, s, d) == TrackEntry(SideOf(c.books, s, d), log[j], s, d)
  {
    var e, l := log[j], SideOf(c.books, s, d);
    assert GentleEntry(e);
    if RestsAnywhere(c.books, e.id) && e.Modified? { ResizedPositive(c.books[Holder(c.books, e.id)], e.id,
      e.quantity); }
    if !RestsAnywhere(c.books, e.id) || s != Holder(c.books, e.id) {
      OutOfReach(c.books, log, e.id, s, d);
      WithoutAbsent(l, e.id);
      if e.Modified? { SetQtyAbsent(l, e.id, e.quantity); }
    }
    hide BooksOk, Without, SetQty, From, Gentle, HasId;
  }

  /** One entry of the log, replayed on an engine that stems from the log. */
  lemma {:induction false} EntryTracks(c: Core, log: seq<Entry>, j: nat)
    requires Gentle(log) && From(c.books, log) && j < |log|
    ensures var books := ReplayEntry(c, log[j]).books;
            && From(books, log)
            && Follows(c.books, books, log[j])
            && books.Keys == c.books.Keys + if log[j].Submitted? then {log[j].order.symbol} else {}
  {
    var e := log[j];
    var books := ReplayEntry(c, e).books;
    if e.Submitted? { SubmitTracks(c, log, j); } else { ChangeTracks(c, log, j); }
    forall s, d, k | 0 <= k < |SideOf(books, s, d)|
      ensures Sourced(SideOf(books, s, d)[k], log, s, d)
    {
      var l := SideOf(c.books, s, d);
      var r := TrackEntry(l, e, s, d);
      assert SideOf(books, s, d) == r;
      TrackEntrySources(l, e, s, d, k);
      if !(Mine(e, s, d) && r[k] == e.order) {
        var i :| 0 <= i < |l| && l[i].id == r[k].id && l[i].price == r[k].price;
        assert Sourced(l[i], log, s, d);
      }
    }
  }

  lemma {:induction false} TrackEntrySources(l: seq<Ticket>, e: Entry, s: Symbol, d: Side, k: nat)
    requires k < |TrackEntry(l, e, s, d)|
    ensures var x := TrackEntry(l, e, s, d)[k];
            (Mine(e, s, d) && x == e.order) || exists i | 0 <= i < |l| :: l[i].id == x.id && l[i].price == x.price
  {
    var x := TrackEntry(l, e, s, d)[k];
    match e
    case Submitted(t) => InsertMembers(l, t);
    case Cancelled(id) => WithoutMembers(l, id);
    case Modified(id, q) => SetQtyAll(l, id, q); assert l[k].id == x.id && l[k].price == x.price;
    case _ =>
  }

  function Symbols(log: seq<Entry>): set<Symbol> {
    set j | 0 <= j < |log| && log[j].Submitted? :: log[j].order.symbol
  }

  lemma {:induction false} SymbolsGrow(log: seq<Entry>, n: nat)
    requires n < |log|
    ensures Symbols(log[..n + 1]) == Symbols(log[..n]) + if log[n].Submitted? then {log[n].order.symbol} else {}
  {
    var p, q := log[..n], log[..n + 1];
    forall s | s in Symbols(p)
      ensures s in Symbols(q)
    {
      var j :| 0 <= j < |p| && p[j].Submitted? && p[j].order.symbol == s;
      assert q[j] == p[j];
    }
    forall s | s in Symbols(q)
      ensures s in Symbols(p) || (log[n].Submitted? && log[n].order.symbol == s)
    {
      var j :| 0 <= j < |q| && q[j].Submitted? && q[j].order.symbol == s;
      if j < n { assert p[j] == q[j]; }
    }
    if log[n].Submitted? { assert q[n] == log[n]; }
  }

  lemma {:induction false} ReplayTracks(c: Core, log: seq<Entry>, n: nat)
    requires Gentle(log) && From(c.books, log) && n <= |log|
    ensures Tracked(c, log, log[..n])
  {
    hide Gentle, From, Tracked;
    if n > 0 {
      ReplayTracks(c, log, n - 1);
      assert log[..n] == log[..n - 1] + [log[n - 1]];
      TrackNext(c, log, n - 1);
    } else {
      assert log[..n] == [];
      assert Tracked(c, log, []) by { TrackNothing(c, log); }
    }
  }

  /** Replaying a prefix leads where the list argument says, by orders of the log only. */
  ghost predicate Tracked(c: Core, log: seq<Entry>, p: seq<Entry>) {
    var books := Replay(c, p).books;
    From(books, log) && FollowsAll(c.books, books, p) && books.Keys == c.books.Keys + Symbols(p)
  }

  lemma {:induction false} TrackNothing(c: Core, log: seq<Entry>)
    requires From(c.books, log)
    ensures Tracked(c, log, [])
  {
    hide From, SideOf;
  }

  lemma {:induction false} TrackNext(c: Core, log: seq<Entry>, n: nat)
    requires Gentle(log) && n < |log| && Tracked(c, log, log[..n])
    ensures Tracked(c, log, log[..n] + [log[n]])
  {
    hide Gentle, From, ReplayEntry, Follows, FollowsAll, Symbols, Replay;
    var p, e := log[..n], log[n];
    ReplayOne(c, p, e);
    EntryTracks(Replay(c, p), log, n);
    FollowsNext(c.books, Replay(c, p).books, Replay(c, p + [e]).books, p, e);
    SymbolsGrow(log, n);
    assert log[..n + 1] == p + [e];
  }

  lemma {:induction false} FollowsNext(b0: Books, b1: Books, b2: Books, p: seq<Entry>, e: Entry)
    requires FollowsAll(b0, b1, p) && Follows(b1, b2, e)
    ensures FollowsAll(b0, b2, p + [e])
  {
    assert (p + [e])[..|p|] == p;
    hide TrackEntry, SideOf;
  }

  /** Replaying the log a second time leaves every book unchanged, queue order included, if and only
      if the log is stable. */
  lemma {:induction false} ReplayTwiceIsReplayOnce(log: seq<Entry>)
    requires Gentle(log)
    ensures var once := Replay(REPLAYING, log); Replay(once, log).books == once.books <==> Stable(log)
  {
    var once := Replay(REPLAYING, log);
    var twice := Replay(once, log);
    assert log[..|log|] == log;
    ReplayTracks(REPLAYING, log, |log|);
    ReplayTracks(once, log, |log|);
    SecondPassIsVoid(log);
    hide Gentle, From, Replay, Track, Symbols, Stable;
    forall s, d
      ensures SideOf(once.books, s, d) == Track([], log, s, d)
      ensures SideOf(twice.books, s, d) == Track(Track([], log, s, d), log, s, d)
    {
      assert SideOf(once.books, s, d) == Track(SideOf(REPLAYING.books, s, d), log, s, d);
      assert SideOf(twice.books, s, d) == Track(SideOf(once.books, s, d), log, s, d);
    }
    if forall s, d :: SecondIsVoid(log, s, d) {
      forall s | s in once.books
        ensures twice.books[s] == once.books[s]
      {
        assert SecondIsVoid(log, s, BUY) && SecondIsVoid(log, s, SELL);
        assert SideOf(twice.books, s, BUY) == SideOf(once.books, s, BUY)
               && SideOf(twice.books, s, SELL) == SideOf(once.books, s, SELL);
      }
    }
  }

  // ----- Logs that are stable, and one that is not

  /** Every cancel and modify names an id submitted earlier in the log. */
  predicate Known(log: seq<Entry>) {
    forall i | 0 <= i < |log| ::
      && (log[i].Cancelled? ==> NamedBy(log[..i], log[i].id))
      && (log[i].Modified? ==> NamedBy(log[..i], log[i].id))
  }

  lemma {:induction false} QtyFrom(log: seq<Entry>, i: nat, n: nat, id: OrderId, q: real)
    requires n <= |log| && forall j | 0 <= j < i && j < |log| :: !(log[j].Modified? && log[j].id == id)
    ensures Qty(log, 0, n, id, q) == Qty(log, i, n, id, q)
  {
    if n > 0 {
      QtyFrom(log, i, n - 1, id, q);
    }
  }

  /** A log in which every cancel and modify follows the submit it names is stable. */
  lemma {:induction false} KnownIsStable(log: seq<Entry>)
    requires Gentle(log) && Known(log)
    ensures Stable(log)
  {
    forall i | 0 <= i < |log| && log[i].Submitted? && Survives(log, i)
      ensures Unmoved(log, i)
    {
      forall j | 0 <= j < i && (log[j].Cancelled? || log[j].Modified?)
        ensures log[j].id != log[i].order.id
      {
        assert NamedBy(log[..j], log[j].id);
        var k :| 0 <= k < |log[..j]| && SubmitsId(log[..j][k], log[j].id);
        assert log[k].Submitted? && log[k].order.id == log[j].id;
      }
      QtyFrom(log, i, |log|, log[i].order.id, log[i].order.qty);
    }
  }

  const FIRST := Ticket(ClientId(0), 0, BUY, LIMIT, 10.0, 1.0)
  const SECOND := Ticket(ClientId(1), 0, BUY, LIMIT, 10.0, 1.0)
  const EARLY_CANCEL := [Cancelled(FIRST.id), Submitted(FIRST), Submitted(SECOND)]

  /** A cancel ahead of its submit is void the first time and costs the order its place the second time. */
  lemma {:induction false} EarlyCancelReorders()
    ensures Gentle(EARLY_CANCEL)
    ensures var once := Replay(REPLAYING, EARLY_CANCEL); Replay(once, EARLY_CANCEL).books != once.books
  {
    var log := EARLY_CANCEL;
    assert log[0] == Cancelled(FIRST.id) && log[1] == Submitted(FIRST) && log[2] == Submitted(SECOND);
    assert CancelledEarly(log, 1) && Survives(log, 1) && Survives(log, 2) && !CancelledEarly(log, 2);
    assert !Unmoved(log, 1) by { assert SameLevel(log[1].order, log[2].order); }
    ReplayTwiceIsReplayOnce(log);
  }

  /** Every id that rests or is pending was submitted in the log. */
  ghost predicate AllNamed(c: Core) {
    forall id :: RestsAnywhere(c.books, id) || PendingAnywhere(c.triggers, id) ==> NamedBy(c.log, id)
  }

  lemma {:induction false} KnownGrows(log: seq<Entry>, e: Entry)
    requires Known(log)
    requires e.Cancelled? ==> NamedBy(log, e.id)
    requires e.Modified? ==> NamedBy(log, e.id)
    ensures Known(log + [e])
  {
    var r := log + [e];
    assert r[..|log|] == log;
    assert forall i | 0 <= i < |log| :: r[..i] == log[..i] && r[i] == log[i];
  }

  lemma {:induction false} FireKnown(c: Core, s: Symbol, pending: seq<Ticket>, price: real)
    requires Known(c.log)
    ensures Known(Fire(c, s, pending, price).log)
    decreases |pending|
  {
    if pending != [] {
      var head := pending[0];
      if Hit(head, price) {
        KnownGrows(c.log, Activated(head.id, s));
        FireKnown(Examine(c, s, head, price), s, pending[1..], price);
      } else {
        FireKnown(c, s, pending[1..], price);
      }
    }
  }

  lemma {:induction false} StepKnows(c: Core, e: Event)
    requires c.logging && Known(c.log) && AllNamed(c) && !e.DoReplay?
    ensures Known(Step(c, e).log)
  {
    hide Match, Push, Fire, Resized, Cancel;
    match e
    case DoSubmit(t) => KnownGrows(c.log, Submitted(t));
    case DoCancel(id) => if RestsAnywhere(c.books, id) { KnownGrows(c.log, Cancelled(id)); }
    case DoModify(id, q) => if RestsAnywhere(c.books, id) { KnownGrows(c.log, Modified(id, q)); }
    case DoStamp(trade) => KnownGrows(c.log, Traded(trade));
    case DoCheck(s, price) => if s in c.triggers { FireKnown(c, s, c.triggers[s], price); }
  }

  /** Whatever rests or waits after a step did so before, or is what the step submits. */
  lemma {:induction false} StepBringsOnlyItsId(c: Core, e: Event, id: OrderId)
    requires Invariant(c) && Allowed(c, e) && !e.DoReplay?
    requires RestsAnywhere(Step(c, e).books, id) || PendingAnywhere(Step(c, e).triggers, id)
    ensures RestsAnywhere(c.books, id) || PendingAnywhere(c.triggers, id) || (e.DoSubmit? && e.order.id == id)
  {
    hide LeavesRemainder, WellFormed, Uncrossed, TriggersOk, Hit;
    match e
    case DoSubmit(t) =>
      OpenKeeps(c.books, t.symbol);
      PushAdds(c.triggers, t, id);
      assert !RestsIn(c.books, t.symbol, t.id);
      MatchKeeps(c.books, t.symbol, t);
    case DoCancel(x) => CancelBringsNothing(c, x);
    case DoModify(x, q) => ModifyBringsNothing(c, x, q);
    case DoStamp(_) =>
    case DoCheck(s, price) => CheckBringsNothing(c, s, price, id);
  }

  lemma {:induction false} CheckBringsNothing(c: Core, s: Symbol, price: real, id: OrderId)
    requires Invariant(c)
    requires RestsAnywhere(CheckTriggers(c, s, price).books, id)
             || PendingAnywhere(CheckTriggers(c, s, price).triggers, id)
    ensures RestsAnywhere(c.books, id) || PendingAnywhere(c.triggers, id)
  {
    if s in c.triggers {
      PendingIsPendable(c, s);
      FireKeeps(c, s, c.triggers[s], price);
      CheckKeepsTriggers(c.triggers, s, price);
      if HitId(c.triggers[s], price, id) { assert PendingIn(c.triggers, s, id); }
    }
  }

  lemma {:induction false} StepNames(c: Core, e: Event)
    requires Invariant(c) && c.logging && Allowed(c, e) && AllNamed(c) && !e.DoReplay?
    ensures AllNamed(Step(c, e))
  {
    hide Invariant, Allowed;
    StepAppends(c, e);
    var c' := Step(c, e);
    if e.DoSubmit? {
      assert c'.log[|c.log|] == Submitted(e.order) by { SubmitLogs(c, e.order); }
      assert SubmitsId(c'.log[|c.log|], e.order.id);
    }
    hide Step, RestsAnywhere, PendingAnywhere;
    forall id | RestsAnywhere(c'.books, id) || PendingAnywhere(c'.triggers, id)
      ensures NamedBy(c'.log, id)
    {
      StepBringsOnlyItsId(c, e, id);
      if NamedBy(c.log, id) { NamedGrows(c.log, c'.log, id); }
    }
  }

  lemma {:induction false} SubmitLogs(c: Core, t: Ticket)
    requires c.logging
    ensures Submit(c, t).log == c.log + [Submitted(t)]
  {
  }

  /** The engine logs a cancel or modify only after it found the order, hence after its submit. */
  lemma {:induction false} RunLogsAreKnown(c0: Core, es: seq<Event>)
    requires Invariant(c0) && c0.logging && Known(c0.log) && AllNamed(c0) && Run(c0, es) && Live(es)
    ensures Known(State(c0, es).log) && AllNamed(State(c0, es))
  {
    hide Invariant, Allowed, Step, Known, AllNamed;
    if es != [] {
      var p, e := es[..|es| - 1], es[|es| - 1];
      RunLogsAreKnown(c0, p);
      RunsAreSafe(c0, p);
      StepKnows(State(c0, p), e);
      StepNames(State(c0, p), e);
    }
  }

  lemma {:induction false} NewEngineKnows()
    ensures Known(START.log) && AllNamed(START)
  {
    EmptyEngine(START);
  }

  /** The theorems about runs, from the engine that has just been started. */
  lemma {:induction false} FromTheStart(es: seq<Event>, id: OrderId)
    requires Run(START, es) && Live(es)
    ensures Invariant(State(START, es)) && Balanced(State(START, es), id)
    ensures RebuildsTriggers(State(START, es)) && (Quiet(START, es) ==> RebuildsBooks(State(START, es)))
    ensures Known(State(START, es).log)
  {
    NewEngine(id);
    NewEngineKnows();
    AtStart();
    hide Invariant, Balanced, RebuildsTriggers, RebuildsBooks, Quiet, Known, AllNamed, Run, State;
    RunsAreSafe(START, es);
    TriggersFireOnce(START, es, id);
    ReplayRebuildsTriggers(START, es);
    RunLogsAreKnown(START, es);
    if Quiet(START, es) { ReplayRebuildsBooks(START, es); }
  }

  // ----- Pending lists on a second replay

  /** The log drops this id from the pending list of this symbol somewhere. */
  predicate ActivatedIn(log: seq<Entry>, s: Symbol, id: OrderId) {
    exists j | 0 <= j < |log| :: log[j] == Activated(id, s)
  }

  /** The pending list of a symbol; none is empty. */
  function PendingOf(triggers: Triggers, s: Symbol): seq<Ticket> {
    if s in triggers then triggers[s] else []
  }

  /** The orders of a list that the log does not activate. */
  function NotActivated(l: seq<Ticket>, log: seq<Entry>, s: Symbol): seq<Ticket> {
    if log == [] then l
    else
      var r, e := NotActivated(l, log[..|log| - 1], s), log[|log| - 1];
      if e.Activated? && e.symbol == s then Without(r, e.id) else r
  }

  lemma {:induction false} PendingAfterEntry(c: Core, e: Entry, s: Symbol)
    ensures PendingOf(ReplayEntry(c, e).triggers, s) ==
            match e
            case Submitted(t) => PendingOf(c.triggers, s) + if IsTrigger(t.kind) && t.symbol == s then [t] else []
            case Activated(id, u) => if u == s then Without(PendingOf(c.triggers, s), id) else PendingOf(c.triggers, s)
            case _ => PendingOf(c.triggers, s)
  {
    hide Match, Resized, Cancel, Rests;
  }

  /** A replay keeps what was pending and is not activated, and puts behind it what a replay into an
      empty engine leaves pending. */
  lemma {:induction false} PendingAfterReplay(c: Core, log: seq<Entry>, s: Symbol)
    ensures PendingOf(Replay(c, log).triggers, s) ==
            NotActivated(PendingOf(c.triggers, s), log, s) + PendingOf(Replay(REPLAYING, log).triggers, s)
  {
    hide ReplayEntry, Without, PendingOf;
    if log == [] {
      assert PendingOf(REPLAYING.triggers, s) == [] by { NonePending(s); }
    } else {
      var p, e := log[..|log| - 1], log[|log| - 1];
      var kept, fresh' := NotActivated(PendingOf(c.triggers, s), p, s), PendingOf(Replay(REPLAYING, p).triggers, s);
      PendingAfterReplay(c, p, s);
      PendingAfterEntry(Replay(c, p), e, s);
      PendingAfterEntry(Replay(REPLAYING, p), e, s);
      if e.Activated? && e.symbol == s {
        WithoutAppend(kept, fresh', e.id);
      } else if e.Submitted? && IsTrigger(e.order.kind) && e.order.symbol == s {
        assert (kept + fresh') + [e.order] == kept + (fresh' + [e.order]);
      } else {
        assert fresh' + [] == fresh' && (kept + fresh') + [] == kept + fresh';
      }
    }
  }

  lemma {:induction false} NonePending(s: Symbol)
    ensures PendingOf(REPLAYING.triggers, s) == []
  {
  }

  lemma {:induction false} NotActivatedHas(l: seq<Ticket>, log: seq<Entry>, s: Symbol, t: Ticket)
    ensures t in NotActivated(l, log, s) <==> t in l && !ActivatedIn(log, s, t.id)
  {
    if log != [] {
      var p, e := log[..|log| - 1], log[|log| - 1];
      NotActivatedHas(l, p, s, t);
      assert log == p + [e];
      assert ActivatedIn(log, s, t.id) <==> ActivatedIn(p, s, t.id) || e == Activated(t.id, s) by {
        if j :| 0 <= j < |p| && p[j] == Activated(t.id, s) { assert log[j] == p[j]; }
        if j :| 0 <= j < |log| && log[j] == Activated(t.id, s) && j < |p| { assert p[j] == log[j]; }
        assert log[|p|] == e;
      }
      if e.Activated? && e.symbol == s { WithoutHas(NotActivated(l, p, s), e.id, t); }
    }
  }

  lemma {:induction false} WithoutHas(l: seq<Ticket>, id: OrderId, t: Ticket)
    ensures t in Without(l, id) <==> t in l && t.id != id
  {
    if l != [] {
      WithoutHas(l[1..], id, t);
    }
  }

  /** A second replay pushes every submitted trigger again. It leaves the pending lists alone if and
      only if the log activates, somewhere, the id of everything that it leaves pending. */
  lemma {:induction false} PendingTwice(log: seq<Entry>)
    ensures var once := Replay(REPLAYING, log);
            Replay(once, log).triggers == once.triggers <==>
            forall s, t | t in PendingOf(once.triggers, s) :: ActivatedIn(log, s, t.id)
  {
    var once := Replay(REPLAYING, log);
    var twice := Replay(once, log);
    hide ReplayEntry, Replay, NotActivated;
    TriggerKeys(REPLAYING, log);
    TriggerKeys(once, log);
    forall s
      ensures PendingOf(twice.triggers, s) == PendingOf(once.triggers, s) <==>
              forall t | t in PendingOf(once.triggers, s) :: ActivatedIn(log, s, t.id)
    {
      var f := PendingOf(once.triggers, s);
      PendingAfterReplay(once, log, s);
      forall t
        ensures t in NotActivated(f, log, s) <==> t in f && !ActivatedIn(log, s, t.id)
      {
        NotActivatedHas(f, log, s, t);
      }
      OnlyNothingAddsNothing(NotActivated(f, log, s), f);
    }
    hide ActivatedIn;
    if forall s, t | t in PendingOf(once.triggers, s) :: ActivatedIn(log, s, t.id) {
      forall s | s in once.triggers
        ensures twice.triggers[s] == once.triggers[s]
      {
        assert PendingOf(twice.triggers, s) == PendingOf(once.triggers, s);
      }
    }
  }

  lemma {:induction false} OnlyNothingAddsNothing(a: seq<Ticket>, b: seq<Ticket>)
    ensures a + b == b <==> forall t :: t !in a
  {
    if a != [] { assert a[0] in a; }
  }

  /** Which symbols have a pending list: those that had one, and those of submitted triggers. */
  function TriggerSymbols(log: seq<Entry>): set<Symbol> {
    if log == [] then {}
    else
      var e := log[|log| - 1];
      TriggerSymbols(log[..|log| - 1]) + if e.Submitted? && IsTrigger(e.order.kind) then {e.order.symbol} else {}
  }

  lemma {:induction false} TriggerKeys(c: Core, log: seq<Entry>)
    ensures Replay(c, log).triggers.Keys == c.triggers.Keys + TriggerSymbols(log)
  {
    hide Match, Resized, Cancel, Without, Rests;
    if log != [] {
      TriggerKeys(c, log[..|log| - 1]);
    }
  }
}
