/** What activations of triggers do to books, and what that costs the log: an "activated" entry drops
    the trigger on replay but does not match the order (src/engine/matching_engine.cpp:532-544). */
module Activations {
  import opened Orders
  import opened FlatBook
  import opened MatchingLaws
  import opened EngineCore
  import opened Recovery
  import opened EngineRuns
  import opened WriteAheadLog
  import opened DryRuns

  /** A check touches its symbol's book only. */
  lemma {:induction false} FireIs(c: Core, s: Symbol, pending: seq<Ticket>, price: real)
    requires s in c.books
    ensures Fire(c, s, pending, price).books == c.books[s := FireBook(c.books[s], pending, price)]
    decreases |pending|
  {
    hide Process, Hit, Active;
    if pending != [] {
      FireIs(Examine(c, s, pending[0], price), s, pending[1..], price);
    }
  }

  /** The dry run that decides whether a check changes a book. */
  ghost predicate DryRunEmpty(c: Core, s: Symbol, price: real) {
    s in c.triggers ==> Among(EMPTY, BookAt(c.books, s), c.triggers[s], price)
  }

  lemma {:induction false} CheckedIsWaiting(c: Core, s: Symbol)
    requires Invariant(c) && s in c.triggers && s in c.books
    ensures WellFormed(c.books[s]) && Waiting(c.books[s], c.triggers[s])
  {
    var pending := c.triggers[s];
    PendingIsPendable(c, s);
    assert forall i | 0 <= i < |pending| :: !RestsIn(c.books, s, pending[i].id);
    hide WellFormed, Rests;
  }

  /** Whether a check of triggers changes a book is decided by the pending orders and the best prices
      before it. */
  lemma {:induction false} CheckChangesExactly(c: Core, s: Symbol, price: real)
    requires Invariant(c) && (s in c.triggers ==> s in c.books)
    ensures CheckTriggers(c, s, price).books == c.books <==> DryRunEmpty(c, s, price)
  {
    if s in c.triggers {
      var b, pending := c.books[s], c.triggers[s];
      CheckedIsWaiting(c, s);
      hide Fire, FireBook, Among, WellFormed, Waiting;
      FireIs(c, s, pending, price);
      UnchangedExactly(b, pending, price);
    }
  }

  /** What becomes of an activated order: it takes from the opposite side, a stop-limit up to its price and
      the others up to any; what a stop-limit has left rests as a LIMIT order at its price, behind every order
      at least as good; what the others have left is dropped. */
  lemma {:induction false} ActivationIs(c: Core, s: Symbol, t: Ticket, price: real) returns (taken: real, k: nat)
    requires s in c.books && WellFormed(c.books[s]) && !Rests(c.books[s], t.id)
    requires IsTrigger(t.kind) && Hit(t, price) && t.qty > 0.0
    ensures var b, b' := c.books[s], Examine(c, s, t, price).books[s];
            var opp, opp', own, own' := b.On(t.side.Opposite()), b'.On(t.side.Opposite()), b.On(t.side), b'.On(t.side);
            && 0.0 <= taken <= t.qty && Depth(opp') == Depth(opp) - taken
            && (t.kind.STOP_LIMIT? && taken < t.qty ==>
                  && k <= |own|
                  && own' == own[..k] + [Ticket(t.id, t.symbol, t.side, LIMIT, t.price, t.qty - taken)] + own[k..]
                  && (forall i | 0 <= i < |own| ::
                        i < k <==> if t.side.BUY? then own[i].price >= t.price else own[i].price <= t.price)
                  && (opp' == [] || if t.side.BUY? then opp'[0].price > t.price else opp'[0].price < t.price))
            && (!(t.kind.STOP_LIMIT? && taken < t.qty) ==> own' == own)
            && (!t.kind.STOP_LIMIT? ==> taken == t.qty || opp' == [])
    ensures Examine(c, s, t, price).log == if c.logging then c.log + [Activated(t.id, s)] else c.log
  {
    var b, a := c.books[s], Active(t);
    var m := Process(b, a);
    k := BookAfter(b, a);
    TakenIs(b, a);
    taken := t.qty - m.left;
    hide Process, Depth, WellFormed, Rests;
  }

  lemma {:induction false} LeftAtMost(opp: seq<Ticket>, t: Ticket, q: real)
    requires Positive(opp)
    ensures Sweep(opp, t, q).left <= q
  {
    hide Accepts;
    if opp != [] && q > 0.0 && Accepts(t, opp[0].price) && opp[0].qty <= q {
      LeftAtMost(opp[1..], t, q - opp[0].qty);
    }
  }

  /** An order takes what it no longer has left; it stops when nothing acceptable is left on the other side. */
  lemma {:induction false} TakenIs(b: Book, t: Ticket)
    requires WellFormed(b) && !Rests(b, t.id) && t.qty > 0.0 && (t.kind.LIMIT? || t.kind.MARKET?)
    ensures var m, s := Process(b, t), t.side.Opposite();
            && 0.0 <= m.left <= t.qty
            && Depth(m.book.On(s)) == Depth(b.On(s)) - (t.qty - m.left)
            && (m.left == 0.0 || m.book.On(s) == []
                || (t.kind.LIMIT? && if t.side.BUY? then m.book.On(s)[0].price > t.price
                                     else m.book.On(s)[0].price < t.price))
  {
    var opp := b.On(t.side.Opposite());
    SidesQueue(b, t.side.Opposite());
    Conservation(b, t);
    SweepExhausts(opp, t, t.qty);
    LeftAtMost(opp, t, t.qty);
    hide Sweep, Insert, Depth, WellFormed, TradedQuantity, Queue, Sorted, Positive, Rests, Capped;
  }

  // ----- What that means for replay

  /** The symbols of pending orders have books. */
  lemma {:induction false} PendingHaveBooks(c0: Core, es: seq<Event>)
    requires Run(c0, es) && c0.triggers.Keys <= c0.books.Keys && Live(es)
    ensures State(c0, es).triggers.Keys <= State(c0, es).books.Keys
  {
    hide Match, Cancel, Allowed;
    if es != [] {
      var c, e := State(c0, es[..|es| - 1]), es[|es| - 1];
      PendingHaveBooks(c0, es[..|es| - 1]);
      MatchOpens(c.books);
      if e.DoCheck? && e.symbol in c.triggers {
        FireBooks(c, e.symbol, c.triggers[e.symbol], e.price);
      }
    }
  }

  lemma {:induction false} MatchOpens(books: Books)
    ensures forall s, t :: Match(books, s, t).Keys == books.Keys + {s}
  {
  }

  lemma {:induction false} FireBooks(c: Core, s: Symbol, pending: seq<Ticket>, price: real)
    ensures c.books.Keys <= Fire(c, s, pending, price).books.Keys && Fire(c, s, pending, price).triggers == c.triggers
    decreases |pending|
  {
    hide Match, Hit;
    if pending != [] {
      MatchOpens(c.books);
      var c' := Examine(c, s, pending[0], price);
      FireBooks(c', s, pending[1..], price);
    }
  }

  /** What the theorems below start from: a live state whose log rebuilds it. */
  ghost predicate Checkable(c: Core, s: Symbol) {
    Invariant(c) && c.logging && RebuildsTriggers(c) && RebuildsBooks(c) && s in c.triggers && s in c.books
  }

  /** After a check of triggers replay still agrees, if and only if the hits, run dry among themselves, stay
      between the best prices and leave nothing. */
  lemma {:induction false} CheckReplaysExactly(c: Core, s: Symbol, price: real)
    requires Checkable(c, s)
    ensures RebuildsBooks(CheckTriggers(c, s, price)) <==> Among(EMPTY, c.books[s], c.triggers[s], price)
  {
    StepReplaysBooks(c, DoCheck(s, price));
    CheckChangesExactly(c, s, price);
  }

  // ----- Special cases

  /** An order that changes its book when it is activated alone: unless it has no quantity, a stop-limit
      trades or rests, and the others trade if the opposite side holds an order. */
  predicate Acts(b: Book, t: Ticket) {
    t.qty > 0.0 && (t.kind.STOP_LIMIT? || b.On(t.side.Opposite()) != [])
  }

  predicate Harmless(b: Book, pending: seq<Ticket>, price: real) {
    forall i | 0 <= i < |pending| && Hit(pending[i], price) :: !Acts(b, pending[i])
  }

  /** No stop-limit is hit. */
  predicate OnlyMarkets(pending: seq<Ticket>, price: real) {
    forall i | 0 <= i < |pending| && Hit(pending[i], price) :: !pending[i].kind.STOP_LIMIT?
  }

  /** Everything that is hit is on side `d`. */
  predicate OneSided(pending: seq<Ticket>, price: real, d: Side) {
    forall i | 0 <= i < |pending| && Hit(pending[i], price) :: pending[i].side == d
  }

  lemma {:induction false} HarmlessTail(b: Book, pending: seq<Ticket>, price: real, d: Side)
    requires pending != []
    ensures Harmless(b, pending, price) <==>
            (Hit(pending[0], price) ==> !Acts(b, pending[0])) && Harmless(b, pending[1..], price)
    ensures OnlyMarkets(pending, price) ==>
              OnlyMarkets(pending[1..], price) && (Hit(pending[0], price) ==> !pending[0].kind.STOP_LIMIT?)
    ensures OneSided(pending, price, d) ==>
              OneSided(pending[1..], price, d) && (Hit(pending[0], price) ==> pending[0].side == d)
  {
    hide Acts, Hit;
    assert forall i | 0 <= i < |pending| - 1 :: pending[1..][i] == pending[i + 1];
  }

  /** Hits that would each change nothing change nothing together. */
  lemma {:induction false} HarmlessAmong(o: Book, pending: seq<Ticket>, price: real)
    requires Harmless(o, pending, price)
    ensures Among(EMPTY, o, pending, price)
    decreases |pending|
  {
    hide Hit, Harmless;
    if pending != [] {
      HarmlessTail(o, pending, price, BUY);
      HarmlessAmong(o, pending[1..], price);
    }
  }

  /** Hits that find no other hit to trade with cannot make up for each other. */
  lemma {:induction false} AloneAmong(l: Book, o: Book, pending: seq<Ticket>, price: real, d: Side)
    requires (OneSided(pending, price, d) && l.On(d.Opposite()) == []) || (OnlyMarkets(pending, price) && l == EMPTY)
    requires Among(l, o, pending, price)
    ensures l == EMPTY && Harmless(o, pending, price)
    decreases |pending|
  {
    hide Hit, Harmless, OneSided, OnlyMarkets, Insert;
    if pending == [] {
      NothingHarms(o, price);
    } else {
      HarmlessTail(o, pending, price, d);
      var t := pending[0];
      if Hit(t, price) && t.qty > 0.0 {
        AloneAmong(Process(l, Active(t)).book, o, pending[1..], price, d);
        InsertGrows(l.On(t.side), Active(t));
      } else {
        AloneAmong(l, o, pending[1..], price, d);
      }
    }
  }

  lemma {:induction false} NothingHarms(o: Book, price: real)
    ensures Harmless(o, [], price)
  {
  }

  lemma {:induction false} InsertGrows(l: seq<Ticket>, t: Ticket)
    ensures Insert(l, t) != []
  {
  }

  /** If the hits would each change nothing, replay still agrees after the check. */
  lemma {:induction false} HarmlessChecksReplay(c: Core, s: Symbol, price: real)
    requires Checkable(c, s) && Harmless(c.books[s], c.triggers[s], price)
    ensures RebuildsBooks(CheckTriggers(c, s, price))
  {
    CheckReplaysExactly(c, s, price);
    HarmlessAmong(c.books[s], c.triggers[s], price);
  }

  /** A check that hits one side only: replay still agrees if and only if no stop-limit with a quantity
      is hit, and nothing else with a quantity unless the opposite side of the book is empty. */
  lemma {:induction false} OneSidedChecksReplay(c: Core, s: Symbol, price: real, d: Side)
    requires Checkable(c, s) && OneSided(c.triggers[s], price, d)
    ensures RebuildsBooks(CheckTriggers(c, s, price)) <==> Harmless(c.books[s], c.triggers[s], price)
  {
    CheckReplaysExactly(c, s, price);
    hide Checkable, Among, RebuildsBooks, OneSided, Harmless;
    if Harmless(c.books[s], c.triggers[s], price) {
      HarmlessAmong(c.books[s], c.triggers[s], price);
    } else if Among(EMPTY, c.books[s], c.triggers[s], price) {
      AloneAmong(EMPTY, c.books[s], c.triggers[s], price, d);
    }
  }

  /** A check that hits no stop-limit, on one side or both: the same condition. */
  lemma {:induction false} MarketChecksReplay(c: Core, s: Symbol, price: real)
    requires Checkable(c, s) && OnlyMarkets(c.triggers[s], price)
    ensures RebuildsBooks(CheckTriggers(c, s, price)) <==> Harmless(c.books[s], c.triggers[s], price)
  {
    CheckReplaysExactly(c, s, price);
    hide Checkable, Among, RebuildsBooks, OnlyMarkets, Harmless;
    if Harmless(c.books[s], c.triggers[s], price) {
      HarmlessAmong(c.books[s], c.triggers[s], price);
    } else if Among(EMPTY, c.books[s], c.triggers[s], price) {
      AloneAmong(EMPTY, c.books[s], c.triggers[s], price, BUY);
    }
  }

  // ----- Whole runs

  /** At every check of a run the dry run ends empty. */
  ghost predicate DryRunsEmpty(c0: Core, es: seq<Event>) {
    forall k | 0 <= k < |es| && es[k].DoCheck? :: DryRunEmpty(State(c0, es[..k]), es[k].symbol, es[k].price)
  }

  lemma {:induction false} QuietExactly(c0: Core, es: seq<Event>)
    requires Invariant(c0) && c0.triggers.Keys <= c0.books.Keys && Run(c0, es) && Live(es)
    ensures Quiet(c0, es) <==> DryRunsEmpty(c0, es)
  {
    hide Invariant, State, Run, DryRunEmpty, CheckTriggers;
    forall k | 0 <= k < |es| && es[k].DoCheck?
      ensures Step(State(c0, es[..k]), es[k]).books == State(c0, es[..k]).books <==>
              DryRunEmpty(State(c0, es[..k]), es[k].symbol, es[k].price)
    {
      RunPrefix(c0, es, k);
      RunsAreSafe(c0, es[..k]);
      PendingHaveBooks(c0, es[..k]);
      CheckChangesExactly(State(c0, es[..k]), es[k].symbol, es[k].price);
    }
  }

  /** Replaying the log rebuilds the live books at every moment of a run, if and only if at each check of
      triggers, before it, the dry run of what it hits ends empty. */
  lemma {:induction false} RunReplaysExactly(c0: Core, es: seq<Event>)
    requires Invariant(c0) && c0.logging && RebuildsTriggers(c0) && RebuildsBooks(c0)
             && c0.triggers.Keys <= c0.books.Keys
    requires Run(c0, es) && Live(es)
    ensures RebuildsThroughout(c0, es) <==> DryRunsEmpty(c0, es)
  {
    hide Invariant, Run, State, Quiet, RebuildsThroughout, DryRunsEmpty;
    ReplayRebuildsExactly(c0, es);
    QuietExactly(c0, es);
  }

  /** Every quiet run leads to such a state. */
  lemma {:induction false} QuietRunsAreCheckable(c0: Core, es: seq<Event>, s: Symbol)
    requires Invariant(c0) && c0.logging && RebuildsTriggers(c0) && RebuildsBooks(c0)
             && c0.triggers.Keys <= c0.books.Keys
    requires Run(c0, es) && Live(es) && Quiet(c0, es) && s in State(c0, es).triggers
    ensures Checkable(State(c0, es), s)
  {
    hide Invariant, Quiet, Run, State;
    RunsAreSafe(c0, es);
    ReplayRebuildsTriggers(c0, es);
    ReplayRebuildsBooks(c0, es);
    PendingHaveBooks(c0, es);
  }

  // ----- Small runs

  const SELL_ORDER := Ticket(ClientId(0), 0, SELL, LIMIT, 10.0, 5.0)
  const BUY_STOP := Ticket(ClientId(1), 0, BUY, STOP_LOSS, 1.0, 5.0)
  const AGAIN := Ticket(ClientId(0), 0, BUY, STOP_LOSS, 20.0, 5.0)
  const ACTIVATING: seq<Event> := [DoSubmit(SELL_ORDER), DoSubmit(BUY_STOP), DoCheck(0, 10.0)]

  lemma {:induction false} TwoSteps(a: Event, b: Event)
    requires Allowed(START, a) && Allowed(Step(START, a), b)
    ensures Run(START, [a, b]) && State(START, [a, b]) == Step(Step(START, a), b)
  {
    var none: seq<Event> := [];
    assert none + [a] == [a] && [a] + [b] == [a, b];
    assert State(START, none) == START && Run(START, none);
    hide Step, Allowed, Run, State;
    NextState(START, none, a);
    NextState(START, [a], b);
  }

  lemma {:induction false} SellThenStop()
    ensures var es := [DoSubmit(SELL_ORDER), DoSubmit(BUY_STOP)];
            && Run(START, es) && Checkable(State(START, es), 0)
            && State(START, es).books == map[0 := Book([], [SELL_ORDER])]
              && State(START, es).triggers == map[0 := [BUY_STOP]]
  {
    var es := [DoSubmit(SELL_ORDER), DoSubmit(BUY_STOP)];
    EmptyEngine(START);
    var c1 := Step(START, es[0]);
    assert Process(EMPTY, SELL_ORDER).book == Book([], [SELL_ORDER]);
    assert c1.books == map[0 := Book([], [SELL_ORDER])] && c1.triggers == map[];
    assert !HasId([SELL_ORDER], BUY_STOP.id);
    assert forall s :: !RestsIn(c1.books, s, BUY_STOP.id);
    assert forall s :: !PendingIn(c1.triggers, s, BUY_STOP.id);
    TwoSteps(es[0], es[1]);
    assert [] + [BUY_STOP] == [BUY_STOP];
    AtStart();
    hide Run, State, Invariant;
    QuietRunsAreCheckable(START, es, 0);
  }

  /** What the check does to any engine in that state. */
  lemma {:induction false} StopTakesAll(c: Core)
    requires c.books == map[0 := Book([], [SELL_ORDER])]
    ensures Fire(c, 0, [BUY_STOP], 10.0).books == map[0 := EMPTY]
    ensures StillPending([BUY_STOP], 10.0) == []
  {
    var one := [BUY_STOP];
    assert one[1..] == [] && Hit(BUY_STOP, 10.0);
    assert Fire(c, 0, one, 10.0).books == Match(c.books, 0, Active(BUY_STOP));
    assert Sweep([SELL_ORDER], Active(BUY_STOP), 5.0).rest == [];
    assert Process(Book([], [SELL_ORDER]), Active(BUY_STOP)).book == EMPTY;
  }

  lemma {:induction false} TheCheck()
    ensures var c := State(START, [DoSubmit(SELL_ORDER), DoSubmit(BUY_STOP)]);
            && State(START, ACTIVATING) == CheckTriggers(c, 0, 10.0) && Run(START, ACTIVATING)
            && c.triggers == map[0 := [BUY_STOP]] && Checkable(c, 0) && c.books == map[0 := Book([], [SELL_ORDER])]
  {
    var two := [DoSubmit(SELL_ORDER), DoSubmit(BUY_STOP)];
    SellThenStop();
    hide State, Run, Checkable, CheckTriggers;
    assert ACTIVATING == two + [DoCheck(0, 10.0)];
    NextState(START, two, DoCheck(0, 10.0));
  }

  /** A buy stop activates and takes the only sell order. Replay drops the stop but keeps the order. */
  lemma {:induction false} ReplayCanDiffer()
    ensures Run(START, ACTIVATING)
    ensures State(START, ACTIVATING).books == map[0 := EMPTY] && State(START, ACTIVATING).triggers == map[0 := []]
    ensures Replay(REPLAYING, State(START, ACTIVATING).log).books == map[0 := Book([], [SELL_ORDER])]
  {
    var c := State(START, [DoSubmit(SELL_ORDER), DoSubmit(BUY_STOP)]);
    TheCheck();
    StopTakesAll(c);
    hide State, Run, Replay, Fire, StillPending, Invariant;
    CheckReplays(c, 0, 10.0);
  }

  /** After that run the seller's id is free again and may be submitted as a trigger. Replaying that log
      leaves the id both resting and pending: the entry does not fit. */
  lemma {:induction false} ReplayBreaksApart()
    ensures var es := ACTIVATING + [DoSubmit(AGAIN)];
            var r := Replay(REPLAYING, State(START, es).log);
            Run(START, es) && !Apart(r.books, r.triggers) && !FitsAll(REPLAYING, State(START, es).log)
  {
    var es := ACTIVATING + [DoSubmit(AGAIN)];
    var c := State(START, ACTIVATING);
    ReplayCanDiffer();
    AtStart();
    RunsAreSafe(START, ACTIVATING);
    NextState(START, ACTIVATING, DoSubmit(AGAIN));
    hide State, Run, Invariant, Replay;
    assert forall s :: !RestsIn(c.books, s, AGAIN.id) && !PendingIn(c.triggers, s, AGAIN.id);
    assert Step(c, DoSubmit(AGAIN)).log == c.log + [Submitted(AGAIN)];
    BothRestAndWait(c.log);
  }

  lemma {:induction false} BothRestAndWait(log: seq<Entry>)
    requires Replay(REPLAYING, log).books == map[0 := Book([], [SELL_ORDER])]
    ensures var log' := log + [Submitted(AGAIN)];
            && !Apart(Replay(REPLAYING, log').books, Replay(REPLAYING, log').triggers) && !FitsAll(REPLAYING, log')
  {
    hide Replay;
    var r := Replay(REPLAYING, log);
    ReplayOne(REPLAYING, log, Submitted(AGAIN));
    assert (log + [Submitted(AGAIN)])[..|log|] == log;
    assert HasId([SELL_ORDER], AGAIN.id) by { assert [SELL_ORDER][0].id == AGAIN.id; }
    assert RestsIn(r.books, 0, AGAIN.id);
    PushAdds(r.triggers, AGAIN, AGAIN.id);
    hide Push;
    assert RestsIn(ReplayEntry(r, Submitted(AGAIN)).books, 0, AGAIN.id);
  }

  function BuyLimit(price: real): Ticket {
    Ticket(ClientId(0), 0, BUY, STOP_LIMIT, price, 5.0)
  }

  function SellLimit(price: real): Ticket {
    Ticket(ClientId(1), 0, SELL, STOP_LIMIT, price, 5.0)
  }

  /** A buy and a sell stop-limit of one quantity, both hit at 10 on an empty book: at one price they trade
      with each other and replay still agrees; otherwise both come to rest, and it does not. */
  lemma {:induction false} PairReplays(bid: real, ask: real)
    requires bid <= 10.0 <= ask
    ensures var es := [DoSubmit(BuyLimit(bid)), DoSubmit(SellLimit(ask))];
            var c := State(START, es);
            && Run(START, es) && Checkable(c, 0) && !Harmless(c.books[0], c.triggers[0], 10.0)
            && (RebuildsBooks(CheckTriggers(c, 0, 10.0)) <==> bid == ask)
  {
    var buy, sell := BuyLimit(bid), SellLimit(ask);
    var es := [DoSubmit(buy), DoSubmit(sell)];
    var c := State(START, es);
    PairWaits(bid, ask);
    AtStart();
    hide State, Run, Invariant, RebuildsBooks, RebuildsTriggers, CheckTriggers, Among;
    QuietRunsAreCheckable(START, es, 0);
    CheckReplaysExactly(c, 0, 10.0);
    PairAmong(bid, ask);
    assert c.triggers[0][0] == buy && Hit(buy, 10.0) && Acts(c.books[0], buy);
  }

  lemma {:induction false} PairWaits(bid: real, ask: real)
    ensures var es := [DoSubmit(BuyLimit(bid)), DoSubmit(SellLimit(ask))];
            && Run(START, es) && Live(es) && Quiet(START, es)
            && State(START, es).books == map[0 := EMPTY]
            && State(START, es).triggers == map[0 := [BuyLimit(bid), SellLimit(ask)]]
  {
    var buy, sell := BuyLimit(bid), SellLimit(ask);
    var es := [DoSubmit(buy), DoSubmit(sell)];
    EmptyEngine(START);
    var c1 := Step(START, es[0]);
    assert [] + [buy] == [buy] && [buy] + [sell] == [buy, sell];
    assert c1.books == map[0 := EMPTY] && c1.triggers == map[0 := [buy]];
    assert !HasId([buy], sell.id);
    assert forall s :: !RestsIn(c1.books, s, sell.id) && !PendingIn(c1.triggers, s, sell.id);
    TwoSteps(es[0], es[1]);
    hide State, Run;
  }

  lemma {:induction false} PairAmong(bid: real, ask: real)
    requires bid <= 10.0 <= ask
    ensures Among(EMPTY, EMPTY, [BuyLimit(bid), SellLimit(ask)], 10.0) <==> bid == ask
  {
    var buy, sell := BuyLimit(bid), SellLimit(ask);
    var both, a, b := [buy, sell], Active(buy), Active(sell);
    assert both[1..] == [sell] && [sell][1..] == [];
    var l := Book([a], []);
    assert Process(EMPTY, a).book == l;
    assert Among(EMPTY, EMPTY, both, 10.0) <==> Among(l, EMPTY, [sell], 10.0);
    assert Among(l, EMPTY, [sell], 10.0) <==> Process(l, b).book == EMPTY;
    if bid == ask {
      assert Sweep([a], b, 5.0).rest == [];
    } else {
      assert Sweep([a], b, 5.0).rest == [a];
    }
  }
}
