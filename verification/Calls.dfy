/** What a whole call of the engine does, as a run of the step machine, and what the clients of its feeds
    hold between calls. */
module Calls {
  import opened Orders
  import opened FlatBook
  import opened Ladder
  import opened Fees
  import opened Matching
  import opened EngineCore
  import opened EngineRuns
  import opened WriteAheadLog
  import opened OwnSymbols
  import opened MarketData
  import opened Joining

  /** `operator[]` of a map, which creates missing entries. */
  function At<V>(m: map<Symbol, V>, s: Symbol, initial: V): V {
    if s in m then m[s] else initial
  }

  /** The trades that submitting an order publishes. */
  ghost function Trades(c: Core, t: Ticket, policy: FeePolicy): seq<Trade> {
    if IsTrigger(t.kind) then [] else TradesOf(Process(BookAt(c.books, t.symbol), t).fills, t, policy)
  }

  /** Publishing a trade stamps it, and then checks the triggers at its price. */
  function Publishing(trades: seq<Trade>): seq<Event> {
    if trades == [] then []
    else
      var trade := trades[|trades| - 1];
      Publishing(trades[..|trades| - 1]) + [DoStamp(trade), DoCheck(trade.symbol, trade.price)]
  }

  /** A whole submit: the order's step, then a stamp and a check for each of its trades. */
  ghost function Submitting(c: Core, t: Ticket, policy: FeePolicy): Core {
    State(c, [DoSubmit(t)] + Publishing(Trades(c, t, policy)))
  }

  lemma {:induction false} OnlySubmitted(c: Core, t: Ticket)
    ensures State(c, [DoSubmit(t)] + Publishing([])) == Submit(c, t)
  {
    var none: seq<Event> := [];
    assert [DoSubmit(t)] + Publishing([]) == none + [DoSubmit(t)];
    NextState(c, none, DoSubmit(t));
  }

  lemma {:induction false} PublishingNext(c: Core, e: Event, trades: seq<Trade>, i: nat)
    requires i < |trades|
    ensures State(c, [e] + Publishing(trades[..i + 1])) ==
            Step(Step(State(c, [e] + Publishing(trades[..i])), DoStamp(trades[i])),
              DoCheck(trades[i].symbol, trades[i].price))
  {
    var es, stamp, check := [e] + Publishing(trades[..i]), DoStamp(trades[i]),
      DoCheck(trades[i].symbol, trades[i].price);
    assert trades[..i + 1][..i] == trades[..i];
    assert [e] + Publishing(trades[..i + 1]) == es + [stamp] + [check];
    hide State, Step;
    NextState(c, es, stamp);
    NextState(c, es + [stamp], check);
  }

  /** The trades of a submit: one per filled order, at that order's price. */
  lemma {:induction false} TradesOfSubmit(c: Core, t: Ticket, policy: FeePolicy)
    requires Invariant(c)
    ensures var trades, opp := Trades(c, t, policy), BookAt(c.books, t.symbol).On(t.side.Opposite());
            var n := |trades|;
            && n <= |opp|
            && (forall i | 0 <= i < n ::
                  && trades[i].symbol == opp[i].symbol && trades[i].price == opp[i].price
                  && trades[i].quantity == Min(opp[i].qty, t.qty - Depth(opp[..i])) && Depth(opp[..i]) < t.qty
                  && trades[i].makerOrderId == opp[i].id && trades[i].takerOrderId == t.id
                  && trades[i].aggressor == t.side
                  && (t.kind.MARKET? || if t.side.BUY? then opp[i].price <= t.price else opp[i].price >= t.price))
            && (n == |opp| || Depth(opp[..n]) >= t.qty
                || !(t.kind.MARKET? || if t.side.BUY? then opp[n].price <= t.price else opp[n].price >= t.price)
                || (n == 0 && (t.kind.FOK? || IsTrigger(t.kind))))
            && (t.kind.FOK? && n > 0 ==> Depth(opp[..n]) >= t.qty)
            && (IsTrigger(t.kind) ==> n == 0)
  {
    OpenKeeps(c.books, t.symbol);
    hide Process, TradesOf, WellFormed, Min, Depth;
    TradesAre(BookAt(c.books, t.symbol), t, policy);
  }

  /** What stays pending through a submit: exactly the orders that the price of none of its trades hits. */
  lemma {:induction false} SubmitDecides(c: Core, t: Ticket, trades: seq<Trade>, u: Ticket)
    requires !IsTrigger(t.kind) && t.symbol in c.triggers
    requires forall i | 0 <= i < |trades| :: trades[i].symbol == t.symbol
    ensures var after := State(c, [DoSubmit(t)] + Publishing(trades)).triggers;
            && t.symbol in after
            && (u in after[t.symbol] <==>
                u in c.triggers[t.symbol] && forall i | 0 <= i < |trades| :: !Hit(u, trades[i].price))
  {
    hide Hit, Match, Fire, StillPending;
    if trades == [] {
      OnlySubmitted(c, t);
    } else {
      var n := |trades| - 1;
      var before, trade := State(c, [DoSubmit(t)] + Publishing(trades[..n])), trades[n];
      SubmitDecides(c, t, trades[..n], u);
      PublishingNext(c, DoSubmit(t), trades, n);
      assert trades[..n + 1] == trades;
      StillPendingExact(before.triggers[t.symbol], trade.price);
      hide State, Publishing;
    }
  }

  lemma {:induction false} SubmitLeaves(c: Core, t: Ticket, policy: FeePolicy, u: Ticket)
    requires AllOwn(c.books) && !IsTrigger(t.kind) && t.symbol in c.triggers
    ensures var trades, after := Trades(c, t, policy), Submitting(c, t, policy).triggers;
            && t.symbol in after
            && (u in after[t.symbol] <==>
                u in c.triggers[t.symbol] && forall i | 0 <= i < |trades| :: !Hit(u, trades[i].price))
  {
    hide Hit, Trades, State, Publishing;
    TradesOwn(c, t, policy);
    SubmitDecides(c, t, Trades(c, t, policy), u);
  }

  /** Everyone who received every message about a symbol holds the ten best levels of its book. */
  ghost predicate Current(books: map<Symbol, Book>, sent: map<Symbol, seq<Message>>, s: Symbol) {
    var b := BookAt(books, s);
    forall c :: ReceiveAll(c, At(sent, s, [])) == Client(AsMap(Top(b.bids, 10)), AsMap(Top(b.asks, 10)))
  }

  /** That is so for every symbol about which anything was ever published. */
  ghost predicate Informed(books: map<Symbol, Book>, sent: map<Symbol, seq<Message>>,
                           publications: map<Symbol, seq<Publication>>) {
    forall s | At(publications, s, []) != [] :: Current(books, sent, s)
  }

  /** There is one more publication for symbol `s`, and nothing else has been published. */
  ghost predicate PublishedOnce(before: map<Symbol, seq<Publication>>, after: map<Symbol, seq<Publication>>,
                                s: Symbol) {
    && |At(after, s, [])| == |At(before, s, [])| + 1
    && At(before, s, []) <= At(after, s, [])
    && forall u | u != s :: At(after, u, []) == At(before, u, [])
  }

  /** The tape of symbol `s` has got these trades, in this order, and no other tape has changed. */
  function Taped(tapes: map<Symbol, seq<Trade>>, s: Symbol, trades: seq<Trade>): map<Symbol, seq<Trade>> {
    if trades == [] then tapes else tapes[s := At(tapes, s, []) + trades]
  }

  lemma {:induction false} TapedIs(tapes: map<Symbol, seq<Trade>>, s: Symbol, trades: seq<Trade>)
    ensures At(Taped(tapes, s, trades), s, []) == At(tapes, s, []) + trades
    ensures forall u | u != s :: At(Taped(tapes, s, trades), u, []) == At(tapes, u, [])
  {
    assert At(tapes, s, []) + [] == At(tapes, s, []);
  }

  lemma {:induction false} TapedNext(tapes: map<Symbol, seq<Trade>>, s: Symbol, trades: seq<Trade>, i: nat)
    requires i < |trades|
    ensures var was := Taped(tapes, s, trades[..i]);
            Taped(tapes, s, trades[..i + 1]) == was[s := At(was, s, []) + [trades[i]]]
  {
    assert trades[..i + 1] == trades[..i] + [trades[i]];
    assert At(tapes, s, []) + trades[..i + 1] == At(tapes, s, []) + trades[..i] + [trades[i]];
    assert At(tapes, s, []) + [] == At(tapes, s, []);
  }

  lemma {:induction false} StaysInformed(books: map<Symbol, Book>, sent: map<Symbol, seq<Message>>,
                                         publications: map<Symbol, seq<Publication>>,
                                         books': map<Symbol, Book>, sent': map<Symbol, seq<Message>>,
                                           publications': map<Symbol, seq<Publication>>,
                                         s: Symbol)
    requires Informed(books, sent, publications) && SameElsewhere(books, books', s)
    requires forall u | u != s :: At(sent', u, []) == At(sent, u, [])
    requires forall u | u != s :: At(publications', u, []) == At(publications, u, [])
    requires At(publications', s, []) != [] ==> Current(books', sent', s)
    ensures Informed(books', sent', publications')
  {
    forall u | At(publications', u, []) != []
      ensures Current(books', sent', u)
    {
      assert u != s ==> Current(books, sent, u);
    }
  }

  /** Publishing the trades of one symbol touches that symbol's book only. */
  lemma {:induction false} PublishingOwn(c: Core, t: Ticket, trades: seq<Trade>)
    requires Invariant(c) && AllOwn(c.books) && Allowed(c, DoSubmit(t))
    requires forall i | 0 <= i < |trades| :: trades[i].symbol == t.symbol
    ensures var c' := State(c, [DoSubmit(t)] + Publishing(trades));
            Invariant(c') && AllOwn(c'.books) && SameElsewhere(c.books, c'.books, t.symbol)
  {
    hide Invariant, AllOwn, Step, BookAt, RestsAnywhere, PendingAnywhere;
    if trades == [] {
      StepKeeps(c, DoSubmit(t));
      StepOwn(c, DoSubmit(t), t.symbol);
      OnlySubmitted(c, t);
      SubmitIsStep(c, t);
    } else {
      var n := |trades| - 1;
      var c1 := State(c, [DoSubmit(t)] + Publishing(trades[..n]));
      PublishingOwn(c, t, trades[..n]);
      PublishingNext(c, DoSubmit(t), trades, n);
      assert trades[..n + 1] == trades;
      PublishOneOwn(c1, trades[n], t.symbol);
    }
  }

  lemma {:induction false} SubmitIsStep(c: Core, t: Ticket)
    ensures Step(c, DoSubmit(t)) == Submit(c, t)
  {
  }

  lemma {:induction false} PublishOneOwn(c: Core, trade: Trade, s: Symbol)
    requires Invariant(c) && AllOwn(c.books) && trade.symbol == s
    ensures var c' := Step(Step(c, DoStamp(trade)), DoCheck(s, trade.price));
            Invariant(c') && AllOwn(c'.books) && SameElsewhere(c.books, c'.books, s)
  {
    hide AllOwn, BookAt;
    var c1 := Step(c, DoStamp(trade));
    StepKeeps(c, DoStamp(trade));
    StepKeeps(c1, DoCheck(s, trade.price));
    StepOwn(c1, DoCheck(s, trade.price), s);
  }

  lemma {:induction false} TradesOwn(c: Core, t: Ticket, policy: FeePolicy)
    requires AllOwn(c.books)
    ensures forall i | 0 <= i < |Trades(c, t, policy)| :: Trades(c, t, policy)[i].symbol == t.symbol
  {
    hide Process;
    MatchOwn(c.books, t);
    TradesAt(Process(BookAt(c.books, t.symbol), t).fills, t, policy);
  }

  // ----- Clients that join between calls

  /** When everyone with all messages holds the ten best levels of a book, so does the last snapshot. */
  lemma {:induction false} SnapshotIsCurrent(ps: seq<Publication>, b: Book)
    requires Published(ps) && ps != []
    requires forall c ::
               ReceiveAll(c, After(ps).messages) == Client(AsMap(Top(b.bids, 10)), AsMap(Top(b.asks, 10)))
    ensures After(ps).last.Some? && Held(After(ps).last.value) == Client(AsMap(Top(b.bids, 10)), AsMap(Top(b.asks, 10)))
  {
    var c := Client(map[], map[]);
    ReplicaHoldsSnapshot(ps, c);
    assert ReceiveAll(c, After(ps).messages) == Client(AsMap(Top(b.bids, 10)), AsMap(Top(b.asks, 10)));
  }

  /** So a client that joins between calls, seeded with the book's depth, holds every later snapshot. */
  lemma {:induction false} JoinsBetweenCalls(ps: seq<Publication>, j: nat, b: Book)
    requires Published(ps) && 0 < j <= |ps| && Published(ps[..j])
    requires forall c ::
               ReceiveAll(c, After(ps[..j]).messages) == Client(AsMap(Top(b.bids, 10)), AsMap(Top(b.asks, 10)))
    ensures After(ps).last.Some?
    ensures ReceiveAll(Client(AsMap(Top(b.bids, 10)), AsMap(Top(b.asks, 10))), Later(ps, j)) ==
            Held(After(ps).last.value)
  {
    SnapshotIsCurrent(ps[..j], b);
    JoinerHoldsSnapshot(ps, j);
  }
}
