/** src/engine/matching_algorithm.cpp: the four matching procedures on a heap book,
    each proved to be `Process` on the reference book. */
module Matching {
  import opened Orders
  import opened FlatBook
  import opened Fees
  import opened BookShapes
  import opened Books
  import opened MatchingLaws

  /** The trade record of one fill. */
  function TradeOf(f: Fill, taker: Ticket, policy: FeePolicy): Trade {
    var rates := policy.Rates(f.maker.symbol);
    Trade(f.maker.symbol, f.maker.price, f.qty, Fee(f.maker.price, f.qty, rates.makerFee),
          Fee(f.maker.price, f.qty, rates.takerFee), f.maker.id, taker.id, taker.side)
  }

  function TradesOf(fills: seq<Fill>, taker: Ticket, policy: FeePolicy): seq<Trade> {
    if fills == [] then [] else [TradeOf(fills[0], taker, policy)] + TradesOf(fills[1..], taker, policy)
  }

  lemma {:induction false} TradesAt(fills: seq<Fill>, t: Ticket, policy: FeePolicy)
    ensures |TradesOf(fills, t, policy)| == |fills|
    ensures forall i | 0 <= i < |fills| :: TradesOf(fills, t, policy)[i] == TradeOf(fills[i], t, policy)
  {
    if fills != [] {
      TradesAt(fills[1..], t, policy);
    }
  }

  /** The trade records of an order: one per filled order, in priority order, at that order's price, with
      both ids, the taker's side, and each fee as its rate on the notional value. */
  lemma {:induction false} TradesAre(b: Book, t: Ticket, policy: FeePolicy)
    requires WellFormed(b)
    ensures var trades, opp := TradesOf(Process(b, t).fills, t, policy), b.On(t.side.Opposite());
            var n := |trades|;
            && n <= |opp|
            && (forall i | 0 <= i < n ::
                  && trades[i].symbol == opp[i].symbol && trades[i].price == opp[i].price
                  && trades[i].quantity == Min(opp[i].qty, t.qty - Depth(opp[..i])) && Depth(opp[..i]) < t.qty
                  && trades[i].makerOrderId == opp[i].id && trades[i].takerOrderId == t.id
                  && trades[i].aggressor == t.side
                  && (t.kind.MARKET? || if t.side.BUY? then opp[i].price <= t.price else opp[i].price >= t.price))
            && (n == |opp| || Depth(opp[..n]) >= t.qty
                || !(t.kind.MARKET? || if t.side.BUY? then opp[n].price <= t.price else opp[n].price >= t.price)
                || (n == 0 && (t.kind.FOK? || IsTrigger(t.kind))))
            && (t.kind.FOK? && n > 0 ==> Depth(opp[..n]) >= t.qty)
            && (IsTrigger(t.kind) ==> n == 0)
  {
    FillsAre(b, t);
    TradesAt(Process(b, t).fills, t, policy);
    hide Process, Depth, Min, WellFormed, TradesOf;
  }

  /** The trade records of an order that met these opposite orders: each at the maker's price, for the smaller
      of the maker's quantity and what the makers before have left, with both ids, the taker's side, and each
      fee as its rate on the notional value. */
  ghost predicate Answers(trades: seq<Trade>, opp: seq<Ticket>, t: Ticket, policy: FeePolicy) {
    && |trades| <= |opp|
    && forall i | 0 <= i < |trades| ::
      && trades[i].symbol == opp[i].symbol && trades[i].price == opp[i].price
      && trades[i].quantity == Min(opp[i].qty, t.qty - Depth(opp[..i]))
      && trades[i].makerOrderId == opp[i].id && trades[i].takerOrderId == t.id
      && trades[i].aggressor == t.side
      && trades[i].makerFee == Fee(opp[i].price, trades[i].quantity, policy.Rates(opp[i].symbol).makerFee)
      && trades[i].takerFee == Fee(opp[i].price, trades[i].quantity, policy.Rates(opp[i].symbol).takerFee)
  }

  lemma {:induction false} AnswersAre(b: Book, t: Ticket, policy: FeePolicy, trades: seq<Trade>)
    requires WellFormed(b) && trades == TradesOf(Process(b, t).fills, t, policy)
    ensures Answers(trades, b.On(t.side.Opposite()), t, policy)
  {
    hide WellFormed, Process, TradesOf, Min, Depth, FeePolicy.Rates, Fee;
    TradesAre(b, t, policy);
    FeesOf(Process(b, t).fills, t, policy);
  }

  lemma {:induction false} FeesOf(fills: seq<Fill>, t: Ticket, policy: FeePolicy)
    ensures forall r | r in TradesOf(fills, t, policy) ::
              var rates := policy.Rates(r.symbol);
              && r.makerFee == Fee(r.price, r.quantity, rates.makerFee)
              && r.takerFee == Fee(r.price, r.quantity, rates.takerFee)
  {
    hide Fee, FeePolicy.Rates;
    if fills != [] { FeesOf(fills[1..], t, policy); }
  }

  /** Fees are the rates in force on the notional value. */
  lemma {:induction false} FeesAre(fills: seq<Fill>, t: Ticket, policy: FeePolicy)
    ensures forall r | r in TradesOf(fills, t, policy) ::
              && r.makerFee == r.price * r.quantity * policy.Rates(r.symbol).makerFee
              && r.takerFee == r.price * r.quantity * policy.Rates(r.symbol).takerFee
  {
    if fills != [] { FeesAre(fills[1..], t, policy); }
  }

  // ----- One fill on the reference book

  lemma {:induction false} ReduceHead(l: seq<Ticket>, amount: real)
    requires Unique(l) && l != [] && 0.0 < amount <= l[0].qty
    ensures Reduce(l, l[0].id, amount) == Remaining(l, amount)
  {
    var id := l[0].id;
    assert HasId(l, id) && !HasId(l[1..], id);
    WithoutAbsent(l[1..], id);
    SetQtyAbsent(l[1..], id, l[0].qty - amount);
  }

  /** Filling the best order of a side: it leaves the list when filled completely, else it shrinks. */
  lemma {:induction false} DecreaseHead(b: Book, s: Side, amount: real)
    requires WellFormed(b) && b.On(s) != [] && 0.0 < amount <= b.On(s)[0].qty
    ensures Decrease(b, b.On(s)[0].id, amount) == b.With(s, Remaining(b.On(s), amount))
  {
    var id := b.On(s)[0].id;
    DistinctSides(b, s, 0);
    assert Unique(b.On(s)) by { QueueOf(b, s); }
    hide WellFormed, Sorted, Unique, Without, SetQty, Quantity, HasId;
    ReduceHead(b.On(s), amount);
    assert Reduce(b.On(s.Opposite()), id, amount) == b.On(s.Opposite());
    hide Reduce, Remaining;
  }

  lemma {:induction false} QueueOf(b: Book, s: Side)
    requires WellFormed(b)
    ensures Queue(s, b.On(s))
  {
  }

  /** The candidate objects are the ones indexed under these ids. */
  ghost predicate Candidates(os: seq<Order>, ts: seq<Ticket>, index: map<OrderId, Order>) {
    && |os| == |ts|
    && forall j | 0 <= j < |ts| :: ts[j].id in index && os[j] == index[ts[j].id]
  }

  lemma {:induction false} CappedPrefix(opp: seq<Ticket>, t: Ticket, q: real)
    ensures |Capped(opp, t, q)| <= |opp|
    ensures forall j | 0 <= j < |Capped(opp, t, q)| :: Capped(opp, t, q)[j] == opp[j]
  {
    if opp != [] {
      CappedPrefix(opp[1..], t, q - opp[0].qty);
    }
  }

  /** The candidates for an order: the shortest run of acceptable orders from the head that covers it. */
  lemma {:induction false} CandidatesAre(opp: seq<Ticket>, t: Ticket, q: real)
    ensures var n := |Capped(opp, t, q)|;
            && n <= |opp| && Capped(opp, t, q) == opp[..n]
            && (forall i | 0 <= i < n ::
                  && Depth(opp[..i]) < q
                  && (t.kind.MARKET? || if t.side.BUY? then opp[i].price <= t.price else opp[i].price >= t.price))
            && (n == |opp| || Depth(opp[..n]) >= q
                || !(t.kind.MARKET? || if t.side.BUY? then opp[n].price <= t.price else opp[n].price >= t.price))
  {
    if opp != [] && q > 0.0 && Accepts(t, opp[0].price) {
      var tail := opp[1..];
      CandidatesAre(tail, t, q - opp[0].qty);
      forall i | 0 < i <= |opp|
        ensures Depth(opp[..i]) == opp[0].qty + Depth(tail[..i - 1])
      {
        DepthPrefix(opp, i);
      }
      assert forall i | 0 < i < |opp| :: opp[i] == tail[i - 1];
      hide Accepts, Depth;
    }
  }

  /** After the best order has been filled completely, the other candidates are still the right ones. */
  lemma {:induction false} NextCandidates(l: seq<Ticket>, t: Ticket, rem: real, os: seq<Order>,
                                          index: map<OrderId, Order>)
    requires Unique(l) && l != [] && Candidates(os, Capped(l, t, rem), index) && os != []
    requires l[0].qty < rem
    ensures Candidates(os[1..], Capped(l[1..], t, rem - l[0].qty), index)
    ensures Candidates(os[1..], Capped(l[1..], t, rem - l[0].qty), index - {l[0].id})
  {
    var tail := Capped(l[1..], t, rem - l[0].qty);
    assert Capped(l, t, rem) == [l[0]] + tail;
    CappedPrefix(l[1..], t, rem - l[0].qty);
    forall j | 0 <= j < |tail|
      ensures tail[j].id in index && tail[j].id != l[0].id && os[1..][j] == index[tail[j].id]
    {
      assert tail[j] == l[j + 1] && ([l[0]] + tail)[j + 1] == tail[j];
    }
  }

  /** Execution of the rest of the fills from the current list is the rest of the whole execution. */
  ghost predicate Continues(trades: seq<Trade>, cur: seq<Ticket>, rem: real, whole: Outcome, t: Ticket,
                            policy: FeePolicy) {
    var r := Sweep(cur, t, rem);
    && trades + TradesOf(r.fills, t, policy) == TradesOf(whole.fills, t, policy)
    && r.rest == whole.rest
    && r.left == whole.left
  }

  lemma {:induction false} ContinuesStep(trades: seq<Trade>, cur: seq<Ticket>, rem: real, whole: Outcome, t: Ticket,
                                         policy: FeePolicy)
    requires Continues(trades, cur, rem, whole, t, policy)
    requires cur != [] && rem > 0.0 && Accepts(t, cur[0].price) && cur[0].qty > 0.0
    ensures var q := Min(rem, cur[0].qty);
            Continues(trades + [TradeOf(Fill(cur[0], q), t, policy)], Remaining(cur, q), rem - q, whole, t, policy)
  {
    var q := Min(rem, cur[0].qty);
    var f := Fill(cur[0], q);
    var r := Sweep(Remaining(cur, q), t, rem - q);
    SweepHead(cur, t, rem);
    assert ([f] + r.fills)[1..] == r.fills;
    var x, xs := TradeOf(f, t, policy), TradesOf(r.fills, t, policy);
    assert trades + ([x] + xs) == (trades + [x]) + xs;
  }

  lemma {:induction false} SweepHead(cur: seq<Ticket>, t: Ticket, rem: real)
    requires cur != [] && rem > 0.0 && Accepts(t, cur[0].price) && cur[0].qty > 0.0
    ensures var q := Min(rem, cur[0].qty);
            var r := Sweep(Remaining(cur, q), t, rem - q);
            Sweep(cur, t, rem) == Outcome([Fill(cur[0], q)] + r.fills, r.rest, r.left)
  {
    var q := Min(rem, cur[0].qty);
    if q < cur[0].qty {
      assert Sweep(Remaining(cur, q), t, rem - q) == Outcome([], Remaining(cur, q), 0.0);
      assert [Fill(cur[0], q)] + [] == [Fill(cur[0], q)];
    }
  }

  /** The state of the sweep loop: candidates `os` and quantity `rem` still to go. */
  ghost predicate Sweeping(trades: seq<Trade>, cur: seq<Ticket>, rem: real, os: seq<Order>, index: map<OrderId, Order>,
                           whole: Outcome, t: Ticket, policy: FeePolicy) {
    && Continues(trades, cur, rem, whole, t, policy)
    && (rem > 0.0 ==> Candidates(os, Capped(cur, t, rem), index))
  }

  lemma {:induction false} SweepingStart(opp: seq<Ticket>, q: real, os: seq<Order>, index: map<OrderId, Order>,
                                         t: Ticket, policy: FeePolicy)
    requires Candidates(os, Capped(opp, t, q), index)
    ensures Sweeping([], opp, q, os, index, Sweep(opp, t, q), t, policy)
  {
  }

  lemma {:induction false} SweepingDone(trades: seq<Trade>, cur: seq<Ticket>, rem: real, os: seq<Order>,
                                        index: map<OrderId, Order>, whole: Outcome, t: Ticket, policy: FeePolicy)
    requires Sweeping(trades, cur, rem, os, index, whole, t, policy) && (os == [] || rem <= 0.0)
    ensures trades == TradesOf(whole.fills, t, policy) && cur == whole.rest && rem == whole.left
  {
    assert Sweep(cur, t, rem) == Outcome([], cur, rem);
  }

  lemma {:induction false} SweepingStep(trades: seq<Trade>, cur: seq<Ticket>, rem: real, os: seq<Order>,
                                        index: map<OrderId, Order>,
                                        whole: Outcome, t: Ticket, policy: FeePolicy, s: Side)
    requires Sweeping(trades, cur, rem, os, index, whole, t, policy) && os != [] && rem > 0.0 && Queue(s, cur)
    ensures cur != [] && cur[0].id in index && os[0] == index[cur[0].id]
    ensures var q := Min(rem, cur[0].qty);
            var trades' := trades + [TradeOf(Fill(cur[0], q), t, policy)];
            && Sweeping(trades', Remaining(cur, q), rem - q, os[1..], index, whole, t, policy)
            && Sweeping(trades', Remaining(cur, q), rem - q, os[1..], index - {cur[0].id}, whole, t, policy)
  {
    CappedPrefix(cur, t, rem);
    assert Capped(cur, t, rem)[0] == cur[0];
    ContinuesStep(trades, cur, rem, whole, t, policy);
    if cur[0].qty < rem {
      NextCandidates(cur, t, rem, os, index);
    }
  }

  class MatchingAlgorithm {
    var feeModel: FeeModel?

    constructor ()
      ensures feeModel == null
    {
      feeModel := null;
    }

    method SetFeeModel(fm: FeeModel?)
      modifies this
      ensures feeModel == fm
    {
      feeModel := fm;
    }

    ghost function Policy(): FeePolicy
      reads this, feeModel
    {
      if feeModel == null then Fallback else Scheduled(feeModel.feeSchedules)
    }

    /** The fee model's rates, or the built-in ones when there is none. */
    method FeesFor(symbol: Symbol, price: real, quantity: real) returns (makerFee: real, takerFee: real)
      ensures var own := feeModel != null && symbol in feeModel.feeSchedules;
              && makerFee == price * quantity * (if own then feeModel.feeSchedules[symbol].makerFee else 0.001)
              && takerFee == price * quantity * (if own then feeModel.feeSchedules[symbol].takerFee else 0.002)
      ensures var rates := Policy().Rates(symbol);
              makerFee == Fee(price, quantity, rates.makerFee) && takerFee == Fee(price, quantity, rates.takerFee)
    {
      if feeModel != null {
        var fees := feeModel.CalculateFees(symbol, price, quantity);
        makerFee, takerFee := fees.makerFee - fees.makerRebate, fees.takerFee;
        NetMakerFee(feeModel, symbol, price, quantity);
      } else {
        makerFee, takerFee := price * quantity * 0.001, price * quantity * 0.002;
      }
    }

    /** Decreases both orders in the book; a taker that does not rest is not there to be decreased. */
    method DecreaseBoth(book: OrderBook, maker: Order, taker: Order, quantity: real)
      requires book.Valid()
      modifies book, book.orderMap.Values
      ensures book.Valid()
      ensures book.Flat() == Decrease(Decrease(old(book.Flat()), maker.id, quantity), taker.id, quantity)
      ensures taker.id !in old(book.orderMap) ==>
                book.orderMap == old(book.orderMap) || book.orderMap == old(book.orderMap) - {maker.id}
      ensures book.orderMap.Values <= old(book.orderMap.Values)
    {
      hide Consistent, Decrease;
      var left := book.DecreaseOrderQuantity(maker.id, quantity);
      left := book.DecreaseOrderQuantity(taker.id, quantity);
    }

    /** Executes at the maker's price. Both ids are decreased, whether the taker rests or not. */
    method ExecuteTrade(book: OrderBook, maker: Order, taker: Order, quantity: real) returns (t: Trade)
      requires book.Valid()
      modifies book, book.orderMap.Values
      ensures book.Valid()
      ensures book.Flat() == Decrease(Decrease(old(book.Flat()), maker.id, quantity), taker.id, quantity)
      ensures taker.id !in old(book.orderMap) ==>
                book.orderMap == old(book.orderMap) || book.orderMap == old(book.orderMap) - {maker.id}
      ensures book.orderMap.Values <= old(book.orderMap.Values)
      ensures t.price == maker.price && t.quantity == quantity && t.symbol == maker.symbol
      ensures t.makerOrderId == maker.id && t.takerOrderId == taker.id && t.aggressor == taker.side
      ensures t == TradeOf(Fill(old(maker.View()), quantity), old(taker.View()), old(Policy()))
    {
      hide Consistent, Decrease;
      var execPrice := maker.price;
      DecreaseBoth(book, maker, taker, quantity);
      assert Policy() == old(Policy());
      var makerFee, takerFee := FeesFor(maker.symbol, execPrice, quantity);
      t := Trade(maker.symbol, execPrice, quantity, makerFee, takerFee, maker.id, taker.id, taker.side);
    }

    /** One round of the sweep loop: fills the best opposite order as far as possible. */
    method FillBest(book: OrderBook, maker: Order, taker: Order, remaining: real) returns (trade: Trade, left: real)
      requires book.Valid() && taker.id !in book.orderMap && remaining > 0.0
      requires var opp := book.Flat().On(taker.side.Opposite());
               opp != [] && opp[0].id in book.orderMap && maker == book.orderMap[opp[0].id]
      modifies book, book.orderMap.Values
      ensures book.Valid()
      ensures var s := taker.side.Opposite();
              var opp := old(book.Flat()).On(s);
              var head := opp[0];
              var q := Min(remaining, head.qty);
              && trade == TradeOf(Fill(head, q), old(taker.View()), old(Policy()))
              && left == remaining - q
              && book.Flat() == old(book.Flat()).With(s, Remaining(opp, q))
              && (book.orderMap == old(book.orderMap) || book.orderMap == old(book.orderMap) - {head.id})
      ensures book.orderMap.Values <= old(book.orderMap.Values)
    {
      ghost var s := taker.side.Opposite();
      book.HeadObject(s);
      var tradeQty := Min(remaining, maker.quantity);
      DecreaseHead(book.Flat(), s, tradeQty);
      OnlyTheMaker(book, maker.id, taker.id, tradeQty);
      trade := ExecuteTrade(book, maker, taker, tradeQty);
      left := remaining - tradeQty;
    }

    /** The second decrease of a trade finds nothing, because the taker does not rest. */
    lemma {:induction false} OnlyTheMaker(book: OrderBook, maker: OrderId, taker: OrderId, quantity: real)
      requires book.Valid() && taker !in book.orderMap
      ensures var b := Decrease(book.Flat(), maker, quantity); Decrease(b, taker, quantity) == b
    {
      DecreaseKeepsWellFormed(book.Flat(), maker, quantity);
      assert !Rests(book.Flat(), taker);
    }

    /** One round of the sweep loop. */
    method FillNext(book: OrderBook, order: Order, maker: Order, trades0: seq<Trade>, remaining0: real,
                    ghost os: seq<Order>, ghost whole: Outcome)
        returns (trades: seq<Trade>, remaining: real)
      requires book.Valid() && order.id !in book.orderMap && remaining0 > 0.0 && os != [] && os[0] == maker
      requires Sweeping(trades0, book.Flat().On(order.side.Opposite()), remaining0, os, book.orderMap, whole,
                 order.View(), Policy())
      modifies book, book.orderMap.Values
      ensures book.Valid() && order.id !in book.orderMap
      ensures Sweeping(trades, book.Flat().On(order.side.Opposite()), remaining, os[1..], book.orderMap, whole,
                old(order.View()), old(Policy()))
      ensures book.Flat() == old(book.Flat()).With(order.side.Opposite(), book.Flat().On(order.side.Opposite()))
      ensures book.orderMap.Keys <= old(book.orderMap.Keys) && book.orderMap.Values <= old(book.orderMap.Values)
    {
      ghost var s := order.side.Opposite();
      book.FlatIsWellFormed();
      SidesQueue(book.Flat(), s);
      hide Consistent, Sweeping, TradeOf, WellFormed, Queue, Remaining, Min;
      SweepingStep(trades0, book.Flat().On(s), remaining0, os, book.orderMap, whole, order.View(), Policy(), s);
      var trade;
      trade, remaining := FillBest(book, maker, order, remaining0);
      trades := trades0 + [trade];
    }

    /** The sweep loop that all four procedures share: fills the candidates in order. */
    method FillCandidates(book: OrderBook, order: Order, matching: seq<Order>, quantity: real)
        returns (trades: seq<Trade>, remaining: real)
      requires book.Valid() && order.id !in book.orderMap
      requires Candidates(matching, Capped(book.Flat().On(order.side.Opposite()), order.View(), quantity),
               book.orderMap)
      modifies book, book.orderMap.Values
      ensures book.Valid()
      ensures var r := Sweep(old(book.Flat()).On(order.side.Opposite()), old(order.View()), quantity);
              && trades == TradesOf(r.fills, old(order.View()), old(Policy()))
              && remaining == r.left
              && book.Flat() == old(book.Flat()).With(order.side.Opposite(), r.rest)
      ensures book.orderMap.Keys <= old(book.orderMap.Keys) && book.orderMap.Values <= old(book.orderMap.Values)
    {
      trades, remaining := [], quantity;
      ghost var s, t, policy, before := order.side.Opposite(), order.View(), Policy(), book.Flat();
      ghost var whole := Sweep(before.On(s), t, quantity);
      book.NotIndexed(order);
      SweepingStart(before.On(s), quantity, matching, book.orderMap, t, policy);
      hide Consistent, Sweep, Sweeping, TradesOf, TradeOf, Capped, Candidates, Accepts, WellFormed, Queue, Remaining;
      assert matching[0..] == matching;
      var i := 0;
      while i < |matching|
        invariant i <= |matching|
        invariant book.Valid() && Policy() == policy && order.View() == t
        invariant book.orderMap.Values <= old(book.orderMap.Values) && book.orderMap.Keys <= old(book.orderMap.Keys)
        invariant book.Flat() == before.With(s, book.Flat().On(s))
        invariant Sweeping(trades, book.Flat().On(s), remaining, matching[i..], book.orderMap, whole, t, policy)
      {
        if remaining <= 0.0 { break; }
        assert matching[i..][1..] == matching[i + 1..] && matching[i..][0] == matching[i];
        trades, remaining := FillNext(book, order, matching[i], trades, remaining, matching[i..], whole);
        i := i + 1;
      }
      SweepingDone(trades, book.Flat().On(s), remaining, matching[i..], book.orderMap, whole, t, policy);
    }

    /** What the source asks of its callers: an id that is not resting. */
    ghost predicate Takes(book: OrderBook, order: Order)
      reads book, book.orderMap.Values, order
    {
      book.Valid() && order.id !in book.orderMap
    }

    /** The sweep is over. */
    ghost predicate Finished(before: Book, now: Book, t: Ticket, trades: seq<Trade>, remaining: real,
                             policy: FeePolicy) {
      var r := Sweep(before.On(t.side.Opposite()), t, t.qty);
      now == before.With(t.side.Opposite(), r.rest) && trades == TradesOf(r.fills, t, policy) && remaining == r.left
    }

    /** The state between passes of an outer loop: before any pass, or after one that finished the sweep. */
    ghost predicate Pass(passes: nat, before: Book, now: Book, t: Ticket, trades: seq<Trade>, remaining: real,
                         policy: FeePolicy) {
      if passes == 0 then now == before && trades == [] && remaining == t.qty
      else passes == 1 && Finished(before, now, t, trades, remaining, policy)
    }

    /** Whenever a pass finds no candidates, the sweep is over; after one pass it finds none. */
    lemma {:induction false} NoCandidates(passes: nat, before: Book, now: Book, t: Ticket, trades: seq<Trade>,
                                          remaining: real, policy: FeePolicy)
      requires Pass(passes, before, now, t, trades, remaining, policy) && WellFormed(before) && remaining > 0.0
      ensures var opp := now.On(t.side.Opposite());
              && (passes == 1 ==> opp == [] || !Accepts(t, opp[0].price))
              && (Capped(opp, t, t.qty) == [] <==> opp == [] || !Accepts(t, opp[0].price))
              && (Capped(opp, t, t.qty) == [] ==> Finished(before, now, t, trades, remaining, policy))
    {
      SweepExhausts(before.On(t.side.Opposite()), t, t.qty);
    }

    /** One round of an outer loop: collects candidates and, if there are any, fills them. */
    method SweepOnce(book: OrderBook, order: Order, trades0: seq<Trade>, remaining0: real, ghost passes: nat,
                     ghost before: Book)
        returns (found: bool, trades: seq<Trade>, remaining: real)
      requires book.Valid() && order.id !in book.orderMap && WellFormed(before) && remaining0 > 0.0
      requires Pass(passes, before, book.Flat(), order.View(), trades0, remaining0, Policy())
      modifies book, book.orderMap.Values
      ensures book.Valid() && order.id !in book.orderMap && book.orderMap.Values <= old(book.orderMap.Values)
      ensures order.View() == old(order.View()) && Policy() == old(Policy())
      ensures if found then passes == 0 && Pass(1, before, book.Flat(), order.View(), trades, remaining, Policy())
              else Finished(before, book.Flat(), order.View(), trades, remaining, Policy())
    {
      ghost var t := order.View();
      book.NotIndexed(order);
      NoCandidates(passes, before, book.Flat(), t, trades0, remaining0, Policy());
      book.ValidIsReadable();
      hide Consistent, Sweep, Accepts, Capped, Pass, Finished, WellFormed, Candidates, MirrorsQueue;
      var matching := book.GetMatchingOrders(order);
      trades, remaining, found := trades0, remaining0, matching != [];
      MirrorsAreCandidates(matching, Capped(book.Flat().On(t.side.Opposite()), t, t.qty), book.orderMap,
        Quantities(book.orderMap));
      if found {
        OnlyFirst(passes, before, book.Flat(), t, trades0, remaining0, Policy());
        var more;
        more, remaining := FillCandidates(book, order, matching, remaining0);
        FirstPassDone(before, book.Flat(), t, more, remaining, Policy());
        trades := trades0 + more;
      }
    }

    lemma {:induction false} MirrorsAreCandidates(os: seq<Order>, ts: seq<Ticket>, index: map<OrderId, Order>,
                                                  qs: map<OrderId, real>)
      requires MirrorsQueue(os, ts, index, qs)
      ensures Candidates(os, ts, index) && (os == [] <==> ts == [])
    {
    }

    /** A pass that is not the second is the first. */
    lemma {:induction false} OnlyFirst(passes: nat, before: Book, now: Book, t: Ticket, trades: seq<Trade>,
                                       remaining: real, policy: FeePolicy)
      requires Pass(passes, before, now, t, trades, remaining, policy) && passes != 1
      ensures passes == 0 && now == before && trades == [] && remaining == t.qty
    {
    }

    lemma {:induction false} FirstPassDone(before: Book, now: Book, t: Ticket, trades: seq<Trade>, remaining: real,
                                           policy: FeePolicy)
      requires var r := Sweep(before.On(t.side.Opposite()), t, t.qty);
               now == before.With(t.side.Opposite(), r.rest) && trades == TradesOf(r.fills, t, policy)
               && remaining == r.left
      ensures Pass(1, before, now, t, [] + trades, remaining, policy)
    {
      assert [] + trades == trades;
    }

    lemma {:induction false} BeforeFirst(book: OrderBook, order: Order)
      requires Takes(book, order)
      ensures Pass(0, book.Flat(), book.Flat(), order.View(), [], order.quantity, Policy()) && WellFormed(book.Flat())
    {
    }

    lemma {:induction false} NothingLeft(passes: nat, before: Book, now: Book, t: Ticket, trades: seq<Trade>,
                                         remaining: real, policy: FeePolicy)
      requires Pass(passes, before, now, t, trades, remaining, policy) && WellFormed(before)
      requires var opp := now.On(t.side.Opposite()); remaining <= 0.0 || opp == [] || !Accepts(t, opp[0].price)
      ensures Finished(before, now, t, trades, remaining, policy)
    {
      if remaining > 0.0 { NoCandidates(passes, before, now, t, trades, remaining, policy); }
    }

    /** The outer loop of the MARKET procedure. The ghost counter shows that one pass is enough. */
    method ProcessMarketOrder(book: OrderBook, order: Order) returns (trades: seq<Trade>)
      requires Takes(book, order) && order.kind.MARKET?
      modifies book, book.orderMap.Values
      ensures book.Valid()
      ensures var m := Process(old(book.Flat()), old(order.View()));
              book.Flat() == m.book && trades == TradesOf(m.fills, old(order.View()), old(Policy()))
      ensures book.orderMap.Values <= old(book.orderMap.Values)
    {
      ghost var t, policy, before, passes := order.View(), Policy(), book.Flat(), 0;
      trades := [];
      var remainingQty := order.quantity;
      BeforeFirst(book, order);
      book.NotIndexed(order);
      hide Consistent, Pass;
      var more := true;
      while more && remainingQty > 0.0
        invariant book.Valid() && order.id !in book.orderMap && order.View() == t && Policy() == policy
        invariant book.orderMap.Values <= old(book.orderMap.Values)
        invariant passes <= 1
        invariant if more then Pass(passes, before, book.Flat(), t, trades, remainingQty, policy)
                  else Finished(before, book.Flat(), t, trades, remainingQty, policy)
        decreases 1 - passes, more
      {
        more, trades, remainingQty := SweepOnce(book, order, trades, remainingQty, passes, before);
        if more { passes := 1; }
      }
      if more { NothingLeft(passes, before, book.Flat(), t, trades, remainingQty, policy); }
    }

    /** The outer loop that the LIMIT and IOC procedures share. */
    method SweepWhileMatching(book: OrderBook, order: Order) returns (trades: seq<Trade>, remainingQty: real)
      requires Takes(book, order)
      modifies book, book.orderMap.Values
      ensures book.Valid() && order.id !in book.orderMap
      ensures Finished(old(book.Flat()), book.Flat(), old(order.View()), trades, remainingQty, old(Policy()))
      ensures order.View() == old(order.View()) && book.orderMap.Values <= old(book.orderMap.Values)
    {
      ghost var t, policy, before, passes := order.View(), Policy(), book.Flat(), 0;
      trades := [];
      remainingQty := order.quantity;
      BeforeFirst(book, order);
      book.NotIndexed(order);
      hide Consistent, Pass, Finished, Accepts, OrderBook.HasMatchingOrders;
      var more := true;
      while more && remainingQty > 0.0 && book.HasMatchingOrders(order)
        invariant book.Valid() && order.id !in book.orderMap && order.View() == t && Policy() == policy
        invariant book.orderMap.Values <= old(book.orderMap.Values)
        invariant passes <= 1
        invariant if more then Pass(passes, before, book.Flat(), t, trades, remainingQty, policy)
                  else Finished(before, book.Flat(), t, trades, remainingQty, policy)
        decreases 1 - passes, more
      {
        more, trades, remainingQty := SweepOnce(book, order, trades, remainingQty, passes, before);
        if more { passes := 1; }
      }
      book.ValidIsReadable();
      book.HasMatchingOrdersMeans(order);
      if more { NothingLeft(passes, before, book.Flat(), t, trades, remainingQty, policy); }
    }

    method ProcessLimitOrder(book: OrderBook, order: Order) returns (trades: seq<Trade>)
      requires Takes(book, order) && order.kind.LIMIT?
      modifies book, book.orderMap.Values, order
      ensures book.Valid()
      ensures var m := Process(old(book.Flat()), old(order.View()));
              book.Flat() == m.book && trades == TradesOf(m.fills, old(order.View()), old(Policy()))
      ensures book.orderMap.Values <= old(book.orderMap.Values) + {order}
    {
      var remainingQty;
      trades, remainingQty := SweepWhileMatching(book, order);
      if remainingQty > 0.0 {
        book.NotIndexed(order);
        order.ModifyQuantity(remainingQty);
        book.AddOrder(order);
      }
    }

    method ProcessIOCOrder(book: OrderBook, order: Order) returns (trades: seq<Trade>)
      requires Takes(book, order) && order.kind.IOC?
      modifies book, book.orderMap.Values
      ensures book.Valid()
      ensures var m := Process(old(book.Flat()), old(order.View()));
              book.Flat() == m.book && trades == TradesOf(m.fills, old(order.View()), old(Policy()))
      ensures book.orderMap.Values <= old(book.orderMap.Values)
    {
      var remainingQty;
      trades, remainingQty := SweepWhileMatching(book, order);
    }

    method ProcessFOKOrder(book: OrderBook, order: Order) returns (trades: seq<Trade>)
      requires Takes(book, order) && order.kind.FOK?
      modifies book, book.orderMap.Values
      ensures book.Valid()
      ensures var m := Process(old(book.Flat()), old(order.View()));
              book.Flat() == m.book && trades == TradesOf(m.fills, old(order.View()), old(Policy()))
      ensures book.orderMap.Values <= old(book.orderMap.Values)
    {
      book.ValidIsReadable();
      var matching := book.GetMatchingOrders(order);
      CappedPrefix(book.Flat().On(order.side.Opposite()), order.View(), order.quantity);
      var enough := Covers(matching, order.quantity, Capped(book.Flat().On(order.side.Opposite()), order.View(),
        order.quantity));
      if !enough { return []; }
      var remainingQty;
      trades, remainingQty := FillCandidates(book, order, matching, order.quantity);
    }

    /** Sums candidate quantities until they reach `quantity`. */
    static method Covers(matching: seq<Order>, quantity: real, ghost ts: seq<Ticket>) returns (enough: bool)
      requires |matching| == |ts| && forall i | 0 <= i < |ts| :: matching[i].quantity == ts[i].qty && ts[i].qty > 0.0
      ensures enough <==> Depth(ts) >= quantity
    {
      var totalAvailableQty := 0.0;
      assert ts[..|ts|] == ts;
      for i := 0 to |matching|
        invariant totalAvailableQty == Depth(ts[..i])
      {
        totalAvailableQty := totalAvailableQty + matching[i].quantity;
        DepthAppend(ts[..i], [ts[i]]);
        assert ts[..i + 1] == ts[..i] + [ts[i]];
        if totalAvailableQty >= quantity {
          DepthAppend(ts[..i + 1], ts[i + 1..]);
          assert ts == ts[..i + 1] + ts[i + 1..];
          DepthNonNegative(ts[i + 1..]);
          break;
        }
      }
      enough := totalAvailableQty >= quantity;
    }

    /** The dispatch by order type. */
    method Dispatch(book: OrderBook, order: Order) returns (result: Option<seq<Trade>>)
      requires Takes(book, order)
      modifies book, book.orderMap.Values, order
      ensures book.Valid()
      ensures result.None? <==> IsTrigger(order.kind)
      ensures var m := Process(old(book.Flat()), old(order.View()));
              && book.Flat() == m.book
              && (result.Some? ==> result.value == TradesOf(m.fills, old(order.View()), old(Policy())))
      ensures book.orderMap.Values <= old(book.orderMap.Values) + {order}
    {
      var trades;
      match order.kind {
        case MARKET => trades := ProcessMarketOrder(book, order);
        case LIMIT => trades := ProcessLimitOrder(book, order);
        case IOC => trades := ProcessIOCOrder(book, order);
        case FOK => trades := ProcessFOKOrder(book, order);
        case _ => return None;
      }
      result := Some(trades);
    }

    /** Returns None where the source throws "Unknown order type". */
    method ProcessOrder(book: OrderBook, order: Order) returns (result: Option<seq<Trade>>)
      requires Takes(book, order)
      modifies book, book.orderMap.Values, order
      ensures book.Valid()
      ensures result.None? <==> IsTrigger(order.kind)
      ensures var m := Process(old(book.Flat()), old(order.View()));
              && book.Flat() == m.book
              && (result.Some? ==> result.value == TradesOf(m.fills, old(order.View()), old(Policy())))
      ensures result.Some? ==>
                Answers(result.value, old(book.Flat()).On(order.side.Opposite()), old(order.View()), old(Policy()))
      ensures book.orderMap.Values <= old(book.orderMap.Values) + {order}
    {
      ghost var b, t, policy := book.Flat(), order.View(), Policy();
      ghost var trades := TradesOf(Process(b, t).fills, t, policy);
      book.FlatIsWellFormed();
      assert t.side == order.side && t.id == order.id && t.qty == order.quantity && t.kind == order.kind;
      hide *;
      AnswersAre(b, t, policy, trades);
      result := Dispatch(book, order);
    }
  }
}
