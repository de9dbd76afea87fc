/** Incremental market data and the trade tape of one symbol
    (src/engine/matching_engine.cpp:204-218, 248-332, 394-411). */
module MarketData {
  import opened Orders
  import opened FlatBook
  import opened Ladder

  type DepthList = seq<DepthEntry>
  type DepthMap = map<real, real>

  datatype ChangeOp = ADD | UPDATE | REMOVE
  datatype LevelChange = LevelChange(op: ChangeOp, price: real, quantity: real)

  function AsMap(d: DepthList): DepthMap {
    if d == [] then map[] else AsMap(d[..|d| - 1])[d[|d| - 1].price := d[|d| - 1].qty]
  }

  // ----- Differences between two depths

  /** The one change that takes price `c.price` from `o` to `n`. */
  ghost predicate Correct(o: DepthMap, n: DepthMap, c: LevelChange) {
    match c.op
    case ADD => c.price !in o && c.price in n && c.quantity == n[c.price]
    case UPDATE => c.price in o && c.price in n && o[c.price] != n[c.price] && c.quantity == n[c.price]
    case REMOVE => c.price in o && c.price !in n && c.quantity == 0.0
  }

  /** Exactly the correct changes, in any order. */
  ghost predicate IsDiff(o: DepthMap, n: DepthMap, changes: seq<LevelChange>) {
    forall c :: c in changes <==> Correct(o, n, c)
  }

  ghost predicate OncePerPrice(changes: seq<LevelChange>) {
    forall i, j | 0 <= i < j < |changes| :: changes[i].price != changes[j].price
  }

  /** What a client does with one change. */
  function Apply(m: DepthMap, c: LevelChange): DepthMap {
    if c.op.REMOVE? then m - {c.price} else m[c.price := c.quantity]
  }

  function ApplyAll(m: DepthMap, changes: seq<LevelChange>): DepthMap {
    if changes == [] then m else Apply(ApplyAll(m, changes[..|changes| - 1]), changes[|changes| - 1])
  }

  ghost predicate SameAt(m: DepthMap, n: DepthMap, p: real) {
    (p in m <==> p in n) && (p in m && p in n ==> m[p] == n[p])
  }

  predicate Touches(changes: seq<LevelChange>, p: real) {
    exists i | 0 <= i < |changes| :: changes[i].price == p
  }

  lemma {:induction false} ApplyAllAt(o: DepthMap, n: DepthMap, changes: seq<LevelChange>, p: real)
    requires forall i | 0 <= i < |changes| :: Correct(o, n, changes[i])
    ensures SameAt(ApplyAll(o, changes), if Touches(changes, p) then n else o, p)
  {
    if changes != [] {
      var k := |changes| - 1;
      ApplyAllAt(o, n, changes[..k], p);
      if i :| 0 <= i < k && changes[i].price == p { assert changes[..k][i].price == p; }
      if i :| 0 <= i < |changes[..k]| && changes[..k][i].price == p { assert changes[i].price == p; }
    }
  }

  /** Applying a difference to the old depth, in any order of its entries, gives the new depth. */
  lemma {:induction false} DiffLeadsToNew(o: DepthMap, n: DepthMap, changes: seq<LevelChange>)
    requires IsDiff(o, n, changes)
    ensures ApplyAll(o, changes) == n
  {
    var r := ApplyAll(o, changes);
    assert forall i | 0 <= i < |changes| :: changes[i] in changes;
    forall p
      ensures (p in r <==> p in n) && (p in r ==> p in n && r[p] == n[p])
    {
      ApplyAllAt(o, n, changes, p);
      if !SameAt(o, n, p) {
        var c := if p !in o then LevelChange(ADD, p, n[p])
                 else if p in n then LevelChange(UPDATE, p, n[p])
                 else LevelChange(REMOVE, p, 0.0);
        assert Correct(o, n, c);
        var i :| 0 <= i < |changes| && changes[i] == c;
        assert changes[i].price == p;
      }
    }
  }

  lemma {:induction false} NothingCorrect(o: DepthMap, n: DepthMap)
    ensures o == n ==> forall c :: !Correct(o, n, c)
  {
  }

  /** There is nothing to send if and only if nothing changed. */
  lemma {:induction false} EmptyDiff(o: DepthMap, n: DepthMap, changes: seq<LevelChange>)
    requires IsDiff(o, n, changes)
    ensures changes == [] <==> o == n
  {
    DiffLeadsToNew(o, n, changes);
    assert forall i | 0 <= i < |changes| :: changes[i] in changes;
    NothingCorrect(o, n);
  }

  lemma {:induction false} SomePrice(ps: set<real>)
    ensures ps == {} || exists p :: p in ps
  {
    if forall p :: p !in ps {
      assert ps == {};
    }
  }

  /** computeChanges. The hash maps are visited in no particular order. */
  method ComputeChanges(oldV: DepthList, newV: DepthList) returns (changes: seq<LevelChange>)
    ensures IsDiff(AsMap(oldV), AsMap(newV), changes)
    ensures forall p, q :: LevelChange(ADD, p, q) in changes <==>
              p !in AsMap(oldV) && p in AsMap(newV) && q == AsMap(newV)[p]
    ensures forall p, q :: LevelChange(UPDATE, p, q) in changes <==>
              p in AsMap(oldV) && p in AsMap(newV) && AsMap(oldV)[p] != AsMap(newV)[p] && q == AsMap(newV)[p]
    ensures forall p, q :: LevelChange(REMOVE, p, q) in changes <==>
              p in AsMap(oldV) && p !in AsMap(newV) && q == 0.0
    ensures OncePerPrice(changes)
  {
    var oldMap := BuildMap(oldV);
    var newMap := BuildMap(newV);
    changes := [];
    var todo := newMap.Keys;
    while todo != {}
      invariant todo <= newMap.Keys && OncePerPrice(changes)
      invariant forall c :: c in changes <==> Correct(oldMap, newMap, c) && !c.op.REMOVE? && c.price !in todo
    {
      SomePrice(todo);
      var p :| p in todo;
      var before := changes;
      if p !in oldMap {
        changes := changes + [LevelChange(ADD, p, newMap[p])];
      } else if oldMap[p] != newMap[p] {
        changes := changes + [LevelChange(UPDATE, p, newMap[p])];
      }
      assert forall i | 0 <= i < |before| :: before[i] in before;
      todo := todo - {p};
    }
    todo := oldMap.Keys;
    while todo != {}
      invariant todo <= oldMap.Keys && OncePerPrice(changes)
      invariant forall c :: c in changes <==> Correct(oldMap, newMap, c) && (c.op.REMOVE? ==> c.price !in todo)
    {
      SomePrice(todo);
      var p :| p in todo;
      var before := changes;
      if p !in newMap {
        changes := changes + [LevelChange(REMOVE, p, 0.0)];
      }
      assert forall i | 0 <= i < |before| :: before[i] in before;
      todo := todo - {p};
    }
  }

  method BuildMap(v: DepthList) returns (m: DepthMap)
    ensures m == AsMap(v)
  {
    m := map[];
    assert v[..|v|] == v;
    for i := 0 to |v|
      invariant m == AsMap(v[..i])
    {
      assert v[..i + 1][..i] == v[..i];
      m := m[v[i].price := v[i].qty];
    }
  }

  // ----- Depth lists

  lemma {:induction false} AsMapHas(d: DepthList, p: real)
    ensures p in AsMap(d) <==> exists i | 0 <= i < |d| :: d[i].price == p
  {
    if d != [] {
      var k := |d| - 1;
      AsMapHas(d[..k], p);
      if i :| 0 <= i < k && d[i].price == p { assert d[..k][i].price == p; }
      if i :| 0 <= i < |d[..k]| && d[..k][i].price == p { assert d[i].price == p; }
    }
  }

  lemma {:induction false} AsMapEmpty(d: DepthList)
    ensures AsMap(d) == map[] <==> d == []
  {
    if d != [] {
      assert d[|d| - 1].price in AsMap(d);
    }
  }

  /** A sorted depth list is determined by the quantities it gives to prices. */
  lemma {:induction false} SortedDepthIsItsMap(s: Side, d: DepthList, e: DepthList)
    requires StrictlySorted(s, d) && StrictlySorted(s, e) && AsMap(d) == AsMap(e)
    ensures d == e
  {
    AsMapEmpty(d);
    AsMapEmpty(e);
    if d != [] && e != [] {
      var x, y := d[|d| - 1], e[|e| - 1];
      var d', e' := d[..|d| - 1], e[..|e| - 1];
      AsMapHas(d, x.price);
      AsMapHas(e, x.price);
      AsMapHas(d, y.price);
      AsMapHas(e, y.price);
      assert x.price == y.price;
      assert x.qty == y.qty;
      AsMapHas(d', x.price);
      AsMapHas(e', x.price);
      assert AsMap(d') == AsMap(d) - {x.price};
      assert AsMap(e') == AsMap(e) - {x.price};
      SortedDepthIsItsMap(s, d', e');
      assert d == d' + [x] && e == e' + [y];
    }
  }

  lemma {:induction false} TopSorted(s: Side, l: seq<Ticket>, n: nat)
    requires Sorted(s, l)
    ensures StrictlySorted(s, Top(l, n))
  {
    GroupSorted(s, l);
  }

  // ----- The feed of one symbol

  datatype Snapshot = Snapshot(seqNum: nat, bids: DepthList, asks: DepthList)

  datatype Message =
    | Full(seqNum: nat, bids: DepthList, asks: DepthList)
    | Increment(seqNum: nat, prevSeqNum: nat, gap: bool, bidsChanges: seq<LevelChange>, asksChanges: seq<LevelChange>)

  /** Publication counter, lastMarketSnapshot, and every message sent to subscribers so far. */
  datatype Feed = Feed(seqNum: nat, last: Option<Snapshot>, messages: seq<Message>)

  const SILENT := Feed(0, None, [])

  /** One publication: the depth read in an earlier critical section, and the order in which the
      changes came out of the hash maps. */
  datatype Publication = Publication(bids: DepthList, asks: DepthList, bidsChanges: seq<LevelChange>,
    asksChanges: seq<LevelChange>)

  ghost predicate Diffs(f: Feed, p: Publication) {
    f.last.Some? ==>
      IsDiff(AsMap(f.last.value.bids), AsMap(p.bids), p.bidsChanges)
        && IsDiff(AsMap(f.last.value.asks), AsMap(p.asks), p.asksChanges)
  }

  function Publish(f: Feed, p: Publication): Feed {
    var n := f.seqNum + 1;
    match f.last
    case None => Feed(n, Some(Snapshot(n, p.bids, p.asks)), f.messages + [Full(n, p.bids, p.asks)])
    case Some(prev) =>
      if p.bidsChanges == [] && p.asksChanges == [] then f.(seqNum := n)
      else Feed(n, Some(Snapshot(n, p.bids, p.asks)),
                f.messages + [Increment(n, prev.seqNum, prev.seqNum + 1 != n, p.bidsChanges, p.asksChanges)])
  }

  function After(ps: seq<Publication>): Feed {
    if ps == [] then SILENT else Publish(After(ps[..|ps| - 1]), ps[|ps| - 1])
  }

  /** Any sequence of publications, by any number of threads, each with the right differences. */
  ghost predicate Published(ps: seq<Publication>) {
    ps != [] ==> Published(ps[..|ps| - 1]) && Diffs(After(ps[..|ps| - 1]), ps[|ps| - 1])
  }

  // ----- A client

  datatype Client = Client(bids: DepthMap, asks: DepthMap)

  function Receive(c: Client, m: Message): Client {
    match m
    case Full(_, bids, asks) => Client(AsMap(bids), AsMap(asks))
    case Increment(_, _, _, bc, ac) => Client(ApplyAll(c.bids, bc), ApplyAll(c.asks, ac))
  }

  function ReceiveAll(c: Client, ms: seq<Message>): Client {
    if ms == [] then c else Receive(ReceiveAll(c, ms[..|ms| - 1]), ms[|ms| - 1])
  }

  function Held(s: Snapshot): Client {
    Client(AsMap(s.bids), AsMap(s.asks))
  }

  lemma {:induction false} ReceiveNext(c: Client, ms: seq<Message>, m: Message)
    ensures ReceiveAll(c, ms + [m]) == Receive(ReceiveAll(c, ms), m)
  {
    assert (ms + [m])[..|ms|] == ms;
  }

  /** One publication takes a client that holds the last snapshot to the next one. */
  lemma {:induction false} PublishKeepsReplica(f: Feed, p: Publication, c: Client)
    requires Diffs(f, p) && (f.last.Some? ==> ReceiveAll(c, f.messages) == Held(f.last.value))
    ensures var g := Publish(f, p); g.last.Some? && ReceiveAll(c, g.messages) == Held(g.last.value)
  {
    var g := Publish(f, p);
    if g.messages != f.messages {
      var m := g.messages[|f.messages|];
      assert g.messages == f.messages + [m];
      ReceiveNext(c, f.messages, m);
      if f.last.Some? {
        DiffLeadsToNew(AsMap(f.last.value.bids), AsMap(p.bids), p.bidsChanges);
        DiffLeadsToNew(AsMap(f.last.value.asks), AsMap(p.asks), p.asksChanges);
      }
    }
  }

  /** A client that received every message holds the server's last snapshot, whatever depths the
      publishers had read, and whether or not increments announced a gap. */
  lemma {:induction false} ReplicaHoldsSnapshot(ps: seq<Publication>, c: Client)
    requires Published(ps) && ps != []
    ensures var f := After(ps); f.last.Some? && ReceiveAll(c, f.messages) == Held(f.last.value)
  {
    var f := After(ps[..|ps| - 1]);
    if |ps| > 1 {
      ReplicaHoldsSnapshot(ps[..|ps| - 1], c);
    }
    PublishKeepsReplica(f, ps[|ps| - 1], c);
  }

  /** Right after a publication of the depths of a book, every such client holds exactly these depths,
      even if the publication was suppressed as unchanged. */
  lemma {:induction false} ReplicaIsCurrent(ps: seq<Publication>, c: Client, b: Book, n: nat)
    requires Published(ps) && ps != []
    requires ps[|ps| - 1].bids == Top(b.bids, n) && ps[|ps| - 1].asks == Top(b.asks, n)
    ensures ReceiveAll(c, After(ps).messages) == Client(AsMap(Top(b.bids, n)), AsMap(Top(b.asks, n)))
  {
    var f, p := After(ps[..|ps| - 1]), ps[|ps| - 1];
    ReplicaHoldsSnapshot(ps, c);
    if f.last.Some? {
      EmptyDiff(AsMap(f.last.value.bids), AsMap(p.bids), p.bidsChanges);
      EmptyDiff(AsMap(f.last.value.asks), AsMap(p.asks), p.asksChanges);
    }
  }

  /** The quantities at prices determine the depth lists themselves. */
  lemma {:induction false} ReplicaDeterminesDepth(ps: seq<Publication>, c: Client, b: Book, n: nat, bids: DepthList,
                                                  asks: DepthList)
    requires Published(ps) && ps != [] && WellFormed(b)
    requires ps[|ps| - 1].bids == Top(b.bids, n) && ps[|ps| - 1].asks == Top(b.asks, n)
    requires StrictlySorted(BUY, bids) && StrictlySorted(SELL, asks)
    requires ReceiveAll(c, After(ps).messages) == Client(AsMap(bids), AsMap(asks))
    ensures bids == Top(b.bids, n) && asks == Top(b.asks, n)
  {
    ReplicaIsCurrent(ps, c, b, n);
    TopSorted(BUY, b.bids, n);
    TopSorted(SELL, b.asks, n);
    SortedDepthIsItsMap(BUY, bids, Top(b.bids, n));
    SortedDepthIsItsMap(SELL, asks, Top(b.asks, n));
  }

  // ----- Sequence numbers

  /** Messages are numbered in strictly increasing order, start with a snapshot, and each increment
      points at the message before it. */
  /** An increment that names the message before it, and announces a gap if numbers are missing. */
  ghost predicate Follows(before: Message, m: Message) {
    && m.Increment?
    && m.prevSeqNum == before.seqNum < m.seqNum
    && (m.gap <==> m.prevSeqNum + 1 != m.seqNum)
  }

  ghost predicate InOrder(ms: seq<Message>) {
    && (ms != [] ==> ms[0].Full?)
    && forall i | 0 < i < |ms| :: Follows(ms[i - 1], ms[i])
  }

  ghost predicate FeedOk(f: Feed) {
    && InOrder(f.messages)
    && (f.messages == [] <==> f.last.None?)
    && (f.last.Some? ==> f.last.value.seqNum == f.messages[|f.messages| - 1].seqNum <= f.seqNum)
  }

  lemma {:induction false} PublishAppends(f: Feed, p: Publication)
    ensures var g := Publish(f, p);
            && g.seqNum == f.seqNum + 1
            && (g.messages == f.messages || exists m: Message :: g.messages == f.messages + [m] && m.seqNum == g.seqNum)
  {
    var g := Publish(f, p);
    if g.messages != f.messages {
      var m := g.messages[|g.messages| - 1];
      assert g.messages == f.messages + [m];
    }
  }

  lemma {:induction false} PublishKeepsOrder(f: Feed, p: Publication)
    requires FeedOk(f)
    ensures FeedOk(Publish(f, p))
  {
    var g := Publish(f, p);
    if g.messages != f.messages {
      var n := |f.messages|;
      var m := g.messages[n];
      assert g.messages == f.messages + [m];
      InOrderNext(f.messages, m);
      hide InOrder;
    }
  }

  lemma {:induction false} InOrderNext(ms: seq<Message>, m: Message)
    requires InOrder(ms)
    requires if ms == [] then m.Full? else Follows(ms[|ms| - 1], m)
    ensures InOrder(ms + [m])
  {
    hide Follows;
    var r := ms + [m];
    assert forall i | 0 <= i < |ms| :: r[i] == ms[i];
  }

  lemma {:induction false} FeedInOrder(ps: seq<Publication>)
    ensures FeedOk(After(ps)) && After(ps).seqNum == |ps|
  {
    if ps != [] {
      FeedInOrder(ps[..|ps| - 1]);
      hide InOrder;
      PublishKeepsOrder(After(ps[..|ps| - 1]), ps[|ps| - 1]);
      PublishAppends(After(ps[..|ps| - 1]), ps[|ps| - 1]);
    }
  }

  lemma {:induction false} MessagesGrow(ps: seq<Publication>, k: nat)
    requires k <= |ps|
    ensures After(ps[..k]).messages <= After(ps).messages
    decreases |ps|
  {
    if k < |ps| {
      var qs := ps[..|ps| - 1];
      assert qs[..k] == ps[..k];
      MessagesGrow(qs, k);
    } else {
      assert ps[..k] == ps;
    }
  }

  /** Publication number `k` sent nothing: it found the depth unchanged. */
  ghost predicate Suppressed(ps: seq<Publication>, k: nat) {
    0 < k <= |ps| && After(ps[..k]).messages == After(ps[..k - 1]).messages
  }

  /** Publication number `n` sent message `i`. */
  ghost predicate Emits(ps: seq<Publication>, n: nat, i: nat) {
    0 < n <= |ps| && |After(ps[..n]).messages| == i + 1 && |After(ps[..n - 1]).messages| == i
  }

  lemma {:induction false} EmitsStill(ps: seq<Publication>, n: nat, i: nat)
    requires ps != [] && Emits(ps[..|ps| - 1], n, i)
    ensures Emits(ps, n, i)
  {
    var qs := ps[..|ps| - 1];
    assert qs[..n] == ps[..n] && qs[..n - 1] == ps[..n - 1];
  }

  lemma {:induction false} EmitsLast(ps: seq<Publication>, i: nat)
    requires ps != [] && |After(ps[..|ps| - 1]).messages| == i && |After(ps).messages| == i + 1
    ensures Emits(ps, |ps|, i)
  {
    assert ps[..|ps|] == ps;
  }

  /** Message `i` was emitted by the publication whose number it carries. */
  lemma {:induction false} EmittedBy(ps: seq<Publication>, i: nat)
    requires i < |After(ps).messages|
    ensures Emits(ps, After(ps).messages[i].seqNum, i)
  {
    if ps == [] { return; }
    hide After, Emits;
    LastPublication(ps);
    var was := After(ps[..|ps| - 1]).messages;
    if i < |was| {
      EmittedBy(ps[..|ps| - 1], i);
      EmitsStill(ps, was[i].seqNum, i);
    } else {
      EmitsLast(ps, i);
    }
  }

  lemma {:induction false} LastPublication(ps: seq<Publication>)
    requires ps != []
    ensures var was, now := After(ps[..|ps| - 1]).messages, After(ps).messages;
            was <= now && |now| <= |was| + 1 && (|now| > |was| ==> now[|was|].seqNum == |ps|)
  {
    FeedInOrder(ps[..|ps| - 1]);
    PublishAppends(After(ps[..|ps| - 1]), ps[|ps| - 1]);
  }

  lemma {:induction false} NothingInBetween(ps: seq<Publication>, a: nat, b: nat, k: nat)
    requires a < k < b <= |ps| && |After(ps[..a]).messages| == |After(ps[..b - 1]).messages|
    ensures Suppressed(ps, k)
  {
    hide After;
    var hi, mid, lo := ps[..b - 1], ps[..k], ps[..k - 1];
    assert hi[..k] == mid && mid[..k - 1] == lo && lo[..a] == ps[..a];
    MessagesGrow(hi, k);
    MessagesGrow(mid, k - 1);
    MessagesGrow(lo, a);
  }

  /** An increment announces a gap exactly when a publication was suppressed since the message before
      it, and every publication in between was. */
  lemma {:induction false} GapMeansSuppressed(ps: seq<Publication>, i: nat)
    requires 0 < i < |After(ps).messages|
    ensures var m := After(ps).messages[i];
            && m.Increment? && m.seqNum <= |ps|
            && (forall k | m.prevSeqNum < k < m.seqNum :: Suppressed(ps, k))
            && (m.gap <==> exists k :: m.prevSeqNum < k < m.seqNum && Suppressed(ps, k))
  {
    PointsBack(ps, i);
    var ms := After(ps).messages;
    var a, b := ms[i - 1].seqNum, ms[i].seqNum;
    hide After, Suppressed;
    forall k | a < k < b
      ensures Suppressed(ps, k)
    {
      NothingInBetween(ps, a, b, k);
    }
    if ms[i].gap {
      assert Suppressed(ps, a + 1);
    }
  }

  /** An increment names its predecessor, and no publication between the two sent anything. */
  lemma {:induction false} PointsBack(ps: seq<Publication>, i: nat)
    requires 0 < i < |After(ps).messages|
    ensures var ms := After(ps).messages;
            && ms[i].Increment? && ms[i].prevSeqNum == ms[i - 1].seqNum < ms[i].seqNum <= |ps|
            && (ms[i].gap <==> ms[i - 1].seqNum + 1 != ms[i].seqNum)
            && |After(ps[..ms[i - 1].seqNum]).messages| == i == |After(ps[..ms[i].seqNum - 1]).messages|
  {
    FeedInOrder(ps);
    EmittedBy(ps, i);
    EmittedBy(ps, i - 1);
  }

  // ----- The trade tape

  datatype Stamped = Stamped(trade: Trade, seqNum: nat)

  const HISTORY_LIMIT := 1000

  datatype Tape = Tape(seqNum: nat, history: seq<Stamped>)

  function Stamp(t: Tape, trade: Trade): Tape {
    var h := t.history + [Stamped(trade, t.seqNum + 1)];
    Tape(t.seqNum + 1, if |h| > HISTORY_LIMIT then h[1..] else h)
  }

  function Recorded(trades: seq<Trade>): Tape {
    if trades == [] then Tape(0, []) else Stamp(Recorded(trades[..|trades| - 1]), trades[|trades| - 1])
  }

  /** The last `count` elements, or all. */
  function Last<T>(l: seq<T>, count: nat): seq<T> {
    if |l| <= count then l else l[|l| - count..]
  }

  function Numbered(trades: seq<Trade>): (r: seq<Stamped>)
    ensures |r| == |trades|
    ensures forall i | 0 <= i < |trades| :: r[i] == Stamped(trades[i], i + 1)
  {
    if trades == [] then [] else Numbered(trades[..|trades| - 1]) + [Stamped(trades[|trades| - 1], |trades|)]
  }

  /** The history is the last thousand stamped trades, numbered without a hole. */
  lemma {:induction false} HistoryIsLastThousand(trades: seq<Trade>)
    ensures Recorded(trades) == Tape(|trades|, Last(Numbered(trades), HISTORY_LIMIT))
  {
    if trades != [] {
      HistoryIsLastThousand(trades[..|trades| - 1]);
    }
  }

  /** getRecentTrades on one symbol's history. */
  method RecentTrades(history: seq<Stamped>, count: nat) returns (out: seq<Stamped>)
    ensures out == Last(history, count)
  {
    out := [];
    var num := if count < |history| then count else |history|;
    var i := |history| - num;
    while i < |history|
      invariant |history| - num <= i <= |history|
      invariant out == history[|history| - num..i]
    {
      out := out + [history[i]];
      i := i + 1;
    }
  }

  /** What getRecentTrades returns after any run: the most recent trades, newest last. */
  lemma {:induction false} RecentTradesAreTheLatest(trades: seq<Trade>, count: nat)
    ensures Last(Recorded(trades).history, count) ==
            Last(Numbered(trades), if count < HISTORY_LIMIT then count else HISTORY_LIMIT)
  {
    HistoryIsLastThousand(trades);
  }

  lemma {:induction false} NothingRecent(count: nat)
    ensures Last<Stamped>([], count) == []
  {
  }

  /** In numbers: the last ones of all, as many as asked for, but no more than a thousand. */
  lemma {:induction false} LatestAre(all: seq<Trade>, count: nat)
    ensures var out := Last(Numbered(all), if count < HISTORY_LIMIT then count else HISTORY_LIMIT);
            && |out| == (if |all| <= count && |all| <= 1000 then |all| else if count <= 1000 then count else 1000)
            && forall i | 0 <= i < |out| :: out[i] == Stamped(all[|all| - |out| + i], |all| - |out| + i + 1)
  {
  }

  /** After a submit that stamped some trades, reading the tape ends with these trades, numbered on. */
  lemma {:induction false} NewestComeLast(before: seq<Trade>, trades: seq<Trade>, count: nat, j: nat)
    requires j < |trades| && j < count && j < 1000
    ensures var out := Last(Numbered(before + trades), if count < HISTORY_LIMIT then count else HISTORY_LIMIT);
            j < |out| && out[|out| - 1 - j] == Stamped(trades[|trades| - 1 - j], |before| + |trades| - j)
  {
  }
}
