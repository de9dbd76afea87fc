/** Clients that join a feed late. A subscriber is seeded with the book's current depth
    (src/network/listener.cpp:202-216), while increments are relative to the last published snapshot. */
module Joining {
  import opened Orders
  import opened Ladder
  import opened MarketData

  /** The messages sent after the first `j` publications. */
  function Later(ps: seq<Publication>, j: nat): seq<Message>
    requires j <= |ps|
  {
    var n := |After(ps[..j]).messages|;
    if n <= |After(ps).messages| then After(ps).messages[n..] else []
  }

  lemma {:induction false} LaterOneMore(ps: seq<Publication>, p: Publication, j: nat)
    requires j <= |ps|
    ensures var m, n := After(ps).messages, After(ps + [p]).messages;
            && m <= n && Later(ps + [p], j) == Later(ps, j) + n[|m|..]
  {
    assert (ps + [p])[..|ps|] == ps && (ps + [p])[..j] == ps[..j];
    MessagesGrow(ps, j);
    PublishAppends(After(ps), p);
  }

  lemma {:induction false} NothingLater(ps: seq<Publication>)
    ensures Later(ps, |ps|) == []
  {
    assert ps[..|ps|] == ps;
  }

  lemma {:induction false} ReceiveMore(c: Client, a: seq<Message>, b: seq<Message>)
    requires |b| <= 1
    ensures ReceiveAll(c, a + b) == if b == [] then ReceiveAll(c, a) else Receive(ReceiveAll(c, a), b[0])
  {
    if b == [] {
      assert a + b == a;
    } else {
      assert b == [b[0]];
      ReceiveNext(c, a, b[0]);
    }
  }

  /** One publication takes a client that holds the last snapshot to the next one. */
  lemma {:induction false} OnePublication(f: Feed, p: Publication, c: Client)
    requires Diffs(f, p) && f.last.Some? && c == Held(f.last.value)
    ensures var g := Publish(f, p);
            && f.messages <= g.messages && |g.messages| <= |f.messages| + 1 && g.last.Some?
            && Held(g.last.value) == if g.messages == f.messages then c else Receive(c, g.messages[|f.messages|])
  {
    DiffLeadsToNew(AsMap(f.last.value.bids), AsMap(p.bids), p.bidsChanges);
    DiffLeadsToNew(AsMap(f.last.value.asks), AsMap(p.asks), p.asksChanges);
  }

  /** A client that holds the snapshot of some moment and receives every later message holds every
      later snapshot, whenever it joined. */
  lemma {:induction false} JoinerHoldsSnapshot(ps: seq<Publication>, j: nat)
    requires Published(ps) && j <= |ps| && After(ps[..j]).last.Some?
    ensures After(ps).last.Some?
    ensures ReceiveAll(Held(After(ps[..j]).last.value), Later(ps, j)) == Held(After(ps).last.value)
    decreases |ps|
  {
    if j == |ps| {
      NothingLater(ps);
      assert ps[..j] == ps;
    } else {
      var qs, p := ps[..|ps| - 1], ps[|ps| - 1];
      var c := Held(After(ps[..j]).last.value);
      assert qs[..j] == ps[..j] && ps == qs + [p];
      JoinerHoldsSnapshot(qs, j);
      LaterOneMore(qs, p, j);
      OnePublication(After(qs), p, Held(After(qs).last.value));
      hide Publish, Held, Receive;
      ReceiveMore(c, Later(qs, j), After(ps).messages[|After(qs).messages|..]);
    }
  }

  // ----- Seeded with something else

  /** A later message decides what the client holds at price `p`, whatever it held before. */
  predicate TouchesBids(ms: seq<Message>, p: real) {
    exists i | 0 <= i < |ms| :: ms[i].Full? || Touches(ms[i].bidsChanges, p)
  }

  predicate TouchesAsks(ms: seq<Message>, p: real) {
    exists i | 0 <= i < |ms| :: ms[i].Full? || Touches(ms[i].asksChanges, p)
  }

  lemma {:induction false} ChangesDecide(m: DepthMap, n: DepthMap, changes: seq<LevelChange>, p: real)
    ensures if Touches(changes, p) then SameAt(ApplyAll(m, changes), ApplyAll(n, changes), p)
            else SameAt(ApplyAll(m, changes), m, p)
  {
    if changes != [] {
      var k := |changes| - 1;
      ChangesDecide(m, n, changes[..k], p);
      assert Touches(changes, p) <==> Touches(changes[..k], p) || changes[k].price == p by {
        if i :| 0 <= i < k && changes[i].price == p { assert changes[..k][i].price == p; }
        if i :| 0 <= i < |changes[..k]| && changes[..k][i].price == p { assert changes[i].price == p; }
      }
    }
  }

  lemma {:induction false} TouchesOneMore(ms: seq<Message>, m: Message, p: real)
    ensures TouchesBids(ms + [m], p) <==> TouchesBids(ms, p) || m.Full? || Touches(m.bidsChanges, p)
    ensures TouchesAsks(ms + [m], p) <==> TouchesAsks(ms, p) || m.Full? || Touches(m.asksChanges, p)
  {
    var r := ms + [m];
    assert r[|ms|] == m && forall i | 0 <= i < |ms| :: r[i] == ms[i];
    hide Touches;
    if i :| 0 <= i < |ms| && (ms[i].Full? || Touches(ms[i].bidsChanges, p)) {
      assert r[i].Full? || Touches(r[i].bidsChanges, p);
    }
    if i :| 0 <= i < |ms| && (ms[i].Full? || Touches(ms[i].asksChanges, p)) {
      assert r[i].Full? || Touches(r[i].asksChanges, p);
    }
  }

  /** Where the messages touch a price, two clients end alike; elsewhere each keeps what it had. */
  lemma {:induction false} MessagesDecide(c: Client, d: Client, ms: seq<Message>, p: real)
    ensures var x, y := ReceiveAll(c, ms), ReceiveAll(d, ms);
            && (if TouchesBids(ms, p) then SameAt(x.bids, y.bids, p) else SameAt(x.bids, c.bids, p))
            && (if TouchesAsks(ms, p) then SameAt(x.asks, y.asks, p) else SameAt(x.asks, c.asks, p))
  {
    if ms != [] {
      var before, m := ms[..|ms| - 1], ms[|ms| - 1];
      var x, y := ReceiveAll(c, before), ReceiveAll(d, before);
      assert ms == before + [m];
      MessagesDecide(c, d, before, p);
      TouchesOneMore(before, m, p);
      hide TouchesBids, TouchesAsks, Touches, ApplyAll;
      if m.Increment? {
        ChangesDecide(x.bids, y.bids, m.bidsChanges, p);
        ChangesDecide(x.asks, y.asks, m.asksChanges, p);
        ChangesDecide(y.bids, x.bids, m.bidsChanges, p);
        ChangesDecide(y.asks, x.asks, m.asksChanges, p);
      }
    }
  }

  /** The client agrees with a snapshot at every price that no message touches. */
  ghost predicate Agrees(x: Client, s: Client, ms: seq<Message>) {
    && (forall p | !TouchesBids(ms, p) :: SameAt(x.bids, s.bids, p))
    && (forall p | !TouchesAsks(ms, p) :: SameAt(x.asks, s.asks, p))
  }

  lemma {:induction false} SameEverywhere(m: DepthMap, n: DepthMap)
    requires forall p :: SameAt(m, n, p)
    ensures m == n
  {
    forall p
      ensures (p in m <==> p in n) && (p in m ==> p in n && m[p] == n[p])
    {
      assert SameAt(m, n, p);
    }
  }

  lemma {:induction false} EndsAlikeExactly(x: Client, s: Client, ms: seq<Message>)
    ensures ReceiveAll(x, ms) == ReceiveAll(s, ms) <==> Agrees(x, s, ms)
  {
    hide ReceiveAll, TouchesBids, TouchesAsks;
    var xx, ss := ReceiveAll(x, ms), ReceiveAll(s, ms);
    forall p
      ensures SameAt(xx.bids, ss.bids, p) <==> TouchesBids(ms, p) || SameAt(x.bids, s.bids, p)
      ensures SameAt(xx.asks, ss.asks, p) <==> TouchesAsks(ms, p) || SameAt(x.asks, s.asks, p)
    {
      MessagesDecide(x, s, ms, p);
      MessagesDecide(s, x, ms, p);
    }
    if Agrees(x, s, ms) {
      SameEverywhere(xx.bids, ss.bids);
      SameEverywhere(xx.asks, ss.asks);
    }
  }

  /** A client that joins after `j` publications, seeded with anything at all, holds the server's last
      snapshot in the end, if and only if its seed agreed with the snapshot of that moment at every
      price that no later message touched. */
  lemma {:induction false} JoinerExact(ps: seq<Publication>, j: nat, x: Client)
    requires Published(ps) && j <= |ps| && After(ps[..j]).last.Some?
    ensures After(ps).last.Some?
    ensures ReceiveAll(x, Later(ps, j)) == Held(After(ps).last.value) <==>
            Agrees(x, Held(After(ps[..j]).last.value), Later(ps, j))
  {
    JoinerHoldsSnapshot(ps, j);
    EndsAlikeExactly(x, Held(After(ps[..j]).last.value), Later(ps, j));
  }

  /** Before the first publication the seed does not matter: the first message is a full snapshot. */
  lemma {:induction false} JoinsBeforeTheFirst(ps: seq<Publication>, j: nat, x: Client)
    requires Published(ps) && j < |ps| && After(ps[..j]).last.None?
    ensures After(ps).last.Some? && ReceiveAll(x, Later(ps, j)) == Held(After(ps).last.value)
  {
    FeedInOrder(ps[..j]);
    ReplicaHoldsSnapshot(ps, x);
    assert After(ps).messages[0..] == After(ps).messages;
  }

  // ----- A joiner that never agrees

  const FIVE := [DepthEntry(10.0, 5.0)]
  const SEVEN := [DepthEntry(10.0, 7.0)]

  /** Published is (10.0, 5.0); the joiner reads a book that holds (10.0, 7.0); the next publisher reads
      (10.0, 5.0) again and finds nothing to send. The joiner is left with 7.0. */
  lemma {:induction false} JoinerCanDiffer()
    ensures var ps := [Publication(FIVE, [], [], []), Publication(FIVE, [], [], [])];
            var x := Client(AsMap(SEVEN), AsMap([]));
            && Published(ps) && After(ps[..1]).last.Some?
            && Later(ps, 1) == [] && ReceiveAll(x, Later(ps, 1)) != Held(After(ps).last.value)
  {
    var p := Publication(FIVE, [], [], []);
    var none: seq<Publication> := [];
    var one, two := [p], [p, p];
    assert one[..0] == none && two[..1] == one && two[..2] == two;
    assert Published(none) && After(none) == SILENT;
    assert After(one) == Publish(SILENT, p) && Published(one);
    assert Diffs(After(one), p);
    assert After(two) == Publish(After(one), p) && After(two).messages == After(one).messages;
    assert FIVE[..0] == [] && SEVEN[..0] == [];
    assert AsMap(FIVE) == map[10.0 := 5.0] && AsMap(SEVEN) == map[10.0 := 7.0];
    assert AsMap(FIVE)[10.0] != AsMap(SEVEN)[10.0];
  }
}
