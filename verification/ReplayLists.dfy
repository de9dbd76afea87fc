/** What a log without crossing orders does to one side of one book, as a list: exactly what it holds
    after a first and after a second pass over the log. */
module ReplayLists {
  import opened Orders
  import opened FlatBook
  import opened EngineCore
  import opened Recovery

  // ----- The logs in question

  predicate CrossFree(t: Ticket, u: Ticket) {
    t.symbol == u.symbol && t.side.BUY? && u.side.SELL? ==> t.price < u.price
  }

  /** LIMIT submits, modifies and cancels with positive quantities and distinct ids, in which no buy
      and sell of a symbol cross. */
  predicate Gentle(log: seq<Entry>) {
    && (forall i | 0 <= i < |log| :: GentleEntry(log[i]))
    && DistinctSubmits(log)
    && (forall i, j | 0 <= i < |log| && 0 <= j < |log| && log[i].Submitted? && log[j].Submitted? ::
          CrossFree(log[i].order, log[j].order))
  }

  predicate GentleEntry(e: Entry) {
    match e
    case Submitted(t) => t.kind.LIMIT? && t.qty > 0.0
    case Cancelled(_) => true
    case Modified(_, q) => q > 0.0
    case _ => false
  }

  // ----- One side of one book, followed through a log

  predicate Mine(e: Entry, s: Symbol, d: Side) {
    e.Submitted? && e.order.symbol == s && e.order.side == d
  }

  function TrackEntry(l: seq<Ticket>, e: Entry, s: Symbol, d: Side): seq<Ticket> {
    match e
    case Submitted(t) => if Mine(e, s, d) && !HasId(l, t.id) then Insert(l, t) else l
    case Cancelled(id) => Without(l, id)
    case Modified(id, q) => SetQty(l, id, q)
    case _ => l
  }

  function Track(l: seq<Ticket>, log: seq<Entry>, s: Symbol, d: Side): seq<Ticket> {
    if log == [] then l else TrackEntry(Track(l, log[..|log| - 1], s, d), log[|log| - 1], s, d)
  }

  /** The list that an engine holds for one side of one symbol. */
  function SideOf(books: Books, s: Symbol, d: Side): seq<Ticket> {
    if s in books then books[s].On(d) else []
  }

  // ----- The history of an id in the log

  /** The position of the submit of an id, or the length of the log. */
  ghost function Pos(log: seq<Entry>, id: OrderId): (j: nat)
    ensures j <= |log|
    ensures j < |log| ==> SubmitsId(log[j], id)
    ensures j == |log| ==> !NamedBy(log, id)
  {
    if NamedBy(log, id) then (var j :| 0 <= j < |log| && SubmitsId(log[j], id); j) else |log|
  }

  /** The id is cancelled at a position from `i` to before `n`. */
  predicate Gone(log: seq<Entry>, i: nat, n: nat, id: OrderId) {
    exists j | i <= j < n && j < |log| :: log[j] == Cancelled(id)
  }

  /** The quantity after the modifies at positions from `i` to before `n`. */
  function Qty(log: seq<Entry>, i: nat, n: nat, id: OrderId, q: real): real {
    if n <= i || n > |log| then q
    else if log[n - 1].Modified? && log[n - 1].id == id then log[n - 1].quantity
    else Qty(log, i, n - 1, id, q)
  }

  /** The order submitted at position `i` is not cancelled after it. */
  predicate Survives(log: seq<Entry>, i: nat)
    requires i < |log| && log[i].Submitted?
  {
    !Gone(log, i, |log|, log[i].order.id)
  }

  /** How far the log has been followed, and whether for the first or the second time. */
  datatype Stage = First(n: nat) | Second(n: nat)

  /** On a second pass an id that the log cancels somewhere is filed anew by its submit. */
  ghost predicate Refiled(log: seq<Entry>, st: Stage, id: OrderId) {
    st.Second? && Pos(log, id) < st.n && Gone(log, 0, |log|, id)
  }

  ghost predicate Has(log: seq<Entry>, st: Stage, s: Symbol, d: Side, id: OrderId) {
    var i := Pos(log, id);
    && i < |log| && Mine(log[i], s, d)
    && if st.First? then i < st.n && !Gone(log, i, st.n, id)
       else if Refiled(log, st, id) then !Gone(log, i, st.n, id)
       else Survives(log, i) && !Gone(log, 0, st.n, id)
  }

  ghost function Now(log: seq<Entry>, st: Stage, id: OrderId): Ticket {
    var i := Pos(log, id);
    var t := if i < |log| then log[i].order else Ticket(id, 0, BUY, LIMIT, 0.0, 0.0);
    if st.First? || Refiled(log, st, id) then t.(qty := Qty(log, i, st.n, id, t.qty))
    else t.(qty := Qty(log, 0, st.n, id, Qty(log, i, |log|, id, t.qty)))
  }

  /** Among orders at one price: those filed anew stand behind the others. */
  ghost function Rank(log: seq<Entry>, st: Stage, id: OrderId): nat {
    Pos(log, id) + if Refiled(log, st, id) then |log| else 0
  }

  ghost predicate Ahead(log: seq<Entry>, st: Stage, t: Ticket, u: Ticket, d: Side) {
    Better(d, t.price, u.price) || (t.price == u.price && Rank(log, st, t.id) < Rank(log, st, u.id))
  }

  /** The list holds exactly the orders it should, as they should be, in the order it should. */
  ghost predicate Pictures(log: seq<Entry>, st: Stage, s: Symbol, d: Side, l: seq<Ticket>) {
    && st.n <= |log|
    && (forall k | 0 <= k < |l| :: Has(log, st, s, d, l[k].id) && l[k] == Now(log, st, l[k].id))
    && (forall id | Has(log, st, s, d, id) :: HasId(l, id))
    && (forall k, m | 0 <= k < m < |l| :: Ahead(log, st, l[k], l[m], d))
  }

  // ----- What one entry does to the members of a list

  lemma {:induction false} InsertMembers(l: seq<Ticket>, t: Ticket)
    ensures forall k | 0 <= k < |Insert(l, t)| :: Insert(l, t)[k] == t || Insert(l, t)[k] in l
    ensures forall id :: HasId(Insert(l, t), id) <==> HasId(l, id) || id == t.id
  {
    var r := Insert(l, t);
    if l == [] || !AtLeastAsGood(t.side, l[0].price, t.price) {
      forall id
        ensures HasId(r, id) <==> HasId(l, id) || id == t.id
      {
        assert r[0] == t;
        if i :| 0 <= i < |l| && l[i].id == id { assert r[i + 1].id == id; }
        if i :| 0 < i < |r| && r[i].id == id { assert l[i - 1].id == id; }
      }
    } else {
      InsertMembers(l[1..], t);
      var tail := Insert(l[1..], t);
      assert r == [l[0]] + tail;
      forall id
        ensures HasId(r, id) <==> HasId(l, id) || id == t.id
      {
        HeadOrTail(l, id);
        HeadOrTail(r, id);
        assert r[1..] == tail;
      }
    }
  }

  lemma {:induction false} HeadOrTail(l: seq<Ticket>, id: OrderId)
    requires l != []
    ensures HasId(l, id) <==> l[0].id == id || HasId(l[1..], id)
  {
    if i :| 0 < i < |l| && l[i].id == id { assert l[1..][i - 1].id == id; }
    if i :| 0 <= i < |l[1..]| && l[1..][i].id == id { assert l[i + 1].id == id; }
  }

  lemma {:induction false} WithoutMembers(l: seq<Ticket>, id: OrderId)
    ensures forall k | 0 <= k < |Without(l, id)| :: Without(l, id)[k] in l && Without(l, id)[k].id != id
    ensures forall x :: HasId(Without(l, id), x) <==> HasId(l, x) && x != id
  {
    if l != [] {
      WithoutMembers(l[1..], id);
      var r := Without(l, id);
      forall x
        ensures HasId(r, x) <==> HasId(l, x) && x != id
      {
        HeadOrTail(l, x);
        if l[0].id != id {
          HeadOrTail(r, x);
          assert r[1..] == Without(l[1..], id);
        }
      }
    }
  }

  lemma {:induction false} SetQtyIds(l: seq<Ticket>, id: OrderId, q: real)
    ensures forall x :: HasId(SetQty(l, id, q), x) <==> HasId(l, x)
  {
    SetQtyAll(l, id, q);
    forall x
      ensures HasId(SetQty(l, id, q), x) <==> HasId(l, x)
    {
      if i :| 0 <= i < |l| && l[i].id == x { assert SetQty(l, id, q)[i].id == x; }
    }
  }

  // ----- What a picture tells

  lemma {:induction false} PictureFacts(log: seq<Entry>, st: Stage, s: Symbol, d: Side, l: seq<Ticket>)
    requires Pictures(log, st, s, d, l)
    ensures Unique(l) && Sorted(d, l)
    ensures forall id :: HasId(l, id) <==> Has(log, st, s, d, id)
  {
    hide Has, Now, Rank;
    forall k, m | 0 <= k < m < |l|
      ensures l[k].id != l[m].id && AtLeastAsGood(d, l[k].price, l[m].price)
    {
      assert Ahead(log, st, l[k], l[m], d);
      assert l[k] == Now(log, st, l[k].id) && l[m] == Now(log, st, l[m].id);
    }
  }

  /** Both stages show the id alike. */
  ghost predicate Same(log: seq<Entry>, st: Stage, st': Stage, id: OrderId) {
    Now(log, st', id) == Now(log, st, id) && Rank(log, st', id) == Rank(log, st, id)
  }

  lemma {:induction false} PictureStays(log: seq<Entry>, st: Stage, st': Stage, s: Symbol, d: Side, l: seq<Ticket>)
    requires Pictures(log, st, s, d, l) && st'.n <= |log|
    requires forall id :: Has(log, st', s, d, id) <==> Has(log, st, s, d, id)
    requires forall id | Has(log, st, s, d, id) :: Same(log, st, st', id)
    ensures Pictures(log, st', s, d, l)
  {
    hide Has, Now, Rank;
    forall k, m | 0 <= k < m < |l|
      ensures Ahead(log, st', l[k], l[m], d)
    {
      assert Ahead(log, st, l[k], l[m], d) && Same(log, st, st', l[k].id) && Same(log, st, st', l[m].id);
    }
  }

  /** `r` is `l` with `t` spliced in at `k`. */
  ghost predicate Spliced(l: seq<Ticket>, r: seq<Ticket>, t: Ticket, k: nat) {
    && k <= |l| && |r| == |l| + 1
    && (forall i | 0 <= i < k :: r[i] == l[i])
    && r[k] == t
    && (forall i | k < i < |r| :: r[i] == l[i - 1])
  }

  lemma {:induction false} PictureInsert(log: seq<Entry>, st: Stage, st': Stage, s: Symbol, d: Side, l: seq<Ticket>,
                                         t: Ticket)
    requires Pictures(log, st, s, d, l) && st'.n <= |log| && t.side == d
    requires forall id :: Has(log, st', s, d, id) <==> Has(log, st, s, d, id) || id == t.id
    requires !Has(log, st, s, d, t.id) && Now(log, st', t.id) == t
    requires forall id | Has(log, st, s, d, id) :: Same(log, st, st', id) && Rank(log, st, id) < Rank(log, st', t.id)
    ensures Pictures(log, st', s, d, Insert(l, t))
  {
    PictureFacts(log, st, s, d, l);
    var k := InsertSplices(l, t);
    hide Has, Now, Rank, Pictures, Same, Spliced, Insert, HasId;
    PictureSpliced(log, st, st', s, d, l, Insert(l, t), t, k);
  }

  lemma {:induction false} InsertSplices(l: seq<Ticket>, t: Ticket) returns (k: nat)
    requires Sorted(t.side, l)
    ensures Spliced(l, Insert(l, t), t, k)
    ensures forall id :: HasId(Insert(l, t), id) <==> HasId(l, id) || id == t.id
    ensures forall m | 0 <= m < k :: AtLeastAsGood(t.side, l[m].price, t.price)
    ensures forall m | k <= m < |l| :: Better(t.side, t.price, l[m].price)
  {
    InsertMembers(l, t);
    hide HasId;
    k := InsertSplits(l, t);
    hide Insert;
  }

  lemma {:induction false} PictureSpliced(log: seq<Entry>, st: Stage, st': Stage, s: Symbol, d: Side, l: seq<Ticket>,
                                          r: seq<Ticket>, t: Ticket, k: nat)
    requires Pictures(log, st, s, d, l) && st'.n <= |log| && Spliced(l, r, t, k)
    requires forall id :: HasId(r, id) <==> HasId(l, id) || id == t.id
    requires forall id :: Has(log, st', s, d, id) <==> Has(log, st, s, d, id) || id == t.id
    requires Now(log, st', t.id) == t
    requires forall id | Has(log, st, s, d, id) :: Same(log, st, st', id) && Rank(log, st, id) < Rank(log, st', t.id)
    requires forall m | 0 <= m < k :: AtLeastAsGood(d, l[m].price, t.price)
    requires forall m | k <= m < |l| :: Better(d, t.price, l[m].price)
    ensures Pictures(log, st', s, d, r)
  {
    hide Has, Now, Rank, HasId;
    forall i | 0 <= i < |r|
      ensures Has(log, st', s, d, r[i].id) && r[i] == Now(log, st', r[i].id)
    {
      if i != k {
        var x := l[if i < k then i else i - 1];
        assert r[i] == x;
        assert Has(log, st, s, d, x.id) && Same(log, st, st', x.id);
      } else {
        assert r[i] == t;
      }
    }
    forall i, j | 0 <= i < j < |r|
      ensures Ahead(log, st', r[i], r[j], d)
    {
      assert r[i] == if i < k then l[i] else if i == k then t else l[i - 1];
      assert r[j] == if j < k then l[j] else if j == k then t else l[j - 1];
      AheadAfterInsert(log, st, st', s, d, l, t, k, i, j);
    }
  }

  lemma {:induction false} AheadAfterInsert(log: seq<Entry>, st: Stage, st': Stage, s: Symbol, d: Side,
                                            l: seq<Ticket>, t: Ticket, k: nat, i: nat, j: nat)
    requires Pictures(log, st, s, d, l) && st'.n <= |log| && k <= |l| && i < j <= |l|
    requires forall id | Has(log, st, s, d, id) :: Same(log, st, st', id) && Rank(log, st, id) < Rank(log, st', t.id)
    requires forall m | 0 <= m < k :: AtLeastAsGood(d, l[m].price, t.price)
    requires forall m | k <= m < |l| :: Better(d, t.price, l[m].price)
    ensures Ahead(log, st', if i < k then l[i] else if i == k then t else l[i - 1], if j < k then l[j]
            else if j == k then t else l[j - 1], d)
  {
    hide Has, Now, Rank;
    if i != k {
      var x := l[if i < k then i else i - 1];
      assert Has(log, st, s, d, x.id) && Same(log, st, st', x.id);
      if j != k {
        var y := l[if j < k then j else j - 1];
        assert Has(log, st, s, d, y.id) && Same(log, st, st', y.id);
        assert Ahead(log, st, x, y, d);
      }
    }
  }

  lemma {:induction false} PictureWithout(log: seq<Entry>, st: Stage, st': Stage, s: Symbol, d: Side, l: seq<Ticket>,
                                          id: OrderId)
    requires Pictures(log, st, s, d, l) && st'.n <= |log|
    requires forall x :: Has(log, st', s, d, x) <==> Has(log, st, s, d, x) && x != id
    requires forall x | Has(log, st', s, d, x) :: Same(log, st, st', x)
    ensures Pictures(log, st', s, d, Without(l, id))
  {
    PictureFacts(log, st, s, d, l);
    hide Has, Now, Rank, Same;
    WithoutMembers(l, id);
    if HasId(l, id) {
      var k :| 0 <= k < |l| && l[k].id == id;
      WithoutAt(l, k);
      hide Without, HasId, Pictures;
      PictureCut(log, st, st', s, d, l, Without(l, id), k);
    } else {
      WithoutAbsent(l, id);
      hide Without, HasId, Pictures;
      PictureStays(log, st, st', s, d, l);
    }
  }

  lemma {:induction false} PictureCut(log: seq<Entry>, st: Stage, st': Stage, s: Symbol, d: Side, l: seq<Ticket>,
                                      r: seq<Ticket>, k: nat)
    requires Pictures(log, st, s, d, l) && st'.n <= |log| && k < |l| && r == l[..k] + l[k + 1..]
    requires forall x :: HasId(r, x) <==> HasId(l, x) && x != l[k].id
    requires forall x :: Has(log, st', s, d, x) <==> Has(log, st, s, d, x) && x != l[k].id
    requires forall x | Has(log, st', s, d, x) :: Same(log, st, st', x)
    ensures Pictures(log, st', s, d, r)
  {
    hide Has, Now, Rank;
    forall i | 0 <= i < |r|
      ensures Has(log, st', s, d, r[i].id) && r[i] == Now(log, st', r[i].id)
    {
      assert HasId(r, r[i].id);
      assert r[i] == l[if i < k then i else i + 1];
    }
    hide HasId;
    forall i, j | 0 <= i < j < |r|
      ensures Ahead(log, st', r[i], r[j], d)
    {
      assert Has(log, st', s, d, r[i].id) && Has(log, st', s, d, r[j].id);
      assert Ahead(log, st, l[if i < k then i else i + 1], l[if j < k then j else j + 1], d);
    }
  }

  lemma {:induction false} PictureSetQty(log: seq<Entry>, st: Stage, st': Stage, s: Symbol, d: Side, l: seq<Ticket>,
                                         id: OrderId, q: real)
    requires Pictures(log, st, s, d, l) && st'.n <= |log|
    requires forall x :: Has(log, st', s, d, x) <==> Has(log, st, s, d, x)
    requires forall x | Has(log, st, s, d, x) :: Rank(log, st', x) == Rank(log, st, x)
    requires forall x | Has(log, st, s, d, x) :: Now(log, st', x) == if x == id then Now(log, st, x).(qty := q)
             else Now(log, st, x)
    ensures Pictures(log, st', s, d, SetQty(l, id, q))
  {
    hide Has, Now, Rank, Pictures, Ahead;
    SetQtyAll(l, id, q);
    SetQtyIds(l, id, q);
    PictureFacts(log, st, s, d, l);
    hide SetQty;
    PictureResized(log, st, st', s, d, l, SetQty(l, id, q), id, q);
  }

  lemma {:induction false} PictureResized(log: seq<Entry>, st: Stage, st': Stage, s: Symbol, d: Side, l: seq<Ticket>,
                                          r: seq<Ticket>, id: OrderId, q: real)
    requires Pictures(log, st, s, d, l) && st'.n <= |log| && |r| == |l|
    requires forall k | 0 <= k < |l| :: r[k] == if l[k].id == id then l[k].(qty := q) else l[k]
    requires forall x :: HasId(r, x) <==> HasId(l, x)
    requires forall x :: Has(log, st', s, d, x) <==> Has(log, st, s, d, x)
    requires forall x | Has(log, st, s, d, x) :: Rank(log, st', x) == Rank(log, st, x)
    requires forall x | Has(log, st, s, d, x) :: Now(log, st', x) == if x == id then Now(log, st, x).(qty := q)
             else Now(log, st, x)
    ensures Pictures(log, st', s, d, r)
  {
    hide Has, Now, Rank, HasId;
    forall i, j | 0 <= i < j < |r|
      ensures Ahead(log, st', r[i], r[j], d)
    {
      assert Ahead(log, st, l[i], l[j], d);
    }
  }

  // ----- One entry

  lemma {:induction false} GoneNext(log: seq<Entry>, i: nat, n: nat, id: OrderId)
    requires n < |log|
    ensures Gone(log, i, n + 1, id) <==> Gone(log, i, n, id) || (i <= n && log[n] == Cancelled(id))
  {
  }

  /** A submit has one position. */
  lemma {:induction false} PosIs(log: seq<Entry>, n: nat)
    requires Gentle(log) && n < |log| && log[n].Submitted?
    ensures Pos(log, log[n].order.id) == n
  {
    assert SubmitsId(log[n], log[n].order.id);
  }

  /** An entry that does not name an id does not change what the list shows of it. */
  lemma {:induction false} Unnamed(log: seq<Entry>, st: Stage, st': Stage, s: Symbol, d: Side, id: OrderId)
    requires Gentle(log) && st.n < |log| && st' == st.(n := st.n + 1)
    requires var e := log[st.n]; !SubmitsId(e, id) && e != Cancelled(id) && !(e.Modified? && e.id == id)
    ensures Has(log, st', s, d, id) <==> Has(log, st, s, d, id)
    ensures Same(log, st, st', id)
  {
    var i := Pos(log, id);
    GoneNext(log, i, st.n, id);
    GoneNext(log, 0, st.n, id);
    hide Gone, Gentle, Mine;
  }

  lemma {:induction false} SubmitPictures(log: seq<Entry>, st: Stage, st': Stage, s: Symbol, d: Side, l: seq<Ticket>)
    requires Gentle(log) && Pictures(log, st, s, d, l) && st.n < |log| && st' == st.(n := st.n + 1)
             && log[st.n].Submitted?
    ensures Pictures(log, st', s, d, TrackEntry(l, log[st.n], s, d))
  {
    var n, t := st.n, log[st.n].order;
    PosIs(log, n);
    PictureFacts(log, st, s, d, l);
    forall x | x != t.id
      ensures Has(log, st', s, d, x) <==> Has(log, st, s, d, x)
      ensures Same(log, st, st', x)
    {
      Unnamed(log, st, st', s, d, x);
    }
    SubmitShows(log, st, st', s, d);
    hide Gone, Gentle, Qty, Pictures, Ahead;
    if Mine(log[n], s, d) && !HasId(l, t.id) {
      forall x | Has(log, st, s, d, x)
        ensures Same(log, st, st', x) && Rank(log, st, x) < Rank(log, st', t.id)
      {
        RankBelow(log, st, s, d, x);
      }
      PictureInsert(log, st, st', s, d, l, t);
    } else {
      PictureStays(log, st, st', s, d, l);
    }
  }

  /** What is shown of an id before and after its submit. */
  lemma {:induction false} SubmitShows(log: seq<Entry>, st: Stage, st': Stage, s: Symbol, d: Side)
    requires Gentle(log) && st.n < |log| && st' == st.(n := st.n + 1) && log[st.n].Submitted?
    ensures var id := log[st.n].order.id;
            && Pos(log, id) == st.n
            && if Has(log, st, s, d, id) then Has(log, st', s, d, id) && Same(log, st, st', id)
               else if !Mine(log[st.n], s, d) then !Has(log, st', s, d, id)
               else Has(log, st', s, d, id) && Now(log, st', id) == log[st.n].order
                    && Rank(log, st', id) == st.n + if st.First? then 0 else |log|
  {
    var n, t := st.n, log[st.n].order;
    PosIs(log, n);
    GoneNext(log, n, n, t.id);
    GoneNext(log, 0, n, t.id);
    assert t.(qty := t.qty) == t;
    assert Qty(log, n, n, t.id, t.qty) == t.qty && Qty(log, n, n + 1, t.id, t.qty) == Qty(log, n, n, t.id, t.qty);
    if !Gone(log, 0, n, t.id) && Gone(log, 0, |log|, t.id) {
      var j :| 0 <= j < |log| && log[j] == Cancelled(t.id);
      assert n < j;
    }
  }

  lemma {:induction false} RankBelow(log: seq<Entry>, st: Stage, s: Symbol, d: Side, id: OrderId)
    requires Has(log, st, s, d, id)
    ensures Rank(log, st, id) < st.n + if st.First? then 0 else |log|
  {
  }

  lemma {:induction false} CancelPictures(log: seq<Entry>, st: Stage, st': Stage, s: Symbol, d: Side, l: seq<Ticket>)
    requires Gentle(log) && Pictures(log, st, s, d, l) && st.n < |log| && st' == st.(n := st.n + 1)
             && log[st.n].Cancelled?
    ensures Pictures(log, st', s, d, Without(l, log[st.n].id))
  {
    var id := log[st.n].id;
    forall x
      ensures Has(log, st', s, d, x) <==> Has(log, st, s, d, x) && x != id
      ensures x != id ==> Same(log, st, st', x)
    {
      if x != id {
        Unnamed(log, st, st', s, d, x);
      } else {
        GoneNext(log, Pos(log, id), st.n, id);
        GoneNext(log, 0, st.n, id);
        assert Gone(log, 0, |log|, id);
      }
    }
    PictureWithout(log, st, st', s, d, l, id);
  }

  lemma {:induction false} ModifyPictures(log: seq<Entry>, st: Stage, st': Stage, s: Symbol, d: Side, l: seq<Ticket>)
    requires Gentle(log) && Pictures(log, st, s, d, l) && st.n < |log| && st' == st.(n := st.n + 1)
             && log[st.n].Modified?
    ensures Pictures(log, st', s, d, SetQty(l, log[st.n].id, log[st.n].quantity))
  {
    var id, q := log[st.n].id, log[st.n].quantity;
    forall x
      ensures Has(log, st', s, d, x) <==> Has(log, st, s, d, x)
      ensures Has(log, st, s, d, x) ==>
                Rank(log, st', x) == Rank(log, st, x) &&
                Now(log, st', x) == if x == id then Now(log, st, x).(qty := q) else Now(log, st, x)
    {
      if x != id {
        Unnamed(log, st, st', s, d, x);
      } else {
        GoneNext(log, Pos(log, id), st.n, id);
        GoneNext(log, 0, st.n, id);
      }
    }
    PictureSetQty(log, st, st', s, d, l, id, q);
  }

  lemma {:induction false} EntryPictures(log: seq<Entry>, st: Stage, st': Stage, s: Symbol, d: Side, l: seq<Ticket>)
    requires Gentle(log) && Pictures(log, st, s, d, l) && st.n < |log| && st' == st.(n := st.n + 1)
    ensures Pictures(log, st', s, d, TrackEntry(l, log[st.n], s, d))
  {
    match log[st.n]
    case Submitted(_) => SubmitPictures(log, st, st', s, d, l);
    case Cancelled(_) => CancelPictures(log, st, st', s, d, l);
    case Modified(_, _) => ModifyPictures(log, st, st', s, d, l);
  }

  // ----- Both passes

  lemma {:induction false} FirstPass(log: seq<Entry>, n: nat, s: Symbol, d: Side)
    requires Gentle(log) && n <= |log|
    ensures Pictures(log, First(n), s, d, Track([], log[..n], s, d))
  {
    if n > 0 {
      FirstPass(log, n - 1, s, d);
      hide Pictures, TrackEntry, Gentle;
      assert log[..n][..n - 1] == log[..n - 1] && log[..n][n - 1] == log[n - 1];
      EntryPictures(log, First(n - 1), First(n), s, d, Track([], log[..n - 1], s, d));
    }
  }

  lemma {:induction false} SecondPass(log: seq<Entry>, n: nat, s: Symbol, d: Side)
    requires Gentle(log) && n <= |log|
    ensures Pictures(log, Second(n), s, d, Track(Track([], log, s, d), log[..n], s, d))
  {
    var f := Track([], log, s, d);
    if n > 0 {
      SecondPass(log, n - 1, s, d);
      hide Pictures, TrackEntry, Gentle;
      assert log[..n][..n - 1] == log[..n - 1] && log[..n][n - 1] == log[n - 1];
      EntryPictures(log, Second(n - 1), Second(n), s, d, Track(f, log[..n - 1], s, d));
    } else {
      FirstPass(log, |log|, s, d);
      assert log[..|log|] == log;
      PictureStays(log, First(|log|), Second(0), s, d, f);
    }
  }

  // ----- When the second pass changes nothing

  /** The id of the order submitted at `i` is cancelled ahead of its submit. */
  predicate CancelledEarly(log: seq<Entry>, i: nat)
    requires i < |log| && log[i].Submitted?
  {
    Gone(log, 0, i, log[i].order.id)
  }

  predicate SameLevel(t: Ticket, u: Ticket) {
    t.symbol == u.symbol && t.side == u.side && t.price == u.price
  }

  /** A surviving order keeps its quantity and its place: modifies ahead of its submit make no
      difference, and if a cancel ahead of its submit sends it to the back of its level, then so does
      one for every later survivor of the level. */
  predicate Unmoved(log: seq<Entry>, i: nat)
    requires i < |log| && log[i].Submitted?
  {
    var t := log[i].order;
    if CancelledEarly(log, i) then
      forall j | i < j < |log| && log[j].Submitted? && SameLevel(t, log[j].order)
        && Survives(log, j) :: CancelledEarly(log, j)
    else
      Qty(log, 0, |log|, t.id, t.qty) == Qty(log, i, |log|, t.id, t.qty)
  }

  predicate Stable(log: seq<Entry>) {
    forall i | 0 <= i < |log| && log[i].Submitted? && Survives(log, i) :: Unmoved(log, i)
  }

  lemma {:induction false} QtyTwice(log: seq<Entry>, i: nat, n: nat, id: OrderId, q: real)
    requires i <= n <= |log|
    ensures Qty(log, 0, n, id, Qty(log, i, n, id, q)) == Qty(log, 0, n, id, q)
  {
    if i < n {
      QtyTwice(log, i, n - 1, id, q);
    }
  }

  /** What the two passes show in the end of an order submitted at `i`. */
  lemma {:induction false} InTheEnd(log: seq<Entry>, i: nat, s: Symbol, d: Side)
    requires Gentle(log) && i < |log| && log[i].Submitted?
    ensures var t, one, two := log[i].order, First(|log|), Second(|log|);
            && Pos(log, t.id) == i
            && (Has(log, one, s, d, t.id) <==> Mine(log[i], s, d) && Survives(log, i))
            && (Has(log, two, s, d, t.id) <==> Mine(log[i], s, d) && Survives(log, i))
            && Now(log, one, t.id) == t.(qty := Qty(log, i, |log|, t.id, t.qty))
            && Rank(log, one, t.id) == i
            && (Survives(log, i) ==>
                  && Rank(log, two, t.id) == i + (if CancelledEarly(log, i) then |log| else 0)
                  && Now(log, two, t.id) ==
                     if CancelledEarly(log, i) then Now(log, one, t.id) else t.(qty := Qty(log, 0, |log|, t.id, t.qty)))
  {
    PosIs(log, i);
    QtyTwice(log, i, |log|, log[i].order.id, log[i].order.qty);
    hide Gentle;
  }

  /** A strict order leaves no choice. */
  lemma {:induction false} OneOrder(log: seq<Entry>, st: Stage, d: Side, a: seq<Ticket>, b: seq<Ticket>)
    requires forall k, m | 0 <= k < m < |a| :: Ahead(log, st, a[k], a[m], d)
    requires forall k, m | 0 <= k < m < |b| :: Ahead(log, st, b[k], b[m], d)
    requires forall x :: x in a <==> x in b
    ensures a == b
  {
    hide Rank;
    SameEmptiness(a, b);
    if a != [] {
      assert a[0] in b && b[0] in a;
      var p :| 0 <= p < |b| && b[p] == a[0];
      var q :| 0 <= q < |a| && a[q] == b[0];
      assert p == 0;
      forall x
        ensures x in a[1..] <==> x in b[1..]
      {
        TailOnly(log, st, d, a, x);
        TailOnly(log, st, d, b, x);
      }
      OneOrder(log, st, d, a[1..], b[1..]);
    }
  }

  lemma {:induction false} SameEmptiness(a: seq<Ticket>, b: seq<Ticket>)
    requires forall x :: x in a <==> x in b
    ensures a == [] <==> b == []
  {
    if a != [] { assert a[0] in b; }
    if b != [] { assert b[0] in a; }
  }

  lemma {:induction false} TailOnly(log: seq<Entry>, st: Stage, d: Side, a: seq<Ticket>, x: Ticket)
    requires a != [] && forall k, m | 0 <= k < m < |a| :: Ahead(log, st, a[k], a[m], d)
    ensures x in a[1..] <==> x in a && x != a[0]
  {
    hide Rank;
    if x in a[1..] {
      var k :| 0 <= k < |a[1..]| && a[1..][k] == x;
      assert Ahead(log, st, a[0], a[k + 1], d);
    }
  }

  lemma {:induction false} OnePicture(log: seq<Entry>, st: Stage, s: Symbol, d: Side, a: seq<Ticket>, b: seq<Ticket>)
    requires Pictures(log, st, s, d, a) && Pictures(log, st, s, d, b)
    ensures a == b
  {
    forall x
      ensures x in a <==> x in b
    {
      PictureHolds(log, st, s, d, a, x);
      PictureHolds(log, st, s, d, b, x);
    }
    hide Has, Now, Ahead;
    OneOrder(log, st, d, a, b);
  }

  lemma {:induction false} PictureHolds(log: seq<Entry>, st: Stage, s: Symbol, d: Side, l: seq<Ticket>, x: Ticket)
    requires Pictures(log, st, s, d, l)
    ensures x in l <==> Has(log, st, s, d, x.id) && x == Now(log, st, x.id)
  {
    hide Has, Now, Ahead;
    if Has(log, st, s, d, x.id) {
      var k :| 0 <= k < |l| && l[k].id == x.id;
      assert l[k] == Now(log, st, l[k].id);
    }
  }

  /** A survivor in the list of the first pass. */
  lemma {:induction false} SurvivorAt(log: seq<Entry>, i: nat, s: Symbol, d: Side, f: seq<Ticket>) returns (k: nat)
    requires Gentle(log) && Pictures(log, First(|log|), s, d, f)
    requires i < |log| && Mine(log[i], s, d) && Survives(log, i)
    ensures k < |f| && f[k].id == log[i].order.id && f[k] == Now(log, First(|log|), f[k].id)
  {
    InTheEnd(log, i, s, d);
    hide Has, Now;
    k :| 0 <= k < |f| && f[k].id == log[i].order.id;
  }

  /** If the second pass changes nothing, no survivor moves. */
  lemma {:induction false} UnchangedMeansUnmoved(log: seq<Entry>, i: nat, s: Symbol, d: Side, f: seq<Ticket>)
    requires Gentle(log) && Pictures(log, First(|log|), s, d, f) && Pictures(log, Second(|log|), s, d, f)
    requires i < |log| && Mine(log[i], s, d) && Survives(log, i)
    ensures Unmoved(log, i)
  {
    var k := SurvivorAt(log, i, s, d, f);
    InTheEnd(log, i, s, d);
    if CancelledEarly(log, i) {
      forall j | i < j < |log| && log[j].Submitted? && SameLevel(log[i].order, log[j].order) && Survives(log, j)
        ensures CancelledEarly(log, j)
      {
        var m := SurvivorAt(log, j, s, d, f);
        InTheEnd(log, j, s, d);
        hide Has, Now, Rank, Gone, Gentle;
        assert f[k].price == f[m].price;
        assert k < m ==> Ahead(log, Second(|log|), f[k], f[m], d);
        assert m < k ==> Ahead(log, First(|log|), f[m], f[k], d);
      }
    }
  }

  /** If no survivor moves, the first list is also the picture of the second pass. */
  lemma {:induction false} UnmovedMeansUnchanged(log: seq<Entry>, s: Symbol, d: Side, f: seq<Ticket>)
    requires Gentle(log) && Stable(log) && Pictures(log, First(|log|), s, d, f)
    ensures Pictures(log, Second(|log|), s, d, f)
  {
    var one, two := First(|log|), Second(|log|);
    forall id
      ensures Has(log, two, s, d, id) <==> Has(log, one, s, d, id)
      ensures Has(log, one, s, d, id) ==> Now(log, two, id) == Now(log, one, id)
    {
      if Pos(log, id) < |log| {
        InTheEnd(log, Pos(log, id), s, d);
        assert Survives(log, Pos(log, id)) ==> Unmoved(log, Pos(log, id));
      }
    }
    forall k, m | 0 <= k < m < |f|
      ensures Ahead(log, two, f[k], f[m], d)
    {
      assert Ahead(log, one, f[k], f[m], d);
      StillAhead(log, s, d, f[k], f[m]);
    }
    hide Has, Now, Ahead;
  }

  lemma {:induction false} StillAhead(log: seq<Entry>, s: Symbol, d: Side, t: Ticket, u: Ticket)
    requires Gentle(log) && Stable(log) && Ahead(log, First(|log|), t, u, d)
    requires Has(log, First(|log|), s, d, t.id) && t == Now(log, First(|log|), t.id)
    requires Has(log, First(|log|), s, d, u.id) && u == Now(log, First(|log|), u.id)
    ensures Ahead(log, Second(|log|), t, u, d)
  {
    var i, j := Pos(log, t.id), Pos(log, u.id);
    InTheEnd(log, i, s, d);
    InTheEnd(log, j, s, d);
    assert Unmoved(log, i);
    hide Has, Now, Rank, Gone, Gentle, Stable, Qty;
    assert t.price == log[i].order.price && u.price == log[j].order.price;
  }

  ghost predicate SecondIsVoid(log: seq<Entry>, s: Symbol, d: Side) {
    Track(Track([], log, s, d), log, s, d) == Track([], log, s, d)
  }

  /** On every side a second pass leaves the list unchanged if and only if the log is stable. */
  lemma {:induction false} SecondPassIsVoid(log: seq<Entry>)
    requires Gentle(log)
    ensures (forall s, d :: SecondIsVoid(log, s, d)) <==> Stable(log)
  {
    hide Gentle, Pictures, Unmoved, Survives, Track;
    assert log[..|log|] == log;
    forall s, d
      ensures Pictures(log, First(|log|), s, d, Track([], log, s, d))
      ensures Pictures(log, Second(|log|), s, d, Track(Track([], log, s, d), log, s, d))
    {
      FirstPass(log, |log|, s, d);
      SecondPass(log, |log|, s, d);
    }
    if Stable(log) {
      forall s, d
        ensures SecondIsVoid(log, s, d)
      {
        UnmovedMeansUnchanged(log, s, d, Track([], log, s, d));
        OnePicture(log, Second(|log|), s, d, Track(Track([], log, s, d), log, s, d), Track([], log, s, d));
      }
    }
    if forall s, d :: SecondIsVoid(log, s, d) {
      forall i | 0 <= i < |log| && log[i].Submitted? && Survives(log, i)
        ensures Unmoved(log, i)
      {
        var s, d := log[i].order.symbol, log[i].order.side;
        assert SecondIsVoid(log, s, d);
        UnchangedMeansUnmoved(log, i, s, d, Track([], log, s, d));
      }
    }
  }
}
