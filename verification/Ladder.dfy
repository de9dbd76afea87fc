/** One side of the two-level structure, as a value: price levels in key order, each with its queue
    and its cached total. Flattening a ladder gives the reference list. */
module Ladder {
  import opened Orders
  import opened FlatBook

  datatype Level = Level(price: real, queue: seq<Ticket>, total: real)

  function Flatten(ls: seq<Level>): seq<Ticket> {
    if ls == [] then [] else ls[0].queue + Flatten(ls[1..])
  }

  /** Keys strictly ordered, no level empty, keys equal order prices, totals equal the queue's sum. */
  ghost predicate LadderOk(s: Side, ls: seq<Level>) {
    && (forall i, j | 0 <= i < j < |ls| :: Better(s, ls[i].price, ls[j].price))
    && (forall i | 0 <= i < |ls| :: LevelOk(ls[i]))
  }

  ghost predicate LevelOk(l: Level) {
    && l.queue != []
    && l.total == Depth(l.queue)
    && forall j | 0 <= j < |l.queue| :: l.queue[j].price == l.price
  }

  // ----- Flattening

  lemma {:induction false} FlattenAppend(a: seq<Level>, b: seq<Level>)
    ensures Flatten(a + b) == Flatten(a) + Flatten(b)
  {
    if a == [] {
      assert a + b == b;
    } else {
      FlattenAppend(a[1..], b);
      assert (a + b)[1..] == a[1..] + b && (a + b)[0] == a[0];
      assert a[0].queue + (Flatten(a[1..]) + Flatten(b)) == (a[0].queue + Flatten(a[1..])) + Flatten(b);
    }
  }

  lemma {:induction false} FlattenAround(a: seq<Level>, l: Level, b: seq<Level>)
    ensures Flatten(a + [l] + b) == Flatten(a) + l.queue + Flatten(b)
  {
    FlattenAppend(a + [l], b);
    FlattenAppend(a, [l]);
    assert Flatten([l]) == l.queue;
  }

  lemma {:induction false} FlattenReplace(ls: seq<Level>, k: nat, l: Level)
    requires k < |ls|
    ensures Flatten(ls[k := l]) == Flatten(ls[..k]) + l.queue + Flatten(ls[k + 1..])
  {
    assert ls[k := l] == ls[..k] + [l] + ls[k + 1..];
    FlattenAround(ls[..k], l, ls[k + 1..]);
  }

  lemma {:induction false} FlattenAt(ls: seq<Level>, k: nat)
    requires k < |ls|
    ensures Flatten(ls) == Flatten(ls[..k]) + ls[k].queue + Flatten(ls[k + 1..])
  {
    FlattenReplace(ls, k, ls[k]);
    assert ls[k := ls[k]] == ls;
  }

  lemma {:induction false} FlattenHas(ls: seq<Level>, k: nat, id: OrderId)
    requires k < |ls| && HasId(ls[k].queue, id)
    ensures HasId(Flatten(ls), id)
  {
    var j :| 0 <= j < |ls[k].queue| && ls[k].queue[j].id == id;
    FlattenAt(ls, k);
    assert Flatten(ls)[|Flatten(ls[..k])| + j].id == id;
  }

  /** The level that holds an id. */
  lemma {:induction false} Locate(ls: seq<Level>, id: OrderId) returns (k: nat)
    requires HasId(Flatten(ls), id)
    ensures k < |ls| && HasId(ls[k].queue, id)
  {
    if HasId(ls[0].queue, id) {
      k := 0;
    } else {
      var i :| 0 <= i < |Flatten(ls)| && Flatten(ls)[i].id == id;
      assert i >= |ls[0].queue|;
      assert Flatten(ls[1..])[i - |ls[0].queue|].id == id;
      k := Locate(ls[1..], id);
      k := k + 1;
    }
  }

  lemma {:induction false} UniqueParts(a: seq<Ticket>, b: seq<Ticket>, c: seq<Ticket>, id: OrderId)
    requires Unique(a + b + c) && HasId(b, id)
    ensures !HasId(a, id) && !HasId(c, id) && Unique(b)
  {
    var l := a + b + c;
    var j :| 0 <= j < |b| && b[j].id == id;
    assert l[|a| + j].id == id;
    assert forall i | 0 <= i < |a| :: l[i] == a[i];
    assert forall i | |a| <= i < |a| + |b| :: l[i] == b[i - |a|];
    assert forall i | |a| + |b| <= i < |l| :: l[i] == c[i - |a| - |b|];
    forall i | 0 <= i < |c|
      ensures c[i].id != id
    {
      assert l[|a| + |b| + i] == c[i];
    }
    forall i, j | 0 <= i < j < |b|
      ensures b[i].id != b[j].id
    {
      assert l[|a| + i] == b[i] && l[|a| + j] == b[j];
    }
  }

  /** An id of level `k` occurs in no other level. */
  lemma {:induction false} OnlyHere(ls: seq<Level>, k: nat, id: OrderId)
    requires k < |ls| && HasId(ls[k].queue, id) && Unique(Flatten(ls))
    ensures !HasId(Flatten(ls[..k]), id) && !HasId(Flatten(ls[k + 1..]), id)
    ensures Unique(ls[k].queue)
  {
    FlattenAt(ls, k);
    UniqueParts(Flatten(ls[..k]), ls[k].queue, Flatten(ls[k + 1..]), id);
  }

  lemma {:induction false} NoOtherLevel(ls: seq<Level>, k: nat, id: OrderId)
    requires k < |ls| && HasId(ls[k].queue, id) && Unique(Flatten(ls))
    ensures forall i | 0 <= i < |ls| && i != k :: !HasId(ls[i].queue, id)
  {
    OnlyHere(ls, k, id);
    forall i | 0 <= i < |ls| && i != k
      ensures !HasId(ls[i].queue, id)
    {
      if HasId(ls[i].queue, id) {
        if i < k {
          FlattenHas(ls[..k], i, id);
        } else {
          FlattenHas(ls[k + 1..], i - k - 1, id);
        }
        assert false;
      }
    }
  }

  // ----- Adding

  lemma {:induction false} FlattenPrices(s: Side, ls: seq<Level>, p: real)
    requires forall i | 0 <= i < |ls| :: LevelOk(ls[i]) && AtLeastAsGood(s, ls[i].price, p)
    ensures forall i | 0 <= i < |Flatten(ls)| :: AtLeastAsGood(s, Flatten(ls)[i].price, p)
  {
    if ls != [] {
      FlattenPrices(s, ls[1..], p);
    }
  }

  lemma {:induction false} InsertSkips(a: seq<Ticket>, b: seq<Ticket>, t: Ticket)
    requires forall i | 0 <= i < |a| :: AtLeastAsGood(t.side, a[i].price, t.price)
    requires b != [] ==> !AtLeastAsGood(t.side, b[0].price, t.price)
    ensures Insert(a + b, t) == a + [t] + b
  {
    if a == [] {
      assert a + b == b;
    } else {
      InsertSkips(a[1..], b, t);
      assert (a + b)[1..] == a[1..] + b;
    }
  }

  /** Appending to the queue of its level, or opening a level at its place, is the stable insertion. */
  lemma {:induction false} AddToLevel(ls: seq<Level>, t: Ticket, k: nat)
    requires LadderOk(t.side, ls) && k < |ls| && ls[k].price == t.price
    ensures var l := ls[k].(queue := ls[k].queue + [t], total := ls[k].total + t.qty);
            LadderOk(t.side, ls[k := l]) && Flatten(ls[k := l]) == Insert(Flatten(ls), t)
  {
    var l := ls[k].(queue := ls[k].queue + [t], total := ls[k].total + t.qty);
    AppendKeepsLevel(ls[k], t);
    InsertAroundLevel(ls, t, k);
    hide LevelOk, Insert, Flatten;
    FlattenReplace(ls, k, l);
  }

  lemma {:induction false} AppendKeepsLevel(l: Level, t: Ticket)
    requires LevelOk(l) && l.price == t.price
    ensures LevelOk(l.(queue := l.queue + [t], total := l.total + t.qty))
  {
    DepthAppend(l.queue, [t]);
    assert [t][1..] == [];
  }

  lemma {:induction false} InsertAroundLevel(ls: seq<Level>, t: Ticket, k: nat)
    requires LadderOk(t.side, ls) && k < |ls| && ls[k].price == t.price
    ensures Insert(Flatten(ls), t) == Flatten(ls[..k]) + (ls[k].queue + [t]) + Flatten(ls[k + 1..])
  {
    var a, q, b := Flatten(ls[..k]), ls[k].queue, Flatten(ls[k + 1..]);
    FlattenPrices(t.side, ls[..k], t.price);
    LevelPrices(ls[k]);
    FirstBehind(t.side, ls, k);
    FlattenAt(ls, k);
    hide LevelOk, Flatten, LadderOk, Insert;
    InsertSkips(a + q, b, t);
    assert a + (q + [t]) + b == (a + q) + [t] + b;
  }

  lemma {:induction false} LevelPrices(l: Level)
    requires LevelOk(l)
    ensures forall j | 0 <= j < |l.queue| :: l.queue[j].price == l.price
  {
  }

  /** What stands behind a level is worse than the level's price. */
  lemma {:induction false} FirstBehind(s: Side, ls: seq<Level>, k: nat)
    requires LadderOk(s, ls) && k < |ls|
    ensures var b := Flatten(ls[k + 1..]); b != [] ==> !AtLeastAsGood(s, b[0].price, ls[k].price)
  {
    if k + 1 < |ls| {
      assert LevelOk(ls[k + 1]) && Flatten(ls[k + 1..])[0] == ls[k + 1].queue[0];
    }
  }

  lemma {:induction false} FlattenNewLevel(ls: seq<Level>, t: Ticket, k: nat, total: real)
    requires k <= |ls| && (forall i | 0 <= i < |ls| :: LevelOk(ls[i]))
    requires forall i | 0 <= i < k :: AtLeastAsGood(t.side, ls[i].price, t.price)
    requires k < |ls| ==> !AtLeastAsGood(t.side, ls[k].price, t.price)
    ensures Flatten(ls[..k] + [Level(t.price, [t], total)] + ls[k..]) == Insert(Flatten(ls), t)
  {
    FlattenAppend(ls[..k], ls[k..]);
    assert ls[..k] + ls[k..] == ls;
    FlattenAround(ls[..k], Level(t.price, [t], total), ls[k..]);
    FlattenPrices(t.side, ls[..k], t.price);
    if k < |ls| {
      assert Flatten(ls[k..])[0] == ls[k].queue[0];
    }
    InsertSkips(Flatten(ls[..k]), Flatten(ls[k..]), t);
  }

  lemma {:induction false} AddNewLevel(ls: seq<Level>, t: Ticket, k: nat)
    requires LadderOk(t.side, ls) && k <= |ls|
    requires forall i | 0 <= i < k :: Better(t.side, ls[i].price, t.price)
    requires forall i | k <= i < |ls| :: Better(t.side, t.price, ls[i].price)
    ensures var r := ls[..k] + [Level(t.price, [t], t.qty)] + ls[k..];
            LadderOk(t.side, r) && Flatten(r) == Insert(Flatten(ls), t)
  {
    FlattenNewLevel(ls, t, k, t.qty);
    hide Flatten, Insert;
    var added := Level(t.price, [t], t.qty);
    assert Depth([t]) == t.qty;
    assert LevelOk(added);
    var r := ls[..k] + [added] + ls[k..];
    forall i, j | 0 <= i < j < |r|
      ensures Better(t.side, r[i].price, r[j].price)
    {
      assert r[i] == (if i < k then ls[i] else if i == k then added else ls[i - 1]);
      assert r[j] == (if j < k then ls[j] else if j == k then added else ls[j - 1]);
    }
    forall i | 0 <= i < |r|
      ensures LevelOk(r[i])
    {
      assert r[i] == (if i < k then ls[i] else if i == k then added else ls[i - 1]);
    }
  }

  // ----- Changing and removing one order

  lemma {:induction false} DepthSetQty(l: seq<Ticket>, id: OrderId, q: real)
    requires Unique(l) && HasId(l, id)
    ensures Depth(SetQty(l, id, q)) == Depth(l) - Quantity(l, id) + q
  {
    if l[0].id == id {
      assert !HasId(l[1..], id);
      SetQtyAbsent(l[1..], id, q);
    } else {
      TailHas(l, id);
      DepthSetQty(l[1..], id, q);
    }
  }

  lemma {:induction false} DepthWithout(l: seq<Ticket>, id: OrderId)
    requires Unique(l) && HasId(l, id)
    ensures Depth(Without(l, id)) == Depth(l) - Quantity(l, id)
  {
    if l[0].id == id {
      assert !HasId(l[1..], id);
      WithoutAbsent(l[1..], id);
    } else {
      TailHas(l, id);
      DepthWithout(l[1..], id);
      assert Without(l, id)[1..] == Without(l[1..], id);
    }
  }

  lemma {:induction false} TailHas(l: seq<Ticket>, id: OrderId)
    requires HasId(l, id) && l[0].id != id
    ensures HasId(l[1..], id)
  {
    var i :| 0 <= i < |l| && l[i].id == id;
    assert l[1..][i - 1].id == id;
  }

  lemma {:induction false} WithoutSubset(l: seq<Ticket>, id: OrderId)
    ensures forall j | 0 <= j < |Without(l, id)| :: Without(l, id)[j] in l
  {
    if l != [] {
      WithoutSubset(l[1..], id);
    }
  }

  lemma {:induction false} FlattenSetQty(ls: seq<Level>, k: nat, id: OrderId, q: real, l: Level)
    requires Unique(Flatten(ls)) && k < |ls| && HasId(ls[k].queue, id) && l.queue == SetQty(ls[k].queue, id, q)
    ensures Flatten(ls[k := l]) == SetQty(Flatten(ls), id, q)
  {
    OnlyHere(ls, k, id);
    FlattenAt(ls, k);
    FlattenReplace(ls, k, l);
    SetQtyAppend(Flatten(ls[..k]) + ls[k].queue, Flatten(ls[k + 1..]), id, q);
    SetQtyAppend(Flatten(ls[..k]), ls[k].queue, id, q);
    SetQtyAbsent(Flatten(ls[..k]), id, q);
    SetQtyAbsent(Flatten(ls[k + 1..]), id, q);
  }

  /** Setting a quantity inside its level, with the total adjusted, sets it in the flat list. */
  lemma {:induction false} SetInLevel(s: Side, ls: seq<Level>, k: nat, id: OrderId, q: real)
    requires LadderOk(s, ls) && Unique(Flatten(ls)) && k < |ls| && HasId(ls[k].queue, id)
    ensures var l := ls[k].(queue := SetQty(ls[k].queue, id, q), total := ls[k].total - Quantity(ls[k].queue, id) + q);
            LadderOk(s, ls[k := l]) && Flatten(ls[k := l]) == SetQty(Flatten(ls), id, q)
  {
    var l := ls[k].(queue := SetQty(ls[k].queue, id, q), total := ls[k].total - Quantity(ls[k].queue, id) + q);
    FlattenSetQty(ls, k, id, q, l);
    assert LevelOk(l) by {
      OnlyHere(ls, k, id);
      DepthSetQty(ls[k].queue, id, q);
      SetQtyAll(ls[k].queue, id, q);
    }
  }

  /** The ladder with level `k` replaced, and erased if its queue is empty. */
  function Store(ls: seq<Level>, k: nat, l: Level): seq<Level>
    requires k < |ls|
  {
    if l.queue == [] then ls[..k] + ls[k + 1..] else ls[k := l]
  }

  lemma {:induction false} FlattenStore(ls: seq<Level>, k: nat, l: Level)
    requires k < |ls|
    ensures Flatten(Store(ls, k, l)) == Flatten(ls[..k]) + l.queue + Flatten(ls[k + 1..])
  {
    if l.queue == [] {
      FlattenAppend(ls[..k], ls[k + 1..]);
    } else {
      FlattenReplace(ls, k, l);
    }
  }

  lemma {:induction false} FlattenWithout(ls: seq<Level>, k: nat, id: OrderId, l: Level)
    requires Unique(Flatten(ls)) && k < |ls| && HasId(ls[k].queue, id) && l.queue == Without(ls[k].queue, id)
    ensures Flatten(Store(ls, k, l)) == Without(Flatten(ls), id)
  {
    OnlyHere(ls, k, id);
    FlattenAt(ls, k);
    FlattenStore(ls, k, l);
    WithoutAppend(Flatten(ls[..k]) + ls[k].queue, Flatten(ls[k + 1..]), id);
    WithoutAppend(Flatten(ls[..k]), ls[k].queue, id);
    WithoutAbsent(Flatten(ls[..k]), id);
    WithoutAbsent(Flatten(ls[k + 1..]), id);
  }

  /** Removing an order from its level, and the level with its last order, removes it from the flat list. */
  lemma {:induction false} RemoveFromLevel(s: Side, ls: seq<Level>, k: nat, id: OrderId, total: real)
    requires LadderOk(s, ls) && Unique(Flatten(ls)) && k < |ls| && HasId(ls[k].queue, id)
    requires total == ls[k].total - Quantity(ls[k].queue, id)
    ensures var l := Level(ls[k].price, Without(ls[k].queue, id), total);
            LadderOk(s, Store(ls, k, l)) && Flatten(Store(ls, k, l)) == Without(Flatten(ls), id)
  {
    var l := Level(ls[k].price, Without(ls[k].queue, id), total);
    FlattenWithout(ls, k, id, l);
    assert l.queue != [] ==> LevelOk(l) by {
      OnlyHere(ls, k, id);
      DepthWithout(ls[k].queue, id);
      WithoutSubset(ls[k].queue, id);
    }
  }

  /** The quantity recorded in a level is the one in the flat list. */
  lemma {:induction false} QuantityInLevel(ls: seq<Level>, k: nat, id: OrderId)
    requires Unique(Flatten(ls)) && k < |ls| && HasId(ls[k].queue, id)
    ensures HasId(Flatten(ls), id) && Quantity(Flatten(ls), id) == Quantity(ls[k].queue, id)
  {
    OnlyHere(ls, k, id);
    var j :| 0 <= j < |ls[k].queue| && ls[k].queue[j].id == id;
    FlattenAt(ls, k);
    assert Flatten(ls)[|Flatten(ls[..k])| + j] == ls[k].queue[j];
    QuantityAt(Flatten(ls), |Flatten(ls[..k])| + j);
    QuantityAt(ls[k].queue, j);
  }

  /** Every order of a level is an order of the flat list, so quantities are positive and ids match. */
  lemma {:induction false} LevelInFlat(ls: seq<Level>, k: nat)
    requires k < |ls|
    ensures forall j | 0 <= j < |ls[k].queue| :: ls[k].queue[j] in Flatten(ls)
  {
    FlattenAt(ls, k);
  }

  /** A level total can absorb the loss of any one of its orders: the clamps at zero never fire. */
  lemma {:induction false} TotalsStayNonNegative(s: Side, ls: seq<Level>, k: nat, id: OrderId)
    requires Queue(s, Flatten(ls)) && LadderOk(s, ls) && k < |ls| && HasId(ls[k].queue, id)
    ensures 0.0 < Quantity(ls[k].queue, id) <= ls[k].total
    ensures Without(ls[k].queue, id) != [] ==> Quantity(ls[k].queue, id) < ls[k].total
  {
    LevelInFlat(ls, k);
    OnlyHere(ls, k, id);
    DepthWithout(ls[k].queue, id);
    WithoutSubset(ls[k].queue, id);
    DepthNonNegative(Without(ls[k].queue, id));
    var j :| 0 <= j < |ls[k].queue| && ls[k].queue[j].id == id;
    QuantityAt(ls[k].queue, j);
  }

  // ----- Market depth

  /** The orders of a list at one price. */
  function AtPrice(l: seq<Ticket>, p: real): seq<Ticket> {
    if l == [] then [] else if l[0].price == p then [l[0]] + AtPrice(l[1..], p) else AtPrice(l[1..], p)
  }

  datatype DepthEntry = DepthEntry(price: real, qty: real)

  /** Quantity per price, best price first. */
  function Group(l: seq<Ticket>): seq<DepthEntry> {
    if l == [] then []
    else
      var g := Group(l[1..]);
      if g != [] && g[0].price == l[0].price then [DepthEntry(l[0].price, l[0].qty + g[0].qty)] + g[1..]
      else [DepthEntry(l[0].price, l[0].qty)] + g
  }

  function Entries(ls: seq<Level>): (r: seq<DepthEntry>)
    ensures |r| == |ls|
    ensures forall i | 0 <= i < |ls| :: r[i] == DepthEntry(ls[i].price, ls[i].total)
  {
    if ls == [] then [] else [DepthEntry(ls[0].price, ls[0].total)] + Entries(ls[1..])
  }

  function Top(l: seq<Ticket>, n: nat): seq<DepthEntry> {
    if |Group(l)| <= n then Group(l) else Group(l)[..n]
  }

  /** The best price of a list with its quantity, or zeros. */
  function Best(l: seq<Ticket>): DepthEntry {
    if l == [] then DepthEntry(0.0, 0.0) else Group(l)[0]
  }

  lemma {:induction false} GroupQueue(q: seq<Ticket>, rest: seq<Ticket>, p: real)
    requires q != [] && (forall j | 0 <= j < |q| :: q[j].price == p)
    requires Group(rest) != [] ==> Group(rest)[0].price != p
    ensures Group(q + rest) == [DepthEntry(p, Depth(q))] + Group(rest)
  {
    assert (q + rest)[1..] == q[1..] + rest;
    if |q| == 1 {
      assert q[1..] + rest == rest;
    } else {
      GroupQueue(q[1..], rest, p);
    }
  }

  /** The cached totals are the grouped flat list. */
  lemma {:induction false} GroupFlatten(s: Side, ls: seq<Level>)
    requires LadderOk(s, ls)
    ensures Group(Flatten(ls)) == Entries(ls)
  {
    if ls != [] {
      GroupFlatten(s, ls[1..]);
      assert forall i | 0 <= i < |ls[1..]| :: ls[1..][i] == ls[i + 1];
      GroupQueue(ls[0].queue, Flatten(ls[1..]), ls[0].price);
    }
  }

  ghost predicate StrictlySorted(s: Side, d: seq<DepthEntry>) {
    forall i, j | 0 <= i < j < |d| :: Better(s, d[i].price, d[j].price)
  }

  lemma {:induction false} StrictlySortedCons(s: Side, e: DepthEntry, g: seq<DepthEntry>)
    requires StrictlySorted(s, g)
    ensures g == [] || Better(s, e.price, g[0].price) ==> StrictlySorted(s, [e] + g)
    ensures g != [] && e.price == g[0].price ==> StrictlySorted(s, [e] + g[1..])
  {
    assert forall i | 0 < i <= |g| :: ([e] + g)[i] == g[i - 1];
    if g != [] { assert forall i | 0 < i < |g| :: ([e] + g[1..])[i] == g[i]; }
  }

  /** The depth of a book is strictly sorted: one entry per price. */
  lemma {:induction false} GroupSorted(s: Side, l: seq<Ticket>)
    requires Sorted(s, l)
    ensures StrictlySorted(s, Group(l))
    ensures Group(l) == [] <==> l == []
    ensures l != [] ==> Group(l)[0].price == l[0].price
  {
    if l != [] {
      var g, r := Group(l[1..]), Group(l);
      GroupSorted(s, l[1..]);
      StrictlySortedCons(s, r[0], g);
      assert g != [] ==> AtLeastAsGood(s, l[0].price, l[1].price);
      hide StrictlySorted;
    }
  }

  lemma {:induction false} NoneBelow(s: Side, l: seq<Ticket>, p: real)
    requires l != [] && Sorted(s, l) && Better(s, p, l[0].price)
    ensures AtPrice(l, p) == []
  {
    if |l| > 1 {
      assert AtLeastAsGood(s, l[0].price, l[1].price);
      NoneBelow(s, l[1..], p);
    }
  }

  predicate Listed(d: seq<DepthEntry>, p: real) {
    exists k | 0 <= k < |d| :: d[k].price == p
  }

  predicate Occurs(l: seq<Ticket>, p: real) {
    exists i | 0 <= i < |l| :: l[i].price == p
  }

  lemma {:induction false} ListedCons(e: DepthEntry, g: seq<DepthEntry>, p: real)
    ensures Listed([e] + g, p) <==> p == e.price || Listed(g, p)
    ensures g != [] && g[0].price == e.price ==> (Listed([e] + g[1..], p) <==> Listed(g, p))
  {
    var r := [e] + g;
    assert r[0] == e && forall i | 0 <= i < |g| :: r[i + 1] == g[i];
    if g != [] && g[0].price == e.price {
      var m := [e] + g[1..];
      assert forall i | 0 <= i < |g| :: m[i].price == g[i].price;
    }
  }

  lemma {:induction false} OccursCons(l: seq<Ticket>, p: real)
    requires l != []
    ensures Occurs(l, p) <==> p == l[0].price || Occurs(l[1..], p)
  {
    assert forall i | 0 <= i < |l| - 1 :: l[1..][i] == l[i + 1];
  }

  /** The listed prices are those at which orders rest. */
  lemma {:induction false} GroupLists(l: seq<Ticket>, p: real)
    ensures Listed(Group(l), p) <==> Occurs(l, p)
  {
    hide Listed, Occurs;
    if l != [] {
      GroupLists(l[1..], p);
      OccursCons(l, p);
      ListedCons(Group(l)[0], Group(l[1..]), p);
      ListedHead(Group(l[1..]));
    } else {
      NothingListed(p);
    }
  }

  lemma {:induction false} ListedHead(g: seq<DepthEntry>)
    ensures g != [] ==> Listed(g, g[0].price)
  {
  }

  lemma {:induction false} NothingListed(p: real)
    ensures !Listed([], p) && !Occurs([], p)
  {
  }

  lemma {:induction false} AtPriceCons(l: seq<Ticket>, p: real)
    requires l != []
    ensures Depth(AtPrice(l, p)) == Depth(AtPrice(l[1..], p)) + if l[0].price == p then l[0].qty else 0.0
  {
    if l[0].price == p { assert AtPrice(l, p)[1..] == AtPrice(l[1..], p); }
  }

  /** Each listed quantity is what all orders at that price add up to. */
  lemma {:induction false} GroupTotals(s: Side, l: seq<Ticket>)
    requires Sorted(s, l)
    ensures forall k | 0 <= k < |Group(l)| :: Group(l)[k].qty == Depth(AtPrice(l, Group(l)[k].price))
  {
    if l != [] {
      var tail, g, r := l[1..], Group(l[1..]), Group(l);
      GroupTotals(s, tail);
      GroupSorted(s, tail);
      GroupSorted(s, l);
      var merged := g != [] && g[0].price == l[0].price;
      if !merged && tail != [] { NoneBelow(s, tail, l[0].price); }
      assert forall k | 0 < k < |r| :: r[k] == g[if merged then k else k - 1];
      hide AtPrice, Sorted, Depth;
      assert AtPrice(tail, l[0].price) == [] ==> Depth(AtPrice(tail, l[0].price)) == 0.0 by { NoDepth(); }
      forall k | 0 <= k < |r|
        ensures r[k].qty == Depth(AtPrice(l, r[k].price))
      {
        AtPriceCons(l, r[k].price);
        if k > 0 { assert r[k].price != l[0].price; }
      }
    }
  }

  lemma {:induction false} NoDepth()
    ensures Depth([]) == 0.0 && forall p :: AtPrice([], p) == []
  {
  }

  /** The listed levels are the best ones, best first, each with all that rests at its price; a price is
      missing only if it is worse than every listed one and the list is full. */
  lemma {:induction false} TopIsBest(s: Side, l: seq<Ticket>, n: nat)
    requires Sorted(s, l)
    ensures var d := Top(l, n);
            && |d| <= n
            && (forall i, j | 0 <= i < j < |d| ::
                  if s.BUY? then d[i].price > d[j].price else d[i].price < d[j].price)
            && (forall k | 0 <= k < |d| :: d[k].qty == Depth(AtPrice(l, d[k].price)) && Occurs(l, d[k].price))
            && (forall p | Occurs(l, p) && !Listed(d, p) ::
                  |d| == n && forall k | 0 <= k < |d| :: if s.BUY? then p < d[k].price else p > d[k].price)
            && (l != [] && n > 0 ==> d != [] && d[0].price == l[0].price)
  {
    var g, d := Group(l), Top(l, n);
    GroupTotals(s, l);
    GroupSorted(s, l);
    TopRanks(s, g, d);
    hide Group, Sorted, AtPrice, Depth, StrictlySorted, Occurs, Listed;
    forall p | Occurs(l, p) && !Listed(d, p)
      ensures |d| == n && forall k | 0 <= k < |d| :: if s.BUY? then p < d[k].price else p > d[k].price
    {
      GroupLists(l, p);
      MissingIsWorse(s, g, d, p);
    }
    forall k | 0 <= k < |d|
      ensures Occurs(l, d[k].price)
    {
      IsListed(g, k);
      GroupLists(l, g[k].price);
    }
  }

  lemma {:induction false} IsListed(g: seq<DepthEntry>, k: nat)
    requires k < |g|
    ensures Listed(g, g[k].price)
  {
  }

  /** A prefix of a ranked list is ranked. */
  lemma {:induction false} TopRanks(s: Side, g: seq<DepthEntry>, d: seq<DepthEntry>)
    requires StrictlySorted(s, g) && d <= g
    ensures forall i, j | 0 <= i < j < |d| :: if s.BUY? then d[i].price > d[j].price else d[i].price < d[j].price
  {
    assert forall k | 0 <= k < |d| :: d[k] == g[k];
  }

  /** Everything behind it is worse. */
  lemma {:induction false} MissingIsWorse(s: Side, g: seq<DepthEntry>, d: seq<DepthEntry>, p: real)
    requires StrictlySorted(s, g) && d <= g && Listed(g, p) && !Listed(d, p)
    ensures |d| < |g| && forall k | 0 <= k < |d| :: if s.BUY? then p < d[k].price else p > d[k].price
  {
    assert forall k | 0 <= k < |d| :: d[k] == g[k];
    var m :| 0 <= m < |g| && g[m].price == p;
    assert m < |d| ==> d[m].price == p;
  }

  /** The best entry is the first order's price with all that rests there, or zeros. */
  lemma {:induction false} BestIs(s: Side, l: seq<Ticket>)
    requires Sorted(s, l)
    ensures var best := Best(l);
            if l == [] then best.price == 0.0 && best.qty == 0.0
            else best.price == l[0].price && best.qty == Depth(AtPrice(l, l[0].price))
  {
    GroupTotals(s, l);
    GroupSorted(s, l);
  }

  lemma {:induction false} FlattenWorse(s: Side, v: seq<Level>, p: real)
    requires forall i | 0 <= i < |v| :: LevelOk(v[i]) && Better(s, p, v[i].price)
    ensures forall j | 0 <= j < |Flatten(v)| :: Better(s, p, Flatten(v)[j].price)
  {
    if v != [] {
      FlattenWorse(s, v[1..], p);
    }
  }

  lemma {:induction false} FlattenSorted(s: Side, v: seq<Level>)
    requires LadderOk(s, v)
    ensures Sorted(s, Flatten(v))
  {
    if v != [] {
      assert forall i | 0 <= i < |v| - 1 :: v[1..][i] == v[i + 1];
      FlattenSorted(s, v[1..]);
      FlattenWorse(s, v[1..], v[0].price);
    }
  }
}
