/** What a processed order may and may not do, proved about the reference model:
    priority, no trade-through, conservation, fill-or-kill exactness, splitting, no crossed book. */
module MatchingLaws {
  import opened Orders
  import opened FlatBook
  import opened Fees

  // ----- Measures of an execution

  function TradedQuantity(fills: seq<Fill>): real {
    if fills == [] then 0.0 else fills[0].qty + TradedQuantity(fills[1..])
  }

  function TradedWith(fills: seq<Fill>, id: OrderId): real {
    if fills == [] then 0.0 else (if fills[0].maker.id == id then fills[0].qty else 0.0) + TradedWith(fills[1..], id)
  }

  function MakerFees(fills: seq<Fill>, policy: FeePolicy): real {
    if fills == [] then 0.0
    else
      var f := fills[0];
      Fee(f.maker.price, f.qty, policy.Rates(f.maker.symbol).makerFee) + MakerFees(fills[1..], policy)
  }

  function TakerFees(fills: seq<Fill>, policy: FeePolicy): real {
    if fills == [] then 0.0
    else
      var f := fills[0];
      Fee(f.maker.price, f.qty, policy.Rates(f.maker.symbol).takerFee) + TakerFees(fills[1..], policy)
  }

  ghost predicate Positive(l: seq<Ticket>) {
    forall i | 0 <= i < |l| :: l[i].qty > 0.0
  }

  lemma {:induction false} TailPositive(l: seq<Ticket>)
    requires Positive(l) && l != []
    ensures Positive(l[1..])
  {
  }

  // ----- Price-time priority

  /** Without reference to any algorithm: the fills are the shortest prefix of the priority list,
      within the limit, that covers `q`; each maker but the last is filled completely. */
  ghost predicate IsPriorityFill(opp: seq<Ticket>, t: Ticket, q: real, fills: seq<Fill>) {
    && |fills| <= |opp|
    && (forall i | 0 <= i < |fills| ::
          && fills[i].maker == opp[i]
          && Accepts(t, opp[i].price)
          && Depth(opp[..i]) < q
          && fills[i].qty == Min(opp[i].qty, q - Depth(opp[..i])))
    && (|fills| == |opp| || !Accepts(t, opp[|fills|].price) || Depth(opp[..|fills|]) >= q)
  }

  lemma {:induction false} DepthPrefix(l: seq<Ticket>, i: nat)
    requires 0 < i <= |l|
    ensures Depth(l[..i]) == l[0].qty + Depth(l[1..][..i - 1])
  {
    assert l[..i][1..] == l[1..][..i - 1];
  }

  /** A full fill of the head, followed by a priority fill of the rest, is one of the whole. */
  lemma {:induction false} PriorityFillCons(opp: seq<Ticket>, t: Ticket, q: real, tail: seq<Fill>)
    requires opp != [] && Accepts(t, opp[0].price) && 0.0 < q && opp[0].qty <= q
    requires IsPriorityFill(opp[1..], t, q - opp[0].qty, tail)
    ensures IsPriorityFill(opp, t, q, [Fill(opp[0], opp[0].qty)] + tail)
  {
    var fills := [Fill(opp[0], opp[0].qty)] + tail;
    forall i | 0 < i <= |opp|
      ensures Depth(opp[..i]) == opp[0].qty + Depth(opp[1..][..i - 1])
    {
      DepthPrefix(opp, i);
    }
    assert Depth(opp[..0]) == 0.0;
    hide Accepts, Depth;
    forall i | 0 <= i < |fills|
      ensures fills[i].maker == opp[i] && Accepts(t, opp[i].price)
      ensures Depth(opp[..i]) < q && fills[i].qty == Min(opp[i].qty, q - Depth(opp[..i]))
    {
      assert i > 0 ==> fills[i] == tail[i - 1] && opp[i] == opp[1..][i - 1];
    }
  }

  lemma {:induction false} SweepIsPriorityFill(opp: seq<Ticket>, t: Ticket, q: real)
    requires Positive(opp)
    ensures IsPriorityFill(opp, t, q, Sweep(opp, t, q).fills)
  {
    hide Accepts;
    if opp == [] || q <= 0.0 || !Accepts(t, opp[0].price) {
    } else if opp[0].qty <= q {
      SweepIsPriorityFill(opp[1..], t, q - opp[0].qty);
      PriorityFillCons(opp, t, q, Sweep(opp[1..], t, q - opp[0].qty).fills);
      hide IsPriorityFill;
    } else {
      DepthPrefix(opp, 1);
    }
  }

  /** A priority fill of the whole begins with a full fill of the head, if that is within reach. */
  lemma {:induction false} PriorityFillTail(opp: seq<Ticket>, t: Ticket, q: real, fills: seq<Fill>)
    requires opp != [] && Accepts(t, opp[0].price) && 0.0 < opp[0].qty <= q && IsPriorityFill(opp, t, q, fills)
    ensures fills != [] && fills[0] == Fill(opp[0], opp[0].qty)
    ensures IsPriorityFill(opp[1..], t, q - opp[0].qty, fills[1..])
  {
    assert Depth(opp[..0]) == 0.0;
    assert fills != [] && fills[0].maker == opp[0];
    var tail, ftail := opp[1..], fills[1..];
    forall i | 0 < i <= |opp|
      ensures Depth(opp[..i]) == opp[0].qty + Depth(tail[..i - 1])
    {
      DepthPrefix(opp, i);
    }
    hide Accepts, Depth;
    forall i | 0 <= i < |ftail|
      ensures ftail[i].maker == tail[i] && Accepts(t, tail[i].price)
      ensures Depth(tail[..i]) < q - opp[0].qty && ftail[i].qty == Min(tail[i].qty, q - opp[0].qty - Depth(tail[..i]))
    {
      assert ftail[i] == fills[i + 1] && tail[i] == opp[i + 1];
    }
  }

  /** If the head alone covers the quantity, there is one fill. */
  lemma {:induction false} PriorityFillOne(opp: seq<Ticket>, t: Ticket, q: real, fills: seq<Fill>)
    requires opp != [] && Accepts(t, opp[0].price) && 0.0 < q < opp[0].qty && IsPriorityFill(opp, t, q, fills)
    ensures fills == [Fill(opp[0], q)]
  {
    DepthPrefix(opp, 1);
    assert Depth(opp[..0]) == 0.0 && Depth(opp[..1]) == opp[0].qty;
    assert fills != [] && fills[0].maker == opp[0];
    hide Accepts, Depth;
    assert |fills| == 1;
  }

  lemma {:induction false} PriorityFillIsSweep(opp: seq<Ticket>, t: Ticket, q: real, fills: seq<Fill>)
    requires Positive(opp)
    requires IsPriorityFill(opp, t, q, fills)
    ensures fills == Sweep(opp, t, q).fills
  {
    hide Accepts;
    if opp == [] || q <= 0.0 || !Accepts(t, opp[0].price) {
      assert Depth(opp[..0]) == 0.0;
      assert fills == [];
    } else if opp[0].qty <= q {
      PriorityFillTail(opp, t, q, fills);
      hide IsPriorityFill;
      PriorityFillIsSweep(opp[1..], t, q - opp[0].qty, fills[1..]);
      assert fills == [fills[0]] + fills[1..];
    } else {
      PriorityFillOne(opp, t, q, fills);
      hide IsPriorityFill;
    }
  }

  /** The trades of an execution are exactly the priority fill: it exists and there is no other. */
  lemma {:induction false} PriceTimePriority(opp: seq<Ticket>, t: Ticket, q: real, fills: seq<Fill>)
    requires Positive(opp)
    ensures IsPriorityFill(opp, t, q, fills) <==> fills == Sweep(opp, t, q).fills
  {
    SweepIsPriorityFill(opp, t, q);
    if IsPriorityFill(opp, t, q, fills) {
      PriorityFillIsSweep(opp, t, q, fills);
    }
  }

  /** Every maker but the last is filled completely. */
  lemma {:induction false} AllButLastFull(opp: seq<Ticket>, t: Ticket, q: real, fills: seq<Fill>)
    requires IsPriorityFill(opp, t, q, fills)
    ensures forall i | 0 <= i < |fills| - 1 :: fills[i].qty == opp[i].qty
  {
    forall i | 0 <= i < |fills| - 1
      ensures fills[i].qty == opp[i].qty
    {
      assert fills[i + 1].maker == opp[i + 1] && Depth(opp[..i + 1]) < q;
      DepthAppend(opp[..i], [opp[i]]);
      assert opp[..i + 1] == opp[..i] + [opp[i]];
    }
  }

  /** What remains of a list: all behind the last maker, preceded by what is left of that maker. */
  ghost predicate RestIs(opp: seq<Ticket>, fills: seq<Fill>, rest: seq<Ticket>) {
    var n := |fills|;
    && n <= |opp|
    && (n == 0 ==> rest == opp)
    && (n > 0 ==> 0.0 < fills[n - 1].qty <= opp[n - 1].qty && rest == Remaining(opp[n - 1..], fills[n - 1].qty))
  }

  lemma {:induction false} RestIsCons(opp: seq<Ticket>, f: Fill, fills: seq<Fill>, rest: seq<Ticket>)
    requires opp != [] && f.qty == opp[0].qty > 0.0 && RestIs(opp[1..], fills, rest)
    ensures RestIs(opp, [f] + fills, rest)
  {
    var m := |fills|;
    if m > 0 {
      assert opp[1..][m - 1..] == opp[m..] && opp[1..][m - 1] == opp[m];
      hide Remaining;
    } else {
      assert opp[0..] == opp;
    }
  }

  lemma {:induction false} SweepRest(opp: seq<Ticket>, t: Ticket, q: real)
    requires Positive(opp)
    ensures RestIs(opp, Sweep(opp, t, q).fills, Sweep(opp, t, q).rest)
  {
    if opp != [] && q > 0.0 && Accepts(t, opp[0].price) {
      if opp[0].qty <= q {
        var tail := Sweep(opp[1..], t, q - opp[0].qty);
        SweepRest(opp[1..], t, q - opp[0].qty);
        hide RestIs;
        RestIsCons(opp, Fill(opp[0], opp[0].qty), tail.fills, tail.rest);
      } else {
        assert opp[0..] == opp;
      }
    }
  }

  /** The remaining list is a suffix of the swept one, up to the quantity of its head. */
  ghost predicate Suffix(rest: seq<Ticket>, opp: seq<Ticket>) {
    && |rest| <= |opp|
    && forall i | 0 <= i < |rest| :: rest[i].qty > 0.0 && rest[i] == opp[|opp| - |rest| + i].(qty := rest[i].qty)
  }

  lemma {:induction false} SuffixOfTail(rest: seq<Ticket>, opp: seq<Ticket>)
    requires opp != [] && Suffix(rest, opp[1..])
    ensures Suffix(rest, opp)
  {
    var tail := opp[1..];
    assert forall i | 0 <= i < |tail| :: tail[i] == opp[i + 1];
  }

  lemma {:induction false} SuffixOfSelf(opp: seq<Ticket>, q: real)
    requires Positive(opp)
    ensures Suffix(opp, opp)
    ensures opp != [] && q > 0.0 ==> Suffix([opp[0].(qty := q)] + opp[1..], opp)
  {
    assert forall i | 0 <= i < |opp| :: opp[i] == opp[i].(qty := opp[i].qty);
  }

  lemma {:induction false} SweepLeavesSuffix(opp: seq<Ticket>, t: Ticket, q: real)
    requires Positive(opp)
    ensures Suffix(Sweep(opp, t, q).rest, opp)
  {
    hide Accepts, Suffix;
    if opp != [] && q > 0.0 && Accepts(t, opp[0].price) && opp[0].qty <= q {
      SweepLeavesSuffix(opp[1..], t, q - opp[0].qty);
      SuffixOfTail(Sweep(opp[1..], t, q - opp[0].qty).rest, opp);
    } else {
      SuffixOfSelf(opp, if opp == [] then 0.0 else opp[0].qty - q);
    }
  }

  lemma {:induction false} SuffixKeepsQueue(s: Side, rest: seq<Ticket>, opp: seq<Ticket>)
    requires Queue(s, opp) && Suffix(rest, opp)
    ensures Queue(s, rest)
    ensures forall id :: HasId(rest, id) ==> HasId(opp, id)
    ensures forall i, j | 0 <= i < |rest| && 0 <= j <= |opp| - |rest| && j < |opp| ::
              AtLeastAsGood(s, opp[j].price, rest[i].price)
  {
    var k := |opp| - |rest|;
    assert forall i | 0 <= i < |rest| ::
        rest[i].side == opp[k + i].side && rest[i].id == opp[k + i].id && rest[i].price == opp[k + i].price;
  }

  lemma {:induction false} SuffixDrops(rest: seq<Ticket>, opp: seq<Ticket>, j: nat)
    requires Unique(opp) && Suffix(rest, opp) && j < |opp| - |rest|
    ensures !HasId(rest, opp[j].id)
  {
    var k := |opp| - |rest|;
    assert forall i | 0 <= i < |rest| :: rest[i].id == opp[k + i].id;
  }

  lemma {:induction false} SweepKeepsQueue(s: Side, opp: seq<Ticket>, t: Ticket, q: real)
    requires Queue(s, opp)
    ensures Queue(s, Sweep(opp, t, q).rest)
    ensures Suffix(Sweep(opp, t, q).rest, opp)
    ensures forall id :: HasId(Sweep(opp, t, q).rest, id) ==> HasId(opp, id)
  {
    SweepLeavesSuffix(opp, t, q);
    SuffixKeepsQueue(s, Sweep(opp, t, q).rest, opp);
  }

  /** One capped pass is enough: nothing is left to fill, or nothing acceptable is left to fill it with. */
  lemma {:induction false} SweepExhausts(opp: seq<Ticket>, t: Ticket, q: real)
    requires Positive(opp) && q >= 0.0
    ensures var r := Sweep(opp, t, q);
            && r.left >= 0.0
            && (r.left == 0.0 || r.rest == [] || !Accepts(t, r.rest[0].price))
  {
    if opp == [] || q <= 0.0 || !Accepts(t, opp[0].price) {
    } else if opp[0].qty <= q {
      SweepExhausts(opp[1..], t, q - opp[0].qty);
    }
  }

  /** Fills run down the list in priority order, within the limit; all makers but the last are gone
      from it, and nothing that remains in it outranks a maker. */
  lemma {:induction false} SweepInPriorityOrder(s: Side, opp: seq<Ticket>, t: Ticket, q: real)
    requires Queue(s, opp)
    ensures var r := Sweep(opp, t, q);
            && |r.fills| <= |opp|
            && (forall i | 0 <= i < |r.fills| :: r.fills[i].maker == opp[i] && Accepts(t, opp[i].price))
            && (forall i | 0 <= i < |r.fills| - 1 :: r.fills[i].qty == opp[i].qty && !HasId(r.rest, opp[i].id))
            && (forall i, k | 0 <= i < |r.fills| && 0 <= k < |r.rest| ::
              AtLeastAsGood(s, opp[i].price, r.rest[k].price))
  {
    var r := Sweep(opp, t, q);
    SweepRest(opp, t, q);
    SweepLeavesSuffix(opp, t, q);
    SweepIsPriorityFill(opp, t, q);
    AllButLastFull(opp, t, q, r.fills);
    hide Sweep;
    if r.fills != [] {
      assert |r.fills| - 1 <= |opp| - |r.rest|;
      SuffixKeepsQueue(s, r.rest, opp);
      forall i | 0 <= i < |r.fills| - 1
        ensures !HasId(r.rest, opp[i].id)
      {
        SuffixDrops(r.rest, opp, i);
      }
    }
  }

  /** The same for a whole book: no resting order, on either side, is traded through. */
  lemma {:induction false} NoTradeThrough(b: Book, t: Ticket)
    requires WellFormed(b) && !Rests(b, t.id)
    ensures var m := Process(b, t);
            var s := t.side.Opposite();
            && |m.fills| <= |b.On(s)|
            && (forall i | 0 <= i < |m.fills| :: m.fills[i].maker == b.On(s)[i] && Accepts(t, m.fills[i].maker.price))
            && (forall i, j | 0 <= i < j < |m.fills| ::
              AtLeastAsGood(s, m.fills[i].maker.price, m.fills[j].maker.price))
            && (forall i | 0 <= i < |m.fills| - 1 :: m.fills[i].qty == b.On(s)[i].qty && !Rests(m.book, b.On(s)[i].id))
            && (forall i, k | 0 <= i < |m.fills| && 0 <= k < |m.book.On(s)| ::
                  AtLeastAsGood(s, m.fills[i].maker.price, m.book.On(s)[k].price))
  {
    var s := t.side.Opposite();
    var opp := b.On(s);
    var m := Process(b, t);
    var r := Sweep(opp, t, t.qty);
    SweepInPriorityOrder(s, opp, t, t.qty);
    if m.fills != [] {
      assert m.book.On(s) == r.rest && m.fills == r.fills;
      forall i | 0 <= i < |m.fills| - 1
        ensures !Rests(m.book, opp[i].id)
      {
        OwnSideUntouched(b, t, i);
      }
    }
  }

  /** Matching never files an opposite order's id on the taker's own side. */
  lemma {:induction false} OwnSideUntouched(b: Book, t: Ticket, i: nat)
    requires WellFormed(b) && !Rests(b, t.id) && i < |b.On(t.side.Opposite())|
    ensures !HasId(Process(b, t).book.On(t.side), b.On(t.side.Opposite())[i].id)
  {
    var opp := b.On(t.side.Opposite());
    var left := Sweep(opp, t, t.qty).left;
    DistinctSides(b, t.side.Opposite(), i);
    if t.kind.LIMIT? && left > 0.0 {
      assert HasId(opp, opp[i].id);
      QueueInsert(t.side, b.On(t.side), t.(qty := left));
    }
  }

  // ----- The answer to an order, in prices and quantities alone

  /** Which orders are filled, by how much, and why no more: only the book before and the order are
      mentioned. A FOK order is filled completely or not at all. */
  lemma {:induction false} FillsAre(b: Book, t: Ticket)
    requires WellFormed(b)
    ensures var fills, opp := Process(b, t).fills, b.On(t.side.Opposite());
            var n := |fills|;
            && n <= |opp|
            && (forall i | 0 <= i < n ::
                  && fills[i].maker == opp[i] && Depth(opp[..i]) < t.qty
                  && fills[i].qty == Min(opp[i].qty, t.qty - Depth(opp[..i]))
                  && (t.kind.MARKET? || if t.side.BUY? then opp[i].price <= t.price else opp[i].price >= t.price))
            && (n == |opp| || Depth(opp[..n]) >= t.qty
                || !(t.kind.MARKET? || if t.side.BUY? then opp[n].price <= t.price else opp[n].price >= t.price)
                || (n == 0 && (t.kind.FOK? || IsTrigger(t.kind))))
            && (t.kind.FOK? && n > 0 ==> Depth(opp[..n]) >= t.qty)
            && (IsTrigger(t.kind) ==> n == 0)
  {
    var opp := b.On(t.side.Opposite());
    SidesQueue(b, t.side.Opposite());
    SweepFillsAre(opp, t);
    ProcessFills(b, t);
    if Depth(Capped(opp, t, t.qty)) >= t.qty { FokCovers(opp, t); }
    hide Process, Sweep, Depth, Capped, WellFormed, Queue, Min, Positive, Sorted;
  }

  lemma {:induction false} ProcessFills(b: Book, t: Ticket)
    ensures var opp := b.On(t.side.Opposite());
            Process(b, t).fills ==
            if IsTrigger(t.kind) || (t.kind.FOK? && Depth(Capped(opp, t, t.qty)) < t.qty) then []
            else Sweep(opp, t, t.qty).fills
  {
  }

  lemma {:induction false} SidesQueue(b: Book, s: Side)
    requires WellFormed(b)
    ensures Queue(s, b.On(s)) && Positive(b.On(s)) && Sorted(s, b.On(s))
  {
  }

  lemma {:induction false} SweepFillsAre(opp: seq<Ticket>, t: Ticket)
    requires Positive(opp)
    ensures var fills := Sweep(opp, t, t.qty).fills;
            var n := |fills|;
            && n <= |opp|
            && (forall i | 0 <= i < n ::
                  && fills[i].maker == opp[i] && Depth(opp[..i]) < t.qty
                  && fills[i].qty == Min(opp[i].qty, t.qty - Depth(opp[..i]))
                  && (t.kind.MARKET? || if t.side.BUY? then opp[i].price <= t.price else opp[i].price >= t.price))
            && (n == |opp| || Depth(opp[..n]) >= t.qty
                || !(t.kind.MARKET? || if t.side.BUY? then opp[n].price <= t.price else opp[n].price >= t.price))
  {
    SweepIsPriorityFill(opp, t, t.qty);
    hide Sweep, Depth;
  }

  lemma {:induction false} FokCovers(opp: seq<Ticket>, t: Ticket)
    requires Positive(opp) && Depth(Capped(opp, t, t.qty)) >= t.qty
    ensures var n := |Sweep(opp, t, t.qty).fills|; n <= |opp| && (n > 0 ==> Depth(opp[..n]) >= t.qty)
  {
    CappedDepth(opp, t, t.qty);
    SweptDepth(opp, t, t.qty);
  }

  /** What was swept without a remainder is covered by the makers. */
  lemma {:induction false} SweptDepth(opp: seq<Ticket>, t: Ticket, q: real)
    requires Positive(opp)
    ensures var r := Sweep(opp, t, q);
            var n := |r.fills|;
            n <= |opp| && (r.left <= 0.0 ==> Depth(opp[..n]) >= q || n == 0)
            && (n == 0 ==> r.left == q)
  {
    hide Accepts;
    if opp != [] && q > 0.0 && Accepts(t, opp[0].price) {
      DepthPrefix(opp, 1);
      assert Depth(opp[1..][..0]) == 0.0;
      if opp[0].qty <= q {
        SweptDepth(opp[1..], t, q - opp[0].qty);
        var n := |Sweep(opp, t, q).fills|;
        DepthPrefix(opp, n);
      }
    }
  }

  /** Where everything ends up: filled orders are gone, the last one may keep a rest at the head, and what
      a LIMIT order has left stands on its own side, at its own price, behind every order at least as good. */
  lemma {:induction false} BookAfter(b: Book, t: Ticket) returns (k: nat)
    requires WellFormed(b)
    ensures var m, opp, own := Process(b, t), b.On(t.side.Opposite()), b.On(t.side);
            var n := |m.fills|;
            && n <= |opp|
            && m.book.On(t.side.Opposite()) ==
               (if n == 0 then opp
                else if m.fills[n - 1].qty == opp[n - 1].qty then opp[n..]
                else [opp[n - 1].(qty := opp[n - 1].qty - m.fills[n - 1].qty)] + opp[n..])
            && (t.kind.LIMIT? && m.left > 0.0 ==>
                  && k <= |own| && m.book.On(t.side) == own[..k] + [t.(qty := m.left)] + own[k..]
                  && (forall i | 0 <= i < |own| ::
                        i < k <==> if t.side.BUY? then own[i].price >= t.price else own[i].price <= t.price))
            && (!(t.kind.LIMIT? && m.left > 0.0) ==> m.book.On(t.side) == own)
  {
    var opp, own := b.On(t.side.Opposite()), b.On(t.side);
    SidesQueue(b, t.side);
    SidesQueue(b, t.side.Opposite());
    hide WellFormed, Queue;
    OppositeAfter(opp, t, t.qty);
    k := OwnAfter(own, t.(qty := Sweep(opp, t, t.qty).left));
    hide Sweep, Insert, Capped, Depth, Sorted, Positive;
  }

  lemma {:induction false} OppositeAfter(opp: seq<Ticket>, t: Ticket, q: real)
    requires Positive(opp)
    ensures var r := Sweep(opp, t, q);
            var n := |r.fills|;
            && n <= |opp|
            && r.rest == if n == 0 then opp
                         else if r.fills[n - 1].qty == opp[n - 1].qty then opp[n..]
                         else [opp[n - 1].(qty := opp[n - 1].qty - r.fills[n - 1].qty)] + opp[n..]
  {
    var r := Sweep(opp, t, q);
    SweepRest(opp, t, q);
    if r.fills != [] { RemainingIs(opp, |r.fills|, r.fills[|r.fills| - 1].qty); }
    hide Sweep, Remaining;
  }

  lemma {:induction false} OwnAfter(own: seq<Ticket>, t: Ticket) returns (k: nat)
    requires Sorted(t.side, own)
    ensures k <= |own| && Insert(own, t) == own[..k] + [t] + own[k..]
    ensures forall i | 0 <= i < |own| ::
              i < k <==> if t.side.BUY? then own[i].price >= t.price else own[i].price <= t.price
  {
    k := InsertSplits(own, t);
    hide Insert;
  }

  lemma {:induction false} RemainingIs(opp: seq<Ticket>, n: nat, q: real)
    requires 0 < n <= |opp|
    ensures Remaining(opp[n - 1..], q) ==
            if q == opp[n - 1].qty then opp[n..] else [opp[n - 1].(qty := opp[n - 1].qty - q)] + opp[n..]
  {
    assert opp[n - 1..][1..] == opp[n..];
  }

  // ----- Conservation

  lemma {:induction false} SweepConserves(opp: seq<Ticket>, t: Ticket, q: real)
    requires Positive(opp) && q >= 0.0
    ensures var r := Sweep(opp, t, q);
            && TradedQuantity(r.fills) + r.left == q
            && Depth(r.rest) + TradedQuantity(r.fills) == Depth(opp)
  {
    if opp == [] || q <= 0.0 || !Accepts(t, opp[0].price) {
    } else if opp[0].qty <= q {
      SweepConserves(opp[1..], t, q - opp[0].qty);
      var tail := Sweep(opp[1..], t, q - opp[0].qty);
      assert Sweep(opp, t, q).fills[1..] == tail.fills;
    } else {
      var r := Sweep(opp, t, q);
      assert r.rest[1..] == opp[1..] && r.fills[1..] == [];
    }
  }

  /** Traded plus rested or discarded is what was submitted; the opposite side loses exactly what was
      traded, the own side gains exactly what a LIMIT order leaves over. */
  lemma {:induction false} Conservation(b: Book, t: Ticket)
    requires WellFormed(b) && t.qty > 0.0 && !Rests(b, t.id)
    ensures var m := Process(b, t);
            && TradedQuantity(m.fills) + m.left == t.qty && m.left >= 0.0
            && Depth(m.book.On(t.side.Opposite())) == Depth(b.On(t.side.Opposite())) - TradedQuantity(m.fills)
            && Depth(m.book.On(t.side)) == Depth(b.On(t.side)) + if t.kind.LIMIT? then m.left else 0.0
  {
    var opp := b.On(t.side.Opposite());
    SweepConserves(opp, t, t.qty);
    SweepExhausts(opp, t, t.qty);
    var r := Sweep(opp, t, t.qty);
    if t.kind.LIMIT? && r.left > 0.0 {
      QueueInsert(t.side, b.On(t.side), t.(qty := r.left));
    }
  }

  // ----- Order types compared

  lemma {:induction false} CappedDepth(opp: seq<Ticket>, t: Ticket, q: real)
    requires Positive(opp)
    ensures Depth(Capped(opp, t, q)) >= q <==> Depth(Acceptable(opp, t)) >= q
    ensures Depth(Acceptable(opp, t)) >= q && q >= 0.0 <==> Sweep(opp, t, q).left == 0.0 && q >= 0.0
  {
    DepthNonNegative(opp);
    AcceptablePositive(opp, t);
    DepthNonNegative(Acceptable(opp, t));
    if opp == [] || !Accepts(t, opp[0].price) {
    } else if q > 0.0 {
      CappedDepth(opp[1..], t, q - opp[0].qty);
      assert Acceptable(opp, t)[1..] == Acceptable(opp[1..], t);
      assert Capped(opp, t, q)[1..] == Capped(opp[1..], t, q - opp[0].qty);
      AcceptablePositive(opp[1..], t);
      DepthNonNegative(Acceptable(opp[1..], t));
    }
  }

  lemma {:induction false} AcceptablePositive(opp: seq<Ticket>, t: Ticket)
    requires Positive(opp)
    ensures Positive(Acceptable(opp, t))
  {
    if opp != [] && Accepts(t, opp[0].price) {
      AcceptablePositive(opp[1..], t);
    }
  }

  /** Fill-or-kill fills completely if and only if all the acceptable depth, uncapped, covers the
      quantity; then it is an IOC order, and otherwise nothing happens. */
  lemma {:induction false} FokExact(b: Book, t: Ticket)
    requires WellFormed(b) && t.kind.FOK? && t.qty > 0.0
    ensures var m := Process(b, t);
            var enough := Depth(Acceptable(b.On(t.side.Opposite()), t)) >= t.qty;
            && (m.left == 0.0 <==> enough)
            && (TradedQuantity(m.fills) == t.qty <==> enough)
            && (enough ==> m == Process(b, t.(kind := IOC)))
            && (enough <==> Process(b, t.(kind := IOC)).left == 0.0)
            && (!enough ==> m.book == b && m.fills == [])
  {
    var opp := b.On(t.side.Opposite());
    CappedDepth(opp, t, t.qty);
    SweepConserves(opp, t, t.qty);
    SameAcceptance(opp, t, t.(kind := IOC), t.qty);
  }

  /** A sweep depends on the taker only through the prices it accepts on the list. */
  lemma {:induction false} SameAcceptance(opp: seq<Ticket>, t: Ticket, u: Ticket, q: real)
    requires forall i | 0 <= i < |opp| :: Accepts(t, opp[i].price) <==> Accepts(u, opp[i].price)
    ensures Sweep(opp, t, q) == Sweep(opp, u, q)
  {
    if opp != [] {
      SameAcceptance(opp[1..], t, u, q - opp[0].qty);
    }
  }

  /** LIMIT trades like IOC; the books differ by the rested remainder only. */
  lemma {:induction false} LimitIsIocPlusRemainder(b: Book, t: Ticket)
    requires t.kind.LIMIT?
    ensures var l, i := Process(b, t), Process(b, t.(kind := IOC));
            && l.fills == i.fills && l.left == i.left
            && l.book == if i.left > 0.0 then Add(i.book, t.(qty := i.left)) else i.book
  {
    SameAcceptance(b.On(t.side.Opposite()), t, t.(kind := IOC), t.qty);
  }

  /** MARKET is IOC at a limit every opposite order satisfies. */
  lemma {:induction false} MarketIsUnlimitedIoc(b: Book, t: Ticket, limit: real)
    requires t.kind.MARKET?
    requires forall i | 0 <= i < |b.On(t.side.Opposite())| ::
             AtLeastAsGood(t.side, limit, b.On(t.side.Opposite())[i].price)
    ensures Process(b, t) == Process(b, t.(kind := IOC, price := limit))
  {
    SameAcceptance(b.On(t.side.Opposite()), t, t.(kind := IOC, price := limit), t.qty);
  }

  // ----- Splitting an order

  /** Two executions of the same total: same quantity with every maker, same total fees. */
  ghost predicate SameTotals(one: seq<Fill>, first: seq<Fill>, second: seq<Fill>, policy: FeePolicy) {
    && (forall id :: TradedWith(one, id) == TradedWith(first, id) + TradedWith(second, id))
    && MakerFees(one, policy) == MakerFees(first, policy) + MakerFees(second, policy)
    && TakerFees(one, policy) == TakerFees(first, policy) + TakerFees(second, policy)
  }

  lemma {:induction false} TotalsCons(f: Fill, tail: seq<Fill>, policy: FeePolicy)
    ensures forall id :: TradedWith([f] + tail, id) == (if f.maker.id == id then f.qty else 0.0) + TradedWith(tail, id)
    ensures MakerFees([f] + tail, policy) == Fee(f.maker.price, f.qty, policy.Rates(f.maker.symbol).makerFee) +
            MakerFees(tail, policy)
    ensures TakerFees([f] + tail, policy) == Fee(f.maker.price, f.qty, policy.Rates(f.maker.symbol).takerFee) +
            TakerFees(tail, policy)
  {
    assert ([f] + tail)[1..] == tail;
  }

  /** One maker's fill, split in two at the same price. */
  lemma {:induction false} SplitFill(maker: Ticket, a: real, b: real, tail: seq<Fill>, policy: FeePolicy)
    ensures SameTotals([Fill(maker, a + b)] + tail, [Fill(maker, a)], [Fill(maker.(qty := maker.qty - a), b)] + tail,
            policy)
  {
    FeeAdditive(maker.price, a, b, policy.Rates(maker.symbol).makerFee);
    FeeAdditive(maker.price, a, b, policy.Rates(maker.symbol).takerFee);
    TotalsCons(Fill(maker, a + b), tail, policy);
    TotalsCons(Fill(maker.(qty := maker.qty - a), b), tail, policy);
    TotalsCons(Fill(maker, a), [], policy);
    assert [Fill(maker, a)] == [Fill(maker, a)] + [];
  }

  lemma {:induction false} SameTotalsCons(f: Fill, one: seq<Fill>, first: seq<Fill>, second: seq<Fill>,
                                          policy: FeePolicy)
    requires SameTotals(one, first, second, policy)
    ensures SameTotals([f] + one, [f] + first, second, policy)
  {
    assert ([f] + one)[1..] == one && ([f] + first)[1..] == first;
  }

  ghost predicate Splits(opp: seq<Ticket>, t: Ticket, a: real, b: real, policy: FeePolicy) {
    var one := Sweep(opp, t, a + b);
    var first := Sweep(opp, t, a);
    var second := Sweep(first.rest, t, b);
    && one.rest == second.rest
    && one.left == first.left + second.left
    && SameTotals(one.fills, first.fills, second.fills, policy)
  }

  /** The first part ends inside the first maker, and so does the second. */
  lemma {:induction false} SplitsInsideHead(opp: seq<Ticket>, t: Ticket, a: real, b: real, policy: FeePolicy)
    requires opp != [] && Accepts(t, opp[0].price) && 0.0 < a && b > 0.0 && a + b < opp[0].qty
    ensures Splits(opp, t, a, b, policy)
  {
    var head := opp[0];
    var reduced := head.(qty := head.qty - a);
    var rest := [reduced] + opp[1..];
    assert Sweep(opp, t, a) == Outcome([Fill(head, a)], rest, 0.0);
    assert rest[1..] == opp[1..];
    assert head.(qty := head.qty - (a + b)) == reduced.(qty := reduced.qty - b);
    SplitFill(head, a, b, [], policy);
    assert [Fill(head, a + b)] + [] == [Fill(head, a + b)];
    assert [Fill(reduced, b)] + [] == [Fill(reduced, b)];
  }

  /** The first part ends inside the first maker, the second takes the rest of it. */
  lemma {:induction false} SplitsAcrossHead(opp: seq<Ticket>, t: Ticket, a: real, b: real, policy: FeePolicy)
    requires opp != [] && Accepts(t, opp[0].price) && 0.0 < a < opp[0].qty <= a + b
    ensures Splits(opp, t, a, b, policy)
  {
    var head := opp[0];
    var reduced := head.(qty := head.qty - a);
    var rest := [reduced] + opp[1..];
    assert Sweep(opp, t, a) == Outcome([Fill(head, a)], rest, 0.0);
    assert rest[1..] == opp[1..] && rest[0] == reduced;
    var tail := Sweep(opp[1..], t, a + b - head.qty);
    assert a + b - head.qty == b - reduced.qty;
    assert Sweep(rest, t, b) == Outcome([Fill(reduced, reduced.qty)] + tail.fills, tail.rest, tail.left);
    SplitFill(head, a, head.qty - a, tail.fills, policy);
  }

  /** Sweeping a + b is sweeping a, then b: same list, same remainder, same quantity for every maker,
      same total fees. */
  lemma {:induction false} SweepSplits(opp: seq<Ticket>, t: Ticket, a: real, b: real, policy: FeePolicy)
    requires Positive(opp) && a >= 0.0 && b > 0.0
    ensures Splits(opp, t, a, b, policy)
  {
    if opp == [] || !Accepts(t, opp[0].price) || a == 0.0 {
      assert Sweep(opp, t, a) == Outcome([], opp, a);
    } else if opp[0].qty > a + b {
      SplitsInsideHead(opp, t, a, b, policy);
    } else if opp[0].qty > a {
      SplitsAcrossHead(opp, t, a, b, policy);
    } else {
      assert (a - opp[0].qty) + b == a + b - opp[0].qty;
      SweepSplits(opp[1..], t, a - opp[0].qty, b, policy);
      SplitsBehindHead(opp, t, a, b, policy);
    }
    hide SameTotals;
  }

  /** The first part takes the whole first maker. */
  lemma {:induction false} SplitsBehindHead(opp: seq<Ticket>, t: Ticket, a: real, b: real, policy: FeePolicy)
    requires opp != [] && Accepts(t, opp[0].price) && 0.0 < opp[0].qty <= a && b > 0.0
    requires Splits(opp[1..], t, a - opp[0].qty, b, policy)
    ensures Splits(opp, t, a, b, policy)
  {
    var head := opp[0];
    var f := Fill(head, head.qty);
    var tail, all := Sweep(opp[1..], t, a - head.qty), Sweep(opp[1..], t, a + b - head.qty);
    assert (a - head.qty) + b == a + b - head.qty;
    assert Sweep(opp, t, a) == Outcome([f] + tail.fills, tail.rest, tail.left);
    assert Sweep(opp, t, a + b) == Outcome([f] + all.fills, all.rest, all.left);
    hide Sweep, SameTotals, Accepts;
    SameTotalsCons(f, all.fills, tail.fills, Sweep(tail.rest, t, b).fills, policy);
  }

  /** The same for whole orders: a MARKET or IOC order of a + b against one of a followed by one of b. */
  lemma {:induction false} OrderSplitting(bk: Book, t: Ticket, u: Ticket, a: real, b: real, policy: FeePolicy)
    requires WellFormed(bk) && a > 0.0 && b > 0.0
    requires t.kind.MARKET? || t.kind.IOC?
    requires t.side == u.side && t.kind == u.kind && t.price == u.price
    ensures var one := Process(bk, t.(qty := a + b));
            var first := Process(bk, t.(qty := a));
            var second := Process(first.book, u.(qty := b));
            && one.book == second.book
            && one.left == first.left + second.left
            && SameTotals(one.fills, first.fills, second.fills, policy)
  {
    hide Sweep, SameTotals, WellFormed;
    var opp := bk.On(t.side.Opposite());
    assert Positive(opp) by { SidesQueue(bk, t.side.Opposite()); }
    SweepSplits(opp, t, a, b, policy);
    SameAcceptance(opp, t, t.(qty := a + b), a + b);
    SameAcceptance(opp, t, t.(qty := a), a);
    SameAcceptance(Sweep(opp, t, a).rest, t, u.(qty := b), b);
  }

  // ----- The book stays well formed and uncrossed

  lemma {:induction false} InsertHead(l: seq<Ticket>, t: Ticket)
    ensures Insert(l, t) != []
    ensures Insert(l, t)[0] == t || (l != [] && Insert(l, t)[0] == l[0])
  {
  }

  lemma {:induction false} SweptWellFormed(b: Book, s: Side, rest: seq<Ticket>)
    requires WellFormed(b) && Suffix(rest, b.On(s))
    ensures WellFormed(b.With(s, rest))
    ensures forall id :: Rests(b.With(s, rest), id) ==> Rests(b, id)
  {
    SuffixKeepsQueue(s, rest, b.On(s));
    var k := |b.On(s)| - |rest|;
    assert forall i | 0 <= i < |rest| :: rest[i].id == b.On(s)[k + i].id;
  }

  /** A LIMIT order that the acceptable depth does not cover: the only kind whose id rests afterwards. */
  predicate LeavesRemainder(b: Book, t: Ticket) {
    t.kind.LIMIT? && Depth(Acceptable(b.On(t.side.Opposite()), t)) < t.qty
  }

  lemma {:induction false} RemainderIs(b: Book, t: Ticket)
    requires WellFormed(b)
    ensures t.kind.LIMIT? && Sweep(b.On(t.side.Opposite()), t, t.qty).left > 0.0 <==> LeavesRemainder(b, t)
    ensures LeavesRemainder(b, t) ==> t.qty > 0.0
  {
    var opp := b.On(t.side.Opposite());
    AcceptablePositive(opp, t);
    DepthNonNegative(Acceptable(opp, t));
    hide Acceptable, Depth;
    if t.qty >= 0.0 {
      CappedDepth(opp, t, t.qty);
      SweepExhausts(opp, t, t.qty);
      hide Sweep;
    }
  }

  /** An order without a positive quantity changes nothing. */
  lemma {:induction false} EmptyOrder(b: Book, t: Ticket)
    requires t.qty <= 0.0
    ensures Process(b, t).book == b && Process(b, t).fills == []
  {
  }

  function Swept(b: Book, t: Ticket): Book {
    b.With(t.side.Opposite(), Sweep(b.On(t.side.Opposite()), t, t.qty).rest)
  }

  lemma {:induction false} SweptIsWellFormed(b: Book, t: Ticket)
    requires WellFormed(b)
    ensures WellFormed(Swept(b, t)) && forall id :: Rests(Swept(b, t), id) ==> Rests(b, id)
  {
    SweepLeavesSuffix(b.On(t.side.Opposite()), t, t.qty);
    hide Sweep, Suffix;
    SweptWellFormed(b, t.side.Opposite(), Sweep(b.On(t.side.Opposite()), t, t.qty).rest);
  }

  /** The three things that can become of a book. */
  lemma {:induction false} ProcessIs(b: Book, t: Ticket) returns (left: real)
    requires WellFormed(b)
    ensures if LeavesRemainder(b, t) then left > 0.0 && Process(b, t).book == Add(Swept(b, t), t.(qty := left))
            else Process(b, t).book == b || Process(b, t).book == Swept(b, t)
  {
    RemainderIs(b, t);
    left := Sweep(b.On(t.side.Opposite()), t, t.qty).left;
    hide Sweep, LeavesRemainder, Depth, Capped, WellFormed;
  }

  lemma {:induction false} ProcessKeepsWellFormed(b: Book, t: Ticket)
    requires WellFormed(b) && !Rests(b, t.id)
    ensures WellFormed(Process(b, t).book)
    ensures forall id :: Rests(Process(b, t).book, id) ==> Rests(b, id) || (id == t.id && LeavesRemainder(b, t))
    ensures LeavesRemainder(b, t) ==> Rests(Process(b, t).book, t.id)
  {
    hide Process, Swept, Add, WellFormed, Rests, LeavesRemainder;
    SweptIsWellFormed(b, t);
    var left := ProcessIs(b, t);
    if LeavesRemainder(b, t) {
      AddKeepsWellFormed(Swept(b, t), t.(qty := left));
    }
  }

  lemma {:induction false} SweptIsUncrossed(b: Book, t: Ticket)
    requires WellFormed(b) && Uncrossed(b)
    ensures Uncrossed(Swept(b, t))
  {
    var s := t.side.Opposite();
    SweepKeepsQueue(s, b.On(s), t, t.qty);
    hide Sweep, Sorted, Unique;
  }

  /** What rests of a LIMIT order does not cross what is left of the other side. */
  lemma {:induction false} RemainderIsUncrossed(b: Book, t: Ticket, left: real)
    requires WellFormed(b) && Uncrossed(b) && LeavesRemainder(b, t) && left > 0.0
    ensures Uncrossed(Add(Swept(b, t), t.(qty := left)))
  {
    var opp := b.On(t.side.Opposite());
    SweptIsUncrossed(b, t);
    RemainderIs(b, t);
    SweepExhausts(opp, t, t.qty);
    InsertHead(b.On(t.side), t.(qty := left));
    hide WellFormed, Sweep, Insert, LeavesRemainder;
  }

  /** No order, of any type, leaves the book crossed. */
  lemma {:induction false} ProcessKeepsUncrossed(b: Book, t: Ticket)
    requires WellFormed(b) && Uncrossed(b)
    ensures Uncrossed(Process(b, t).book)
  {
    hide Process, Swept, Add, WellFormed, Uncrossed, LeavesRemainder;
    SweptIsUncrossed(b, t);
    var left := ProcessIs(b, t);
    if LeavesRemainder(b, t) { RemainderIsUncrossed(b, t, left); }
  }
}
