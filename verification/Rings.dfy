/** include/utils/ring_buffer.h: the same code run by one thread at a time: a bounded FIFO queue of Size - 1 items. */
module Rings {
  import opened Orders
  import opened Masking

  /** Subtraction of size_t values wraps around. */
  const SIZE_T := 0x1_0000_0000_0000_0000

  function WrapSub(a: nat, b: nat): (r: nat)
    requires a < SIZE_T && b < SIZE_T
    ensures r < SIZE_T
  {
    (a - b) % SIZE_T
  }

  /** Reducing by a multiple first does not change the remainder. */
  lemma {:induction false} ModOfMod(x: int, s: nat, m: nat)
    requires s > 0 && m > 0
    ensures (x % (m * s)) % s == x % s
  {
    var q, y := x / (m * s), x % (m * s);
    assert x == q * (m * s) + y;
    var q', r := y / s, y % s;
    assert y == q' * s + r;
    assert q * (m * s) == (q * m) * s;
    assert (q * m) * s + q' * s == (q * m + q') * s;
    ModIs(x, s, q * m + q', r);
  }

  lemma {:induction false} TimesTwo(a: nat, b: nat)
    ensures 2 * (a * b) == (2 * a) * b
  {
  }

  lemma {:induction false} Pow2Splits(a: nat, b: nat)
    ensures Pow2(a + b) == Pow2(a) * Pow2(b)
  {
    if a > 0 {
      Pow2Splits(a - 1, b);
      assert Pow2(a) == 2 * Pow2(a - 1) && Pow2(a + b) == 2 * Pow2(a - 1 + b);
      hide Pow2;
      TimesTwo(Pow2(a - 1), Pow2(b));
    } else {
      assert Pow2(a) == 1;
    }
  }

  lemma {:induction false} Pow2Of64()
    ensures Pow2(64) == SIZE_T
  {
    hide Pow2;
    Pow2Splits(16, 48);
    Pow2Splits(16, 32);
    Pow2Splits(16, 16);
    Pow2Splits(8, 8);
    Pow2Of8();
  }

  lemma {:induction false} Pow2Of8()
    ensures Pow2(8) == 256
  {
  }

  lemma {:induction false} Pow2Fits(k: nat)
    requires k <= 64
    ensures Pow2(k) <= SIZE_T
  {
    Pow2Splits(64 - k, k);
    Pow2Of64();
    TimesAtLeastOne(Pow2(64 - k), Pow2(k));
  }

  /** head - tail, wrapped and masked, is the number of items between them. */
  lemma {:induction false} MaskedDistance(tail: nat, count: nat, k: nat)
    requires k <= 64 && tail < Pow2(k) && count < Pow2(k) && Pow2(k) <= SIZE_T
    ensures var head := (tail + count) % Pow2(k);
            And(WrapSub(head, tail), Pow2(k) - 1) == count
  {
    var s := Pow2(k);
    var head := (tail + count) % s;
    var d := WrapSub(head, tail);
    MaskIsMod(d, k);
    Pow2Splits(64 - k, k);
    Pow2Of64();
    ModOfMod(head - tail, s, Pow2(64 - k));
    if tail + count < s {
      ModIs(tail + count, s, 0, tail + count);
      ModIs(head - tail, s, 0, count);
    } else {
      ModIs(tail + count, s, 1, tail + count - s);
      ModIs(head - tail, s, -1, count);
    }
  }

  lemma {:induction false} Shift(a: nat, i: nat, s: nat)
    requires s > 0
    ensures (a % s + i) % s == (a + i) % s
  {
    var q, r := a / s, a % s;
    assert a == q * s + r;
    var q', r' := (r + i) / s, (r + i) % s;
    assert r + i == q' * s + r';
    TimesSum(q, q', s);
    ModIs(a + i, s, q + q', r');
  }

  lemma {:induction false} TimesSum(a: int, b: int, c: int)
    ensures (a + b) * c == a * c + b * c
  {
  }

  /** The slots from `tail` on hold these items, in order, around the end of the buffer. */
  ghost predicate Stores<T>(slots: seq<T>, tail: nat, items: seq<T>, k: nat)
    requires |slots| == Pow2(k)
  {
    forall i | 0 <= i < |items| :: slots[Index(tail + i, k)] == items[i]
  }

  lemma {:induction false} HoldsOneMore<T>(slots: seq<T>, tail: nat, items: seq<T>, k: nat, item: T)
    requires |slots| == Pow2(k) && Stores(slots, tail, items, k) && |items| < Pow2(k)
    ensures Stores(slots[Index(tail + |items|, k) := item], tail, items + [item], k)
  {
    hide Index;
    var j := Index(tail + |items|, k);
    var more := items + [item];
    forall i | 0 <= i < |more|
      ensures slots[j := item][Index(tail + i, k)] == more[i]
    {
      if i < |items| {
        NotTheSame(tail, i, |items|, k);
        assert slots[Index(tail + i, k)] == items[i];
      }
    }
  }

  lemma {:induction false} NotTheSame(tail: nat, i: nat, n: nat, k: nat)
    requires i < n < Pow2(k)
    ensures Index(tail + i, k) != Index(tail + n, k)
  {
    ModDistinct(tail + i, tail + n, Pow2(k));
  }

  lemma {:induction false} IndexOfIndex(a: nat, i: nat, k: nat)
    ensures Index(Index(a, k) + i, k) == Index(a + i, k)
  {
    Shift(a, i, Pow2(k));
  }

  lemma {:induction false} HoldsOneLess<T>(slots: seq<T>, tail: nat, items: seq<T>, k: nat)
    requires |slots| == Pow2(k) && Stores(slots, tail, items, k) && items != []
    ensures Stores(slots, Index(tail + 1, k), items[1..], k)
    ensures Index(Index(tail + 1, k) + (|items| - 1), k) == Index(tail + |items|, k)
  {
    hide Index;
    var fewer := items[1..];
    forall i | 0 <= i < |fewer|
      ensures slots[Index(Index(tail + 1, k) + i, k)] == fewer[i]
    {
      IndexOfIndex(tail + 1, i, k);
      assert tail + 1 + i == tail + (i + 1);
      assert slots[Index(tail + (i + 1), k)] == items[i + 1];
    }
    IndexOfIndex(tail + 1, |items| - 1, k);
    assert tail + 1 + (|items| - 1) == tail + |items|;
  }

  /** Behind the last item comes the next slot, which is the first item's exactly when one slot is free. */
  lemma {:induction false} NextSlot(tail: nat, count: nat, k: nat)
    requires tail < Pow2(k) && count < Pow2(k)
    ensures var next := And(Index(tail + count, k) + 1, Pow2(k) - 1);
            next == Index(tail + (count + 1), k) && (next == tail <==> count == Pow2(k) - 1)
  {
    var n, s := tail + count, Pow2(k);
    MaskIsMod(Index(n, k) + 1, k);
    ModStep(n, s);
    ModIs(tail, s, 0, tail);
    if count == s - 1 {
      ModIs(n + 1, s, 1, tail);
    } else {
      ModDistinct(tail, n + 1, s);
    }
  }

  class RingBuffer<T(0)> {
    const k: nat
    const buffer: array<T>
    var head: nat
    var tail: nat
    ghost var contents: seq<T>

    ghost predicate Valid()
      reads this, buffer
    {
      && buffer.Length == Pow2(k) <= SIZE_T && k <= 64
      && tail < Pow2(k) && |contents| < Pow2(k)
      && head == Index(tail + |contents|, k)
      && Stores(buffer[..], tail, contents, k)
    }

    constructor (k: nat)
      requires k <= 64
      ensures Valid() && contents == [] && this.k == k && fresh(buffer)
    {
      this.k := k;
      buffer := new T[Pow2(k)];
      head, tail, contents := 0, 0, [];
      new;
      Pow2Fits(k);
      ModIs(0, Pow2(k), 0, 0);
    }

    method Push(item: T) returns (ok: bool)
      requires Valid()
      modifies this, buffer
      ensures Valid()
      ensures ok <==> |old(contents)| < Pow2(k) - 1
      ensures contents == if ok then old(contents) + [item] else old(contents)
    {
      NextSlot(tail, |contents|, k);
      var nextHead := And(head + 1, Pow2(k) - 1);
      if nextHead == tail { return false; }
      HoldsOneMore(buffer[..], tail, contents, k, item);
      ghost var before := buffer[..];
      buffer[head] := item;
      assert buffer[..] == before[head := item];
      head := nextHead;
      contents := contents + [item];
      return true;
    }

    method Pop() returns (item: Option<T>)
      requires Valid()
      modifies this
      ensures Valid()
      ensures item.None? <==> old(contents) == []
      ensures item.Some? ==> item.value == old(contents)[0] && contents == old(contents)[1..]
      ensures item.None? ==> contents == old(contents)
    {
      ModIs(tail, Pow2(k), 0, tail);
      ModDistinct(tail, tail + |contents|, Pow2(k));
      if tail == head { return None; }
      item := Some(buffer[tail]);
      assert buffer[Index(tail + 0, k)] == contents[0];
      MaskIsMod(tail + 1, k);
      HoldsOneLess(buffer[..], tail, contents, k);
      tail := And(tail + 1, Pow2(k) - 1);
      contents := contents[1..];
    }

    method Empty() returns (empty: bool)
      requires Valid()
      ensures empty <==> contents == []
    {
      ModIs(tail, Pow2(k), 0, tail);
      ModDistinct(tail, tail + |contents|, Pow2(k));
      empty := head == tail;
    }

    method Size() returns (size: nat)
      requires Valid()
      ensures size == |contents|
    {
      MaskedDistance(tail, |contents|, k);
      size := And(WrapSub(head, tail), Pow2(k) - 1);
    }
  }
}
