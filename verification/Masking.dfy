/** include/utils/ring_buffer.h: masking an index with a power of two less one. */
module Masking {
  function Pow2(k: nat): (p: nat)
    ensures p > 0
  {
    if k == 0 then 1 else 2 * Pow2(k - 1)
  }

  /** Bitwise and. */
  function And(a: nat, b: nat): nat {
    if a == 0 || b == 0 then 0 else (a % 2) * (b % 2) + 2 * And(a / 2, b / 2)
  }

  lemma {:induction false} TimesAtLeastOne(d: int, m: nat)
    ensures d >= 1 ==> d * m >= m
    ensures d <= -1 ==> d * m + m <= 0
  {
  }

  lemma {:induction false} ModIs(x: int, m: nat, q: int, r: int)
    requires m > 0 && x == q * m + r && 0 <= r < m
    ensures x % m == r
  {
    var q', r' := x / m, x % m;
    assert x == q' * m + r';
    var d := q - q';
    assert d * m == q * m - q' * m;
    TimesAtLeastOne(d, m);
  }

  lemma {:induction false} HalfMod(x: nat, p: nat)
    requires p > 0
    ensures x % (2 * p) == 2 * ((x / 2) % p) + x % 2
  {
    var y := x / 2;
    var q, s := y / p, y % p;
    assert y == q * p + s;
    assert x == 2 * y + x % 2;
    assert 2 * (q * p) == q * (2 * p);
    ModIs(x, 2 * p, q, 2 * s + x % 2);
  }

  lemma {:induction false} AndHalves(x: nat, p: nat)
    requires p > 0
    ensures And(x, 2 * p - 1) == if x == 0 then 0 else x % 2 + 2 * And(x / 2, p - 1)
  {
    var b := 2 * p - 1;
    assert b % 2 == 1 && b / 2 == p - 1;
    if x > 0 {
      assert And(x, b) == (x % 2) * (b % 2) + 2 * And(x / 2, b / 2);
      assert (x % 2) * 1 == x % 2;
    }
  }

  /** `x & (Size - 1)` is `x % Size` when Size is a power of two. */
  lemma {:induction false} MaskIsMod(x: nat, k: nat)
    ensures And(x, Pow2(k) - 1) == x % Pow2(k)
  {
    if k > 0 {
      var p := Pow2(k - 1);
      var b := Pow2(k) - 1;
      MaskIsMod(x / 2, k - 1);
      HalfMod(x, p);
      AndHalves(x, p);
      if x == 0 { ModIs(0, Pow2(k), 0, 0); }
      hide And;
    }
  }

  /** The slot of a running counter. */
  function Index(n: nat, k: nat): (i: nat)
    ensures i < Pow2(k)
  {
    n % Pow2(k)
  }

  lemma {:induction false} ModStep(n: nat, s: nat)
    requires s > 0
    ensures (n % s + 1) % s == (n + 1) % s
  {
    var q, r := n / s, n % s;
    assert n == q * s + r;
    if r + 1 < s {
      ModIs(n + 1, s, q, r + 1);
      ModIs(r + 1, s, 0, r + 1);
    } else {
      assert (q + 1) * s == q * s + s && r + 1 == s;
      ModIs(n + 1, s, q + 1, 0);
      ModIs(r + 1, s, 1, 0);
    }
  }

  /** Counters less than a whole turn apart have the same index only if they are equal. */
  lemma {:induction false} ModDistinct(a: nat, b: nat, s: nat)
    requires a <= b <= a + s && s > 0
    ensures a % s == b % s <==> a == b || b == a + s
  {
    var q, r, d := a / s, a % s, b - a;
    assert a == q * s + r;
    if d == s {
      assert b == (q + 1) * s + r;
      ModIs(b, s, q + 1, r);
    } else if r + d < s {
      ModIs(b, s, q, r + d);
    } else {
      assert b == (q + 1) * s + (r + d - s);
      ModIs(b, s, q + 1, r + d - s);
    }
  }
}
