/** include/utils/rate_limiter.h: the token bucket, in exact arithmetic, with the clock as a parameter. */
module TokenBucket {
  import opened Orders
  import opened Fees

  datatype Limit = Limit(maxBurst: nat, tokensPerSec: real)

  datatype Request = Request(time: real, tokens: nat)

  /** The tokens that a span of time brings. */
  function Accrued(l: Limit, elapsed: real): real {
    elapsed * l.tokensPerSec
  }

  /** Tokens grow with the time that has passed, up to the burst size. */
  function Refill(l: Limit, tokens: real, elapsed: real): real {
    Min(l.maxBurst as real, tokens + Accrued(l, elapsed))
  }

  lemma {:induction false} AccruedAdds(l: Limit, a: real, b: real)
    ensures Accrued(l, a + b) == Accrued(l, a) + Accrued(l, b)
    ensures Accrued(l, 0.0) == 0.0
  {
  }

  lemma {:induction false} AccruedNonNegative(l: Limit, a: real)
    requires a >= 0.0 && l.tokensPerSec >= 0.0
    ensures Accrued(l, a) >= 0.0
  {
  }

  // ----- The bucket over a history. Entry 0 is the construction: a full bucket, nothing asked.

  /** The level right after the refill at request `i`. */
  function LevelAt(l: Limit, h: seq<Request>, i: nat): real
    requires i < |h|
    decreases i, 0
  {
    if i == 0 then l.maxBurst as real
    else Refill(l, LeftAfter(l, h, i - 1), h[i].time - h[i - 1].time)
  }

  predicate Granted(l: Limit, h: seq<Request>, i: nat)
    requires i < |h|
    decreases i, 1
  {
    LevelAt(l, h, i) >= h[i].tokens as real
  }

  function Grant(l: Limit, h: seq<Request>, i: nat): real
    requires i < |h|
    decreases i, 2
  {
    if Granted(l, h, i) then h[i].tokens as real else 0.0
  }

  /** The tokens left after request `i`. */
  function LeftAfter(l: Limit, h: seq<Request>, i: nat): real
    requires i < |h|
    decreases i, 3
  {
    LevelAt(l, h, i) - Grant(l, h, i)
  }

  /** Tokens granted to requests j, ..., i - 1. */
  function GrantedSince(l: Limit, h: seq<Request>, j: nat, i: nat): real
    requires j <= i <= |h|
  {
    if i == j then 0.0 else GrantedSince(l, h, j, i - 1) + Grant(l, h, i - 1)
  }

  /** What the window from refill `j` to refill `i` still allows. */
  function Allowance(l: Limit, h: seq<Request>, j: nat, i: nat): real
    requires j <= i < |h|
  {
    l.maxBurst as real + Accrued(l, h[i].time - h[j].time) - GrantedSince(l, h, j, i)
  }

  /** The steady clock does not run backwards, and a rate is not negative. */
  ghost predicate Sane(l: Limit, h: seq<Request>) {
    l.tokensPerSec >= 0.0 && forall i, j | 0 <= i <= j < |h| :: h[i].time <= h[j].time
  }

  // ----- The exact level

  lemma {:induction false} AllowanceStep(l: Limit, h: seq<Request>, j: nat, i: nat)
    requires j <= i && i + 1 < |h|
    ensures Allowance(l, h, j, i + 1) == Allowance(l, h, j, i) - Grant(l, h, i) + Accrued(l, h[i + 1].time - h[i].time)
  {
    hide Accrued;
    AccruedAdds(l, h[i].time - h[j].time, h[i + 1].time - h[i].time);
    assert (h[i].time - h[j].time) + (h[i + 1].time - h[i].time) == h[i + 1].time - h[j].time;
  }

  /** The level after a refill is the least allowance over all windows that end there. */
  lemma {:induction false} LeastAllowance(l: Limit, h: seq<Request>, i: nat)
    requires i < |h|
    ensures forall j | 0 <= j <= i :: LevelAt(l, h, i) <= Allowance(l, h, j, i)
    ensures exists j :: 0 <= j <= i && LevelAt(l, h, i) == Allowance(l, h, j, i)
  {
    hide Accrued;
    AccruedAdds(l, 0.0, 0.0);
    assert Allowance(l, h, i, i) == l.maxBurst as real;
    if i > 0 {
      LeastAllowance(l, h, i - 1);
      forall j | 0 <= j <= i
        ensures LevelAt(l, h, i) <= Allowance(l, h, j, i)
      {
        if j < i { AllowanceStep(l, h, j, i - 1); }
      }
      if LevelAt(l, h, i) == l.maxBurst as real {
        assert LevelAt(l, h, i) == Allowance(l, h, i, i);
      } else {
        var j :| 0 <= j <= i - 1 && LevelAt(l, h, i - 1) == Allowance(l, h, j, i - 1);
        AllowanceStep(l, h, j, i - 1);
        assert LevelAt(l, h, i) == Allowance(l, h, j, i);
      }
    } else {
      assert LevelAt(l, h, 0) == Allowance(l, h, 0, 0);
    }
  }

  /** An allowance is burst plus rate times length, less what was granted since. */
  lemma {:induction false} AllowanceIs(l: Limit, h: seq<Request>, j: nat, i: nat)
    requires j <= i < |h|
    ensures Allowance(l, h, j, i) ==
            l.maxBurst as real + (h[i].time - h[j].time) * l.tokensPerSec - GrantedSince(l, h, j, i)
  {
  }

  /** What a window grants: the tokens of its granted requests. */
  lemma {:induction false} GrantedSinceIs(l: Limit, h: seq<Request>, j: nat, i: nat)
    requires j <= i < |h|
    ensures GrantedSince(l, h, i, i) == 0.0
    ensures GrantedSince(l, h, j, i + 1) ==
            GrantedSince(l, h, j, i) + if Granted(l, h, i) then h[i].tokens as real else 0.0
  {
  }

  /** The level after a refill is the least, over all windows that end there, of burst plus rate times length
      less what was granted. */
  lemma {:induction false} LevelIsTightestWindow(l: Limit, h: seq<Request>, i: nat)
    requires i < |h|
    ensures forall j | 0 <= j <= i ::
              LevelAt(l, h, i) <=
              l.maxBurst as real + (h[i].time - h[j].time) * l.tokensPerSec - GrantedSince(l, h, j, i)
    ensures exists j :: 0 <= j <= i &&
              LevelAt(l, h, i) ==
              l.maxBurst as real + (h[i].time - h[j].time) * l.tokensPerSec - GrantedSince(l, h, j, i)
  {
    hide Accrued, LevelAt, GrantedSince, Allowance;
    LeastAllowance(l, h, i);
    forall j | 0 <= j <= i
      ensures Allowance(l, h, j, i) ==
              l.maxBurst as real + (h[i].time - h[j].time) * l.tokensPerSec - GrantedSince(l, h, j, i)
    {
      AllowanceIs(l, h, j, i);
    }
  }

  lemma {:induction false} RefillBounds(l: Limit, x: real, elapsed: real)
    requires x >= 0.0 && elapsed >= 0.0 && l.tokensPerSec >= 0.0
    ensures 0.0 <= Refill(l, x, elapsed) <= l.maxBurst as real
  {
    AccruedNonNegative(l, elapsed);
  }

  lemma {:induction false} NeverNegative(l: Limit, h: seq<Request>, i: nat)
    requires i < |h| && Sane(l, h)
    ensures 0.0 <= LeftAfter(l, h, i) <= LevelAt(l, h, i) <= l.maxBurst as real
  {
    if i > 0 {
      NeverNegative(l, h, i - 1);
      assert h[i - 1].time <= h[i].time;
      RefillBounds(l, LeftAfter(l, h, i - 1), h[i].time - h[i - 1].time);
      assert LevelAt(l, h, i) == Refill(l, LeftAfter(l, h, i - 1), h[i].time - h[i - 1].time);
    }
    assert LeftAfter(l, h, i) == LevelAt(l, h, i) - Grant(l, h, i);
    assert Grant(l, h, i) == if LevelAt(l, h, i) >= h[i].tokens as real then h[i].tokens as real else 0.0;
  }

  /** Every window grants at most burst + rate * length. */
  lemma {:induction false} WindowBound(l: Limit, h: seq<Request>, j: nat, i: nat)
    requires j <= i < |h| && Sane(l, h)
    ensures GrantedSince(l, h, j, i + 1) <= l.maxBurst as real + (h[i].time - h[j].time) * l.tokensPerSec
  {
    AllowanceIs(l, h, j, i);
    hide Accrued, Allowance;
    LeastAllowance(l, h, i);
    NeverNegative(l, h, i);
    assert LeftAfter(l, h, i) == LevelAt(l, h, i) - Grant(l, h, i);
    assert LevelAt(l, h, i) <= Allowance(l, h, j, i);
    assert GrantedSince(l, h, j, i + 1) == GrantedSince(l, h, j, i) + Grant(l, h, i);
  }

  /** A request is granted if and only if granting it breaks no window. */
  lemma {:induction false} GrantedIffNoWindowBreaks(l: Limit, h: seq<Request>, i: nat)
    requires i < |h|
    ensures Granted(l, h, i) <==>
            forall j | 0 <= j <= i ::
              GrantedSince(l, h, j, i) + h[i].tokens as real <=
              l.maxBurst as real + (h[i].time - h[j].time) * l.tokensPerSec
  {
    hide Accrued, GrantedSince, Allowance;
    LeastAllowance(l, h, i);
    forall j | 0 <= j <= i
      ensures Allowance(l, h, j, i) ==
              l.maxBurst as real + (h[i].time - h[j].time) * l.tokensPerSec - GrantedSince(l, h, j, i)
    {
      AllowanceIs(l, h, j, i);
    }
  }

  // ----- Refused requests leave no trace

  function Omit(h: seq<Request>, k: nat): seq<Request>
    requires k < |h|
  {
    h[..k] + h[k + 1..]
  }

  /** A history determines levels through its prefix only. */
  lemma {:induction false} PrefixDecides(l: Limit, h: seq<Request>, g: seq<Request>, i: nat)
    requires i < |h| && i < |g| && h[..i + 1] == g[..i + 1]
    ensures LevelAt(l, h, i) == LevelAt(l, g, i) && Granted(l, h, i) == Granted(l, g, i)
            && LeftAfter(l, h, i) == LeftAfter(l, g, i)
  {
    assert h[i] == h[..i + 1][i] == g[..i + 1][i] == g[i];
    if i > 0 {
      assert h[i - 1] == h[..i + 1][i - 1] == g[..i + 1][i - 1] == g[i - 1];
      assert h[..i] == h[..i + 1][..i] == g[..i + 1][..i] == g[..i];
      PrefixDecides(l, h, g, i - 1);
    }
  }

  /** Two refills without a grant in between are one refill. */
  lemma {:induction false} RefillTwice(l: Limit, x: real, a: real, b: real)
    requires a >= 0.0 && b >= 0.0 && l.tokensPerSec >= 0.0 && x <= l.maxBurst as real
    ensures Refill(l, Refill(l, x, a), b) == Refill(l, x, a + b)
  {
    AccruedNonNegative(l, a);
    AccruedNonNegative(l, b);
    AccruedAdds(l, a, b);
    hide Accrued;
  }

  /** Leaving a refused request out of the history changes no later level and no later decision. */
  lemma {:induction false} RefusedLeavesNoTrace(l: Limit, h: seq<Request>, k: nat, i: nat)
    requires 0 < k < i < |h| && Sane(l, h) && !Granted(l, h, k)
    ensures LevelAt(l, Omit(h, k), i - 1) == LevelAt(l, h, i)
    ensures Granted(l, Omit(h, k), i - 1) == Granted(l, h, i)
  {
    hide Refill;
    var g := Omit(h, k);
    assert g[i - 1] == h[i];
    var d := h[i].time - h[i - 1].time;
    if i == k + 1 {
      assert h[..k] == g[..k] && g[k - 1] == h[k - 1];
      PrefixDecides(l, h, g, k - 1);
      NeverNegative(l, h, k - 1);
      assert h[k - 1].time <= h[k].time <= h[i].time;
      var c := h[k].time - h[k - 1].time;
      var x := LeftAfter(l, h, k - 1);
      RefillTwice(l, x, c, d);
      assert c + d == g[k].time - g[k - 1].time;
      assert LeftAfter(l, h, k) == LevelAt(l, h, k) == Refill(l, x, c);
      assert LevelAt(l, g, k) == Refill(l, LeftAfter(l, g, k - 1), c + d);
      assert LevelAt(l, h, i) == Refill(l, LeftAfter(l, h, k), d);
    } else {
      assert g[i - 2] == h[i - 1];
      RefusedLeavesNoTrace(l, h, k, i - 1);
      assert LeftAfter(l, g, i - 2) == LeftAfter(l, h, i - 1);
      assert LevelAt(l, g, i - 1) == Refill(l, LeftAfter(l, g, i - 2), d);
      assert LevelAt(l, h, i) == Refill(l, LeftAfter(l, h, i - 1), d);
    }
  }

  // ----- All of them at once

  /** The history without its refused requests. Entry 0 is the construction. */
  function Kept(l: Limit, h: seq<Request>): seq<Request> {
    if |h| <= 1 then h
    else Kept(l, h[..|h| - 1]) + if Granted(l, h, |h| - 1) then h[|h| - 1..] else []
  }

  /** One more request: the bucket is refilled from what the one before has left. */
  lemma {:induction false} NextLevel(l: Limit, h: seq<Request>, e: Request)
    requires h != []
    ensures var n := |h|;
            && LevelAt(l, h + [e], n) == Refill(l, LeftAfter(l, h, n - 1), e.time - h[n - 1].time)
            && (Granted(l, h + [e], n) <==> LevelAt(l, h + [e], n) >= e.tokens as real)
            && LeftAfter(l, h + [e], n) ==
               LevelAt(l, h + [e], n) - if Granted(l, h + [e], n) then e.tokens as real else 0.0
  {
    var g, n := h + [e], |h|;
    assert g[n] == e && g[n - 1] == h[n - 1] && h[..n] == g[..n];
    PrefixDecides(l, h, g, n - 1);
    assert LeftAfter(l, g, n) == LevelAt(l, g, n) - Grant(l, g, n);
    hide Refill;
  }

  lemma {:induction false} AtMostFull(l: Limit, h: seq<Request>, i: nat)
    requires i < |h|
    ensures LeftAfter(l, h, i) <= l.maxBurst as real
  {
    assert Grant(l, h, i) >= 0.0;
  }

  /** Refilled until the last request of `h`, the history `g` leaves what `h` leaves. */
  ghost predicate KeepsUp(l: Limit, g: seq<Request>, h: seq<Request>) {
    && g != [] && h != []
    && g[|g| - 1].time <= h[|h| - 1].time
    && Refill(l, LeftAfter(l, g, |g| - 1), h[|h| - 1].time - g[|g| - 1].time) == LeftAfter(l, h, |h| - 1)
  }

  lemma {:induction false} KeepsUpAtOnce(l: Limit, g: seq<Request>, h: seq<Request>)
    requires g != [] && h != [] && g[|g| - 1] == h[|h| - 1] && LeftAfter(l, g, |g| - 1) == LeftAfter(l, h, |h| - 1)
    ensures KeepsUp(l, g, h)
  {
    AtMostFull(l, h, |h| - 1);
    AccruedAdds(l, 0.0, 0.0);
    hide Accrued;
  }

  /** Both meet the next request at the same level; afterwards `g` need not contain it if it is refused. */
  lemma {:induction false} KeepsUpNext(l: Limit, g: seq<Request>, h: seq<Request>, e: Request)
    requires KeepsUp(l, g, h) && h[|h| - 1].time <= e.time && l.tokensPerSec >= 0.0
    ensures LevelAt(l, g + [e], |g|) == LevelAt(l, h + [e], |h|) && Granted(l, g + [e], |g|) == Granted(l, h + [e], |h|)
    ensures KeepsUp(l, if Granted(l, h + [e], |h|) then g + [e] else g, h + [e])
  {
    var c, d := h[|h| - 1].time - g[|g| - 1].time, e.time - h[|h| - 1].time;
    AtMostFull(l, g, |g| - 1);
    NextLevel(l, g, e);
    NextLevel(l, h, e);
    RefillTwice(l, LeftAfter(l, g, |g| - 1), c, d);
    assert c + d == e.time - g[|g| - 1].time;
    hide Refill, LevelAt, Granted, Grant, LeftAfter;
    if Granted(l, h + [e], |h|) { KeepsUpAtOnce(l, g + [e], h + [e]); }
  }

  lemma {:induction false} KeptKeepsUp(l: Limit, h: seq<Request>)
    requires h != [] && Sane(l, h)
    ensures var g, n := Kept(l, h), |h| - 1;
            && KeepsUp(l, g, h)
            && (n > 0 && Granted(l, h, n) ==>
                  && g[|g| - 1] == h[n] && LevelAt(l, g, |g| - 1) == LevelAt(l, h, n) && Granted(l, g, |g| - 1))
  {
    hide KeepsUp, LevelAt, Granted, Grant, LeftAfter;
    var n := |h| - 1;
    if n == 0 {
      KeepsUpAtOnce(l, h, h);
    } else {
      var p, e := h[..n], h[n];
      assert h == p + [e] && h[n..] == [e];
      KeptKeepsUp(l, p);
      assert Kept(l, p) != [] by { KeptNotEmpty(l, p); }
      KeepsUpNext(l, Kept(l, p), p, e);
      assert Kept(l, h) == if Granted(l, h, n) then Kept(l, p) + [e] else Kept(l, p);
    }
  }

  lemma {:induction false} KeptNotEmpty(l: Limit, h: seq<Request>)
    requires h != []
    ensures Kept(l, h) != []
  {
    if |h| > 1 { KeptNotEmpty(l, h[..|h| - 1]); }
  }

  lemma {:induction false} KeptPrefix(l: Limit, h: seq<Request>, i: nat)
    requires 0 < i <= |h|
    ensures Kept(l, h[..i]) <= Kept(l, h)
    decreases |h|
  {
    if i == |h| {
      assert h[..i] == h;
    } else {
      assert h[..|h| - 1][..i] == h[..i];
      KeptPrefix(l, h[..|h| - 1], i);
    }
  }

  /** Leave every refused request out of the history: every granted one is still granted, from the same
      level, at the place it then has. */
  lemma {:induction false} AllRefusedLeaveNoTrace(l: Limit, h: seq<Request>, i: nat)
    requires 0 < i < |h| && Sane(l, h) && Granted(l, h, i)
    ensures var g, k := Kept(l, h), |Kept(l, h[..i + 1])| - 1;
            && 0 <= k < |g| && g[k] == h[i]
            && LevelAt(l, g, k) == LevelAt(l, h, i) && Granted(l, g, k) && LeftAfter(l, g, k) == LeftAfter(l, h, i)
  {
    var h', g := h[..i + 1], Kept(l, h);
    var g' := Kept(l, h');
    PrefixDecides(l, h, h', i);
    KeptKeepsUp(l, h');
    KeptPrefix(l, h, i + 1);
    assert g'[..|g'|] == g[..|g'|];
    PrefixDecides(l, g', g, |g'| - 1);
    hide Refill, LevelAt, Sane;
  }

  /** Nothing is refused any more. */
  lemma {:induction false} KeptAreGranted(l: Limit, h: seq<Request>, k: nat)
    requires Sane(l, h) && 0 < k < |Kept(l, h)|
    ensures Granted(l, Kept(l, h), k)
  {
    var n := |h| - 1;
    var p := Kept(l, h[..n]);
    if k < |p| {
      KeptAreGranted(l, h[..n], k);
      assert Kept(l, h)[..k + 1] == p[..k + 1];
      PrefixDecides(l, Kept(l, h), p, k);
    } else {
      KeptKeepsUp(l, h);
    }
  }

  // ----- The class

  class RateLimiter {
    const limit: Limit
    var tokens: real
    var lastRefill: real
    ghost var history: seq<Request>

    ghost predicate Valid()
      reads this
    {
      && history != []
      && lastRefill == history[|history| - 1].time
      && tokens == LeftAfter(limit, history, |history| - 1)
    }

    constructor (maxBurst: nat, tokensPerSec: real, now: real)
      ensures Valid() && limit == Limit(maxBurst, tokensPerSec) && history == [Request(now, 0)]
      ensures tokens == maxBurst as real && lastRefill == now
    {
      limit := Limit(maxBurst, tokensPerSec);
      tokens, lastRefill := maxBurst as real, now;
      history := [Request(now, 0)];
    }

    /** Refills, then takes the tokens if there are enough. The decision is the one of the history. */
    method TryConsume(now: real, amount: nat) returns (ok: bool)
      requires Valid()
      modifies this
      ensures Valid()
      ensures history == old(history) + [Request(now, amount)]
      ensures ok <==> Granted(limit, history, |history| - 1)
      ensures var level := Min(limit.maxBurst as real, old(tokens) + (now - old(lastRefill)) * limit.tokensPerSec);
              && (ok <==> level >= amount as real)
              && tokens == (if ok then level - amount as real else level) && lastRefill == now
    {
      RefillTokens(now);
      ghost var h, n := history + [Request(now, amount)], |history|;
      assert h[..n] == history[..n];
      PrefixDecides(limit, h, history, n - 1);
      assert tokens == LevelAt(limit, h, n);
      assert Grant(limit, h, n) == if tokens >= amount as real then amount as real else 0.0;
      assert LeftAfter(limit, h, n) == tokens - Grant(limit, h, n);
      history := h;
      if tokens >= amount as real {
        tokens := tokens - amount as real;
        return true;
      }
      return false;
    }

    method RefillTokens(now: real)
      requires Valid()
      modifies this
      ensures tokens == Min(limit.maxBurst as real, old(tokens) + (now - old(lastRefill)) * limit.tokensPerSec)
      ensures tokens == Refill(limit, old(tokens), now - old(lastRefill))
      ensures lastRefill == now && history == old(history)
    {
      var elapsed := now - lastRefill;
      tokens := Min(limit.maxBurst as real, tokens + elapsed * limit.tokensPerSec);
      lastRefill := now;
    }
  }

  /** One bucket per symbol, created on first use. */
  class RateLimiterManager {
    var limiters: map<Symbol, RateLimiter>

    ghost predicate Valid()
      reads this, limiters.Values
    {
      && (forall s | s in limiters :: limiters[s].Valid())
      && (forall s, u | s in limiters && u in limiters && s != u :: limiters[s] != limiters[u])
    }

    constructor ()
      ensures Valid() && limiters == map[]
    {
      limiters := map[];
    }

    method AddSymbol(symbol: Symbol, ordersPerSecond: nat, maxBurst: nat, now: real)
      requires Valid()
      modifies this
      ensures Valid() && symbol in limiters
      ensures forall s | s in old(limiters) :: s in limiters && limiters[s] == old(limiters)[s]
      ensures limiters.Keys == old(limiters.Keys) + {symbol}
      ensures symbol !in old(limiters) ==>
                fresh(limiters[symbol]) && limiters[symbol].limit == Limit(maxBurst, ordersPerSecond as real)
                && limiters[symbol].history == [Request(now, 0)]
    {
      if symbol !in limiters {
        var limiter := new RateLimiter(maxBurst, ordersPerSecond as real, now);
        limiters := limiters[symbol := limiter];
      }
    }

    /** What a symbol's bucket has seen; one that would be created now has seen its creation only. */
    ghost function HistoryOf(symbol: Symbol, now: real): seq<Request>
      reads this, limiters.Values
    {
      if symbol in limiters then limiters[symbol].history else [Request(now, 0)]
    }

    /** The bucket granted its last request. */
    ghost predicate LastGranted(symbol: Symbol)
      reads this, limiters.Values
    {
      symbol in limiters && var l := limiters[symbol]; l.history != [] && Granted(l.limit, l.history, |l.history| - 1)
    }

    /** Asks the symbol's bucket for one token; every other symbol's bucket is untouched. */
    method TryAcceptOrder(symbol: Symbol, now: real) returns (ok: bool)
      requires Valid()
      modifies this, limiters.Values
      ensures Valid() && symbol in limiters
      ensures HistoryOf(symbol, now) == old(HistoryOf(symbol, now)) + [Request(now, 1)]
      ensures ok <==> LastGranted(symbol)
      ensures symbol in old(limiters) ==> limiters[symbol] == old(limiters)[symbol]
      ensures symbol !in old(limiters) ==> limiters[symbol].limit == Limit(200, 100.0)
      ensures forall s | s in old(limiters) && s != symbol ::
                s in limiters && limiters[s] == old(limiters)[s] && limiters[s].history == old(limiters[s].history)
    {
      if symbol !in limiters {
        var limiter := new RateLimiter(200, 100.0, now);
        limiters := limiters[symbol := limiter];
      }
      ok := limiters[symbol].TryConsume(now, 1);
    }
  }
}
