/** replayWAL (src/engine/matching_engine.cpp:489-556): what replaying a log does to an engine, and
    exactly when it keeps the engine sound. */
module Recovery {
  import opened Orders
  import opened FlatBook
  import opened MatchingLaws
  import opened EngineCore
  import opened Resizing

  /** Replays one entry. A submit whose id already rests in its book is skipped; an activation only
      drops the trigger; a trade does nothing. */
  ghost function ReplayEntry(c: Core, e: Entry): Core {
    match e
    case Submitted(t) =>
      var c' := c.(books := Open(c.books, t.symbol));
      if IsTrigger(t.kind) then c'.(triggers := Push(c.triggers, t))
      else if Rests(c'.books[t.symbol], t.id) then c'
      else c'.(books := Match(c.books, t.symbol, t))
    case Cancelled(id) => CancelOrder(c, id)
    case Modified(id, q) => ModifyOrder(c, id, q)
    case Activated(id, s) =>
      if s in c.triggers then c.(triggers := c.triggers[s := Without(c.triggers[s], id)]) else c
    case Traded(_) => c
  }

  ghost function Replay(c: Core, log: seq<Entry>): Core {
    if log == [] then c else ReplayEntry(Replay(c, log[..|log| - 1]), log[|log| - 1])
  }

  lemma {:induction false} ReplayOne(c: Core, log: seq<Entry>, e: Entry)
    ensures Replay(c, log + [e]) == ReplayEntry(Replay(c, log), e)
  {
    assert (log + [e])[..|log|] == log;
  }

  lemma {:induction false} ReplayAppend(c: Core, log1: seq<Entry>, log2: seq<Entry>)
    ensures Replay(c, log1 + log2) == Replay(Replay(c, log1), log2)
  {
    hide ReplayEntry;
    if log2 == [] {
      assert log1 + log2 == log1;
    } else {
      var n := |log2| - 1;
      ReplayAppend(c, log1, log2[..n]);
      assert log1 + log2 == (log1 + log2[..n]) + [log2[n]];
      ReplayOne(c, log1 + log2[..n], log2[n]);
    }
  }

  /** Replay writes nothing to the log, whatever it starts from. */
  lemma {:induction false} ReplayIsSilent(c: Core, log: seq<Entry>)
    requires !c.logging
    ensures !Replay(c, log).logging && Replay(c, log).log == c.log
  {
    hide Match, Push;
    if log != [] {
      ReplayIsSilent(c, log[..|log| - 1]);
    }
  }

  /** replayWAL on an engine that may be live: its own log is switched off meanwhile. */
  ghost function Recover(c: Core, log: seq<Entry>): Core {
    Replay(c.(logging := false), log).(logging := c.logging)
  }

  // ----- Exactly which entries can be replayed

  /** What an entry must meet: a submitted trigger rests and waits nowhere; any other submitted order is
      skipped, or does not come to rest, or rests and waits nowhere; a modify finds nothing or sets a
      positive quantity. */
  ghost predicate Fits(c: Core, e: Entry) {
    match e
    case Submitted(t) =>
      var free := !RestsAnywhere(c.books, t.id) && !PendingAnywhere(c.triggers, t.id);
      if IsTrigger(t.kind) then free
      else RestsIn(c.books, t.symbol, t.id) || !LeavesRemainder(BookAt(c.books, t.symbol), t) || free
    case Modified(id, q) => q > 0.0 || !RestsAnywhere(c.books, id)
    case _ => true
  }

  ghost predicate FitsAll(c: Core, log: seq<Entry>) {
    log != [] ==> FitsAll(c, log[..|log| - 1]) && Fits(Replay(c, log[..|log| - 1]), log[|log| - 1])
  }

  lemma {:induction false} WithoutKeepsList(l: seq<Ticket>, id: OrderId)
    requires Unique(l)
    ensures Unique(Without(l, id))
    ensures forall i | 0 <= i < |Without(l, id)| :: Without(l, id)[i] in l
    ensures forall x :: HasId(Without(l, id), x) ==> HasId(l, x)
  {
    if HasId(l, id) {
      var k :| 0 <= k < |l| && l[k].id == id;
      WithoutAt(l, k);
      assert forall i | 0 <= i < |l| - 1 :: Without(l, id)[i] == l[if i < k then i else i + 1];
    } else {
      WithoutAbsent(l, id);
    }
  }

  lemma {:induction false} DropKeeps(triggers: Triggers, s: Symbol, id: OrderId)
    requires TriggersOk(triggers) && s in triggers
    ensures TriggersOk(triggers[s := Without(triggers[s], id)])
    ensures forall x :: PendingAnywhere(triggers[s := Without(triggers[s], id)], x) ==> PendingAnywhere(triggers, x)
  {
    var r: Triggers := triggers[s := Without(triggers[s], id)];
    WithoutKeepsList(triggers[s], id);
    hide Without, HasId, Unique;
    forall x, i | x in r && 0 <= i < |r[x]|
      ensures IsTrigger(r[x][i].kind) && r[x][i].symbol == x
    {
      assert r[x][i] in triggers[x];
    }
    forall x, y | PendingIn(r, x, y)
      ensures PendingIn(triggers, x, y)
    {
    }
  }

  lemma {:induction false} SubmitEntryKeeps(c: Core, t: Ticket)
    requires Invariant(c) && Fits(c, Submitted(t))
    ensures Invariant(ReplayEntry(c, Submitted(t)))
  {
    hide Match, Push, LeavesRemainder, TriggersOk;
    OpenKeeps(c.books, t.symbol);
    if IsTrigger(t.kind) {
      PushKeeps(c.triggers, t);
      forall id | RestsAnywhere(c.books, id)
        ensures !PendingAnywhere(Push(c.triggers, t), id)
      {
        PushAdds(c.triggers, t, id);
      }
    } else if !RestsIn(c.books, t.symbol, t.id) {
      MatchKeeps(c.books, t.symbol, t);
    }
  }

  lemma {:induction false} ReplayEntryKeeps(c: Core, e: Entry)
    requires Invariant(c) && Fits(c, e)
    ensures Invariant(ReplayEntry(c, e))
  {
    match e
    case Submitted(t) => SubmitEntryKeeps(c, t);
    case Cancelled(id) => CancelKeeps(c, id);
    case Modified(id, q) => ModifyKeeps(c, id, q);
    case Activated(id, s) => if s in c.triggers { DropKeeps(c.triggers, s, id); }
    case Traded(_) =>
  }

  /** Replaying such a log keeps any sound engine sound: no crossed book, no id in two books, no id
      both resting and pending. */
  lemma {:induction false} ReplayKeeps(c: Core, log: seq<Entry>)
    requires Invariant(c) && FitsAll(c, log)
    ensures Invariant(Replay(c, log))
  {
    if log != [] {
      ReplayKeeps(c, log[..|log| - 1]);
      ReplayEntryKeeps(Replay(c, log[..|log| - 1]), log[|log| - 1]);
    }
  }

  // ----- And no others

  lemma {:induction false} PushBreaks(c: Core, t: Ticket)
    requires Invariant(c) && (RestsAnywhere(c.books, t.id) || PendingAnywhere(c.triggers, t.id))
    ensures !(TriggersOk(Push(c.triggers, t)) && Apart(Open(c.books, t.symbol), Push(c.triggers, t)))
  {
    var r := Push(c.triggers, t);
    var l := if t.symbol in c.triggers then c.triggers[t.symbol] else [];
    assert r[t.symbol] == l + [t] && r[t.symbol][|l|] == t;
    assert PendingIn(r, t.symbol, t.id);
    if RestsAnywhere(c.books, t.id) {
      OpenKeeps(c.books, t.symbol);
    } else {
      var s :| PendingIn(c.triggers, s, t.id);
      if s == t.symbol {
        var i :| 0 <= i < |l| && l[i].id == t.id;
        assert (l + [t])[i].id == (l + [t])[|l|].id;
      } else {
        assert PendingIn(r, s, t.id);
      }
    }
  }

  lemma {:induction false} RestBreaks(c: Core, t: Ticket)
    requires Invariant(c) && !RestsIn(c.books, t.symbol, t.id) && LeavesRemainder(BookAt(c.books, t.symbol), t)
    requires RestsAnywhere(c.books, t.id) || PendingAnywhere(c.triggers, t.id)
    ensures !(OneBook(Match(c.books, t.symbol, t)) && Apart(Match(c.books, t.symbol, t), c.triggers))
  {
    var s, bs := t.symbol, Match(c.books, t.symbol, t);
    OpenKeeps(c.books, s);
    assert !RestsIn(Open(c.books, s), s, t.id);
    ProcessKeepsWellFormed(BookAt(c.books, s), t);
    hide Process, LeavesRemainder, WellFormed;
    assert RestsIn(bs, s, t.id);
    if RestsAnywhere(c.books, t.id) {
      var u :| RestsIn(c.books, u, t.id);
      assert RestsIn(bs, u, t.id);
    }
  }

  /** A submit or trigger entry that does not fit leaves the engine unsound. (For modifies see
      `Books.OrderBook.ModifyOrder`.) */
  lemma {:induction false} FitsExactly(c: Core, e: Entry)
    requires Invariant(c) && !e.Modified?
    ensures Invariant(ReplayEntry(c, e)) <==> Fits(c, e)
  {
    if Fits(c, e) {
      ReplayEntryKeeps(c, e);
    } else {
      hide Match, Push, LeavesRemainder, BooksOk;
      if IsTrigger(e.order.kind) { PushBreaks(c, e.order); } else { RestBreaks(c, e.order); }
    }
  }

  /** Every state that replay passes through is sound. */
  ghost predicate SoundThroughout(c: Core, log: seq<Entry>) {
    forall n | 0 <= n <= |log| :: Invariant(Replay(c, log[..n]))
  }

  lemma {:induction false} SoundOneMore(c: Core, p: seq<Entry>, e: Entry)
    ensures SoundThroughout(c, p + [e]) <==> SoundThroughout(c, p) && Invariant(Replay(c, p + [e]))
    ensures SoundThroughout(c, p) ==> Invariant(Replay(c, p))
  {
    hide Replay, Invariant;
    var log := p + [e];
    assert p[..|p|] == p && log[..|p| + 1] == log;
    assert forall n | 0 <= n <= |p| :: p[..n] == log[..n];
  }

  /** Replay passes through sound states only, if and only if every entry fits where it is replayed. */
  lemma {:induction false} SoundExactlyIfFits(c: Core, log: seq<Entry>)
    requires Invariant(c) && PositiveModifies(log)
    ensures FitsAll(c, log) <==> SoundThroughout(c, log)
  {
    hide Invariant, ReplayEntry, Fits, SoundThroughout;
    if log == [] {
      assert SoundThroughout(c, []) by { SoundAtOnce(c); }
    } else {
      var p, e := log[..|log| - 1], log[|log| - 1];
      assert log == p + [e];
      SoundExactlyIfFits(c, p);
      SoundOneMore(c, p, e);
      ReplayOne(c, p, e);
      if Invariant(Replay(c, p)) {
        if e.Modified? { PositiveFits(Replay(c, p), e); } else { FitsExactly(Replay(c, p), e); }
      }
    }
  }

  lemma {:induction false} SoundAtOnce(c: Core)
    requires Invariant(c)
    ensures SoundThroughout(c, [])
  {
    var none: seq<Entry> := [];
    assert none[..0] == none;
  }

  lemma {:induction false} PositiveFits(c: Core, e: Entry)
    requires Invariant(c) && e.Modified? && e.quantity > 0.0
    ensures Fits(c, e) && Invariant(ReplayEntry(c, e))
  {
    ReplayEntryKeeps(c, e);
  }

  // ----- Logs in which no id is submitted twice

  predicate SubmitsId(e: Entry, id: OrderId) {
    e.Submitted? && e.order.id == id
  }

  predicate NamedBy(log: seq<Entry>, id: OrderId) {
    exists j | 0 <= j < |log| :: SubmitsId(log[j], id)
  }

  predicate DistinctSubmits(log: seq<Entry>) {
    forall i, j | 0 <= i < j < |log| && log[i].Submitted? && log[j].Submitted? :: log[i].order.id != log[j].order.id
  }

  predicate PositiveModifies(log: seq<Entry>) {
    forall i | 0 <= i < |log| :: log[i].Modified? ==> log[i].quantity > 0.0
  }

  lemma {:induction false} NamedGrows(log: seq<Entry>, log': seq<Entry>, id: OrderId)
    requires log <= log' && NamedBy(log, id)
    ensures NamedBy(log', id)
  {
    var j :| 0 <= j < |log| && SubmitsId(log[j], id);
    assert SubmitsId(log'[j], id);
  }

  /** Whatever rests or waits after an entry did so before, or is what the entry submits. */
  lemma {:induction false} EntryBringsOnlyItsId(c: Core, e: Entry, id: OrderId)
    requires Invariant(c) && Fits(c, e)
    requires RestsAnywhere(ReplayEntry(c, e).books, id) || PendingAnywhere(ReplayEntry(c, e).triggers, id)
    ensures RestsAnywhere(c.books, id) || PendingAnywhere(c.triggers, id) || SubmitsId(e, id)
  {
    hide LeavesRemainder, TriggersOk, WellFormed, Uncrossed;
    match e
    case Submitted(t) =>
      OpenKeeps(c.books, t.symbol);
      PushAdds(c.triggers, t, id);
      if !IsTrigger(t.kind) && !RestsIn(c.books, t.symbol, t.id) { MatchKeeps(c.books, t.symbol, t); }
    case Cancelled(x) => CancelBringsNothing(c, x);
    case Modified(x, q) => ModifyBringsNothing(c, x, q);
    case Activated(x, s) => if s in c.triggers { DropKeeps(c.triggers, s, x); }
    case Traded(_) =>
  }

  lemma {:induction false} CancelBringsNothing(c: Core, x: OrderId)
    requires Invariant(c)
    ensures forall id :: RestsAnywhere(CancelOrder(c, x).books, id) ==> RestsAnywhere(c.books, id)
    ensures CancelOrder(c, x).triggers == c.triggers
  {
    if RestsAnywhere(c.books, x) {
      var s := Holder(c.books, x);
      CancelKeepsWellFormed(c.books[s], x);
      CancelKeepsUncrossed(c.books[s], x);
      ShrinkBook(c.books, s, Cancel(c.books[s], x));
    }
  }

  lemma {:induction false} ModifyBringsNothing(c: Core, x: OrderId, q: real)
    requires Invariant(c) && (q > 0.0 || !RestsAnywhere(c.books, x))
    ensures forall id :: RestsAnywhere(ModifyOrder(c, x, q).books, id) ==> RestsAnywhere(c.books, id)
    ensures ModifyOrder(c, x, q).triggers == c.triggers
  {
    if RestsAnywhere(c.books, x) {
      var s := Holder(c.books, x);
      ResizedPositive(c.books[s], x, q);
      ModifyKeepsWellFormed(c.books[s], x, q);
      ShrinkBook(c.books, s, Modify(c.books[s], x, q));
    }
  }

  /** A log that submits no id twice can be replayed into an empty engine, whatever was activated, and
      only ids it submits rest or wait afterwards. */
  lemma {:induction false} DistinctLogsFit(log: seq<Entry>)
    requires DistinctSubmits(log) && PositiveModifies(log)
    ensures FitsAll(REPLAYING, log) && Invariant(Replay(REPLAYING, log))
    ensures forall id | RestsAnywhere(Replay(REPLAYING, log).books, id)
            || PendingAnywhere(Replay(REPLAYING, log).triggers, id) ::
              NamedBy(log, id)
  {
    hide ReplayEntry, LeavesRemainder, Invariant, RestsAnywhere, PendingAnywhere;
    if log == [] {
      EmptyEngine(REPLAYING);
    } else {
      var p, e := log[..|log| - 1], log[|log| - 1];
      var c := Replay(REPLAYING, p);
      DistinctLogsFit(p);
      assert e.Submitted? ==> !NamedBy(p, e.order.id);
      ReplayEntryKeeps(c, e);
      forall id | RestsAnywhere(Replay(REPLAYING, log).books, id)
        || PendingAnywhere(Replay(REPLAYING, log).triggers, id)
        ensures NamedBy(log, id)
      {
        EntryBringsOnlyItsId(c, e, id);
        if NamedBy(p, id) { NamedGrows(p, log, id); }
      }
    }
  }

  lemma {:induction false} EmptyEngine(c: Core)
    requires c.books == map[] && c.triggers == map[]
    ensures Invariant(c) && forall id :: !RestsAnywhere(c.books, id) && !PendingAnywhere(c.triggers, id)
  {
  }
}
