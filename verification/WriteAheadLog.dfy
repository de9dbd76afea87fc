/** The write-ahead log against the live engine: what replaying it rebuilds, and what activations cost. */
module WriteAheadLog {
  import opened Orders
  import opened FlatBook
  import opened EngineCore
  import opened Recovery
  import opened EngineRuns
  import opened MatchingLaws
  import opened Resizing

  /** Replaying the log into an empty engine rebuilds the live books, or the live pending lists. */
  ghost predicate RebuildsBooks(c: Core) {
    Replay(REPLAYING, c.log).books == c.books
  }

  ghost predicate RebuildsTriggers(c: Core) {
    Replay(REPLAYING, c.log).triggers == c.triggers
  }

  /** No entry from position `n` on is an activation. */
  predicate NoActivation(log: seq<Entry>, n: nat) {
    forall i | n <= i < |log| :: !log[i].Activated?
  }

  // ----- What a check of triggers does to log and replay

  /** Without a hit, a check changes nothing. */
  lemma {:induction false} FireNothing(c: Core, s: Symbol, pending: seq<Ticket>, price: real)
    requires forall i | 0 <= i < |pending| :: !Hit(pending[i], price)
    ensures Fire(c, s, pending, price) == c && StillPending(pending, price) == pending
    decreases |pending|
  {
    if pending != [] {
      FireNothing(c, s, pending[1..], price);
    }
  }

  lemma {:induction false} FireLog(c: Core, s: Symbol, pending: seq<Ticket>, price: real)
    requires c.logging
    ensures c.log <= Fire(c, s, pending, price).log
    ensures NoActivation(Fire(c, s, pending, price).log, |c.log|) ==> forall i | 0 <= i < |pending| ::
            !Hit(pending[i], price)
    ensures forall k | |c.log| <= k < |Fire(c, s, pending, price).log| :: Fire(c, s, pending, price).log[k].Activated?
    decreases |pending|
  {
    if pending != [] {
      var head := pending[0];
      if Hit(head, price) {
        var c' := Examine(c, s, head, price);
        FireLog(c', s, pending[1..], price);
        assert Fire(c, s, pending, price).log[|c.log|] == c'.log[|c.log|] == Activated(head.id, s);
      } else {
        FireLog(c, s, pending[1..], price);
      }
    }
  }

  /** Replaying the activations of a check removes exactly the activated orders from the pending list,
      keeps the others in order, and leaves the books alone. */
  lemma {:induction false} FireReplay(c: Core, s: Symbol, pending: seq<Ticket>, price: real, kept: seq<Ticket>)
    requires c.logging && Unique(kept + pending)
    requires var r := Replay(REPLAYING, c.log); s in r.triggers && r.triggers[s] == kept + pending
    ensures var r, r' := Replay(REPLAYING, c.log), Replay(REPLAYING, Fire(c, s, pending, price).log);
            && r'.triggers == r.triggers[s := kept + StillPending(pending, price)]
            && r'.books == r.books
    decreases |pending|
  {
    hide Match, Without, Replay;
    var r := Replay(REPLAYING, c.log);
    if pending == [] {
      assert r.triggers[s := r.triggers[s]] == r.triggers;
    } else {
      var head, tail := pending[0], pending[1..];
      if Hit(head, price) {
        var c' := Examine(c, s, head, price);
        ReplayOne(REPLAYING, c.log, Activated(head.id, s));
        WithoutAt(kept + pending, |kept|);
        assert (kept + pending)[..|kept|] == kept && (kept + pending)[|kept| + 1..] == tail;
        assert Unique(kept + tail) by {
          assert forall i | 0 <= i < |kept + tail| ::
              (kept + tail)[i] == (kept + pending)[if i < |kept| then i else i + 1];
        }
        var r' := Replay(REPLAYING, c'.log);
        assert c'.log == c.log + [Activated(head.id, s)];
        assert r'.triggers == r.triggers[s := kept + tail];
        FireReplay(c', s, tail, price, kept);
        assert r'.triggers[s := kept + StillPending(tail, price)] ==
               r.triggers[s := kept + StillPending(pending, price)];
      } else {
        assert (kept + [head]) + tail == kept + pending;
        FireReplay(c, s, tail, price, kept + [head]);
        assert (kept + [head]) + StillPending(tail, price) == kept + StillPending(pending, price);
      }
    }
  }

  // ----- One step

  lemma {:induction false} CheckReplays(c: Core, s: Symbol, price: real)
    requires Invariant(c) && c.logging && RebuildsTriggers(c)
    ensures RebuildsTriggers(CheckTriggers(c, s, price))
    ensures Replay(REPLAYING, CheckTriggers(c, s, price).log).books == Replay(REPLAYING, c.log).books
  {
    hide Match, Fire, StillPending, Replay;
    if s in c.triggers {
      assert [] + c.triggers[s] == c.triggers[s];
      FireReplay(c, s, c.triggers[s], price, []);
      assert [] + StillPending(c.triggers[s], price) == StillPending(c.triggers[s], price);
    }
  }

  lemma {:induction false} StepReplaysTriggers(c: Core, e: Event)
    requires Invariant(c) && c.logging && RebuildsTriggers(c) && !e.DoReplay?
    ensures RebuildsTriggers(Step(c, e))
  {
    hide Match, CheckTriggers, Replay, Push;
    match e
    case DoSubmit(t) => ReplayOne(REPLAYING, c.log, Submitted(t));
    case DoCancel(id) => ReplayOne(REPLAYING, c.log, Cancelled(id));
    case DoModify(id, q) => ReplayOne(REPLAYING, c.log, Modified(id, q));
    case DoStamp(trade) => ReplayOne(REPLAYING, c.log, Traded(trade));
    case DoCheck(s, price) => CheckReplays(c, s, price);
  }

  /** A step keeps replay equal to the live books, unless it is a check that changes a book. */
  lemma {:induction false} StepReplaysBooks(c: Core, e: Event)
    requires Invariant(c) && c.logging && Allowed(c, e) && RebuildsBooks(c) && RebuildsTriggers(c) && !e.DoReplay?
    ensures RebuildsBooks(Step(c, e)) <==> (e.DoCheck? ==> Step(c, e).books == c.books)
  {
    hide Match, CheckTriggers, Replay, Push;
    match e
    case DoSubmit(t) =>
      ReplayOne(REPLAYING, c.log, Submitted(t));
      assert !RestsIn(c.books, t.symbol, t.id);
    case DoCancel(id) => ReplayOne(REPLAYING, c.log, Cancelled(id));
    case DoModify(id, q) => ReplayOne(REPLAYING, c.log, Modified(id, q));
    case DoStamp(trade) => ReplayOne(REPLAYING, c.log, Traded(trade));
    case DoCheck(s, price) => CheckReplays(c, s, price);
  }

  // ----- Whole runs

  /** In every run, with or without activations, the pending lists rebuilt by replay are the live ones. */
  lemma {:induction false} ReplayRebuildsTriggers(c0: Core, es: seq<Event>)
    requires Invariant(c0) && c0.logging && RebuildsTriggers(c0) && Run(c0, es) && Live(es)
    ensures RebuildsTriggers(State(c0, es))
  {
    hide Invariant, Step, Allowed, RebuildsTriggers;
    if es != [] {
      ReplayRebuildsTriggers(c0, es[..|es| - 1]);
      RunsAreSafe(c0, es[..|es| - 1]);
      StepReplaysTriggers(State(c0, es[..|es| - 1]), es[|es| - 1]);
    }
  }

  lemma {:induction false} AtStart()
    ensures RebuildsTriggers(START) && RebuildsBooks(START) && Invariant(START)
  {
    EmptyEngine(START);
  }

  /** No check of triggers changes a book. */
  ghost predicate Quiet(c0: Core, es: seq<Event>) {
    forall k | 0 <= k < |es| && es[k].DoCheck? :: Step(State(c0, es[..k]), es[k]).books == State(c0, es[..k]).books
  }

  lemma {:induction false} QuietOneMore(c0: Core, p: seq<Event>, e: Event)
    ensures Quiet(c0, p + [e]) <==> Quiet(c0, p) && (e.DoCheck? ==> Step(State(c0, p), e).books == State(c0, p).books)
  {
    hide Step, State;
    var es := p + [e];
    assert forall k | 0 <= k < |p| :: es[k] == p[k] && es[..k] == p[..k];
    assert es[..|p|] == p && es[|p|] == e;
  }

  /** Replay rebuilt the live books all along. */
  ghost predicate RebuildsThroughout(c0: Core, es: seq<Event>) {
    forall n | 0 <= n <= |es| :: RebuildsBooks(State(c0, es[..n]))
  }

  lemma {:induction false} RebuildsOneMore(c0: Core, p: seq<Event>, e: Event)
    ensures RebuildsThroughout(c0, p + [e]) <==> RebuildsThroughout(c0, p) && RebuildsBooks(State(c0, p + [e]))
    ensures RebuildsThroughout(c0, p) ==> RebuildsBooks(State(c0, p))
  {
    hide State, RebuildsBooks;
    var es := p + [e];
    assert p[..|p|] == p && es[..|p| + 1] == es;
    assert forall n | 0 <= n <= |p| :: p[..n] == es[..n];
  }

  lemma {:induction false} NextState(c0: Core, p: seq<Event>, e: Event)
    ensures State(c0, p + [e]) == Step(State(c0, p), e)
    ensures Run(c0, p + [e]) <==> Run(c0, p) && Allowed(State(c0, p), e)
  {
    assert (p + [e])[..|p|] == p;
  }

  /** Replaying the log rebuilds the live books at every moment of a run, if and only if no check of
      triggers changed a book. */
  lemma {:induction false} ReplayRebuildsExactly(c0: Core, es: seq<Event>)
    requires Invariant(c0) && c0.logging && RebuildsTriggers(c0) && RebuildsBooks(c0) && Run(c0, es) && Live(es)
    ensures RebuildsThroughout(c0, es) <==> Quiet(c0, es)
  {
    hide Invariant, Step, Allowed, RebuildsTriggers, RebuildsBooks, Quiet, RebuildsThroughout, State;
    if es == [] {
      AtTheStart(c0);
    } else {
      var p, e := es[..|es| - 1], es[|es| - 1];
      var c := State(c0, p);
      assert es == p + [e];
      NextState(c0, p, e);
      ReplayRebuildsExactly(c0, p);
      RunsAreSafe(c0, p);
      ReplayRebuildsTriggers(c0, p);
      QuietOneMore(c0, p, e);
      RebuildsOneMore(c0, p, e);
      if RebuildsBooks(c) { StepReplaysBooks(c, e); }
    }
  }

  lemma {:induction false} AtTheStart(c0: Core)
    requires RebuildsBooks(c0)
    ensures RebuildsThroughout(c0, []) && Quiet(c0, [])
  {
    var none: seq<Event> := [];
    assert none[..0] == none;
  }

  /** So it does in the end, in every run in which no check changes a book. */
  lemma {:induction false} ReplayRebuildsBooks(c0: Core, es: seq<Event>)
    requires Invariant(c0) && c0.logging && RebuildsTriggers(c0) && RebuildsBooks(c0) && Run(c0, es) && Live(es)
             && Quiet(c0, es)
    ensures RebuildsBooks(State(c0, es))
  {
    hide Invariant, Step, Allowed, RebuildsTriggers, RebuildsBooks, Quiet, State;
    ReplayRebuildsExactly(c0, es);
    assert es[..|es|] == es;
  }

  /** A step only appends to the log: at most one entry, unless it activates triggers. */
  lemma {:induction false} StepAppends(c: Core, e: Event)
    requires c.logging && !e.DoReplay?
    ensures c.log <= Step(c, e).log
    ensures NoActivation(Step(c, e).log, |c.log|) ==>
              |Step(c, e).log| <= |c.log| + 1 && (e.DoCheck? ==> Step(c, e) == c)
    ensures e.DoCheck? ==> forall k | |c.log| <= k < |Step(c, e).log| :: Step(c, e).log[k].Activated?
  {
    if e.DoCheck? && e.symbol in c.triggers {
      var pending := c.triggers[e.symbol];
      FireLog(c, e.symbol, pending, e.price);
      if NoActivation(Step(c, e).log, |c.log|) {
        FireNothing(c, e.symbol, pending, e.price);
        assert c.triggers[e.symbol := pending] == c.triggers;
      }
    }
  }

  lemma {:induction false} RunAppends(c0: Core, es: seq<Event>, n: nat)
    requires Invariant(c0) && c0.logging && Run(c0, es) && Live(es) && n <= |es|
    ensures State(c0, es[..n]).log <= State(c0, es).log
    decreases |es|
  {
    hide Step, Allowed, Invariant;
    if n == |es| {
      assert es[..n] == es;
    } else {
      var p := es[..|es| - 1];
      assert p[..n] == es[..n];
      RunAppends(c0, p, n);
      RunsAreSafe(c0, p);
      StepAppends(State(c0, p), es[|es| - 1]);
    }
  }

  /** A run that logs no activation is quiet. */
  lemma {:induction false} NoActivationIsQuiet(c0: Core, es: seq<Event>)
    requires Invariant(c0) && c0.logging && Run(c0, es) && Live(es) && NoActivation(State(c0, es).log, |c0.log|)
    ensures Quiet(c0, es)
  {
    hide Invariant, Allowed, Quiet, Step;
    if es == [] {
      assert Quiet(c0, es) by { QuietAtFirst(c0); }
    } else {
      var p, e := es[..|es| - 1], es[|es| - 1];
      assert es == p + [e];
      RunsAreSafe(c0, p);
      StepAppends(State(c0, p), e);
      StartAppends(c0, p);
      NewEntries(c0.log, State(c0, p).log, State(c0, es).log);
      NoActivationIsQuiet(c0, p);
      QuietOneMore(c0, p, e);
    }
  }

  lemma {:induction false} QuietAtFirst(c0: Core)
    ensures Quiet(c0, [])
  {
  }

  lemma {:induction false} StartAppends(c0: Core, es: seq<Event>)
    requires Invariant(c0) && c0.logging && Run(c0, es) && Live(es)
    ensures c0.log <= State(c0, es).log
  {
    hide Step, Allowed, Invariant, State;
    RunAppends(c0, es, 0);
    assert es[..0] == [];
    assert State(c0, []) == c0 by { FirstState(c0); }
  }

  lemma {:induction false} FirstState(c0: Core)
    ensures State(c0, []) == c0
  {
  }

  lemma {:induction false} NewEntries(a: seq<Entry>, b: seq<Entry>, c: seq<Entry>)
    requires a <= b <= c && NoActivation(c, |a|)
    ensures NoActivation(b, |a|) && NoActivation(c, |b|)
  {
    assert forall i | 0 <= i < |b| :: b[i] == c[i];
  }

  /** Every longer prefix of an activation-free log was the whole log at some point of the run, and
      replaying the prefix rebuilds books and pending lists as they were at that point. */
  lemma {:induction false} EveryPrefixReplays(c0: Core, es: seq<Event>, n: nat) returns (m: nat)
    requires Invariant(c0) && c0.logging && RebuildsTriggers(c0) && RebuildsBooks(c0) && Run(c0, es) && Live(es)
    requires NoActivation(State(c0, es).log, |c0.log|) && |c0.log| <= n <= |State(c0, es).log|
    ensures m <= |es| && Run(c0, es[..m]) && State(c0, es[..m]).log == State(c0, es).log[..n]
    ensures RebuildsBooks(State(c0, es[..m])) && RebuildsTriggers(State(c0, es[..m]))
  {
    hide Invariant, Step, Allowed, RebuildsTriggers, RebuildsBooks, Quiet;
    if n == |State(c0, es).log| {
      m := |es|;
      assert es[..m] == es && State(c0, es).log[..n] == State(c0, es).log;
      NoActivationIsQuiet(c0, es);
      ReplayRebuildsBooks(c0, es);
      ReplayRebuildsTriggers(c0, es);
    } else {
      var p := es[..|es| - 1];
      RunsAreSafe(c0, p);
      StepAppends(State(c0, p), es[|es| - 1]);
      StartAppends(c0, p);
      NewEntries(c0.log, State(c0, p).log, State(c0, es).log);
      m := EveryPrefixReplays(c0, p, n);
      assert p[..m] == es[..m];
      assert State(c0, p).log[..n] == State(c0, es).log[..n];
    }
  }

  // ----- Which logs can be replayed

  lemma {:induction false} ActivationsFit(c: Core, log: seq<Entry>, log': seq<Entry>)
    requires FitsAll(c, log) && log <= log' && forall k | |log| <= k < |log'| :: log'[k].Activated?
    ensures FitsAll(c, log')
  {
    if |log'| > |log| {
      ActivationsFit(c, log, log'[..|log'| - 1]);
    } else {
      assert log' == log;
    }
  }

  lemma {:induction false} StepFits(c: Core, e: Event)
    requires Invariant(c) && c.logging && Allowed(c, e) && !e.DoReplay?
    requires RebuildsTriggers(c) && RebuildsBooks(c) && FitsAll(REPLAYING, c.log)
    ensures FitsAll(REPLAYING, Step(c, e).log)
  {
    StepAppends(c, e);
    if e.DoCheck? {
      ActivationsFit(REPLAYING, c.log, Step(c, e).log);
    } else {
      hide Match, Push, Replay, Invariant, Resized, Cancel, NoActivation;
      if Step(c, e).log != c.log { assert Step(c, e).log[..|c.log|] == c.log; }
    }
  }

  /** Every log that a run writes while no check changes a book can be replayed. */
  lemma {:induction false} RunLogsFit(c0: Core, es: seq<Event>)
    requires Invariant(c0) && c0.logging && RebuildsTriggers(c0) && RebuildsBooks(c0) && Run(c0, es) && Live(es)
             && Quiet(c0, es)
    requires FitsAll(REPLAYING, c0.log)
    ensures FitsAll(REPLAYING, State(c0, es).log)
  {
    hide Invariant, Step, Allowed, RebuildsTriggers, RebuildsBooks, Quiet, FitsAll;
    if es != [] {
      var p, e := es[..|es| - 1], es[|es| - 1];
      assert es == p + [e];
      QuietOneMore(c0, p, e);
      RunLogsFit(c0, p);
      RunsAreSafe(c0, p);
      ReplayRebuildsTriggers(c0, p);
      ReplayRebuildsBooks(c0, p);
      StepFits(State(c0, p), e);
    }
  }

  /** The engine that replayed a log into an empty state and then appends to it. */
  ghost function Recovered(log: seq<Entry>): Core {
    Replay(REPLAYING, log).(log := log, logging := true)
  }

  /** Recovery and trading on: the recovered engine is sound, stays sound whatever happens next, and its
      whole log, old and new, rebuilds it again as long as no check changes a book. */
  lemma {:induction false} RecoverThenTrade(log: seq<Entry>, es: seq<Event>)
    requires FitsAll(REPLAYING, log) && Run(Recovered(log), es)
    ensures Invariant(State(Recovered(log), es))
    ensures Live(es) ==> RebuildsTriggers(State(Recovered(log), es))
    ensures Live(es) && Quiet(Recovered(log), es) ==>
              RebuildsBooks(State(Recovered(log), es)) && FitsAll(REPLAYING, State(Recovered(log), es).log)
  {
    RecoveredIsSound(log);
    hide Invariant, FitsAll, Quiet, Recovered, RebuildsTriggers, RebuildsBooks, Run, State;
    var c0 := Recovered(log);
    RunsAreSafe(c0, es);
    if Live(es) {
      ReplayRebuildsTriggers(c0, es);
      if Quiet(c0, es) {
        ReplayRebuildsBooks(c0, es);
        RunLogsFit(c0, es);
      }
    }
  }

  lemma {:induction false} RecoveredIsSound(log: seq<Entry>)
    requires FitsAll(REPLAYING, log)
    ensures var c := Recovered(log);
            Invariant(c) && c.logging && c.log == log && RebuildsTriggers(c) && RebuildsBooks(c)
  {
    EmptyEngine(REPLAYING);
    ReplayKeeps(REPLAYING, log);
    hide BooksOk, OneBook, TriggersOk, Apart;
  }

  // ----- Books stay sound under replay, whatever was activated

  lemma {:induction false} EntryKeepsBooks(c: Core, e: Entry)
    requires BooksOk(c.books) && (e.Modified? ==> e.quantity > 0.0)
    ensures BooksOk(ReplayEntry(c, e).books)
  {
    hide Process, Without, SetQty, Rests, RestsAnywhere, Resized;
    match e
    case Submitted(t) =>
      var b := BookAt(c.books, t.symbol);
      if !IsTrigger(t.kind) && !Rests(b, t.id) {
        ProcessKeepsWellFormed(b, t);
        ProcessKeepsUncrossed(b, t);
      }
    case Cancelled(id) =>
      if RestsAnywhere(c.books, id) {
        CancelKeepsWellFormed(c.books[Holder(c.books, id)], id);
        CancelKeepsUncrossed(c.books[Holder(c.books, id)], id);
      }
    case Modified(id, q) =>
      if RestsAnywhere(c.books, id) {
        ResizedPositive(c.books[Holder(c.books, id)], id, q);
        ModifyKeepsWellFormed(c.books[Holder(c.books, id)], id, q);
      }
    case Activated(_, _) =>
    case Traded(_) =>
  }

  /** Replaying any log of positive modifies into any engine leaves every book well formed and uncrossed. */
  lemma {:induction false} ReplayStaysUncrossed(c: Core, log: seq<Entry>)
    requires BooksOk(c.books) && PositiveModifies(log)
    ensures BooksOk(Replay(c, log).books)
  {
    hide BooksOk, ReplayEntry;
    if log != [] {
      ReplayStaysUncrossed(c, log[..|log| - 1]);
      EntryKeepsBooks(Replay(c, log[..|log| - 1]), log[|log| - 1]);
    }
  }

  lemma {:induction false} FireLogPositive(c: Core, s: Symbol, pending: seq<Ticket>, price: real)
    requires PositiveModifies(c.log)
    ensures PositiveModifies(Fire(c, s, pending, price).log)
    decreases |pending|
  {
    hide Match, Hit;
    if pending != [] {
      var head := pending[0];
      var c' := Examine(c, s, head, price);
      FireLogPositive(c', s, pending[1..], price);
    }
  }

  lemma {:induction false} StepLogPositive(c: Core, e: Event)
    requires PositiveModifies(c.log) && Allowed(c, e)
    ensures PositiveModifies(Step(c, e).log)
  {
    hide Match, Push, Fire, FitsAll, Cancel, Resized;
    match e
    case DoCheck(s, price) => if s in c.triggers { FireLogPositive(c, s, c.triggers[s], price); }
    case DoReplay(log) => ReplayIsSilent(c.(logging := false), log);
    case _ =>
  }

  lemma {:induction false} RunLogsArePositive(c0: Core, es: seq<Event>)
    requires Run(c0, es) && PositiveModifies(c0.log)
    ensures PositiveModifies(State(c0, es).log)
  {
    hide Step, Allowed, PositiveModifies;
    if es != [] {
      RunLogsArePositive(c0, es[..|es| - 1]);
      StepLogPositive(State(c0, es[..|es| - 1]), es[|es| - 1]);
    }
  }

  /** No state that replay of a run's log passes through has a crossed book. */
  lemma {:induction false} ReplayOfRunsUncrossed(c0: Core, es: seq<Event>, n: nat)
    requires Run(c0, es) && PositiveModifies(c0.log) && n <= |State(c0, es).log|
    ensures BooksOk(Replay(REPLAYING, State(c0, es).log[..n]).books)
  {
    RunLogsArePositive(c0, es);
    hide Run, State, BooksOk;
    assert BooksOk(REPLAYING.books) by { NoBooks(); }
    ReplayStaysUncrossed(REPLAYING, State(c0, es).log[..n]);
  }

  lemma {:induction false} NoBooks()
    ensures BooksOk(REPLAYING.books)
  {
  }

  /** If a run submits no id twice, its log can be replayed into an empty engine, activations or not. */
  lemma {:induction false} DistinctRunLogsFit(c0: Core, es: seq<Event>)
    requires Run(c0, es) && PositiveModifies(c0.log) && DistinctSubmits(State(c0, es).log)
    ensures FitsAll(REPLAYING, State(c0, es).log) && Invariant(Replay(REPLAYING, State(c0, es).log))
  {
    RunLogsArePositive(c0, es);
    DistinctLogsFit(State(c0, es).log);
  }
}
