/** The engine as a step machine: one step per critical section under the engine mutex, in any order,
    from any state; invariants of all its runs, and the life of a trigger order. */
module EngineRuns {
  import opened Orders
  import opened FlatBook
  import opened EngineCore
  import opened Recovery

  /** The critical sections that change books, triggers or log. A trade may be stamped, and triggers
      may be checked at any price, at any moment: that covers every interleaving of threads. */
  datatype Event =
    | DoSubmit(order: Ticket)
    | DoCancel(id: OrderId)
    | DoModify(id: OrderId, quantity: real)
    | DoCheck(symbol: Symbol, price: real)
    | DoStamp(trade: Trade)
    | DoReplay(log: seq<Entry>)

  ghost function Step(c: Core, e: Event): Core {
    match e
    case DoSubmit(t) => Submit(c, t)
    case DoCancel(id) => CancelOrder(c, id)
    case DoModify(id, q) => ModifyOrder(c, id, q)
    case DoCheck(s, price) => CheckTriggers(c, s, price)
    case DoStamp(trade) => Write(c, Traded(trade))
    case DoReplay(log) => Recover(c, log)
  }

  /** What the source asks of its callers. A modify of a resting order to no positive quantity breaks
      the order's book (`Books.OrderBook.ModifyOrder`); a log that does not fit breaks the engine
      (`Recovery.FitsExactly`). */
  ghost predicate Allowed(c: Core, e: Event) {
    match e
    case DoSubmit(t) => !RestsAnywhere(c.books, t.id) && !PendingAnywhere(c.triggers, t.id)
    case DoModify(id, q) => q > 0.0 || !RestsAnywhere(c.books, id)
    case DoReplay(log) => FitsAll(c.(logging := false), log)
    case _ => true
  }

  /** The state after some events, from `c0` on. */
  ghost function State(c0: Core, es: seq<Event>): Core {
    if es == [] then c0 else Step(State(c0, es[..|es| - 1]), es[|es| - 1])
  }

  ghost predicate Run(c0: Core, es: seq<Event>) {
    es != [] ==> Run(c0, es[..|es| - 1]) && Allowed(State(c0, es[..|es| - 1]), es[|es| - 1])
  }

  /** The engine does not replay while it runs. */
  predicate Live(es: seq<Event>) {
    forall i | 0 <= i < |es| :: !es[i].DoReplay?
  }

  lemma {:induction false} RecoverKeeps(c: Core, log: seq<Entry>)
    requires Invariant(c) && FitsAll(c.(logging := false), log)
    ensures Invariant(Recover(c, log)) && Recover(c, log).log == c.log
  {
    hide BooksOk, OneBook, TriggersOk, Apart;
    assert Invariant(c.(logging := false));
    ReplayKeeps(c.(logging := false), log);
    ReplayIsSilent(c.(logging := false), log);
  }

  lemma {:induction false} StepKeeps(c: Core, e: Event)
    requires Invariant(c) && Allowed(c, e)
    ensures Invariant(Step(c, e)) && Step(c, e).logging == c.logging
  {
    match e
    case DoSubmit(t) => SubmitKeeps(c, t);
    case DoCancel(id) => CancelKeeps(c, id);
    case DoModify(id, q) => ModifyKeeps(c, id, q);
    case DoCheck(s, price) =>
      CheckKeeps(c, s, price);
      if s in c.triggers {
        FireLogging(c, s, c.triggers[s], price);
      }
    case DoStamp(_) =>
    case DoReplay(log) => RecoverKeeps(c, log);
  }

  /** In every state that submits, cancels, modifies, activations, stamps and replays lead to from a
      sound one, every book is well formed and uncrossed, no id rests in two books, and no id is both
      pending and resting. */
  lemma {:induction false} RunsAreSafe(c0: Core, es: seq<Event>)
    requires Invariant(c0) && Run(c0, es)
    ensures Invariant(State(c0, es)) && State(c0, es).logging == c0.logging
  {
    hide Step, Allowed, Invariant;
    if es != [] {
      RunsAreSafe(c0, es[..|es| - 1]);
      StepKeeps(State(c0, es[..|es| - 1]), es[|es| - 1]);
    }
  }

  lemma {:induction false} RunPrefix(c0: Core, es: seq<Event>, n: nat)
    requires Run(c0, es) && n <= |es|
    ensures Run(c0, es[..n])
    decreases |es|
  {
    hide Allowed, State;
    if n < |es| {
      RunPrefix(c0, es[..|es| - 1], n);
      assert es[..|es| - 1][..n] == es[..n];
    } else {
      assert es[..n] == es;
    }
  }

  // ----- Trigger lifecycle

  predicate SubmitsTrigger(e: Entry, id: OrderId) {
    e.Submitted? && IsTrigger(e.order.kind) && e.order.id == id
  }

  function TriggerSubmits(log: seq<Entry>, id: OrderId): nat {
    if log == [] then 0
    else
      var e := log[|log| - 1];
      TriggerSubmits(log[..|log| - 1], id) + if SubmitsTrigger(e, id) then 1 else 0
  }

  function Activations(log: seq<Entry>, id: OrderId): nat {
    if log == [] then 0
    else
      var e := log[|log| - 1];
      Activations(log[..|log| - 1], id) + if e.Activated? && e.id == id then 1 else 0
  }

  lemma {:induction false} CountWrite(log: seq<Entry>, e: Entry, id: OrderId)
    ensures TriggerSubmits(log + [e], id) == TriggerSubmits(log, id) + if SubmitsTrigger(e, id) then 1 else 0
    ensures Activations(log + [e], id) == Activations(log, id) + if e.Activated? && e.id == id then 1 else 0
  {
    assert (log + [e])[..|log|] == log;
  }

  lemma {:induction false} FireCounts(c: Core, s: Symbol, pending: seq<Ticket>, price: real, id: OrderId)
    requires c.logging && Unique(pending)
    ensures var f := Fire(c, s, pending, price);
            && TriggerSubmits(f.log, id) == TriggerSubmits(c.log, id)
            && Activations(f.log, id) == Activations(c.log, id) + if HitId(pending, price, id) then 1 else 0
    decreases |pending|
  {
    if pending != [] {
      var head := pending[0];
      HitIdTail(pending, price, id);
      if head.id == id { assert !HasId(pending[1..], id); }
      if Hit(head, price) {
        CountWrite(c.log, Activated(head.id, s), id);
        FireCounts(Examine(c, s, head, price), s, pending[1..], price, id);
      } else {
        FireCounts(c, s, pending[1..], price, id);
      }
    }
  }

  ghost predicate Balanced(c: Core, id: OrderId) {
    TriggerSubmits(c.log, id) == Activations(c.log, id) + if PendingAnywhere(c.triggers, id) then 1 else 0
  }

  lemma {:induction false} CheckBalances(c: Core, s: Symbol, price: real, id: OrderId)
    requires Invariant(c) && c.logging && Balanced(c, id)
    ensures Balanced(CheckTriggers(c, s, price), id)
  {
    if s in c.triggers {
      FireCounts(c, s, c.triggers[s], price, id);
      CheckKeepsTriggers(c.triggers, s, price);
      if HitId(c.triggers[s], price, id) { assert PendingIn(c.triggers, s, id); }
    }
  }

  lemma {:induction false} StepBalances(c: Core, e: Event, id: OrderId)
    requires Invariant(c) && c.logging && Allowed(c, e) && Balanced(c, id) && !e.DoReplay?
    ensures Balanced(Step(c, e), id)
  {
    hide Match, Push, Fire, CheckTriggers, TriggerSubmits, Activations, Invariant, PendingAnywhere, RestsAnywhere;
    match e
    case DoSubmit(t) =>
      CountWrite(c.log, Submitted(t), id);
      PushAdds(c.triggers, t, id);
    case DoCancel(x) => CountWrite(c.log, Cancelled(x), id);
    case DoModify(x, q) => CountWrite(c.log, Modified(x, q), id);
    case DoStamp(trade) => CountWrite(c.log, Traded(trade), id);
    case DoCheck(s, price) => CheckBalances(c, s, price, id);
  }

  /** Every submitted trigger order is either still pending or was activated, once: an id that was
      submitted as a trigger at most once is activated at most once. */
  lemma {:induction false} TriggersFireOnce(c0: Core, es: seq<Event>, id: OrderId)
    requires Invariant(c0) && c0.logging && Run(c0, es) && Live(es) && Balanced(c0, id)
    ensures Balanced(State(c0, es), id)
  {
    hide Balanced, Step, Allowed, Invariant;
    if es != [] {
      var p := es[..|es| - 1];
      TriggersFireOnce(c0, p, id);
      RunsAreSafe(c0, p);
      StepBalances(State(c0, p), es[|es| - 1], id);
    }
  }

  /** A new engine is sound and balanced. */
  lemma {:induction false} NewEngine(id: OrderId)
    ensures Invariant(START) && Balanced(START, id)
  {
    EmptyEngine(START);
  }
}
