/** include/utils/ring_buffer.h: the index protocol of a single-producer single-consumer ring, with producer
    and consumer as separate steps on shared memory. */
module SpscRing {
  import opened Masking

  /** Where the producer is inside `push`. Locals: the item and the head index it loaded. */
  datatype Producer<T> = PIdle | PHead(item: T, head: nat) | PCan(item: T, head: nat) | PWriting(item: T, head: nat) |
    PWritten(item: T, head: nat)

  /** Where the consumer is inside `pop`. Locals: the tail index it loaded and the item it read. */
  datatype Consumer<T> = CIdle | CTail(tail: nat) | CCan(tail: nat) | CReading(tail: nat) | CRead(tail: nat, item: T)

  /** Shared memory, both program positions, and the history: items whose head store has happened,
      items whose tail store has happened, and the newest counter each side has seen of the other. */
  datatype Ring<T> = Ring(k: nat, buffer: seq<T>, head: nat, tail: nat, p: Producer<T>, c: Consumer<T>,
                          pushed: seq<T>, popped: seq<T>, seenTail: nat, seenHead: nat) {
    function Size(): nat { Pow2(k) }
    function Next(i: nat): nat { And(i + 1, Size() - 1) }
  }

  /** One atomic action. A load of the other side's index may return any value stored since the one seen
      last (`count` says which), as acquire loads may. A write in progress leaves junk in the slot. */
  datatype Action<T> =
    | PushLoadHead(item: T)
    | PushLoadTail(count: nat)
    | PushWriteBegin(junk: T)
    | PushWriteEnd
    | PushStoreHead
    | PopLoadTail
    | PopLoadHead(count: nat)
    | PopReadBegin
    | PopReadEnd
    | PopStoreTail

  predicate Enabled<T>(r: Ring<T>, a: Action<T>) {
    match a
    case PushLoadHead(_) => r.p.PIdle?
    case PushLoadTail(n) => r.p.PHead? && r.seenTail <= n <= |r.popped|
    case PushWriteBegin(_) => r.p.PCan? && r.p.head < |r.buffer|
    case PushWriteEnd => r.p.PWriting? && r.p.head < |r.buffer|
    case PushStoreHead => r.p.PWritten?
    case PopLoadTail => r.c.CIdle?
    case PopLoadHead(n) => r.c.CTail? && r.seenHead <= n <= |r.pushed|
    case PopReadBegin => r.c.CCan? && r.c.tail < |r.buffer|
    case PopReadEnd => r.c.CReading? && r.c.tail < |r.buffer|
    case PopStoreTail => r.c.CRead?
  }

  function Act<T>(r: Ring<T>, a: Action<T>): Ring<T>
    requires Enabled(r, a)
  {
    match a
    case PushLoadHead(item) => r.(p := PHead(item, r.head))
    case PushLoadTail(n) =>
      var full := r.Next(r.p.head) == n % r.Size();
      r.(p := if full then PIdle else PCan(r.p.item, r.p.head), seenTail := n)
    case PushWriteBegin(junk) => r.(p := PWriting(r.p.item, r.p.head), buffer := r.buffer[r.p.head := junk])
    case PushWriteEnd => r.(p := PWritten(r.p.item, r.p.head), buffer := r.buffer[r.p.head := r.p.item])
    case PushStoreHead => r.(p := PIdle, head := r.Next(r.p.head), pushed := r.pushed + [r.p.item])
    case PopLoadTail => r.(c := CTail(r.tail))
    case PopLoadHead(n) =>
      var empty := r.c.tail == n % r.Size();
      r.(c := if empty then CIdle else CCan(r.c.tail), seenHead := n)
    case PopReadBegin => r.(c := CReading(r.c.tail))
    case PopReadEnd => r.(c := CRead(r.c.tail, r.buffer[r.c.tail]))
    case PopStoreTail => r.(c := CIdle, tail := r.Next(r.c.tail), popped := r.popped + [r.c.item])
  }

  ghost predicate Initial<T>(r: Ring<T>) {
    && |r.buffer| == r.Size() && r.head == r.tail == 0
    && r.p.PIdle? && r.c.CIdle? && r.pushed == r.popped == [] && r.seenTail == r.seenHead == 0
  }

  // ----- Invariant

  /** Indices are the counters modulo the size; each side has seen enough of the other. */
  ghost predicate CountersOk<T>(r: Ring<T>) {
    && |r.buffer| == r.Size()
    && r.head == |r.pushed| % r.Size() && r.tail == |r.popped| % r.Size()
    && r.seenTail <= |r.popped| <= r.seenHead <= |r.pushed|
    && |r.pushed| - r.seenTail <= r.Size() - 1
  }

  ghost predicate PositionsOk<T>(r: Ring<T>)
    requires CountersOk(r)
  {
    && (!r.p.PIdle? ==> r.p.head == r.head)
    && (!r.c.CIdle? ==> r.c.tail == r.tail)
    && (r.p.PCan? || r.p.PWriting? || r.p.PWritten? ==> |r.pushed| - r.seenTail < r.Size() - 1)
    && (r.c.CCan? || r.c.CReading? || r.c.CRead? ==> |r.popped| < r.seenHead <= |r.pushed|)
    && (r.p.PWritten? ==> r.buffer[r.head] == r.p.item)
    && (r.c.CRead? ==> r.c.item == r.pushed[|r.popped|])
  }

  /** The slots between the counters hold the pushed items; what was popped is a prefix. */
  ghost predicate ContentsOk<T>(r: Ring<T>)
    requires CountersOk(r)
  {
    && (forall i | |r.popped| <= i < |r.pushed| :: r.buffer[i % r.Size()] == r.pushed[i])
    && r.popped <= r.pushed
  }

  ghost predicate Inv<T>(r: Ring<T>) {
    CountersOk(r) && PositionsOk(r) && ContentsOk(r)
  }

  lemma {:induction false} NextIsMod<T>(r: Ring<T>, n: nat)
    ensures r.Next(n % r.Size()) == (n + 1) % r.Size()
  {
    MaskIsMod(n % r.Size() + 1, r.k);
    ModStep(n, r.Size());
  }

  /** The slot the producer may write is none of those between the counters. */
  lemma {:induction false} WriteSlotIsFree<T>(r: Ring<T>, i: nat)
    requires CountersOk(r) && |r.popped| <= i < |r.pushed|
    ensures i % r.Size() != r.head
  {
    ModDistinct(i, |r.pushed|, r.Size());
  }

  /** Writing the producer's slot leaves the held items alone. */
  lemma {:induction false} WriteKeepsContents<T>(r: Ring<T>, item: T)
    requires Inv(r) && (r.p.PCan? || r.p.PWriting?)
    ensures ContentsOk(r.(buffer := r.buffer[r.head := item]))
  {
    forall i | |r.popped| <= i < |r.pushed|
      ensures i % r.Size() != r.head
    {
      WriteSlotIsFree(r, i);
    }
  }

  lemma {:induction false} ProducerKeepsInv<T>(r: Ring<T>, a: Action<T>)
    requires Inv(r) && Enabled(r, a)
    requires a.PushLoadHead? || a.PushLoadTail? || a.PushWriteBegin? || a.PushWriteEnd? || a.PushStoreHead?
    ensures Inv(Act(r, a))
  {
    match a
    case PushLoadHead(_) =>
    case PushLoadTail(c) => PushSeesFullness(r, c);
    case PushWriteBegin(x) =>
      WriteKeepsContents(r, x);
      hide ContentsOk;
    case PushWriteEnd =>
      WriteKeepsContents(r, r.p.item);
      hide ContentsOk;
    case PushStoreHead => NextIsMod(r, |r.pushed|);
  }

  lemma {:induction false} ConsumerKeepsInv<T>(r: Ring<T>, a: Action<T>)
    requires Inv(r) && Enabled(r, a)
    requires a.PopLoadTail? || a.PopLoadHead? || a.PopReadBegin? || a.PopReadEnd? || a.PopStoreTail?
    ensures Inv(Act(r, a))
  {
    match a
    case PopLoadTail =>
    case PopLoadHead(c) => PopSeesEmptiness(r, c);
    case PopReadBegin =>
    case PopReadEnd => assert r.buffer[|r.popped| % r.Size()] == r.pushed[|r.popped|];
    case PopStoreTail => NextIsMod(r, |r.popped|);
  }

  lemma {:induction false} StepKeepsInv<T>(r: Ring<T>, a: Action<T>)
    requires Inv(r) && Enabled(r, a)
    ensures Inv(Act(r, a))
  {
    hide Inv, Enabled, Act;
    if a.PushLoadHead? || a.PushLoadTail? || a.PushWriteBegin? || a.PushWriteEnd? || a.PushStoreHead? {
      ProducerKeepsInv(r, a);
    } else {
      ConsumerKeepsInv(r, a);
    }
  }

  /** A push fails exactly when the tail it loaded shows Size - 1 items; with the current tail, exactly
      when the buffer is full at that load. */
  lemma {:induction false} PushSeesFullness<T>(r: Ring<T>, count: nat)
    requires Inv(r) && Enabled(r, PushLoadTail(count))
    ensures Act(r, PushLoadTail(count)).p.PIdle? <==> |r.pushed| - count == r.Size() - 1
    ensures count == |r.popped| ==> (Act(r, PushLoadTail(count)).p.PIdle? <==> |r.pushed| - |r.popped| == r.Size() - 1)
    ensures |r.pushed| - count <= r.Size() - 1
  {
    NextIsMod(r, |r.pushed|);
    ModDistinct(count, |r.pushed| + 1, r.Size());
  }

  /** A pop fails exactly when the head it loaded shows no item; with the current head, exactly when the
      buffer is empty at that load. */
  lemma {:induction false} PopSeesEmptiness<T>(r: Ring<T>, count: nat)
    requires Inv(r) && Enabled(r, PopLoadHead(count))
    ensures Act(r, PopLoadHead(count)).c.CIdle? <==> count == |r.popped|
    ensures count == |r.pushed| ==> (Act(r, PopLoadHead(count)).c.CIdle? <==> |r.pushed| == |r.popped|)
  {
    ModDistinct(|r.popped|, count, r.Size());
  }

  // ----- All interleavings

  ghost predicate Execution<T>(r0: Ring<T>, actions: seq<Action<T>>, rs: seq<Ring<T>>) {
    && |rs| == |actions| + 1 && rs[0] == r0 && Initial(r0)
    && forall i | 0 <= i < |actions| :: Enabled(rs[i], actions[i]) && rs[i + 1] == Act(rs[i], actions[i])
  }

  lemma {:induction false} ExecutionsKeepInv<T>(r0: Ring<T>, actions: seq<Action<T>>, rs: seq<Ring<T>>, i: nat)
    requires Execution(r0, actions, rs) && i < |rs|
    ensures Inv(rs[i])
  {
    if i > 0 {
      ExecutionsKeepInv(r0, actions, rs, i - 1);
      assert Enabled(rs[i - 1], actions[i - 1]) && rs[i - 1 + 1] == Act(rs[i - 1], actions[i - 1]);
      hide Inv, Enabled, Act;
      StepKeepsInv(rs[i - 1], actions[i - 1]);
    }
  }

  /** Under every interleaving: popped items are a prefix of pushed items, at most Size - 1 are held, and
      no slot is written while it is being read. */
  lemma {:induction false} FifoUnderEveryInterleaving<T>(r0: Ring<T>, actions: seq<Action<T>>, rs: seq<Ring<T>>, i: nat)
    requires Execution(r0, actions, rs) && i < |rs|
    ensures var r := rs[i];
            && r.popped <= r.pushed
            && |r.pushed| - |r.popped| <= r.Size() - 1
            && (r.p.PWriting? && r.c.CReading? ==> r.p.head != r.c.tail)
  {
    ExecutionsKeepInv(r0, actions, rs, i);
    var r := rs[i];
    if r.p.PWriting? && r.c.CReading? {
      WriteSlotIsFree(r, |r.popped|);
    }
  }

  /** No step is ever blocked: whatever the interleaving, both sides can always take their next step. */
  lemma {:induction false} NeverBlocked<T>(r: Ring<T>, item: T)
    requires Inv(r)
    ensures exists a: Action<T> :: Enabled(r, a) && Act(r, a).p != r.p
    ensures exists a: Action<T> :: Enabled(r, a) && Act(r, a).c != r.c
  {
    var a: Action<T> := match r.p
      case PIdle => PushLoadHead(item)
      case PHead(_, _) => PushLoadTail(|r.popped|)
      case PCan(_, _) => PushWriteBegin(item)
      case PWriting(_, _) => PushWriteEnd
      case PWritten(_, _) => PushStoreHead;
    var b: Action<T> := match r.c
      case CIdle => PopLoadTail
      case CTail(_) => PopLoadHead(|r.pushed|)
      case CCan(_) => PopReadBegin
      case CReading(_) => PopReadEnd
      case CRead(_, _) => PopStoreTail;
    assert Enabled(r, a) && Act(r, a).p != r.p;
    assert Enabled(r, b) && Act(r, b).c != r.c;
  }
}
