/** The single-producer single-consumer ring of null/spsc_ring_buffer.h, one atomic or
    slot access at a time, under a weak memory model.

    Assumptions on C++ atomics: the values of one atomic form a modification order; a
    load returns any value not older than the newest one its thread has seen (coherence);
    an acquire load that reads a value also sees what its writer did before releasing it.
    Slots are plain memory: a read returns some write that the reader does not know to be
    overwritten. `Capacity + 1` is representable, and each side is one thread. */
module Spsc {

  /** A release store of an index, with the number of slot accesses made before it. */
  datatype Store = Store(value: nat, before: nat)
  datatype Write<T> = Write(slot: nat, value: T)

  datatype ProducerStage<T> = PIdle | PWrite(item: T) | PPublish(item: T)
  datatype ConsumerStage<T> = CIdle | CRead | CRelease(elem: T)

  /** `heads` and `tails` are the modification orders of `head_` and `tail_`; `slotWrites` and
      `slotReads` are the slot accesses so far; `seenTail` and `seenHead` index the newest
      store of the other side that the producer, and the consumer, has seen. */
  datatype Ring<T> = Ring(
    capacity: nat,
    heads: seq<Store>,
    tails: seq<Store>,
    slotWrites: seq<Write<T>>,
    slotReads: seq<nat>,
    seenTail: nat,
    seenHead: nat,
    producer: ProducerStage<T>,
    consumer: ConsumerStage<T>,
    accepted: seq<T>,
    popped: seq<T>)

  function Init<T>(capacity: nat): Ring<T> {
    Ring(capacity, [Store(0, 0)], [Store(0, 0)], [], [], 0, 0, PIdle, CIdle, [], [])
  }

  datatype Event<T> =
    | PushLoad(item: T, i: nat)   // acquire load of tail_ returns its i-th value
    | PushWrite
    | PushPublish
    | PopLoad(i: nat)             // acquire load of head_ returns its i-th value
    | PopRead(j: nat)             // the slot read returns the j-th slot write
    | PopRelease
    | ProducerLook(i: nat)        // relaxed load of tail_ in size, is_full or is_empty
    | ConsumerLook(i: nat)        // relaxed load of head_ in the same

  predicate ProducerEvent<T>(e: Event<T>) {
    e.PushLoad? || e.PushWrite? || e.PushPublish? || e.ProducerLook?
  }

  function Head<T>(s: Ring<T>): nat
    requires s.heads != []
  {
    s.heads[|s.heads| - 1].value
  }

  function Tail<T>(s: Ring<T>): nat
    requires s.tails != []
  {
    s.tails[|s.tails| - 1].value
  }

  function Next<T>(s: Ring<T>, index: nat): nat {
    (index + 1) % (s.capacity + 1)
  }

  predicate NonEmptyOrders<T>(s: Ring<T>) {
    s.heads != [] && s.tails != []
  }

  /** Slot writes the consumer knows of: those its last acquire made visible. */
  function KnownWrites<T>(s: Ring<T>): nat
    requires s.seenHead < |s.heads|
  {
    s.heads[s.seenHead].before
  }

  /** Slot reads the producer knows to be finished. */
  function KnownReads<T>(s: Ring<T>): nat
    requires s.seenTail < |s.tails|
  {
    s.tails[s.seenTail].before
  }

  /** A read of `slot` by the consumer may return the j-th write: to that slot, and not
      known to be overwritten. */
  ghost predicate Visible<T>(s: Ring<T>, slot: nat, j: nat)
    requires s.seenHead < |s.heads|
  {
    && j < |s.slotWrites| && s.slotWrites[j].slot == slot
    && !exists k :: j < k < KnownWrites(s) && k < |s.slotWrites| && s.slotWrites[k].slot == slot
  }

  ghost predicate Enabled<T>(s: Ring<T>, e: Event<T>)
    requires NonEmptyOrders(s)
  {
    match e
    case PushLoad(_, i) => s.producer.PIdle? && s.seenTail <= i < |s.tails|
    case PushWrite => s.producer.PWrite?
    case PushPublish => s.producer.PPublish?
    case PopLoad(i) => s.consumer.CIdle? && s.seenHead <= i < |s.heads|
    case PopRead(j) => s.consumer.CRead? && s.seenHead < |s.heads| && Visible(s, Tail(s), j)
    case PopRelease => s.consumer.CRelease?
    case ProducerLook(i) => s.producer.PIdle? && s.seenTail <= i < |s.tails|
    case ConsumerLook(i) => s.consumer.CIdle? && s.seenHead <= i < |s.heads|
  }

  ghost function Apply<T>(s: Ring<T>, e: Event<T>): (s': Ring<T>)
    requires NonEmptyOrders(s) && Enabled(s, e)
    ensures NonEmptyOrders(s')
  {
    match e
    case PushLoad(item, i) =>
      if Next(s, Head(s)) == s.tails[i].value then s.(seenTail := i)
      else s.(seenTail := i, producer := PWrite(item))
    case PushWrite =>
      s.(slotWrites := s.slotWrites + [Write(Head(s), s.producer.item)], producer := PPublish(s.producer.item))
    case PushPublish =>
      s.(heads := s.heads + [Store(Next(s, Head(s)), |s.slotWrites|)],
         accepted := s.accepted + [s.producer.item], producer := PIdle)
    case PopLoad(i) =>
      if Tail(s) == s.heads[i].value then s.(seenHead := i)
      else s.(seenHead := i, consumer := CRead)
    case PopRead(j) =>
      s.(slotReads := s.slotReads + [Tail(s)], consumer := CRelease(s.slotWrites[j].value))
    case PopRelease =>
      s.(tails := s.tails + [Store(Next(s, Tail(s)), |s.slotReads|)],
         popped := s.popped + [s.consumer.elem], consumer := CIdle)
    case ProducerLook(i) => s.(seenTail := i)
    case ConsumerLook(i) => s.(seenHead := i)
  }

  ghost predicate LegalRun<T>(s: Ring<T>, es: seq<Event<T>>)
    requires NonEmptyOrders(s)
    decreases |es|
  {
    es == [] || (Enabled(s, es[0]) && LegalRun(Apply(s, es[0]), es[1..]))
  }

  ghost function After<T>(s: Ring<T>, es: seq<Event<T>>): (s': Ring<T>)
    requires NonEmptyOrders(s) && LegalRun(s, es)
    ensures NonEmptyOrders(s')
    decreases |es|
  {
    if es == [] then s else After(Apply(s, es[0]), es[1..])
  }

  // ---- Invariant -------------------------------------------------------------------

  /** Unbounded counts of finished pushes and pops. */
  function P<T>(s: Ring<T>): int { |s.heads| - 1 }
  function C<T>(s: Ring<T>): int { |s.tails| - 1 }

  /** Store number i holds index i modulo `n` and was released after i slot accesses. */
  ghost predicate Turning(stores: seq<Store>, n: nat)
    requires n > 0
  {
    forall i :: 0 <= i < |stores| ==> stores[i] == Store(i % n, i)
  }

  ghost predicate IndicesValid<T>(s: Ring<T>) {
    var n := s.capacity + 1;
    && Turning(s.heads, n) && Turning(s.tails, n)
    && (forall j :: 0 <= j < |s.slotWrites| ==> s.slotWrites[j].slot == j % n)
    && (forall j :: 0 <= j < |s.slotReads| ==> s.slotReads[j] == j % n)
  }

  ghost predicate BoundsValid<T>(s: Ring<T>) {
    && NonEmptyOrders(s)
    && s.seenTail <= C(s) <= s.seenHead <= P(s) <= s.seenTail + s.capacity
    && (!s.producer.PIdle? ==> P(s) < s.seenTail + s.capacity)
    && (!s.consumer.CIdle? ==> C(s) < s.seenHead)
    && |s.slotWrites| == P(s) + (if s.producer.PPublish? then 1 else 0)
    && |s.slotReads| == C(s) + (if s.consumer.CRelease? then 1 else 0)
  }

  ghost predicate DataValid<T>(s: Ring<T>) {
    && NonEmptyOrders(s)
    && |s.accepted| == P(s) && |s.popped| == C(s)
    && |s.slotWrites| >= P(s) >= C(s)
    && (forall j :: 0 <= j < P(s) ==> s.slotWrites[j].value == s.accepted[j])
    && (s.producer.PPublish? && |s.slotWrites| == P(s) + 1 ==> s.slotWrites[P(s)].value == s.producer.item)
    && s.popped == s.accepted[..C(s)]
    && (s.consumer.CRelease? ==> C(s) < P(s) && s.consumer.elem == s.accepted[C(s)])
  }

  ghost predicate Inv<T>(s: Ring<T>) {
    IndicesValid(s) && BoundsValid(s) && DataValid(s)
  }

  // ---- Modular indices ---------------------------------------------------------------

  lemma ModNext(i: nat, n: nat)
    requires n > 0
    ensures (i % n + 1) % n == (i + 1) % n
  {
    var q := i / n;
    assert i == q * n + i % n;
    if i % n + 1 < n {
      DivModUnique(i + 1, n, q, i % n + 1);
    } else {
      assert i + 1 == (q + 1) * n;
      DivModUnique(i + 1, n, q + 1, 0);
    }
  }

  lemma MultipleIsFar(d: int, n: nat)
    ensures d >= 1 ==> d * n >= n
    ensures d <= -1 ==> d * n + n <= 0
    ensures d >= 2 ==> d * n >= 2 * n
  {
    if d >= 1 {
      assert d * n == n + (d - 1) * n;
      if d >= 2 {
        assert (d - 1) * n == n + (d - 2) * n;
      }
    }
    if d <= -1 {
      assert d * n + n == (d + 1) * n;
    }
  }

  lemma DivModUnique(x: nat, n: nat, q: nat, r: nat)
    requires n > 0 && x == q * n + r && r < n
    ensures x % n == r
  {
    var d: int := x / n - q;
    assert x == (x / n) * n + x % n;
    assert d * n == r - x % n;
    MultipleIsFar(d, n);
  }

  /** Two counts less than a whole turn apart, seen through their slots. */
  lemma ModDistance(i: nat, j: nat, n: nat)
    requires 0 < n && i <= j < i + n
    ensures j - i == if j % n >= i % n then j % n - i % n else n - (i % n - j % n)
  {
    var d: int := j / n - i / n;
    assert j - i == d * n + j % n - i % n by {
      assert i == (i / n) * n + i % n;
      assert j == (j / n) * n + j % n;
    }
    MultipleIsFar(d, n);
  }

  /** Counts less than a whole turn apart fall on different slots. */
  lemma ModDiffers(i: nat, j: nat, n: nat)
    requires 0 < n && i < j < i + n
    ensures i % n != j % n
  {
    ModDistance(i, j, n);
  }

  lemma ModTurn(i: nat, n: nat)
    requires 0 < n
    ensures (i + n) % n == i % n
  {
    assert i == (i / n) * n + i % n;
    DivModUnique(i + n, n, i / n + 1, i % n);
  }

  // ---- What the index comparisons decide ---------------------------------------------

  /** A push that reads the i-th tail is refused exactly when, seen from there, the ring is full. */
  lemma PushTest<T>(s: Ring<T>, i: nat)
    requires Inv(s) && s.seenTail <= i < |s.tails|
    ensures Next(s, Head(s)) == s.tails[i].value <==> P(s) - i == s.capacity
  {
    var n := s.capacity + 1;
    ModNext(P(s), n);
    if P(s) + 1 == i + n {
      ModTurn(i, n);
    } else {
      ModDiffers(i, P(s) + 1, n);
    }
  }

  /** A pop that reads the i-th head is refused exactly when, seen from there, the ring is empty. */
  lemma PopTest<T>(s: Ring<T>, i: nat)
    requires Inv(s) && s.seenHead <= i < |s.heads|
    ensures Tail(s) == s.heads[i].value <==> i == C(s)
  {
    if i != C(s) {
      ModDiffers(C(s), i, s.capacity + 1);
    }
  }

  /** However stale the view, the only write a consumer's slot read can return is the
      oldest one not yet popped. */
  lemma ReadReturnsOldest<T>(s: Ring<T>, j: nat)
    requires Inv(s) && s.consumer.CRead? && Visible(s, Tail(s), j)
    ensures j == C(s)
  {
    var n := s.capacity + 1;
    assert C(s) < KnownWrites(s) && s.slotWrites[C(s)].slot == C(s) % n == Tail(s);
    if j > C(s) {
      ModDiffers(C(s), j, n);
    }
  }

  /** The oldest write is there to be read, so a pop never gets stuck. */
  lemma OldestIsVisible<T>(s: Ring<T>)
    requires Inv(s) && s.consumer.CRead?
    ensures 0 <= C(s) && Visible(s, Tail(s), C(s))
  {
    var n := s.capacity + 1;
    forall k | C(s) < k < KnownWrites(s) && k < |s.slotWrites| ensures s.slotWrites[k].slot != Tail(s) {
      ModDiffers(C(s), k, n);
    }
  }

  // ---- Every step keeps the invariant -------------------------------------------------

  lemma InitInv<T>(capacity: nat)
    ensures Inv(Init<T>(capacity))
  {
    DivModUnique(0, capacity + 1, 0, 0);
  }

  lemma TurnsOn(stores: seq<Store>, n: nat)
    requires n > 0 && stores != [] && Turning(stores, n)
    ensures Turning(stores + [Store((stores[|stores| - 1].value + 1) % n, |stores|)], n)
  {
    ModNext(|stores| - 1, n);
  }

  lemma PublishKeepsIndices<T>(s: Ring<T>, e: Event<T>)
    requires Inv(s) && Enabled(s, e) && (e.PushPublish? || e.PopRelease?)
    ensures IndicesValid(Apply(s, e))
  {
    TurnsOn(s.heads, s.capacity + 1);
    TurnsOn(s.tails, s.capacity + 1);
    hide DataValid, Turning;
  }

  lemma AccessKeepsIndices<T>(s: Ring<T>, e: Event<T>)
    requires Inv(s) && Enabled(s, e) && (e.PushWrite? || e.PopRead?)
    ensures IndicesValid(Apply(s, e))
  {
    LastIndex(s.heads, s.capacity + 1);
    LastIndex(s.tails, s.capacity + 1);
    hide DataValid, Turning;
  }

  lemma StepKeepsIndices<T>(s: Ring<T>, e: Event<T>)
    requires Inv(s) && Enabled(s, e)
    ensures IndicesValid(Apply(s, e))
  {
    hide DataValid, BoundsValid, Turning;
    if e.PushPublish? || e.PopRelease? {
      PublishKeepsIndices(s, e);
    } else if e.PushWrite? || e.PopRead? {
      AccessKeepsIndices(s, e);
    }
  }

  lemma LastIndex(stores: seq<Store>, n: nat)
    requires n > 0 && stores != [] && Turning(stores, n)
    ensures stores[|stores| - 1] == Store((|stores| - 1) % n, |stores| - 1)
  {
  }

  lemma StepKeepsBounds<T>(s: Ring<T>, e: Event<T>)
    requires Inv(s) && Enabled(s, e)
    ensures BoundsValid(Apply(s, e))
  {
    match e
    case PushLoad(_, i) => PushTest(s, i);
    case PopLoad(i) => PopTest(s, i);
    case _ =>
  }

  lemma ProducerKeepsData<T>(s: Ring<T>, e: Event<T>)
    requires Inv(s) && Enabled(s, e) && ProducerEvent(e)
    ensures DataValid(Apply(s, e))
  {
    hide IndicesValid;
    if e.PushPublish? {
      assert (s.accepted + [s.producer.item])[..C(s)] == s.accepted[..C(s)];
    }
  }

  lemma ConsumerKeepsData<T>(s: Ring<T>, e: Event<T>)
    requires Inv(s) && Enabled(s, e) && !ProducerEvent(e)
    ensures DataValid(Apply(s, e))
  {
    if e.PopRead? {
      ReadReturnsOldest(s, e.j);
    }
    hide IndicesValid;
    if e.PopRelease? {
      assert s.accepted[..C(s) + 1] == s.accepted[..C(s)] + [s.accepted[C(s)]];
    }
  }

  lemma StepKeepsInv<T>(s: Ring<T>, e: Event<T>)
    requires Inv(s) && Enabled(s, e)
    ensures Inv(Apply(s, e))
  {
    StepKeepsIndices(s, e);
    StepKeepsBounds(s, e);
    if ProducerEvent(e) {
      ProducerKeepsData(s, e);
    } else {
      ConsumerKeepsData(s, e);
    }
  }

  lemma {:induction false} RunKeepsInv<T>(s: Ring<T>, es: seq<Event<T>>)
    requires Inv(s) && LegalRun(s, es)
    ensures Inv(After(s, es))
    decreases |es|
  {
    if es != [] {
      StepKeepsInv(s, es[0]);
      RunKeepsInv(Apply(s, es[0]), es[1..]);
    }
  }

  // ---- Bounded FIFO --------------------------------------------------------------------

  /** The abstract queue: accepted and not yet popped. */
  ghost function Queue<T>(s: Ring<T>): seq<T>
    requires Inv(s)
  {
    s.accepted[C(s)..]
  }

  lemma PoppedIsPrefix<T>(s: Ring<T>)
    requires Inv(s)
    ensures s.popped <= s.accepted && |s.popped| == C(s) && |s.accepted| == P(s)
  {
    hide IndicesValid;
  }

  /** Every run, with any staleness the memory model allows, is a run of a bounded FIFO. */
  lemma EveryRunIsFifo<T>(capacity: nat, es: seq<Event<T>>)
    requires LegalRun(Init(capacity), es)
    ensures
      var s := After(Init(capacity), es);
      && Head(s) == P(s) % (capacity + 1) && Tail(s) == C(s) % (capacity + 1)
      && 0 <= P(s) - C(s) <= capacity
      && |s.accepted| == P(s) && |s.popped| == C(s)
      && s.popped <= s.accepted
  {
    InitInv<T>(capacity);
    RunKeepsInv(Init(capacity), es);
    RunKeepsCapacity(Init(capacity), es);
  }

  lemma {:induction false} RunKeepsCapacity<T>(s: Ring<T>, es: seq<Event<T>>)
    requires NonEmptyOrders(s) && LegalRun(s, es)
    ensures After(s, es).capacity == s.capacity
    decreases |es|
  {
    if es != [] {
      RunKeepsCapacity(Apply(s, es[0]), es[1..]);
    }
  }

  /** Step by step: publishing enqueues into a queue with room, releasing dequeues the
      oldest element, and no other access changes the queue. */
  lemma StepRefinesQueue<T>(s: Ring<T>, e: Event<T>)
    requires Inv(s) && Enabled(s, e)
    ensures Inv(Apply(s, e))
    ensures e.PushPublish? ==>
      |Queue(s)| < s.capacity && Queue(Apply(s, e)) == Queue(s) + [s.producer.item]
    ensures e.PopRelease? ==>
      Queue(s) == [s.consumer.elem] + Queue(Apply(s, e)) && Apply(s, e).popped == s.popped + [s.consumer.elem]
    ensures !e.PushPublish? && !e.PopRelease? ==>
      Queue(Apply(s, e)) == Queue(s) && Apply(s, e).popped == s.popped
  {
    StepKeepsInv(s, e);
    hide IndicesValid;
    if e.PushPublish? {
      assert (s.accepted + [s.producer.item])[C(s)..] == s.accepted[C(s)..] + [s.producer.item];
    } else if e.PopRelease? {
      assert s.accepted[C(s)..] == [s.accepted[C(s)]] + s.accepted[C(s) + 1..];
    }
  }

  /** What a call's refusal says: with an up-to-date index it is exact, with a stale one a
      push may be refused by a queue that has room again, a pop by one no longer empty. */
  lemma RefusalMeansSeenFullOrEmpty<T>(s: Ring<T>, item: T, i: nat)
    requires Inv(s)
    ensures Enabled(s, PushLoad(item, i)) ==>
      && (Apply(s, PushLoad(item, i)).producer.PIdle? <==> P(s) - i == s.capacity)
      && (|Queue(s)| == s.capacity ==> Apply(s, PushLoad(item, i)).producer.PIdle?)
      && (i == C(s) && |Queue(s)| < s.capacity ==> Apply(s, PushLoad(item, i)).producer == PWrite(item))
    ensures Enabled<T>(s, PopLoad(i)) ==>
      && (Apply(s, PopLoad(i)).consumer.CIdle? <==> i == C(s))
      && (Queue(s) == [] ==> Apply(s, PopLoad(i)).consumer.CIdle?)
      && (i == P(s) && Queue(s) != [] ==> Apply(s, PopLoad(i)).consumer == CRead)
  {
    if Enabled(s, PushLoad(item, i)) {
      PushTest(s, i);
    }
    if Enabled<T>(s, PopLoad(i)) {
      PopTest(s, i);
    }
  }

  lemma RunCons<T>(s: Ring<T>, e: Event<T>, es: seq<Event<T>>)
    requires NonEmptyOrders(s) && Enabled(s, e) && LegalRun(Apply(s, e), es)
    ensures LegalRun(s, [e] + es) && After(s, [e] + es) == After(Apply(s, e), es)
  {
    assert ([e] + es)[1..] == es;
  }

  /** That happens: one push and one pop leave a ring of capacity 1 empty, and a push whose
      load of the tail is stale is refused all the same. */
  lemma StaleTailRefuses<T>(a: T, b: T) returns (es: seq<Event<T>>)
    ensures LegalRun(Init<T>(1), es)
    ensures
      var s := After(Init<T>(1), es);
      && s.accepted == s.popped == [a] && |s.accepted| < |s.popped| + s.capacity
      && Enabled(s, PushLoad(b, 0)) && Apply(s, PushLoad(b, 0)).producer.PIdle?
  {
    var e0, e1, e2 := PushLoad(a, 0), Event<T>.PushWrite, Event<T>.PushPublish;
    var e3, e4, e5 := Event<T>.PopLoad(1), Event<T>.PopRead(0), Event<T>.PopRelease;
    var s0 := Init<T>(1);
    var s1 := Apply(s0, e0);
    var s2 := Apply(s1, e1);
    var s3 := Apply(s2, e2);
    assert s3 == Ring(1, [Store(0, 0), Store(1, 1)], [Store(0, 0)], [Write(0, a)], [], 0, 0, PIdle, CIdle, [a], []);
    var s4 := Apply(s3, e3);
    var s5 := Apply(s4, e4);
    var s6 := Apply(s5, e5);
    assert s6.heads == [Store(0, 0), Store(1, 1)] && s6.tails == [Store(0, 0), Store(1, 1)];
    assert s6.accepted == s6.popped == [a] && s6.producer.PIdle? && s6.seenTail == 0 && s6.capacity == 1;
    assert Enabled(s6, PushLoad(b, 0)) && Apply(s6, PushLoad(b, 0)).producer.PIdle?;
    hide Apply, Enabled;
    es := [e5];
    RunCons(s5, e5, []);
    RunCons(s4, e4, es);
    es := [e4] + es;
    RunCons(s3, e3, es);
    es := [e3] + es;
    RunCons(s2, e2, es);
    es := [e2] + es;
    RunCons(s1, e1, es);
    es := [e1] + es;
    RunCons(s0, e0, es);
    es := [e0] + es;
  }

  // ---- No data race ---------------------------------------------------------------------

  /** While the consumer is about to read a slot, every write to that slot is one it knows
      of, and the producer is not about to write it. */
  lemma ReadIsRaceFree<T>(s: Ring<T>)
    requires Inv(s) && s.consumer.CRead?
    ensures forall j :: KnownWrites(s) <= j < |s.slotWrites| ==> s.slotWrites[j].slot != Tail(s)
    ensures s.producer.PWrite? ==> Head(s) != Tail(s)
  {
    var n := s.capacity + 1;
    forall j | KnownWrites(s) <= j < |s.slotWrites| ensures s.slotWrites[j].slot != Tail(s) {
      ModDiffers(C(s), j, n);
    }
    if s.producer.PWrite? {
      ModDiffers(C(s), P(s), n);
    }
  }

  /** While the producer is about to write a slot, every read of that slot is one it knows
      to be finished, and the consumer is not about to read it. */
  lemma WriteIsRaceFree<T>(s: Ring<T>)
    requires Inv(s) && s.producer.PWrite?
    ensures forall j :: KnownReads(s) <= j < |s.slotReads| ==> s.slotReads[j] != Head(s)
    ensures s.consumer.CRead? ==> Tail(s) != Head(s)
  {
    var n := s.capacity + 1;
    forall j | KnownReads(s) <= j < |s.slotReads| ensures s.slotReads[j] != Head(s) {
      ModDiffers(j, P(s), n);
    }
    if s.consumer.CRead? {
      ModDiffers(C(s), P(s), n);
    }
  }

  // ---- size, is_full, is_empty ------------------------------------------------------------

  function SizeOf(head: nat, tail: nat, capacity: nat): int {
    if head >= tail then head - tail else (capacity + 1) - (tail - head)
  }

  /** Reading store `p` of `head_` and store `c` of `tail_` gives their distance. */
  lemma SizeIsDistance<T>(s: Ring<T>, p: nat, c: nat)
    requires Inv(s) && p < |s.heads| && c < |s.tails| && 0 <= p - c <= s.capacity
    ensures SizeOf(s.heads[p].value, s.tails[c].value, s.capacity) == p - c
  {
    ModDistance(c, p, s.capacity + 1);
  }

  /** The producer never sees fewer elements than there are ... */
  lemma ProducerSizeBounds<T>(s: Ring<T>, i: nat)
    requires Inv(s) && s.seenTail <= i < |s.tails|
    ensures
      var size := SizeOf(Head(s), s.tails[i].value, s.capacity);
      size == P(s) - i && |Queue(s)| <= size <= s.capacity && (i == C(s) ==> size == |Queue(s)|)
  {
    SizeIsDistance(s, |s.heads| - 1, i);
    PoppedIsPrefix(s);
    hide IndicesValid, DataValid, SizeOf;
  }

  /** ... nor the consumer more. */
  lemma ConsumerSizeBounds<T>(s: Ring<T>, i: nat)
    requires Inv(s) && s.seenHead <= i < |s.heads|
    ensures
      var size := SizeOf(s.heads[i].value, Tail(s), s.capacity);
      size == i - C(s) && 0 <= size <= |Queue(s)| && (i == P(s) ==> size == |Queue(s)|)
  {
    SizeIsDistance(s, i, |s.tails| - 1);
    PoppedIsPrefix(s);
    hide IndicesValid, DataValid, SizeOf;
  }

  /** To any other thread, whatever mix of old values it reads, the size is in range. */
  lemma SizeInRange<T>(s: Ring<T>, i: nat, j: nat)
    requires Inv(s) && i < |s.heads| && j < |s.tails|
    ensures 0 <= SizeOf(s.heads[i].value, s.tails[j].value, s.capacity) <= s.capacity
  {
    assert 0 <= i % (s.capacity + 1) <= s.capacity;
    assert 0 <= j % (s.capacity + 1) <= s.capacity;
  }

  function IsFull<T>(s: Ring<T>, i: nat): bool
    requires NonEmptyOrders(s) && i < |s.tails|
  {
    Next(s, Head(s)) == s.tails[i].value
  }

  function IsEmpty<T>(s: Ring<T>, i: nat): bool
    requires NonEmptyOrders(s) && i < |s.heads|
  {
    s.heads[i].value == Tail(s)
  }

  /** What one side relies on is not touched by the other's steps. */
  lemma {:induction false} ConsumerKeepsProducer<T>(s: Ring<T>, es: seq<Event<T>>)
    requires NonEmptyOrders(s) && LegalRun(s, es)
    requires forall e :: e in es ==> !ProducerEvent(e)
    ensures
      var s' := After(s, es);
      && s'.heads == s.heads && s'.seenTail == s.seenTail && s'.producer == s.producer
      && s'.capacity == s.capacity && s'.accepted == s.accepted && s'.slotWrites == s.slotWrites
      && s.tails <= s'.tails
    decreases |es|
  {
    if es != [] {
      assert !ProducerEvent(es[0]);
      assert s.tails <= Apply(s, es[0]).tails;
      ConsumerKeepsProducer(Apply(s, es[0]), es[1..]);
    }
  }

  lemma {:induction false} ProducerKeepsConsumer<T>(s: Ring<T>, es: seq<Event<T>>)
    requires NonEmptyOrders(s) && LegalRun(s, es)
    requires forall e :: e in es ==> ProducerEvent(e)
    ensures
      var s' := After(s, es);
      && s'.tails == s.tails && s'.seenHead == s.seenHead && s'.consumer == s.consumer
      && s'.capacity == s.capacity && s'.popped == s.popped
      && s.heads <= s'.heads && s.accepted <= s'.accepted
    decreases |es|
  {
    if es != [] {
      assert ProducerEvent(es[0]);
      assert s.heads <= Apply(s, es[0]).heads && s.accepted <= Apply(s, es[0]).accepted;
      ProducerKeepsConsumer(Apply(s, es[0]), es[1..]);
    }
  }

  /** A producer that saw the ring not full has its next push accepted, whatever the
      consumer does in between and however stale the push's own load is. */
  lemma NotFullThenPushAccepted<T>(s: Ring<T>, i: nat, es: seq<Event<T>>, item: T, k: nat)
    requires Inv(s) && Enabled(s, ProducerLook(i)) && !IsFull(s, i)
    requires LegalRun(Apply(s, ProducerLook(i)), es) && forall e :: e in es ==> !ProducerEvent(e)
    requires var s' := After(Apply(s, ProducerLook(i)), es); Enabled(s', PushLoad(item, k))
    ensures
      var s' := After(Apply(s, ProducerLook(i)), es);
      Apply(s', PushLoad(item, k)).producer == PWrite(item)
  {
    var s0 := Apply<T>(s, ProducerLook(i));
    StepKeepsInv(s, ProducerLook(i));
    RunKeepsInv(s0, es);
    ConsumerKeepsProducer(s0, es);
    PushTest(s, i);
    PushTest(After(s0, es), k);
  }

  /** A consumer that saw the ring not empty has its next pop served. */
  lemma NotEmptyThenPopServed<T>(s: Ring<T>, i: nat, es: seq<Event<T>>, k: nat)
    requires Inv(s) && Enabled(s, ConsumerLook(i)) && !IsEmpty(s, i)
    requires LegalRun(Apply(s, ConsumerLook(i)), es) && forall e :: e in es ==> ProducerEvent(e)
    requires var s' := After(Apply(s, ConsumerLook(i)), es); Enabled(s', PopLoad(k))
    ensures
      var s' := After(Apply(s, ConsumerLook(i)), es);
      Apply(s', PopLoad(k)).consumer == CRead
  {
    var s0 := Apply<T>(s, ConsumerLook(i));
    StepKeepsInv(s, ConsumerLook(i));
    RunKeepsInv(s0, es);
    ProducerKeepsConsumer(s0, es);
    PopTest(s, i);
    PopTest(After(s0, es), k);
  }
}
