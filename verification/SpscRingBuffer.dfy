/** push, pop and the queries of null/spsc_ring_buffer.h as code over the index fields and
    the slot array, each proved to perform steps of the machine in Spsc. The other side may
    run between any two accesses, and loads of its index may be stale. */
module SpscRingBuffer {
  import opened Spsc

  class SpscRingBuffer<T(0)> {
    const capacity: nat
    var head: nat
    var tail: nat
    const buffer: array<T>
    ghost var ring: Ring<T>

    /** Each slot holds the newest value written to it. */
    ghost predicate SlotsCurrent()
      reads this, buffer
    {
      && buffer.Length == capacity + 1
      && (forall j :: 0 <= j < |ring.slotWrites| && |ring.slotWrites| <= j + capacity + 1 ==>
            0 <= ring.slotWrites[j].slot < buffer.Length && buffer[ring.slotWrites[j].slot] == ring.slotWrites[j].value)
    }

    ghost predicate Valid()
      reads this, buffer
    {
      && Inv(ring) && ring.capacity == capacity
      && head == Head(ring) && tail == Tail(ring)
      && SlotsCurrent()
    }

    constructor (capacity: nat)
      ensures Valid() && ring == Init(capacity)
      ensures fresh(buffer)
    {
      this.capacity := capacity;
      head, tail := 0, 0;
      buffer := new T[capacity + 1];
      ring := Init(capacity);
      InitInv<T>(capacity);
    }

    /** The consumer's thread runs: it may pop, but it writes no slot (see
        ConsumerKeepsProducer). */
    method ConsumerRuns()
      requires Valid()
      modifies this`tail, this`ring
      ensures Valid()
      ensures ring.heads == old(ring).heads && ring.producer == old(ring).producer
      ensures ring.seenTail == old(ring).seenTail && ring.accepted == old(ring).accepted
      ensures old(ring).tails <= ring.tails
    {
    }

    /** The producer's thread runs: it may push into free slots (see ProducerKeepsConsumer). */
    method ProducerRuns()
      requires Valid()
      modifies this`head, this`ring, buffer
      ensures Valid()
      ensures ring.tails == old(ring).tails && ring.consumer == old(ring).consumer
      ensures ring.seenHead == old(ring).seenHead && ring.popped == old(ring).popped
      ensures old(ring).heads <= ring.heads && old(ring).accepted <= ring.accepted
    {
    }

    /** A load of `tail_` by the producer: the newest value, or an older one it has not
        seen overtaken. */
    method LoadTail() returns (value: nat, ghost i: nat)
      requires Valid()
      ensures ring.seenTail <= i < |ring.tails| && value == ring.tails[i].value
    {
      value, i := tail, |ring.tails| - 1;
    }

    /** A load of `head_` by the consumer. */
    method LoadHead() returns (value: nat, ghost i: nat)
      requires Valid()
      ensures ring.seenHead <= i < |ring.heads| && value == ring.heads[i].value
    {
      value, i := head, |ring.heads| - 1;
    }

    method WriteSlot(slot: nat, item: T)
      requires Valid() && ring.producer == PWrite(item) && slot == head
      modifies this`ring, buffer
      ensures Valid() && ring.producer == PPublish(item)
      ensures ring.heads == old(ring).heads && ring.accepted == old(ring).accepted
      ensures ring.seenTail == old(ring).seenTail
      ensures buffer[..] == old(buffer[..])[slot := item]
    {
      StepKeepsInv(ring, PushWrite);
      ghost var before := ring;
      LastIndex(ring.heads, capacity + 1);
      forall j | 0 <= j < |ring.slotWrites| && |ring.slotWrites| <= j + capacity
        ensures ring.slotWrites[j].slot != slot
      {
        ModDiffers(j, P(ring), capacity + 1);
      }
      buffer[slot] := item;
      ring := Apply(ring, PushWrite);
    }

    /** The fullness test of push. */
    method RoomFor(item: T, nextHead: nat) returns (room: bool)
      requires Valid() && ring.producer.PIdle? && nextHead == (head + 1) % (capacity + 1)
      modifies this`ring
      ensures Valid()
      ensures ring.heads == old(ring).heads && ring.accepted == old(ring).accepted
      ensures if room then ring.producer == PWrite(item)
              else ring.producer.PIdle? && P(ring) - ring.seenTail == capacity
      ensures P(ring) - old(ring).seenTail < capacity ==> room
    {
      hide IndicesValid, DataValid;
      var tailSeen;
      ghost var i;
      tailSeen, i := LoadTail();
      PushTest(ring, i);
      StepKeepsInv(ring, PushLoad(item, i));
      room := nextHead != tailSeen;
      ring := Apply(ring, PushLoad(item, i));
    }

    /** The release store of push. */
    method StoreHead(nextHead: nat)
      requires Valid() && ring.producer.PPublish? && nextHead == (head + 1) % (capacity + 1)
      modifies this`head, this`ring
      ensures Valid() && ring.producer.PIdle?
      ensures ring.accepted == old(ring).accepted + [old(ring).producer.item]
    {
      StepKeepsInv(ring, PushPublish);
      hide Inv;
      ring := Apply(ring, PushPublish);
      head := nextHead;
    }

    /** A push is refused only when the newest tail the producer has seen leaves no room,
        and never when it had already seen room. */
    method Push(item: T) returns (ok: bool)
      requires Valid() && ring.producer.PIdle?
      modifies this`head, this`tail, this`ring, buffer
      ensures Valid() && ring.producer.PIdle?
      ensures ring.accepted == if ok then old(ring).accepted + [item] else old(ring).accepted
      ensures !ok ==> P(ring) - ring.seenTail == capacity
      ensures old(P(ring) - ring.seenTail) < capacity ==> ok
    {
      hide Inv, SlotsCurrent, Apply;
      var currHead := head;
      var nextHead := (currHead + 1) % (capacity + 1);
      ConsumerRuns();
      var room := RoomFor(item, nextHead);
      if !room {
        return false;
      }
      ConsumerRuns();
      WriteSlot(currHead, item);
      ConsumerRuns();
      StoreHead(nextHead);
      ok := true;
    }

    /** The emptiness test of pop. */
    method SomethingIn(currTail: nat) returns (some: bool)
      requires Valid() && ring.consumer.CIdle? && currTail == tail
      modifies this`ring
      ensures Valid()
      ensures ring.tails == old(ring).tails && ring.popped == old(ring).popped
      ensures ring.heads == old(ring).heads && ring.accepted == old(ring).accepted
      ensures if some then ring.consumer.CRead? else ring.consumer.CIdle? && ring.seenHead == C(ring)
      ensures C(ring) < old(ring).seenHead ==> some
    {
      hide IndicesValid, DataValid;
      var headSeen;
      ghost var i;
      headSeen, i := LoadHead();
      PopTest(ring, i);
      StepKeepsInv(ring, PopLoad(i));
      some := currTail != headSeen;
      ring := Apply(ring, PopLoad(i));
    }

    /** The release store of pop. */
    method StoreTail(currTail: nat)
      requires Valid() && ring.consumer.CRelease? && currTail == tail
      modifies this`tail, this`ring
      ensures Valid() && ring.consumer.CIdle?
      ensures ring.popped == old(ring).popped + [old(ring).consumer.elem]
      ensures ring.popped <= ring.accepted
    {
      StepKeepsInv(ring, PopRelease);
      PoppedIsPrefix(Apply(ring, PopRelease));
      hide Inv;
      ring := Apply(ring, PopRelease);
      tail := (currTail + 1) % (capacity + 1);
    }

    /** A pop is refused only when the newest head the consumer has seen leaves nothing,
        and it returns the oldest element accepted and not yet popped. */
    method Pop() returns (ok: bool, elem: T)
      requires Valid() && ring.consumer.CIdle?
      modifies this`head, this`tail, this`ring, buffer
      ensures Valid() && ring.consumer.CIdle?
      ensures ring.popped == if ok then old(ring).popped + [elem] else old(ring).popped
      ensures ok ==> |old(ring).popped| < |ring.accepted| && elem == ring.accepted[|old(ring).popped|]
      ensures !ok ==> ring.seenHead == C(ring)
      ensures old(C(ring) < ring.seenHead) ==> ok
    {
      hide Inv, SlotsCurrent, Apply;
      elem := *;
      var currTail := tail;
      ProducerRuns();
      var some := SomethingIn(currTail);
      if !some {
        return false, elem;
      }
      ProducerRuns();
      elem := ReadSlot(currTail);
      ProducerRuns();
      StoreTail(currTail);
      ok := true;
    }

    method ReadSlot(slot: nat) returns (elem: T)
      requires Valid() && ring.consumer.CRead? && slot == tail
      modifies this`ring
      ensures Valid() && ring.consumer == CRelease(elem)
      ensures ring.heads == old(ring).heads && ring.tails == old(ring).tails && ring.popped == old(ring).popped
      ensures ring.accepted == old(ring).accepted && ring.seenHead == old(ring).seenHead
    {
      OldestIsVisible(ring);
      StepKeepsInv(ring, PopRead(C(ring)));
      LastIndex(ring.tails, capacity + 1);
      elem := buffer[slot];
      ring := Apply(ring, PopRead(C(ring)));
    }

    /** A relaxed load of `tail_` by the producer, outside push. */
    method LookAtTail() returns (value: nat)
      requires Valid() && ring.producer.PIdle?
      modifies this`ring
      ensures Valid() && ring.producer.PIdle? && ring.heads == old(ring).heads && ring.tails == old(ring).tails
      ensures ring.accepted == old(ring).accepted && ring.popped == old(ring).popped
      ensures old(ring).seenTail <= ring.seenTail < |ring.tails| && value == ring.tails[ring.seenTail].value
    {
      ghost var i;
      value, i := LoadTail();
      StepKeepsInv(ring, ProducerLook(i));
      hide Inv;
      ring := Apply(ring, ProducerLook(i));
    }

    /** A relaxed load of `head_` by the consumer, outside pop. */
    method LookAtHead() returns (value: nat)
      requires Valid() && ring.consumer.CIdle?
      modifies this`ring
      ensures Valid() && ring.consumer.CIdle? && ring.heads == old(ring).heads && ring.tails == old(ring).tails
      ensures ring.accepted == old(ring).accepted && ring.popped == old(ring).popped
      ensures old(ring).seenHead <= ring.seenHead < |ring.heads| && value == ring.heads[ring.seenHead].value
    {
      ghost var i;
      value, i := LoadHead();
      StepKeepsInv(ring, ConsumerLook(i));
      hide Inv;
      ring := Apply(ring, ConsumerLook(i));
    }

    /** size, called by the producer, with the consumer running between its loads: no less
        than the elements there are. */
    method ProducerSize() returns (size: int)
      requires Valid() && ring.producer.PIdle?
      modifies this`tail, this`ring
      ensures Valid() && ring.producer.PIdle? && ring.accepted == old(ring).accepted
      ensures |Queue(ring)| <= size <= capacity && size == P(ring) - ring.seenTail
    {
      hide Inv, SlotsCurrent;
      var currHead := head;
      ConsumerRuns();
      var currTail := LookAtTail();
      ProducerSizeBounds(ring, ring.seenTail);
      if currHead >= currTail {
        size := currHead - currTail;
      } else {
        size := (capacity + 1) - (currTail - currHead);
      }
    }

    /** size, called by the consumer, with the producer running before its own load: no more
        than the elements there are. */
    method ConsumerSize() returns (size: int)
      requires Valid() && ring.consumer.CIdle?
      modifies this`head, this`ring, buffer
      ensures Valid() && ring.consumer.CIdle? && ring.popped == old(ring).popped
      ensures 0 <= size <= |Queue(ring)| && size == ring.seenHead - C(ring)
    {
      hide Inv, SlotsCurrent;
      ProducerRuns();
      var currHead := LookAtHead();
      ConsumerSizeBounds(ring, ring.seenHead);
      ghost var seen := ring;
      ProducerRuns();
      QueueLength(seen);
      QueueLength(ring);
      var currTail := tail;
      if currHead >= currTail {
        size := currHead - currTail;
      } else {
        size := (capacity + 1) - (currTail - currHead);
      }
    }

    /** is_full, called by the producer: when it answers no, the next push is accepted. */
    method IsFull() returns (full: bool)
      requires Valid() && ring.producer.PIdle?
      modifies this`tail, this`ring
      ensures Valid() && ring.producer.PIdle? && ring.accepted == old(ring).accepted
      ensures full <==> P(ring) - ring.seenTail == capacity
      ensures |Queue(ring)| == capacity ==> full
    {
      hide SlotsCurrent;
      var nextHead := (head + 1) % (capacity + 1);
      ConsumerRuns();
      var currTail := LookAtTail();
      QueueLength(ring);
      PushTest(ring, ring.seenTail);
      hide Inv;
      full := nextHead == currTail;
    }

    /** is_empty, called by the consumer: when it answers no, the next pop is served. */
    method IsEmpty() returns (empty: bool)
      requires Valid() && ring.consumer.CIdle?
      modifies this`head, this`ring, buffer
      ensures Valid() && ring.consumer.CIdle? && ring.popped == old(ring).popped
      ensures empty <==> ring.seenHead == C(ring)
      ensures ring.accepted == ring.popped ==> empty
    {
      hide SlotsCurrent;
      ProducerRuns();
      var currHead := LookAtHead();
      PopTest(ring, ring.seenHead);
      PoppedIsPrefix(ring);
      SeenBounds(ring);
      hide Inv;
      empty := currHead == tail;
    }
  }

  lemma QueueLength<T>(s: Ring<T>)
    requires Inv(s)
    ensures |Queue(s)| == P(s) - C(s) && s.seenTail <= C(s)
  {
    hide IndicesValid;
  }

  lemma SeenBounds<T>(s: Ring<T>)
    requires Inv(s)
    ensures C(s) <= s.seenHead <= P(s) && s.seenTail <= C(s)
  {
    hide IndicesValid, DataValid;
  }
}
