/** The handle operations of null/shared_ptr.h and null/weak_ptr.h on a heap whose
    pointees hold handles themselves, run by one thread, so that a release cascades.

    Assumption: a pointee's destructor does nothing but destroy the handles inside it.
    Their order is left open; C++ fixes one. */
module SharedHeap {
  import opened Collections
  import opened Ownership

  /** Blocks that are not destroyed have entries in `use` and `weak`; a destroyed block
      has none, so that every access to one would be an error here. */
  datatype Heap = Heap(
    use: map<nat, int>,
    weak: map<nat, int>,
    slots: Slots,
    disposed: set<nat>,    // dispose has been called
    disposing: set<nat>)   // dispose has been called and has not returned

  function Live(h: Heap): set<nat> {
    h.use.Keys - h.disposed
  }

  function At(slots: Slots, l: Loc): Option<Slot> {
    if l in slots then Some(slots[l]) else None
  }

  function Put(slots: Slots, l: Loc, o: Option<Slot>): Slots {
    if o.Some? then slots[l := o.value] else slots - {l}
  }

  ghost function Count(slots: Slots, s: Slot): nat {
    |LocsOf(slots, s)|
  }

  ghost predicate LocsValid(h: Heap) {
    && h.use.Keys == h.weak.Keys
    && h.disposing <= h.disposed * h.use.Keys
    && (forall l :: l in h.slots ==> h.slots[l].block in h.use && HolderValid(h, l.holder))
  }

  ghost predicate HolderValid(h: Heap, holder: Holder) {
    holder == Root || holder.block in Live(h) || holder.block in h.disposing
  }

  /** The owners' shared unit of the weak count is held until `dispose` has returned. */
  function OwnersUnit(h: Heap, b: nat): nat {
    if b !in h.disposed || b in h.disposing then 1 else 0
  }

  ghost predicate CountsValid(h: Heap) {
    && h.use.Keys == h.weak.Keys
    && (forall b :: b in h.use ==> h.use[b] == Count(h.slots, Strong(b)))
    && (forall b :: b in h.use ==> (h.use[b] == 0 <==> b in h.disposed))
    && (forall b :: b in h.weak ==> 0 < h.weak[b] == Count(h.slots, Weak(b)) + OwnersUnit(h, b))
  }

  ghost predicate Inv(h: Heap) {
    LocsValid(h) && CountsValid(h)
  }

  /** `h` is what remains of the given live blocks and slots once everything without an
      owner has been released. */
  ghost predicate Settled(live: set<nat>, slots: Slots, disposed: set<nat>, disposing: set<nat>, h: Heap) {
    && Live(h) == Retained(live, slots)
    && h.slots == Without(slots, live - Live(h))
    && h.disposed == disposed + (live - Live(h))
    && h.disposing == disposing
  }

  ghost predicate Released(h: Heap, drop: set<Loc>, h': Heap) {
    Settled(Live(h), h.slots - drop, h.disposed, h.disposing, h')
  }

  lemma PutLocs(slots: Slots, l: Loc, o: Option<Slot>, s: Slot)
    ensures LocsOf(Put(slots, l, o), s) == LocsOf(slots, s) - {l} + (if o == Some(s) then {l} else {})
    ensures l in LocsOf(slots, s) <==> At(slots, l) == Some(s)
  {
  }

  /** How rewriting one slot moves the number of handles of each kind to each block. */
  lemma PutCounts(slots: Slots, l: Loc, o: Option<Slot>, s: Slot)
    ensures
      Count(Put(slots, l, o), s) ==
      Count(slots, s) - (if At(slots, l) == Some(s) then 1 else 0) + (if o == Some(s) then 1 else 0)
  {
    hide LocsOf, Put, At;
    PutLocs(slots, l, o, s);
    RemoveCard(LocsOf(slots, s), l);
  }

  lemma RemoveCard(s: set<Loc>, l: Loc)
    ensures |s - {l}| == |s| - (if l in s then 1 else 0)
  {
    if l !in s {
      assert s - {l} == s;
    }
  }

  /** With every live block owned, the heap is settled as it is. */
  lemma InvIsSettled(h: Heap)
    requires Inv(h)
    ensures Released(h, {}, h)
  {
    assert h.slots - {} == h.slots;
    forall b | b in Live(h) ensures LocsOf(h.slots, Strong(b)) != {} {
      assert h.use[b] != 0;
    }
    RetainedAll(Live(h), h.slots);
    assert Without(h.slots, Live(h) - Live(h)) == h.slots;
  }

  lemma ReleasedThen(h0: Heap, drop: set<Loc>, h1: Heap, l: Loc, h2: Heap)
    requires Released(h0, drop, h1) && Released(h1, {l}, h2)
    requires Anchor(l.holder, Live(h0))
    ensures Released(h0, drop + {l}, h2)
  {
    var live, slots := Live(h0), h0.slots - drop;
    RetainedCompose(live, slots, {l});
    assert h0.slots - (drop + {l}) == slots - {l};
    assert Live(h2) <= Live(h1) <= live;
    assert h2.slots == Without(slots - {l}, live - Live(h2)) by {
      assert h2.slots == Without(Without(slots, live - Live(h1)) - {l}, Live(h1) - Live(h2));
    }
    assert h2.disposed == h0.disposed + (live - Live(h2));
  }

  // ---- The two decrements, on values --------------------------------------------

  function DecWeak(h: Heap, b: nat): Heap
    requires b in h.weak
  {
    if h.weak[b] == 1 then h.(use := h.use - {b}, weak := h.weak - {b})
    else h.(weak := h.weak[b := h.weak[b] - 1])
  }

  /** The counts are right but for one unit of `b`'s weak count, which is about to go. */
  ghost predicate OneWeakTooMany(h: Heap, b: nat) {
    && LocsValid(h) && b in h.use
    && (forall q :: q in h.use ==> h.use[q] == Count(h.slots, Strong(q)))
    && (forall q :: q in h.use ==> (h.use[q] == 0 <==> q in h.disposed))
    && (forall q :: q in h.weak ==>
          0 < h.weak[q] == Count(h.slots, Weak(q)) + OwnersUnit(h, q) + (if q == b then 1 else 0))
  }

  lemma NoHandles(slots: Slots, s: Slot, l: Loc)
    requires Count(slots, s) == 0 && l in slots
    ensures slots[l] != s
  {
    assert l !in LocsOf(slots, s);
  }

  lemma DecWeakRestores(h: Heap, b: nat)
    requires OneWeakTooMany(h, b)
    ensures Inv(DecWeak(h, b))
    ensures Live(DecWeak(h, b)) == Live(h)
  {
    hide Count;
    if h.weak[b] == 1 {
      forall l | l in h.slots ensures h.slots[l].block != b {
        NoHandles(h.slots, Strong(b), l);
        NoHandles(h.slots, Weak(b), l);
      }
      assert b in h.disposed;
    }
  }

  /** The counts after one handle has gone. */
  lemma DropCounts(slots: Slots, l: Loc)
    requires l in slots
    ensures forall s :: Count(slots - {l}, s) == Count(slots, s) - (if s == slots[l] then 1 else 0)
  {
    forall s ensures Count(slots - {l}, s) == Count(slots, s) - (if s == slots[l] then 1 else 0) {
      PutCounts(slots, l, None, s);
    }
  }

  lemma DropWeakUnbalances(h: Heap, l: Loc)
    requires Inv(h) && l in h.slots && h.slots[l].Weak?
    ensures OneWeakTooMany(h.(slots := h.slots - {l}), h.slots[l].block)
  {
    hide Count;
    DropCounts(h.slots, l);
  }

  lemma WeakDropRetains(h: Heap, l: Loc)
    requires Inv(h) && l in h.slots && h.slots[l].Weak?
    ensures Retained(Live(h), h.slots - {l}) == Live(h)
  {
    InvIsSettled(h);
    assert h.slots - {} == h.slots;
    hide Inv, Retained;
    RetainedIgnoresWeak(Live(h), h.slots, l);
  }

  lemma WithoutNone(slots: Slots)
    ensures Without(slots, {}) == slots
  {
  }

  lemma DropWeakReleases(h: Heap, l: Loc, h': Heap)
    requires Inv(h) && l in h.slots && h.slots[l].Weak?
    requires Live(h') == Live(h) && h' == h.(slots := h.slots - {l}, use := h'.use, weak := h'.weak)
    ensures Released(h, {l}, h')
  {
    WeakDropRetains(h, l);
    hide Inv, Retained, Without;
    WithoutNone(h.slots - {l});
    assert Live(h) - Live(h') == {};
  }

  // ---- Dropping a strong handle ---------------------------------------------------

  /** The handle in `l` is gone and its unit given back. */
  function DecUse(h: Heap, l: Loc): Heap
    requires l in h.slots && h.slots[l].block in h.use
  {
    var b := h.slots[l].block;
    h.(slots := h.slots - {l}, use := h.use[b := h.use[b] - 1])
  }

  function StartDispose(h: Heap, b: nat): Heap {
    h.(disposed := h.disposed + {b}, disposing := h.disposing + {b})
  }

  function EndDispose(h: Heap, b: nat): Heap {
    h.(disposing := h.disposing - {b})
  }

  lemma DecUseStillOwned(h: Heap, l: Loc)
    requires Inv(h) && l in h.slots && h.slots[l].Strong? && h.use[h.slots[l].block] != 1
    ensures Inv(DecUse(h, l))
  {
    DecUseKeepsCounts(h, l);
    hide CountsValid;
  }

  lemma DecUseKeepsCounts(h: Heap, l: Loc)
    requires CountsValid(h) && l in h.slots && h.slots[l].Strong?
    requires h.slots[l].block in h.use && h.use[h.slots[l].block] != 1
    ensures CountsValid(DecUse(h, l))
  {
    hide Count;
    DropCounts(h.slots, l);
    assert h.slots[l] == Strong(h.slots[l].block);
    HasHandle(h.slots, l);
  }

  lemma HasHandle(slots: Slots, l: Loc)
    requires l in slots
    ensures Count(slots, slots[l]) > 0
  {
    assert l in LocsOf(slots, slots[l]);
  }

  lemma DecUseToZero(h: Heap, l: Loc)
    requires Inv(h) && l in h.slots && h.slots[l].Strong? && h.use[h.slots[l].block] == 1
    ensures h.slots[l].block in Live(h)
    ensures Inv(StartDispose(DecUse(h, l), h.slots[l].block))
  {
    StrongIsLive(h, l);
    hide CountsValid;
    DecUseToZeroCounts(h, l);
  }

  lemma DecUseToZeroCounts(h: Heap, l: Loc)
    requires CountsValid(h) && l in h.slots && h.slots[l].Strong? && h.slots[l].block in h.use
    requires h.use[h.slots[l].block] == 1 && h.disposing <= h.disposed
    ensures CountsValid(StartDispose(DecUse(h, l), h.slots[l].block))
  {
    hide Count;
    DropCounts(h.slots, l);
    var h' := StartDispose(DecUse(h, l), h.slots[l].block);
    assert h.slots[l] == Strong(h.slots[l].block);
    forall q | q in h.use ensures OwnersUnit(h', q) == OwnersUnit(h, q) {
    }
  }

  lemma StillOwnedReleases(h: Heap, l: Loc)
    requires Inv(h) && l in h.slots && h.slots[l].Strong? && Inv(DecUse(h, l))
    ensures Released(h, {l}, DecUse(h, l))
  {
    InvIsSettled(DecUse(h, l));
    assert h.slots - {l} - {} == h.slots - {l};
  }

  lemma DisposedUnbalances(h: Heap, b: nat)
    requires Inv(h) && b in h.disposing && Fields(h.slots, b) == {}
    ensures OneWeakTooMany(EndDispose(h, b), b)
  {
    hide Count;
    forall l | l in h.slots ensures l.holder != Pointee(b) {
      assert l !in Fields(h.slots, b);
    }
  }

  /** A drop that disposes: the pointee's own handles go, and with them whatever they kept. */
  lemma DisposeReleases(h: Heap, l: Loc, b: nat, h1: Heap)
    requires h.slots - {l} != h.slots && l in h.slots && b in Live(h) && b in h.use && h.slots[l].block == b
    requires Count(h.slots - {l}, Strong(b)) == 0 && b !in h.disposing
    requires Settled(Live(h) - {b}, h.slots - {l} - Fields(h.slots - {l}, b), h.disposed + {b}, h.disposing + {b}, h1)
    ensures Released(h, {l}, EndDispose(h1, b))
  {
    var slots := h.slots - {l};
    RetainedUnowned(Live(h), slots, b);
    hide Retained;
    var kept := Live(h1);
    assert Without(slots - Fields(slots, b), Live(h) - {b} - kept) == Without(slots, Live(h) - kept);
    assert h.disposing + {b} - {b} == h.disposing;
    assert h.disposed + {b} + (Live(h) - {b} - kept) == h.disposed + (Live(h) - kept);
  }

  lemma LastOwner(h: Heap, l: Loc)
    requires Inv(h) && l in h.slots && h.slots[l].Strong? && h.use[h.slots[l].block] == 1
    ensures var b := h.slots[l].block;
      b in Live(h) && b !in h.disposing && Count(h.slots - {l}, Strong(b)) == 0
  {
    hide Count;
    DropCounts(h.slots, l);
    assert h.slots[l] == Strong(h.slots[l].block);
  }

  lemma DropReleases(h: Heap, l: Loc, b: nat, h1: Heap)
    requires Inv(h) && l in h.slots && h.slots[l] == Strong(b) && b in h.use && h.use[b] == 1
    requires Released(StartDispose(DecUse(h, l), b), Fields(h.slots - {l}, b), h1)
    requires Inv(h1)
    ensures b in h1.weak && b in h1.disposing
    ensures Inv(DecWeak(EndDispose(h1, b), b))
    ensures Released(h, {l}, DecWeak(EndDispose(h1, b), b))
  {
    hide Inv, Retained, Without, Count;
    LastOwner(h, l);
    assert Live(StartDispose(DecUse(h, l), b)) == Live(h) - {b};
    assert b in h1.disposing && b !in Live(h1);
    DisposingKnown(h1, b);
    FieldsGone(StartDispose(DecUse(h, l), b), b, h1);
    DisposeReleases(h, l, b, h1);
    DisposedUnbalances(h1, b);
    DecWeakRestores(EndDispose(h1, b), b);
    assert Live(EndDispose(h1, b)) == Live(h1);
  }

  lemma DisposingKnown(h: Heap, b: nat)
    requires Inv(h) && b in h.disposing
    ensures b in h.use && b in h.weak && b in h.disposed && b !in Live(h)
  {
  }

  lemma FieldsGone(h: Heap, b: nat, h': Heap)
    requires Released(h, Fields(h.slots, b), h')
    ensures Fields(h'.slots, b) == {}
  {
  }

  lemma FieldsAfter(h: Heap, b: nat, l: Loc, h': Heap)
    requires Released(h, {l}, h') && b !in Live(h)
    ensures Fields(h'.slots, b) == Fields(h.slots, b) - {l}
    ensures Live(h') <= Live(h)
  {
  }

  // ---- The destructor of a pointee, one handle at a time -------------------------

  /** `s` is reached from `h` by having destroyed the handles `done` inside pointee `b`. */
  ghost predicate Destroying(h: Heap, b: nat, done: set<Loc>, s: Heap) {
    && Inv(s) && b in h.disposing && b in h.disposed
    && done <= Fields(h.slots, b)
    && Released(h, done, s)
    && Live(s) <= Live(h)
    && Fields(s.slots, b) == Fields(h.slots, b) - done
  }

  lemma DestroyingStart(h: Heap, b: nat)
    requires Inv(h) && b in h.disposing
    ensures Destroying(h, b, {}, h)
  {
    InvIsSettled(h);
  }

  lemma DestroyingStep(h: Heap, b: nat, done: set<Loc>, s: Heap, l: Loc, s': Heap)
    requires Destroying(h, b, done, s) && l in Fields(s.slots, b)
    requires Inv(s') && Released(s, {l}, s')
    ensures Destroying(h, b, done + {l}, s')
    ensures Fields(s'.slots, b) == Fields(s.slots, b) - {l}
  {
    hide CountsValid, Retained;
    FieldsAfter(s, b, l, s');
    ReleasedThen(h, done, s, l, s');
  }

  lemma DestroyingReady(h: Heap, b: nat, done: set<Loc>, s: Heap)
    requires Destroying(h, b, done, s)
    ensures Inv(s) && |Live(s)| <= |Live(h)|
    ensures forall l :: l in Fields(s.slots, b) ==> l in s.slots && Anchor(l.holder, Live(s))
  {
    SubsetCard(Live(s), Live(h));
  }

  lemma DestroyingEnd(h: Heap, b: nat, done: set<Loc>, s: Heap)
    requires Destroying(h, b, done, s) && Fields(s.slots, b) == {}
    ensures Inv(s) && Released(h, Fields(h.slots, b), s)
  {
    assert done == Fields(h.slots, b);
  }

  lemma BlockKnown(h: Heap, l: Loc)
    requires Inv(h) && l in h.slots
    ensures h.slots[l].block in h.use && h.slots[l].block in h.weak
    ensures h.slots[l].Strong? ==> h.use[h.slots[l].block] >= 1
  {
    hide Count;
    if h.slots[l].Strong? {
      HasHandle(h.slots, l);
      assert h.slots[l] == Strong(h.slots[l].block);
    }
  }

  lemma DisposeShrinks(h: Heap, l: Loc)
    requires Inv(h) && l in h.slots && h.slots[l].Strong? && h.use[h.slots[l].block] == 1
    ensures var b := h.slots[l].block; |Live(StartDispose(DecUse(h, l), b))| < |Live(h)|
  {
    var b := h.slots[l].block;
    LastOwner(h, l);
    assert Live(StartDispose(DecUse(h, l), b)) == Live(h) - {b};
  }

  // ---- Handle operations by temporary and swap --------------------------------------

  function Swapped(slots: Slots, a: Loc, b: Loc): Slots {
    Put(Put(slots, a, At(slots, b)), b, At(slots, a))
  }

  /** A new handle in an empty variable, with its unit counted. */
  function Acquire(h: Heap, l: Loc, s: Slot): Heap
    requires s.block in h.use && s.block in h.weak
  {
    if s.Strong? then h.(slots := h.slots[l := s], use := h.use[s.block := h.use[s.block] + 1])
    else h.(slots := h.slots[l := s], weak := h.weak[s.block := h.weak[s.block] + 1])
  }

  lemma AcquireCounts(slots: Slots, l: Loc, s: Slot)
    requires l !in slots
    ensures forall q :: Count(slots[l := s], q) == Count(slots, q) + (if q == s then 1 else 0)
  {
    forall q ensures Count(slots[l := s], q) == Count(slots, q) + (if q == s then 1 else 0) {
      PutCounts(slots, l, Some(s), q);
    }
  }

  lemma AcquireStrongCounts(h: Heap, l: Loc, s: Slot)
    requires CountsValid(h) && l !in h.slots && s.Strong? && s.block in h.use && s.block in h.weak
    requires s.block in Live(h)
    ensures CountsValid(Acquire(h, l, s))
  {
    hide Count;
    AcquireCounts(h.slots, l, s);
  }

  lemma AcquireWeakCounts(h: Heap, l: Loc, s: Slot)
    requires CountsValid(h) && l !in h.slots && s.Weak? && s.block in h.use && s.block in h.weak
    ensures CountsValid(Acquire(h, l, s))
  {
    hide Count;
    AcquireCounts(h.slots, l, s);
  }

  /** A strong handle may be made only while the object is not disposed. */
  lemma AcquireKeepsInv(h: Heap, l: Loc, s: Slot)
    requires Inv(h) && l !in h.slots && l.holder == Root && s.block in h.use && s.block in h.weak
    requires s.Strong? ==> s.block in Live(h)
    ensures Inv(Acquire(h, l, s))
    ensures Live(Acquire(h, l, s)) == Live(h)
  {
    hide CountsValid;
    if s.Strong? {
      AcquireStrongCounts(h, l, s);
    } else {
      AcquireWeakCounts(h, l, s);
    }
  }

  lemma SwapCounts(slots: Slots, a: Loc, b: Loc)
    ensures forall q :: Count(Swapped(slots, a, b), q) == Count(slots, q)
  {
    forall q ensures Count(Swapped(slots, a, b), q) == Count(slots, q) {
      hide Count;
      PutCounts(slots, a, At(slots, b), q);
      PutCounts(Put(slots, a, At(slots, b)), b, At(slots, a), q);
    }
  }

  lemma SwapKeepsInv(h: Heap, a: Loc, b: Loc)
    requires Inv(h) && HolderValid(h, a.holder) && HolderValid(h, b.holder)
    ensures Inv(h.(slots := Swapped(h.slots, a, b)))
  {
    hide Count;
    SwapCounts(h.slots, a, b);
    assert LocsValid(h.(slots := Swapped(h.slots, a, b))) by {
      hide CountsValid;
    }
    hide LocsValid, Swapped;
  }

  /** A new block with its first owner. */
  function Make(h: Heap, l: Loc, b: nat): Heap {
    h.(slots := h.slots[l := Strong(b)], use := h.use[b := 1], weak := h.weak[b := 1])
  }

  lemma NoHandlesToNewBlock(h: Heap, b: nat)
    requires LocsValid(h) && b !in h.use
    ensures Count(h.slots, Strong(b)) == 0 && Count(h.slots, Weak(b)) == 0
  {
    assert LocsOf(h.slots, Strong(b)) == {} && LocsOf(h.slots, Weak(b)) == {};
  }

  lemma MakeKeepsInv(h: Heap, l: Loc, b: nat)
    requires Inv(h) && l !in h.slots && l.holder == Root && b !in h.use && b !in h.disposed
    ensures Inv(Make(h, l, b))
    ensures Live(Make(h, l, b)) == Live(h) + {b}
  {
    hide CountsValid;
    NoHandlesToNewBlock(h, b);
    MakeKeepsCounts(h, l, b);
  }

  lemma MakeKeepsCounts(h: Heap, l: Loc, b: nat)
    requires CountsValid(h) && l !in h.slots && b !in h.use && b !in h.disposed && b !in h.disposing
    requires Count(h.slots, Strong(b)) == 0 && Count(h.slots, Weak(b)) == 0
    ensures CountsValid(Make(h, l, b))
  {
    hide Count;
    AcquireCounts(h.slots, l, Strong(b));
  }

  lemma ZeroMeansDisposed(h: Heap, b: nat)
    requires Inv(h) && b in h.use
    ensures h.use[b] == 0 <==> b in h.disposed
    ensures b in Live(h) <==> b !in h.disposed
  {
  }

  lemma StrongIsLive(h: Heap, l: Loc)
    requires Inv(h) && l in h.slots && h.slots[l].Strong?
    ensures h.slots[l].block in Live(h)
  {
    BlockKnown(h, l);
  }

  /** After the temporary has given its value to `dst` and is gone. */
  lemma TemporaryGone(slots: Slots, tmp: Loc, dst: Loc, o: Option<Slot>)
    requires tmp !in slots && tmp != dst
    ensures Put(Put(slots, tmp, o), dst, o) - {tmp} == Put(slots, dst, o)
  {
  }

  /** The move constructor exchanges its source with the empty temporary. */
  lemma MoveOut(slots: Slots, tmp: Loc, src: Loc)
    requires tmp !in slots && tmp != src
    ensures Swapped(slots, tmp, src) == Put(slots - {src}, tmp, At(slots, src))
  {
  }

  lemma SwapThenDrop(slots: Slots, tmp: Loc, dst: Loc)
    requires tmp != dst
    ensures Swapped(slots, tmp, dst) - {tmp} == Put(slots, dst, At(slots, tmp)) - {tmp}
  {
  }

  /** What the contract of swap determines. */
  lemma SwapDetermined(slots: Slots, a: Loc, b: Loc, slots': Slots)
    requires At(slots', a) == At(slots, b) && At(slots', b) == At(slots, a)
    requires forall l :: l != a && l != b ==> At(slots', l) == At(slots, l)
    ensures slots' == Swapped(slots, a, b)
  {
    var swapped := Swapped(slots, a, b);
    forall l ensures At(slots', l) == At(swapped, l) {
    }
    SameEntries(slots', swapped);
  }

  lemma SameEntries(slots: Slots, slots': Slots)
    requires forall l :: At(slots, l) == At(slots', l)
    ensures slots == slots'
  {
    forall l ensures l in slots <==> l in slots' {
      assert At(slots, l) == At(slots', l);
    }
    forall l | l in slots ensures slots[l] == slots'[l] {
      assert At(slots, l) == At(slots', l);
    }
  }

  /** Swapping again undoes a swap. */
  lemma SwapTwice(slots: Slots, a: Loc, b: Loc)
    ensures Swapped(Swapped(slots, a, b), a, b) == slots
  {
    var once := Swapped(slots, a, b);
    assert At(once, a) == At(slots, b) && At(once, b) == At(slots, a);
    forall l ensures At(Swapped(once, a, b), l) == At(slots, l) {
    }
    SameEntries(Swapped(once, a, b), slots);
  }

  lemma TemporaryReleased(h: Heap, tmp: Loc)
    requires Inv(h) && tmp !in h.slots
    ensures Released(h, {tmp}, h)
  {
    InvIsSettled(h);
    assert h.slots - {tmp} == h.slots - {};
  }

  /** The value assigned is in place and its object undisposed once the heap has settled. */
  lemma AssignedIsHeld(h: Heap, dst: Loc, src: Loc, gone: set<Loc>, h': Heap)
    requires Inv(h) && src in h.slots && h.slots[src].Strong? && gone <= {src}
    requires Accessible(dst.holder, Live(h), h.slots)
    requires Settled(Live(h), (h.slots - gone)[dst := h.slots[src]], h.disposed, h.disposing, h')
    ensures dst in h'.slots && h'.slots[dst] == h.slots[src] && h.slots[src].block !in h'.disposed
  {
    StrongIsLive(h, src);
    AssignedIsRetained(Live(h), h.slots, dst, h.slots[src].block, gone);
  }

  // ---- What an operation leaves behind -----------------------------------------------

  /** In a settled heap the disposed blocks are exactly those that no variable reaches and
      no cycle of strong handles feeds: nothing reachable is disposed, nothing else leaks. */
  lemma SettledDisposesExactly(live: set<nat>, slots: Slots, disposed: set<nat>, disposing: set<nat>, h: Heap, b: nat)
    requires Settled(live, slots, disposed, disposing, h) && b in live && disposed !! live
    ensures b in h.disposed <==> !Reachable(b, live, slots) && !CycleFed(b, live, slots)
  {
    RetainedIffReachableOrCyclic(b, live, slots);
  }

  /** The block of a disposed object is kept exactly as long as a weak handle needs it. */
  lemma BlockKeptForWeakHandlesOnly(h: Heap, b: nat)
    requires Inv(h) && b in h.disposed && b !in h.disposing
    ensures b in h.use <==> exists l :: l in h.slots && h.slots[l].block == b
    ensures forall l :: l in h.slots && h.slots[l].block == b ==> h.slots[l] == Weak(b)
  {
    if b in h.use {
      assert Count(h.slots, Weak(b)) > 0;
      var l :| l in LocsOf(h.slots, Weak(b));
      assert h.slots[l].block == b;
    }
    forall l | l in h.slots && h.slots[l].block == b ensures h.slots[l] == Weak(b) {
      if h.slots[l].Strong? {
        StrongIsLive(h, l);
      }
    }
  }

  /** A pointee that holds a weak handle to itself does not free its own block when that
      handle goes: the owners' unit is given up only after `dispose`. */
  lemma SelfWeakKeepsBlock(h: Heap, b: nat, l: Loc)
    requires Inv(h) && b in h.disposing && l in Fields(h.slots, b) && h.slots[l] == Weak(b)
    ensures b in h.weak && h.weak[b] >= 2
    ensures b in DecWeak(h.(slots := h.slots - {l}), b).use
  {
    HasHandle(h.slots, l);
  }

  /** The handles to `q` are the same in both. */
  ghost predicate SameHandles(slots: Slots, slots': Slots, q: nat) {
    && (forall l :: l in slots && slots[l].block == q ==> l in slots' && slots'[l] == slots[l])
    && (forall l :: l in slots' && slots'[l].block == q ==> l in slots && slots[l] == slots'[l])
  }

  lemma SameHandlesSameBlock(h: Heap, h': Heap, q: nat)
    requires Inv(h) && Inv(h') && h'.disposing == h.disposing && q in h.use && q in h.weak
    requires h.disposed <= h'.disposed && SameHandles(h.slots, h'.slots, q)
    ensures q in h'.use && q in h'.weak
    ensures q in h'.disposed <==> q in h.disposed
  {
    if q !in h.disposed {
      assert Count(h.slots, Strong(q)) > 0;
      var l :| l in LocsOf(h.slots, Strong(q));
      StrongIsLive(h', l);
    } else if q !in h.disposing {
      assert Count(h.slots, Weak(q)) > 0;
      var l :| l in LocsOf(h.slots, Weak(q));
      BlockKnown(h', l);
    } else {
      DisposingKnown(h', q);
    }
  }

  lemma SameHandlesSameCounts(h: Heap, h': Heap, q: nat)
    requires Inv(h) && Inv(h') && h'.disposing == h.disposing && q in h.use && q in h.weak
    requires h.disposed <= h'.disposed && SameHandles(h.slots, h'.slots, q)
    ensures q in h'.use && q in h'.weak
    ensures h'.use[q] == h.use[q] && h'.weak[q] == h.weak[q]
  {
    hide SameHandles, LocsValid, Count;
    SameHandlesSameBlock(h, h', q);
    SameHandlesCount(h, h', q);
  }

  lemma SameHandlesCount(h: Heap, h': Heap, q: nat)
    requires SameHandles(h.slots, h'.slots, q)
    ensures Count(h'.slots, Strong(q)) == Count(h.slots, Strong(q))
    ensures Count(h'.slots, Weak(q)) == Count(h.slots, Weak(q))
  {
    assert LocsOf(h'.slots, Strong(q)) == LocsOf(h.slots, Strong(q));
    assert LocsOf(h'.slots, Weak(q)) == LocsOf(h.slots, Weak(q));
  }

  /** `d` contains the targets of all handles that differ between the two, and with a block
      everything its pointee has handles to, strong or weak. */
  ghost predicate Covers(d: set<nat>, slots: Slots, slots': Slots) {
    && (forall l :: l in slots && At(slots', l) != Some(slots[l]) ==> slots[l].block in d)
    && (forall l :: l in slots' && At(slots, l) != Some(slots'[l]) ==> slots'[l].block in d)
    && (forall l :: l in slots' && l.holder.Pointee? && l.holder.block in d ==> slots'[l].block in d)
  }

  /** No handle that was rewritten led or leads to `q`, directly or through pointees. */
  ghost predicate Unrelated(q: nat, slots: Slots, slots': Slots) {
    exists d :: Covers(d, slots, slots') && q !in d
  }

  ghost predicate KeepsUnrelated(h: Heap, slots: Slots, h': Heap) {
    forall q :: q in h.use && q in h.weak && Unrelated(q, h.slots, slots) ==>
      && q in h'.use && q in h'.weak && h'.use[q] == h.use[q] && h'.weak[q] == h.weak[q]
      && (q in h'.disposed <==> q in h.disposed)
  }

  /** A release disposes only what is covered. */
  lemma GoneIsCovered(h: Heap, live: set<nat>, slots: Slots, d: set<nat>)
    requires Inv(h) && Covers(d, h.slots, slots) && live - d <= Live(h)
    ensures live - Retained(live, slots) <= d
  {
    hide Retained;
    forall p | p in live && p !in d ensures LocsOf(h.slots, Strong(p)) != {} {
      assert p in Live(h) && h.use[p] != 0;
    }
    hide Inv;
    OnlyDownstreamDisposed(live, h.slots, slots, d);
  }

  lemma CoveredSameHandles(slots0: Slots, slots: Slots, gone: set<nat>, d: set<nat>, q: nat)
    requires Covers(d, slots0, slots) && q !in d && gone <= d
    ensures SameHandles(slots0, Without(slots, gone), q)
  {
  }

  /** An operation that settles leaves both counts of every unrelated block as they were,
      however far the release of the old value cascades. */
  lemma SettledKeepsUnrelated(h: Heap, live: set<nat>, slots: Slots, h': Heap)
    requires Inv(h) && Inv(h') && Settled(live, slots, h.disposed, h.disposing, h')
    requires forall q :: q in live && q !in Live(h) ==> LocsOf(slots, Strong(q)) != {} && q !in h.use
    ensures KeepsUnrelated(h, slots, h')
  {
    forall q | q in h.use && q in h.weak && Unrelated(q, h.slots, slots)
      ensures q in h'.use && q in h'.weak && h'.use[q] == h.use[q] && h'.weak[q] == h.weak[q]
      ensures q in h'.disposed <==> q in h.disposed
    {
      var d :| Covers(d, h.slots, slots) && q !in d;
      forall p | p in live && p !in Live(h) ensures p in d {
        var l :| l in LocsOf(slots, Strong(p));
        assert l in h.slots ==> h.slots[l].block in h.use;
      }
      GoneIsCovered(h, live, slots, d);
      CoveredSameHandles(h.slots, slots, live - Live(h'), d, q);
      hide Covers, Inv, Retained;
      SameHandlesSameBlock(h, h', q);
      SameHandlesSameCounts(h, h', q);
    }
  }

  lemma NoDisposalKeepsUnrelated(h: Heap, h': Heap)
    requires Inv(h) && Inv(h') && h'.disposed == h.disposed && h'.disposing == h.disposing
    ensures KeepsUnrelated(h, h'.slots, h')
  {
    hide Inv, Covers, Without, SameHandles;
    WithoutNone(h'.slots);
    forall q | q in h.use && q in h.weak && Unrelated(q, h.slots, h'.slots)
      ensures q in h'.use && q in h'.weak && h'.use[q] == h.use[q] && h'.weak[q] == h.weak[q]
    {
      var d :| Covers(d, h.slots, h'.slots) && q !in d;
      CoveredSameHandles(h.slots, h'.slots, {}, d, q);
      SameHandlesSameCounts(h, h', q);
    }
  }

  lemma WeakDropDisposesNothing(h: Heap, l: Loc, h': Heap)
    requires Inv(h) && l in h.slots && h.slots[l].Weak? && Released(h, {l}, h')
    ensures h'.slots == h.slots - {l} && h'.disposed == h.disposed && h'.disposing == h.disposing
  {
    WeakDropRetains(h, l);
    hide Inv, Retained, Without;
    WithoutNone(h.slots - {l});
    assert Live(h) - Live(h') == {};
  }

  class SharedHeap {
    var use: map<nat, int>
    var weak: map<nat, int>
    var slots: Slots
    var disposed: set<nat>
    ghost var disposing: set<nat>

    ghost function State(): Heap
      reads this
    {
      Heap(use, weak, slots, disposed, disposing)
    }

    /** dec_weak_count: destroys the block with its last unit. */
    method DecWeakCount(b: nat)
      requires b in weak
      modifies this`use, this`weak
      ensures State() == DecWeak(old(State()), b)
    {
      weak := weak[b := weak[b] - 1];
      if weak[b] == 0 {
        use := use - {b};
        weak := weak - {b};
        assert weak == old(weak) - {b};
      }
    }

    /** A weak handle goes away. */
    method DropWeak(l: Loc)
      requires Inv(State()) && l in slots && slots[l].Weak?
      modifies this
      ensures Inv(State()) && Released(old(State()), {l}, State())
    {
      DropWeakUnbalances(State(), l);
      ghost var h := State().(slots := slots - {l});
      DecWeakRestores(h, slots[l].block);
      var b := slots[l].block;
      slots := slots - {l};
      DecWeakCount(b);
      DropWeakReleases(old(State()), l, State());
    }

    /** A handle inside a pointee goes away. */
    method DestroyHandle(l: Loc)
      requires Inv(State()) && l in slots && Anchor(l.holder, Live(State()))
      modifies this
      ensures Inv(State()) && Released(old(State()), {l}, State())
      decreases |Live(State())|, 1
    {
      if slots[l].Strong? {
        DropStrong(l);
      } else {
        DropWeak(l);
      }
    }

    /** dispose: the pointee's destructor destroys the handles inside the pointee. */
    method Dispose(b: nat)
      requires Inv(State()) && b in disposing
      modifies this
      ensures Inv(State())
      ensures Released(old(State()), Fields(old(slots), b), State())
      decreases |Live(State())|, 2
    {
      hide Inv, Released, Destroying, Live;
      ghost var h := State();
      ghost var done: set<Loc> := {};
      DestroyingStart(h, b);
      var fields := set l | l in slots && l.holder == Pointee(b);
      while fields != {}
        invariant Destroying(h, b, done, State())
        invariant fields == Fields(slots, b)
        decreases |fields|
      {
        var l :| l in fields;
        ghost var before := State();
        DestroyingReady(h, b, done, before);
        DestroyHandle(l);
        DestroyingStep(h, b, done, before, l, State());
        done := done + {l};
        fields := set l | l in slots && l.holder == Pointee(b);
      }
      DestroyingEnd(h, b, done, State());
    }

    /** dec_use_count on a strong handle that goes away. */
    method DropStrong(l: Loc)
      requires Inv(State()) && l in slots && slots[l].Strong? && Anchor(l.holder, Live(State()))
      modifies this
      ensures Inv(State())
      ensures Released(old(State()), {l}, State())
      decreases |Live(State())|, 0
    {
      hide Inv, Released;
      ghost var h := State();
      var b := slots[l].block;
      BlockKnown(h, l);
      slots := slots - {l};
      use := use[b := use[b] - 1];
      assert State() == DecUse(h, l);
      if use[b] == 0 {
        DecUseToZero(h, l);
        DisposeShrinks(h, l);
        disposed := disposed + {b};
        disposing := disposing + {b};
        assert State() == StartDispose(DecUse(h, l), b);
        Dispose(b);
        DropReleases(h, l, b, State());
        disposing := disposing - {b};
        DecWeakCount(b);
      } else {
        DecUseStillOwned(h, l);
        StillOwnedReleases(h, l);
      }
    }

    /** The temporary of an operation goes out of scope. */
    method EndTemporary(tmp: Loc)
      requires Inv(State()) && tmp.holder == Root
      modifies this
      ensures Inv(State()) && Released(old(State()), {tmp}, State())
    {
      hide Inv, Released;
      if tmp in slots {
        DestroyHandle(tmp);
      } else {
        TemporaryReleased(State(), tmp);
      }
    }

    /** Writes one handle, null included. */
    method Store(l: Loc, o: Option<Slot>)
      modifies this`slots
      ensures At(slots, l) == o
      ensures forall q :: q != l ==> At(slots, q) == At(old(slots), q)
    {
      if o.Some? {
        slots := slots[l := o.value];
      } else {
        slots := slots - {l};
      }
    }

    /** swap: exchanges two handles, null ones included, and touches no other. Swapping
        again undoes it (SwapTwice). */
    method Swap(a: Loc, b: Loc)
      modifies this`slots
      ensures At(slots, a) == At(old(slots), b) && At(slots, b) == At(old(slots), a)
      ensures forall l :: l != a && l != b ==> At(slots, l) == At(old(slots), l)
    {
      var held := At(slots, a);
      Store(a, At(slots, b));
      Store(b, held);
    }

    /** `tmp` holds the new value; swap it in and let the old one go. */
    method SwapIn(tmp: Loc, dst: Loc)
      requires Inv(State()) && tmp.holder == Root && HolderValid(State(), dst.holder) && tmp != dst
      modifies this
      ensures Inv(State())
      ensures Settled(old(Live(State())), Put(old(slots), dst, At(old(slots), tmp)) - {tmp},
        old(disposed), old(disposing), State())
    {
      hide Inv, Settled, Swapped, Put;
      SwapKeepsInv(State(), tmp, dst);
      SwapThenDrop(slots, tmp, dst);
      Swap(tmp, dst);
      SwapDetermined(old(slots), tmp, dst, slots);
      EndTemporary(tmp);
    }

    /** Copy constructor of either handle type: counts a new owner, or nothing for null. */
    method CopyHandle(src: Loc, tmp: Loc)
      requires Inv(State()) && tmp !in slots && tmp.holder == Root
      modifies this
      ensures Inv(State()) && Live(State()) == old(Live(State()))
      ensures slots == Put(old(slots), tmp, At(old(slots), src))
      ensures disposed == old(disposed) && disposing == old(disposing)
    {
      hide Inv, Live;
      if src in slots {
        var s := slots[src];
        BlockKnown(State(), src);
        if s.Strong? {
          StrongIsLive(State(), src);
        }
        AcquireHandle(s, tmp);
      }
    }

    /** inc_use_count or inc_weak_count for a handle being constructed in `tmp`. */
    method AcquireHandle(s: Slot, tmp: Loc)
      requires Inv(State()) && tmp !in slots && tmp.holder == Root && s.block in use && s.block in weak
      requires s.Strong? ==> s.block in Live(State())
      modifies this
      ensures Inv(State()) && Live(State()) == old(Live(State()))
      ensures slots == old(slots)[tmp := s]
      ensures disposed == old(disposed) && disposing == old(disposing)
    {
      hide Inv, Live;
      ghost var h := State();
      AcquireKeepsInv(h, tmp, s);
      slots := slots[tmp := s];
      if s.Strong? {
        use := use[s.block := use[s.block] + 1];
      } else {
        weak := weak[s.block := weak[s.block] + 1];
      }
      assert State() == Acquire(h, tmp, s);
    }

    /** operator= by copy, of either handle type: afterwards `dst` holds what `src` held,
        and its old value has been released. Self-assignment needs no special case. */
    method CopyAssign(dst: Loc, src: Loc, tmp: Loc)
      requires Inv(State()) && HolderValid(State(), dst.holder)
      requires tmp !in slots && tmp.holder == Root && tmp != dst && tmp != src
      modifies this
      ensures Inv(State())
      ensures Settled(old(Live(State())), Put(old(slots), dst, At(old(slots), src)),
        old(disposed), old(disposing), State())
      ensures KeepsUnrelated(old(State()), Put(old(slots), dst, At(old(slots), src)), State())
      ensures
        (src in old(slots) && old(slots)[src].Strong? && Accessible(dst.holder, old(Live(State())), old(slots)))
        ==> dst in slots && slots[dst] == old(slots)[src] && slots[dst].block !in disposed
    {
      hide Inv, Settled, Accessible, KeepsUnrelated;
      ghost var h := State();
      CopyHandle(src, tmp);
      TemporaryGone(h.slots, tmp, dst, At(h.slots, src));
      SwapIn(tmp, dst);
      SettledKeepsUnrelated(h, Live(h), Put(h.slots, dst, At(h.slots, src)), State());
      if src in h.slots && h.slots[src].Strong? && Accessible(dst.holder, Live(h), h.slots) {
        assert h.slots - {} == h.slots;
        AssignedIsHeld(h, dst, src, {}, State());
      }
    }

    /** operator= by move: `src` ends up null, unless it is `dst` itself. */
    method MoveAssign(dst: Loc, src: Loc, tmp: Loc)
      requires Inv(State()) && HolderValid(State(), dst.holder) && HolderValid(State(), src.holder)
      requires tmp !in slots && tmp.holder == Root && tmp != dst && tmp != src
      modifies this
      ensures Inv(State())
      ensures Settled(old(Live(State())), Put(old(slots) - {src}, dst, At(old(slots), src)),
        old(disposed), old(disposing), State())
      ensures KeepsUnrelated(old(State()), Put(old(slots) - {src}, dst, At(old(slots), src)), State())
      ensures
        (src in old(slots) && old(slots)[src].Strong? && Accessible(dst.holder, old(Live(State())), old(slots)))
        ==> dst in slots && slots[dst] == old(slots)[src] && slots[dst].block !in disposed
    {
      hide Inv, Settled, Accessible, Swapped, KeepsUnrelated;
      ghost var h := State();
      SwapKeepsInv(h, tmp, src);
      MoveOut(h.slots, tmp, src);
      Swap(tmp, src);
      SwapDetermined(h.slots, tmp, src, slots);
      TemporaryGone(h.slots - {src}, tmp, dst, At(h.slots, src));
      SwapIn(tmp, dst);
      SettledKeepsUnrelated(h, Live(h), Put(h.slots - {src}, dst, At(h.slots, src)), State());
      if src in h.slots && h.slots[src].Strong? && Accessible(dst.holder, Live(h), h.slots) {
        AssignedIsHeld(h, dst, src, {src}, State());
      }
    }

    /** weak_ptr::operator= from a shared or weak handle: disposes nothing. */
    method WeakAssign(dst: Loc, src: Loc, tmp: Loc)
      requires Inv(State()) && HolderValid(State(), dst.holder)
      requires tmp !in slots && tmp.holder == Root && tmp != dst && tmp != src
      requires dst in slots ==> slots[dst].Weak?
      modifies this
      ensures Inv(State()) && disposed == old(disposed)
      ensures slots == Put(old(slots), dst, if src in old(slots) then Some(Weak(old(slots)[src].block)) else None)
      ensures KeepsUnrelated(old(State()), slots, State())
    {
      hide Inv, Released, KeepsUnrelated;
      ghost var h := State();
      ghost var o := if src in slots then Some(Weak(slots[src].block)) else None;
      if src in slots {
        BlockKnown(h, src);
        AcquireHandle(Weak(slots[src].block), tmp);
      }
      TemporaryGone(h.slots, tmp, dst, o);
      SwapThenDrop(slots, tmp, dst);
      SwapKeepsInv(State(), tmp, dst);
      ghost var before := slots;
      Swap(tmp, dst);
      SwapDetermined(before, tmp, dst, slots);
      ghost var h1 := State();
      if tmp in slots {
        DropWeak(tmp);
        WeakDropDisposesNothing(h1, tmp, State());
      }
      NoDisposalKeepsUnrelated(h, State());
    }

    /** `dst = src.lock ()`: an owner of the object if it is not disposed, null otherwise. */
    method LockInto(dst: Loc, src: Loc, tmp: Loc) returns (locked: bool)
      requires Inv(State()) && HolderValid(State(), dst.holder)
      requires tmp !in slots && tmp.holder == Root && tmp != dst && tmp != src
      requires src in slots ==> slots[src].Weak?
      modifies this
      ensures Inv(State())
      ensures locked <==> src in old(slots) && old(slots)[src].block !in old(disposed)
      ensures Settled(old(Live(State())),
        Put(old(slots), dst, if locked then Some(Strong(old(slots)[src].block)) else None),
        old(disposed), old(disposing), State())
      ensures KeepsUnrelated(old(State()),
        Put(old(slots), dst, if locked then Some(Strong(old(slots)[src].block)) else None), State())
    {
      hide Inv, Settled, KeepsUnrelated;
      ghost var h := State();
      locked := false;
      if src in slots {
        BlockKnown(h, src);
        ZeroMeansDisposed(h, slots[src].block);
        if use[slots[src].block] != 0 {
          AcquireHandle(Strong(slots[src].block), tmp);
          locked := true;
        }
      }
      ghost var o := if locked then Some(Strong(h.slots[src].block)) else None;
      assert slots == Put(h.slots, tmp, o);
      TemporaryGone(h.slots, tmp, dst, o);
      SwapIn(tmp, dst);
      SettledKeepsUnrelated(h, Live(h), Put(h.slots, dst, o), State());
    }

    /** reset: `dst` becomes the first owner of a new object, or null. */
    method Reset(dst: Loc, made: Option<nat>, tmp: Loc)
      requires Inv(State()) && HolderValid(State(), dst.holder)
      requires tmp !in slots && tmp.holder == Root && tmp != dst
      requires made.Some? ==> made.value !in use && made.value !in disposed
      modifies this
      ensures Inv(State())
      ensures Settled(old(Live(State())) + (if made.Some? then {made.value} else {}),
        Put(old(slots), dst, if made.Some? then Some(Strong(made.value)) else None),
        old(disposed), old(disposing), State())
      ensures KeepsUnrelated(old(State()),
        Put(old(slots), dst, if made.Some? then Some(Strong(made.value)) else None), State())
    {
      hide Inv, Settled, KeepsUnrelated;
      ghost var h := State();
      if made.Some? {
        MakeKeepsInv(h, tmp, made.value);
        slots := slots[tmp := Strong(made.value)];
        use := use[made.value := 1];
        weak := weak[made.value := 1];
        assert State() == Make(h, tmp, made.value);
      }
      ghost var o := if made.Some? then Some(Strong(made.value)) else None;
      assert slots == Put(h.slots, tmp, o);
      ghost var live := Live(State());
      assert live == Live(h) + (if made.Some? then {made.value} else {});
      TemporaryGone(h.slots, tmp, dst, o);
      SwapIn(tmp, dst);
      if made.Some? {
        assert dst in LocsOf(Put(h.slots, dst, o), Strong(made.value));
      }
      SettledKeepsUnrelated(h, live, Put(h.slots, dst, o), State());
    }
  }
}
