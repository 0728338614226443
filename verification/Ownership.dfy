/** Objects that own each other through handles: what a release must dispose.
    A heap is seen through its slots (handle variables and handle members of pointees);
    blocks whose pointee has not been disposed are the live ones. */
module Ownership {
  import opened Collections

  /** Where a handle lives: in a variable of the program, or in the pointee of a block. */
  datatype Holder = Root | Pointee(block: nat)
  datatype Loc = Loc(holder: Holder, index: nat)

  /** A non-null handle. Null handles have no entry in a heap's slots. */
  datatype Slot = Strong(block: nat) | Weak(block: nat)

  type Slots = map<Loc, Slot>

  /** The places holding a handle of the given kind to the given block. */
  ghost function LocsOf(slots: Slots, s: Slot): set<Loc> {
    set l | l in slots && slots[l] == s
  }

  ghost function Fields(slots: Slots, b: nat): set<Loc> {
    set l | l in slots && l.holder == Pointee(b)
  }

  // ---- What survives a release --------------------------------------------------

  /** The holder needs nobody of `live`: a variable, or a pointee already being destroyed. */
  predicate Anchor(h: Holder, live: set<nat>) {
    h == Root || h.block !in live
  }

  ghost predicate HeldFrom(b: nat, r: set<nat>, live: set<nat>, slots: Slots) {
    exists l :: l in slots && slots[l] == Strong(b) && (Anchor(l.holder, live) || l.holder.block in r)
  }

  /** A set of live blocks that keeps itself: each has an owner in an anchor or in the set. */
  ghost predicate Supported(r: set<nat>, live: set<nat>, slots: Slots) {
    r <= live && forall b :: b in r ==> HeldFrom(b, r, live, slots)
  }

  ghost predicate Keeps(b: nat, live: set<nat>, slots: Slots) {
    exists r :: Supported(r, live, slots) && b in r
  }

  /** The live blocks that no release started from here may dispose, and the only ones
      it may leave undisposed. */
  ghost function Retained(live: set<nat>, slots: Slots): set<nat> {
    set b | b in live && Keeps(b, live, slots)
  }

  lemma SupportedIsRetained(r: set<nat>, live: set<nat>, slots: Slots)
    requires Supported(r, live, slots)
    ensures r <= Retained(live, slots)
  {
    forall b | b in r ensures b in Retained(live, slots) {
      assert Keeps(b, live, slots);
    }
  }

  lemma RetainedIsSupported(live: set<nat>, slots: Slots)
    ensures Supported(Retained(live, slots), live, slots)
  {
    var all := Retained(live, slots);
    forall b | b in all ensures HeldFrom(b, all, live, slots) {
      var r :| Supported(r, live, slots) && b in r;
      SupportedIsRetained(r, live, slots);
      assert HeldFrom(b, r, live, slots);
    }
  }

  /** The slots left once the pointees of `gone` have been destroyed. */
  ghost function Without(slots: Slots, gone: set<nat>): Slots {
    map l | l in slots && (l.holder == Root || l.holder.block !in gone) :: slots[l]
  }

  /** Releasing in two stages retains what releasing at once retains, as long as the
      slots dropped in between are not inside live pointees. */
  lemma RetainedCompose(live: set<nat>, slots: Slots, drop: set<Loc>)
    requires forall l :: l in drop ==> Anchor(l.holder, live)
    ensures
      var live1 := Retained(live, slots);
      Retained(live1, Without(slots, live - live1) - drop) == Retained(live, slots - drop)
  {
    var live1 := Retained(live, slots);
    var slots1 := Without(slots, live - live1) - drop;
    var a := Retained(live1, slots1);
    RetainedIsSupported(live1, slots1);
    forall b | b in a ensures HeldFrom(b, a, live, slots - drop) {
      assert HeldFrom(b, a, live1, slots1);
    }
    SupportedIsRetained(a, live, slots - drop);
    var c := Retained(live, slots - drop);
    RetainedIsSupported(live, slots - drop);
    forall b | b in c ensures HeldFrom(b, c, live, slots) {
      assert HeldFrom(b, c, live, slots - drop);
    }
    SupportedIsRetained(c, live, slots);
    forall b | b in c ensures HeldFrom(b, c, live1, slots1) {
      var l :| l in slots - drop && (slots - drop)[l] == Strong(b)
        && (Anchor(l.holder, live) || l.holder.block in c);
      assert l in slots1 && slots1[l] == Strong(b);
    }
    SupportedIsRetained(c, live1, slots1);
  }

  /** A block with no owner left is not retained, and turning it into a pointee being
      destroyed, with its own handles gone, changes nothing for the others. */
  lemma RetainedUnowned(live: set<nat>, slots: Slots, b: nat)
    requires b in live && LocsOf(slots, Strong(b)) == {}
    ensures Retained(live - {b}, slots - Fields(slots, b)) == Retained(live, slots)
  {
    var rest := live - {b};
    var slots1 := slots - Fields(slots, b);
    var a := Retained(rest, slots1);
    RetainedIsSupported(rest, slots1);
    forall q | q in a ensures HeldFrom(q, a, live, slots) {
      assert HeldFrom(q, a, rest, slots1);
    }
    SupportedIsRetained(a, live, slots);
    var c := Retained(live, slots);
    RetainedIsSupported(live, slots);
    assert forall l :: l in slots ==> (slots[l] == Strong(b) <==> l in LocsOf(slots, Strong(b)));
    forall q | q in c ensures HeldFrom(q, c, rest, slots1) {
      var l :| l in slots && slots[l] == Strong(q) && (Anchor(l.holder, live) || l.holder.block in c);
      assert l in slots1;
    }
    SupportedIsRetained(c, rest, slots1);
  }

  /** Weak handles keep nothing alive. */
  lemma RetainedIgnoresWeak(live: set<nat>, slots: Slots, l: Loc)
    requires l in slots && slots[l].Weak?
    ensures Retained(live, slots - {l}) == Retained(live, slots)
  {
    var a := Retained(live, slots);
    RetainedIsSupported(live, slots);
    forall b | b in a ensures HeldFrom(b, a, live, slots - {l}) {
      var k :| k in slots && slots[k] == Strong(b) && (Anchor(k.holder, live) || k.holder.block in a);
      assert k in slots - {l};
    }
    SupportedIsRetained(a, live, slots - {l});
    var c := Retained(live, slots - {l});
    RetainedIsSupported(live, slots - {l});
    forall b | b in c ensures HeldFrom(b, c, live, slots) {
      assert HeldFrom(b, c, live, slots - {l});
    }
    SupportedIsRetained(c, live, slots);
  }

  /** When every live block has an owner, nothing needs to be disposed. */
  lemma RetainedAll(live: set<nat>, slots: Slots)
    requires forall b :: b in live ==> LocsOf(slots, Strong(b)) != {}
    ensures Retained(live, slots) == live
  {
    forall b | b in live ensures HeldFrom(b, live, live, slots) {
      var l :| l in LocsOf(slots, Strong(b));
    }
    SupportedIsRetained(live, live, slots);
  }

  // ---- Retained blocks in terms of paths ---------------------------------------

  ghost predicate Edge(p: nat, q: nat, slots: Slots) {
    exists l :: l in slots && slots[l] == Strong(q) && l.holder == Pointee(p)
  }

  ghost predicate RootEdge(q: nat, live: set<nat>, slots: Slots) {
    exists l :: l in slots && slots[l] == Strong(q) && Anchor(l.holder, live)
  }

  /** A path of strong handles through live blocks. */
  ghost predicate Walk(w: seq<nat>, live: set<nat>, slots: Slots) {
    && w != []
    && (forall i :: 0 <= i < |w| ==> w[i] in live)
    && (forall i :: 0 < i < |w| ==> Edge(w[i - 1], w[i], slots))
  }

  ghost predicate Reachable(b: nat, live: set<nat>, slots: Slots) {
    exists w :: Walk(w, live, slots) && w[|w| - 1] == b && RootEdge(w[0], live, slots)
  }

  /** Some path to `b` starts by going round a cycle of strong handles. */
  ghost predicate CycleFed(b: nat, live: set<nat>, slots: Slots) {
    exists w, j :: Walk(w, live, slots) && w[|w| - 1] == b && 0 < j < |w| && w[j] == w[0]
  }

  lemma WalkIsRetained(w: seq<nat>, live: set<nat>, slots: Slots)
    requires Walk(w, live, slots)
    requires RootEdge(w[0], live, slots) || exists j :: 0 < j < |w| && w[j] == w[0]
    ensures w[|w| - 1] in Retained(live, slots)
  {
    var r := set i | 0 <= i < |w| :: w[i];
    forall b | b in r ensures HeldFrom(b, r, live, slots) {
      var i :| 0 <= i < |w| && w[i] == b;
      if i == 0 && !RootEdge(b, live, slots) {
        i :| 0 < i < |w| && w[i] == w[0];
      }
      if i > 0 {
        assert Edge(w[i - 1], w[i], slots) && w[i - 1] in r;
      }
    }
    SupportedIsRetained(r, live, slots);
    assert w[|w| - 1] in r;
  }

  ghost function Elements(w: seq<nat>): set<nat> {
    set q | q in w
  }

  lemma {:induction false} DistinctCard(w: seq<nat>)
    requires Distinct(w)
    ensures |Elements(w)| == |w|
  {
    if w != [] {
      DistinctCard(w[1..]);
      assert Elements(w) == {w[0]} + Elements(w[1..]);
    }
  }

  ghost predicate Distinct(w: seq<nat>) {
    forall i, j :: 0 <= i < j < |w| ==> w[i] != w[j]
  }

  lemma WalkPrepend(p: nat, w: seq<nat>, live: set<nat>, slots: Slots)
    requires Walk(w, live, slots) && p in live && Edge(p, w[0], slots)
    ensures Walk([p] + w, live, slots) && ([p] + w)[|w|] == w[|w| - 1]
  {
    var w' := [p] + w;
    forall i | 0 < i < |w'| ensures Edge(w'[i - 1], w'[i], slots) {
      assert w'[i] == w[i - 1];
      if i > 1 {
        assert w'[i - 1] == w[i - 2];
      }
    }
  }

  lemma WalkRoundCycle(p: nat, w: seq<nat>, live: set<nat>, slots: Slots)
    requires Walk(w, live, slots) && p in live && Edge(p, w[0], slots) && p in w
    ensures CycleFed(w[|w| - 1], live, slots)
  {
    WalkPrepend(p, w, live, slots);
    var i :| 0 <= i < |w| && w[i] == p;
    assert ([p] + w)[i + 1] == ([p] + w)[0];
  }

  /** Follow owners backwards from the head of a path: a variable or a repetition turns up
      before the retained blocks run out. */
  lemma {:induction false} WalkBack(w: seq<nat>, r: set<nat>, live: set<nat>, slots: Slots)
    requires Supported(r, live, slots) && Walk(w, live, slots)
    requires Elements(w) <= r && Distinct(w)
    ensures Reachable(w[|w| - 1], live, slots) || CycleFed(w[|w| - 1], live, slots)
    decreases |r| - |w|
  {
    assert w[0] in Elements(w);
    assert HeldFrom(w[0], r, live, slots);
    if !RootEdge(w[0], live, slots) {
      var l :| l in slots && slots[l] == Strong(w[0]) && (Anchor(l.holder, live) || l.holder.block in r);
      var p := l.holder.block;
      assert Edge(p, w[0], slots);
      if p in w {
        WalkRoundCycle(p, w, live, slots);
      } else {
        WalkPrepend(p, w, live, slots);
        DistinctCard([p] + w);
        SubsetCard(Elements([p] + w), r);
        WalkBack([p] + w, r, live, slots);
      }
    }
  }

  /** A block stays undisposed exactly when a variable reaches it through strong handles,
      or it is on or downstream of a cycle of them. */
  lemma RetainedIffReachableOrCyclic(b: nat, live: set<nat>, slots: Slots)
    ensures b in Retained(live, slots) <==> Reachable(b, live, slots) || CycleFed(b, live, slots)
  {
    if b in Retained(live, slots) {
      RetainedIsSupported(live, slots);
      WalkBack([b], Retained(live, slots), live, slots);
    }
    if Reachable(b, live, slots) {
      var w :| Walk(w, live, slots) && w[|w| - 1] == b && RootEdge(w[0], live, slots);
      WalkIsRetained(w, live, slots);
    }
    if CycleFed(b, live, slots) {
      var w, j :| Walk(w, live, slots) && w[|w| - 1] == b && 0 < j < |w| && w[j] == w[0];
      WalkIsRetained(w, live, slots);
    }
  }

  // ---- Assigning a handle ---------------------------------------------------------

  /** Where the program can get at a handle: a variable, or a member of an object it reaches. */
  ghost predicate Accessible(h: Holder, live: set<nat>, slots: Slots) {
    h == Root || (h.block in live && Reachable(h.block, live, slots))
  }

  /** A path can be cut at the first time it meets its end. */
  lemma {:induction false} FirstArrival(w: seq<nat>, p: nat, live: set<nat>, slots: Slots) returns (v: seq<nat>)
    requires Walk(w, live, slots) && w[|w| - 1] == p
    ensures Walk(v, live, slots) && v[|v| - 1] == p && v[0] == w[0]
    ensures forall i :: 0 <= i < |v| - 1 ==> v[i] != p
    decreases |w|
  {
    if p in w[..|w| - 1] {
      var k :| 0 <= k < |w| - 1 && w[k] == p;
      v := FirstArrival(w[..k + 1], p, live, slots);
    } else {
      v := w;
      assert forall i :: 0 <= i < |w| - 1 ==> w[i] in w[..|w| - 1];
    }
  }

  /** The object just assigned survives the release of the old value, although the handle
      it came from may have lived inside what is released, or is the very handle moved
      from (`gone`), on whose path the assigned place itself depended. */
  lemma AssignedIsRetained(live: set<nat>, slots: Slots, dst: Loc, b: nat, gone: set<Loc>)
    requires b in live && Accessible(dst.holder, live, slots)
    requires forall l :: l in gone && l in slots ==> slots[l] == Strong(b)
    ensures b in Retained(live, (slots - gone)[dst := Strong(b)])
    ensures dst.holder.Pointee? ==> dst.holder.block in Retained(live, (slots - gone)[dst := Strong(b)])
  {
    var slots' := (slots - gone)[dst := Strong(b)];
    assert dst in slots' && slots'[dst] == Strong(b);
    if dst.holder == Root {
      assert HeldFrom(b, {b}, live, slots');
      SupportedIsRetained({b}, live, slots');
    } else {
      var p := dst.holder.block;
      var w :| Walk(w, live, slots) && w[|w| - 1] == p && RootEdge(w[0], live, slots);
      var v := FirstArrival(w, p, live, slots);
      var r := Elements(v) + {b};
      assert p in r;
      forall q | q in r ensures HeldFrom(q, r, live, slots') {
        if q != b {
          var i :| 0 <= i < |v| && v[i] == q;
          if i == 0 {
            var l :| l in slots && slots[l] == Strong(q) && Anchor(l.holder, live);
            assert l in slots' && slots'[l] == Strong(q);
          } else {
            assert Edge(v[i - 1], v[i], slots);
            var l :| l in slots && slots[l] == Strong(q) && l.holder == Pointee(v[i - 1]);
            assert v[i - 1] in r && v[i - 1] != p;
            assert l in slots' && slots'[l] == Strong(q);
          }
        }
      }
      SupportedIsRetained(r, live, slots');
    }
  }

  /** Giving up the old value first would be wrong: with `head -> 1 -> 2`, releasing `head`
      disposes 2, the object that `head = head->next` is about to assign. */
  lemma ReleaseFirstWouldDispose(head: Loc, next: Loc)
    requires head.holder == Root && next.holder == Pointee(1)
    ensures 2 !in Retained({1, 2}, map[head := Strong(1), next := Strong(2)] - {head})
    ensures 2 in Retained({1, 2}, map[head := Strong(1), next := Strong(2)][head := Strong(2)])
  {
    var slots := map[head := Strong(1), next := Strong(2)];
    RetainedIsSupported({1, 2}, slots - {head});
    var r := Retained({1, 2}, slots - {head});
    assert forall l :: l in slots - {head} ==> l == next && slots[l] == Strong(2);
    assert 1 !in r;
    assert 2 !in r;
    AssignedIsRetained({1, 2}, slots, head, 2, {});
    assert slots - {} == slots;
  }

  /** A release touches nothing outside what the lost handles led to: `d` is any set that
      contains their targets and is closed under strong handles. */
  lemma OnlyDownstreamDisposed(live: set<nat>, slots: Slots, slots': Slots, d: set<nat>)
    requires forall q :: q in live && q !in d ==> LocsOf(slots, Strong(q)) != {}
    requires forall l :: l in slots && slots[l].Strong? && slots[l].block !in d ==>
      l in slots' && slots'[l] == slots[l]
    requires forall p, q :: p in d && Edge(p, q, slots') ==> q in d
    ensures live - Retained(live, slots') <= d
  {
    var r := live - d;
    forall q | q in r ensures HeldFrom(q, r, live, slots') {
      var l :| l in LocsOf(slots, Strong(q));
      assert l in slots' && slots'[l] == Strong(q);
      if !Anchor(l.holder, live) {
        assert Edge(l.holder.block, q, slots');
      }
    }
    SupportedIsRetained(r, live, slots');
  }
}
