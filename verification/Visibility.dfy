/** Why dec_use_count is acquire-release: the accesses that owners make to the object are
    followed through the control block's steps, up to what `dispose` is sure to see.

    Assumptions: an access through a handle happens before that handle is dropped, and moving
    a handle hands it on together with what was done through it. Of the accesses of
    `use_count` only the decrement synchronizes here: it publishes what its call knows, and
    learns what all earlier decrements published, because the writes between are all
    read-modify-writes and continue the release sequence. */
module Visibility {
  import opened RefCount
  import opened Sums

  /** Accesses are numbered in the order made. `through` has those made through each owner
      that is still live, `known` those that happen before the current point of a call that
      drops an owner, and `published` those behind the decrements so far. */
  datatype View = View(
    block: Block,
    made: nat,
    through: map<nat, set<nat>>,
    known: map<nat, set<nat>>,
    published: set<nat>)

  datatype Step = Access(h: nat) | Do(e: Event)

  function Init(target: Disposal, h: nat): View {
    View(RefCount.Init(target, h), 0, map[], map[], {})
  }

  function Of(m: map<nat, set<nat>>, k: nat): set<nat> {
    if k in m then m[k] else {}
  }

  ghost predicate Enabled(v: View, s: Step)
    requires v.block.uses != []
  {
    match s
    case Access(h) => h in v.block.strongHandles
    case Do(e) => RefCount.Enabled(v.block, e)
  }

  /** What a step of the block passes on. */
  function Pass(v: View, e: Event): View {
    match e
    case BeginDropStrong(c, h) =>
      v.(through := v.through - {h}, known := v.known[c := Of(v.through, h)])
    case MoveStrong(h, to) => v.(through := (v.through - {h})[to := Of(v.through, h)])
    case FetchSubUse(c) =>
      var all := v.published + Of(v.known, c);
      v.(published := all, known := v.known[c := all])
    case _ => v
  }

  ghost function Apply(v: View, s: Step): (v': View)
    requires v.block.uses != [] && Enabled(v, s)
    ensures v'.block.uses != []
  {
    match s
    case Access(h) => v.(made := v.made + 1, through := v.through[h := Of(v.through, h) + {v.made}])
    case Do(e) => Pass(v, e).(block := RefCount.Apply(v.block, e))
  }

  ghost predicate LegalRun(v: View, es: seq<Step>)
    requires v.block.uses != []
    decreases |es|
  {
    es == [] || (Enabled(v, es[0]) && LegalRun(Apply(v, es[0]), es[1..]))
  }

  ghost function After(v: View, es: seq<Step>): (v': View)
    requires v.block.uses != [] && LegalRun(v, es)
    ensures v'.block.uses != []
    decreases |es|
  {
    if es == [] then v else After(Apply(v, es[0]), es[1..])
  }

  // ---- Where an access is ------------------------------------------------------------------

  /** An access is behind the decrements, or still with a live owner or with a drop that has
      not decremented. */
  datatype Place = Published | Owner(h: nat) | Drop(c: nat)

  predicate Dropping(v: View, c: nat) {
    c in v.block.calls && v.block.calls[c].DecUse?
  }

  predicate At(v: View, a: nat, p: Place) {
    match p
    case Published => a in v.published
    case Owner(h) => h in v.through && a in v.through[h]
    case Drop(c) => Dropping(v, c) && a in Of(v.known, c)
  }

  ghost predicate Placed(v: View, a: nat) {
    exists p :: At(v, a, p)
  }

  /** Where a step of the block takes what was at `p`. */
  function Moved(e: Event, p: Place): Place {
    match e
    case BeginDropStrong(c, h) => if p == Owner(h) then Drop(c) else p
    case MoveStrong(h, to) => if p == Owner(h) then Owner(to) else p
    case FetchSubUse(c) => if p == Drop(c) then Published else p
    case _ => p
  }

  /** Every access made is in exactly one place, and a disposer knows what is published. */
  ghost predicate Inv(v: View) {
    && v.block.uses != [] && RefCount.Inv(v.block)
    && v.through.Keys <= v.block.strongHandles
    && (forall a: nat :: Placed(v, a) <==> a < v.made)
    && (forall a: nat, p, q :: At(v, a, p) && At(v, a, q) ==> p == q)
    && (forall c :: c in v.block.calls && v.block.calls[c].Dispose? ==> Of(v.known, c) == v.published)
  }

  lemma InitInv(target: Disposal, h: nat)
    ensures Inv(Init(target, h))
  {
    RefCount.InitInv(target, h);
    forall a: nat, p ensures !At(Init(target, h), a, p) {
    }
  }

  /** An access is made where its handle is, and moves no other. */
  lemma AccessIsOwners(v: View, h: nat, a: nat, q: Place)
    requires v.block.uses != [] && Enabled(v, Access(h))
    ensures At(Apply(v, Access(h)), a, q) <==> At(v, a, q) || (a == v.made && q == Owner(h))
  {
  }

  /** What a step of the block moves, it moves as `Moved` says: a drop takes over what was
      done through its owner, a move hands it on, a decrement publishes it. */
  lemma StepMoves(v: View, e: Event, a: nat, p: Place)
    requires v.block.uses != [] && v.through.Keys <= v.block.strongHandles && Enabled(v, Do(e)) && At(v, a, p)
    ensures At(Apply(v, Do(e)), a, Moved(e, p))
  {
  }

  lemma StepMovedFrom(v: View, e: Event, a: nat, q: Place) returns (p: Place)
    requires v.block.uses != [] && v.through.Keys <= v.block.strongHandles && Enabled(v, Do(e))
    requires At(Apply(v, Do(e)), a, q)
    ensures At(v, a, p) && Moved(e, p) == q
  {
    p := q;
    match e
    case BeginDropStrong(c, h) => if q == Drop(c) { p := Owner(h); }
    case MoveStrong(h, to) => if q == Owner(to) { p := Owner(h); }
    case FetchSubUse(c) => if q == Published && a !in v.published { p := Drop(c); }
    case _ =>
  }

  lemma StepKeepsPlaces(v: View, e: Event)
    requires Inv(v) && Enabled(v, Do(e))
    ensures
      var v' := Apply(v, Do(e));
      && (forall a: nat :: Placed(v', a) <==> a < v'.made)
      && (forall a: nat, p, q :: At(v', a, p) && At(v', a, q) ==> p == q)
  {
    var v' := Apply(v, Do(e));
    hide RefCount.Inv, At, Enabled, Apply;
    assert v'.made == v.made by { SameMade(v, e); }
    forall a: nat ensures Placed(v', a) <==> a < v'.made {
      assert Placed(v, a) <==> a < v.made;
      if p :| At(v, a, p) {
        StepMoves(v, e, a, p);
      }
      if q :| At(v', a, q) {
        var p := StepMovedFrom(v, e, a, q);
      }
    }
    forall a: nat, q, r | At(v', a, q) && At(v', a, r) ensures q == r {
      var p := StepMovedFrom(v, e, a, q);
      var o := StepMovedFrom(v, e, a, r);
    }
  }

  lemma SameMade(v: View, e: Event)
    requires v.block.uses != [] && Enabled(v, Do(e))
    ensures Apply(v, Do(e)).made == v.made
  {
  }

  lemma AccessKeepsPlaces(v: View, h: nat)
    requires Inv(v) && Enabled(v, Access(h))
    ensures
      var v' := Apply(v, Access(h));
      && (forall a: nat :: Placed(v', a) <==> a < v'.made)
      && (forall a: nat, p, q :: At(v', a, p) && At(v', a, q) ==> p == q)
  {
    var v' := Apply(v, Access(h));
    assert v'.made == v.made + 1;
    hide RefCount.Inv, At, Enabled, Apply;
    forall a: nat ensures Placed(v', a) <==> a < v'.made {
      assert Placed(v, a) <==> a < v.made;
      AccessIsOwners(v, h, a, Owner(h));
      if p :| At(v, a, p) {
        AccessIsOwners(v, h, a, p);
      }
      if p :| At(v', a, p) {
        AccessIsOwners(v, h, a, p);
      }
    }
    forall a: nat, p, q | At(v', a, p) && At(v', a, q) ensures p == q {
      AccessIsOwners(v, h, a, p);
      AccessIsOwners(v, h, a, q);
      assert Placed(v, a) <==> a < v.made;
      assert a == v.made ==> !At(v, a, p) && !At(v, a, q);
    }
  }

  /** Once an owner's drop has turned to disposing, no further drop publishes anything. */
  lemma StepKeepsDisposers(v: View, e: Event, c: nat)
    requires Inv(v) && Enabled(v, Do(e))
    requires c in Apply(v, Do(e)).block.calls && Apply(v, Do(e)).block.calls[c].Dispose?
    ensures Of(Apply(v, Do(e)).known, c) == Apply(v, Do(e)).published
  {
    if !(e.FetchSubUse? && e.c == c) {
      assert c in v.block.calls && v.block.calls[c].Dispose?;
      ReleaseOrder(v.block, c);
      if e.FetchSubUse? {
        WritersFindOwners(v.block, e);
      }
    }
  }

  lemma StepKeepsInv(v: View, s: Step)
    requires Inv(v) && Enabled(v, s)
    ensures Inv(Apply(v, s))
  {
    hide RefCount.Inv, At;
    var v' := Apply(v, s);
    if s.Access? {
      AccessKeepsPlaces(v, s.h);
    } else {
      RefCount.StepKeepsInv(v.block, s.e);
      StepKeepsPlaces(v, s.e);
      forall c | c in v'.block.calls && v'.block.calls[c].Dispose? ensures Of(v'.known, c) == v'.published {
        StepKeepsDisposers(v, s.e, c);
      }
    }
  }

  lemma {:induction false} RunKeepsInv(v: View, es: seq<Step>)
    requires Inv(v) && LegalRun(v, es)
    ensures Inv(After(v, es))
    decreases |es|
  {
    if es != [] {
      StepKeepsInv(v, es[0]);
      hide Inv, Enabled, Apply;
      RunKeepsInv(Apply(v, es[0]), es[1..]);
    }
  }

  /** In every run each access is in one place and no other; so nothing is lost, and what a
      live owner has done is not yet published. */
  lemma EveryAccessHasOnePlace(target: Disposal, h: nat, es: seq<Step>, a: nat)
    requires LegalRun(Init(target, h), es)
    ensures
      var v := After(Init(target, h), es);
      && (Placed(v, a) <==> a < v.made)
      && (forall p, q :: At(v, a, p) && At(v, a, q) ==> p == q)
  {
    InitInv(target, h);
    RunKeepsInv(Init(target, h), es);
  }

  /** In every run, what `dispose` sees is every access that any owner ever made. */
  lemma DisposeSeesEveryAccess(target: Disposal, h: nat, es: seq<Step>, c: nat)
    requires LegalRun(Init(target, h), es)
    requires
      var v := After(Init(target, h), es);
      c in v.block.calls && v.block.calls[c].Dispose?
    ensures
      var v := After(Init(target, h), es);
      forall a: nat :: a in Of(v.known, c) <==> a < v.made
  {
    InitInv(target, h);
    RunKeepsInv(Init(target, h), es);
    var v := After(Init(target, h), es);
    ReleaseOrder(v.block, c);
    forall a: nat ensures a in Of(v.known, c) <==> a < v.made {
      if a in v.published {
        assert At(v, a, Published);
      }
      if Placed(v, a) {
        var p :| At(v, a, p);
        if p.Drop? {
          SumCovers(v.block.calls, p.c, UseUnit);
        }
      }
    }
  }

  /** Leaving the accesses out changes nothing for the block: its runs are those of RefCount. */
  ghost function BlockSteps(es: seq<Step>): seq<Event> {
    if es == [] then [] else (if es[0].Do? then [es[0].e] else []) + BlockSteps(es[1..])
  }

  lemma {:induction false} RunsAreBlockRuns(v: View, es: seq<Step>)
    requires v.block.uses != [] && LegalRun(v, es)
    ensures RefCount.LegalRun(v.block, BlockSteps(es))
    ensures After(v, es).block == RefCount.After(v.block, BlockSteps(es))
    decreases |es|
  {
    if es != [] {
      var v1 := Apply(v, es[0]);
      RunsAreBlockRuns(v1, es[1..]);
      if es[0].Do? {
        RunCons(v.block, es[0].e, BlockSteps(es[1..]));
      } else {
        assert BlockSteps(es) == BlockSteps(es[1..]);
      }
    }
  }
}
