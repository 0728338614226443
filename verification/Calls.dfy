/** What each call on the control block does, from its beginning to its return, whatever the
    other calls do between its accesses; and that it can always return. */
module Calls {
  import opened RefCount

  /** The step is made by call `c`. */
  predicate By(e: Event, c: nat) {
    !e.MoveStrong? && !e.MoveWeak? && e.c == c
  }

  lemma OtherStepKeepsCall(s: Block, e: Event, c: nat)
    requires s.uses != [] && Enabled(s, e) && !By(e, c)
    ensures s.uses <= Apply(s, e).uses
    ensures c in s.calls ==> c in Apply(s, e).calls && Apply(s, e).calls[c] == s.calls[c]
  {
  }

  lemma {:induction false} OthersKeepCall(s: Block, es: seq<Event>, c: nat)
    requires s.uses != [] && LegalRun(s, es) && forall e :: e in es ==> !By(e, c)
    ensures s.uses <= After(s, es).uses
    ensures c in s.calls ==> c in After(s, es).calls && After(s, es).calls[c] == s.calls[c]
    decreases |es|
  {
    if es != [] {
      assert es[0] in es;
      hide Apply, Enabled;
      OtherStepKeepsCall(s, es[0], c);
      OthersKeepCall(Apply(s, es[0]), es[1..], c);
    }
  }

  /** After any steps `es` of others, call `c` makes the access `e`. */
  ghost predicate MakesNext(s: Block, c: nat, es: seq<Event>, e: Event) {
    && s.uses != [] && LegalRun(s, es) && (forall o :: o in es ==> !By(o, c))
    && By(e, c) && Enabled(After(s, es), e)
  }

  /** The call `c` has returned. */
  function Returned(s: Block, c: nat): Block {
    s.(calls := s.calls - {c})
  }

  /** `s2` differs from `s1` in the call `c` at most. */
  predicate OnlyCallMoved(s1: Block, c: nat, s2: Block) {
    Returned(s1, c) == Returned(s2, c)
  }

  // ---- Counting up ------------------------------------------------------------------------

  /** The copy of a shared handle: nothing at first, and then exactly one more owner. */
  lemma CopyMakesOwner(s: Block, c: nat, h: nat, es: seq<Event>, e: Event)
    requires Inv(s) && Enabled(s, BeginCopyStrong(c, h))
    requires MakesNext(Apply(s, BeginCopyStrong(c, h)), c, es, e)
    ensures
      var s0 := Apply(s, BeginCopyStrong(c, h));
      var s1 := After(s0, es);
      && OnlyCallMoved(s, c, s0)
      && e.FetchAddUse? && e.to !in s1.strongHandles
      && Apply(s1, e) ==
         Returned(s1, c).(uses := s1.uses + [Use(s1) + 1], strongHandles := s1.strongHandles + {e.to})
  {
    var s0 := Apply(s, BeginCopyStrong(c, h));
    OthersKeepCall(s0, es, c);
    assert s0.calls - {c} == s.calls - {c};
  }

  /** A weak handle made from a shared one, or copied from a weak one: exactly one more weak
      handle. */
  lemma MakesWeakHandle(s: Block, begin: Event, es: seq<Event>, e: Event)
    requires Inv(s) && Enabled(s, begin) && (begin.BeginMakeWeak? || begin.BeginCopyWeak?)
    requires MakesNext(Apply(s, begin), begin.c, es, e)
    ensures
      var c := begin.c;
      var s1 := After(Apply(s, begin), es);
      && OnlyCallMoved(s, c, Apply(s, begin))
      && e.FetchAddWeak? && e.to !in s1.weakHandles
      && Apply(s1, e) == Returned(s1, c).(weak := s1.weak + 1, weakHandles := s1.weakHandles + {e.to})
  {
    var s0 := Apply(s, begin);
    OthersKeepCall(s0, es, begin.c);
    assert s0.calls - {begin.c} == s.calls - {begin.c};
  }

  /** `lock` first looks at the count, and returns at once if it sees zero. */
  lemma LockLooks(s: Block, c: nat, h: nat, es: seq<Event>, e: Event)
    requires Inv(s) && Enabled(s, BeginLock(c, h))
    requires MakesNext(Apply(s, BeginLock(c, h)), c, es, e)
    ensures
      var s0 := Apply(s, BeginLock(c, h));
      var s1 := After(s0, es);
      var s2 := Apply(s1, e);
      && OnlyCallMoved(s, c, s0) && OnlyCallMoved(s1, c, s2)
      && e.Load? && e.i < |s1.uses|
      && (c !in s2.calls <==> s1.uses[e.i] == 0)
      && (c in s2.calls ==> s2.calls[c].LockCas? && s2.calls[c].source == h && s2.calls[c].seen == e.i)
  {
    var s0 := Apply(s, BeginLock(c, h));
    OthersKeepCall(s0, es, c);
    assert s0.calls - {c} == s.calls - {c};
    assert Apply(After(s0, es), e).calls - {c} == After(s0, es).calls - {c};
  }

  /** One round of `lock`: it counts one more owner if the count is the expected one, or
      changes nothing and looks again, returning if it sees zero. */
  ghost predicate Round(s1: Block, c: nat, call: Call, e: Event, s2: Block)
    requires s1.uses != [] && call.LockCas? && call.seen < |s1.uses|
  {
    match e
    case CasSucceed(_) =>
      && Use(s1) == s1.uses[call.seen] && c in s2.calls && s2.calls[c] == LockBuild(call.source)
      && OnlyCallMoved(s1.(uses := s1.uses + [Use(s1) + 1]), c, s2)
    case CasFail(_, i) =>
      && call.seen <= i < |s1.uses| && OnlyCallMoved(s1, c, s2)
      && (c !in s2.calls <==> s1.uses[i] == 0)
      && (c in s2.calls ==> s2.calls[c].LockCas? && s2.calls[c].source == call.source && s2.calls[c].seen == i)
    case _ => false
  }

  lemma RoundOnce(s: Block, c: nat, e: Event)
    requires s.uses != [] && c in s.calls && s.calls[c].LockCas? && s.calls[c].seen < |s.uses|
    requires By(e, c) && Enabled(s, e)
    ensures Round(s, c, s.calls[c], e, Apply(s, e))
  {
    assert Apply(s, e).calls - {c} == s.calls - {c};
  }

  lemma LockTries(s: Block, c: nat, es: seq<Event>, e: Event)
    requires Inv(s) && c in s.calls && s.calls[c].LockCas? && MakesNext(s, c, es, e)
    ensures s.calls[c].seen < |After(s, es).uses|
    ensures Round(After(s, es), c, s.calls[c], e, Apply(After(s, es), e))
  {
    assert s.calls[c].seen < |s.uses|;
    hide Inv, Apply, Enabled, Round;
    OthersKeepCall(s, es, c);
    RoundOnce(After(s, es), c, e);
  }

  /** The owner counted becomes a handle. */
  lemma LockMakesOwner(s: Block, c: nat, es: seq<Event>, e: Event)
    requires Inv(s) && c in s.calls && s.calls[c].LockBuild? && MakesNext(s, c, es, e)
    ensures
      var s1 := After(s, es);
      && e.Build? && e.to !in s1.strongHandles
      && Apply(s1, e) == Returned(s1, c).(strongHandles := s1.strongHandles + {e.to})
  {
    OthersKeepCall(s, es, c);
  }

  // ---- Counting down ------------------------------------------------------------------------

  /** The drop of an owner: the handle goes first, then its unit; the drop that takes the
      count to zero, and no other, goes on to dispose. */
  lemma DropGivesUpUse(s: Block, c: nat, h: nat, es: seq<Event>, e: Event)
    requires Inv(s) && Enabled(s, BeginDropStrong(c, h))
    requires MakesNext(Apply(s, BeginDropStrong(c, h)), c, es, e)
    ensures
      var s0 := Apply(s, BeginDropStrong(c, h));
      var s1 := After(s0, es);
      var s2 := Apply(s1, e);
      && OnlyCallMoved(s.(strongHandles := s.strongHandles - {h}), c, s0)
      && OnlyCallMoved(s1.(uses := s1.uses + [Use(s1) - 1]), c, s2)
      && (if Use(s1) == 1 then c in s2.calls && s2.calls[c] == Dispose else c !in s2.calls)
  {
    var s0 := Apply(s, BeginDropStrong(c, h));
    OthersKeepCall(s0, es, c);
    assert s0.calls - {c} == s.calls - {c};
    assert Apply(After(s0, es), e).calls - {c} == After(s0, es).calls - {c};
  }

  /** The last owner runs the deleter and then gives up the owners' weak unit. */
  lemma LastOwnerDisposes(s: Block, c: nat, es: seq<Event>, e: Event)
    requires Inv(s) && c in s.calls && s.calls[c].Dispose? && MakesNext(s, c, es, e)
    ensures
      var s1 := After(s, es);
      var s2 := Apply(s1, e);
      && OnlyCallMoved(s1.(disposals := s1.disposals + [s1.target]), c, s2)
      && c in s2.calls && s2.calls[c] == DecWeak
  {
    OthersKeepCall(s, es, c);
    var s1 := After(s, es);
    assert Apply(s1, e).calls - {c} == s1.calls - {c};
  }

  /** The drop of a weak handle begins with the handle alone ... */
  lemma WeakDropBegins(s: Block, c: nat, h: nat)
    requires Inv(s) && Enabled(s, BeginDropWeak(c, h))
    ensures
      var s0 := Apply(s, BeginDropWeak(c, h));
      && OnlyCallMoved(s.(weakHandles := s.weakHandles - {h}), c, s0)
      && c in s0.calls && s0.calls[c] == DecWeak
  {
    var s0 := Apply(s, BeginDropWeak(c, h));
    assert s0.calls - {c} == s.calls - {c};
  }

  /** ... and goes on as an owner's last drop does: it gives up one weak unit, and destroys the
      block exactly if that was the last. */
  lemma GivesUpWeak(s: Block, c: nat, es: seq<Event>, e: Event)
    requires Inv(s) && c in s.calls && s.calls[c].DecWeak? && MakesNext(s, c, es, e)
    ensures
      var s1 := After(s, es);
      var s2 := Apply(s1, e);
      && OnlyCallMoved(s1.(weak := s1.weak - 1), c, s2)
      && (if s1.weak == 1 then c in s2.calls && s2.calls[c] == Destroy else c !in s2.calls)
  {
    OthersKeepCall(s, es, c);
    var s1 := After(s, es);
    assert Apply(s1, e).calls - {c} == s1.calls - {c};
  }

  lemma DestroysBlock(s: Block, c: nat, es: seq<Event>, e: Event)
    requires Inv(s) && c in s.calls && s.calls[c].Destroy? && MakesNext(s, c, es, e)
    ensures var s1 := After(s, es); Apply(s1, e) == Returned(s1, c).(destroys := s1.destroys + 1)
  {
    OthersKeepCall(s, es, c);
  }

  // ---- Moving -------------------------------------------------------------------------------

  /** A move hands the block from one handle to another of its kind, and nothing else. */
  lemma MoveHandsOver(s: Block, h: nat, to: nat)
    requires s.uses != []
    ensures Enabled(s, MoveStrong(h, to)) ==>
      var s' := Apply(s, MoveStrong(h, to));
      && (forall x :: x in s'.strongHandles <==> x == to || (x in s.strongHandles && x != h))
      && s'.(strongHandles := s.strongHandles) == s
    ensures Enabled(s, MoveWeak(h, to)) ==>
      var s' := Apply(s, MoveWeak(h, to));
      && (forall x :: x in s'.weakHandles <==> x == to || (x in s.weakHandles && x != h))
      && s'.(weakHandles := s.weakHandles) == s
  {
  }

  // ---- Every call can return ------------------------------------------------------------------

  lemma {:induction false} FreshName(used: set<nat>) returns (n: nat)
    ensures n !in used
    ensures forall x :: x in used ==> x < n
    decreases |used|
  {
    if used == {} {
      n := 0;
    } else {
      var x :| x in used;
      var m := FreshName(used - {x});
      assert used == used - {x} + {x};
      n := if m > x then m else x + 1;
    }
  }

  /** The accesses a call still needs when no other thread runs. */
  function AccessesLeft(s: Block, call: Call): nat {
    match call
    case LockLoad(_, _) => 4
    case LockCas(_, _, _, seen, _) => if seen + 1 < |s.uses| then 3 else 2
    case DecUse => 4
    case Dispose => 3
    case DecWeak => 2
    case _ => 1
  }

  lemma NextAccess(s: Block, c: nat) returns (e: Event)
    requires Inv(s) && c in s.calls
    ensures By(e, c) && Enabled(s, e)
    ensures c in Apply(s, e).calls ==>
      AccessesLeft(Apply(s, e), Apply(s, e).calls[c]) < AccessesLeft(s, s.calls[c])
  {
    hide Counted, SourcesLive, HistoryValid;
    var to := FreshName(s.strongHandles + s.weakHandles);
    match s.calls[c]
    case CopyStrong(_) => e := FetchAddUse(c, to);
    case MakeWeak(_) => e := FetchAddWeak(c, to);
    case CopyWeak(_) => e := FetchAddWeak(c, to);
    case LockLoad(_, _) => e := Load(c, |s.uses| - 1);
    case LockCas(_, _, _, seen, _) => e := if seen + 1 < |s.uses| then CasFail(c, |s.uses| - 1) else CasSucceed(c);
    case LockBuild(_) => e := Build(c, to);
    case DecUse => e := FetchSubUse(c);
    case Dispose => e := RunDispose(c);
    case DecWeak => e := FetchSubWeak(c);
    case Destroy => e := RunDestroy(c);
  }

  /** Every call in flight can return by accesses of its own, four at most. */
  lemma {:induction false} CallCanReturn(s: Block, c: nat) returns (es: seq<Event>)
    requires Inv(s) && c in s.calls
    ensures LegalRun(s, es) && |es| <= AccessesLeft(s, s.calls[c]) <= 4
    ensures (forall e :: e in es ==> By(e, c)) && c !in After(s, es).calls
    decreases AccessesLeft(s, s.calls[c])
  {
    var e := NextAccess(s, c);
    StepKeepsInv(s, e);
    var s1 := Apply(s, e);
    hide Apply, Enabled, Inv;
    if c in s1.calls {
      var rest := CallCanReturn(s1, c);
      RunCons(s, e, rest);
      es := [e] + rest;
    } else {
      RunCons(s, e, []);
      es := [e] + [];
    }
  }

  lemma LockAlone(s: Block, c: nat, h: nat, to: nat)
    requires s.uses != [] && Enabled(s, BeginLock(c, h)) && Use(s) > 0 && to !in s.strongHandles
    ensures
      var n := |s.uses| - 1;
      var s1 := SetCall(s, c, LockLoad(h, n));
      var s2 := SetCall(s, c, LockCas(h, n, n, n, 0));
      var s3 := SetCall(s, c, LockBuild(h)).(uses := s.uses + [Use(s) + 1]);
      && Apply(s, BeginLock(c, h)) == s1
      && Enabled(s1, Load(c, n)) && Apply(s1, Load(c, n)) == s2
      && Enabled(s2, CasSucceed(c)) && Apply(s2, CasSucceed(c)) == s3
      && Enabled(s3, Build(c, to))
      && Apply(s3, Build(c, to)) == s.(uses := s.uses + [Use(s) + 1], strongHandles := s.strongHandles + {to})
  {
    assert s.calls[c := LockBuild(h)] - {c} == s.calls;
  }

  /** A `lock` that runs while the object is owned can make an owner. */
  lemma LockCanSucceed(s: Block, c: nat, h: nat, to: nat) returns (es: seq<Event>)
    requires Inv(s) && Enabled(s, BeginLock(c, h)) && Use(s) > 0 && to !in s.strongHandles
    ensures LegalRun(s, es)
    ensures After(s, es) == s.(uses := s.uses + [Use(s) + 1], strongHandles := s.strongHandles + {to})
  {
    var n := |s.uses| - 1;
    LockAlone(s, c, h, to);
    hide Apply, Enabled, Inv;
    var s1 := SetCall(s, c, LockLoad(h, n));
    var s2 := SetCall(s, c, LockCas(h, n, n, n, 0));
    var s3 := SetCall(s, c, LockBuild(h)).(uses := s.uses + [Use(s) + 1]);
    es := [Build(c, to)] + [];
    RunCons(s3, Build(c, to), []);
    RunCons(s2, CasSucceed(c), es);
    es := [CasSucceed(c)] + es;
    RunCons(s1, Load(c, n), es);
    es := [Load(c, n)] + es;
    RunCons(s, BeginLock(c, h), es);
    es := [BeginLock(c, h)] + es;
  }
}
