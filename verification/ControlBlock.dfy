/** The member functions of control_block_base as code over the counter fields. Between
    any two atomic accesses the other calls may make any number of steps (`Interfere`);
    each function is proved to perform steps of the machine in RefCount, in its order. */
module ControlBlock {
  import opened Calls
  import opened RefCount

  /** The steps of one call within a run, in order. */
  function Own(es: seq<Event>, c: nat): seq<Event> {
    if es == [] then []
    else Own(es[..|es| - 1], c) + (if By(es[|es| - 1], c) then [es[|es| - 1]] else [])
  }

  /** `s` is where the run `es` leads from a new block. */
  ghost predicate Reached(target: Disposal, h: nat, es: seq<Event>, s: Block) {
    LegalRun(Init(target, h), es) && s == After(Init(target, h), es)
  }

  lemma ReachedInv(target: Disposal, h: nat, es: seq<Event>, s: Block)
    requires Reached(target, h, es, s)
    ensures Inv(s) && s.target == target
  {
    InitInv(target, h);
    RunKeepsInv(Init(target, h), es);
    RunKeepsTarget(Init(target, h), es);
  }

  lemma {:induction false} RunSnoc(s: Block, es: seq<Event>, e: Event)
    requires s.uses != [] && LegalRun(s, es) && Enabled(After(s, es), e)
    ensures LegalRun(s, es + [e]) && After(s, es + [e]) == Apply(After(s, es), e)
    decreases |es|
  {
    if es == [] {
      assert [] + [e] == [e] && [e][1..] == [];
    } else {
      RunSnoc(Apply(s, es[0]), es[1..], e);
      assert (es + [e])[1..] == es[1..] + [e];
    }
  }

  /** One more step of a run, and what it adds to the steps of each call. */
  lemma Extend(target: Disposal, h: nat, es: seq<Event>, s: Block, e: Event)
    requires Reached(target, h, es, s) && s.uses != [] && Enabled(s, e)
    ensures Reached(target, h, es + [e], Apply(s, e))
    ensures forall c :: Own(es + [e], c) == Own(es, c) + (if By(e, c) then [e] else [])
  {
    RunSnoc(Init(target, h), es, e);
    assert (es + [e])[..|es|] == es;
  }

  /** Any steps of other calls extend the run and stay within what Interfere allows. */
  lemma {:induction false} InterferenceAllowed(target: Disposal, h: nat, trace: seq<Event>, s: Block,
      es: seq<Event>, c: nat)
    requires Reached(target, h, trace, s) && s.uses != [] && LegalRun(s, es)
    requires forall e :: e in es ==> !By(e, c)
    ensures Reached(target, h, trace + es, After(s, es)) && Own(trace + es, c) == Own(trace, c)
    ensures s.uses <= After(s, es).uses
    ensures c in s.calls ==> c in After(s, es).calls && After(s, es).calls[c] == s.calls[c]
    decreases |es|
  {
    hide Apply, Enabled, By, Own, Reached;
    OthersKeepCall(s, es, c);
    if es == [] {
      assert trace + es == trace;
    } else {
      assert es[0] in es;
      Extend(target, h, trace, s, es[0]);
      InterferenceAllowed(target, h, trace + [es[0]], Apply(s, es[0]), es[1..], c);
      assert trace + es == trace + [es[0]] + es[1..];
    }
  }

  datatype LockOutcome = Locked | Expired | StillTrying

  class ControlBlock {
    var useCount: int
    var weakCount: int
    const target: Disposal
    var disposals: seq<Disposal>
    var destroys: nat
    ghost const first: nat
    ghost var trace: seq<Event>
    ghost var model: Block

    ghost predicate Valid()
      reads this
    {
      && Reached(target, first, trace, model)
      && model.uses != []
      && useCount == Use(model)
      && weakCount == model.weak
      && disposals == model.disposals
      && destroys == model.destroys
    }

    /** A new block has one owner, which also holds the owners' weak unit. */
    constructor (target: Disposal, ghost h: nat)
      ensures Valid() && model == Init(target, h) && trace == []
    {
      useCount, weakCount := 1, 1;
      this.target := target;
      disposals, destroys := [], 0;
      first, trace, model := h, [], Init(target, h);
    }

    /** Other threads run: any steps that are not this call's, as InterferenceAllowed shows. */
    method Interfere(ghost c: nat)
      requires Valid()
      modifies this
      ensures Valid()
      ensures Own(trace, c) == Own(old(trace), c)
      ensures c in old(model).calls ==> c in model.calls && model.calls[c] == old(model).calls[c]
      ensures old(model).uses <= model.uses
    {
    }

    method IncUseCount(ghost c: nat, ghost to: nat)
      requires Valid() && Enabled(model, FetchAddUse(c, to))
      modifies this
      ensures Valid() && model == Apply(old(model), FetchAddUse(c, to))
    {
      Extend(target, first, trace, model, FetchAddUse(c, to));
      useCount := useCount + 1;
      model, trace := Apply(model, FetchAddUse(c, to)), trace + [FetchAddUse(c, to)];
    }

    method IncWeakCount(ghost c: nat, ghost to: nat)
      requires Valid() && Enabled(model, FetchAddWeak(c, to))
      modifies this
      ensures Valid() && model == Apply(old(model), FetchAddWeak(c, to))
    {
      Extend(target, first, trace, model, FetchAddWeak(c, to));
      weakCount := weakCount + 1;
      model, trace := Apply(model, FetchAddWeak(c, to)), trace + [FetchAddWeak(c, to)];
    }

    /** dispose: runs the deleter on the pointer the block was made with. */
    method RunDeleter(ghost c: nat)
      requires Valid() && Enabled(model, RunDispose(c))
      modifies this
      ensures Valid() && model == Apply(old(model), RunDispose(c))
      ensures Own(trace, c) == Own(old(trace), c) + [RunDispose(c)]
    {
      Extend(target, first, trace, model, RunDispose(c));
      ReachedInv(target, first, trace, model);
      disposals := disposals + [target];
      model, trace := Apply(model, RunDispose(c)), trace + [RunDispose(c)];
    }

    /** destroy: `delete this`. */
    method DeleteThis(ghost c: nat)
      requires Valid() && Enabled(model, RunDestroy(c))
      modifies this
      ensures Valid() && model == Apply(old(model), RunDestroy(c))
      ensures Own(trace, c) == Own(old(trace), c) + [RunDestroy(c)]
    {
      Extend(target, first, trace, model, RunDestroy(c));
      destroys := destroys + 1;
      model, trace := Apply(model, RunDestroy(c)), trace + [RunDestroy(c)];
    }

    method FetchSub(ghost c: nat, weak: bool) returns (before: int)
      requires Valid() && Enabled(model, if weak then FetchSubWeak(c) else FetchSubUse(c))
      modifies this
      ensures Valid() && before == if weak then old(weakCount) else old(useCount)
      ensures model == Apply(old(model), if weak then FetchSubWeak(c) else FetchSubUse(c))
      ensures Own(trace, c) == Own(old(trace), c) + [if weak then FetchSubWeak(c) else FetchSubUse(c)]
    {
      ghost var e := if weak then FetchSubWeak(c) else FetchSubUse(c);
      Extend(target, first, trace, model, e);
      if weak {
        before, weakCount := weakCount, weakCount - 1;
      } else {
        before, useCount := useCount, useCount - 1;
      }
      model, trace := Apply(model, e), trace + [e];
    }

    /** The call that takes the weak count to zero, and no other, destroys the block. */
    method DecWeakCount(ghost c: nat)
      requires Valid() && Enabled(model, FetchSubWeak(c))
      modifies this
      ensures Valid() && c !in model.calls
      ensures Own(trace, c) ==
        Own(old(trace), c) + [FetchSubWeak(c)] + (if old(weakCount) == 1 then [RunDestroy(c)] else [])
    {
      var before := FetchSub(c, true);
      if before == 1 {
        Interfere(c);
        DeleteThis(c);
      }
    }

    /** The end of the last owner: dispose, then give up the owners' weak unit. */
    method Release(ghost c: nat)
      requires Valid() && c in model.calls && model.calls[c].Dispose?
      modifies this
      ensures Valid() && c !in model.calls
      ensures
        || Own(trace, c) == Own(old(trace), c) + [RunDispose(c), FetchSubWeak(c)]
        || Own(trace, c) == Own(old(trace), c) + [RunDispose(c), FetchSubWeak(c), RunDestroy(c)]
    {
      Interfere(c);
      RunDeleter(c);
      Interfere(c);
      DecWeakCount(c);
    }

    /** Drops one unit; the call that takes the count to zero, and no other, releases. */
    method DecUseCount(ghost c: nat)
      requires Valid() && Enabled(model, FetchSubUse(c))
      modifies this
      ensures Valid() && c !in model.calls
      ensures old(useCount) != 1 ==> Own(trace, c) == Own(old(trace), c) + [FetchSubUse(c)]
      ensures old(useCount) == 1 ==>
        || Own(trace, c) == Own(old(trace), c) + [FetchSubUse(c), RunDispose(c), FetchSubWeak(c)]
        || Own(trace, c) ==
             Own(old(trace), c) + [FetchSubUse(c), RunDispose(c), FetchSubWeak(c), RunDestroy(c)]
    {
      var before := FetchSub(c, false);
      if before == 1 {
        Release(c);
      }
    }

    /** A relaxed load: the newest value, or any older one not older than `floor`. */
    method RelaxedLoad(ghost floor: nat) returns (value: int, ghost i: nat)
      requires Valid() && floor < |model.uses|
      ensures floor <= i < |model.uses| && value == model.uses[i]
    {
      value, i := useCount, |model.uses| - 1;
    }

    /** compare_exchange_weak: it may fail although the values agree. */
    method CompareExchangeWeak(ghost c: nat, expected: int) returns (ok: bool, value: int, ghost e: Event)
      requires Valid() && c in model.calls && model.calls[c].LockCas?
      requires model.calls[c].seen < |model.uses| && expected == model.uses[model.calls[c].seen]
      modifies this
      ensures Valid() && By(e, c) && Own(trace, c) == Own(old(trace), c) + [e]
      ensures Enabled(old(model), e) && model == Apply(old(model), e)
      ensures if ok then e == CasSucceed(c) else e.CasFail? && value == old(model).uses[e.i]
    {
      var spurious: bool := *;
      if useCount == expected && !spurious {
        ok, value, e := true, expected, CasSucceed(c);
        Extend(target, first, trace, model, e);
        useCount := expected + 1;
      } else {
        ghost var i;
        value, i := RelaxedLoad(model.calls[c].seen);
        ok, e := false, CasFail(c, i);
        Extend(target, first, trace, model, e);
      }
      model, trace := Apply(model, e), trace + [e];
    }

    /** The first load of the promotion loop. */
    method FirstLoad(ghost c: nat) returns (count: int, ghost e: Event)
      requires Valid() && c in model.calls && model.calls[c].LockLoad?
      modifies this
      ensures Valid() && By(e, c) && Own(trace, c) == Own(old(trace), c) + [e]
      ensures Enabled(old(model), e) && model == Apply(old(model), e)
      ensures e.Load? && count == old(model).uses[e.i]
    {
      ghost var i;
      count, i := RelaxedLoad(0);
      e := Load(c, i);
      Extend(target, first, trace, model, e);
      model, trace := Apply(model, e), trace + [e];
    }

    /** One round of the loop, after whatever the other threads did meanwhile. */
    method Attempt(ghost c: nat, expected: int) returns (ok: bool, count: int)
      requires Valid() && c in model.calls && model.calls[c].LockCas?
      requires model.calls[c].seen < |model.uses| && expected == model.uses[model.calls[c].seen]
      modifies this
      ensures Valid() && |Own(trace, c)| == |Own(old(trace), c)| + 1
      ensures ok ==> c in model.calls && model.calls[c].LockBuild? && useCount >= 2
      ensures !ok && count == 0 ==> c !in model.calls && useCount == 0
      ensures !ok && count != 0 ==>
        && c in model.calls && model.calls[c].LockCas?
        && model.calls[c].seen < |model.uses| && count == model.uses[model.calls[c].seen]
    {
      Interfere(c);
      ReachedInv(target, first, trace, model);
      ghost var now := model;
      ghost var e;
      ok, count, e := CompareExchangeWeak(c, expected);
      if ok || count == 0 {
        LockIsLinearizable(now, e);
      }
    }

    /** The promotion loop, for as many rounds as the scheduler grants it. */
    method LockUseCount(ghost c: nat, attempts: nat) returns (r: LockOutcome)
      requires Valid() && c in model.calls && model.calls[c].LockLoad?
      modifies this
      ensures Valid()
      ensures r == Locked ==> c in model.calls && model.calls[c].LockBuild? && useCount >= 2
      ensures r == Expired ==> c !in model.calls && useCount == 0
      ensures r == StillTrying ==>
        && c in model.calls && model.calls[c].LockCas?
        && |Own(trace, c)| == |Own(old(trace), c)| + 1 + attempts
    {
      ReachedInv(target, first, trace, model);
      ghost var now := model;
      var count;
      ghost var e;
      count, e := FirstLoad(c);
      if count == 0 {
        LockIsLinearizable(now, e);
        return Expired;
      }
      var left := attempts;
      while left > 0
        invariant Valid() && 0 <= left <= attempts
        invariant c in model.calls && model.calls[c].LockCas?
        invariant model.calls[c].seen < |model.uses| && count == model.uses[model.calls[c].seen]
        invariant |Own(trace, c)| == |Own(old(trace), c)| + 1 + attempts - left
        decreases left
      {
        left := left - 1;
        var ok;
        ok, count := Attempt(c, count);
        if ok {
          return Locked;
        }
        if count == 0 {
          return Expired;
        }
      }
      r := StillTrying;
    }
  }
}
