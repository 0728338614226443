/** The control block of null/shared_ptr.h under any number of concurrent calls.
    Every atomic access, `dispose` and `destroy` is a step of its own.

    Assumptions on the client: a handle object is not destroyed or moved from while
    another call reads it, and there are fewer handles than `long` can count.
    Assumptions on C++ atomics: the values of one atomic form a modification order,
    read-modify-writes act on its last value, and a relaxed load returns any value not
    older than the one the same call saw before. */
module RefCount {
  import opened Sums

  /** What `dispose` does: run this deleter on this pointer. */
  datatype Disposal = Disposal(ptr: nat, deleter: nat)

  /** A call in flight on the block, by the access it makes next. */
  datatype Call =
    | CopyStrong(source: nat)
    | MakeWeak(source: nat)
    | CopyWeak(source: nat)
    // begunAt: index of the newest value when the call began, first: of the value loaded
    // first, seen: of the value held in `count`
    | LockLoad(source: nat, begunAt: nat)
    | LockCas(source: nat, begunAt: nat, first: nat, seen: nat, retries: nat)
    | LockBuild(source: nat)
    | DecUse
    | Dispose
    | DecWeak
    | Destroy

  /** `uses` is the modification order of `use_count`; its last entry is the current value. */
  datatype Block = Block(
    uses: seq<int>,
    weak: int,
    target: Disposal,
    disposals: seq<Disposal>,
    destroys: nat,
    strongHandles: set<nat>,
    weakHandles: set<nat>,
    calls: map<nat, Call>)

  function Use(s: Block): int
    requires s.uses != []
  {
    s.uses[|s.uses| - 1]
  }

  function Init(target: Disposal, h: nat): Block {
    Block([1], 1, target, [], 0, {h}, {}, map[])
  }

  datatype Event =
    | BeginCopyStrong(c: nat, h: nat)
    | BeginMakeWeak(c: nat, h: nat)
    | BeginCopyWeak(c: nat, h: nat)
    | BeginLock(c: nat, h: nat)
    | BeginDropStrong(c: nat, h: nat)
    | BeginDropWeak(c: nat, h: nat)
    | MoveStrong(h: nat, to: nat)
    | MoveWeak(h: nat, to: nat)
    | FetchAddUse(c: nat, to: nat)
    | FetchAddWeak(c: nat, to: nat)
    | Load(c: nat, i: nat)
    | CasSucceed(c: nat)
    | CasFail(c: nat, i: nat)
    | Build(c: nat, to: nat)
    | FetchSubUse(c: nat)
    | RunDispose(c: nat)
    | FetchSubWeak(c: nat)
    | RunDestroy(c: nat)

  predicate ReadsStrong(c: Call, h: nat) {
    (c.CopyStrong? || c.MakeWeak?) && c.source == h
  }

  predicate ReadsWeak(c: Call, h: nat) {
    (c.CopyWeak? || c.LockLoad? || c.LockCas? || c.LockBuild?) && c.source == h
  }

  ghost predicate StrongUnread(s: Block, h: nat) {
    forall c :: c in s.calls ==> !ReadsStrong(s.calls[c], h)
  }

  ghost predicate WeakUnread(s: Block, h: nat) {
    forall c :: c in s.calls ==> !ReadsWeak(s.calls[c], h)
  }

  ghost predicate Enabled(s: Block, e: Event)
    requires s.uses != []
  {
    match e
    case BeginCopyStrong(c, h) => c !in s.calls && h in s.strongHandles
    case BeginMakeWeak(c, h) => c !in s.calls && h in s.strongHandles
    case BeginCopyWeak(c, h) => c !in s.calls && h in s.weakHandles
    case BeginLock(c, h) => c !in s.calls && h in s.weakHandles
    case BeginDropStrong(c, h) => c !in s.calls && h in s.strongHandles && StrongUnread(s, h)
    case BeginDropWeak(c, h) => c !in s.calls && h in s.weakHandles && WeakUnread(s, h)
    case MoveStrong(h, to) => h in s.strongHandles && StrongUnread(s, h) && to !in s.strongHandles
    case MoveWeak(h, to) => h in s.weakHandles && WeakUnread(s, h) && to !in s.weakHandles
    case FetchAddUse(c, to) => c in s.calls && s.calls[c].CopyStrong? && to !in s.strongHandles
    case FetchAddWeak(c, to) =>
      c in s.calls && (s.calls[c].MakeWeak? || s.calls[c].CopyWeak?) && to !in s.weakHandles
    case Load(c, i) => c in s.calls && s.calls[c].LockLoad? && i < |s.uses|
    case CasSucceed(c) =>
      c in s.calls && s.calls[c].LockCas? && s.calls[c].seen < |s.uses| && Use(s) == s.uses[s.calls[c].seen]
    case CasFail(c, i) =>
      c in s.calls && s.calls[c].LockCas? && s.calls[c].seen <= i < |s.uses|
    case Build(c, to) => c in s.calls && s.calls[c].LockBuild? && to !in s.strongHandles
    case FetchSubUse(c) => c in s.calls && s.calls[c].DecUse?
    case RunDispose(c) => c in s.calls && s.calls[c].Dispose?
    case FetchSubWeak(c) => c in s.calls && s.calls[c].DecWeak?
    case RunDestroy(c) => c in s.calls && s.calls[c].Destroy?
  }

  function SetCall(s: Block, c: nat, call: Call): Block {
    s.(calls := s.calls[c := call])
  }

  function EndCall(s: Block, c: nat): Block {
    s.(calls := s.calls - {c})
  }

  ghost function Apply(s: Block, e: Event): (s': Block)
    requires s.uses != [] && Enabled(s, e)
    ensures s'.uses != []
  {
    match e
    case BeginCopyStrong(c, h) => SetCall(s, c, CopyStrong(h))
    case BeginMakeWeak(c, h) => SetCall(s, c, MakeWeak(h))
    case BeginCopyWeak(c, h) => SetCall(s, c, CopyWeak(h))
    case BeginLock(c, h) => SetCall(s, c, LockLoad(h, |s.uses| - 1))
    case BeginDropStrong(c, h) => SetCall(s, c, DecUse).(strongHandles := s.strongHandles - {h})
    case BeginDropWeak(c, h) => SetCall(s, c, DecWeak).(weakHandles := s.weakHandles - {h})
    case MoveStrong(h, to) => s.(strongHandles := s.strongHandles - {h} + {to})
    case MoveWeak(h, to) => s.(weakHandles := s.weakHandles - {h} + {to})
    case FetchAddUse(c, to) =>
      EndCall(s, c).(uses := s.uses + [Use(s) + 1], strongHandles := s.strongHandles + {to})
    case FetchAddWeak(c, to) =>
      EndCall(s, c).(weak := s.weak + 1, weakHandles := s.weakHandles + {to})
    case Load(c, i) =>
      if s.uses[i] == 0 then EndCall(s, c)
      else SetCall(s, c, LockCas(s.calls[c].source, s.calls[c].begunAt, i, i, 0))
    case CasSucceed(c) =>
      SetCall(s, c, LockBuild(s.calls[c].source)).(uses := s.uses + [Use(s) + 1])
    case CasFail(c, i) =>
      var call := s.calls[c];
      if s.uses[i] == 0 then EndCall(s, c)
      else
        var retry := if s.uses[i] != s.uses[call.seen] then 1 else 0;
        SetCall(s, c, call.(seen := i, retries := call.retries + retry))
    case Build(c, to) => EndCall(s, c).(strongHandles := s.strongHandles + {to})
    case FetchSubUse(c) =>
      (if Use(s) == 1 then SetCall(s, c, Dispose) else EndCall(s, c)).(uses := s.uses + [Use(s) - 1])
    case RunDispose(c) => SetCall(s, c, DecWeak).(disposals := s.disposals + [s.target])
    case FetchSubWeak(c) =>
      (if s.weak == 1 then SetCall(s, c, Destroy) else EndCall(s, c)).(weak := s.weak - 1)
    case RunDestroy(c) => EndCall(s, c).(destroys := s.destroys + 1)
  }

  ghost predicate LegalRun(s: Block, es: seq<Event>)
    requires s.uses != []
    decreases |es|
  {
    es == [] || (Enabled(s, es[0]) && LegalRun(Apply(s, es[0]), es[1..]))
  }

  ghost function After(s: Block, es: seq<Event>): (s': Block)
    requires s.uses != [] && LegalRun(s, es)
    ensures s'.uses != []
    decreases |es|
  {
    if es == [] then s else After(Apply(s, es[0]), es[1..])
  }

  // ---- Counting -------------------------------------------------------------

  /** Units of `use_count` owned by calls: a drop not yet counted, a promotion not yet a handle. */
  function UseUnit(c: Call): nat {
    if c.DecUse? || c.LockBuild? then 1 else 0
  }

  /** Units of `weak_count` owned by calls; a pending `dispose` still owns the owners' shared unit. */
  function WeakUnit(c: Call): nat {
    if c.DecWeak? || c.Dispose? then 1 else 0
  }

  function DisposeUnit(c: Call): nat {
    if c.Dispose? then 1 else 0
  }

  function DestroyUnit(c: Call): nat {
    if c.Destroy? then 1 else 0
  }

  ghost predicate Counted(s: Block)
    requires s.uses != []
  {
    && Use(s) == |s.strongHandles| + Sum(s.calls, UseUnit)
    && s.weak == |s.weakHandles| + Sum(s.calls, WeakUnit) + (if Use(s) > 0 then 1 else 0)
    && |s.disposals| + Sum(s.calls, DisposeUnit) == (if Use(s) == 0 then 1 else 0)
    && s.destroys + Sum(s.calls, DestroyUnit) == (if s.weak == 0 then 1 else 0)
  }

  /** `use_count` never leaves zero and every write changes it, and only the block's own
      disposal ever ran. */
  ghost predicate HistoryValid(s: Block) {
    && (forall i :: 0 <= i < |s.uses| - 1 ==> s.uses[i] > 0 && s.uses[i + 1] != s.uses[i])
    && (forall i :: 0 <= i < |s.disposals| ==> s.disposals[i] == s.target)
  }

  ghost predicate LockIndicesValid(s: Block) {
    forall c :: c in s.calls && (s.calls[c].LockLoad? || s.calls[c].LockCas?) ==>
      var k := s.calls[c];
      && k.begunAt < |s.uses|
      && (k.LockCas? ==>
            k.first <= k.seen < |s.uses| && k.retries <= k.seen - k.first && s.uses[k.seen] != 0)
  }

  ghost predicate SourcesLive(s: Block) {
    forall c, h :: c in s.calls ==>
      && (ReadsStrong(s.calls[c], h) ==> h in s.strongHandles)
      && (ReadsWeak(s.calls[c], h) ==> h in s.weakHandles)
  }

  ghost predicate Inv(s: Block) {
    && s.uses != []
    && Counted(s)
    && HistoryValid(s)
    && SourcesLive(s)
    && LockIndicesValid(s)
  }

  lemma InitInv(target: Disposal, h: nat)
    ensures Inv(Init(target, h))
  {
  }

  // ---- Every step keeps the invariant ------------------------------------------

  /** How the four counts move when one call begins, moves on or ends. */
  lemma CallCounts(m: map<nat, Call>, n: map<nat, Call>, c: nat)
    requires m - {c} == n - {c}
    ensures Sum(n, UseUnit) == Sum(m, UseUnit) - WeightAt(m, c, UseUnit) + WeightAt(n, c, UseUnit)
    ensures Sum(n, WeakUnit) == Sum(m, WeakUnit) - WeightAt(m, c, WeakUnit) + WeightAt(n, c, WeakUnit)
    ensures Sum(n, DisposeUnit) == Sum(m, DisposeUnit) - WeightAt(m, c, DisposeUnit) + WeightAt(n, c, DisposeUnit)
    ensures Sum(n, DestroyUnit) == Sum(m, DestroyUnit) - WeightAt(m, c, DestroyUnit) + WeightAt(n, c, DestroyUnit)
  {
    SumChange(m, n, c, UseUnit);
    SumChange(m, n, c, WeakUnit);
    SumChange(m, n, c, DisposeUnit);
    SumChange(m, n, c, DestroyUnit);
  }

  /** A live handle keeps the counts it stands for positive. */
  lemma HandleKeepsCount(s: Block, h: nat)
    requires Inv(s)
    ensures h in s.strongHandles ==> Use(s) > 0 && s.weak > 0
    ensures h in s.weakHandles ==> s.weak > 0
  {
    if h in s.strongHandles {
      assert s.strongHandles == {h} + (s.strongHandles - {h});
    }
    if h in s.weakHandles {
      assert s.weakHandles == {h} + (s.weakHandles - {h});
    }
  }

  lemma BeginKeepsCounts(s: Block, e: Event)
    requires Inv(s) && Enabled(s, e)
    requires e.BeginCopyStrong? || e.BeginMakeWeak? || e.BeginCopyWeak? || e.BeginLock?
    ensures Counted(Apply(s, e))
  {
    hide HistoryValid, SourcesLive, LockIndicesValid;
    CallCounts(s.calls, Apply(s, e).calls, e.c);
  }

  lemma BeginDropStrongKeepsCounts(s: Block, e: Event)
    requires Inv(s) && Enabled(s, e) && e.BeginDropStrong?
    ensures Counted(Apply(s, e))
  {
    hide HistoryValid, SourcesLive, LockIndicesValid;
    CallCounts(s.calls, Apply(s, e).calls, e.c);
  }

  lemma BeginDropWeakKeepsCounts(s: Block, e: Event)
    requires Inv(s) && Enabled(s, e) && e.BeginDropWeak?
    ensures Counted(Apply(s, e))
  {
    hide HistoryValid, SourcesLive, LockIndicesValid;
    CallCounts(s.calls, Apply(s, e).calls, e.c);
  }

  lemma AddUseKeepsCounts(s: Block, e: Event)
    requires Inv(s) && Enabled(s, e) && e.FetchAddUse?
    ensures Counted(Apply(s, e))
  {
    CallCounts(s.calls, Apply(s, e).calls, e.c);
    HandleKeepsCount(s, s.calls[e.c].source);
  }

  lemma BuildKeepsCounts(s: Block, e: Event)
    requires Inv(s) && Enabled(s, e) && e.Build?
    ensures Counted(Apply(s, e))
  {
    hide HistoryValid, SourcesLive, LockIndicesValid;
    CallCounts(s.calls, Apply(s, e).calls, e.c);
  }

  lemma AddWeakKeepsCounts(s: Block, e: Event)
    requires Inv(s) && Enabled(s, e) && e.FetchAddWeak?
    ensures Counted(Apply(s, e))
  {
    CallCounts(s.calls, Apply(s, e).calls, e.c);
    HandleKeepsCount(s, s.calls[e.c].source);
  }

  lemma LoadKeepsCounts(s: Block, e: Event)
    requires Inv(s) && Enabled(s, e) && e.Load?
    ensures Counted(Apply(s, e))
  {
    hide HistoryValid, SourcesLive, LockIndicesValid;
    CallCounts(s.calls, Apply(s, e).calls, e.c);
  }

  lemma CasFailKeepsCounts(s: Block, e: Event)
    requires Inv(s) && Enabled(s, e) && e.CasFail?
    ensures Counted(Apply(s, e))
  {
    hide HistoryValid, SourcesLive, LockIndicesValid;
    CallCounts(s.calls, Apply(s, e).calls, e.c);
  }

  lemma MoveKeepsCounts(s: Block, e: Event)
    requires Inv(s) && Enabled(s, e) && (e.MoveStrong? || e.MoveWeak?)
    ensures Counted(Apply(s, e))
  {
    hide HistoryValid, SourcesLive, LockIndicesValid;
  }

  lemma CasKeepsCounts(s: Block, e: Event)
    requires Inv(s) && Enabled(s, e) && e.CasSucceed?
    ensures Counted(Apply(s, e))
  {
    CallCounts(s.calls, Apply(s, e).calls, e.c);
  }

  lemma DropUseKeepsCounts(s: Block, e: Event)
    requires Inv(s) && Enabled(s, e) && (e.FetchSubUse? || e.RunDispose?)
    ensures Counted(Apply(s, e))
  {
    hide HistoryValid, SourcesLive, LockIndicesValid;
    CallCounts(s.calls, Apply(s, e).calls, e.c);
  }

  lemma DropWeakKeepsCounts(s: Block, e: Event)
    requires Inv(s) && Enabled(s, e) && (e.FetchSubWeak? || e.RunDestroy?)
    ensures Counted(Apply(s, e))
  {
    hide HistoryValid, SourcesLive, LockIndicesValid;
    CallCounts(s.calls, Apply(s, e).calls, e.c);
  }

  lemma StepKeepsCounts(s: Block, e: Event)
    requires Inv(s) && Enabled(s, e)
    ensures Counted(Apply(s, e))
  {
    match e
    case BeginCopyStrong(_, _) => BeginKeepsCounts(s, e);
    case BeginMakeWeak(_, _) => BeginKeepsCounts(s, e);
    case BeginCopyWeak(_, _) => BeginKeepsCounts(s, e);
    case BeginLock(_, _) => BeginKeepsCounts(s, e);
    case BeginDropStrong(_, _) => BeginDropStrongKeepsCounts(s, e);
    case BeginDropWeak(_, _) => BeginDropWeakKeepsCounts(s, e);
    case MoveStrong(_, _) => MoveKeepsCounts(s, e);
    case MoveWeak(_, _) => MoveKeepsCounts(s, e);
    case FetchAddUse(_, _) => AddUseKeepsCounts(s, e);
    case FetchAddWeak(_, _) => AddWeakKeepsCounts(s, e);
    case Build(_, _) => BuildKeepsCounts(s, e);
    case Load(_, _) => LoadKeepsCounts(s, e);
    case CasFail(_, _) => CasFailKeepsCounts(s, e);
    case CasSucceed(_) => CasKeepsCounts(s, e);
    case FetchSubUse(_) => DropUseKeepsCounts(s, e);
    case RunDispose(_) => DropUseKeepsCounts(s, e);
    case FetchSubWeak(_) => DropWeakKeepsCounts(s, e);
    case RunDestroy(_) => DropWeakKeepsCounts(s, e);
  }

  /** `use_count` is positive whenever a step writes it: nothing revives a count of zero. */
  lemma WritersFindOwners(s: Block, e: Event)
    requires Inv(s) && Enabled(s, e) && (e.FetchAddUse? || e.CasSucceed? || e.FetchSubUse?)
    ensures Use(s) > 0
  {
    match e
    case FetchAddUse(c, _) => HandleKeepsCount(s, s.calls[c].source);
    case FetchSubUse(c) => SumCovers(s.calls, c, UseUnit);
    case CasSucceed(_) =>
  }

  lemma WriteKeepsHistory(s: Block, s': Block)
    requires s.uses != [] && HistoryValid(s) && Use(s) > 0
    requires |s'.uses| == |s.uses| + 1 && s.uses <= s'.uses && Use(s') != Use(s)
    requires s'.disposals == s.disposals && s'.target == s.target
    ensures HistoryValid(s')
  {
  }

  lemma StepKeepsHistory(s: Block, e: Event)
    requires Inv(s) && Enabled(s, e)
    ensures HistoryValid(Apply(s, e))
  {
    if e.FetchAddUse? || e.CasSucceed? || e.FetchSubUse? {
      WritersFindOwners(s, e);
      hide Counted, SourcesLive, LockIndicesValid;
      WriteKeepsHistory(s, Apply(s, e));
    }
  }

  lemma StepKeepsSources(s: Block, e: Event)
    requires Inv(s) && Enabled(s, e)
    ensures SourcesLive(Apply(s, e))
  {
    hide Counted, HistoryValid, LockIndicesValid;
  }

  lemma StepKeepsLockIndices(s: Block, e: Event)
    requires Inv(s) && Enabled(s, e)
    ensures LockIndicesValid(Apply(s, e))
  {
    hide Counted, HistoryValid, SourcesLive;
  }

  lemma StepKeepsInv(s: Block, e: Event)
    requires Inv(s) && Enabled(s, e)
    ensures Inv(Apply(s, e))
  {
    StepKeepsCounts(s, e);
    StepKeepsHistory(s, e);
    StepKeepsSources(s, e);
    StepKeepsLockIndices(s, e);
  }

  lemma {:induction false} RunKeepsInv(s: Block, es: seq<Event>)
    requires Inv(s) && LegalRun(s, es)
    ensures Inv(After(s, es))
    decreases |es|
  {
    if es != [] {
      StepKeepsInv(s, es[0]);
      RunKeepsInv(Apply(s, es[0]), es[1..]);
    }
  }

  // ---- What the invariant means ------------------------------------------------

  /** A call in flight keeps the block alive, whatever it does next. */
  lemma CallKeepsBlock(s: Block, c: nat)
    requires Inv(s) && c in s.calls
    ensures s.weak > 0 || s.calls[c].Destroy?
    ensures s.destroys == 0
  {
    SumCovers(s.calls, c, UseUnit);
    SumCovers(s.calls, c, WeakUnit);
    SumCovers(s.calls, c, DestroyUnit);
    match s.calls[c]
    case CopyStrong(h) => assert ReadsStrong(s.calls[c], h); HandleKeepsCount(s, h);
    case MakeWeak(h) => assert ReadsStrong(s.calls[c], h); HandleKeepsCount(s, h);
    case CopyWeak(h) => assert ReadsWeak(s.calls[c], h); HandleKeepsCount(s, h);
    case LockLoad(h, _) => assert ReadsWeak(s.calls[c], h); HandleKeepsCount(s, h);
    case LockCas(h, _, _, _, _) => assert ReadsWeak(s.calls[c], h); HandleKeepsCount(s, h);
    case LockBuild(h) => assert ReadsWeak(s.calls[c], h); HandleKeepsCount(s, h);
    case _ =>
  }

  /** Once the block is destroyed nobody holds it, nobody is inside a call on it,
      and its object was disposed before. */
  lemma DestroyedIsUnreferenced(s: Block)
    requires Inv(s) && s.destroys > 0
    ensures s.calls == map[] && s.strongHandles == {} && s.weakHandles == {}
    ensures s.disposals == [s.target]
    ensures s.destroys == 1
  {
    forall c ensures c !in s.calls {
      if c in s.calls {
        CallKeepsBlock(s, c);
      }
    }
    assert s.calls.Keys == {};
    forall h ensures h !in s.strongHandles && h !in s.weakHandles {
      HandleKeepsCount(s, h);
    }
    assert Sum(s.calls, DisposeUnit) == 0;
  }

  /** No step of any kind touches a destroyed block. */
  lemma NoStepAfterDestroy(s: Block, e: Event)
    requires Inv(s) && s.destroys > 0
    ensures !Enabled(s, e)
  {
    DestroyedIsUnreferenced(s);
  }

  /** `dispose` runs only when no owner is left, and `destroy` only when nobody
      else can reach the block any more. */
  lemma ReleaseOrder(s: Block, c: nat)
    requires Inv(s) && c in s.calls
    ensures s.calls[c].Dispose? ==>
      Use(s) == 0 && s.strongHandles == {} && s.disposals == [] && s.weak > 0 && s.destroys == 0
    ensures s.calls[c].Destroy? ==>
      && s.disposals == [s.target] && s.destroys == 0
      && s.strongHandles == {} && s.weakHandles == {} && s.calls.Keys == {c}
  {
    SumCovers(s.calls, c, DisposeUnit);
    SumCovers(s.calls, c, WeakUnit);
    SumCovers(s.calls, c, DestroyUnit);
    if s.calls[c].Destroy? {
      SumSplit(s.calls, c, DestroyUnit);
      forall d ensures d in s.calls ==> d == c {
        if d in s.calls && d != c {
          CallKeepsBlock(s, d);
          SumCovers(s.calls - {c}, d, DestroyUnit);
        }
      }
      NothingDisposing(s);
    }
  }

  lemma NothingDisposing(s: Block)
    requires Inv(s) && s.weak == 0
    ensures Sum(s.calls, DisposeUnit) == 0
  {
    if Sum(s.calls, DisposeUnit) > 0 {
      var c := SumWitness(s.calls, DisposeUnit);
      SumCovers(s.calls, c, WeakUnit);
    }
  }

  /** When the last handle is gone and every call has returned, the object was disposed
      and the block destroyed: nothing leaks. */
  lemma NoLeak(s: Block)
    requires Inv(s) && s.calls == map[] && s.strongHandles == {} && s.weakHandles == {}
    ensures s.disposals == [s.target] && s.destroys == 1
  {
    assert Sum(s.calls, UseUnit) == 0;
    assert Sum(s.calls, WeakUnit) == 0;
    assert Sum(s.calls, DisposeUnit) == 0;
    assert Sum(s.calls, DestroyUnit) == 0;
  }

  /** The safety of the protocol over every interleaving of any number of calls. */
  lemma EveryRunIsSafe(target: Disposal, h: nat, es: seq<Event>)
    requires LegalRun(Init(target, h), es)
    ensures
      var s := After(Init(target, h), es);
      && Use(s) == |s.strongHandles| + Sum(s.calls, UseUnit)
      && s.weak == |s.weakHandles| + Sum(s.calls, WeakUnit) + (if Use(s) > 0 then 1 else 0)
      && (s.disposals == [] || s.disposals == [target])
      && (s.strongHandles != {} ==> s.disposals == [])
      && (s.strongHandles != {} || s.weakHandles != {} || s.calls != map[] ==> s.destroys == 0)
      && (s.destroys > 0 ==> s.destroys == 1 && s.disposals == [target])
      && (s.calls == map[] && s.strongHandles == {} && s.weakHandles == {} ==>
            s.disposals == [target] && s.destroys == 1)
  {
    InitInv(target, h);
    RunKeepsInv(Init(target, h), es);
    RunKeepsTarget(Init(target, h), es);
    var s := After(Init(target, h), es);
    if s.destroys > 0 {
      DestroyedIsUnreferenced(s);
    }
    if h :| h in s.strongHandles {
      HandleKeepsCount(s, h);
    }
    if s.calls == map[] && s.strongHandles == {} && s.weakHandles == {} {
      NoLeak(s);
    }
    assert s.disposals == [] || s.disposals == [target];
  }

  lemma {:induction false} RunKeepsTarget(s: Block, es: seq<Event>)
    requires s.uses != [] && LegalRun(s, es)
    ensures After(s, es).target == s.target
    decreases |es|
  {
    if es != [] {
      RunKeepsTarget(Apply(s, es[0]), es[1..]);
    }
  }

  // ---- lock() ------------------------------------------------------------------

  datatype LockResult = Undecided | Handle | Empty

  /** What a step decides about the `lock` call making it. */
  ghost function Decides(s: Block, e: Event): LockResult
    requires s.uses != [] && Enabled(s, e)
  {
    match e
    case Load(_, i) => if s.uses[i] == 0 then Empty else Undecided
    case CasFail(_, i) => if s.uses[i] == 0 then Empty else Undecided
    case CasSucceed(_) => Handle
    case _ => Undecided
  }

  /** `lock` is linearizable at its deciding access: it yields a handle exactly when
      `use_count` is nonzero at that moment, even though its loads may be stale. */
  lemma LockIsLinearizable(s: Block, e: Event)
    requires Inv(s) && Enabled(s, e) && Decides(s, e) != Undecided
    ensures Decides(s, e) == Handle <==> Use(s) > 0
    ensures Decides(s, e) == Empty <==> Use(s) == 0
    ensures Decides(s, e) == Empty ==> e.c !in Apply(s, e).calls && Apply(s, e).uses == s.uses
  {
    if e.CasSucceed? {
      WritersFindOwners(s, e);
    } else {
      assert e.i == |s.uses| - 1;
    }
  }

  lemma {:induction false} RunExtendsUses(s: Block, es: seq<Event>)
    requires s.uses != [] && LegalRun(s, es)
    ensures s.uses <= After(s, es).uses
    decreases |es|
  {
    if es != [] {
      assert s.uses <= Apply(s, es[0]).uses;
      RunExtendsUses(Apply(s, es[0]), es[1..]);
    }
  }

  /** Zero is permanent: once a load has returned 0, every load ordered after it, by the
      same thread or through synchronization, returns 0, and the count is not written again;
      so `expired` stays true and `lock` stays empty. */
  lemma ExpiredIsPermanent(s: Block, es: seq<Event>, i: nat, j: nat)
    requires Inv(s) && LegalRun(s, es)
    requires i < |s.uses| && s.uses[i] == 0
    requires i <= j < |After(s, es).uses|
    ensures After(s, es).uses[j] == 0
    ensures After(s, es).uses == s.uses
  {
    RunKeepsInv(s, es);
    RunExtendsUses(s, es);
    assert After(s, es).uses[i] == 0;
  }

  /** How often `use_count` has changed since the call began. */
  ghost function Changes(s: Block, call: Call): int
    requires call.LockCas?
  {
    |s.uses| - 1 - call.begunAt
  }

  /** A failed CAS is a retry when the count it returns differs from the expected one. The
      retries of one `lock` call are at most the changes of `use_count` during the call, plus
      as many as its first load was behind when the call began. */
  lemma RetriesBoundedByChanges(target: Disposal, h: nat, es: seq<Event>, c: nat)
    requires LegalRun(Init(target, h), es)
    requires var s := After(Init(target, h), es); c in s.calls && s.calls[c].LockCas?
    ensures
      var s := After(Init(target, h), es);
      var call := s.calls[c];
      0 <= Changes(s, call) && call.retries <= Changes(s, call) + (call.begunAt - call.first)
  {
    InitInv(target, h);
    RunKeepsInv(Init(target, h), es);
  }

  /** `es` continues a run in which call `c` is in flight, and does not use its name again. */
  ghost predicate Continues(s: Block, es: seq<Event>, c: nat) {
    s.uses != [] && LegalRun(s, es) && forall h :: BeginLock(c, h) !in es
  }

  /** Unless it has ended, call `c` still counts from where it began and first loaded. */
  ghost predicate CountsFrom(s: Block, c: nat, begunAt: nat, first: nat) {
    c in s.calls ==>
      && !s.calls[c].LockLoad?
      && (s.calls[c].LockCas? ==> s.calls[c].begunAt == begunAt && s.calls[c].first == first)
  }

  lemma {:induction false} RunKeepsFirstLoad(s: Block, es: seq<Event>, c: nat, begunAt: nat, first: nat)
    requires Continues(s, es, c) && CountsFrom(s, c, begunAt, first)
    ensures CountsFrom(After(s, es), c, begunAt, first)
    decreases |es|
  {
    if es != [] {
      assert es[0] in es;
      assert CountsFrom(Apply(s, es[0]), c, begunAt, first);
      assert forall h :: BeginLock(c, h) in es[1..] ==> BeginLock(c, h) in es;
      RunKeepsFirstLoad(Apply(s, es[0]), es[1..], c, begunAt, first);
    }
  }

  ghost predicate RetriesWithinChanges(s: Block, c: nat) {
    c in s.calls && s.calls[c].LockCas? ==> s.calls[c].retries <= Changes(s, s.calls[c])
  }

  /** The first load returned a count no older than the one at the beginning of the call, or
      the one before that and the last owner has gone. */
  predicate FreshEnough(s: Block, call: Call)
    requires call.LockCas? && s.uses != []
  {
    call.first >= call.begunAt || (Use(s) == 0 && call.first + 1 >= call.begunAt)
  }

  lemma FreshLoadStaysBounded(s: Block, es: seq<Event>, c: nat)
    requires Inv(s) && c in s.calls && s.calls[c].LockCas?
    requires FreshEnough(s, s.calls[c]) && Continues(s, es, c)
    ensures RetriesWithinChanges(After(s, es), c)
  {
    hide Counted, SourcesLive, HistoryValid, LegalRun, After;
    RunKeepsInv(s, es);
    RunKeepsFirstLoad(s, es, c, s.calls[c].begunAt, s.calls[c].first);
    RunExtendsUses(s, es);
    if Use(s) == 0 {
      ExpiredIsPermanent(s, es, |s.uses| - 1, |s.uses| - 1);
    }
    if c in After(s, es).calls && After(s, es).calls[c].LockCas? {
      RetriesBelow(After(s, es), c);
    }
  }

  lemma RetriesBelow(s: Block, c: nat)
    requires Inv(s) && c in s.calls && s.calls[c].LockCas?
    ensures
      var k := s.calls[c];
      k.retries <= k.seen - k.first && k.seen < |s.uses| && s.uses[k.seen] != 0
  {
  }

  /** The CAS may fail once on each value between the one it expects and a later one. */
  lemma {:induction false} RetryUpTo(s: Block, c: nat, m: nat) returns (es: seq<Event>)
    requires Inv(s) && c in s.calls && s.calls[c].LockCas?
    requires s.calls[c].seen <= m < |s.uses| && s.uses[m] != 0
    ensures Continues(s, es, c) && c in After(s, es).calls && After(s, es).uses == s.uses
    ensures
      After(s, es).calls[c] ==
      s.calls[c].(seen := m, retries := s.calls[c].retries + m - s.calls[c].seen)
    decreases m - s.calls[c].seen
  {
    hide Counted, SourcesLive, LockIndicesValid;
    var seen := s.calls[c].seen;
    if seen == m {
      es := [];
    } else {
      var e := CasFail(c, seen + 1);
      var s1 := Apply(s, e);
      assert s.uses[seen + 1] != 0 && s.uses[seen + 1] != s.uses[seen];
      StepKeepsInv(s, e);
      hide HistoryValid, Inv;
      var rest := RetryUpTo(s1, c, m);
      RunCons(s, e, rest);
      es := [e] + rest;
    }
  }

  /** Exactly when the retries stay within the changes during the call, whatever happens
      next: when the first load, which is relaxed, was fresh enough. */
  lemma RetriesAreChangesIffFresh(s: Block, c: nat)
    requires Inv(s) && c in s.calls && s.calls[c].LockCas?
    requires s.calls[c].seen == s.calls[c].first && s.calls[c].retries == 0
    ensures
      (forall es :: Continues(s, es, c) ==> RetriesWithinChanges(After(s, es), c))
      <==> FreshEnough(s, s.calls[c])
  {
    if FreshEnough(s, s.calls[c]) {
      forall es | Continues(s, es, c) ensures RetriesWithinChanges(After(s, es), c) {
        FreshLoadStaysBounded(s, es, c);
      }
    } else {
      StaleLoadExceeds(s, c);
    }
  }

  lemma StaleLoadExceeds(s: Block, c: nat)
    requires Inv(s) && c in s.calls && s.calls[c].LockCas? && !FreshEnough(s, s.calls[c])
    requires s.calls[c].seen == s.calls[c].first && s.calls[c].retries == 0
    ensures exists es :: Continues(s, es, c) && !RetriesWithinChanges(After(s, es), c)
  {
    var k := s.calls[c];
    var m := if Use(s) == 0 then |s.uses| - 2 else |s.uses| - 1;
    assert k.begunAt < |s.uses| && k.first <= m && s.uses[m] != 0;
    var es := RetryUpTo(s, c, m);
    assert Continues(s, es, c) && !RetriesWithinChanges(After(s, es), c);
  }

  /** Two owners and a weak handle. */
  lemma TwoOwners(target: Disposal) returns (es: seq<Event>)
    ensures LegalRun(Init(target, 0), es)
    ensures After(Init(target, 0), es) == Block([1, 2], 2, target, [], 0, {0, 1}, {0}, map[])
  {
    var s0 := Init(target, 0);
    var s1 := Apply(s0, BeginMakeWeak(0, 0));
    var s2 := Apply(s1, FetchAddWeak(0, 0));
    var s3 := Apply(s2, BeginCopyStrong(1, 0));
    var s4 := Apply(s3, FetchAddUse(1, 1));
    assert s4 == Block([1, 2], 2, target, [], 0, {0, 1}, {0}, map[]);
    hide Apply, Enabled;
    es := [FetchAddUse(1, 1)];
    RunCons(s3, FetchAddUse(1, 1), []);
    RunCons(s2, BeginCopyStrong(1, 0), es);
    es := [BeginCopyStrong(1, 0)] + es;
    RunCons(s1, FetchAddWeak(0, 0), es);
    es := [FetchAddWeak(0, 0)] + es;
    RunCons(s0, BeginMakeWeak(0, 0), es);
    es := [BeginMakeWeak(0, 0)] + es;
  }

  lemma {:induction false} RunAppend(s: Block, es: seq<Event>, fs: seq<Event>)
    requires s.uses != [] && LegalRun(s, es) && LegalRun(After(s, es), fs)
    ensures LegalRun(s, es + fs) && After(s, es + fs) == After(After(s, es), fs)
    decreases |es|
  {
    hide Apply, Enabled;
    if es == [] {
      assert es + fs == fs;
    } else {
      RunAppend(Apply(s, es[0]), es[1..], fs);
      assert (es + fs)[1..] == es[1..] + fs;
    }
  }

  /** The stale case happens: a `lock` that loads the count of before the second owner came
      retries, though nobody else moves during the call. */
  lemma StaleLoadRetries(target: Disposal) returns (es: seq<Event>)
    ensures LegalRun(Init(target, 0), es)
    ensures
      var s := After(Init(target, 0), es);
      2 in s.calls && s.calls[2].LockCas? && s.calls[2].retries == 1 && Changes(s, s.calls[2]) == 0
  {
    es := TwoOwners(target);
    var s0 := After(Init(target, 0), es);
    var s1 := Apply(s0, BeginLock(2, 0));
    var s2 := Apply(s1, Load(2, 0));
    var s3 := Apply(s2, CasFail(2, 1));
    assert s3.calls[2] == LockCas(0, 1, 0, 1, 1) && s3.uses == [1, 2];
    hide Apply, Enabled;
    var fs := [CasFail(2, 1)];
    RunCons(s2, CasFail(2, 1), []);
    RunCons(s1, Load(2, 0), fs);
    fs := [Load(2, 0)] + fs;
    RunCons(s0, BeginLock(2, 0), fs);
    fs := [BeginLock(2, 0)] + fs;
    RunAppend(Init(target, 0), es, fs);
    es := es + fs;
  }

  lemma RunCons(s: Block, e: Event, es: seq<Event>)
    requires s.uses != [] && Enabled(s, e) && LegalRun(Apply(s, e), es)
    ensures LegalRun(s, [e] + es) && After(s, [e] + es) == After(Apply(s, e), es)
  {
    assert ([e] + es)[1..] == es;
  }
}
