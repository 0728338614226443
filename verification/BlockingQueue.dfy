/** The monitor of null/concurrent_blocking_queue.h, for any number of threads.

    One step is one critical section: from acquiring the mutex to returning or going to
    sleep. A thread asleep on a condition variable leaves it by a notification, spuriously,
    or, in a timed call, by its timeout. `notify_one` wakes a sleeper of the scheduler's
    choice if there is one; `close` notifies after giving the mutex back. */
module BlockingQueue {
  import opened Collections
  import opened Sums

  /** Ready: wants the mutex. Woken: left its condition variable by a notification or
      spuriously and wants the mutex. Expired: left it by its timeout. */
  datatype Stage = Ready | Asleep | Woken | Expired
  datatype CloseStage = ToClose | ToWakeConsumers | ToWakeProducers

  datatype Call<T> =
    | Push(item: T, timed: bool, stage: Stage)
    | Pop(timed: bool, stage: Stage)
    | Close(closing: CloseStage)

  datatype Monitor<T> = Monitor(
    capacity: nat,
    queue: seq<T>,
    closed: bool,
    calls: map<nat, Call<T>>,
    accepted: seq<T>,
    popped: seq<T>)

  function Init<T>(capacity: nat): Monitor<T> {
    Monitor(capacity, [], false, map[], [], [])
  }

  datatype Event<T> =
    | Begin(t: nat, call: Call<T>)
    | Enter(t: nat, wake: Option<nat>)   // the critical section of a push or pop
    | WakeUp(t: nat)                     // spurious
    | TimeOut(t: nat)
    | SetClosed(t: nat)
    | NotifyConsumers(t: nat)
    | NotifyProducers(t: nat)

  datatype Outcome<T> = Continues | Pushed(ok: bool) | Popped(elem: Option<T>)

  predicate AsleepPop<T>(c: Call<T>) { c.Pop? && c.stage.Asleep? }
  predicate AsleepPush<T>(c: Call<T>) { c.Push? && c.stage.Asleep? }
  predicate AwakePop<T>(c: Call<T>) { c.Pop? && (c.stage.Woken? || c.stage.Expired?) }
  predicate AwakePush<T>(c: Call<T>) { c.Push? && (c.stage.Woken? || c.stage.Expired?) }

  predicate Fresh<T>(c: Call<T>) {
    match c
    case Push(_, _, stage) => stage.Ready?
    case Pop(_, stage) => stage.Ready?
    case Close(closing) => closing.ToClose?
  }

  function Wake<T>(c: Call<T>): Call<T> {
    if AsleepPop(c) || AsleepPush(c) then c.(stage := Woken) else c
  }

  function WakeAllPops<T>(calls: map<nat, Call<T>>): map<nat, Call<T>> {
    map t | t in calls :: if AsleepPop(calls[t]) then Wake(calls[t]) else calls[t]
  }

  function WakeAllPushes<T>(calls: map<nat, Call<T>>): map<nat, Call<T>> {
    map t | t in calls :: if AsleepPush(calls[t]) then Wake(calls[t]) else calls[t]
  }

  /** What notify_one may do: wake one sleeper, or nobody when there is none. */
  ghost predicate NotifiesPop<T>(calls: map<nat, Call<T>>, wake: Option<nat>) {
    match wake
    case Some(w) => w in calls && AsleepPop(calls[w])
    case None => forall t :: t in calls ==> !AsleepPop(calls[t])
  }

  ghost predicate NotifiesPush<T>(calls: map<nat, Call<T>>, wake: Option<nat>) {
    match wake
    case Some(w) => w in calls && AsleepPush(calls[w])
    case None => forall t :: t in calls ==> !AsleepPush(calls[t])
  }

  /** The predicates the two kinds of caller wait for. */
  predicate PopMayGo<T>(s: Monitor<T>) { s.queue != [] || s.closed }
  predicate PushMayGo<T>(s: Monitor<T>) { |s.queue| < s.capacity || s.closed }

  /** What the critical section returns to its caller. */
  function Result<T>(s: Monitor<T>, call: Call<T>): Outcome<T> {
    match call
    case Push(_, _, stage) =>
      if !PushMayGo(s) then (if stage.Expired? then Pushed(false) else Continues)
      else Pushed(!s.closed)
    case Pop(_, stage) =>
      if !PopMayGo(s) then (if stage.Expired? then Popped(None) else Continues)
      else if s.queue == [] then Popped(None)
      else Popped(Some(s.queue[0]))
    case Close(_) => Continues
  }

  ghost predicate Enabled<T>(s: Monitor<T>, e: Event<T>) {
    match e
    case Begin(t, call) => t !in s.calls && Fresh(call)
    case Enter(t, wake) =>
      && t in s.calls && !s.calls[t].Close? && !s.calls[t].stage.Asleep?
      && (match Result(s, s.calls[t])
          case Pushed(ok) => if ok then NotifiesPop(s.calls, wake) else wake == None
          case Popped(elem) => if elem.Some? then NotifiesPush(s.calls, wake) else wake == None
          case Continues => wake == None)
    case WakeUp(t) => t in s.calls && (AsleepPop(s.calls[t]) || AsleepPush(s.calls[t]))
    case TimeOut(t) => t in s.calls && (AsleepPop(s.calls[t]) || AsleepPush(s.calls[t])) && s.calls[t].timed
    case SetClosed(t) => t in s.calls && s.calls[t] == Close(ToClose)
    case NotifyConsumers(t) => t in s.calls && s.calls[t] == Close(ToWakeConsumers)
    case NotifyProducers(t) => t in s.calls && s.calls[t] == Close(ToWakeProducers)
  }

  function Notified<T>(calls: map<nat, Call<T>>, wake: Option<nat>): map<nat, Call<T>> {
    if wake.Some? && wake.value in calls then calls[wake.value := Wake(calls[wake.value])] else calls
  }

  ghost function Apply<T>(s: Monitor<T>, e: Event<T>): Monitor<T>
    requires Enabled(s, e)
  {
    match e
    case Begin(t, call) => s.(calls := s.calls[t := call])
    case Enter(t, wake) =>
      var call := s.calls[t];
      (match Result(s, call)
       case Continues => s.(calls := s.calls[t := call.(stage := Asleep)])
       case Pushed(ok) =>
         var calls := Notified(s.calls - {t}, wake);
         if ok then s.(queue := s.queue + [call.item], accepted := s.accepted + [call.item], calls := calls)
         else s.(calls := calls)
       case Popped(elem) =>
         var calls := Notified(s.calls - {t}, wake);
         if elem.Some? then s.(queue := s.queue[1..], popped := s.popped + [s.queue[0]], calls := calls)
         else s.(calls := calls))
    case WakeUp(t) => s.(calls := s.calls[t := s.calls[t].(stage := Woken)])
    case TimeOut(t) => s.(calls := s.calls[t := s.calls[t].(stage := Expired)])
    case SetClosed(t) => s.(closed := true, calls := s.calls[t := Close(ToWakeConsumers)])
    case NotifyConsumers(t) => s.(calls := WakeAllPops(s.calls)[t := Close(ToWakeProducers)])
    case NotifyProducers(t) => s.(calls := WakeAllPushes(s.calls) - {t})
  }

  ghost predicate LegalRun<T>(s: Monitor<T>, es: seq<Event<T>>)
    decreases |es|
  {
    es == [] || (Enabled(s, es[0]) && LegalRun(Apply(s, es[0]), es[1..]))
  }

  ghost function After<T>(s: Monitor<T>, es: seq<Event<T>>): Monitor<T>
    requires LegalRun(s, es)
    decreases |es|
  {
    if es == [] then s else After(Apply(s, es[0]), es[1..])
  }

  // ---- Invariant ------------------------------------------------------------------

  function AsleepPopUnit<T>(c: Call<T>): nat { if AsleepPop(c) then 1 else 0 }
  function AsleepPushUnit<T>(c: Call<T>): nat { if AsleepPush(c) then 1 else 0 }
  function AwakePopUnit<T>(c: Call<T>): nat { if AwakePop(c) then 1 else 0 }
  function AwakePushUnit<T>(c: Call<T>): nat { if AwakePush(c) then 1 else 0 }

  ghost function SleepingConsumers<T>(s: Monitor<T>): nat { Sum(s.calls, AsleepPopUnit<T>) }
  ghost function SleepingProducers<T>(s: Monitor<T>): nat { Sum(s.calls, AsleepPushUnit<T>) }
  ghost function WokenConsumers<T>(s: Monitor<T>): nat { Sum(s.calls, AwakePopUnit<T>) }
  ghost function WokenProducers<T>(s: Monitor<T>): nat { Sum(s.calls, AwakePushUnit<T>) }

  /** While the queue is open, sleeping consumers imply that every queued element has a
      woken consumer on its way, and sleeping producers the same for every free slot. */
  ghost predicate NoLostWakeup<T>(s: Monitor<T>) {
    !s.closed ==>
      && (SleepingConsumers(s) > 0 ==> |s.queue| <= WokenConsumers(s))
      && (SleepingProducers(s) > 0 ==> s.capacity - |s.queue| <= WokenProducers(s))
  }

  ghost predicate StorageValid<T>(s: Monitor<T>) {
    s.popped + s.queue == s.accepted && |s.queue| <= s.capacity
  }

  ghost predicate CloserAt<T>(s: Monitor<T>, stage: CloseStage) {
    exists c :: c in s.calls && s.calls[c] == Close(stage)
  }

  /** After closing, a sleeper is left only while a closer still has to notify its kind. */
  ghost predicate ClosersPending<T>(s: Monitor<T>) {
    && (forall t :: t in s.calls && s.calls[t].Close? && s.calls[t].closing != ToClose ==> s.closed)
    && (s.closed ==> forall t :: t in s.calls ==>
          && (AsleepPop(s.calls[t]) ==> CloserAt(s, ToWakeConsumers))
          && (AsleepPush(s.calls[t]) ==> CloserAt(s, ToWakeConsumers) || CloserAt(s, ToWakeProducers)))
  }

  /** Only timed calls expire. */
  ghost predicate StagesValid<T>(s: Monitor<T>) {
    forall t :: t in s.calls && !s.calls[t].Close? && s.calls[t].stage.Expired? ==> s.calls[t].timed
  }

  ghost predicate Inv<T>(s: Monitor<T>) {
    NoLostWakeup(s) && StorageValid(s) && ClosersPending(s) && StagesValid(s)
  }

  // ---- Every step keeps the invariant -------------------------------------------------

  lemma InitInv<T>(capacity: nat)
    ensures Inv(Init<T>(capacity))
  {
  }

  /** How the four counts move when one call begins, moves on or returns. */
  lemma CallCounts<T>(m: map<nat, Call<T>>, n: map<nat, Call<T>>, k: nat)
    requires m - {k} == n - {k}
    ensures Sum(n, AsleepPopUnit<T>) == Sum(m, AsleepPopUnit<T>) - WeightAt(m, k, AsleepPopUnit<T>) + WeightAt(n, k, AsleepPopUnit<T>)
    ensures Sum(n, AsleepPushUnit<T>) == Sum(m, AsleepPushUnit<T>) - WeightAt(m, k, AsleepPushUnit<T>) + WeightAt(n, k, AsleepPushUnit<T>)
    ensures Sum(n, AwakePopUnit<T>) == Sum(m, AwakePopUnit<T>) - WeightAt(m, k, AwakePopUnit<T>) + WeightAt(n, k, AwakePopUnit<T>)
    ensures Sum(n, AwakePushUnit<T>) == Sum(m, AwakePushUnit<T>) - WeightAt(m, k, AwakePushUnit<T>) + WeightAt(n, k, AwakePushUnit<T>)
  {
    SumChange(m, n, k, AsleepPopUnit<T>);
    SumChange(m, n, k, AsleepPushUnit<T>);
    SumChange(m, n, k, AwakePopUnit<T>);
    SumChange(m, n, k, AwakePushUnit<T>);
  }

  lemma NobodyToWake<T>(calls: map<nat, Call<T>>)
    ensures NotifiesPop(calls, None) ==> Sum(calls, AsleepPopUnit<T>) == 0
    ensures NotifiesPush(calls, None) ==> Sum(calls, AsleepPushUnit<T>) == 0
  {
    if Sum(calls, AsleepPopUnit<T>) > 0 {
      var t := SumWitness(calls, AsleepPopUnit<T>);
      assert AsleepPop(calls[t]);
    }
    if Sum(calls, AsleepPushUnit<T>) > 0 {
      var t := SumWitness(calls, AsleepPushUnit<T>);
      assert AsleepPush(calls[t]);
    }
  }

  /** The returning call leaves and the notified one turns from asleep to woken. */
  lemma ReturnCounts<T>(calls: map<nat, Call<T>>, t: nat, wake: Option<nat>)
    requires t in calls && !AsleepPop(calls[t]) && !AsleepPush(calls[t])
    requires wake.Some? ==> wake.value in calls && (AsleepPop(calls[wake.value]) || AsleepPush(calls[wake.value]))
    ensures
      var n := Notified(calls - {t}, wake);
      var pop := if wake.Some? && AsleepPop(calls[wake.value]) then 1 else 0;
      var push := if wake.Some? && AsleepPush(calls[wake.value]) then 1 else 0;
      && Sum(n, AsleepPopUnit<T>) == Sum(calls, AsleepPopUnit<T>) - pop
      && Sum(n, AsleepPushUnit<T>) == Sum(calls, AsleepPushUnit<T>) - push
      && Sum(n, AwakePopUnit<T>) == Sum(calls, AwakePopUnit<T>) - AwakePopUnit(calls[t]) + pop
      && Sum(n, AwakePushUnit<T>) == Sum(calls, AwakePushUnit<T>) - AwakePushUnit(calls[t]) + push
  {
    var m := calls - {t};
    CallCounts(calls, m, t);
    if wake.Some? {
      assert Notified(m, wake) - {wake.value} == m - {wake.value};
      CallCounts(m, Notified(m, wake), wake.value);
    }
  }

  lemma SleepKeepsWakeups<T>(s: Monitor<T>, e: Event<T>)
    requires Inv(s) && Enabled(s, e) && e.Enter? && Result(s, s.calls[e.t]).Continues?
    ensures NoLostWakeup(Apply(s, e))
  {
    CallCounts(s.calls, Apply(s, e).calls, e.t);
  }

  lemma PushKeepsWakeups<T>(s: Monitor<T>, e: Event<T>)
    requires Inv(s) && Enabled(s, e) && e.Enter? && Result(s, s.calls[e.t]).Pushed?
    ensures NoLostWakeup(Apply(s, e))
  {
    hide ClosersPending, StagesValid;
    ReturnCounts(s.calls, e.t, e.wake);
    NobodyToWake(s.calls);
  }

  lemma PopKeepsWakeups<T>(s: Monitor<T>, e: Event<T>)
    requires Inv(s) && Enabled(s, e) && e.Enter? && Result(s, s.calls[e.t]).Popped?
    ensures NoLostWakeup(Apply(s, e))
  {
    hide ClosersPending, StagesValid;
    ReturnCounts(s.calls, e.t, e.wake);
    NobodyToWake(s.calls);
  }

  lemma WakeKeepsWakeups<T>(s: Monitor<T>, e: Event<T>)
    requires Inv(s) && Enabled(s, e) && (e.WakeUp? || e.TimeOut? || e.Begin?)
    ensures NoLostWakeup(Apply(s, e))
  {
    hide ClosersPending, StagesValid;
    CallCounts(s.calls, Apply(s, e).calls, e.t);
  }

  lemma StepKeepsWakeups<T>(s: Monitor<T>, e: Event<T>)
    requires Inv(s) && Enabled(s, e)
    ensures NoLostWakeup(Apply(s, e))
  {
    match e
    case Enter(t, _) => {
      match Result(s, s.calls[t])
      case Continues => SleepKeepsWakeups(s, e);
      case Pushed(_) => PushKeepsWakeups(s, e);
      case Popped(_) => PopKeepsWakeups(s, e);
    }
    case WakeUp(_) => WakeKeepsWakeups(s, e);
    case TimeOut(_) => WakeKeepsWakeups(s, e);
    case Begin(_, _) => WakeKeepsWakeups(s, e);
    case _ =>
  }

  lemma StepKeepsStorage<T>(s: Monitor<T>, e: Event<T>)
    requires Inv(s) && Enabled(s, e)
    ensures StorageValid(Apply(s, e))
  {
    hide NoLostWakeup, ClosersPending, StagesValid;
    if e.Enter? && Result(s, s.calls[e.t]).Popped? && s.queue != [] {
      assert s.queue == [s.queue[0]] + s.queue[1..];
    }
  }

  lemma StepKeepsStages<T>(s: Monitor<T>, e: Event<T>)
    requires Inv(s) && Enabled(s, e)
    ensures StagesValid(Apply(s, e))
  {
    hide NoLostWakeup, ClosersPending, StorageValid;
  }

  /** A step that is not a closer's own keeps the closers and adds no sleeper after closing. */
  lemma CloserStays<T>(s: Monitor<T>, e: Event<T>, stage: CloseStage)
    requires Inv(s) && Enabled(s, e) && CloserAt(s, stage)
    requires !e.SetClosed? && !e.NotifyConsumers? && !e.NotifyProducers?
    ensures CloserAt(Apply(s, e), stage)
  {
    hide NoLostWakeup, ClosersPending, StorageValid, StagesValid;
    var c :| c in s.calls && s.calls[c] == Close(stage);
    var calls := Apply(s, e).calls;
    assert c in calls && calls[c] == Close(stage);
  }

  lemma CallStepKeepsClosers<T>(s: Monitor<T>, e: Event<T>)
    requires Inv(s) && Enabled(s, e)
    requires !e.SetClosed? && !e.NotifyConsumers? && !e.NotifyProducers?
    ensures ClosersPending(Apply(s, e))
  {
    hide NoLostWakeup, StorageValid, StagesValid;
    if CloserAt(s, ToWakeConsumers) {
      CloserStays(s, e, ToWakeConsumers);
    }
    if CloserAt(s, ToWakeProducers) {
      CloserStays(s, e, ToWakeProducers);
    }
    var s' := Apply(s, e);
    forall t | s.closed && t in s'.calls && (AsleepPop(s'.calls[t]) || AsleepPush(s'.calls[t]))
      ensures t in s.calls && s.calls[t] == s'.calls[t]
    {
    }
    hide CloserAt;
  }

  lemma CloserStepKeepsClosers<T>(s: Monitor<T>, e: Event<T>)
    requires Inv(s) && Enabled(s, e) && (e.SetClosed? || e.NotifyConsumers? || e.NotifyProducers?)
    ensures ClosersPending(Apply(s, e))
  {
    hide NoLostWakeup, StorageValid, StagesValid;
    var s' := Apply(s, e);
    if e.SetClosed? {
      assert s'.calls[e.t] == Close(ToWakeConsumers);
    } else if e.NotifyConsumers? {
      assert s'.calls[e.t] == Close(ToWakeProducers);
    } else if CloserAt(s, ToWakeConsumers) {
      var c :| c in s.calls && s.calls[c] == Close(ToWakeConsumers);
      assert s'.calls[c] == Close(ToWakeConsumers);
    }
  }

  lemma StepKeepsInv<T>(s: Monitor<T>, e: Event<T>)
    requires Inv(s) && Enabled(s, e)
    ensures Inv(Apply(s, e))
  {
    StepKeepsWakeups(s, e);
    StepKeepsStorage(s, e);
    StepKeepsStages(s, e);
    if e.SetClosed? || e.NotifyConsumers? || e.NotifyProducers? {
      CloserStepKeepsClosers(s, e);
    } else {
      CallStepKeepsClosers(s, e);
    }
  }

  lemma {:induction false} RunKeepsInv<T>(s: Monitor<T>, es: seq<Event<T>>)
    requires Inv(s) && LegalRun(s, es)
    ensures Inv(After(s, es))
    decreases |es|
  {
    if es != [] {
      StepKeepsInv(s, es[0]);
      RunKeepsInv(Apply(s, es[0]), es[1..]);
    }
  }

  // ---- What each call does ---------------------------------------------------------------

  /** What a thread's critical section returns. */
  function Returns<T>(s: Monitor<T>, e: Event<T>): Outcome<T> {
    if e.Enter? && e.t in s.calls then Result(s, s.calls[e.t]) else Continues
  }

  /** A push or try_push is accepted, refused or sent to sleep by what it finds: closed, full,
      and whether it has timed out. */
  lemma PushOutcome<T>(s: Monitor<T>, e: Event<T>)
    requires Inv(s) && Enabled(s, e) && e.Enter? && s.calls[e.t].Push?
    ensures Returns(s, e) == Pushed(true) <==> !s.closed && |s.queue| < s.capacity
    ensures Returns(s, e) == Pushed(false) <==>
      s.closed || (s.calls[e.t].stage == Expired && |s.queue| == s.capacity)
    ensures Returns(s, e) == Continues <==>
      !s.closed && |s.queue| == s.capacity && s.calls[e.t].stage != Expired
  {
  }

  /** The same for a pop or try_pop. */
  lemma PopOutcome<T>(s: Monitor<T>, e: Event<T>)
    requires Inv(s) && Enabled(s, e) && e.Enter? && s.calls[e.t].Pop?
    ensures s.queue != [] <==> Returns(s, e).Popped? && Returns(s, e).elem.Some?
    ensures s.queue != [] ==> Returns(s, e) == Popped(Some(s.queue[0]))
    ensures Returns(s, e) == Popped(None) <==> s.queue == [] && (s.closed || s.calls[e.t].stage == Expired)
    ensures Returns(s, e) == Continues <==> s.queue == [] && !s.closed && s.calls[e.t].stage != Expired
  {
  }

  /** Step by step: an accepted push enqueues its caller's element, a served pop dequeues the
      oldest, and no other step changes what has been accepted, queued or popped. */
  lemma StepRefinesQueue<T>(s: Monitor<T>, e: Event<T>)
    requires Inv(s) && Enabled(s, e)
    ensures
      var s' := Apply(s, e);
      match Returns(s, e)
      case Pushed(true) =>
        && s.calls[e.t].Push? && |s.queue| < s.capacity
        && s'.queue == s.queue + [s.calls[e.t].item] && s'.accepted == s.accepted + [s.calls[e.t].item]
        && s'.popped == s.popped
      case Popped(Some(x)) =>
        && s.calls[e.t].Pop?
        && s.queue == [x] + s'.queue && s'.popped == s.popped + [x] && s'.accepted == s.accepted
      case _ => s'.queue == s.queue && s'.accepted == s.accepted && s'.popped == s.popped
    ensures Apply(s, e).capacity == s.capacity
    ensures Apply(s, e).closed <==> s.closed || e.SetClosed?
  {
    if Returns(s, e).Popped? && s.queue != [] {
      assert s.queue == [s.queue[0]] + s.queue[1..];
    }
  }

  /** The same push or pop, at another stage. */
  ghost predicate TurnsTo<T>(c: Call<T>, stage: Stage, c': Call<T>) {
    match c
    case Push(item, timed, _) => c' == Push(item, timed, stage)
    case Pop(timed, _) => c' == Pop(timed, stage)
    case Close(_) => false
  }

  /** Which calls a step moves. One that returns leaves; one that does not goes to sleep; a
      notification wakes one sleeper of the other kind if there is one, and a notify_all all
      of its kind; nobody else is touched. */
  lemma StepMovesCalls<T>(s: Monitor<T>, e: Event<T>)
    requires Enabled(s, e)
    ensures
      var calls, calls' := s.calls, Apply(s, e).calls;
      match e
      case Begin(t, call) => calls' == calls[t := call]
      case Enter(t, wake) =>
        && (t in calls' <==> Returns(s, e) == Continues)
        && (t in calls' ==> TurnsTo(calls[t], Asleep, calls'[t]))
        && (Returns(s, e) == Pushed(true) && (exists u :: u in calls && AsleepPop(calls[u])) ==>
              wake.Some? && wake.value in calls && AsleepPop(calls[wake.value]))
        && (Returns(s, e).Popped? && s.queue != [] && (exists u :: u in calls && AsleepPush(calls[u])) ==>
              wake.Some? && wake.value in calls && AsleepPush(calls[wake.value]))
        && (wake.Some? ==> wake.value in calls' && TurnsTo(calls[wake.value], Woken, calls'[wake.value]))
        && (forall u :: u != t && wake != Some(u) ==> (u in calls <==> u in calls'))
        && (forall u :: u != t && wake != Some(u) && u in calls ==> calls'[u] == calls[u])
      case WakeUp(t) => TurnsTo(calls[t], Woken, calls'[t]) && calls' == calls[t := calls'[t]]
      case TimeOut(t) =>
        calls[t].timed && TurnsTo(calls[t], Expired, calls'[t]) && calls' == calls[t := calls'[t]]
      case SetClosed(t) => calls' == calls[t := Close(ToWakeConsumers)]
      case NotifyConsumers(t) =>
        && calls'.Keys == calls.Keys && calls'[t] == Close(ToWakeProducers)
        && (forall u :: u in calls && u != t ==>
              if AsleepPop(calls[u]) then TurnsTo(calls[u], Woken, calls'[u]) else calls'[u] == calls[u])
      case NotifyProducers(t) =>
        && calls'.Keys == calls.Keys - {t}
        && (forall u :: u in calls && u != t ==>
              if AsleepPush(calls[u]) then TurnsTo(calls[u], Woken, calls'[u]) else calls'[u] == calls[u])
  {
  }

  /** A timed call that sleeps can always time out, and then it returns whatever it finds. */
  lemma TimedCallReturns<T>(s: Monitor<T>, t: nat) returns (es: seq<Event<T>>)
    requires Inv(s) && t in s.calls && !s.calls[t].Close? && s.calls[t].timed && s.calls[t].stage == Asleep
    ensures LegalRun(s, es) && |es| == 2 && es[0] == TimeOut(t) && es[1].Enter? && es[1].t == t
    ensures t !in After(s, es).calls
  {
    var s1 := Apply(s, TimeOut(t));
    StepKeepsInv(s, TimeOut(t));
    var wake :=
      match Result(s1, s1.calls[t])
      case Pushed(true) => SomePopToWake(s1.calls)
      case Popped(Some(_)) => SomePushToWake(s1.calls)
      case _ => None;
    var e := Enter(t, wake);
    assert Enabled(s1, e);
    StepMovesCalls(s1, e);
    if s1.calls[t].Push? {
      PushOutcome(s1, e);
    } else {
      PopOutcome(s1, e);
    }
    es := [TimeOut(t), e];
    assert es[1..] == [e] && [e][1..] == [];
    assert LegalRun(Apply(s1, e), []);
    assert LegalRun(s1, [e]) && After(s1, [e]) == Apply(s1, e);
  }

  ghost function SomePopToWake<T>(calls: map<nat, Call<T>>): (wake: Option<nat>)
    ensures NotifiesPop(calls, wake)
  {
    if t :| t in calls && AsleepPop(calls[t]) then Some(t) else None
  }

  ghost function SomePushToWake<T>(calls: map<nat, Call<T>>): (wake: Option<nat>)
    ensures NotifiesPush(calls, wake)
  {
    if t :| t in calls && AsleepPush(calls[t]) then Some(t) else None
  }

  // ---- Open: no lost wakeups, no deadlock ---------------------------------------------

  /** In every run: first in, first out within the capacity; while open no wakeup is lost;
      once closed, a thread sleeps only while some closer still has its notify_all to do. */
  lemma EveryRunIsLive<T>(capacity: nat, es: seq<Event<T>>)
    requires LegalRun(Init(capacity), es)
    ensures
      var s := After(Init(capacity), es);
      && s.popped + s.queue == s.accepted && |s.queue| <= s.capacity
      && (!s.closed && SleepingConsumers(s) > 0 ==> |s.queue| <= WokenConsumers(s))
      && (!s.closed && SleepingProducers(s) > 0 ==> s.capacity - |s.queue| <= WokenProducers(s))
      && (s.closed ==> forall t :: t in s.calls ==>
            && (AsleepPop(s.calls[t]) ==> CloserAt(s, ToWakeConsumers))
            && (AsleepPush(s.calls[t]) ==> CloserAt(s, ToWakeConsumers) || CloserAt(s, ToWakeProducers)))
  {
    InitInv<T>(capacity);
    RunKeepsInv(Init(capacity), es);
  }

  /** With room for at least one element, an open queue is never stuck: a consumer and a
      producer asleep together imply a waiter that has been woken and will run. */
  lemma NeverStuck<T>(s: Monitor<T>, c: nat, p: nat) returns (w: nat)
    requires Inv(s) && !s.closed && s.capacity >= 1
    requires c in s.calls && AsleepPop(s.calls[c]) && p in s.calls && AsleepPush(s.calls[p])
    ensures w in s.calls && (AwakePop(s.calls[w]) || AwakePush(s.calls[w]))
  {
    SumCovers(s.calls, c, AsleepPopUnit<T>);
    SumCovers(s.calls, p, AsleepPushUnit<T>);
    if WokenConsumers(s) > 0 {
      w := SumWitness(s.calls, AwakePopUnit<T>);
    } else {
      w := SumWitness(s.calls, AwakePushUnit<T>);
    }
  }

  /** With capacity 0 the queue does get stuck: both kinds sleep and nobody is woken. */
  lemma ZeroCapacityGetsStuck<T>(item: T)
    ensures
      var es := [Begin(0, Push(item, false, Ready)), Begin(1, Pop(false, Ready)), Enter(0, None), Enter(1, None)];
      LegalRun(Init(0), es)
      && After(Init(0), es).calls == map[0 := Push(item, false, Asleep), 1 := Pop(false, Asleep)]
  {
    var e0, e1 := Begin(0, Push(item, false, Ready)), Begin(1, Pop(false, Ready));
    var e2, e3 := Event<T>.Enter(0, None), Event<T>.Enter(1, None);
    var s0 := Init<T>(0);
    var s1 := Apply(s0, e0);
    var s2 := Apply(s1, e1);
    var s3 := Apply(s2, e2);
    var s4 := Apply(s3, e3);
    assert s4.calls == map[0 := Push(item, false, Asleep), 1 := Pop(false, Asleep)];
    assert LegalRun(s4, []) && After(s4, []) == s4;
    assert [e3][1..] == [] && LegalRun(s3, [e3]) && After(s3, [e3]) == s4;
    assert [e2, e3][1..] == [e3] && LegalRun(s2, [e2, e3]) && After(s2, [e2, e3]) == s4;
    assert [e1, e2, e3][1..] == [e2, e3] && LegalRun(s1, [e1, e2, e3]) && After(s1, [e1, e2, e3]) == s4;
    assert [e0, e1, e2, e3][1..] == [e1, e2, e3];
  }

  /** Both kinds of caller asleep in an open queue, and nobody woken. */
  ghost predicate Stuck<T>(s: Monitor<T>) {
    && !s.closed
    && (exists c :: c in s.calls && AsleepPop(s.calls[c]))
    && (exists p :: p in s.calls && AsleepPush(s.calls[p]))
    && (forall w :: w in s.calls ==> !AwakePop(s.calls[w]) && !AwakePush(s.calls[w]))
  }

  /** A run can get stuck exactly when the queue was made with capacity 0. */
  lemma GetsStuckIffNoCapacity<T>(capacity: nat, item: T)
    ensures
      (exists es: seq<Event<T>> :: LegalRun(Init(capacity), es) && Stuck(After(Init(capacity), es)))
      <==> capacity == 0
  {
    if capacity == 0 {
      ZeroCapacityGetsStuck(item);
      var es := [Begin(0, Push(item, false, Ready)), Begin(1, Pop(false, Ready)), Enter(0, None), Enter(1, None)];
      var s := After(Init<T>(0), es);
      assert 1 in s.calls && AsleepPop(s.calls[1]) && 0 in s.calls && AsleepPush(s.calls[0]);
      RunKeepsOpen(Init<T>(0), es);
      assert LegalRun(Init<T>(0), es) && Stuck(s);
    } else {
      forall es: seq<Event<T>> | LegalRun(Init(capacity), es) ensures !Stuck(After(Init(capacity), es)) {
        var s := After(Init<T>(capacity), es);
        InitInv<T>(capacity);
        RunKeepsInv(Init<T>(capacity), es);
        RunKeepsCapacity(Init<T>(capacity), es);
        if Stuck(s) {
          var c :| c in s.calls && AsleepPop(s.calls[c]);
          var p :| p in s.calls && AsleepPush(s.calls[p]);
          var w := NeverStuck(s, c, p);
        }
      }
    }
  }

  lemma {:induction false} RunKeepsCapacity<T>(s: Monitor<T>, es: seq<Event<T>>)
    requires LegalRun(s, es)
    ensures After(s, es).capacity == s.capacity
    decreases |es|
  {
    if es != [] {
      RunKeepsCapacity(Apply(s, es[0]), es[1..]);
    }
  }

  lemma {:induction false} RunKeepsOpen<T>(s: Monitor<T>, es: seq<Event<T>>)
    requires LegalRun(s, es) && forall e :: e in es ==> !e.SetClosed?
    ensures After(s, es).closed == s.closed
    decreases |es|
  {
    if es != [] {
      assert es[0] in es;
      RunKeepsOpen(Apply(s, es[0]), es[1..]);
    }
  }

  // ---- Closed: everybody returns ---------------------------------------------------------

  /** How many steps a call can still take once the queue is closed. */
  function StepsLeft<T>(c: Call<T>): nat {
    match c
    case Push(_, _, stage) => if stage.Asleep? then 2 else 1
    case Pop(_, stage) => if stage.Asleep? then 2 else 1
    case Close(closing) =>
      (match closing case ToClose => 3 case ToWakeConsumers => 2 case ToWakeProducers => 1)
  }

  lemma ReturnShortens<T>(calls: map<nat, Call<T>>, t: nat, wake: Option<nat>)
    requires t in calls
    ensures Sum(Notified(calls - {t}, wake), StepsLeft<T>) < Sum(calls, StepsLeft<T>)
  {
    var m := calls - {t};
    SumSplit(calls, t, StepsLeft<T>);
    if wake.Some? && wake.value in m {
      var n := Notified(m, wake);
      SumMonotone(n, m, StepsLeft<T>);
    }
  }

  lemma NotifyConsumersShortens<T>(calls: map<nat, Call<T>>, t: nat)
    requires t in calls && calls[t] == Close(ToWakeConsumers)
    ensures Sum(WakeAllPops(calls)[t := Close(ToWakeProducers)], StepsLeft<T>) < Sum(calls, StepsLeft<T>)
  {
    var n := WakeAllPops(calls);
    SumMonotone(n, calls, StepsLeft<T>);
    SumChange(n, n[t := Close(ToWakeProducers)], t, StepsLeft<T>);
  }

  lemma NotifyProducersShortens<T>(calls: map<nat, Call<T>>, t: nat)
    requires t in calls && calls[t] == Close(ToWakeProducers)
    ensures Sum(WakeAllPushes(calls) - {t}, StepsLeft<T>) < Sum(calls, StepsLeft<T>)
  {
    var n := WakeAllPushes(calls);
    SumMonotone(n, calls, StepsLeft<T>);
    SumChange(n, n - {t}, t, StepsLeft<T>);
  }

  /** After closing, every step but a new call uses up one of the steps left, spurious
      wakeups and timeouts included. */
  lemma ClosedStepShortens<T>(s: Monitor<T>, e: Event<T>)
    requires Inv(s) && s.closed && Enabled(s, e) && !e.Begin?
    ensures Apply(s, e).closed
    ensures Sum(Apply(s, e).calls, StepsLeft<T>) < Sum(s.calls, StepsLeft<T>)
  {
    hide Inv;
    match e
    case Begin(_, _) =>
    case Enter(t, wake) => ReturnShortens(s.calls, t, wake);
    case NotifyConsumers(t) => NotifyConsumersShortens(s.calls, t);
    case NotifyProducers(t) => NotifyProducersShortens(s.calls, t);
    case WakeUp(t) => SumChange(s.calls, Apply(s, e).calls, t, StepsLeft<T>);
    case TimeOut(t) => SumChange(s.calls, Apply(s, e).calls, t, StepsLeft<T>);
    case SetClosed(t) => SumChange(s.calls, Apply(s, e).calls, t, StepsLeft<T>);
  }

  /** So without new calls a closed queue takes boundedly many steps. */
  lemma {:induction false} ClosedRunIsBounded<T>(s: Monitor<T>, es: seq<Event<T>>)
    requires Inv(s) && s.closed && LegalRun(s, es) && forall e :: e in es ==> !e.Begin?
    ensures |es| <= Sum(s.calls, StepsLeft<T>)
    decreases |es|
  {
    if es != [] {
      assert es[0] in es;
      ClosedStepShortens(s, es[0]);
      StepKeepsInv(s, es[0]);
      ClosedRunIsBounded(Apply(s, es[0]), es[1..]);
    }
  }

  /** And as long as a call has not returned, some thread can take a step of its own
      accord, without any spurious wakeup or timeout: every call returns. */
  lemma ClosedNeverStuck<T>(s: Monitor<T>) returns (e: Event<T>)
    requires Inv(s) && s.closed && s.calls != map[]
    ensures Enabled(s, e) && !e.Begin? && !e.WakeUp? && !e.TimeOut?
  {
    var t :| t in s.calls;
    var call := s.calls[t];
    if AsleepPop(call) || AsleepPush(call) {
      if CloserAt(s, ToWakeConsumers) {
        t :| t in s.calls && s.calls[t] == Close(ToWakeConsumers);
      } else {
        t :| t in s.calls && s.calls[t] == Close(ToWakeProducers);
      }
      call := s.calls[t];
    }
    match call
    case Close(ToClose) => e := SetClosed(t);
    case Close(ToWakeConsumers) => e := NotifyConsumers(t);
    case Close(ToWakeProducers) => e := NotifyProducers(t);
    case Push(_, _, _) => e := Enter(t, None);
    case Pop(_, _) =>
      var wake := if s.queue == [] then None else SomePushToWake(s.calls);
      e := Enter(t, wake);
  }

  // ---- Drain after close -------------------------------------------------------------------

  ghost predicate Drained<T>(s: Monitor<T>) {
    s.closed && s.queue == []
  }

  /** A pop that returns nullopt found the queue empty; it found it closed too unless it
      had timed out, and the queue is drained exactly when it is closed. */
  lemma NullPopMeansDrained<T>(s: Monitor<T>, e: Event<T>)
    requires Inv(s) && Enabled(s, e) && Returns(s, e) == Popped(None)
    ensures s.queue == []
    ensures Drained(s) <==> s.closed
    ensures !s.calls[e.t].timed ==> Drained(s) && Drained(Apply(s, e))
    ensures !Drained(s) ==> s.calls[e.t].stage == Expired
  {
  }

  /** And it may be open: a timed pop on a new queue sleeps, times out and returns nullopt. */
  lemma TimedPopGivesUpOpen<T>(capacity: nat)
    ensures
      var es := [Begin(0, Pop(true, Ready)), Event<T>.Enter(0, None), TimeOut(0)];
      LegalRun(Init<T>(capacity), es)
      && var s := After(Init<T>(capacity), es);
      Enabled(s, Enter(0, None)) && Returns(s, Enter(0, None)) == Popped(None) && !s.closed
  {
    var e0, e1, e2 := Begin(0, Call<T>.Pop(true, Ready)), Event<T>.Enter(0, None), Event<T>.TimeOut(0);
    var s0 := Init<T>(capacity);
    var s1 := Apply(s0, e0);
    var s2 := Apply(s1, e1);
    var s3 := Apply(s2, e2);
    assert LegalRun(s3, []) && After(s3, []) == s3;
    assert [e2][1..] == [] && LegalRun(s2, [e2]) && After(s2, [e2]) == s3;
    assert [e1, e2][1..] == [e2] && LegalRun(s1, [e1, e2]) && After(s1, [e1, e2]) == s3;
    assert [e0, e1, e2][1..] == [e1, e2];
  }

  lemma StepKeepsDrained<T>(s: Monitor<T>, e: Event<T>)
    requires Inv(s) && Enabled(s, e) && Drained(s)
    ensures Drained(Apply(s, e))
    ensures Apply(s, e).popped == s.popped == s.accepted == Apply(s, e).accepted
    ensures Returns(s, e) != Pushed(true)
    ensures Returns(s, e).Popped? ==> Returns(s, e) == Popped(None)
  {
    hide NoLostWakeup, ClosersPending, StagesValid;
    assert s.popped + [] == s.popped;
  }

  /** Once some `pop` has returned nullopt, every element accepted has been popped, every
      later push is refused and every later pop returns nullopt. */
  lemma AfterNullPopNothingMore<T>(s: Monitor<T>, e: Event<T>, es: seq<Event<T>>, later: Event<T>)
    requires Inv(s) && Enabled(s, e) && Returns(s, e) == Popped(None) && !s.calls[e.t].timed
    requires LegalRun(Apply(s, e), es) && Enabled(After(Apply(s, e), es), later)
    ensures
      var s' := After(Apply(s, e), es);
      && s'.popped == s'.accepted == s.accepted
      && Returns(s', later) != Pushed(true)
      && (Returns(s', later).Popped? ==> Returns(s', later) == Popped(None))
  {
    NullPopMeansDrained(s, e);
    StepKeepsDrained(s, e);
    StepKeepsInv(s, e);
    RunKeepsDrained(Apply(s, e), es);
    RunKeepsInv(Apply(s, e), es);
    StepKeepsDrained(After(Apply(s, e), es), later);
  }

  lemma {:induction false} RunKeepsDrained<T>(s: Monitor<T>, es: seq<Event<T>>)
    requires Inv(s) && Drained(s) && LegalRun(s, es)
    ensures Drained(After(s, es)) && After(s, es).accepted == s.accepted
    decreases |es|
  {
    if es != [] {
      StepKeepsInv(s, es[0]);
      StepKeepsDrained(s, es[0]);
      RunKeepsDrained(Apply(s, es[0]), es[1..]);
    }
  }

  /** A push is refused only because of closing, or by a timeout while the queue is full. */
  lemma RefusedPushMeansClosedOrFull<T>(s: Monitor<T>, e: Event<T>)
    requires Inv(s) && Enabled(s, e) && Returns(s, e) == Pushed(false)
    ensures s.closed || (s.calls[e.t].timed && |s.queue| == s.capacity)
  {
    PushOutcome(s, e);
  }
}
