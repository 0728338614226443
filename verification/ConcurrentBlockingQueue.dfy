/** The member functions of null/concurrent_blocking_queue.h as code over the deque, the
    closed flag and the wait sets of the two condition variables, each proved to perform
    steps of the machine in BlockingQueue. */
module ConcurrentBlockingQueue {
  import opened BlockingQueue
  import opened Collections

  /** The wait sets of the two condition variables. */
  ghost function WaitingPops<T>(calls: map<nat, Call<T>>): set<nat> {
    set t | t in calls && AsleepPop(calls[t])
  }

  ghost function WaitingPushes<T>(calls: map<nat, Call<T>>): set<nat> {
    set t | t in calls && AsleepPush(calls[t])
  }

  function Minus(waiters: set<nat>, wake: Option<nat>): set<nat> {
    if wake.Some? then waiters - {wake.value} else waiters
  }

  lemma SleepWaiters<T>(calls: map<nat, Call<T>>, t: nat, call: Call<T>)
    requires !call.Close? && call.stage == Asleep
    requires t in calls ==> !AsleepPop(calls[t]) && !AsleepPush(calls[t])
    ensures WaitingPops(calls[t := call]) == WaitingPops(calls) + (if call.Pop? then {t} else {})
    ensures WaitingPushes(calls[t := call]) == WaitingPushes(calls) + (if call.Push? then {t} else {})
  {
  }

  lemma ReturnWaiters<T>(calls: map<nat, Call<T>>, t: nat, wake: Option<nat>)
    requires t in calls && !AsleepPop(calls[t]) && !AsleepPush(calls[t])
    ensures WaitingPops(Notified(calls - {t}, wake)) == Minus(WaitingPops(calls), wake)
    ensures WaitingPushes(Notified(calls - {t}, wake)) == Minus(WaitingPushes(calls), wake)
  {
  }

  /** A choice out of the wait set is one the machine allows. */
  lemma NotifyIsEnabled<T>(calls: map<nat, Call<T>>, wake: Option<nat>)
    ensures (if wake.Some? then wake.value in WaitingPushes(calls) else WaitingPushes(calls) == {}) ==>
      NotifiesPush(calls, wake) && Minus(WaitingPops(calls), wake) == WaitingPops(calls)
    ensures (if wake.Some? then wake.value in WaitingPops(calls) else WaitingPops(calls) == {}) ==>
      NotifiesPop(calls, wake) && Minus(WaitingPushes(calls), wake) == WaitingPushes(calls)
  {
    forall t | t in calls ensures AsleepPush(calls[t]) <==> t in WaitingPushes(calls) {
    }
    forall t | t in calls ensures AsleepPop(calls[t]) <==> t in WaitingPops(calls) {
    }
  }

  lemma NotifyAllWaiters<T>(calls: map<nat, Call<T>>, t: nat)
    requires t in calls && calls[t].Close?
    ensures WaitingPops(WakeAllPops(calls)[t := Close(ToWakeProducers)]) == {}
    ensures WaitingPushes(WakeAllPops(calls)[t := Close(ToWakeProducers)]) == WaitingPushes(calls)
    ensures WaitingPushes(WakeAllPushes(calls) - {t}) == {}
    ensures WaitingPops(WakeAllPushes(calls) - {t}) == WaitingPops(calls)
    ensures WaitingPops(calls[t := Close(ToWakeConsumers)]) == WaitingPops(calls)
    ensures WaitingPushes(calls[t := Close(ToWakeConsumers)]) == WaitingPushes(calls)
  {
  }

  /** Steps of other threads leave a call that is not asleep where it is, only add to what has
      been accepted and popped, never reopen the queue, and put nobody to sleep once it is
      closed. */
  lemma {:induction false} OthersKeepCall<T>(s: Monitor<T>, es: seq<Event<T>>, t: nat)
    requires LegalRun(s, es) && forall e :: e in es ==> e.t != t
    ensures
      var s' := After(s, es);
      && (t in s.calls && (s.calls[t].Close? || !s.calls[t].stage.Asleep?) ==>
            t in s'.calls && s'.calls[t] == s.calls[t])
      && s.accepted <= s'.accepted && s.popped <= s'.popped
      && (s.closed ==>
            && s'.closed
            && WaitingPops(s'.calls) <= WaitingPops(s.calls)
            && WaitingPushes(s'.calls) <= WaitingPushes(s.calls))
    decreases |es|
  {
    if es != [] {
      assert es[0] in es;
      OtherStepKeepsCall(s, es[0], t);
      hide Enabled, Apply, WaitingPops, WaitingPushes;
      OthersKeepCall(Apply(s, es[0]), es[1..], t);
    }
  }

  lemma OtherStepKeepsCall<T>(s: Monitor<T>, e: Event<T>, t: nat)
    requires Enabled(s, e) && e.t != t
    ensures
      t in s.calls && (s.calls[t].Close? || !s.calls[t].stage.Asleep?) ==>
        t in Apply(s, e).calls && Apply(s, e).calls[t] == s.calls[t]
    ensures s.accepted <= Apply(s, e).accepted && s.popped <= Apply(s, e).popped
    ensures s.closed ==>
      && Apply(s, e).closed
      && WaitingPops(Apply(s, e).calls) <= WaitingPops(s.calls)
      && WaitingPushes(Apply(s, e).calls) <= WaitingPushes(s.calls)
  {
  }

  /** One critical section of a pop, by what it returns. */
  lemma PopRound<T>(s: Monitor<T>, t: nat, wake: Option<nat>)
    requires Inv(s) && Enabled(s, Enter(t, wake)) && s.calls[t].Pop?
    ensures
      var s' := Apply(s, Enter(t, wake));
      && s.accepted <= s'.accepted && s.popped <= s'.popped
      && match Result(s, s.calls[t])
         case Popped(Some(x)) =>
           && t !in s'.calls && |s'.popped| == |s.popped| + 1 && s'.popped <= s'.accepted
           && s'.popped[|s.popped|] == x
         case Popped(None) => t !in s'.calls && s'.queue == [] && (s'.closed || s.calls[t].stage == Expired)
         case Pushed(_) => false
         case Continues => t in s'.calls && TurnsTo(s.calls[t], Asleep, s'.calls[t])
  {
    StepKeepsInv(s, Enter(t, wake));
    PoppedThenQueued(Apply(s, Enter(t, wake)));
    StepRefinesQueue(s, Enter(t, wake));
    StepMovesCalls(s, Enter(t, wake));
    PopOutcome(s, Enter(t, wake));
    hide Inv, Apply, Enabled;
  }

  /** One critical section of a push, by what it returns. */
  lemma PushRound<T>(s: Monitor<T>, t: nat, wake: Option<nat>)
    requires Inv(s) && Enabled(s, Enter(t, wake)) && s.calls[t].Push?
    ensures
      var s' := Apply(s, Enter(t, wake));
      && s.accepted <= s'.accepted && s.popped <= s'.popped
      && match Result(s, s.calls[t])
         case Pushed(true) =>
           && t !in s'.calls && s'.accepted == s.accepted + [s.calls[t].item]
           && s'.queue == s.queue + [s.calls[t].item] && |s'.queue| <= s.capacity
         case Pushed(false) =>
           t !in s'.calls && (s'.closed || (s.calls[t].stage == Expired && |s'.queue| >= s.capacity))
         case Popped(_) => false
         case Continues => t in s'.calls && TurnsTo(s.calls[t], Asleep, s'.calls[t])
  {
    StepRefinesQueue(s, Enter(t, wake));
    StepMovesCalls(s, Enter(t, wake));
    PushOutcome(s, Enter(t, wake));
    hide Inv, Apply, Enabled;
  }

  lemma PoppedThenQueued<T>(s: Monitor<T>)
    requires Inv(s)
    ensures s.popped <= s.accepted
  {
  }

  class ConcurrentBlockingQueue<T> {
    const capacity: nat
    var queue: seq<T>
    var closed: bool
    var notFullWaiters: set<nat>
    var notEmptyWaiters: set<nat>
    ghost var model: Monitor<T>

    ghost predicate WaitersCurrent()
      reads this
    {
      notEmptyWaiters == WaitingPops(model.calls) && notFullWaiters == WaitingPushes(model.calls)
    }

    ghost predicate Valid()
      reads this
    {
      && Inv(model)
      && model.capacity == capacity && model.queue == queue && model.closed == closed
      && WaitersCurrent()
    }

    constructor (capacity: nat)
      ensures Valid() && model == Init(capacity)
    {
      this.capacity := capacity;
      queue, closed := [], false;
      notFullWaiters, notEmptyWaiters := {}, {};
      model := Init(capacity);
      InitInv<T>(capacity);
    }

    /** Other threads run, as OthersKeepCall says they may. */
    method OthersRun(ghost t: nat)
      requires Valid()
      modifies this
      ensures Valid()
      ensures t in old(model).calls && !old(model).calls[t].Close? && !old(model).calls[t].stage.Asleep? ==>
        t in model.calls && model.calls[t] == old(model).calls[t]
      ensures t in old(model).calls && old(model).calls[t].Close? ==>
        t in model.calls && model.calls[t] == old(model).calls[t]
      ensures old(model).accepted <= model.accepted && old(model).popped <= model.popped
      ensures old(closed) ==> closed
      ensures old(closed) ==> notEmptyWaiters <= old(notEmptyWaiters) && notFullWaiters <= old(notFullWaiters)
    {
    }

    /** The thread sleeps, others run, and it leaves the condition variable again for one
        of the three reasons. */
    method Sleep(t: nat) returns (expired: bool)
      requires Valid() && t in model.calls && !model.calls[t].Close? && model.calls[t].stage == Asleep
      modifies this
      ensures Valid() && t in model.calls
      ensures model.calls[t] == old(model).calls[t].(stage := if expired then Expired else Woken)
      ensures expired ==> old(model).calls[t].timed
      ensures old(model).accepted <= model.accepted && old(model).popped <= model.popped
    {
      StepKeepsInv(model, WakeUp(t));
      hide Inv;
      model := Apply(model, WakeUp(t));
      notEmptyWaiters := notEmptyWaiters - {t};
      notFullWaiters := notFullWaiters - {t};
      expired := false;
    }

    /** notify_one: wakes an arbitrary waiter if there is one. */
    static method NotifyOne(waiters: set<nat>) returns (rest: set<nat>, wake: Option<nat>)
      ensures waiters == {} ==> wake == None && rest == {}
      ensures waiters != {} ==> wake.Some? && wake.value in waiters && rest == waiters - {wake.value}
    {
      if waiters == {} {
        rest, wake := {}, None;
      } else {
        var w :| w in waiters;
        rest, wake := waiters - {w}, Some(w);
      }
    }

    /** A caller whose predicate is false goes to sleep, or gives up if it has timed out. */
    method Wait(t: nat, expired: bool, pop: bool)
      requires Valid() && t in model.calls && !model.calls[t].Close? && model.calls[t].stage != Asleep
      requires (expired <==> model.calls[t].stage == Expired) && (pop <==> model.calls[t].Pop?)
      requires if pop then !PopMayGo(model) else !PushMayGo(model)
      modifies this
      ensures Valid()
      ensures Enabled(old(model), Enter(t, None)) && model == Apply(old(model), Enter(t, None))
    {
      StepKeepsInv(model, Enter(t, None));
      hide Inv, WaitingPops, WaitingPushes;
      if expired {
        ReturnWaiters(model.calls, t, None);
      } else {
        SleepWaiters(model.calls, t, model.calls[t].(stage := Asleep));
        if pop {
          notEmptyWaiters := notEmptyWaiters + {t};
        } else {
          notFullWaiters := notFullWaiters + {t};
        }
      }
      model := Apply(model, Enter(t, None));
    }

    /** A caller that finds the queue closed (and, for pop, empty) returns. */
    method GiveUp(t: nat)
      requires Valid() && closed && t in model.calls && !model.calls[t].Close? && model.calls[t].stage != Asleep
      requires model.calls[t].Pop? ==> queue == []
      modifies this`model
      ensures Valid()
      ensures Enabled(old(model), Enter(t, None)) && model == Apply(old(model), Enter(t, None))
    {
      StepKeepsInv(model, Enter(t, None));
      hide Inv, WaitingPops, WaitingPushes;
      ReturnWaiters(model.calls, t, None);
      model := Apply(model, Enter(t, None));
    }

    method TakeFront(t: nat) returns (elem: T, ghost wake: Option<nat>)
      requires Valid() && queue != []
      requires t in model.calls && model.calls[t].Pop? && model.calls[t].stage != Asleep
      modifies this
      ensures Valid()
      ensures Enabled(old(model), Enter(t, wake)) && model == Apply(old(model), Enter(t, wake))
      ensures elem == old(queue)[0]
    {
      elem := queue[0];
      var rest, w := NotifyOne(notFullWaiters);
      wake := w;
      NotifyIsEnabled(model.calls, w);
      ReturnWaiters(model.calls, t, w);
      StepKeepsInv(model, Enter(t, w));
      hide Inv, WaitingPops, WaitingPushes;
      model := Apply(model, Enter(t, w));
      queue := queue[1..];
      notFullWaiters := rest;
    }

    method AddBack(t: nat, item: T) returns (ghost wake: Option<nat>)
      requires Valid() && |queue| < capacity && !closed
      requires t in model.calls && model.calls[t].Push? && model.calls[t].item == item && model.calls[t].stage != Asleep
      modifies this
      ensures Valid()
      ensures Enabled(old(model), Enter(t, wake)) && model == Apply(old(model), Enter(t, wake))
    {
      var rest, w := NotifyOne(notEmptyWaiters);
      wake := w;
      NotifyIsEnabled(model.calls, w);
      ReturnWaiters(model.calls, t, w);
      StepKeepsInv(model, Enter(t, w));
      hide Inv, WaitingPops, WaitingPushes;
      model := Apply(model, Enter(t, w));
      queue := queue + [item];
      notEmptyWaiters := rest;
    }

    /** The body of pop and try_pop under the lock, up to returning or going to sleep. */
    method PopSection(t: nat, expired: bool) returns (r: Outcome<T>, ghost wake: Option<nat>)
      requires Valid() && t in model.calls && model.calls[t].Pop?
      requires model.calls[t].stage != Asleep && (expired <==> model.calls[t].stage == Expired)
      modifies this
      ensures Valid()
      ensures Enabled(old(model), Enter(t, wake)) && model == Apply(old(model), Enter(t, wake))
      ensures r == Result(old(model), old(model).calls[t])
    {
      hide Inv, WaitersCurrent, Apply;
      wake := None;
      if queue == [] && !closed {
        Wait(t, expired, true);
        r := if expired then Popped(None) else Continues;
      } else if queue == [] {
        GiveUp(t);
        r := Popped(None);
      } else {
        var elem;
        elem, wake := TakeFront(t);
        r := Popped(Some(elem));
      }
    }

    /** The body of push and try_push under the lock. */
    method PushSection(t: nat, item: T, expired: bool) returns (r: Outcome<T>, ghost wake: Option<nat>)
      requires Valid() && t in model.calls && model.calls[t].Push? && model.calls[t].item == item
      requires model.calls[t].stage != Asleep && (expired <==> model.calls[t].stage == Expired)
      modifies this
      ensures Valid()
      ensures Enabled(old(model), Enter(t, wake)) && model == Apply(old(model), Enter(t, wake))
      ensures r == Result(old(model), old(model).calls[t])
    {
      hide Inv, WaitersCurrent, Apply;
      wake := None;
      if |queue| >= capacity && !closed {
        Wait(t, expired, false);
        r := if expired then Pushed(false) else Continues;
      } else if closed {
        GiveUp(t);
        r := Pushed(false);
      } else {
        wake := AddBack(t, item);
        r := Pushed(true);
      }
    }

    /** pop and try_pop: the wait loop, for as many rounds as the scheduler grants it. */
    method Pop(t: nat, timed: bool, rounds: nat) returns (r: Outcome<T>)
      requires Valid() && t in model.calls && model.calls[t] == Call.Pop(timed, Ready)
      modifies this
      ensures Valid()
      ensures old(model).accepted <= model.accepted && old(model).popped <= model.popped
      ensures r.Popped? && r.elem.Some? ==>
        && t !in model.calls && |old(model).popped| < |model.popped|
        && model.popped[|model.popped| - 1] == r.elem.value
        && model.accepted[|model.popped| - 1] == r.elem.value
      ensures r.Popped? && r.elem.None? ==> t !in model.calls && queue == [] && (closed || timed)
      ensures !r.Pushed?
      ensures r == Continues ==>
        && t in model.calls && model.calls[t].Pop? && model.calls[t].timed == timed
        && (if rounds == 0 then model.calls[t].stage == Ready else AwakePop(model.calls[t]))
    {
      r := Continues;
      var expired := false;
      var left := rounds;
      while left > 0
        invariant Valid() && r == Continues && 0 <= left <= rounds && t in model.calls
        invariant model.calls[t].Close? || (left == rounds <==> model.calls[t].stage == Ready)
        invariant old(model).accepted <= model.accepted && old(model).popped <= model.popped
        invariant model.calls[t].Pop? && model.calls[t].timed == timed && model.calls[t].stage != Asleep
        invariant expired <==> model.calls[t].stage == Expired
        invariant expired ==> timed
        decreases left
      {
        hide Inv, Apply, Enabled, Result, WaitersCurrent;
        left := left - 1;
        OthersRun(t);
        ghost var before := model;
        ghost var wake;
        r, wake := PopSection(t, expired);
        PopRound(before, t, wake);
        if r.Popped? {
          return r;
        }
        expired := Sleep(t);
      }
    }

    /** push and try_push. */
    method Push(t: nat, item: T, timed: bool, rounds: nat) returns (r: Outcome<T>)
      requires Valid() && t in model.calls && model.calls[t] == Call.Push(item, timed, Ready)
      modifies this
      ensures Valid()
      ensures old(model).accepted <= model.accepted && old(model).popped <= model.popped
      ensures r == Pushed(true) ==>
        && t !in model.calls && queue != [] && queue[|queue| - 1] == item && |queue| <= capacity
        && |old(model).accepted| < |model.accepted| && model.accepted[|model.accepted| - 1] == item
      ensures r == Pushed(false) ==> t !in model.calls && (closed || (timed && |queue| >= capacity))
      ensures !r.Popped?
      ensures r == Continues ==>
        && t in model.calls && model.calls[t].Push? && model.calls[t].timed == timed && model.calls[t].item == item
        && (if rounds == 0 then model.calls[t].stage == Ready else AwakePush(model.calls[t]))
    {
      r := Continues;
      var expired := false;
      var left := rounds;
      while left > 0
        invariant Valid() && r == Continues && 0 <= left <= rounds && t in model.calls
        invariant model.calls[t].Close? || (left == rounds <==> model.calls[t].stage == Ready)
        invariant old(model).accepted <= model.accepted && old(model).popped <= model.popped
        invariant model.calls[t].Push? && model.calls[t].timed == timed && model.calls[t].item == item
        invariant model.calls[t].stage != Asleep
        invariant expired <==> model.calls[t].stage == Expired
        invariant expired ==> timed
        decreases left
      {
        hide Inv, Apply, Enabled, Result, WaitersCurrent;
        left := left - 1;
        OthersRun(t);
        ghost var before := model;
        ghost var wake;
        r, wake := PushSection(t, item, expired);
        PushRound(before, t, wake);
        if r.Pushed? {
          return r;
        }
        expired := Sleep(t);
      }
    }

    /** One of the three stages of close. */
    ghost method CloserStep(t: nat, e: Event<T>)
      requires Inv(model) && Enabled(model, e) && e.t == t
      requires e.SetClosed? || e.NotifyConsumers? || e.NotifyProducers?
      modifies this`model
      ensures Inv(model) && model == Apply(old(model), e)
      ensures e.NotifyConsumers? ==> WaitingPops(model.calls) == {}
      ensures e.NotifyProducers? ==> WaitingPushes(model.calls) == {}
      ensures !e.NotifyConsumers? ==> WaitingPops(model.calls) == WaitingPops(old(model).calls)
      ensures !e.NotifyProducers? ==> WaitingPushes(model.calls) == WaitingPushes(old(model).calls)
    {
      StepKeepsInv(model, e);
      NotifyAllWaiters(model.calls, t);
      hide Inv, WaitingPops, WaitingPushes, WakeAllPops, WakeAllPushes;
      model := Apply(model, e);
    }

    /** close: sets the flag under the lock, then notifies both kinds outside it. Whatever
        the others do meanwhile, nobody is asleep when it returns. */
    method Close(t: nat)
      requires Valid() && t in model.calls && model.calls[t] == Call.Close(ToClose)
      modifies this
      ensures Valid() && closed && t !in model.calls
      ensures notEmptyWaiters == {} && notFullWaiters == {}
    {
      hide Inv, WaitingPops, WaitingPushes, WakeAllPops, WakeAllPushes;
      CloserStep(t, SetClosed(t));
      closed := true;
      OthersRun(t);
      CloserStep(t, NotifyConsumers(t));
      notEmptyWaiters := {};
      OthersRun(t);
      CloserStep(t, NotifyProducers(t));
      notFullWaiters := {};
    }
  }
}
