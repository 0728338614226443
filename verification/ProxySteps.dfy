/** What each handler of a proxy session does to everything it could touch, and that what is
    received can be delivered. */
module ProxySteps {
  import opened ProxySession

  function Other(d: Dir): Dir { if d.Up? then Down else Up }

  // ---- stop ---------------------------------------------------------------------------------

  /** An operation that closing its socket has met: what has not completed fails, a queued
      completion stays. */
  predicate EndedIo(op: IoOp, op': IoOp) {
    if !op.status.Pending? then op' == op
    else
      match op
      case Receive(bytes, _) => op' == Receive(bytes, Failed)
      case Write(bytes, sent, _) => op' == Write(bytes, sent, Failed)
  }

  predicate EndedWait(w: Wait, w': Wait) {
    if w.status.Pending? then w' == Wait(w.expiry, Failed) else w' == w
  }

  ghost predicate EndedPump(p: Pump, p': Pump) {
    && |p'.ops| == |p.ops| && (forall i :: 0 <= i < |p.ops| ==> EndedIo(p.ops[i], p'.ops[i]))
    && p'.buffer == p.buffer && p'.received == p.received && p'.written == p.written
  }

  ghost predicate EndedDog(w: Watchdog, w': Watchdog) {
    && |w'.waits| == |w.waits| && (forall i :: 0 <= i < |w.waits| ==> EndedWait(w.waits[i], w'.waits[i]))
    && w'.deadline == w.deadline && w'.checks == w.checks
  }

  predicate NoWaitPending(w: Watchdog) {
    forall i :: 0 <= i < |w.waits| ==> !w.waits[i].status.Pending?
  }

  /** `r` is `s` once stopped: both sockets closed, both timers cancelled. */
  ghost predicate Stopped(s: Session, r: Session) {
    && !r.clientOpen && !r.serverOpen
    && EndedPump(s.up, r.up) && EndedPump(s.down, r.down)
    && EndedDog(s.dog1, r.dog1) && EndedDog(s.dog2, r.dog2)
    && r.now == s.now && r.timeout == s.timeout && r.phase == s.phase
  }

  ghost predicate NothingLeftToWaitFor(s: Session) {
    NothingPending(s.up) && NothingPending(s.down) && NoWaitPending(s.dog1) && NoWaitPending(s.dog2)
  }

  lemma StopStops(s: Session)
    ensures Stopped(s, Stop(s)) && NothingLeftToWaitFor(Stop(s))
  {
  }

  /** Stopping a stopped session changes nothing. */
  lemma StopTwice(s: Session)
    ensures Stop(Stop(s)) == Stop(s)
  {
    var r := Stop(s);
    assert FailAll(r.up).ops == r.up.ops && FailAll(r.down).ops == r.down.ops;
    assert CancelAll(r.dog1).waits == r.dog1.waits && CancelAll(r.dog2).waits == r.dog2.waits;
  }

  // ---- Completion handlers -------------------------------------------------------------------

  /** The handler of a failed operation stops the session; nothing can then keep it waiting. */
  lemma FailedIoStops(s: Session, d: Dir, i: nat)
    requires Inv(s) && Enabled(s, HandleIo(d, i)) && PumpOf(s, d).ops[i].status.Failed?
    ensures
      var r := Apply(s, HandleIo(d, i));
      && Stopped(SetPump(s, d, PumpOf(s, d).(ops := [])), r)
      && PumpOf(r, d).ops == [] && NothingLeftToWaitFor(r)
  {
    hide Stop, Stopped, NothingLeftToWaitFor, PumpValid, DogInv;
    ConnectedOps(s, d, i);
    OneOp(PumpOf(s, d).ops, i);
    var s1 := SetPump(s, d, PumpOf(s, d).(ops := []));
    StopStops(s1);
    assert Apply(s, HandleIo(d, i)) == Stop(s1);
    NoOpsStay(s1, d, Stop(s1));
  }

  lemma NoOpsStay(s: Session, d: Dir, r: Session)
    requires Stopped(s, r) && PumpOf(s, d).ops == []
    ensures PumpOf(r, d).ops == []
  {
  }

  /** The status of an operation started now. */
  function StatusNow(s: Session): Status {
    if s.clientOpen then Pending else Failed
  }

  /** The handler of a receive starts one write of the bytes received, pending while the
      session is open, and touches nothing else but the deadline of its watchdog. */
  lemma ReceivedThenWrites(s: Session, d: Dir, i: nat)
    requires Inv(s) && Enabled(s, HandleIo(d, i))
    requires PumpOf(s, d).ops[i].status.Succeeded? && PumpOf(s, d).ops[i].Receive?
    ensures
      var r := Apply(s, HandleIo(d, i));
      && PumpOf(r, d) == PumpOf(s, d).(ops := [Write(PumpOf(s, d).ops[i].bytes, 0, StatusNow(s))])
      && DogOf(r, d) == DogOf(s, d).(deadline := s.now + s.timeout)
      && r == SetDog(SetPump(s, d, PumpOf(r, d)), d, DogOf(r, d))
  {
    NextStarted(s, d, i);
  }

  /** The handler of a finished write starts the next receive in the same way. */
  lemma WrittenThenReceives(s: Session, d: Dir, i: nat)
    requires Inv(s) && Enabled(s, HandleIo(d, i))
    requires PumpOf(s, d).ops[i].status.Succeeded? && PumpOf(s, d).ops[i].Write?
    ensures
      var r := Apply(s, HandleIo(d, i));
      && PumpOf(r, d) == PumpOf(s, d).(ops := [Receive(0, StatusNow(s))])
      && DogOf(r, d) == DogOf(s, d).(deadline := s.now + s.timeout)
      && r == SetDog(SetPump(s, d, PumpOf(r, d)), d, DogOf(r, d))
  {
    NextStarted(s, d, i);
  }

  lemma NextStarted(s: Session, d: Dir, i: nat)
    requires Inv(s) && Enabled(s, HandleIo(d, i)) && PumpOf(s, d).ops[i].status.Succeeded?
    ensures
      var r := Apply(s, HandleIo(d, i));
      var op := PumpOf(s, d).ops[i];
      && PumpOf(r, d).ops == [if op.Receive? then Write(op.bytes, 0, StatusNow(s)) else Receive(0, StatusNow(s))]
      && PumpOf(r, d) == PumpOf(s, d).(ops := PumpOf(r, d).ops)
      && DogOf(r, d) == DogOf(s, d).(deadline := s.now + s.timeout)
      && r == SetDog(SetPump(s, d, PumpOf(r, d)), d, DogOf(r, d))
  {
    hide PumpValid, DogInv;
    assert s.clientOpen == s.serverOpen;
    ConnectedOps(s, d, i);
    hide Inv;
    OneOp(PumpOf(s, d).ops, i);
    assert forall x: IoOp :: [] + [x] == [x];
  }

  /** A watchdog's wait that was cancelled ends, and does nothing else. */
  lemma CancelledWaitEnds(s: Session, d: Dir, i: nat)
    requires Inv(s) && Enabled(s, HandleWait(d, i)) && DogOf(s, d).waits[i].status.Failed?
    ensures Apply(s, HandleWait(d, i)) == SetDog(s, d, DogOf(s, d).(waits := []))
  {
    ConnectedOps(s, d, i);
    OneOp(DogOf(s, d).waits, i);
  }

  /** One that fired stops the session if the deadline has come, or waits for the deadline. */
  lemma FiredWaitStopsOrRearms(s: Session, d: Dir, i: nat)
    requires Inv(s) && Enabled(s, HandleWait(d, i)) && DogOf(s, d).waits[i].status.Succeeded?
    ensures
      var r := Apply(s, HandleWait(d, i));
      var w := DogOf(s, d);
      if s.now >= w.deadline then
        && Stopped(SetDog(s, d, w.(waits := [])), r)
        && DogOf(r, d).waits == [] && NothingLeftToWaitFor(r)
      else
        r == SetDog(s, d, w.(waits := [Wait(w.deadline, Pending)], checks := w.checks + [s.now]))
  {
    hide Stop, Stopped, NothingLeftToWaitFor, PumpValid, DogInv;
    var w := DogOf(s, d);
    ConnectedOps(s, d, i);
    hide Inv;
    OneOp(w.waits, i);
    var s1 := SetDog(s, d, w.(waits := []));
    CancelNothing(DogOf(s1, d));
    StopStops(s1);
    if s.now >= w.deadline {
      NoWaitsStay(s1, d, Stop(s1));
    } else {
      assert [] + [Wait(w.deadline, Pending)] == [Wait(w.deadline, Pending)];
    }
  }

  lemma NoWaitsStay(s: Session, d: Dir, r: Session)
    requires Stopped(s, r) && DogOf(s, d).waits == []
    ensures DogOf(r, d).waits == []
  {
  }

  // ---- Connecting -------------------------------------------------------------------------------

  /** A refused connection starts nothing, and no handler ever runs again. */
  lemma RefusedSessionIsOver(s: Session, dt1: nat, dt2: nat, dt3: nat, es: seq<Event>)
    requires Inv(s) && Enabled(s, HandleConnect(false, dt1, dt2, dt3))
    requires LegalRun(Apply(s, HandleConnect(false, dt1, dt2, dt3)), es)
    ensures Apply(s, HandleConnect(false, dt1, dt2, dt3)) == s.(phase := Refused)
    ensures Handlers(es) == 0
  {
    StepKeepsInv(s, HandleConnect(false, dt1, dt2, dt3));
    RefusedRun(s.(phase := Refused), es);
  }

  lemma {:induction false} RefusedRun(s: Session, es: seq<Event>)
    requires Inv(s) && s.phase.Refused? && LegalRun(s, es)
    ensures Handlers(es) == 0
    decreases |es|
  {
    if es != [] {
      RefusedStep(s, es[0]);
      StepKeepsInv(s, es[0]);
      hide Inv, Apply, Enabled;
      RefusedRun(Apply(s, es[0]), es[1..]);
    }
  }

  lemma RefusedStep(s: Session, e: Event)
    requires Inv(s) && s.phase.Refused? && Enabled(s, e)
    ensures e.Tick? && Apply(s, e).phase.Refused?
  {
  }

  /** An accepted one starts a receive in both directions, and both watchdogs at their
      deadlines; it stays open exactly if neither deadline has come when it is first checked. */
  lemma ConnectedSessionStarts(timeout: int, now: int, upBuffer: seq<bv8>, downBuffer: seq<bv8>,
      dt1: nat, dt2: nat, dt3: nat)
    ensures
      var s := Init(timeout, now, upBuffer, downBuffer);
      var r := Apply(s, HandleConnect(true, dt1, dt2, dt3));
      && r.phase == Connected && r.now == now + dt1 + dt2 + dt3 && r.timeout == timeout
      && (r.clientOpen <==> dt1 + dt2 < timeout && dt2 + dt3 < timeout)
      && r.serverOpen == r.clientOpen
      && (r.clientOpen ==>
            && r.up == s.up.(ops := [Receive(0, Pending)]) && r.down == s.down.(ops := [Receive(0, Pending)])
            && r.dog1 == Watchdog([Wait(now + timeout, Pending)], now + timeout, [now + dt1 + dt2])
            && r.dog2 == Watchdog([Wait(now + dt1 + timeout, Pending)], now + dt1 + timeout, [r.now]))
      && (!r.clientOpen ==> NothingPending(r.up) && NothingPending(r.down))
  {
    var s0 := Init(timeout, now, upBuffer, downBuffer).(phase := Connected);
    var s1 := Pass(StartReceive(Pass(StartReceive(s0, Up), dt1), Down), dt2);
    assert [] + [Receive(0, Pending)] == [Receive(0, Pending)];
    CancelNothing(s1.dog1);
    CancelNothing(s1.dog2);
    var s2 := Pass(CheckDog(s1, Up), dt3);
    assert s2.dog2 == s1.dog2;
    assert [] + [Wait(now + timeout, Pending)] == [Wait(now + timeout, Pending)];
    assert [] + [Wait(now + dt1 + timeout, Pending)] == [Wait(now + dt1 + timeout, Pending)];
    assert [] + [s1.now] == [s1.now] && [] + [s2.now] == [s2.now];
  }

  // ---- What flows -------------------------------------------------------------------------------

  /** Only an arrival adds to what a direction has received, at its end and exactly the data;
      only a send adds to what it has written, the next bytes of what it received. */
  lemma StreamsGrow(s: Session, e: Event, d: Dir)
    requires Inv(s) && Enabled(s, e)
    ensures
      var p, p' := PumpOf(s, d), PumpOf(Apply(s, e), d);
      && p'.received == (if e.Arrive? && e.d == d then p.received + e.data else p.received)
      && |p'.written| == |p.written| + (if e.Send? && e.d == d then e.n else 0)
      && p.written <= p'.written <= p'.received
  {
    StepKeepsInv(s, e);
    hide PumpValid, DogInv;
    StreamsOnly(s, e, d);
    WrittenIsPrefix(Apply(s, e), d);
  }

  lemma WrittenIsPrefix(s: Session, d: Dir)
    requires Inv(s)
    ensures PumpOf(s, d).written <= PumpOf(s, d).received
  {
  }

  predicate SameStreams(p: Pump, p': Pump) {
    p'.received == p.received && p'.written == p.written
  }

  lemma CheckKeepsStreams(s: Session, c: Dir, d: Dir)
    ensures SameStreams(PumpOf(s, d), PumpOf(CheckDog(s, c), d))
  {
  }

  lemma BeginKeepsStreams(s: Session, dt1: nat, dt2: nat, dt3: nat, d: Dir)
    ensures SameStreams(PumpOf(s, d), PumpOf(Begin(s, dt1, dt2, dt3), d))
  {
    var s1 := Pass(StartReceive(Pass(StartReceive(s, Up), dt1), Down), dt2);
    CheckKeepsStreams(s1, Up, d);
    CheckKeepsStreams(Pass(CheckDog(s1, Up), dt3), Down, d);
    hide CheckDog;
  }

  lemma HandlersKeepStreams(s: Session, e: Event, d: Dir)
    requires Enabled(s, e) && IsHandler(e)
    ensures SameStreams(PumpOf(s, d), PumpOf(Apply(s, e), d))
  {
    match e
    case HandleConnect(ok, dt1, dt2, dt3) =>
      BeginKeepsStreams(s.(phase := Connected), dt1, dt2, dt3, d);
      hide Begin;
    case HandleWait(c, i) =>
      CheckKeepsStreams(SetDog(s, c, DogOf(s, c).(waits := RemoveAt(DogOf(s, c).waits, i))), c, d);
      hide CheckDog;
    case _ =>
  }

  lemma StreamsOnly(s: Session, e: Event, d: Dir)
    requires Enabled(s, e)
    ensures
      var p, p' := PumpOf(s, d), PumpOf(Apply(s, e), d);
      && p'.received == (if e.Arrive? && e.d == d then p.received + e.data else p.received)
      && |p'.written| == |p.written| + (if e.Send? && e.d == d then e.n else 0)
      && p.written <= p'.written
  {
    hide Begin, RunIoHandler, RunWaitHandler;
    if IsHandler(e) {
      HandlersKeepStreams(s, e, d);
    }
  }

  /** What the outside does to a session: an arrival completes its receive with the bytes
      delivered; a send, an end or an error of an operation, and a timer that fires, touch
      that operation or wait alone. */
  lemma OutsideStep(s: Session, e: Event)
    requires Inv(s) && Enabled(s, e) && !IsHandler(e)
    ensures
      var r := Apply(s, e);
      match e
      case Tick(dt) => r == s.(now := s.now + dt)
      case Arrive(d, i, data) =>
        && PumpOf(r, d).ops == [Receive(|data|, Succeeded)]
        && |PumpOf(r, d).buffer| == |PumpOf(s, d).buffer| && PumpOf(r, d).buffer[..|data|] == data
        && r == SetPump(s, d, PumpOf(r, d))
      case Send(d, i, n) =>
        var op := PumpOf(s, d).ops[i];
        && PumpOf(r, d).ops == [Write(op.bytes, op.sent + n, Pending)]
        && PumpOf(r, d).buffer == PumpOf(s, d).buffer && r == SetPump(s, d, PumpOf(r, d))
      case WriteDone(d, i) =>
        var bytes := PumpOf(s, d).ops[i].bytes;
        r == SetPump(s, d, PumpOf(s, d).(ops := [Write(bytes, bytes, Succeeded)]))
      case IoError(d, i) =>
        && |PumpOf(r, d).ops| == 1 && EndedIo(PumpOf(s, d).ops[i], PumpOf(r, d).ops[0])
        && r == SetPump(s, d, PumpOf(s, d).(ops := PumpOf(r, d).ops))
      case Fire(d, i) =>
        var expiry := DogOf(s, d).waits[i].expiry;
        && s.now >= expiry
        && r == SetDog(s, d, DogOf(s, d).(waits := [Wait(expiry, Succeeded)]))
      case _ => true
  {
    hide PumpValid, DogInv;
    match e
    case Tick(_) =>
    case Fire(d, i) => ConnectedOps(s, d, i); OneOp(DogOf(s, d).waits, i);
    case Arrive(d, i, data) =>
      ConnectedOps(s, d, i);
      OneOp(PumpOf(s, d).ops, i);
      assert (data + PumpOf(s, d).buffer[|data|..])[..|data|] == data;
    case Send(d, i, _) => ConnectedOps(s, d, i); OneOp(PumpOf(s, d).ops, i);
    case WriteDone(d, i) => ConnectedOps(s, d, i); OneOp(PumpOf(s, d).ops, i);
    case IoError(d, i) => ConnectedOps(s, d, i); OneOp(PumpOf(s, d).ops, i);
    case _ =>
  }

  // ---- What is received can be delivered ----------------------------------------------------------

  /** Everything received so far in direction `d`, and no more, is written. */
  ghost predicate Delivers(s: Session, es: seq<Event>, d: Dir) {
    && LegalRun(s, es)
    && PumpOf(After(s, es), d).received == PumpOf(s, d).received == PumpOf(After(s, es), d).written
  }

  /** An open session whose operation in direction `d` has not failed delivers without any
      failure and without closing. */
  lemma DeliverAll(s: Session, d: Dir) returns (es: seq<Event>)
    requires Inv(s) && s.clientOpen && s.phase.Connected? && !PumpOf(s, d).ops[0].status.Failed?
    ensures Delivers(s, es, d) && After(s, es).clientOpen && forall e :: e in es ==> !e.IoError? && !e.Arrive?
  {
    var op := PumpOf(s, d).ops[0];
    if op.Receive? && op.status.Succeeded? {
      var handle := HandleIo(d, 0);
      ReceivedThenWrites(s, d, 0);
      StepKeepsInv(s, handle);
      var s1 := Apply(s, handle);
      var rest := SendRest(s1, d);
      es := [handle] + rest;
      assert es[1..] == rest;
    } else if op.Write? && op.status.Pending? {
      es := SendRest(s, d);
    } else {
      es := [];
      NothingToDeliver(s, d);
    }
  }

  lemma NothingToDeliver(s: Session, d: Dir)
    requires Inv(s) && |PumpOf(s, d).ops| == 1
    requires
      var op := PumpOf(s, d).ops[0];
      if op.Receive? then !op.status.Succeeded? else op.sent == op.bytes
    ensures PumpOf(s, d).written == PumpOf(s, d).received
  {
    var p := PumpOf(s, d);
    if p.ops[0].Write? {
      assert p.buffer[p.ops[0].sent..p.ops[0].bytes] == [];
    }
  }

  lemma SendRest(s: Session, d: Dir) returns (es: seq<Event>)
    requires Inv(s) && s.clientOpen && |PumpOf(s, d).ops| == 1
    requires PumpOf(s, d).ops[0].Write? && PumpOf(s, d).ops[0].status.Pending?
    ensures Delivers(s, es, d) && After(s, es).clientOpen && forall e :: e in es ==> !e.IoError? && !e.Arrive?
  {
    var op := PumpOf(s, d).ops[0];
    var e := Send(d, 0, op.bytes - op.sent);
    assert Enabled(s, e);
    StepKeepsInv(s, e);
    StreamsGrow(s, e, d);
    OutsideStep(s, e);
    NothingToDeliver(Apply(s, e), d);
    es := [e];
    assert es[1..] == [];
  }

  /** The way to the target is cut before all was written. */
  ghost predicate Cut(s: Session, d: Dir) {
    && PumpOf(s, d).written != PumpOf(s, d).received
    && (!s.clientOpen || (|PumpOf(s, d).ops| == 1 && PumpOf(s, d).ops[0].status.Failed?))
  }

  lemma StepKeepsCut(s: Session, e: Event, d: Dir)
    requires Inv(s) && Enabled(s, e) && Cut(s, d)
    ensures Cut(Apply(s, e), d)
    ensures PumpOf(Apply(s, e), d).received == PumpOf(s, d).received
  {
    StreamsOnly(s, e, d);
    CutIsQuiet(s, d);
    if s.clientOpen {
      CutWhileOpen(s, e, d);
    } else {
      StoppedStepRank(s, e);
    }
  }

  lemma CutIsQuiet(s: Session, d: Dir)
    requires Inv(s) && Cut(s, d)
    ensures NothingPending(PumpOf(s, d))
  {
  }

  lemma CutWhileOpen(s: Session, e: Event, d: Dir)
    requires Inv(s) && s.clientOpen && Enabled(s, e) && Cut(s, d)
    ensures
      var r := Apply(s, e);
      !r.clientOpen || (|PumpOf(r, d).ops| == 1 && PumpOf(r, d).ops[0].status.Failed?)
  {
    hide PumpValid, DogInv, RunIoHandler, RunWaitHandler;
    ConnectedOps(s, d, 0);
    CutIsConnected(s, d);
    match e
    case HandleIo(c, i) =>
      if PumpOf(s, c).ops[i].status.Failed? {
        FailedIoStops(s, c, i);
      } else {
        NextStarted(s, c, i);
      }
    case HandleWait(c, i) =>
      if DogOf(s, c).waits[i].status.Failed? {
        CancelledWaitEnds(s, c, i);
      } else {
        FiredWaitStopsOrRearms(s, c, i);
      }
    case HandleConnect(_, _, _, _) => assert false;
    case _ => OutsideStep(s, e);
  }

  lemma CutIsConnected(s: Session, d: Dir)
    requires Inv(s) && Cut(s, d)
    ensures s.phase.Connected?
  {
  }

  lemma {:induction false} RunKeepsCut(s: Session, es: seq<Event>, d: Dir)
    requires Inv(s) && LegalRun(s, es) && Cut(s, d)
    ensures Cut(After(s, es), d)
    decreases |es|
  {
    if es != [] {
      StepKeepsInv(s, es[0]);
      StepKeepsCut(s, es[0], d);
      hide Inv, Apply, Enabled, Cut;
      RunKeepsCut(Apply(s, es[0]), es[1..], d);
    }
  }

  /** In every reachable state: what a direction has received can still be delivered if and
      only if it already is, or the session is open and the direction's operation has not
      failed. */
  lemma DeliverableIffNotCut(timeout: int, now: int, upBuffer: seq<bv8>, downBuffer: seq<bv8>, es: seq<Event>, d: Dir)
    requires |upBuffer| == |downBuffer| == BUFFER_SIZE
    requires LegalRun(Init(timeout, now, upBuffer, downBuffer), es)
    ensures
      var s := After(Init(timeout, now, upBuffer, downBuffer), es);
      (exists more :: Delivers(s, more, d)) <==>
      PumpOf(s, d).written == PumpOf(s, d).received
      || (s.clientOpen && |PumpOf(s, d).ops| == 1 && !PumpOf(s, d).ops[0].status.Failed?)
  {
    InitInv(timeout, now, upBuffer, downBuffer);
    RunKeepsInv(Init(timeout, now, upBuffer, downBuffer), es);
    var s := After(Init(timeout, now, upBuffer, downBuffer), es);
    if PumpOf(s, d).written == PumpOf(s, d).received {
      assert Delivers(s, [], d);
    } else {
      UndeliveredIsConnected(s, d);
      if s.clientOpen && !PumpOf(s, d).ops[0].status.Failed? {
        var more := DeliverAll(s, d);
      } else {
        forall more | LegalRun(s, more) ensures !Delivers(s, more, d) {
          RunKeepsCut(s, more, d);
        }
      }
    }
  }

  lemma UndeliveredIsConnected(s: Session, d: Dir)
    requires Inv(s) && PumpOf(s, d).written != PumpOf(s, d).received
    ensures s.phase.Connected? && (s.clientOpen ==> |PumpOf(s, d).ops| == 1)
  {
  }
}
