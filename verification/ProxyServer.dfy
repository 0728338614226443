/** The watchdog and session classes of asio/proxy/server.cc, with their fields updated in
    place. Each method is proved to take the step of ProxySession with the same name, so what
    is proved there of every run holds of these objects. */
module ProxyServer {

  import opened ProxySession
  import opened ProxySteps

  /** Fails the unfinished receives, or the unfinished writes, among the operations. */
  function FailKind(ops: seq<IoOp>, receives: bool): seq<IoOp> {
    seq(|ops|, i requires 0 <= i < |ops| => if ops[i].Receive? == receives then FailIo(ops[i]) else ops[i])
  }

  lemma FailBothKinds(p: Pump, first: bool)
    ensures FailKind(FailKind(p.ops, first), !first) == FailAll(p).ops
  {
    assert |FailKind(FailKind(p.ops, first), !first)| == |FailAll(p).ops|;
  }

  class WatchdogTimer {
    var waits: seq<Wait>
    var deadline: int
    ghost var checks: seq<int>

    ghost function Value(): Watchdog
      reads this
    {
      Watchdog(waits, deadline, checks)
    }

    constructor ()
      ensures Value() == Watchdog([], 0, [])
    {
      waits, deadline, checks := [], 0, [];
    }

    /** Arms the timer, or reports that the callback is due. */
    method Start(now: int) returns (expired: bool)
      modifies this
      ensures expired == (now >= old(deadline))
      ensures Value() == if expired then old(Value()) else
        old(Value()).(waits := CancelAll(old(Value())).waits + [Wait(old(deadline), Pending)],
                      checks := old(checks) + [now])
    {
      if now >= deadline {
        return true;
      }
      Stop();
      waits := waits + [Wait(deadline, Pending)];
      checks := checks + [now];
      expired := false;
    }

    method Stop()
      modifies this
      ensures Value() == CancelAll(old(Value()))
      ensures EndedDog(old(Value()), Value()) && NoWaitPending(Value())
    {
      var i := 0;
      while i < |waits|
        invariant 0 <= i <= |waits| == |old(waits)|
        invariant deadline == old(deadline) && checks == old(checks)
        invariant forall k :: 0 <= k < i ==> waits[k] == CancelWait(old(waits)[k])
        invariant forall k :: i <= k < |waits| ==> waits[k] == old(waits)[k]
      {
        waits := waits[i := CancelWait(waits[i])];
        i := i + 1;
      }
    }

    method Delay(now: int, dur: int)
      modifies this
      ensures Value() == old(Value()).(deadline := now + dur)
    {
      deadline := now + dur;
    }
  }

  /** A buffer takes in what a receive delivers. */
  method Deliver(buffer: array<bv8>, data: seq<bv8>)
    requires |data| <= buffer.Length
    modifies buffer
    ensures buffer[..] == data + old(buffer[..])[|data|..]
  {
    var i := 0;
    while i < |data|
      invariant 0 <= i <= |data|
      invariant forall k :: 0 <= k < i ==> buffer[k] == data[k]
      invariant forall k :: i <= k < buffer.Length ==> buffer[k] == old(buffer[k])
    {
      buffer[i] := data[i];
      i := i + 1;
    }
  }

  class Session {
    const timeout: int
    const watchdog1: WatchdogTimer
    const watchdog2: WatchdogTimer
    const clientBuffer: array<bv8>
    const serverBuffer: array<bv8>
    var now: int
    var phase: Phase
    var clientOpen: bool
    var serverOpen: bool
    var clientOps: seq<IoOp>   // operations on the client's buffer
    var serverOps: seq<IoOp>
    ghost var fromClient: seq<bv8>
    ghost var toServer: seq<bv8>
    ghost var fromServer: seq<bv8>
    ghost var toClient: seq<bv8>

    ghost const Footprint: set<object> := {this, watchdog1, watchdog2, clientBuffer, serverBuffer}

    ghost predicate Wired() {
      && watchdog1 != watchdog2 && clientBuffer != serverBuffer
      && clientBuffer.Length == serverBuffer.Length == BUFFER_SIZE
    }

    ghost function State(): ProxySession.Session
      reads Footprint
    {
      ProxySession.Session.Session(timeout, now, phase, clientOpen, serverOpen,
        Pump(clientOps, clientBuffer[..], fromClient, toServer),
        Pump(serverOps, serverBuffer[..], fromServer, toClient),
        watchdog1.Value(), watchdog2.Value())
    }

    ghost predicate Valid()
      reads Footprint
    {
      Wired() && Inv(State())
    }

    constructor (timeout: int, now: int)
      ensures Valid() && fresh(Footprint)
      ensures State() == Init(timeout, now, clientBuffer[..], serverBuffer[..])
    {
      this.timeout, this.now := timeout, now;
      watchdog1 := new WatchdogTimer();
      watchdog2 := new WatchdogTimer();
      clientBuffer := new bv8[BUFFER_SIZE];
      serverBuffer := new bv8[BUFFER_SIZE];
      phase, clientOpen, serverOpen := Connecting, true, true;
      clientOps, serverOps := [], [];
      fromClient, toServer, fromServer, toClient := [], [], [], [];
      new;
      InitInv(timeout, now, clientBuffer[..], serverBuffer[..]);
    }

    // ---- The program ----------------------------------------------------------------------

    method CloseClient()
      modifies this`clientOpen, this`clientOps, this`serverOps
      ensures !clientOpen
      ensures clientOps == FailKind(old(clientOps), true) && serverOps == FailKind(old(serverOps), false)
    {
      clientOpen := false;
      clientOps := FailKind(clientOps, true);
      serverOps := FailKind(serverOps, false);
    }

    method CloseServer()
      modifies this`serverOpen, this`clientOps, this`serverOps
      ensures !serverOpen
      ensures clientOps == FailKind(old(clientOps), false) && serverOps == FailKind(old(serverOps), true)
    {
      serverOpen := false;
      clientOps := FailKind(clientOps, false);
      serverOps := FailKind(serverOps, true);
    }

    method Stop()
      requires Wired()
      modifies Footprint
      ensures State() == ProxySession.Stop(old(State()))
      ensures Stopped(old(State()), State()) && NothingLeftToWaitFor(State())
    {
      StopStops(State());
      hide Stopped, NothingLeftToWaitFor, EndedDog, NoWaitPending;
      CloseClient();
      CloseServer();
      watchdog1.Stop();
      watchdog2.Stop();
      FailBothKinds(old(State()).up, true);
      FailBothKinds(old(State()).down, false);
    }

    method ReceiveFromClient()
      requires Wired()
      modifies Footprint
      ensures State() == StartReceive(old(State()), Up)
      ensures clientOps == old(clientOps) + [Receive(0, if clientOpen then Pending else Failed)]
      ensures serverOps == old(serverOps) && watchdog1.deadline == now + timeout
    {
      clientOps := clientOps + [Receive(0, if clientOpen then Pending else Failed)];
      watchdog1.Delay(now, timeout);
    }

    method SendToServer(bytes: nat)
      requires Wired()
      modifies Footprint
      ensures State() == StartWrite(old(State()), Up, bytes)
      ensures clientOps == old(clientOps) + [Write(bytes, 0, if serverOpen then Pending else Failed)]
      ensures serverOps == old(serverOps) && watchdog1.deadline == now + timeout
    {
      clientOps := clientOps + [Write(bytes, 0, if serverOpen then Pending else Failed)];
      watchdog1.Delay(now, timeout);
    }

    method ReceiveFromServer()
      requires Wired()
      modifies Footprint
      ensures State() == StartReceive(old(State()), Down)
      ensures serverOps == old(serverOps) + [Receive(0, if serverOpen then Pending else Failed)]
      ensures clientOps == old(clientOps) && watchdog2.deadline == now + timeout
    {
      serverOps := serverOps + [Receive(0, if serverOpen then Pending else Failed)];
      watchdog2.Delay(now, timeout);
    }

    method SendToClient(bytes: nat)
      requires Wired()
      modifies Footprint
      ensures State() == StartWrite(old(State()), Down, bytes)
      ensures serverOps == old(serverOps) + [Write(bytes, 0, if clientOpen then Pending else Failed)]
      ensures clientOps == old(clientOps) && watchdog2.deadline == now + timeout
    {
      serverOps := serverOps + [Write(bytes, 0, if clientOpen then Pending else Failed)];
      watchdog2.Delay(now, timeout);
    }

    method StartWatchdog(d: Dir)
      requires Wired()
      modifies Footprint
      ensures State() == CheckDog(old(State()), d)
    {
      var watchdog := if d.Up? then watchdog1 else watchdog2;
      var expired := watchdog.Start(now);
      if expired {
        Stop();
      }
    }

    method StartWatchdogs(dt: nat)
      requires Wired()
      modifies Footprint
      ensures State() == CheckDog(Pass(CheckDog(old(State()), Up), dt), Down)
    {
      hide ProxySession.CheckDog;
      StartWatchdog(Up);
      now := now + dt;
      StartWatchdog(Down);
    }

    // ---- Completion handlers ----------------------------------------------------------------

    method HandleConnect(ok: bool, dt1: nat, dt2: nat, dt3: nat)
      requires Wired() && Enabled(State(), Event.HandleConnect(ok, dt1, dt2, dt3))
      modifies Footprint
      ensures State() == Apply(old(State()), Event.HandleConnect(ok, dt1, dt2, dt3))
    {
      hide ProxySession.CheckDog, ProxySession.StartOp;
      if !ok {
        phase := Refused;
        return;
      }
      phase := Connected;
      ReceiveFromClient();
      now := now + dt1;
      ReceiveFromServer();
      now := now + dt2;
      StartWatchdogs(dt3);
    }

    /** handle_receive and handle_write of both directions. */
    method HandleIo(d: Dir, i: nat)
      requires Wired() && Enabled(State(), Event.HandleIo(d, i))
      modifies Footprint
      ensures State() == Apply(old(State()), Event.HandleIo(d, i))
    {
      hide ProxySession.Stop, ProxySession.StartOp;
      var op;
      if d.Up? {
        op := clientOps[i];
        clientOps := RemoveAt(clientOps, i);
      } else {
        op := serverOps[i];
        serverOps := RemoveAt(serverOps, i);
      }
      match (op.status.Failed?, op.Receive?, d)
      case (true, _, _) => Stop();
      case (false, true, Up) => SendToServer(op.bytes);
      case (false, false, Up) => ReceiveFromClient();
      case (false, true, Down) => SendToClient(op.bytes);
      case (false, false, Down) => ReceiveFromServer();
    }

    /** handle_wait: a cancelled wait ends, one that fired looks at the deadline again. */
    method HandleWait(d: Dir, i: nat)
      requires Wired() && Enabled(State(), Event.HandleWait(d, i))
      modifies Footprint
      ensures State() == Apply(old(State()), Event.HandleWait(d, i))
    {
      hide ProxySession.CheckDog;
      var watchdog := if d.Up? then watchdog1 else watchdog2;
      var wait := watchdog.waits[i];
      watchdog.waits := RemoveAt(watchdog.waits, i);
      if !wait.status.Failed? {
        StartWatchdog(d);
      }
    }

    // ---- What happens outside the program -----------------------------------------------------

    method Arrive(d: Dir, i: nat, data: seq<bv8>)
      requires Wired() && Enabled(State(), Event.Arrive(d, i, data))
      modifies Footprint
      ensures State() == Apply(old(State()), Event.Arrive(d, i, data))
    {
      if d.Up? {
        Deliver(clientBuffer, data);
        clientOps := clientOps[i := Receive(|data|, Succeeded)];
        fromClient := fromClient + data;
      } else {
        Deliver(serverBuffer, data);
        serverOps := serverOps[i := Receive(|data|, Succeeded)];
        fromServer := fromServer + data;
      }
    }

    method Send(d: Dir, i: nat, n: nat)
      requires Wired() && Enabled(State(), Event.Send(d, i, n))
      modifies Footprint
      ensures State() == Apply(old(State()), Event.Send(d, i, n))
    {
      if d.Up? {
        var op := clientOps[i];
        toServer := toServer + clientBuffer[..][op.sent..op.sent + n];
        clientOps := clientOps[i := op.(sent := op.sent + n)];
      } else {
        var op := serverOps[i];
        toClient := toClient + serverBuffer[..][op.sent..op.sent + n];
        serverOps := serverOps[i := op.(sent := op.sent + n)];
      }
    }

    method Complete(d: Dir, i: nat, ok: bool)
      requires Wired() && Enabled(State(), if ok then WriteDone(d, i) else IoError(d, i))
      modifies Footprint
      ensures State() == Apply(old(State()), if ok then WriteDone(d, i) else IoError(d, i))
    {
      var status := if ok then Succeeded else Failed;
      if d.Up? {
        clientOps := clientOps[i := clientOps[i].(status := status)];
      } else {
        serverOps := serverOps[i := serverOps[i].(status := status)];
      }
    }

    method Fire(d: Dir, i: nat)
      requires Wired() && Enabled(State(), Event.Fire(d, i))
      modifies Footprint
      ensures State() == Apply(old(State()), Event.Fire(d, i))
    {
      var watchdog := if d.Up? then watchdog1 else watchdog2;
      watchdog.waits := watchdog.waits[i := watchdog.waits[i].(status := Succeeded)];
    }

    // ---- Runs -----------------------------------------------------------------------------------

    method Step(e: Event)
      requires Valid() && Enabled(State(), e)
      modifies Footprint
      ensures Valid() && State() == Apply(old(State()), e)
    {
      hide ProxySession.Inv, ProxySession.Apply, ProxySession.Enabled;
      StepKeepsInv(State(), e);
      match e
      case Tick(dt) =>
        now := now + dt;
        assert State() == Apply(old(State()), e) by { TickApplied(old(State()), dt); }
      case Arrive(d, i, data) => Arrive(d, i, data);
      case Send(d, i, n) => Send(d, i, n);
      case WriteDone(d, i) => Complete(d, i, true);
      case IoError(d, i) => Complete(d, i, false);
      case Fire(d, i) => Fire(d, i);
      case HandleConnect(ok, dt1, dt2, dt3) => HandleConnect(ok, dt1, dt2, dt3);
      case HandleIo(d, i) => HandleIo(d, i);
      case HandleWait(d, i) => HandleWait(d, i);
    }

    /** The object follows every legal run of the model, so all that is proved of runs holds
        of it. */
    method Replay(es: seq<Event>)
      requires Valid() && LegalRun(State(), es)
      modifies Footprint
      ensures Valid() && State() == After(old(State()), es)
    {
      hide ProxySession.Inv, ProxySession.Apply, ProxySession.Enabled;
      var k := 0;
      while k < |es|
        invariant 0 <= k <= |es| && Valid()
        invariant LegalRun(State(), es[k..]) && After(State(), es[k..]) == After(old(State()), es)
      {
        assert es[k..][0] == es[k] && es[k..][1..] == es[k + 1..];
        Step(es[k]);
        k := k + 1;
      }
    }
  }

  lemma TickApplied(s: ProxySession.Session, dt: nat)
    ensures Apply(s, Tick(dt)) == s.(now := s.now + dt)
  {
  }
}
