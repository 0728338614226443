/** One session of asio/proxy/server.cc: two pumps, two watchdogs and their shared stop.
    One step is one completion handler, or one event outside the program.

    Assumptions on Asio: each operation completes once and its handler runs once; closing a
    socket or cancelling a timer turns an operation that has not completed into an error and
    leaves a queued success alone; an operation on a closed socket fails; a timer never
    fires before its expiry; setting an expiry cancels a pending wait. One thread runs the
    context, the clock never goes back, and a successful receive delivers at least one byte. */
module ProxySession {

  const BUFFER_SIZE: nat := 1024

  /** Up carries bytes from the client to the server, Down the other way. */
  datatype Dir = Up | Down

  datatype Status = Pending | Succeeded | Failed

  /** An operation started and whose handler has not run. `bytes` is what a receive
      delivered or a write has to send, `sent` what a write has sent so far. */
  datatype IoOp =
    | Receive(bytes: nat, status: Status)
    | Write(bytes: nat, sent: nat, status: Status)

  datatype Pump = Pump(ops: seq<IoOp>, buffer: seq<bv8>, received: seq<bv8>, written: seq<bv8>)

  /** A timer wait: Succeeded once it has fired, Failed once cancelled. */
  datatype Wait = Wait(expiry: int, status: Status)

  /** `checks` are the times at which the watchdog looked at its deadline and re-armed. */
  datatype Watchdog = Watchdog(waits: seq<Wait>, deadline: int, checks: seq<int>)

  datatype Phase = Connecting | Refused | Connected

  datatype Session = Session(
    timeout: int,
    now: int,
    phase: Phase,
    clientOpen: bool,
    serverOpen: bool,
    up: Pump,
    down: Pump,
    dog1: Watchdog,
    dog2: Watchdog)

  function Init(timeout: int, now: int, upBuffer: seq<bv8>, downBuffer: seq<bv8>): Session {
    Session(timeout, now, Connecting, true, true, Pump([], upBuffer, [], []), Pump([], downBuffer, [], []),
      Watchdog([], 0, []), Watchdog([], 0, []))
  }

  function PumpOf(s: Session, d: Dir): Pump { if d.Up? then s.up else s.down }
  function DogOf(s: Session, d: Dir): Watchdog { if d.Up? then s.dog1 else s.dog2 }
  function SetPump(s: Session, d: Dir, p: Pump): Session { if d.Up? then s.(up := p) else s.(down := p) }
  function SetDog(s: Session, d: Dir, w: Watchdog): Session { if d.Up? then s.(dog1 := w) else s.(dog2 := w) }
  predicate SourceOpen(s: Session, d: Dir) { if d.Up? then s.clientOpen else s.serverOpen }
  predicate TargetOpen(s: Session, d: Dir) { if d.Up? then s.serverOpen else s.clientOpen }

  function RemoveAt<T>(s: seq<T>, i: nat): seq<T>
    requires i < |s|
  {
    s[..i] + s[i + 1..]
  }

  // ---- The program ----------------------------------------------------------------------

  function Delayed(s: Session, w: Watchdog): Watchdog {
    w.(deadline := s.now + s.timeout)
  }

  function FailIo(op: IoOp): IoOp {
    if op.status.Pending? then op.(status := Failed) else op
  }

  function CancelWait(w: Wait): Wait {
    if w.status.Pending? then w.(status := Failed) else w
  }

  function FailAll(p: Pump): Pump {
    p.(ops := seq(|p.ops|, i requires 0 <= i < |p.ops| => FailIo(p.ops[i])))
  }

  function CancelAll(w: Watchdog): Watchdog {
    w.(waits := seq(|w.waits|, i requires 0 <= i < |w.waits| => CancelWait(w.waits[i])))
  }

  function Stop(s: Session): Session {
    s.(clientOpen := false, serverOpen := false,
       up := FailAll(s.up), down := FailAll(s.down),
       dog1 := CancelAll(s.dog1), dog2 := CancelAll(s.dog2))
  }

  function StartOp(s: Session, d: Dir, op: IoOp): Session {
    var p := PumpOf(s, d);
    SetDog(SetPump(s, d, p.(ops := p.ops + [op])), d, Delayed(s, DogOf(s, d)))
  }

  /** receive_from_client and receive_from_server. */
  function StartReceive(s: Session, d: Dir): Session {
    StartOp(s, d, Receive(0, if SourceOpen(s, d) then Pending else Failed))
  }

  /** send_to_server and send_to_client. */
  function StartWrite(s: Session, d: Dir, bytes: nat): Session {
    StartOp(s, d, Write(bytes, 0, if TargetOpen(s, d) then Pending else Failed))
  }

  /** watchdog::start with the session's stop as callback. */
  function CheckDog(s: Session, d: Dir): Session {
    var w := DogOf(s, d);
    if s.now >= w.deadline then Stop(s)
    else
      SetDog(s, d, w.(waits := CancelAll(w).waits + [Wait(w.deadline, Pending)], checks := w.checks + [s.now]))
  }

  function Pass(s: Session, dt: nat): Session {
    s.(now := s.now + dt)
  }

  /** The body of handle_connect on success. It reads the clock four times, and time may
      pass between the readings. */
  function Begin(s: Session, dt1: nat, dt2: nat, dt3: nat): Session {
    var received := StartReceive(Pass(StartReceive(s, Up), dt1), Down);
    CheckDog(Pass(CheckDog(Pass(received, dt2), Up), dt3), Down)
  }

  // ---- Steps ----------------------------------------------------------------------------

  datatype Event =
    | Tick(dt: nat)
    | Arrive(d: Dir, i: nat, data: seq<bv8>)   // a receive completes
    | Send(d: Dir, i: nat, n: nat)             // a write makes progress
    | WriteDone(d: Dir, i: nat)
    | IoError(d: Dir, i: nat)
    | Fire(d: Dir, i: nat)                     // a timer expires
    | HandleConnect(ok: bool, dt1: nat, dt2: nat, dt3: nat)
    | HandleIo(d: Dir, i: nat)
    | HandleWait(d: Dir, i: nat)

  predicate IsHandler(e: Event) {
    e.HandleConnect? || e.HandleIo? || e.HandleWait?
  }

  predicate Enabled(s: Session, e: Event) {
    match e
    case Tick(_) => true
    case Arrive(d, i, data) =>
      var p := PumpOf(s, d);
      && i < |p.ops| && p.ops[i].Receive? && p.ops[i].status.Pending?
      && 1 <= |data| <= |p.buffer|
    case Send(d, i, n) =>
      var p := PumpOf(s, d);
      && i < |p.ops| && p.ops[i].Write? && p.ops[i].status.Pending?
      && p.ops[i].sent + n <= p.ops[i].bytes <= |p.buffer|
    case WriteDone(d, i) =>
      var p := PumpOf(s, d);
      i < |p.ops| && p.ops[i].Write? && p.ops[i].status.Pending? && p.ops[i].sent == p.ops[i].bytes
    case IoError(d, i) => i < |PumpOf(s, d).ops| && PumpOf(s, d).ops[i].status.Pending?
    case Fire(d, i) =>
      var w := DogOf(s, d);
      i < |w.waits| && w.waits[i].status.Pending? && s.now >= w.waits[i].expiry
    case HandleConnect(_, _, _, _) => s.phase.Connecting?
    case HandleIo(d, i) => i < |PumpOf(s, d).ops| && !PumpOf(s, d).ops[i].status.Pending?
    case HandleWait(d, i) => i < |DogOf(s, d).waits| && !DogOf(s, d).waits[i].status.Pending?
  }

  function RunIoHandler(s: Session, d: Dir, i: nat): Session
    requires Enabled(s, HandleIo(d, i))
  {
    var p := PumpOf(s, d);
    var op := p.ops[i];
    var s1 := SetPump(s, d, p.(ops := RemoveAt(p.ops, i)));
    if op.status.Failed? then Stop(s1)
    else if op.Receive? then StartWrite(s1, d, op.bytes)
    else StartReceive(s1, d)
  }

  function RunWaitHandler(s: Session, d: Dir, i: nat): Session
    requires Enabled(s, HandleWait(d, i))
  {
    var w := DogOf(s, d);
    var s1 := SetDog(s, d, w.(waits := RemoveAt(w.waits, i)));
    if w.waits[i].status.Failed? then s1 else CheckDog(s1, d)
  }

  function SetOp(s: Session, d: Dir, i: nat, op: IoOp): Session
    requires i < |PumpOf(s, d).ops|
  {
    var p := PumpOf(s, d);
    SetPump(s, d, p.(ops := p.ops[i := op]))
  }

  function Apply(s: Session, e: Event): Session
    requires Enabled(s, e)
  {
    match e
    case Tick(dt) => Pass(s, dt)
    case Arrive(d, i, data) =>
      var p := PumpOf(s, d);
      SetPump(s, d, p.(ops := p.ops[i := Receive(|data|, Succeeded)],
        buffer := data + p.buffer[|data|..], received := p.received + data))
    case Send(d, i, n) =>
      var p := PumpOf(s, d);
      var op := p.ops[i];
      SetPump(s, d, p.(ops := p.ops[i := op.(sent := op.sent + n)],
        written := p.written + p.buffer[op.sent..op.sent + n]))
    case WriteDone(d, i) => SetOp(s, d, i, PumpOf(s, d).ops[i].(status := Succeeded))
    case IoError(d, i) => SetOp(s, d, i, PumpOf(s, d).ops[i].(status := Failed))
    case Fire(d, i) =>
      var w := DogOf(s, d);
      SetDog(s, d, w.(waits := w.waits[i := w.waits[i].(status := Succeeded)]))
    case HandleConnect(ok, dt1, dt2, dt3) =>
      if ok then Begin(s.(phase := Connected), dt1, dt2, dt3) else s.(phase := Refused)
    case HandleIo(d, i) => RunIoHandler(s, d, i)
    case HandleWait(d, i) => RunWaitHandler(s, d, i)
  }

  ghost predicate LegalRun(s: Session, es: seq<Event>)
    decreases |es|
  {
    es == [] || (Enabled(s, es[0]) && LegalRun(Apply(s, es[0]), es[1..]))
  }

  ghost function After(s: Session, es: seq<Event>): Session
    requires LegalRun(s, es)
    decreases |es|
  {
    if es == [] then s else After(Apply(s, es[0]), es[1..])
  }

  // ---- Invariant --------------------------------------------------------------------------

  /** What each stage of a pump has relayed: all but what its buffer still holds. */
  ghost predicate PumpValid(p: Pump) {
    && |p.buffer| == BUFFER_SIZE
    && |p.ops| <= 1
    && p.written <= p.received && |p.received| <= |p.written| + BUFFER_SIZE
    && (|p.ops| == 1 ==>
          match p.ops[0]
          case Receive(bytes, status) =>
            if status.Succeeded? then 1 <= bytes <= BUFFER_SIZE && p.received == p.written + p.buffer[..bytes]
            else p.received == p.written
          case Write(bytes, sent, status) =>
            && sent <= bytes <= BUFFER_SIZE && p.received == p.written + p.buffer[sent..bytes]
            && (status.Succeeded? ==> sent == bytes))
  }

  /** The armed expiry is the deadline, or the deadline has been moved since the last check;
      and every check comes a whole timeout after the last but one. */
  ghost predicate DogValid(w: Watchdog, now: int, timeout: int) {
    && |w.waits| <= 1
    && w.deadline <= now + timeout
    && Sparse(w.checks, timeout) && Ascending(w.checks)
    && (forall i :: 0 <= i < |w.checks| ==> w.checks[i] <= now)
    && (|w.waits| == 1 ==>
          var e := w.waits[0].expiry;
          && |w.checks| >= 1
          && e <= w.deadline
          && (w.waits[0].status.Succeeded? ==> e <= now)
          && (e == w.deadline || w.deadline >= w.checks[|w.checks| - 1] + timeout)
          && (|w.checks| >= 2 ==> e >= w.checks[|w.checks| - 2] + timeout))
  }

  ghost predicate Sparse(checks: seq<int>, timeout: int) {
    forall i :: 0 <= i < |checks| - 2 ==> checks[i + 2] >= checks[i] + timeout
  }

  ghost predicate Ascending(checks: seq<int>) {
    forall i, j :: 0 <= i <= j < |checks| ==> checks[i] <= checks[j]
  }

  ghost predicate DogInv(w: Watchdog, now: int, timeout: int) {
    (w.waits == [] && w.checks == []) || DogValid(w, now, timeout)
  }

  predicate NothingPending(p: Pump) {
    forall i :: 0 <= i < |p.ops| ==> !p.ops[i].status.Pending?
  }

  /** Before a connection nothing has been started. */
  predicate Idle(s: Session) {
    && s.up.ops == s.down.ops == [] && s.up.received == s.down.received == []
    && s.dog1.waits == s.dog2.waits == [] && s.dog1.checks == s.dog2.checks == []
  }

  /** While it is open, a connected session has one operation in each direction and both
      watchdogs armed. */
  predicate Busy(s: Session) {
    && |s.up.ops| == |s.down.ops| == |s.dog1.waits| == |s.dog2.waits| == 1
    && !s.dog1.waits[0].status.Failed? && !s.dog2.waits[0].status.Failed?
  }

  ghost predicate Inv(s: Session) {
    && PumpValid(s.up) && PumpValid(s.down)
    && DogInv(s.dog1, s.now, s.timeout) && DogInv(s.dog2, s.now, s.timeout)
    && s.clientOpen == s.serverOpen
    && (!s.phase.Connected? ==> s.clientOpen && Idle(s))
    && (s.phase.Connected? && s.clientOpen ==> Busy(s))
    && (!s.clientOpen ==> NothingPending(s.up) && NothingPending(s.down))
  }

  // ---- Parts of steps ----------------------------------------------------------------------

  lemma InitInv(timeout: int, now: int, upBuffer: seq<bv8>, downBuffer: seq<bv8>)
    requires |upBuffer| == |downBuffer| == BUFFER_SIZE
    ensures Inv(Init(timeout, now, upBuffer, downBuffer))
  {
  }

  lemma FailAllValid(p: Pump)
    requires PumpValid(p)
    ensures PumpValid(FailAll(p)) && NothingPending(FailAll(p)) && |FailAll(p).ops| == |p.ops|
  {
  }

  lemma CancelAllValid(w: Watchdog, now: int, timeout: int)
    requires DogInv(w, now, timeout)
    ensures DogInv(CancelAll(w), now, timeout) && |CancelAll(w).waits| == |w.waits|
  {
  }

  lemma DelayValid(s: Session, w: Watchdog)
    requires DogInv(w, s.now, s.timeout)
    ensures DogInv(Delayed(s, w), s.now, s.timeout)
  {
  }

  lemma TickValid(w: Watchdog, now: int, dt: nat, timeout: int)
    requires DogInv(w, now, timeout)
    ensures DogInv(w, now + dt, timeout)
  {
  }

  /** The re-arming check: had the deadline not moved since the last check, the fired wait
      would have found it reached; so it has moved, by a whole timeout from that check on. */
  lemma RearmValid(w: Watchdog, now: int, timeout: int)
    requires DogValid(w, now, timeout) && |w.waits| == 1 && w.waits[0].status.Succeeded?
    requires now < w.deadline
    ensures DogValid(w.(waits := [Wait(w.deadline, Pending)], checks := w.checks + [now]), now, timeout)
  {
  }

  /** Stopping closes both sockets and leaves nothing pending. */
  lemma StopKeepsInv(s: Session)
    requires PumpValid(s.up) && PumpValid(s.down) && s.phase.Connected?
    requires DogInv(s.dog1, s.now, s.timeout) && DogInv(s.dog2, s.now, s.timeout)
    ensures Inv(Stop(s))
  {
    FailAllValid(s.up);
    FailAllValid(s.down);
    CancelAllValid(s.dog1, s.now, s.timeout);
    CancelAllValid(s.dog2, s.now, s.timeout);
  }

  lemma OneOp<T>(s: seq<T>, i: nat)
    requires |s| <= 1 && i < |s|
    ensures i == 0 && RemoveAt(s, i) == [] && forall x :: s[i := x] == [x]
  {
  }

  lemma ArriveValid(p: Pump, data: seq<bv8>)
    requires PumpValid(p) && |p.ops| == 1 && p.ops[0].Receive? && p.ops[0].status.Pending?
    requires 1 <= |data| <= |p.buffer|
    ensures PumpValid(p.(ops := [Receive(|data|, Succeeded)],
      buffer := data + p.buffer[|data|..], received := p.received + data))
  {
    assert (data + p.buffer[|data|..])[..|data|] == data;
  }

  lemma SliceSplit<T>(s: seq<T>, i: nat, j: nat, k: nat)
    requires i <= j <= k <= |s|
    ensures s[i..k] == s[i..j] + s[j..k]
  {
  }

  lemma SendValid(p: Pump, n: nat)
    requires PumpValid(p) && |p.ops| == 1 && p.ops[0].Write? && p.ops[0].status.Pending?
    requires p.ops[0].sent + n <= p.ops[0].bytes
    ensures
      var op := p.ops[0];
      PumpValid(p.(ops := [op.(sent := op.sent + n)], written := p.written + p.buffer[op.sent..op.sent + n]))
  {
    var op := p.ops[0];
    SliceSplit(p.buffer, op.sent, op.sent + n, op.bytes);
  }

  /** The next operation of a pump after the success of the last. */
  lemma NextOpValid(p: Pump, status: Status)
    requires PumpValid(p) && |p.ops| == 1 && p.ops[0].status.Succeeded? && !status.Succeeded?
    ensures p.ops[0].Receive? ==> PumpValid(p.(ops := [Write(p.ops[0].bytes, 0, status)]))
    ensures p.ops[0].Write? ==> PumpValid(p.(ops := [Receive(0, status)]))
  {
    if p.ops[0].Write? {
      assert p.buffer[p.ops[0].sent..p.ops[0].bytes] == [];
    }
  }

  lemma NoOpValid(p: Pump)
    requires PumpValid(p)
    ensures PumpValid(p.(ops := []))
  {
  }

  // ---- Every step keeps the invariant -----------------------------------------------------------

  lemma PendingMeansOpen(s: Session, d: Dir, i: nat)
    requires Inv(s) && i < |PumpOf(s, d).ops| && PumpOf(s, d).ops[i].status.Pending?
    ensures s.clientOpen && s.phase.Connected? && |PumpOf(s, d).ops| == 1 && PumpValid(PumpOf(s, d))
  {
  }

  /** A pump that goes on with its one operation. */
  lemma PumpStepKeepsInv(s: Session, d: Dir, p: Pump)
    requires Inv(s) && s.clientOpen && s.phase.Connected? && PumpValid(p) && |p.ops| == 1
    ensures Inv(SetPump(s, d, p))
  {
    hide PumpValid, DogInv;
  }

  lemma ArriveKeepsInv(s: Session, d: Dir, i: nat, data: seq<bv8>)
    requires Inv(s) && Enabled(s, Arrive(d, i, data))
    ensures Inv(Apply(s, Arrive(d, i, data)))
  {
    hide PumpValid, DogInv, Inv;
    var p := PumpOf(s, d);
    PendingMeansOpen(s, d, i);
    OneOp(p.ops, i);
    ArriveValid(p, data);
    PumpStepKeepsInv(s, d, p.(ops := [Receive(|data|, Succeeded)],
      buffer := data + p.buffer[|data|..], received := p.received + data));
  }

  lemma SendKeepsInv(s: Session, d: Dir, i: nat, n: nat)
    requires Inv(s) && Enabled(s, Send(d, i, n))
    ensures Inv(Apply(s, Send(d, i, n)))
  {
    hide PumpValid, DogInv, Inv;
    var p := PumpOf(s, d);
    PendingMeansOpen(s, d, i);
    OneOp(p.ops, i);
    SendValid(p, n);
    var op := p.ops[0];
    PumpStepKeepsInv(s, d,
      p.(ops := [op.(sent := op.sent + n)], written := p.written + p.buffer[op.sent..op.sent + n]));
  }

  lemma EndValid(p: Pump, status: Status)
    requires PumpValid(p) && |p.ops| == 1 && p.ops[0].status.Pending?
    requires status.Failed? || (status.Succeeded? && p.ops[0].Write? && p.ops[0].sent == p.ops[0].bytes)
    ensures PumpValid(p.(ops := [p.ops[0].(status := status)]))
  {
  }

  lemma EndKeepsInv(s: Session, e: Event)
    requires Inv(s) && Enabled(s, e) && (e.WriteDone? || e.IoError?)
    ensures Inv(Apply(s, e))
  {
    hide PumpValid, DogInv, Inv;
    var p := PumpOf(s, e.d);
    var status := if e.WriteDone? then Succeeded else Failed;
    PendingMeansOpen(s, e.d, e.i);
    OneOp(p.ops, e.i);
    EndValid(p, status);
    PumpStepKeepsInv(s, e.d, p.(ops := [p.ops[0].(status := status)]));
  }

  lemma TickKeepsInv(s: Session, dt: nat)
    requires Inv(s)
    ensures Inv(Apply(s, Tick(dt)))
  {
    hide PumpValid, DogInv;
    TickValid(s.dog1, s.now, dt, s.timeout);
    TickValid(s.dog2, s.now, dt, s.timeout);
  }

  lemma FireValid(w: Watchdog, now: int, timeout: int)
    requires DogInv(w, now, timeout) && |w.waits| == 1 && now >= w.waits[0].expiry
    ensures DogInv(w.(waits := [w.waits[0].(status := Succeeded)]), now, timeout)
  {
  }

  lemma FireKeepsInv(s: Session, d: Dir, i: nat)
    requires Inv(s) && Enabled(s, Fire(d, i))
    ensures Inv(Apply(s, Fire(d, i)))
  {
    hide PumpValid, DogInv;
    ConnectedOps(s, d, i);
    OneOp(DogOf(s, d).waits, i);
    FireValid(DogOf(s, d), s.now, s.timeout);
  }

  lemma FailedIoKeepsInv(s: Session, d: Dir, i: nat)
    requires Inv(s) && Enabled(s, HandleIo(d, i)) && PumpOf(s, d).ops[i].status.Failed?
    ensures Inv(RunIoHandler(s, d, i))
  {
    hide PumpValid, DogInv;
    var p := PumpOf(s, d);
    ConnectedOps(s, d, i);
    OneOp(p.ops, i);
    NoOpValid(p);
    StopKeepsInv(SetPump(s, d, p.(ops := [])));
  }

  lemma ConnectedOps(s: Session, d: Dir, i: nat)
    requires Inv(s)
    ensures |PumpOf(s, d).ops| <= 1 && |DogOf(s, d).waits| <= 1
    ensures i < |PumpOf(s, d).ops| || i < |DogOf(s, d).waits| ==> s.phase.Connected?
  {
  }

  /** Starting an operation in a pump that has none. */
  lemma StartOpKeepsInv(s: Session, d: Dir, op: IoOp)
    requires PumpValid(s.up) && PumpValid(s.down) && s.phase.Connected?
    requires DogInv(s.dog1, s.now, s.timeout) && DogInv(s.dog2, s.now, s.timeout)
    requires s.clientOpen == s.serverOpen && PumpOf(s, d).ops == []
    requires PumpValid(PumpOf(s, d).(ops := [op])) && (op.status.Pending? ==> s.clientOpen)
    requires !s.clientOpen ==> NothingPending(s.up) && NothingPending(s.down)
    requires s.clientOpen ==> Busy(SetPump(s, d, PumpOf(s, d).(ops := [op])))
    ensures Inv(StartOp(s, d, op))
  {
    hide PumpValid, DogInv;
    DelayValid(s, DogOf(s, d));
    assert [] + [op] == [op];
  }

  lemma DoneIoKeepsInv(s: Session, d: Dir, i: nat)
    requires Inv(s) && Enabled(s, HandleIo(d, i)) && PumpOf(s, d).ops[i].status.Succeeded?
    ensures Inv(RunIoHandler(s, d, i))
  {
    hide PumpValid, DogInv;
    var p := PumpOf(s, d);
    var op := p.ops[i];
    ConnectedOps(s, d, i);
    OneOp(p.ops, i);
    NoOpValid(p);
    NextOpValid(p, Pending);
    NextOpValid(p, Failed);
    var s1 := SetPump(s, d, p.(ops := []));
    var status := if s.clientOpen then Pending else Failed;
    StartOpKeepsInv(s1, d, if op.Receive? then Write(op.bytes, 0, status) else Receive(0, status));
  }

  lemma CancelNothing(w: Watchdog)
    requires w.waits == []
    ensures CancelAll(w) == w
  {
  }

  /** A watchdog that goes on, or ends in a session that is closed. */
  lemma SetDogKeepsInv(s: Session, d: Dir, w: Watchdog)
    requires Inv(s) && s.phase.Connected? && DogInv(w, s.now, s.timeout)
    requires s.clientOpen ==> |w.waits| == 1 && !w.waits[0].status.Failed?
    ensures Inv(SetDog(s, d, w))
  {
    hide PumpValid, DogInv;
  }

  lemma WaitsOf(s: Session, d: Dir)
    requires Inv(s)
    ensures DogInv(DogOf(s, d), s.now, s.timeout)
    ensures s.clientOpen && |DogOf(s, d).waits| == 1 ==> !DogOf(s, d).waits[0].status.Failed?
  {
    hide PumpValid, DogInv;
  }

  lemma CheckStopsInv(s: Session, d: Dir, w: Watchdog)
    requires Inv(s) && s.phase.Connected? && DogInv(w, s.now, s.timeout)
    ensures Inv(Stop(SetDog(s, d, w)))
  {
    hide PumpValid, DogInv;
    StopKeepsInv(SetDog(s, d, w));
  }

  lemma DoneWaitValid(w: Watchdog, now: int, timeout: int)
    requires DogInv(w, now, timeout)
    ensures DogInv(w.(waits := []), now, timeout)
    ensures w.waits != [] ==> DogValid(w, now, timeout)
  {
  }

  lemma WaitHandlerKeepsInv(s: Session, d: Dir, i: nat)
    requires Inv(s) && Enabled(s, HandleWait(d, i))
    ensures Inv(RunWaitHandler(s, d, i))
  {
    hide PumpValid, DogInv, DogValid, Inv;
    var w := DogOf(s, d);
    ConnectedOps(s, d, i);
    WaitsOf(s, d);
    OneOp(w.waits, i);
    var w1 := w.(waits := []);
    DoneWaitValid(w, s.now, s.timeout);
    if w.waits[i].status.Failed? {
      SetDogKeepsInv(s, d, w1);
    } else if s.now >= w.deadline {
      CheckStopsInv(s, d, w1);
    } else {
      CancelNothing(w1);
      RearmValid(w, s.now, s.timeout);
      var armed := w.(waits := [Wait(w.deadline, Pending)], checks := w.checks + [s.now]);
      assert [] + [Wait(w.deadline, Pending)] == [Wait(w.deadline, Pending)];
      ValidIsInv(armed, s.now, s.timeout);
      SetDogKeepsInv(s, d, armed);
    }
  }

  lemma ValidIsInv(w: Watchdog, now: int, timeout: int)
    requires DogValid(w, now, timeout)
    ensures DogInv(w, now, timeout)
  {
    hide DogValid;
  }

  /** A session between its start and the end of handle_connect: both receives started. */
  ghost predicate Starting(s: Session) {
    && PumpValid(s.up) && PumpValid(s.down) && |s.up.ops| == |s.down.ops| == 1
    && DogInv(s.dog1, s.now, s.timeout) && DogInv(s.dog2, s.now, s.timeout)
    && s.phase.Connected? && s.clientOpen == s.serverOpen
    && (!s.clientOpen ==> NothingPending(s.up) && NothingPending(s.down))
  }

  lemma FirstArmValid(w: Watchdog, now: int, timeout: int)
    requires w.waits == [] && w.checks == [] && now < w.deadline <= now + timeout
    ensures DogInv(w.(waits := [Wait(w.deadline, Pending)], checks := [now]), now, timeout)
  {
  }

  lemma StopKeepsStarting(s: Session)
    requires Starting(s)
    ensures Starting(Stop(s))
  {
    hide PumpValid, DogInv;
    FailAllValid(s.up);
    FailAllValid(s.down);
    CancelAllValid(s.dog1, s.now, s.timeout);
    CancelAllValid(s.dog2, s.now, s.timeout);
  }

  /** The first check of a watchdog arms it or stops the session. */
  lemma FirstCheckKeepsStarting(s: Session, d: Dir)
    requires Starting(s) && DogOf(s, d).waits == [] && DogOf(s, d).checks == []
    requires DogOf(s, d).deadline <= s.now + s.timeout
    ensures
      var r := CheckDog(s, d);
      var w := DogOf(s, d);
      && Starting(r) && r.now == s.now && r.timeout == s.timeout
      && (r == Stop(s) || r == SetDog(s, d, w.(waits := [Wait(w.deadline, Pending)], checks := [s.now])))
  {
    hide PumpValid, DogInv;
    var w := DogOf(s, d);
    CancelNothing(w);
    if s.now >= w.deadline {
      StopKeepsStarting(s);
    } else {
      FirstArmValid(w, s.now, s.timeout);
      assert [] + [Wait(w.deadline, Pending)] == [Wait(w.deadline, Pending)];
      assert w.checks + [s.now] == [s.now];
    }
  }

  lemma PassKeepsStarting(s: Session, dt: nat)
    requires Starting(s)
    ensures Starting(Pass(s, dt))
  {
    hide PumpValid, DogInv;
    TickValid(s.dog1, s.now, dt, s.timeout);
    TickValid(s.dog2, s.now, dt, s.timeout);
  }

  lemma ReceivesStarted(s: Session, dt1: nat) returns (r: Session)
    requires Inv(s) && s.phase.Connecting?
    ensures r == StartReceive(Pass(StartReceive(s.(phase := Connected), Up), dt1), Down)
    ensures Starting(r) && r.clientOpen && r.timeout == s.timeout
    ensures r.dog1 == Watchdog([], s.now + s.timeout, []) && r.dog2 == Watchdog([], r.now + r.timeout, [])
    ensures r.now == s.now + dt1
  {
    r := StartReceive(Pass(StartReceive(s.(phase := Connected), Up), dt1), Down);
    assert [] + [Receive(0, Pending)] == [Receive(0, Pending)];
  }

  /** The start of a session: both receives, then both watchdogs. With a short timeout either
      check may already stop it, and after a stop the other watchdog may still be armed. */
  lemma BeginKeepsInv(s: Session, dt1: nat, dt2: nat, dt3: nat)
    requires Inv(s) && s.phase.Connecting?
    ensures Inv(Begin(s.(phase := Connected), dt1, dt2, dt3))
  {
    hide PumpValid, DogInv, Starting, CheckDog;
    var s1 := ReceivesStarted(s, dt1);
    PassKeepsStarting(s1, dt2);
    FirstCheckKeepsStarting(Pass(s1, dt2), Up);
    var s2 := CheckDog(Pass(s1, dt2), Up);
    CancelNothing(s1.dog2);
    PassKeepsStarting(s2, dt3);
    FirstCheckKeepsStarting(Pass(s2, dt3), Down);
    StartedKeepsInv(CheckDog(Pass(s2, dt3), Down));
  }

  lemma StartedKeepsInv(s: Session)
    requires Starting(s)
    requires s.clientOpen ==> Busy(s)
    ensures Inv(s)
  {
    hide PumpValid, DogInv;
  }

  /** When that happens: exactly when the first deadline has passed at the first check and
      the second has not at the second. */
  lemma ArmedAfterStopIff(timeout: int, now: int, upBuffer: seq<bv8>, downBuffer: seq<bv8>,
      dt1: nat, dt2: nat, dt3: nat)
    ensures
      var s := Apply(Init(timeout, now, upBuffer, downBuffer), HandleConnect(true, dt1, dt2, dt3));
      (!s.clientOpen && exists i :: 0 <= i < |s.dog2.waits| && s.dog2.waits[i].status.Pending?)
      <==> dt1 + dt2 >= timeout && dt2 + dt3 < timeout
  {
    var s0 := Init(timeout, now, upBuffer, downBuffer).(phase := Connected);
    var s1 := Pass(StartReceive(Pass(StartReceive(s0, Up), dt1), Down), dt2);
    CancelNothing(s1.dog1);
    CancelNothing(s1.dog2);
    var s2 := Pass(CheckDog(s1, Up), dt3);
    var r := CheckDog(s2, Down);
    assert s2.dog2 == s1.dog2 && s2.now == now + dt1 + dt2 + dt3;
    if s2.now < s2.dog2.deadline {
      assert r.dog2.waits == [Wait(s2.dog2.deadline, Pending)];
      assert r.dog2.waits[0].status.Pending?;
    } else {
      assert r == Stop(s2);
    }
  }

  lemma StepKeepsInv(s: Session, e: Event)
    requires Inv(s) && Enabled(s, e)
    ensures Inv(Apply(s, e))
  {
    match e
    case Tick(dt) => TickKeepsInv(s, dt);
    case Fire(d, i) => FireKeepsInv(s, d, i);
    case HandleConnect(ok, dt1, dt2, dt3) =>
      if ok {
        BeginKeepsInv(s, dt1, dt2, dt3);
      }
    case HandleIo(d, i) =>
      if PumpOf(s, d).ops[i].status.Failed? {
        FailedIoKeepsInv(s, d, i);
      } else {
        DoneIoKeepsInv(s, d, i);
      }
    case HandleWait(d, i) => WaitHandlerKeepsInv(s, d, i);
    case Arrive(d, i, data) => ArriveKeepsInv(s, d, i, data);
    case Send(d, i, n) => SendKeepsInv(s, d, i, n);
    case _ => EndKeepsInv(s, e);
  }

  lemma {:induction false} RunKeepsInv(s: Session, es: seq<Event>)
    requires Inv(s) && LegalRun(s, es)
    ensures Inv(After(s, es))
    decreases |es|
  {
    if es != [] {
      StepKeepsInv(s, es[0]);
      RunKeepsInv(Apply(s, es[0]), es[1..]);
    }
  }

  // ---- Relay ----------------------------------------------------------------------------------

  /** In every reachable state, also after stop: each direction has written a prefix of what
      it received, short by at most one buffer; each has at most one operation on its buffer,
      so each socket at most one receive and one write; and a direction that is about to
      receive again has written everything. */
  lemma EveryRunRelays(timeout: int, now: int, upBuffer: seq<bv8>, downBuffer: seq<bv8>, es: seq<Event>, d: Dir)
    requires |upBuffer| == |downBuffer| == BUFFER_SIZE
    requires LegalRun(Init(timeout, now, upBuffer, downBuffer), es)
    ensures
      var p := PumpOf(After(Init(timeout, now, upBuffer, downBuffer), es), d);
      && p.written <= p.received && |p.received| <= |p.written| + BUFFER_SIZE
      && |p.ops| <= 1
      && (forall i :: 0 <= i < |p.ops| && p.ops[i].Receive? && !p.ops[i].status.Succeeded? ==> p.written == p.received)
  {
    InitInv(timeout, now, upBuffer, downBuffer);
    RunKeepsInv(Init(timeout, now, upBuffer, downBuffer), es);
  }

  // ---- Watchdogs ---------------------------------------------------------------------------------

  lemma {:induction false} RunKeepsTimeout(s: Session, es: seq<Event>)
    requires LegalRun(s, es)
    ensures After(s, es).timeout == s.timeout
    decreases |es|
  {
    if es != [] {
      StepKeepsTimeout(s, es[0]);
      hide Apply, Enabled;
      RunKeepsTimeout(Apply(s, es[0]), es[1..]);
    }
  }

  lemma {:induction false} SparseSpan(checks: seq<int>, timeout: int, i: nat, k: nat)
    requires Sparse(checks, timeout) && i + 2 * k < |checks|
    ensures checks[i + 2 * k] >= checks[i] + k * timeout
    decreases k
  {
    if k > 0 {
      SparseSpan(checks, timeout, i, k - 1);
      assert checks[(i + 2 * (k - 1)) + 2] >= checks[i + 2 * (k - 1)] + timeout;
      assert k * timeout == (k - 1) * timeout + timeout;
    }
  }

  lemma ChecksPerInterval(checks: seq<int>, timeout: int, i: nat, j: nat)
    requires Sparse(checks, timeout) && Ascending(checks) && timeout > 0 && i <= j < |checks|
    ensures (j - i - 1) * timeout <= 2 * (checks[j] - checks[i])
  {
    var k := (j - i) / 2;
    SparseSpan(checks, timeout, i, k);
    assert checks[i + 2 * k] <= checks[j];
    MulMonotone(j - i - 1, 2 * k, timeout);
  }

  lemma MulMonotone(a: int, b: int, c: int)
    requires a <= b && c > 0
    ensures a * c <= b * c
  {
    assert b * c == a * c + (b - a) * c;
  }

  /** However often `delay` is called, a watchdog re-arms sparsely: each check comes a whole
      timeout after the last but one, so between two checks the number of checks is bounded
      by twice the time over the timeout; and what is armed never lies beyond the deadline. */
  lemma EveryRunChecksSparsely(timeout: int, now: int, upBuffer: seq<bv8>, downBuffer: seq<bv8>, es: seq<Event>, d: Dir)
    requires |upBuffer| == |downBuffer| == BUFFER_SIZE
    requires LegalRun(Init(timeout, now, upBuffer, downBuffer), es)
    ensures
      var w := DogOf(After(Init(timeout, now, upBuffer, downBuffer), es), d);
      && (forall i :: 0 <= i < |w.checks| - 2 ==> w.checks[i + 2] >= w.checks[i] + timeout)
      && (forall i, j :: timeout > 0 && 0 <= i <= j < |w.checks| ==>
            (j - i - 1) * timeout <= 2 * (w.checks[j] - w.checks[i]))
      && (forall i :: 0 <= i < |w.waits| ==> w.waits[i].expiry <= w.deadline)
  {
    InitInv(timeout, now, upBuffer, downBuffer);
    RunKeepsInv(Init(timeout, now, upBuffer, downBuffer), es);
    RunKeepsTimeout(Init(timeout, now, upBuffer, downBuffer), es);
    var w := DogOf(After(Init(timeout, now, upBuffer, downBuffer), es), d);
    forall i, j | timeout > 0 && 0 <= i <= j < |w.checks|
      ensures (j - i - 1) * timeout <= 2 * (w.checks[j] - w.checks[i])
    {
      ChecksPerInterval(w.checks, timeout, i, j);
    }
  }

  /** The step starts an operation of direction `d`, at this time. */
  predicate Starts(s: Session, e: Event, d: Dir) {
    || (e.HandleConnect? && e.ok)
    || (e.HandleIo? && e.d == d && e.i < |PumpOf(s, d).ops| && PumpOf(s, d).ops[e.i].status.Succeeded?)
  }

  function StartTime(s: Session, e: Event, d: Dir): int {
    if e.HandleConnect? && d.Down? then s.now + e.dt1 else s.now
  }

  /** When a run last started an operation of direction `d`, or else `before`. */
  ghost function LastStart(s: Session, es: seq<Event>, d: Dir, before: int): int
    requires LegalRun(s, es)
    decreases |es|
  {
    if es == [] then before
    else LastStart(Apply(s, es[0]), es[1..], d, if Starts(s, es[0], d) then StartTime(s, es[0], d) else before)
  }

  lemma CheckKeepsDeadlines(s: Session, c: Dir, d: Dir)
    ensures DogOf(CheckDog(s, c), d).deadline == DogOf(s, d).deadline
    ensures CheckDog(s, c).timeout == s.timeout && CheckDog(s, c).now == s.now
  {
  }

  lemma StartDelays(s: Session, c: Dir, d: Dir, op: IoOp)
    ensures DogOf(StartOp(s, c, op), d).deadline == if c == d then s.now + s.timeout else DogOf(s, d).deadline
    ensures StartOp(s, c, op).timeout == s.timeout && StartOp(s, c, op).now == s.now
  {
  }

  lemma BeginDelays(s: Session, dt1: nat, dt2: nat, dt3: nat, d: Dir)
    ensures
      DogOf(Begin(s, dt1, dt2, dt3), d).deadline == s.timeout + (if d.Down? then s.now + dt1 else s.now)
  {
    hide CheckDog, StartOp;
    var up := Receive(0, if SourceOpen(s, Up) then Pending else Failed);
    StartDelays(s, Up, d, up);
    var s1 := Pass(StartReceive(s, Up), dt1);
    StartDelays(s1, Down, d, Receive(0, if SourceOpen(s1, Down) then Pending else Failed));
    var s2 := Pass(StartReceive(s1, Down), dt2);
    CheckKeepsDeadlines(s2, Up, d);
    CheckKeepsDeadlines(Pass(CheckDog(s2, Up), dt3), Down, d);
  }

  lemma HandlerDelays(s: Session, e: Event, d: Dir)
    requires Enabled(s, e) && (e.HandleIo? || e.HandleWait?)
    ensures
      DogOf(Apply(s, e), d).deadline ==
      if Starts(s, e, d) then StartTime(s, e, d) + s.timeout else DogOf(s, d).deadline
  {
    if e.HandleWait? {
      var w := DogOf(s, e.d);
      var s1 := SetDog(s, e.d, w.(waits := RemoveAt(w.waits, e.i)));
      CheckKeepsDeadlines(s1, e.d, d);
      hide CheckDog;
    }
  }

  /** A deadline moves exactly when an operation of its direction starts. */
  lemma StepMovesDeadline(s: Session, e: Event, d: Dir)
    requires Enabled(s, e)
    ensures
      DogOf(Apply(s, e), d).deadline ==
      if Starts(s, e, d) then StartTime(s, e, d) + s.timeout else DogOf(s, d).deadline
  {
    hide Begin, RunIoHandler, RunWaitHandler;
    match e
    case HandleConnect(ok, dt1, dt2, dt3) =>
      if ok {
        BeginDelays(s.(phase := Connected), dt1, dt2, dt3, d);
      }
    case HandleIo(_, _) => HandlerDelays(s, e, d);
    case HandleWait(_, _) => HandlerDelays(s, e, d);
    case _ =>
  }

  lemma {:induction false} DeadlineIsLastStart(s: Session, es: seq<Event>, d: Dir, before: int)
    requires LegalRun(s, es) && DogOf(s, d).deadline == before + s.timeout
    ensures DogOf(After(s, es), d).deadline == LastStart(s, es, d, before) + s.timeout
    decreases |es|
  {
    if es != [] {
      hide Apply, Enabled, Starts;
      StepMovesDeadline(s, es[0], d);
      StepKeepsTimeout(s, es[0]);
      DeadlineIsLastStart(Apply(s, es[0]), es[1..], d,
        if Starts(s, es[0], d) then StartTime(s, es[0], d) else before);
    }
  }

  lemma StepKeepsTimeout(s: Session, e: Event)
    requires Enabled(s, e)
    ensures Apply(s, e).timeout == s.timeout
  {
  }

  /** A watchdog whose timer has fired stops the session if and only if a whole timeout has
      passed since an operation of its own direction was last started. (An unset deadline is
      0, as if an operation had started a timeout before that.) */
  lemma StopsIffIdle(timeout: int, now: int, upBuffer: seq<bv8>, downBuffer: seq<bv8>, es: seq<Event>, d: Dir, i: nat)
    requires |upBuffer| == |downBuffer| == BUFFER_SIZE
    requires LegalRun(Init(timeout, now, upBuffer, downBuffer), es)
    requires
      var s := After(Init(timeout, now, upBuffer, downBuffer), es);
      s.clientOpen && i < |DogOf(s, d).waits| && DogOf(s, d).waits[i].status.Succeeded?
    ensures
      var s := After(Init(timeout, now, upBuffer, downBuffer), es);
      var last := LastStart(Init(timeout, now, upBuffer, downBuffer), es, d, -timeout);
      !Apply(s, HandleWait(d, i)).clientOpen <==> s.now >= last + timeout
  {
    DeadlineIsLastStart(Init(timeout, now, upBuffer, downBuffer), es, d, -timeout);
  }

  /** An open session is never left without an operation in some direction, nor without a
      watchdog over it. */
  lemma OpenSessionIsGuarded(timeout: int, now: int, upBuffer: seq<bv8>, downBuffer: seq<bv8>, es: seq<Event>)
    requires |upBuffer| == |downBuffer| == BUFFER_SIZE
    requires LegalRun(Init(timeout, now, upBuffer, downBuffer), es)
    ensures
      var s := After(Init(timeout, now, upBuffer, downBuffer), es);
      && s.clientOpen == s.serverOpen
      && (s.phase.Connected? && s.clientOpen ==> Busy(s))
      && (!s.clientOpen ==> NothingPending(s.up) && NothingPending(s.down))
  {
    InitInv(timeout, now, upBuffer, downBuffer);
    RunKeepsInv(Init(timeout, now, upBuffer, downBuffer), es);
  }

  // ---- After stop ------------------------------------------------------------------------------------

  /** Handlers that can still run for one pump and one watchdog of a stopped session. A queued
      success starts one more operation, which fails, and moves the deadline once more. */
  function PumpRank(p: Pump): nat {
    if p.ops == [] then 0 else if p.ops[0].status.Succeeded? then 3 else 1
  }

  function DogRank(w: Watchdog): nat {
    if w.waits == [] then 0
    else if w.waits[0].status.Failed? then 1
    else if w.waits[0].expiry < w.deadline then 3 else 2
  }

  function Rank(s: Session): nat {
    PumpRank(s.up) + PumpRank(s.down) + DogRank(s.dog1) + DogRank(s.dog2)
  }

  lemma StopLowersRank(s: Session)
    requires |s.dog1.waits| <= 1 && |s.dog2.waits| <= 1 && |s.up.ops| <= 1 && |s.down.ops| <= 1
    ensures Rank(Stop(s)) <= Rank(s)
    ensures Rank(Stop(s)) <= 12
  {
  }

  lemma DelayRank(s: Session, w: Watchdog)
    ensures DogRank(Delayed(s, w)) <= DogRank(w) + (if w.waits == [] then 0 else 1)
  {
  }

  lemma SetDogRank(s: Session, d: Dir, w: Watchdog)
    ensures Rank(SetDog(s, d, w)) == Rank(s) - DogRank(DogOf(s, d)) + DogRank(w)
  {
  }

  lemma SetPumpRank(s: Session, d: Dir, p: Pump)
    ensures Rank(SetPump(s, d, p)) == Rank(s) - PumpRank(PumpOf(s, d)) + PumpRank(p)
  {
  }

  /** After stop the next operation of a pump fails at once. */
  function NextFailed(op: IoOp): IoOp {
    if op.Receive? then Write(op.bytes, 0, Failed) else Receive(0, Failed)
  }

  lemma DoneIoAfterStop(s: Session, d: Dir)
    requires !SourceOpen(s, d) && !TargetOpen(s, d)
    requires |PumpOf(s, d).ops| == 1 && PumpOf(s, d).ops[0].status.Succeeded?
    ensures
      var p := PumpOf(s, d);
      RunIoHandler(s, d, 0) ==
      SetDog(SetPump(s, d, p.(ops := [NextFailed(p.ops[0])])), d, Delayed(s, DogOf(s, d)))
  {
    OneOp(PumpOf(s, d).ops, 0);
    assert [] + [NextFailed(PumpOf(s, d).ops[0])] == [NextFailed(PumpOf(s, d).ops[0])];
  }

  lemma FailedIo(s: Session, d: Dir)
    requires |PumpOf(s, d).ops| == 1 && PumpOf(s, d).ops[0].status.Failed?
    ensures RunIoHandler(s, d, 0) == Stop(SetPump(s, d, PumpOf(s, d).(ops := [])))
  {
    OneOp(PumpOf(s, d).ops, 0);
  }

  lemma IoHandlerLowersRank(s: Session, d: Dir, i: nat)
    requires Inv(s) && !s.clientOpen && Enabled(s, HandleIo(d, i))
    ensures Rank(RunIoHandler(s, d, i)) < Rank(s)
    ensures !RunIoHandler(s, d, i).clientOpen
  {
    hide Inv, Rank, DogRank, RunIoHandler;
    var p := PumpOf(s, d);
    ConnectedOps(s, Up, 0);
    ConnectedOps(s, Down, 0);
    if p.ops[i].status.Failed? {
      FailedIo(s, d);
      SetPumpRank(s, d, p.(ops := []));
      StopLowersRank(SetPump(s, d, p.(ops := [])));
    } else {
      ClosedNow(s, d);
      DoneIoAfterStop(s, d);
      var next := p.(ops := [NextFailed(p.ops[0])]);
      SetPumpRank(s, d, next);
      DelayRank(s, DogOf(s, d));
      SetDogRank(SetPump(s, d, next), d, Delayed(s, DogOf(s, d)));
    }
  }

  lemma ClosedNow(s: Session, d: Dir)
    requires Inv(s) && !s.clientOpen
    ensures !SourceOpen(s, d) && !TargetOpen(s, d)
  {
  }

  /** A watchdog that re-arms after stop has had its deadline moved since it was armed, and
      is now armed at the deadline itself. */
  lemma RearmLowersRank(w: Watchdog, now: int, timeout: int)
    requires DogInv(w, now, timeout) && |w.waits| == 1 && w.waits[0].status.Succeeded? && now < w.deadline
    ensures DogRank(w.(waits := [Wait(w.deadline, Pending)], checks := w.checks + [now])) < DogRank(w)
  {
  }

  lemma WaitHandlerLowersRank(s: Session, d: Dir, i: nat)
    requires Inv(s) && !s.clientOpen && Enabled(s, HandleWait(d, i))
    ensures Rank(RunWaitHandler(s, d, i)) < Rank(s)
    ensures !RunWaitHandler(s, d, i).clientOpen
  {
    hide PumpValid, DogInv, Inv, Rank;
    var w := DogOf(s, d);
    ConnectedOps(s, Up, 0);
    ConnectedOps(s, Down, 0);
    OneOp(w.waits, i);
    var w1 := w.(waits := []);
    var s1 := SetDog(s, d, w1);
    CancelNothing(w1);
    SetDogRank(s, d, w1);
    if w.waits[i].status.Succeeded? {
      if s.now >= w.deadline {
        StopLowersRank(s1);
      } else {
        DogInvOf(s, d);
        RearmLowersRank(w, s.now, s.timeout);
        var armed := w.(waits := [Wait(w.deadline, Pending)], checks := w.checks + [s.now]);
        assert [] + [Wait(w.deadline, Pending)] == [Wait(w.deadline, Pending)];
        SetDogRank(s, d, armed);
        assert RunWaitHandler(s, d, i) == SetDog(s, d, armed);
      }
    }
  }

  lemma DogInvOf(s: Session, d: Dir)
    requires Inv(s)
    ensures DogInv(DogOf(s, d), s.now, s.timeout)
  {
  }

  /** After the first stop every handler lowers the rank, and nothing else raises it. */
  lemma StoppedStepRank(s: Session, e: Event)
    requires Inv(s) && !s.clientOpen && Enabled(s, e)
    ensures !Apply(s, e).clientOpen
    ensures Rank(Apply(s, e)) <= Rank(s)
    ensures IsHandler(e) ==> Rank(Apply(s, e)) < Rank(s)
  {
    hide PumpValid, DogInv;
    match e
    case HandleIo(d, i) => IoHandlerLowersRank(s, d, i);
    case HandleWait(d, i) => WaitHandlerLowersRank(s, d, i);
    case Fire(d, i) =>
      ConnectedOps(s, d, i);
      OneOp(DogOf(s, d).waits, i);
    case _ =>
  }

  function Handlers(es: seq<Event>): nat {
    if es == [] then 0 else (if IsHandler(es[0]) then 1 else 0) + Handlers(es[1..])
  }

  /** So a stopped session runs at most 12 more handlers, whatever happens around it. */
  lemma {:induction false} FewHandlersAfterStop(s: Session, es: seq<Event>)
    requires Inv(s) && !s.clientOpen && LegalRun(s, es)
    ensures Handlers(es) + Rank(After(s, es)) <= Rank(s) <= 12
    ensures !After(s, es).clientOpen
    decreases |es|
  {
    assert Rank(s) <= 12 by {
      hide PumpValid, DogInv;
      StoppedRankBound(s);
    }
    if es != [] {
      StoppedStepRank(s, es[0]);
      StepKeepsInv(s, es[0]);
      FewHandlersAfterStop(Apply(s, es[0]), es[1..]);
    }
  }

  lemma StoppedRankBound(s: Session)
    ensures Rank(s) <= 12
  {
  }

  /** And until no handler is left to hold it, one can always be brought to run: at once, or
      when the clock reaches the expiry of a watchdog that re-armed. */
  lemma StoppedSessionMovesOn(s: Session) returns (es: seq<Event>)
    requires Inv(s) && !s.clientOpen && Rank(s) > 0
    ensures LegalRun(s, es) && Handlers(es) == 1
  {
    if d: Dir :| PumpOf(s, d).ops != [] {
      es := [HandleIo(d, 0)];
      assert LegalRun(Apply(s, es[0]), es[1..]);
    } else {
      assert PumpOf(s, Up).ops == [] && PumpOf(s, Down).ops == [];
      var d := if s.dog1.waits != [] then Up else Down;
      es := WaitHandlerRuns(s, d);
    }
  }

  lemma RunCons(s: Session, e: Event, es: seq<Event>)
    requires Enabled(s, e) && LegalRun(Apply(s, e), es)
    ensures LegalRun(s, [e] + es)
    ensures Handlers([e] + es) == (if IsHandler(e) then 1 else 0) + Handlers(es)
  {
    assert ([e] + es)[1..] == es;
  }

  lemma WaitHandlerRuns(s: Session, d: Dir) returns (es: seq<Event>)
    requires DogOf(s, d).waits != []
    ensures LegalRun(s, es) && Handlers(es) == 1
  {
    var wait := DogOf(s, d).waits[0];
    var handle := HandleWait(d, 0);
    if wait.status.Pending? {
      var tick := Tick(if wait.expiry > s.now then wait.expiry - s.now else 0);
      var fire := Fire(d, 0);
      var s1 := Apply(s, tick);
      assert DogOf(s1, d) == DogOf(s, d) && Enabled(s1, fire);
      var s2 := Apply(s1, fire);
      assert Enabled(s2, handle);
      hide Apply, Enabled;
      RunCons(s2, handle, []);
      RunCons(s1, fire, [handle] + []);
      RunCons(s, tick, [fire] + ([handle] + []));
      es := [tick] + ([fire] + ([handle] + []));
    } else {
      RunCons(s, handle, []);
      es := [handle] + [];
    }
  }

  lemma {:induction false} RunAppend(s: Session, es: seq<Event>, fs: seq<Event>)
    requires LegalRun(s, es) && LegalRun(After(s, es), fs)
    ensures LegalRun(s, es + fs) && After(s, es + fs) == After(After(s, es), fs)
    decreases |es|
  {
    if es == [] {
      assert es + fs == fs;
    } else {
      RunAppend(Apply(s, es[0]), es[1..], fs);
      assert (es + fs)[1..] == es[1..] + fs;
    }
  }

  /** No handler can run any more, however much time passes. */
  ghost predicate Quiescent(s: Session) {
    forall es :: LegalRun(s, es) ==> Handlers(es) == 0
  }

  /** However a stopped session has gone on, it has run out of handlers exactly when none
      holds it any more. As at most 12 run after stop, every run in which a handler that can
      run eventually does so ends in a session that is released. */
  lemma StoppedRunEndsReleased(s: Session, es: seq<Event>)
    requires Inv(s) && !s.clientOpen && LegalRun(s, es)
    ensures
      var r := After(s, es);
      Quiescent(r) <==> r.up.ops == r.down.ops == [] && r.dog1.waits == r.dog2.waits == []
    ensures Handlers(es) <= 12
  {
    hide Inv;
    var r := After(s, es);
    FewHandlersAfterStop(s, es);
    RunKeepsInv(s, es);
    RankZeroMeansReleased(r);
    if Rank(r) == 0 {
      forall fs | LegalRun(r, fs) ensures Handlers(fs) == 0 {
        FewHandlersAfterStop(r, fs);
      }
    } else {
      var fs := StoppedSessionMovesOn(r);
    }
  }

  /** And that state can be reached from every stopped session. */
  lemma {:induction false} StoppedSessionEnds(s: Session) returns (es: seq<Event>)
    requires Inv(s) && !s.clientOpen
    ensures LegalRun(s, es)
    ensures After(s, es).up.ops == After(s, es).down.ops == []
    ensures After(s, es).dog1.waits == After(s, es).dog2.waits == []
    decreases Rank(s)
  {
    RankZeroMeansReleased(s);
    if Rank(s) == 0 {
      es := [];
    } else {
      var first := StoppedSessionMovesOn(s);
      FewHandlersAfterStop(s, first);
      RunKeepsInv(s, first);
      var rest := StoppedSessionEnds(After(s, first));
      RunAppend(s, first, rest);
      es := first + rest;
    }
  }

  /** With nothing outstanding no handler holds the session any more. */
  lemma RankZeroMeansReleased(s: Session)
    requires Inv(s)
    ensures Rank(s) == 0 <==> s.up.ops == s.down.ops == [] && s.dog1.waits == s.dog2.waits == []
  {
  }
}
