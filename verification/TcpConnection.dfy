/** One connection on its loop thread: output path, half-close and life cycle, with level-triggered
    events (twnl/TcpConnection.cc). */
module TcpConnections {
  import opened Basics
  import opened Buffers
  import opened Channels

  const EWOULDBLOCK := 11
  const EPIPE := 32
  const ECONNRESET := 104

  /** How many bytes of a write the kernel takes. */
  function TakenOf(data: seq<byte>, io: Io): (n: nat)
    ensures n <= |data|
  {
    if io.Moves? then Min(io.max, |data|) else 0
  }

  datatype ConnState = Connecting | Connected | Disconnecting | Disconnected

  /** Which callbacks are set; highWaterMark is in bytes. queuesPending tells the two nestings of
      sendInLoop apart: in the code it is false and data sent while output is pending is dropped; as
      the comments want it, it is true and such data is queued. Results below hold for both. */
  datatype Config = Config(writeComplete: bool, highWater: bool, highWaterMark: nat, queuesPending: bool)

  predicate Faults(io: Io) {
    io.Fails? && (io.errno == EPIPE || io.errno == ECONNRESET)
  }

  /** A callback queued on the loop. */
  datatype Notice = WriteComplete | HighWater(length: nat)

  datatype Conn = Conn(
    state: ConnState,
    events: Mask,            // the channel's mask
    reading: bool,           // reading_
    output: seq<byte>,       // readable bytes of outputBuffer_
    wire: seq<byte>,         // bytes the kernel has taken
    accepted: seq<byte>,     // all sends the connection took charge of, in order
    submitted: seq<byte>,    // all sends made while connected
    shutdowns: seq<nat>,     // shutdownWrite calls, with the number of bytes on the wire before each
    forced: bool,            // forceClose has been called in time
    notices: seq<Notice>,
    ups: nat,                // connection callbacks with the connection up, and down
    downs: nat,
    closes: nat,             // close callbacks
    removals: nat)           // Channel::remove calls
  {
    predicate Writing() {
      IsWriting(LT, events)
    }

    /** Nothing is waiting to be written. */
    predicate IdleOutput() {
      !Writing() && output == []
    }

    predicate Open() {
      state.Connected? || state.Disconnecting?
    }

    // The operations.

    function ConnectEstablished(): (r: Result) {
      if !state.Connecting? then AssertionFails
      else Next(this.(state := Connected, events := WithReading(LT, events), ups := ups + 1))
    }

    /** The write on idle output, and what it took the connection in charge of. */
    function WriteDirectly(data: seq<byte>, io: Io, cfg: Config): Conn {
      var n := TakenOf(data, io);
      this.(wire := wire + data[..n], accepted := if Faults(io) then accepted else accepted + data)
          .Notify(cfg.writeComplete && io.Moves? && n == |data|, WriteComplete)
    }

    function SendOnIdle(data: seq<byte>, io: Io, cfg: Config): Conn {
      var c := WriteDirectly(data, io, cfg);
      if Faults(io) then c else c.BufferUp(data[TakenOf(data, io)..], cfg)
    }

    function QueueBehind(data: seq<byte>, cfg: Config): Conn {
      this.(accepted := accepted + data).BufferUp(data, cfg)
    }

    /** Writing is attempted on idle output only, and what is left over is buffered. */
    function SendInLoop(data: seq<byte>, io: Io, cfg: Config): Conn {
      if state.Disconnected? then this
      else if IdleOutput() then SendOnIdle(data, io, cfg)
      else if cfg.queuesPending then QueueBehind(data, cfg)
      else this
    }

    function Notify(due: bool, notice: Notice): Conn {
      if due then this.(notices := notices + [notice]) else this
    }

    function BufferUp(remaining: seq<byte>, cfg: Config): Conn {
      if remaining == [] then this
      else
        var length := |output| + |remaining|;
        var crossing := length >= cfg.highWaterMark && |output| < cfg.highWaterMark;
        var c := Notify(crossing && cfg.highWater, HighWater(length));
        c.(output := output + remaining, events := if Writing() then events else WithWriting(LT, events))
    }

    function Send(data: seq<byte>, io: Io, cfg: Config): Conn {
      if !state.Connected? then this
      else this.(submitted := submitted + data).SendInLoop(data, io, cfg)
    }

    function ShutdownInLoop(): Conn {
      if Writing() then this else this.(shutdowns := shutdowns + [|wire|])
    }

    function Shutdown(): Conn {
      if !state.Connected? then this else this.(state := Disconnecting).ShutdownInLoop()
    }

    /** n buffered bytes go to the wire. */
    function Drained(n: nat): Conn
      requires n <= |output|
    {
      this.(wire := wire + output[..n], output := output[n..])
    }

    function FinishWriting(cfg: Config): Conn {
      var d := this.(events := WithoutWriting(LT, events)).Notify(cfg.writeComplete, WriteComplete);
      if state.Disconnecting? then d.ShutdownInLoop() else d
    }

    function HandleWrite(io: Io, cfg: Config): Conn {
      if !Writing() || io.Fails? then this
      else
        var n := Min(io.max, |output|);
        if n == 0 || n < |output| then Drained(n) else Drained(n).FinishWriting(cfg)
    }

    function HandleClose(): Result {
      if !Open() then AssertionFails
      else Next(this.(state := Disconnected, events := NONE_EVENT, downs := downs + 1, closes := closes + 1))
    }

    /** A read that delivered bytes, hit the end of the stream, or failed. */
    function HandleRead(n: int): Result {
      if n == 0 then HandleClose() else Next(this)
    }

    function ForceClose(): Conn {
      if Open() then this.(state := Disconnecting, forced := true) else this
    }

    function ForceCloseInLoop(): Result {
      if Open() then HandleClose() else Next(this)
    }

    function StartRead(): Conn {
      if !reading || !IsReading(LT, events) then this.(events := WithReading(LT, events), reading := true) else this
    }

    function StopRead(): Conn {
      if reading || IsReading(LT, events) then this.(events := WithoutReading(LT, events), reading := false) else this
    }

    /** Channel::remove asserts an empty mask. */
    function ConnectDestroyed(): Result {
      var c := if state.Connected? then this.(state := Disconnected, events := NONE_EVENT, downs := downs + 1) else this;
      if c.events != NONE_EVENT then AssertionFails else Next(c.(removals := removals + 1))
    }
  }

  datatype Result = AssertionFails | Next(c: Conn)

  const FRESH := Conn(Connecting, NONE_EVENT, true, [], [], [], [], [], false, [], 0, 0, 0, 0)

  // ---------- Events and runs of one connection ----------

  datatype ConnEvent =
    | Establish
    | CallSend(data: seq<byte>, io: Io)
    | CallShutdown
    | CallForceClose
    | RunForceClose
    | CallStartRead
    | CallStopRead
    | Readable(n: int)
    | Writable(io: Io)
    | HangUp
    | Destroy

  /** The loop's side of the bargain: establish once; events are reported to an open connection,
      perhaps by a poll that returned before reading was stopped; reading is not restarted or stopped
      after the close; the queued close needs a request; destroy after the close. */
  predicate Legal(c: Conn, ev: ConnEvent) {
    match ev
    case Establish => c.state.Connecting?
    case Readable(_) => c.Open()
    case HangUp => c.Open()
    case CallStartRead => c.Open()
    case CallStopRead => c.Open()
    case RunForceClose => c.forced
    case Destroy => c.closes > c.removals
    case _ => true
  }

  function Step(c: Conn, ev: ConnEvent, cfg: Config): Result {
    match ev
    case Establish => c.ConnectEstablished()
    case CallSend(data, io) => Next(c.Send(data, io, cfg))
    case CallShutdown => Next(c.Shutdown())
    case CallForceClose => Next(c.ForceClose())
    case RunForceClose => c.ForceCloseInLoop()
    case CallStartRead => Next(c.StartRead())
    case CallStopRead => Next(c.StopRead())
    case Readable(n) => c.HandleRead(n)
    case Writable(io) => Next(c.HandleWrite(io, cfg))
    case HangUp => c.HandleClose()
    case Destroy => c.ConnectDestroyed()
  }

  // ---------- Invariants ----------

  /** While not disconnected, the channel asks for writability exactly when bytes are buffered. */
  predicate WatchesWhenBuffered(c: Conn) {
    !c.state.Disconnected? ==> (c.Writing() <==> c.output != [])
  }

  /** Bytes on the wire, then the buffered ones, are the accepted sends in order. */
  predicate StreamConserved(c: Conn) {
    c.wire + c.output == c.accepted
  }

  /** shutdownWrite at most once, with every accepted byte on the wire and none written after it. */
  predicate HalfCloseAfterDrain(c: Conn) {
    && |c.shutdowns| <= 1
    && (c.shutdowns != [] ==> c.shutdowns[0] == |c.wire| && c.wire == c.accepted
                              && (c.state.Disconnecting? || c.state.Disconnected?))
  }

  /** A drained connection that is shutting down, and not by force, has been half-closed. */
  predicate DrainedIsHalfClosed(c: Conn) {
    c.state.Disconnecting? && c.output == [] && !c.forced ==> c.shutdowns != []
  }

  /** Up once, then down once together with the close callback. In between the channel reads unless
      reading was stopped; no mask is left after the close. */
  predicate LifeCycle(c: Conn) {
    && (c.state.Connecting? <==> c.ups == 0) && c.ups <= 1
    && c.downs == c.closes == (if c.state.Disconnected? then 1 else 0)
    && (c.state.Connecting? || c.state.Disconnected? ==> c.events == NONE_EVENT)
    && (c.state.Connected? || c.state.Disconnecting? ==> (IsReading(LT, c.events) <==> c.reading))
    && (c.state.Connecting? ==> !c.forced && c.reading)
    && c.removals <= c.closes
  }

  predicate Inv(c: Conn) {
    WatchesWhenBuffered(c) && StreamConserved(c) && HalfCloseAfterDrain(c) && DrainedIsHalfClosed(c) && LifeCycle(c)
  }

  lemma NoMaskNoWriting()
    ensures !IsWriting(LT, NONE_EVENT) && !IsReading(LT, NONE_EVENT)
  {
    LevelTests(NONE_EVENT);
  }

  lemma SendConserves(c: Conn, data: seq<byte>, io: Io, cfg: Config)
    requires StreamConserved(c)
    ensures StreamConserved(c.SendInLoop(data, io, cfg))
  {
    if c.IdleOutput() {
      var n := TakenOf(data, io);
      var first, rest := data[..n], data[n..];
      assert data == first + rest && c.wire == c.accepted;
      assert (c.wire + first) + rest == c.wire + data;
    } else {
      Assoc(c.wire, c.output, data);
    }
  }

  lemma SendKeepsInv(c: Conn, data: seq<byte>, io: Io, cfg: Config)
    requires Inv(c)
    ensures Inv(c.Send(data, io, cfg))
  {
    if c.state.Connected? {
      var s := c.(submitted := c.submitted + data);
      assert StreamConserved(s.SendInLoop(data, io, cfg)) by { SendConserves(s, data, io, cfg); }
      SwitchesAreIndependent(c.events);
    }
  }

  lemma HandleWriteKeepsInv(c: Conn, io: Io, cfg: Config)
    requires Inv(c)
    ensures Inv(c.HandleWrite(io, cfg))
  {
    if c.Writing() && io.Moves? {
      var n := Min(io.max, |c.output|);
      NoMaskNoWriting();
      SwitchesAreIndependent(c.events);
      assert c.output == c.output[..n] + c.output[n..];
      assert (c.wire + c.output[..n]) + c.output[n..] == c.wire + c.output;
    }
  }

  /** A writable event gives the kernel the front of the buffer, as much as it takes. When that is all,
      the channel stops asking, the write-complete callback is queued if set, and a connection that is
      shutting down is half-closed. */
  lemma WritableWrites(c: Conn, max: nat, cfg: Config)
    requires Inv(c) && c.Open() && c.output != []
    ensures var c', n := c.HandleWrite(Moves(max), cfg), if max < |c.output| then max else |c.output|;
      && c'.wire == c.wire + c.output[..n] && c'.output == c.output[n..]
      && (c'.Writing() <==> n < |c.output|)
      && c'.notices == (if n == |c.output| && cfg.writeComplete then c.notices + [WriteComplete] else c.notices)
      && c'.shutdowns == (if n == |c.output| && c.state.Disconnecting? then c.shutdowns + [|c'.wire|] else c.shutdowns)
  {
    HandleWriteKeepsInv(c, Moves(max), cfg);
    NoMaskNoWriting();
    SwitchesAreIndependent(c.events);
  }

  lemma StepKeepsInv(c: Conn, ev: ConnEvent, cfg: Config)
    requires Inv(c) && Legal(c, ev)
    ensures Step(c, ev, cfg).Next? && Inv(Step(c, ev, cfg).c)
  {
    NoMaskNoWriting();
    SwitchesAreIndependent(c.events);
    match ev
    case CallSend(data, io) => SendKeepsInv(c, data, io, cfg);
    case Writable(io) => HandleWriteKeepsInv(c, io, cfg);
    case _ =>
  }

  /** What a connection's life is counted by. */
  predicate SameLife(k: Conn, k': Conn) {
    k'.state == k.state && k'.ups == k.ups && k'.closes == k.closes && k'.removals == k.removals && k'.forced == k.forced
  }

  lemma BufferUpKeepsLife(k: Conn, data: seq<byte>, cfg: Config)
    ensures SameLife(k, k.BufferUp(data, cfg))
  {
  }

  lemma SendOnIdleKeepsLife(k: Conn, data: seq<byte>, io: Io, cfg: Config)
    ensures SameLife(k, k.SendOnIdle(data, io, cfg))
  {
    var written := k.WriteDirectly(data, io, cfg);
    assert SameLife(k, written);
    BufferUpKeepsLife(written, data[TakenOf(data, io)..], cfg);
  }

  lemma QueueBehindKeepsLife(k: Conn, data: seq<byte>, cfg: Config)
    ensures SameLife(k, k.QueueBehind(data, cfg))
  {
    BufferUpKeepsLife(k.(accepted := k.accepted + data), data, cfg);
  }

  lemma SendKeepsLife(k: Conn, data: seq<byte>, io: Io, cfg: Config)
    ensures SameLife(k, k.Send(data, io, cfg))
  {
    var s := k.(submitted := k.submitted + data);
    SendOnIdleKeepsLife(s, data, io, cfg);
    QueueBehindKeepsLife(s, data, cfg);
  }

  lemma WriteKeepsLife(k: Conn, io: Io, cfg: Config)
    ensures SameLife(k, k.HandleWrite(io, cfg))
  {
  }

  lemma OutputKeepsLife(k: Conn, ev: ConnEvent, cfg: Config)
    requires ev.CallSend? || ev.Writable?
    ensures Step(k, ev, cfg).Next? && SameLife(k, Step(k, ev, cfg).c)
  {
    if ev.CallSend? {
      SendKeepsLife(k, ev.data, ev.io, cfg);
    } else {
      WriteKeepsLife(k, ev.io, cfg);
    }
  }

  // ---------- Whole runs ----------

  function After(c: Conn, ev: ConnEvent, cfg: Config): Conn {
    if !Legal(c, ev) then c
    else
      match Step(c, ev, cfg)
      case Next(c') => c'
      case AssertionFails => c
  }

  /** A run from the constructor. Illegal events do not happen. */
  function Run(events: seq<ConnEvent>, cfg: Config): Conn {
    if events == [] then FRESH else After(Run(events[..|events| - 1], cfg), events[|events| - 1], cfg)
  }

  lemma {:induction false} RunKeepsInv(events: seq<ConnEvent>, cfg: Config)
    ensures Inv(Run(events, cfg))
  {
    NoMaskNoWriting();
    if events != [] {
      RunKeepsInv(events[..|events| - 1], cfg);
      var c, ev := Run(events[..|events| - 1], cfg), events[|events| - 1];
      if Legal(c, ev) {
        StepKeepsInv(c, ev, cfg);
      }
    }
  }

  /** In every run no assertion of the connection fails, one event at a time. */
  lemma NoAssertionFails(events: seq<ConnEvent>, ev: ConnEvent, cfg: Config)
    requires Legal(Run(events, cfg), ev)
    ensures Step(Run(events, cfg), ev, cfg).Next?
  {
    RunKeepsInv(events, cfg);
    StepKeepsInv(Run(events, cfg), ev, cfg);
  }

  function AfterAll(c: Conn, events: seq<ConnEvent>, cfg: Config): Conn
    decreases |events|
  {
    if events == [] then c else AfterAll(After(c, events[0], cfg), events[1..], cfg)
  }

  lemma RunLast(events: seq<ConnEvent>, ev: ConnEvent, cfg: Config)
    ensures Run(events + [ev], cfg) == After(Run(events, cfg), ev, cfg)
  {
    assert (events + [ev])[..|events|] == events;
  }

  lemma JustEstablished(cfg: Config)
    ensures var c := Run([Establish], cfg);
      Inv(c) && c.state.Connected? && c.output == c.wire == c.submitted == []
  {
    RunKeepsInv([Establish], cfg);
    assert [] + [Establish] == [Establish];
    RunLast([], Establish, cfg);
  }

  lemma {:induction false} RunGoesOn(events: seq<ConnEvent>, more: seq<ConnEvent>, cfg: Config)
    ensures Run(events + more, cfg) == AfterAll(Run(events, cfg), more, cfg)
    decreases |more|
  {
    if more == [] {
      assert events + more == events;
    } else {
      RunLast(events, more[0], cfg);
      RunGoesOn(events + [more[0]], more[1..], cfg);
      assert events + [more[0]] + more[1..] == events + more;
    }
  }

  lemma {:induction false} AfterAllSplits(c: Conn, a: seq<ConnEvent>, b: seq<ConnEvent>, cfg: Config)
    ensures AfterAll(c, a + b, cfg) == AfterAll(AfterAll(c, a, cfg), b, cfg)
    decreases |a|
  {
    if a == [] {
      assert a + b == b;
    } else {
      AfterAllSplits(After(c, a[0], cfg), a[1..], b, cfg);
      assert (a + b)[0] == a[0] && (a + b)[1..] == a[1..] + b;
    }
  }

  // ---------- Output drains ----------

  function Writables(takes: seq<nat>): seq<ConnEvent> {
    if takes == [] then [] else [Writable(Moves(takes[0]))] + Writables(takes[1..])
  }

  lemma WritableKeepsRest(c: Conn, max: nat, cfg: Config)
    requires Inv(c) && c.Open() && max > 0
    ensures var c1 := After(c, Writable(Moves(max)), cfg);
      && Inv(c1) && c1.state == c.state && c1.forced == c.forced
      && c1.wire + c1.output == c.wire + c.output
      && |c1.output| <= (if c.output == [] then 0 else |c.output| - 1)
  {
    StepKeepsInv(c, Writable(Moves(max)), cfg);
    WriteKeepsLife(c, Moves(max), cfg);
    assert c.HandleWrite(Moves(max), cfg).accepted == c.accepted;
    if c.output != [] {
      WritableWrites(c, max, cfg);
    }
  }

  lemma {:induction false} OutputDrains(c: Conn, takes: seq<nat>, cfg: Config)
    requires Inv(c) && c.Open() && |takes| >= |c.output|
    requires forall k :: 0 <= k < |takes| ==> takes[k] > 0
    ensures var c' := AfterAll(c, Writables(takes), cfg);
      && Inv(c') && c'.output == [] && c'.wire == c.wire + c.output
      && c'.state == c.state && c'.forced == c.forced
    decreases |takes|
  {
    if takes != [] {
      WritableKeepsRest(c, takes[0], cfg);
      assert Writables(takes)[1..] == Writables(takes[1..]);
      OutputDrains(After(c, Writable(Moves(takes[0])), cfg), takes[1..], cfg);
    }
  }

  /** In every run, once the peer takes at least one byte at each writable event for as many events as
      bytes wait, all of them are on the wire; and a connection that is shutting down, not by force, is
      then half-closed behind them. */
  lemma EverythingIsSent(events: seq<ConnEvent>, takes: seq<nat>, cfg: Config)
    requires Run(events, cfg).Open() && |takes| >= |Run(events, cfg).output|
    requires forall k :: 0 <= k < |takes| ==> takes[k] > 0
    ensures var c, c' := Run(events, cfg), Run(events + Writables(takes), cfg);
      && c'.output == [] && c'.wire == c.wire + c.output
      && (c.state.Disconnecting? && !c.forced ==> c'.shutdowns == [|c'.wire|])
  {
    RunKeepsInv(events, cfg);
    RunGoesOn(events, Writables(takes), cfg);
    OutputDrains(Run(events, cfg), takes, cfg);
  }

  // ---------- One dispatch: several callbacks of the same connection in a row ----------

  const INSTALLED: set<Callback> := {CloseCallback, ErrorCallback, ReadCallback, WriteCallback}

  /** What the user's callbacks may call. */
  predicate IsCall(ev: ConnEvent) {
    ev.CallSend? || ev.CallShutdown? || ev.CallForceClose? || ev.CallStartRead? || ev.CallStopRead?
  }

  predicate AllCalls(events: seq<ConnEvent>) {
    forall ev :: ev in events ==> IsCall(ev)
  }

  /** n is the result of the read, io the kernel's decision on the write. The error callback only logs. */
  function RunCallback(c: Conn, cb: Callback, n: int, io: Io, cfg: Config): Result {
    match cb
    case CloseCallback => c.HandleClose()
    case ErrorCallback => Next(c)
    case ReadCallback => c.HandleRead(n)
    case WriteCallback => Next(c.HandleWrite(io, cfg))
  }

  function First(during: seq<seq<ConnEvent>>): seq<ConnEvent> {
    if during == [] then [] else during[0]
  }

  function Later(during: seq<seq<ConnEvent>>): seq<seq<ConnEvent>> {
    if during == [] then [] else during[1..]
  }

  /** The callbacks one after the other, each followed by the calls the user makes in it. */
  function Dispatch(c: Conn, cbs: seq<Callback>, n: int, io: Io, during: seq<seq<ConnEvent>>, cfg: Config): Result
    decreases |cbs|
  {
    if cbs == [] then Next(c)
    else
      match RunCallback(c, cbs[0], n, io, cfg)
      case AssertionFails => AssertionFails
      case Next(c') => Dispatch(AfterAll(c', First(during), cfg), cbs[1..], n, io, Later(during), cfg)
  }

  /** The same as single events. */
  function CallbackTrace(cb: Callback, n: int, io: Io): seq<ConnEvent> {
    match cb
    case CloseCallback => [HangUp]
    case ErrorCallback => []
    case ReadCallback => [Readable(n)]
    case WriteCallback => [Writable(io)]
  }

  function DispatchTrace(cbs: seq<Callback>, n: int, io: Io, during: seq<seq<ConnEvent>>): seq<ConnEvent>
    decreases |cbs|
  {
    if cbs == [] then []
    else CallbackTrace(cbs[0], n, io) + First(during) + DispatchTrace(cbs[1..], n, io, Later(during))
  }

  lemma CallKeepsOpen(c: Conn, call: ConnEvent, cfg: Config)
    requires Inv(c) && IsCall(call)
    ensures var c' := After(c, call, cfg);
      Inv(c') && (c'.Open() <==> c.Open()) && (c'.state.Connecting? <==> c.state.Connecting?)
  {
    if Legal(c, call) {
      StepKeepsInv(c, call, cfg);
    }
  }

  predicate AllPlain(events: seq<ConnEvent>) {
    forall ev :: ev in events ==> !ev.Establish? && !ev.Destroy? && !ev.RunForceClose?
  }

  /** A dispatch brings none of the events that come as functors. */
  lemma {:induction false} TraceIsPlain(cbs: seq<Callback>, n: int, io: Io, during: seq<seq<ConnEvent>>)
    requires forall i :: 0 <= i < |during| ==> AllCalls(during[i])
    ensures AllPlain(DispatchTrace(cbs, n, io, during))
    decreases |cbs|
  {
    if cbs != [] {
      TraceIsPlain(cbs[1..], n, io, Later(during));
      assert AllCalls(First(during));
    }
  }

  /** Calls neither open nor close a connection. */
  lemma {:induction false} CallsKeepOpen(c: Conn, calls: seq<ConnEvent>, cfg: Config)
    requires Inv(c) && AllCalls(calls)
    ensures var c' := AfterAll(c, calls, cfg);
      Inv(c') && (c'.Open() <==> c.Open()) && (c'.state.Connecting? <==> c.state.Connecting?)
    decreases |calls|
  {
    if calls != [] {
      assert calls[0] in calls && forall ev :: ev in calls[1..] ==> ev in calls;
      CallKeepsOpen(c, calls[0], cfg);
      CallsKeepOpen(After(c, calls[0], cfg), calls[1..], cfg);
    }
  }

  lemma AfterAllOne(c: Conn, ev: ConnEvent, cfg: Config)
    ensures AfterAll(c, [ev], cfg) == After(c, ev, cfg)
  {
    assert [ev][1..] == [];
  }

  /** One callback of an established connection. */
  lemma CallbackFails(c: Conn, cb: Callback, n: int, io: Io, cfg: Config)
    requires Inv(c) && !c.state.Connecting?
    ensures var r, closes := RunCallback(c, cb, n, io, cfg), cb.CloseCallback? || (cb.ReadCallback? && n == 0);
      && (r.AssertionFails? <==> closes && !c.Open())
      && (r.Next? ==> Inv(r.c) && !r.c.state.Connecting? && (r.c.Open() <==> c.Open() && !closes))
      && (r.Next? ==> r.c == AfterAll(c, CallbackTrace(cb, n, io), cfg))
  {
    match cb
    case CloseCallback =>
      if c.Open() { StepKeepsInv(c, HangUp, cfg); }
      AfterAllOne(c, HangUp, cfg);
    case ReadCallback =>
      if c.Open() { StepKeepsInv(c, Readable(n), cfg); }
      AfterAllOne(c, Readable(n), cfg);
    case WriteCallback =>
      StepKeepsInv(c, Writable(io), cfg);
      AfterAllOne(c, Writable(io), cfg);
    case ErrorCallback =>
  }

  ghost predicate InRankOrder(cbs: seq<Callback>) {
    forall i, j :: 0 <= i < j < |cbs| ==> cbs[i].Rank() < cbs[j].Rank()
  }

  lemma {:induction false} DispatchFails(c: Conn, cbs: seq<Callback>, n: int, io: Io, during: seq<seq<ConnEvent>>, cfg: Config)
    requires Inv(c) && !c.state.Connecting? && InRankOrder(cbs)
    requires forall i :: 0 <= i < |during| ==> AllCalls(during[i])
    ensures var ended := ReadCallback in cbs && n == 0;
      Dispatch(c, cbs, n, io, during, cfg).AssertionFails? <==>
      if c.Open() then CloseCallback in cbs && ended else CloseCallback in cbs || ended
    decreases |cbs|
  {
    if cbs != [] {
      var cb, rest := cbs[0], cbs[1..];
      assert cbs == [cb] + rest && forall x :: x in rest ==> x.Rank() > cb.Rank();
      CallbackFails(c, cb, n, io, cfg);
      var r := RunCallback(c, cb, n, io, cfg);
      if r.Next? {
        CallsKeepOpen(r.c, First(during), cfg);
        DispatchFails(AfterAll(r.c, First(during), cfg), rest, n, io, Later(during), cfg);
      }
    }
  }

  lemma {:induction false} DispatchIsRun(c: Conn, cbs: seq<Callback>, n: int, io: Io, during: seq<seq<ConnEvent>>, cfg: Config)
    requires Inv(c) && !c.state.Connecting?
    requires forall i :: 0 <= i < |during| ==> AllCalls(during[i])
    ensures var r := Dispatch(c, cbs, n, io, during, cfg);
      r.Next? ==> r.c == AfterAll(c, DispatchTrace(cbs, n, io, during), cfg)
    decreases |cbs|
  {
    if cbs != [] {
      CallbackFails(c, cbs[0], n, io, cfg);
      var r := RunCallback(c, cbs[0], n, io, cfg);
      if r.Next? {
        CallsKeepOpen(r.c, First(during), cfg);
        DispatchIsRun(AfterAll(r.c, First(during), cfg), cbs[1..], n, io, Later(during), cfg);
        AfterAllSplits(c, CallbackTrace(cbs[0], n, io), First(during), cfg);
        AfterAllSplits(c, CallbackTrace(cbs[0], n, io) + First(during), DispatchTrace(cbs[1..], n, io, Later(during)), cfg);
      }
    }
  }

  /** Whether the connection is still open afterwards. */
  lemma {:induction false} DispatchCloses(c: Conn, cbs: seq<Callback>, n: int, io: Io, during: seq<seq<ConnEvent>>, cfg: Config)
    requires Inv(c) && !c.state.Connecting?
    requires forall i :: 0 <= i < |during| ==> AllCalls(during[i])
    ensures var r := Dispatch(c, cbs, n, io, during, cfg);
      r.Next? ==> (r.c.Open() <==> c.Open() && CloseCallback !in cbs && !(ReadCallback in cbs && n == 0))
    decreases |cbs|
  {
    if cbs != [] {
      CallbackFails(c, cbs[0], n, io, cfg);
      var r := RunCallback(c, cbs[0], n, io, cfg);
      assert cbs == [cbs[0]] + cbs[1..];
      if r.Next? {
        CallsKeepOpen(r.c, First(during), cfg);
        DispatchCloses(AfterAll(r.c, First(during), cfg), cbs[1..], n, io, Later(during), cfg);
      }
    }
  }

  /** In every run, one dispatch on an open connection fails an assertion exactly if it reports a
      hang-up without input together with urgent or half-close data, and the read then finds the end
      of the stream, whatever the callbacks call. Otherwise it is itself a run of single events, so
      that all that is said of runs holds of it; and it closes the connection exactly on a hang-up
      without input, or when something is to be read and the stream is found ended. */
  lemma DispatchFailsExactly(events: seq<ConnEvent>, revents: Mask, n: int, io: Io, during: seq<seq<ConnEvent>>, cfg: Config)
    requires Run(events, cfg).Open()
    requires forall i :: 0 <= i < |during| ==> AllCalls(during[i])
    ensures var cbs := Dispatched(revents, INSTALLED, 4);
      var r := Dispatch(Run(events, cfg), cbs, n, io, during, cfg);
      && (r.AssertionFails? <==> HUP in revents && IN !in revents && (PRI in revents || RDHUP in revents) && n == 0)
      && (r.Next? ==> (r.c.Open() <==> !(HUP in revents && IN !in revents) && !(n == 0 && revents * {IN, PRI, RDHUP} != {})))
      && (r.Next? ==> r.c == Run(events + DispatchTrace(cbs, n, io, during), cfg))
  {
    var cbs := Dispatched(revents, INSTALLED, 4);
    RunKeepsInv(events, cfg);
    DispatchIsExact(revents, INSTALLED, 4);
    DispatchRuns(revents, INSTALLED);
    DispatchCloses(Run(events, cfg), cbs, n, io, during, cfg);
    DispatchFails(Run(events, cfg), cbs, n, io, during, cfg);
    DispatchIsRun(Run(events, cfg), cbs, n, io, during, cfg);
    RunGoesOn(events, DispatchTrace(cbs, n, io, during), cfg);
  }

  /** The failing case exists: a hang-up with half-close data and nothing left to read. */
  lemma CloseThenReadFails(cfg: Config)
    ensures Run([Establish], cfg).Open()
    ensures Dispatch(Run([Establish], cfg), Dispatched({HUP, RDHUP}, INSTALLED, 4), 0, Moves(0), [], cfg).AssertionFails?
  {
    JustEstablished(cfg);
    DispatchFailsExactly([Establish], {HUP, RDHUP}, 0, Moves(0), [], cfg);
  }

  // ---------- Forced closes ----------

  lemma {:induction false} ForcedStays(c: Conn, events: seq<ConnEvent>, cfg: Config)
    requires Inv(c) && c.forced && !c.state.Connecting?
    ensures var c' := AfterAll(c, events, cfg); Inv(c') && c'.forced && !c'.state.Connecting?
    decreases |events|
  {
    if events != [] {
      if Legal(c, events[0]) {
        StepKeepsInv(c, events[0], cfg);
      }
      ForcedStays(After(c, events[0], cfg), events[1..], cfg);
    }
  }

  /** Whatever happens between forceClose on an open connection and the queued close it asks for, the
      connection is closed afterwards, and has been closed and reported down exactly once. */
  lemma ForcedCloseCloses(before: seq<ConnEvent>, between: seq<ConnEvent>, cfg: Config)
    requires Run(before, cfg).Open()
    ensures var c := Run(before + [CallForceClose] + between + [RunForceClose], cfg);
      c.state.Disconnected? && c.closes == c.downs == 1 && c.events == NONE_EVENT
  {
    RunKeepsInv(before, cfg);
    RunLast(before, CallForceClose, cfg);
    RunKeepsInv(before + [CallForceClose], cfg);
    RunGoesOn(before + [CallForceClose], between, cfg);
    ForcedStays(Run(before + [CallForceClose], cfg), between, cfg);
    RunLast(before + [CallForceClose] + between, RunForceClose, cfg);
    StepKeepsInv(Run(before + [CallForceClose] + between, cfg), RunForceClose, cfg);
  }

  /** For every run of sends, partial writes, errors and writable events: nothing accepted is lost,
      repeated or reordered, and the channel watches for writability exactly while bytes wait. */
  lemma StreamConservation(events: seq<ConnEvent>, cfg: Config)
    ensures StreamConserved(Run(events, cfg)) && WatchesWhenBuffered(Run(events, cfg))
  {
    RunKeepsInv(events, cfg);
  }

  /** Whether shutdown comes while idle or with output pending: half-close at most once, after
      every accepted byte and before none; and it does come once the output has drained. */
  lemma HalfClose(events: seq<ConnEvent>, cfg: Config)
    ensures HalfCloseAfterDrain(Run(events, cfg)) && DrainedIsHalfClosed(Run(events, cfg))
  {
    RunKeepsInv(events, cfg);
  }

  // ---------- Which sends are accepted ----------

  /** A non-empty send is dropped if it meets pending output that it is not queued behind, or if the
      attempt to write it finds the peer gone. */
  predicate Drops(c: Conn, ev: ConnEvent, cfg: Config) {
    && ev.CallSend? && c.state.Connected? && ev.data != []
    && if c.output != [] then !cfg.queuesPending else Faults(ev.io)
  }

  predicate NoDrops(events: seq<ConnEvent>, cfg: Config) {
    forall k :: 0 <= k < |events| ==> !Drops(Run(events[..k], cfg), events[k], cfg)
  }

  lemma NoDropsPrefix(events: seq<ConnEvent>, cfg: Config)
    requires events != []
    ensures var n := |events| - 1;
      NoDrops(events, cfg) <==> NoDrops(events[..n], cfg) && !Drops(Run(events[..n], cfg), events[n], cfg)
  {
    var n := |events| - 1;
    var rest := events[..n];
    forall k | 0 <= k < n
      ensures rest[..k] == events[..k] && rest[k] == events[k]
    {
    }
    if NoDrops(rest, cfg) && !Drops(Run(rest, cfg), events[n], cfg) {
      forall k | 0 <= k < |events|
        ensures !Drops(Run(events[..k], cfg), events[k], cfg)
      {
        if k < n { assert !Drops(Run(rest[..k], cfg), rest[k], cfg); }
      }
    }
    if NoDrops(events, cfg) {
      forall k | 0 <= k < n
        ensures !Drops(Run(rest[..k], cfg), rest[k], cfg)
      {
        assert !Drops(Run(events[..k], cfg), events[k], cfg);
      }
    }
  }

  lemma SendAccepts(c: Conn, data: seq<byte>, io: Io, cfg: Config)
    requires Inv(c) && c.state.Connected?
    ensures var c' := c.Send(data, io, cfg);
      && c'.submitted == c.submitted + data
      && c'.accepted == if Drops(c, CallSend(data, io), cfg) then c.accepted else c.accepted + data
  {
    assert c.IdleOutput() <==> c.output == [];
  }

  lemma StepAccepts(c: Conn, ev: ConnEvent, cfg: Config)
    requires Inv(c) && Legal(c, ev)
    ensures var c', data := After(c, ev, cfg), if ev.CallSend? && c.state.Connected? then ev.data else [];
      && c'.submitted == c.submitted + data
      && c'.accepted == if Drops(c, ev, cfg) then c.accepted else c.accepted + data
  {
    match ev
    case CallSend(data, io) =>
      if c.state.Connected? {
        SendAccepts(c, data, io, cfg);
      }
    case _ =>
  }

  /** Everything sent on the open connection is accepted exactly when no send is dropped. In the
      code a send is dropped if it meets pending output, a broken pipe or a reset. */
  lemma {:induction false} AcceptedExactly(events: seq<ConnEvent>, cfg: Config)
    ensures Run(events, cfg).accepted == Run(events, cfg).submitted <==> NoDrops(events, cfg)
    ensures |Run(events, cfg).accepted| <= |Run(events, cfg).submitted|
    ensures |Run(events, cfg).accepted| == |Run(events, cfg).submitted| ==>
      Run(events, cfg).accepted == Run(events, cfg).submitted
  {
    if events != [] {
      var n := |events| - 1;
      AcceptedExactly(events[..n], cfg);
      NoDropsPrefix(events, cfg);
      RunKeepsInv(events[..n], cfg);
      var c := Run(events[..n], cfg);
      if Legal(c, events[n]) {
        StepAccepts(c, events[n], cfg);
      }
    }
  }

  /** What becomes of a send that meets pending output. */
  lemma SendWhilePending(c: Conn, data: seq<byte>, io: Io, cfg: Config)
    requires Inv(c) && c.state.Connected? && c.output != []
    ensures var c' := c.Send(data, io, cfg);
      && c'.wire == c.wire && c'.submitted == c.submitted + data
      && c'.output == if cfg.queuesPending then c.output + data else c.output
  {
  }

  /** What becomes of a send on idle output: the kernel takes what it takes, the rest is buffered. */
  lemma PartialSend(c: Conn, data: seq<byte>, max: nat, cfg: Config)
    requires Inv(c) && c.state.Connected? && c.output == []
    ensures var c', n := c.Send(data, Moves(max), cfg), if max < |data| then max else |data|;
      && c'.wire == c.wire + data[..n] && c'.submitted == c.submitted + data
      && c'.output == data[n..] && c'.state.Connected?
  {
    assert c.IdleOutput();
  }

  /** And if the kernel refuses: everything is buffered, or nothing if the peer is gone. */
  lemma RefusedSend(c: Conn, data: seq<byte>, errno: int, cfg: Config)
    requires Inv(c) && c.state.Connected? && c.output == []
    ensures var c' := c.Send(data, Fails(errno), cfg);
      && c'.wire == c.wire && c'.state.Connected?
      && c'.output == if errno == 32 || errno == 104 then [] else data
  {
    assert c.IdleOutput() && data[0..] == data;
  }

  /** For example: the kernel takes one byte of two; the next byte sent is neither written nor queued
      by the code as it is nested, and queued as the comments want it. */
  lemma SendWhilePendingIsLost(cfg: Config)
    ensures var c := Run([Establish] + [CallSend([1, 2], Moves(1))] + [CallSend([3], Moves(1))], cfg);
      c.wire == [1] && c.submitted == [1, 2, 3] && c.output == if cfg.queuesPending then [2, 3] else [2]
  {
    var first, second := CallSend([1, 2], Moves(1)), CallSend([3], Moves(1));
    RunLast([Establish], first, cfg);
    RunLast([Establish] + [first], second, cfg);
    RunKeepsInv([Establish] + [first], cfg);
    JustEstablished(cfg);
    PartialSend(Run([Establish], cfg), [1, 2], 1, cfg);
    SendWhilePending(Run([Establish] + [first], cfg), [3], Moves(1), cfg);
  }

  /** With the nesting the comments want, only a broken pipe or reset met by the write of a send on
      idle output drops anything: otherwise the wire and the buffer together hold all that was sent. */
  lemma IntendedNestingLosesNothing(events: seq<ConnEvent>, cfg: Config)
    requires cfg.queuesPending
    requires forall k :: 0 <= k < |events| && events[k].CallSend? ==> !Faults(events[k].io)
    ensures Run(events, cfg).wire + Run(events, cfg).output == Run(events, cfg).submitted
  {
    AcceptedExactly(events, cfg);
    StreamConservation(events, cfg);
  }

  // ---------- High-water and write-complete notices ----------

  function CountHighWater(notices: seq<Notice>): nat {
    if notices == [] then 0
    else CountHighWater(notices[..|notices| - 1]) + (if notices[|notices| - 1].HighWater? then 1 else 0)
  }

  function CountWriteComplete(notices: seq<Notice>): nat {
    if notices == [] then 0
    else CountWriteComplete(notices[..|notices| - 1]) + (if notices[|notices| - 1].WriteComplete? then 1 else 0)
  }

  lemma CountLast(notices: seq<Notice>, n: Notice)
    ensures CountHighWater(notices + [n]) == CountHighWater(notices) + (if n.HighWater? then 1 else 0)
    ensures CountWriteComplete(notices + [n]) == CountWriteComplete(notices) + (if n.WriteComplete? then 1 else 0)
  {
    assert (notices + [n])[..|notices|] == notices;
  }

  /** The buffered length goes from below the mark to the mark or above. */
  predicate Crosses(c: Conn, c': Conn, mark: nat) {
    |c.output| < mark <= |c'.output|
  }

  function Crossings(events: seq<ConnEvent>, cfg: Config): nat {
    if events == [] then 0
    else
      var rest := events[..|events| - 1];
      Crossings(rest, cfg) + (if Crosses(Run(rest, cfg), Run(events, cfg), cfg.highWaterMark) then 1 else 0)
  }

  /** How a send on idle output can end: nothing buffered, or something buffered and perhaps the mark crossed. */
  predicate EndsQuietly(c: Conn, c': Conn) {
    c'.output == [] && (c'.notices == c.notices || c'.notices == c.notices + [WriteComplete])
  }

  predicate EndsBuffered(c: Conn, c': Conn, cfg: Config) {
    c'.notices == if cfg.highWater && Crosses(c, c', cfg.highWaterMark) then c.notices + [HighWater(|c'.output|)] else c.notices
  }

  lemma SendEnds(c: Conn, data: seq<byte>, io: Io, cfg: Config)
    requires Inv(c) && c.state.Connected? && c.output == []
    ensures var c' := c.Send(data, io, cfg); EndsQuietly(c, c') || EndsBuffered(c, c', cfg)
  {
    var n := TakenOf(data, io);
    assert |data[n..]| == |data| - n;
  }

  /** The step leaves nothing outstanding where something was sent or buffered. */
  predicate Completes(c: Conn, c': Conn, ev: ConnEvent) {
    || (ev.CallSend? && c.state.Connected? && c.output == [] && ev.io.Moves? && c'.output == [])
    || (ev.Writable? && c.output != [] && c'.output == [])
  }

  lemma SendCompletes(c: Conn, data: seq<byte>, io: Io, cfg: Config)
    requires Inv(c) && c.state.Connected? && c.output == []
    ensures var c' := c.Send(data, io, cfg);
      && (cfg.writeComplete && io.Moves? && c'.output == [] ==> c'.notices == c.notices + [WriteComplete])
      && (!(cfg.writeComplete && io.Moves? && c'.output == []) ==> EndsBuffered(c, c', cfg))
  {
    SendEnds(c, data, io, cfg);
    var n := TakenOf(data, io);
    assert |data[n..]| == |data| - n;
  }

  /** The notices a step adds are the crossing and the completion it brings about. */
  predicate NoticesMatch(c: Conn, c': Conn, ev: ConnEvent, cfg: Config) {
    && CountHighWater(c'.notices) == CountHighWater(c.notices) + (if cfg.highWater && Crosses(c, c', cfg.highWaterMark) then 1 else 0)
    && CountWriteComplete(c'.notices) == CountWriteComplete(c.notices) + (if cfg.writeComplete && Completes(c, c', ev) then 1 else 0)
  }

  /** A send that does not find idle output: not connected, dropped, or queued behind what waits. */
  lemma SendElsewhere(c: Conn, data: seq<byte>, io: Io, cfg: Config)
    requires Inv(c) && !(c.state.Connected? && c.output == [])
    ensures EndsBuffered(c, c.Send(data, io, cfg), cfg)
  {
  }

  lemma CountsAfterSend(c: Conn, c': Conn, data: seq<byte>, io: Io, cfg: Config)
    requires
      var completes := cfg.writeComplete && Completes(c, c', CallSend(data, io));
      if completes then c'.notices == c.notices + [WriteComplete] else EndsBuffered(c, c', cfg)
    requires Completes(c, c', CallSend(data, io)) ==> !Crosses(c, c', cfg.highWaterMark)
    ensures NoticesMatch(c, c', CallSend(data, io), cfg)
  {
    CountLast(c.notices, WriteComplete);
    CountLast(c.notices, HighWater(|c'.output|));
  }

  lemma NoticesOfSend(c: Conn, data: seq<byte>, io: Io, cfg: Config)
    requires Inv(c)
    ensures NoticesMatch(c, c.Send(data, io, cfg), CallSend(data, io), cfg)
  {
    if c.state.Connected? && c.output == [] {
      SendCompletes(c, data, io, cfg);
    } else {
      SendElsewhere(c, data, io, cfg);
    }
    CountsAfterSend(c, c.Send(data, io, cfg), data, io, cfg);
  }

  lemma CountsAfterWrite(c: Conn, c': Conn, io: Io, cfg: Config)
    requires |c'.output| <= |c.output|
    requires c'.notices == if cfg.writeComplete && c.output != [] && c'.output == [] then c.notices + [WriteComplete] else c.notices
    ensures NoticesMatch(c, c', Writable(io), cfg)
  {
    CountLast(c.notices, WriteComplete);
  }

  /** A writable event never adds to the buffered bytes, and announces a completed drain. */
  lemma WriteEnds(c: Conn, io: Io, cfg: Config)
    requires Inv(c)
    ensures var c' := c.HandleWrite(io, cfg);
      && |c'.output| <= |c.output|
      && c'.notices == if cfg.writeComplete && c.output != [] && c'.output == [] then c.notices + [WriteComplete] else c.notices
  {
  }

  lemma NoticesOfWrite(c: Conn, io: Io, cfg: Config)
    requires Inv(c)
    ensures NoticesMatch(c, c.HandleWrite(io, cfg), Writable(io), cfg)
  {
    WriteEnds(c, io, cfg);
    CountsAfterWrite(c, c.HandleWrite(io, cfg), io, cfg);
  }

  lemma NoticesOfStep(c: Conn, ev: ConnEvent, cfg: Config)
    requires Inv(c) && Legal(c, ev)
    ensures NoticesMatch(c, After(c, ev, cfg), ev, cfg)
  {
    match ev
    case CallSend(data, io) => NoticesOfSend(c, data, io, cfg);
    case Writable(io) => NoticesOfWrite(c, io, cfg);
    case _ =>
  }

  /** Over any run the high-water callbacks queued are the upward crossings of the mark. */
  lemma {:induction false} HighWaterIsExact(events: seq<ConnEvent>, cfg: Config)
    ensures CountHighWater(Run(events, cfg).notices) == if cfg.highWater then Crossings(events, cfg) else 0
  {
    if events != [] {
      var rest := events[..|events| - 1];
      HighWaterIsExact(rest, cfg);
      RunKeepsInv(rest, cfg);
      if Legal(Run(rest, cfg), events[|events| - 1]) {
        NoticesOfStep(Run(rest, cfg), events[|events| - 1], cfg);
      }
    }
  }

  function Completions(events: seq<ConnEvent>, cfg: Config): nat {
    if events == [] then 0
    else
      var rest, ev := events[..|events| - 1], events[|events| - 1];
      Completions(rest, cfg) + (if Legal(Run(rest, cfg), ev) && Completes(Run(rest, cfg), Run(events, cfg), ev) then 1 else 0)
  }

  /** Over any run a write-complete callback is queued for each send or writable event that leaves
      nothing outstanding, and only then: every accepted byte is on the wire at that moment. */
  lemma {:induction false} WriteCompleteIsExact(events: seq<ConnEvent>, cfg: Config)
    ensures CountWriteComplete(Run(events, cfg).notices) == if cfg.writeComplete then Completions(events, cfg) else 0
    ensures events != [] && CountWriteComplete(Run(events, cfg).notices) > CountWriteComplete(Run(events[..|events| - 1], cfg).notices) ==>
      Run(events, cfg).wire == Run(events, cfg).accepted
  {
    RunKeepsInv(events, cfg);
    if events != [] {
      var rest := events[..|events| - 1];
      WriteCompleteIsExact(rest, cfg);
      RunKeepsInv(rest, cfg);
      if Legal(Run(rest, cfg), events[|events| - 1]) {
        NoticesOfStep(Run(rest, cfg), events[|events| - 1], cfg);
      }
    }
  }
}
