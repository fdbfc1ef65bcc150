/** The connection as an object over its two buffers (twnl/TcpConnection.cc). Every method is proved
    against the operation of the same name in TcpConnections and keeps the invariants proved there;
    what it means for the buffers and the peer is said beside. */
module TcpConnectionObjects {
  import opened Basics
  import opened Buffers
  import opened Channels
  import opened TcpConnections

  /** The output buffer's indices when its length has changed: bytes were buffered behind the others,
      or written from the front. None where the room assertion of append fails. */
  function Refilled(out: Shape, before: nat, after: nat): (r: Option<Shape>)
    requires out.Valid() && out.Readable() == before
    ensures r.Some? ==> r.value.Valid() && r.value.Readable() == after
  {
    if after < before then Some(Written(out, before - after))
    else if after == before then Some(out)
    else if Trap(out, after - before) then None
    else Some(Appended(out, after - before))
  }

  class TcpConnection {
    const cfg: Config
    const inputBuffer: Buffer
    const outputBuffer: Buffer
    var state: ConnState
    var events: Mask
    var reading: bool

    // The socket, and what has happened so far.
    var wire: seq<byte>
    var shutdowns: seq<nat>
    var forced: bool
    var notices: seq<Notice>
    ghost var accepted: seq<byte>
    ghost var submitted: seq<byte>
    var ups: nat
    var downs: nat
    var closes: nat
    var removals: nat

    ghost predicate Sound()
      reads this, inputBuffer, outputBuffer
    {
      && inputBuffer.Valid() && outputBuffer.Valid()
      && inputBuffer != outputBuffer && inputBuffer.data != outputBuffer.data
    }

    ghost function View(): Conn
      requires outputBuffer.Valid()
      reads this, outputBuffer, outputBuffer.data
    {
      Conn(state, events, reading, outputBuffer.Contents(), wire, accepted, submitted, shutdowns, forced, notices,
           ups, downs, closes, removals)
    }

    /** Sound buffers, and the connection's invariant: stream conserved, half-close only after the
        drain, writability watched exactly while bytes wait, and the life in order. */
    ghost predicate Valid()
      reads this, inputBuffer, outputBuffer, outputBuffer.data
    {
      Sound() && Inv(View())
    }

    predicate IsOpen()
      reads this
    {
      state == Connected || state == Disconnecting
    }

    constructor (cfg: Config, size: nat, guard: Guard)
      ensures Valid() && View() == FRESH && this.cfg == cfg
      ensures inputBuffer.Contents() == [] && inputBuffer.Geometry() == outputBuffer.Geometry() == Shape(0, 0, size, guard)
      ensures fresh(inputBuffer) && fresh(outputBuffer) && fresh(inputBuffer.data) && fresh(outputBuffer.data)
    {
      this.cfg := cfg;
      inputBuffer := new Buffer(size, guard);
      outputBuffer := new Buffer(size, guard);
      state, events, reading := TcpConnections.ConnState.Connecting, NONE_EVENT, true;
      wire, shutdowns, notices, accepted, submitted, forced := [], [], [], [], [], false;
      ups, downs, closes, removals := 0, 0, 0, 0;
      new;
      NoMaskNoWriting();
    }

    /** The one up callback; the channel waits for input, and for nothing else. */
    method ConnectEstablished()
      requires Valid() && state.Connecting?
      modifies this
      ensures Valid() && Next(View()) == old(View()).ConnectEstablished()
      ensures state.Connected? && ups == 1 && downs == 0
      ensures IsReading(LT, events) && !IsWriting(LT, events)
    {
      StepKeepsInv(View(), Establish, cfg);
      SwitchesAreIndependent(events);
      NoMaskNoWriting();
      state := Connected;
      events := WithReading(LT, events);
      ups := ups + 1;
    }

    /** The attempt to write on idle output. */
    method WriteDirectly(data: seq<byte>, io: Io) returns (nwrote: nat, faultError: bool)
      requires Sound()
      modifies this
      ensures Sound() && nwrote == TakenOf(data, io) && (faultError <==> Faults(io))
      ensures View() == old(View()).WriteDirectly(data, io, cfg)
    {
      nwrote, faultError := 0, false;
      match io {
        case Moves(max) =>
          nwrote := Min(max, |data|);
          wire := wire + data[..nwrote];
          if nwrote == |data| && cfg.writeComplete {
            notices := notices + [WriteComplete];
          }
        case Fails(errno) =>
          if errno != EWOULDBLOCK {
            if errno == EPIPE || errno == ECONNRESET {
              faultError := true;
            }
          }
      }
      accepted := if faultError then accepted else accepted + data;
    }

    /** The upward crossing of the mark, before the bytes are there. */
    method NoteMark(more: nat)
      requires Sound()
      modifies this`notices
      ensures var length := |View().output| + more;
        View() == old(View()).Notify(length >= cfg.highWaterMark && |View().output| < cfg.highWaterMark && cfg.highWater, HighWater(length))
    {
      var oldLen := outputBuffer.ReadableBytes();
      if oldLen + more >= cfg.highWaterMark && oldLen < cfg.highWaterMark && cfg.highWater {
        notices := notices + [HighWater(oldLen + more)];
      }
    }

    method WatchWriting()
      requires Sound()
      modifies this`events
      ensures View() == old(View()).(events := if old(IsWriting(LT, events)) then old(events) else WithWriting(LT, old(events)))
    {
      if !IsWriting(LT, events) {
        events := WithWriting(LT, events);
      }
    }

    method Store(rest: seq<byte>) returns (ok: bool)
      requires Sound()
      modifies outputBuffer, outputBuffer.data
      ensures Sound() && (outputBuffer.data == old(outputBuffer.data) || fresh(outputBuffer.data))
      ensures ok <==> !Trap(old(outputBuffer.Geometry()), |rest|)
      ensures ok ==> View() == old(View()).(output := old(outputBuffer.Contents()) + rest)
      ensures ok ==> outputBuffer.Geometry() == Appended(old(outputBuffer.Geometry()), |rest|)
    {
      ok := outputBuffer.Append(rest);
    }

    /** ok is the room assertion of append. */
    method BufferUp(rest: seq<byte>) returns (ok: bool)
      requires Sound() && rest != []
      modifies this, outputBuffer, outputBuffer.data
      ensures Sound() && (outputBuffer.data == old(outputBuffer.data) || fresh(outputBuffer.data))
      ensures ok <==> !Trap(old(outputBuffer.Geometry()), |rest|)
      ensures ok ==> View() == old(View()).BufferUp(rest, cfg)
      ensures ok ==> outputBuffer.Geometry() == Appended(old(outputBuffer.Geometry()), |rest|)
    {
      NoteMark(|rest|);
      ok := Store(rest);
      WatchWriting();
    }

    /** The rest of what could not be written, if any, goes into the buffer. */
    method Keep(rest: seq<byte>) returns (ok: bool)
      requires Sound()
      modifies this, outputBuffer, outputBuffer.data
      ensures Sound() && (outputBuffer.data == old(outputBuffer.data) || fresh(outputBuffer.data))
      ensures var out := Refilled(old(outputBuffer.Geometry()), |old(View()).output|, |old(View()).output| + |rest|);
        && (ok <==> out.Some?)
        && (ok ==> View() == old(View()).BufferUp(rest, cfg) && Some(outputBuffer.Geometry()) == out)
    {
      ok := true;
      if |rest| > 0 {
        ok := BufferUp(rest);
      }
    }

    /** Idle output: write what the kernel takes, and keep the rest unless the peer is gone. */
    method SendOnIdle(data: seq<byte>, io: Io) returns (ok: bool)
      requires Sound()
      modifies this, outputBuffer, outputBuffer.data
      ensures Sound() && (outputBuffer.data == old(outputBuffer.data) || fresh(outputBuffer.data))
      ensures var c' := old(View()).SendOnIdle(data, io, cfg);
        var out := Refilled(old(outputBuffer.Geometry()), |old(View()).output|, |c'.output|);
        && (ok <==> out.Some?)
        && (ok ==> View() == c' && Some(outputBuffer.Geometry()) == out)
    {
      ok := true;
      var nwrote, faultError := WriteDirectly(data, io);
      if !faultError {
        ok := Keep(data[nwrote..]);
      }
    }

    method QueueBehind(data: seq<byte>) returns (ok: bool)
      requires Sound()
      modifies this, outputBuffer, outputBuffer.data
      ensures Sound() && (outputBuffer.data == old(outputBuffer.data) || fresh(outputBuffer.data))
      ensures var c' := old(View()).QueueBehind(data, cfg);
        var out := Refilled(old(outputBuffer.Geometry()), |old(View()).output|, |c'.output|);
        && (ok <==> out.Some?)
        && (ok ==> View() == c' && Some(outputBuffer.Geometry()) == out)
    {
      accepted := accepted + data;
      ok := Keep(data);
    }

    /** Under either nesting. ok is false where the output buffer's room assertion fails. */
    method SendInLoop(data: seq<byte>, io: Io) returns (ok: bool)
      requires Sound()
      modifies this, outputBuffer, outputBuffer.data
      ensures Sound() && (outputBuffer.data == old(outputBuffer.data) || fresh(outputBuffer.data))
      ensures var c := old(View());
        var c' := c.SendInLoop(data, io, cfg);
        var out := Refilled(old(outputBuffer.Geometry()), |c.output|, |c'.output|);
        && (ok <==> out.Some?)
        && (ok ==> View() == c' && Some(outputBuffer.Geometry()) == out)
    {
      ok := true;
      if state == Disconnected {
        return;
      }
      if !IsWriting(LT, events) && outputBuffer.ReadableBytes() == 0 {
        assert View().IdleOutput();
        ok := SendOnIdle(data, io);
      } else if cfg.queuesPending {
        ok := QueueBehind(data);
      }
    }

    /** Only a connected connection sends. */
    method Send(data: seq<byte>, io: Io) returns (ok: bool)
      requires Valid()
      modifies this, outputBuffer, outputBuffer.data
      ensures outputBuffer.data == old(outputBuffer.data) || fresh(outputBuffer.data)
      ensures var c := old(View());
        var c' := c.Send(data, io, cfg);
        var out := Refilled(old(outputBuffer.Geometry()), |c.output|, |c'.output|);
        && (ok <==> out.Some?)
        && (ok ==> Valid() && View() == c' && Some(outputBuffer.Geometry()) == out)
    {
      ok := true;
      ghost var after := View().Send(data, io, cfg);
      assert Inv(after) by { SendKeepsInv(View(), data, io, cfg); }
      if state == Connected {
        submitted := submitted + data;
        ok := SendInLoop(data, io);
      }
      assert ok ==> View() == after;
    }

    method ShutdownInLoop()
      requires Sound()
      modifies this
      ensures Sound() && View() == old(View()).ShutdownInLoop()
    {
      if !IsWriting(LT, events) {
        shutdowns := shutdowns + [|wire|];
      }
    }

    /** Half-closed at once exactly if nothing waits in the buffer, so never before accepted bytes. */
    method Shutdown()
      requires Valid()
      modifies this
      ensures Valid() && View() == old(View()).Shutdown()
      ensures if old(state).Connected? then
          state.Disconnecting? && (if outputBuffer.ReadableBytes() == 0 then shutdowns == [|wire|] && wire == accepted else shutdowns == [])
        else View() == old(View())
    {
      StepKeepsInv(View(), CallShutdown, cfg);
      if state == Connected {
        state := Disconnecting;
        ShutdownInLoop();
      }
    }

    /** writeFd on the output buffer: what the kernel takes moves from its front to the wire. */
    method WriteSome(io: Io) returns (n: int)
      requires Sound()
      modifies this`wire, outputBuffer
      ensures Sound() && outputBuffer.data == old(outputBuffer.data)
      ensures io.Fails? ==> n == -1 && View() == old(View()) && outputBuffer.Geometry() == old(outputBuffer.Geometry())
      ensures io.Moves? ==>
        && n == Min(io.max, old(outputBuffer.ReadableBytes())) && View() == old(View()).Drained(n)
        && outputBuffer.Geometry() == Written(old(outputBuffer.Geometry()), n)
    {
      var savedErrno;
      n, savedErrno, wire := outputBuffer.WriteFd(wire, io, 0);
    }

    /** The output has drained. */
    method FinishWriting()
      requires Sound()
      modifies this
      ensures Sound()
      ensures View() == old(View()).FinishWriting(cfg)
    {
      events := WithoutWriting(LT, events);
      if cfg.writeComplete {
        notices := notices + [WriteComplete];
      }
      if state == Disconnecting {
        ShutdownInLoop();
      }
    }

    /** The write itself, and what follows if it was the last of the buffer. */
    method WriteOut(io: Io)
      requires Sound() && IsWriting(LT, events)
      modifies this, outputBuffer
      ensures Sound() && outputBuffer.data == old(outputBuffer.data)
      ensures View() == old(View()).HandleWrite(io, cfg)
      ensures Some(outputBuffer.Geometry()) == Refilled(old(outputBuffer.Geometry()), |old(View()).output|, |View().output|)
    {
      var n := WriteSome(io);
      if n > 0 {
        if outputBuffer.ReadableBytes() == 0 {
          FinishWriting();
        }
      }
    }

    /** While bytes wait, the kernel gets the front of the buffer, as much as it takes. */
    method HandleWrite(io: Io)
      requires Valid()
      modifies this, outputBuffer
      ensures Valid() && outputBuffer.data == old(outputBuffer.data)
      ensures View() == old(View()).HandleWrite(io, cfg)
      ensures wire + outputBuffer.Contents() == old(wire + outputBuffer.Contents())
      ensures io.Moves? && old(IsOpen() && outputBuffer.ReadableBytes() > 0) ==>
        |wire| == old(|wire|) + Min(io.max, old(outputBuffer.ReadableBytes()))
      ensures Some(outputBuffer.Geometry()) == Refilled(old(outputBuffer.Geometry()), |old(View()).output|, |View().output|)
    {
      ghost var c, after := View(), View().HandleWrite(io, cfg);
      assert Inv(after) && after.wire + after.output == c.wire + c.output by { HandleWriteKeepsInv(c, io, cfg); }
      assert io.Moves? && c.Open() && c.output != [] ==> |after.wire| == |c.wire| + Min(io.max, |c.output|) by {
        if io.Moves? && c.Open() && c.output != [] { WritableWrites(c, io.max, cfg); }
      }
      if IsWriting(LT, events) {
        WriteOut(io);
      }
      assert View() == after;
    }

    /** The one down callback and the one close callback; no event is watched any more. */
    method HandleClose()
      requires Valid() && IsOpen()
      modifies this
      ensures Valid() && Next(View()) == old(View()).HandleClose()
      ensures state.Disconnected? && downs == closes == 1 && events == NONE_EVENT
    {
      ghost var after := View().HandleClose().c;
      assert Inv(after) && after.downs == after.closes == 1 by { StepKeepsInv(View(), HangUp, cfg); }
      state := Disconnected;
      events := NONE_EVENT;
      downs := downs + 1;
      closes := closes + 1;
      assert View() == after;
    }

    /** A read event. Bytes are appended to the input buffer and reported; the end of the stream
        closes. ok is false when the buffer's room assertion fails, or the one in handleClose. */
    method HandleRead(stream: seq<byte>, io: Io) returns (rest: seq<byte>, message: bool, ok: bool)
      requires Valid()
      modifies this, inputBuffer, inputBuffer.data
      ensures inputBuffer.data == old(inputBuffer.data) || fresh(inputBuffer.data)
      ensures ok ==> Valid()
      ensures io.Fails? ==>
        && ok && !message && rest == stream && View() == old(View())
        && inputBuffer.Geometry() == old(inputBuffer.Geometry()) && inputBuffer.Contents() == old(inputBuffer.Contents())
      ensures io.Moves? ==>
        var n := ReadCount(old(inputBuffer.Geometry()), |stream|, io.max);
        && (ok <==> !ReadTrap(old(inputBuffer.Geometry()), n) && (n == 0 ==> old(IsOpen())))
        && (ok ==> Next(View()) == old(View()).HandleRead(n) && (message <==> n > 0))
        && (ok ==> inputBuffer.Contents() == old(inputBuffer.Contents()) + stream[..n] && rest == stream[n..])
        && (ok ==> inputBuffer.Geometry() == ReadInto(old(inputBuffer.Geometry()), n))
    {
      var n, savedErrno;
      n, savedErrno, rest, ok := inputBuffer.ReadFd(stream, io, 0);
      message := ok && n > 0;
      if ok && n == 0 {
        ok := IsOpen();
        if ok {
          HandleClose();
        }
      }
    }

    /** An open connection stops sending at once, without half-closing, and is to be closed. */
    method ForceClose()
      requires Valid()
      modifies this
      ensures Valid() && View() == old(View()).ForceClose()
      ensures old(IsOpen()) ==> state.Disconnecting? && forced
      ensures shutdowns == old(shutdowns) && wire == old(wire) && closes == old(closes)
    {
      StepKeepsInv(View(), CallForceClose, cfg);
      if state == Connected || state == Disconnecting {
        state := Disconnecting;
        forced := true;
      }
    }

    /** Whatever came in between, an established connection is closed afterwards, once. */
    method ForceCloseInLoop()
      requires Valid()
      modifies this
      ensures Valid() && Next(View()) == old(View()).ForceCloseInLoop()
      ensures !old(state).Connecting? ==> state.Disconnected? && downs == closes == 1
    {
      if state == Disconnecting || state == Connected {
        HandleClose();
      }
    }

    /** Input is watched afterwards; whether output is watched does not change. */
    method StartRead()
      requires Valid()
      modifies this
      ensures Sound() && (old(IsOpen()) ==> Valid())
      ensures View() == old(View()).StartRead()
      ensures reading && IsReading(LT, events) && IsWriting(LT, events) == old(IsWriting(LT, events))
    {
      SwitchesAreIndependent(events);
      if !reading || !IsReading(LT, events) {
        events := WithReading(LT, events);
        reading := true;
      }
    }

    /** Input is not watched afterwards; whether output is watched does not change. */
    method StopRead()
      requires Valid()
      modifies this
      ensures Sound() && (old(IsOpen()) ==> Valid())
      ensures View() == old(View()).StopRead()
      ensures !reading && !IsReading(LT, events) && IsWriting(LT, events) == old(IsWriting(LT, events))
    {
      SwitchesAreIndependent(events);
      if reading || IsReading(LT, events) {
        events := WithoutReading(LT, events);
        reading := false;
      }
    }

    /** The result is Channel::remove's assertion: it fails exactly for a connection that is still
        disconnecting and watched. */
    method ConnectDestroyed() returns (ok: bool)
      requires Valid()
      modifies this
      ensures Sound() && (ok <==> old(View()).ConnectDestroyed().Next?)
      ensures ok <==> !(old(state).Disconnecting? && old(events) != NONE_EVENT)
      ensures ok ==> Next(View()) == old(View()).ConnectDestroyed()
      ensures old(closes > removals) ==> ok && Valid() && removals == closes == downs == 1
    {
      if state == Connected {
        state := Disconnected;
        events := NONE_EVENT;
        downs := downs + 1;
      }
      ok := events == NONE_EVENT;
      if ok {
        removals := removals + 1;
      }
    }

    /** Those events that leave the buffers alone. */
    method Switch(ev: ConnEvent)
      requires Valid() && !ev.Readable? && !ev.CallSend? && !ev.Writable?
      modifies this
      ensures Valid() && View() == After(old(View()), ev, cfg)
    {
      match ev {
        case Establish =>
          if state == TcpConnections.ConnState.Connecting { ConnectEstablished(); }
        case CallShutdown => Shutdown();
        case CallForceClose => ForceClose();
        case RunForceClose =>
          if forced { ForceCloseInLoop(); }
        case CallStartRead =>
          if IsOpen() { StartRead(); }
        case CallStopRead =>
          if IsOpen() { StopRead(); }
        case HangUp =>
          if IsOpen() { HandleClose(); }
        case Destroy =>
          if closes > removals {
            var _ := ConnectDestroyed();
          }
      }
    }

    /** One event that needs no input, if it is legal. */
    method Do(ev: ConnEvent) returns (ok: bool)
      requires Valid() && !ev.Readable?
      modifies this, outputBuffer, outputBuffer.data
      ensures outputBuffer.data == old(outputBuffer.data) || fresh(outputBuffer.data)
      ensures var c := old(View());
        var c' := After(c, ev, cfg);
        var out := Refilled(old(outputBuffer.Geometry()), |c.output|, |c'.output|);
        && (ok <==> out.Some?)
        && (ok ==> Valid() && View() == c' && Some(outputBuffer.Geometry()) == out)
    {
      ok := true;
      if ev.CallSend? {
        ok := Send(ev.data, ev.io);
      } else if ev.Writable? {
        HandleWrite(ev.io);
      } else {
        Switch(ev);
      }
    }
  }

  // ---------- Whole sessions: the object between a peer that sends a stream and a user that reads it ----------

  /** A connection event, a read event with the kernel's decision, or the user taking bytes out. */
  datatype Act = Do(ev: ConnEvent) | Receive(io: Io) | Take(len: nat)

  /** The connection and the indices of its output buffer, with the number of bytes ever put there; the
      indices and bytes of its input buffer; the bytes the user has taken and those the peer has still
      to deliver; and the connection events so far. */
  datatype Session = Session(c: Conn, out: Shape, buffered: nat, shape: Shape, inbox: seq<byte>,
                             taken: seq<byte>, rest: seq<byte>, trace: seq<ConnEvent>) {
    predicate Consistent() {
      && shape.Valid() && |inbox| == shape.Readable()
      && out.Valid() && |c.output| == out.Readable()
    }

    /** The connection's side. None where the output buffer's room assertion fails. */
    function Happens(ev: ConnEvent, cfg: Config): (r: Option<Session>)
      requires Consistent()
      ensures r.Some? ==> r.value.Consistent()
    {
      var c' := After(c, ev, cfg);
      match Refilled(out, |c.output|, |c'.output|)
      case None => None
      case Some(out') =>
        Some(this.(c := c', out := out', trace := trace + [ev],
                   buffered := if |c'.output| > |c.output| then buffered + |c'.output| - |c.output| else buffered))
    }

    /** Nothing comes from a read but a change of state. */
    function ReadHappens(n: int, cfg: Config): (r: Session)
      requires Consistent()
      ensures r.Consistent() && r.shape == shape && r.inbox == inbox && r.rest == rest
    {
      this.(c := After(c, Readable(n), cfg), trace := trace + [Readable(n)])
    }

    /** None where a buffer's room assertion fails. Events are read from an open connection. */
    function Then(a: Act, cfg: Config): (r: Option<Session>)
      requires Consistent()
      ensures r.Some? ==> r.value.Consistent()
    {
      match a
      case Do(ev) => if ev.Readable? then Some(this) else Happens(ev, cfg)
      case Take(len) =>
        var n := Min(len, |inbox|);
        Some(this.(shape := Retrieved(shape, n), inbox := inbox[n..], taken := taken + inbox[..n]))
      case Receive(io) =>
        if !c.Open() then Some(this)
        else if io.Fails? then Some(ReadHappens(-1, cfg))
        else
          var n := ReadCount(shape, |rest|, io.max);
          if ReadTrap(shape, n) then None
          else Some(ReadHappens(n, cfg).(shape := ReadInto(shape, n), inbox := inbox + rest[..n], rest := rest[n..]))
    }
  }

  /** The indices of a fresh buffer, of any initial size. */
  predicate Blank(start: Shape) {
    start.reader == start.writer == 0
  }

  /** Both buffers fresh, nothing delivered yet. */
  function Opening(stream: seq<byte>, start: Shape): (s: Session)
    requires Blank(start)
    ensures s.Consistent() && s.taken + s.inbox + s.rest == stream
  {
    Session(FRESH, start, 0, start, [], [], stream, [])
  }

  function PlayFrom(s: Session, acts: seq<Act>, cfg: Config): (r: Option<Session>)
    requires s.Consistent()
    ensures r.Some? ==> r.value.Consistent()
    decreases |acts|
  {
    if acts == [] then Some(s)
    else
      match s.Then(acts[0], cfg)
      case None => None
      case Some(s') => PlayFrom(s', acts[1..], cfg)
  }

  function Play(acts: seq<Act>, stream: seq<byte>, cfg: Config, start: Shape): (r: Option<Session>)
    requires Blank(start)
    ensures r.Some? ==> r.value.Consistent()
  {
    PlayFrom(Opening(stream, start), acts, cfg)
  }

  lemma {:induction false} PlayGoesOn(s: Session, acts: seq<Act>, more: seq<Act>, cfg: Config)
    requires s.Consistent()
    ensures PlayFrom(s, acts + more, cfg) ==
      match PlayFrom(s, acts, cfg)
      case None => None
      case Some(s') => PlayFrom(s', more, cfg)
    decreases |acts|
  {
    if acts == [] {
      assert acts + more == more;
    } else {
      assert (acts + more)[0] == acts[0] && (acts + more)[1..] == acts[1..] + more;
      var r := s.Then(acts[0], cfg);
      if r.Some? {
        PlayGoesOn(r.value, acts[1..], more, cfg);
      }
    }
  }

  lemma PlayOne(s: Session, a: Act, cfg: Config)
    requires s.Consistent()
    ensures PlayFrom(s, [a], cfg) == s.Then(a, cfg)
  {
    assert [a][1..] == [];
  }

  lemma PlayLast(acts: seq<Act>, a: Act, stream: seq<byte>, cfg: Config, start: Shape)
    requires Blank(start)
    ensures Play(acts + [a], stream, cfg, start) ==
      match Play(acts, stream, cfg, start)
      case None => None
      case Some(s) => s.Then(a, cfg)
  {
    PlayGoesOn(Opening(stream, start), acts, [a], cfg);
    if Play(acts, stream, cfg, start).Some? {
      PlayOne(Play(acts, stream, cfg, start).value, a, cfg);
    }
  }

  lemma Shift(a: seq<byte>, b: seq<byte>, n: nat)
    requires n <= |b|
    ensures (a + b[..n]) + b[n..] == a + b
  {
    assert b == b[..n] + b[n..];
  }

  /** A read event on an open connection brings what the kernel delivers into the input buffer, as much
      as tail and spill area hold; the user takes from its front. */
  lemma BytesMove(s: Session, max: nat, len: nat, cfg: Config)
    requires s.Consistent()
    ensures s.c.Open() && s.Then(Receive(Moves(max)), cfg).Some? ==>
      var s', n := s.Then(Receive(Moves(max)), cfg).value, Min(max, Min(|s.rest|, s.shape.size - s.shape.writer + 65536));
      s'.inbox == s.inbox + s.rest[..n] && s'.rest == s.rest[n..] && (n == 0 ==> s'.c.state.Disconnected?)
    ensures len <= |s.inbox| ==>
      var s' := s.Then(Take(len), cfg).value;
      s'.taken == s.taken + s.inbox[..len] && s'.inbox == s.inbox[len..]
  {
  }

  lemma ThenConserves(s: Session, a: Act, cfg: Config)
    requires s.Consistent() && s.Then(a, cfg).Some? && s.c == TcpConnections.Run(s.trace, cfg)
    ensures var s' := s.Then(a, cfg).value;
      && s'.taken + s'.inbox + s'.rest == s.taken + s.inbox + s.rest
      && s'.c == TcpConnections.Run(s'.trace, cfg)
  {
    match a
    case Do(ev) => RunLast(s.trace, ev, cfg);
    case Take(len) => Shift(s.taken, s.inbox, Min(len, |s.inbox|));
    case Receive(io) =>
      if io.Fails? {
        RunLast(s.trace, Readable(-1), cfg);
      } else {
        var n := ReadCount(s.shape, |s.rest|, io.max);
        RunLast(s.trace, Readable(n), cfg);
        Shift(s.inbox, s.rest, n);
        Assoc(s.taken, s.inbox, s.rest);
        Assoc(s.taken, s.inbox + s.rest[..n], s.rest[n..]);
      }
  }

  lemma {:induction false} PlayIsRun(s: Session, acts: seq<Act>, cfg: Config)
    requires s.Consistent() && s.c == TcpConnections.Run(s.trace, cfg)
    ensures var r := PlayFrom(s, acts, cfg);
      r.Some? ==>
        && r.value.taken + r.value.inbox + r.value.rest == s.taken + s.inbox + s.rest
        && r.value.c == TcpConnections.Run(r.value.trace, cfg)
    decreases |acts|
  {
    if acts != [] {
      var r := s.Then(acts[0], cfg);
      if r.Some? {
        ThenConserves(s, acts[0], cfg);
        PlayIsRun(r.value, acts[1..], cfg);
      }
    }
  }

  /** Input and output are conserved over every session: what the user has taken, what the input
      buffer holds and what is to come are the peer's stream; and the connection has gone through a
      run of its events, with everything that is known of runs. */
  lemma PlayConserves(acts: seq<Act>, stream: seq<byte>, cfg: Config, start: Shape)
    requires Blank(start) && Play(acts, stream, cfg, start).Some?
    ensures var s := Play(acts, stream, cfg, start).value;
      && s.taken + s.inbox + s.rest == stream
      && s.c == TcpConnections.Run(s.trace, cfg) && Inv(s.c)
      && s.c.wire + s.c.output == s.c.accepted
  {
    PlayIsRun(Opening(stream, start), acts, cfg);
    RunKeepsInv(Play(acts, stream, cfg, start).value.trace, cfg);
  }

  // ---------- Which sessions meet a trapped request ----------

  lemma OutputGrowsOnIdle(c: Conn, ev: ConnEvent, cfg: Config)
    requires Inv(c) && !cfg.queuesPending
    ensures |After(c, ev, cfg).output| > |c.output| ==> c.output == []
  {
    match ev
    case CallSend(data, io) => if c.state.Connected? && c.output != [] { SendWhilePending(c, data, io, cfg); }
    case Writable(io) => WriteEnds(c, io, cfg);
    case _ =>
  }

  /** With the code's nesting bytes are only buffered in an empty buffer, where append finds room:
      only a read can be trapped. */
  lemma SendsFindRoom(s: Session, ev: ConnEvent, cfg: Config)
    requires s.Consistent() && Inv(s.c) && !cfg.queuesPending
    ensures s.Happens(ev, cfg).Some?
    ensures |After(s.c, ev, cfg).output| > |s.c.output| ==> s.c.output == []
  {
    OutputGrowsOnIdle(s.c, ev, cfg);
  }

  /** The shapes keep the guard they were made with. */
  lemma ThenKeepsGuard(s: Session, a: Act, cfg: Config)
    requires s.Consistent() && s.Then(a, cfg).Some?
    ensures s.Then(a, cfg).value.out.guard == s.out.guard && s.Then(a, cfg).value.shape.guard == s.shape.guard
  {
  }

  lemma IntendedThenRuns(s: Session, a: Act, cfg: Config)
    requires s.Consistent() && s.out.guard.AsIntended? && s.shape.guard.AsIntended?
    ensures s.Then(a, cfg).Some?
  {
  }

  lemma {:induction false} IntendedRunsOn(s: Session, acts: seq<Act>, cfg: Config)
    requires s.Consistent() && s.out.guard.AsIntended? && s.shape.guard.AsIntended?
    ensures PlayFrom(s, acts, cfg).Some?
    decreases |acts|
  {
    if acts != [] {
      IntendedThenRuns(s, acts[0], cfg);
      ThenKeepsGuard(s, acts[0], cfg);
      IntendedRunsOn(s.Then(acts[0], cfg).value, acts[1..], cfg);
    }
  }

  /** With the intended guard no session fails, under either nesting. */
  lemma IntendedSessionsRunThrough(acts: seq<Act>, stream: seq<byte>, cfg: Config, start: Shape)
    requires Blank(start) && start.guard.AsIntended?
    ensures Play(acts, stream, cfg, start).Some?
  {
    IntendedRunsOn(Opening(stream, start), acts, cfg);
  }

  /** As the code is written, a session fails exactly at a read that is trapped. */
  lemma CodeFailsOnReadsExactly(acts: seq<Act>, a: Act, stream: seq<byte>, cfg: Config, start: Shape)
    requires !cfg.queuesPending && Blank(start) && Play(acts, stream, cfg, start).Some?
    ensures var s := Play(acts, stream, cfg, start).value;
      Play(acts + [a], stream, cfg, start).None? <==>
      a.Receive? && a.io.Moves? && s.c.Open() && ReadTrap(s.shape, ReadCount(s.shape, |s.rest|, a.io.max))
  {
    PlayConserves(acts, stream, cfg, start);
    PlayLast(acts, a, stream, cfg, start);
    if a.Do? {
      SendsFindRoom(Play(acts, stream, cfg, start).value, a.ev, cfg);
    }
  }

  lemma RefusedSendIsBuffered(c: Conn, data: seq<byte>, cfg: Config)
    requires Inv(c) && c.state.Connected? && c.output == []
    ensures c.Send(data, Fails(EAGAIN), cfg).output == data && c.Send(data, Fails(EAGAIN), cfg).state.Connected?
  {
    assert c.IdleOutput() && data[0..] == data;
  }

  lemma SessionEstablished(stream: seq<byte>, cfg: Config, start: Shape)
    requires Blank(start)
    ensures var r := Play([Do(Establish)], stream, cfg, start);
      r.Some? && r.value.out == start && r.value.c.output == [] && r.value.c.state.Connected? && Inv(r.value.c)
  {
    PlayOne(Opening(stream, start), Do(Establish), cfg);
    PlayConserves([Do(Establish)], stream, cfg, start);
  }

  lemma FirstSendIsBuffered(s: Session, data: seq<byte>, cfg: Config)
    requires s.Consistent() && Inv(s.c) && s.c.state.Connected? && s.c.output == [] && Blank(s.out)
    requires 0 < |data| <= s.out.size
    ensures var r := s.Then(Do(CallSend(data, Fails(EAGAIN))), cfg);
      && r.Some? && Inv(r.value.c) && r.value.c.state.Connected? && r.value.c.output == data
      && r.value.out == s.out.(writer := |data|)
  {
    RefusedSendIsBuffered(s.c, data, cfg);
    SendKeepsInv(s.c, data, Fails(EAGAIN), cfg);
  }

  lemma SecondSendIsTrapped(s: Session, data: seq<byte>, io: Io, cfg: Config)
    requires s.Consistent() && Inv(s.c) && s.c.state.Connected? && s.c.output != [] && cfg.queuesPending
    requires s.out.reader == 0 && s.out.guard.AsWritten?
    requires s.out.size < |s.c.output| + |data| && |data| <= s.out.size
    ensures s.Then(Do(CallSend(data, io)), cfg).None?
  {
    SendWhilePending(s.c, data, io, cfg);
  }

  /** To mend only the nesting would not do: a send queued behind pending output then meets the guard
      of makeSpace, for example whenever the two together overrun the buffer's first size. */
  lemma MendedNestingMeetsGuard(first: seq<byte>, second: seq<byte>, io: Io, stream: seq<byte>, cfg: Config, start: Shape)
    requires cfg.queuesPending && Blank(start) && start.guard.AsWritten?
    requires 0 < |first| <= start.size < |first| + |second| && |second| <= start.size
    ensures var acts := [Do(Establish)] + [Do(CallSend(first, Fails(EAGAIN)))];
      Play(acts, stream, cfg, start).Some? && Play(acts + [Do(CallSend(second, io))], stream, cfg, start).None?
  {
    var acts := [Do(Establish)] + [Do(CallSend(first, Fails(EAGAIN)))];
    SessionEstablished(stream, cfg, start);
    PlayLast([Do(Establish)], Do(CallSend(first, Fails(EAGAIN))), stream, cfg, start);
    FirstSendIsBuffered(Play([Do(Establish)], stream, cfg, start).value, first, cfg);
    PlayLast(acts, Do(CallSend(second, io)), stream, cfg, start);
    SecondSendIsTrapped(Play(acts, stream, cfg, start).value, second, io, cfg);
  }

  // ---------- The output buffer never gets smaller ----------

  /** Room for all the bytes ever buffered, with the waiting ones at the end. */
  function Grown(size: nat, buffered: nat, waiting: nat): Shape
    requires waiting <= buffered
  {
    Shape(buffered - waiting, buffered, if buffered > size then buffered else size, AsWritten)
  }

  lemma RefilledGrows(size: nat, buffered: nat, before: nat, after: nat)
    requires before <= buffered && (after > before ==> before == 0)
    ensures var more := if after > before then after - before else 0;
      after <= buffered + more && Refilled(Grown(size, buffered, before), before, after) == Some(Grown(size, buffered + more, after))
  {
  }

  predicate OnlyGrown(s: Session, size: nat) {
    |s.c.output| <= s.buffered && s.out == Grown(size, s.buffered, |s.c.output|)
  }

  lemma ThenOnlyGrows(s: Session, a: Act, cfg: Config, size: nat)
    requires s.Consistent() && Inv(s.c) && !cfg.queuesPending && OnlyGrown(s, size) && s.Then(a, cfg).Some?
    ensures OnlyGrown(s.Then(a, cfg).value, size)
  {
    match a
    case Do(ev) =>
      OutputGrowsOnIdle(s.c, ev, cfg);
      RefilledGrows(size, s.buffered, |s.c.output|, |After(s.c, ev, cfg).output|);
    case Take(_) =>
    case Receive(_) =>
  }

  lemma {:induction false} GrowsOn(s: Session, acts: seq<Act>, cfg: Config, size: nat)
    requires s.Consistent() && !cfg.queuesPending && OnlyGrown(s, size) && s.c == TcpConnections.Run(s.trace, cfg)
    ensures var r := PlayFrom(s, acts, cfg); r.Some? ==> OnlyGrown(r.value, size)
    decreases |acts|
  {
    if acts != [] {
      var r := s.Then(acts[0], cfg);
      if r.Some? {
        RunKeepsInv(s.trace, cfg);
        ThenOnlyGrows(s, acts[0], cfg, size);
        ThenConserves(s, acts[0], cfg);
        GrowsOn(r.value, acts[1..], cfg, size);
      }
    }
  }

  /** As the code is written, the vector behind the output buffer has room for every byte that was
      ever buffered, sent long ago or not. */
  lemma OutputBufferOnlyGrows(acts: seq<Act>, stream: seq<byte>, cfg: Config, start: Shape)
    requires !cfg.queuesPending && Blank(start) && start.guard.AsWritten? && Play(acts, stream, cfg, start).Some?
    ensures OnlyGrown(Play(acts, stream, cfg, start).value, start.size)
  {
    GrowsOn(Opening(stream, start), acts, cfg, start.size);
  }

  // ---------- The object through whole sessions ----------

  ghost predicate Matches(conn: TcpConnection, s: Session)
    reads conn, conn.inputBuffer, conn.outputBuffer, conn.inputBuffer.data, conn.outputBuffer.data
  {
    && conn.Valid() && conn.View() == s.c && conn.outputBuffer.Geometry() == s.out
    && conn.inputBuffer.Geometry() == s.shape && conn.inputBuffer.Contents() == s.inbox
  }

  method PerformEvent(conn: TcpConnection, ev: ConnEvent, ghost s: Session) returns (ok: bool)
    requires s.Consistent() && Matches(conn, s) && !ev.Readable?
    modifies conn, conn.outputBuffer, conn.outputBuffer.data
    ensures ok <==> s.Happens(ev, conn.cfg).Some?
    ensures ok ==> Matches(conn, s.Happens(ev, conn.cfg).value)
    ensures conn.inputBuffer.data == old(conn.inputBuffer.data)
    ensures conn.outputBuffer.data == old(conn.outputBuffer.data) || fresh(conn.outputBuffer.data)
  {
    ok := conn.Do(ev);
  }

  method PerformTake(conn: TcpConnection, len: nat, taken: seq<byte>, ghost s: Session) returns (taken': seq<byte>)
    requires s.Consistent() && Matches(conn, s) && s.taken == taken
    modifies conn.inputBuffer
    ensures var s' := s.Then(Take(len), conn.cfg).value; Matches(conn, s') && s'.taken == taken'
    ensures conn.inputBuffer.data == old(conn.inputBuffer.data)
    ensures conn.outputBuffer.data == old(conn.outputBuffer.data)
  {
    var bytes := conn.inputBuffer.RetrieveAsString(Min(len, conn.inputBuffer.ReadableBytes()));
    taken' := taken + bytes;
  }

  method PerformReceive(conn: TcpConnection, io: Io, rest: seq<byte>, ghost s: Session) returns (rest': seq<byte>, ok: bool)
    requires s.Consistent() && Matches(conn, s) && s.rest == rest
    modifies conn, conn.inputBuffer, conn.inputBuffer.data
    ensures ok <==> s.Then(Receive(io), conn.cfg).Some?
    ensures ok ==> var s' := s.Then(Receive(io), conn.cfg).value; Matches(conn, s') && s'.rest == rest'
    ensures conn.inputBuffer.data == old(conn.inputBuffer.data) || fresh(conn.inputBuffer.data)
    ensures conn.outputBuffer.data == old(conn.outputBuffer.data)
  {
    rest', ok := rest, true;
    if conn.IsOpen() {
      var message;
      rest', message, ok := conn.HandleRead(rest, io);
    }
  }

  method Perform(conn: TcpConnection, a: Act, taken: seq<byte>, rest: seq<byte>, ghost s: Session)
    returns (taken': seq<byte>, rest': seq<byte>, ok: bool)
    requires s.Consistent() && Matches(conn, s) && s.taken == taken && s.rest == rest
    modifies conn, conn.inputBuffer, conn.outputBuffer, conn.inputBuffer.data, conn.outputBuffer.data
    ensures ok <==> s.Then(a, conn.cfg).Some?
    ensures ok ==>
      var s' := s.Then(a, conn.cfg).value;
      Matches(conn, s') && s'.taken == taken' && s'.rest == rest'
    ensures conn.inputBuffer.data == old(conn.inputBuffer.data) || fresh(conn.inputBuffer.data)
    ensures conn.outputBuffer.data == old(conn.outputBuffer.data) || fresh(conn.outputBuffer.data)
  {
    taken', rest', ok := taken, rest, true;
    match a {
      case Do(ev) =>
        if !ev.Readable? {
          ok := PerformEvent(conn, ev, s);
        }
      case Take(len) => taken' := PerformTake(conn, len, taken, s);
      case Receive(io) => rest', ok := PerformReceive(conn, io, rest, s);
    }
  }

  /** A session of the real object over its two real buffers, under either nesting and either guard: no
      assertion fails but the room one of a buffer, on exactly the sessions that meet a trapped
      request; the object ends where the session ends; and neither direction of the stream loses,
      repeats or reorders an accepted byte. */
  method RunConnection(acts: seq<Act>, stream: seq<byte>, cfg: Config, start: Shape)
    returns (ok: bool, wire: seq<byte>, unsent: seq<byte>, taken: seq<byte>, unread: seq<byte>, rest: seq<byte>)
    requires Blank(start)
    ensures ok <==> Play(acts, stream, cfg, start).Some?
    ensures ok ==>
      var s := Play(acts, stream, cfg, start).value;
      && wire == s.c.wire && unsent == s.c.output && taken == s.taken && unread == s.inbox && rest == s.rest
      && wire + unsent == TcpConnections.Run(s.trace, cfg).accepted
      && taken + unread + rest == stream
  {
    var conn := new TcpConnection(cfg, start.size, start.guard);
    taken, rest := [], stream;
    ghost var s := Opening(stream, start);
    for i := 0 to |acts|
      invariant fresh(conn) && fresh(conn.inputBuffer) && fresh(conn.outputBuffer)
      invariant fresh(conn.inputBuffer.data) && fresh(conn.outputBuffer.data) && conn.cfg == cfg
      invariant s.Consistent() && Play(acts, stream, cfg, start) == PlayFrom(s, acts[i..], cfg)
      invariant Matches(conn, s) && s.taken == taken && s.rest == rest
    {
      assert acts[i..][0] == acts[i] && acts[i..][1..] == acts[i + 1..];
      taken, rest, ok := Perform(conn, acts[i], taken, rest, s);
      if !ok {
        return false, [], [], [], [], [];
      }
      s := s.Then(acts[i], cfg).value;
    }
    PlayConserves(acts, stream, cfg, start);
    ok, wire := true, conn.wire;
    unsent := conn.outputBuffer.data[conn.outputBuffer.reader..conn.outputBuffer.writer];
    unread := conn.inputBuffer.data[conn.inputBuffer.reader..conn.inputBuffer.writer];
  }
}
