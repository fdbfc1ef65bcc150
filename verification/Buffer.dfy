/** The byte buffer with a reclaimable prefix, and its socket transfers
    (twnl/Buffer.h, twnl/Buffer.cc). */
module Buffers {
  import opened Basics

  type byte = bv8

  const INITIAL_SIZE := 1024
  const SPILL_SIZE := 65536
  const EAGAIN := 11

  // ---------- Index geometry ----------

  /** The length that makeSpace adds to the tail before it decides to grow: the code adds the readable
      length, where the assertion that follows needs the reclaimable prefix. */
  datatype Guard = AsWritten | AsIntended

  /** The two indices and the vector size; the stored bytes are between reader and writer. */
  datatype Shape = Shape(reader: nat, writer: nat, size: nat, guard: Guard) {
    predicate Valid() {
      reader <= writer <= size
    }

    function Readable(): nat
      requires Valid()
    {
      writer - reader
    }

    function Writable(): nat
      requires Valid()
    {
      size - writer
    }

    function Slack(): nat
      requires Valid()
    {
      match guard
      case AsWritten => Readable()
      case AsIntended => reader
    }
  }

  /** Compacting is chosen although the tail and the reclaimable prefix together are too small. */
  predicate Trap(s: Shape, len: nat)
    requires s.Valid()
  {
    s.Writable() < len <= s.Writable() + s.Slack() && s.Writable() + s.reader < len
  }

  function Roomy(s: Shape, len: nat): Shape
    requires s.Valid()
  {
    if s.Writable() >= len then s
    else if s.Writable() + s.Slack() < len then s.(size := s.writer + len)
    else s.(reader := 0, writer := s.Readable())
  }

  /** What makeSpace does to indices and size: nothing if the tail suffices; otherwise the vector gets
      exactly the missing room behind the writer, or the stored bytes move to the front. */
  lemma SpaceIsMade(s: Shape, len: nat)
    requires s.Valid()
    ensures var t, tail, extra := Roomy(s, len), s.size - s.writer, if s.guard.AsWritten? then s.writer - s.reader else s.reader;
      if tail >= len then t == s
      else if tail + extra < len then t.reader == s.reader && t.writer == s.writer && t.size == s.writer + len
      else t.reader == 0 && t.writer == s.writer - s.reader && t.size == s.size
  {
  }

  function Appended(s: Shape, len: nat): Shape
    requires s.Valid() && !Trap(s, len)
  {
    var r := Roomy(s, len);
    r.(writer := r.writer + len)
  }

  function Retrieved(s: Shape, len: nat): Shape
    requires s.Valid() && len <= s.Readable()
  {
    if len < s.Readable() then s.(reader := s.reader + len) else s.(reader := 0, writer := 0)
  }

  /** A write takes bytes off the front, and unlike Retrieved leaves the indices where they are. */
  function Written(s: Shape, len: nat): Shape
    requires s.Valid() && len <= s.Readable()
  {
    s.(reader := s.reader + len)
  }

  /** Taking everything out sets both indices back to 0, taking less moves the reader; a write moves
      the reader in either case. */
  lemma IndicesAfterTaking(s: Shape, len: nat)
    requires s.Valid() && len <= s.Readable()
    ensures len == s.Readable() ==> Retrieved(s, len).reader == Retrieved(s, len).writer == 0
    ensures len < s.Readable() ==> Retrieved(s, len).reader == s.reader + len && Retrieved(s, len).writer == s.writer
    ensures Written(s, len).reader == s.reader + len && Written(s, len).writer == s.writer
    ensures Retrieved(s, len).size == Written(s, len).size == s.size
  {
  }

  /** How many bytes one readv moves: the kernel's choice, cut to the stream and to the room. */
  function ReadCount(s: Shape, available: nat, max: nat): nat
    requires s.Valid()
  {
    Min(max, Min(available, s.Writable() + SPILL_SIZE))
  }

  /** A readv of n bytes spills n - writable of them, which are then appended to a full vector. */
  predicate ReadTrap(s: Shape, n: nat)
    requires s.Valid()
  {
    n > s.Writable() && Trap(s.(writer := s.size), n - s.Writable())
  }

  function ReadInto(s: Shape, n: nat): Shape
    requires s.Valid() && !ReadTrap(s, n)
  {
    if n <= s.Writable() then s.(writer := s.writer + n)
    else Appended(s.(writer := s.size), n - s.Writable())
  }

  /** A read moves all that is there if the kernel offers it and the tail and the spill area of 65536
      bytes hold it together, and never more than any of the three allows. */
  lemma ReadMovesAll(s: Shape, available: nat, max: nat)
    requires s.Valid()
    ensures ReadCount(s, available, max) <= max && ReadCount(s, available, max) <= available
    ensures ReadCount(s, available, max) <= s.size - s.writer + 65536
    ensures available <= max && available <= s.size - s.writer + 65536 ==> ReadCount(s, available, max) == available
  {
  }

  /** What a read has moved is stored, in the tail if it holds it. */
  lemma ReadStoresAll(s: Shape, n: nat)
    requires s.Valid() && !ReadTrap(s, n)
    ensures ReadInto(s, n).Valid() && ReadInto(s, n).Readable() == s.Readable() + n
    ensures n <= s.size - s.writer ==> ReadInto(s, n) == s.(writer := s.writer + n)
    ensures n > s.size - s.writer ==> ReadInto(s, n) == Appended(s.(writer := s.size), n - (s.size - s.writer))
  {
  }

  /** A fresh buffer survives its first read exactly when the bytes fit or exceed twice its size. */
  lemma FirstReadTrap(size: nat, n: nat)
    ensures ReadTrap(Shape(0, 0, size, AsWritten), n) <==> size < n <= 2 * size
    ensures ReadTrap(Shape(0, 0, INITIAL_SIZE, AsWritten), 1500)
  {
    var full := Shape(0, size, size, AsWritten);
    assert full.Readable() == size && full.Writable() == 0;
  }

  /** With the reclaimable prefix in the guard nothing is ever trapped: there is always room. */
  lemma IntendedGuardSuffices(s: Shape, len: nat)
    requires s.Valid()
    ensures Trap(s, len) <==> Roomy(s, len).Writable() < len
    ensures Roomy(s, len).Valid() && Roomy(s, len).Readable() == s.Readable() && Roomy(s, len).size >= s.size
    ensures s.guard.AsIntended? ==> !Trap(s, len) && !ReadTrap(s, len)
  {
  }

  /** The code's guard does the same exactly when the readable length and the reclaimable prefix fall
      on the same side of what is missing. */
  lemma GuardsAgree(s: Shape, len: nat)
    requires s.Valid() && s.guard.AsWritten?
    ensures var missing := len - s.Writable();
      Roomy(s, len) == Roomy(s.(guard := AsIntended), len).(guard := AsWritten) <==>
      missing <= 0 || (s.Readable() < missing <==> s.reader < missing)
  {
  }

  // ---------- Socket transfers ----------

  /** What the kernel decides for one transfer. */
  datatype Io = Moves(max: nat) | Fails(errno: int)

  /** The kernel's decisions in order; a non-blocking descriptor then has nothing more to do. */
  function NextIo(script: seq<Io>): Io {
    if script == [] then Fails(EAGAIN) else script[0]
  }

  function LaterIo(script: seq<Io>): seq<Io> {
    if script == [] then [] else script[1..]
  }

  /** How a drain loop ends: bytes moved, value returned, errno left behind; or an assertion aborts it. */
  datatype Outcome = Aborted | Done(moved: nat, ret: int, errno: int) {
    function After(n: nat): Outcome {
      match this
      case Aborted => Aborted
      case Done(m, r, e) => Done(m + n, if e == EAGAIN then r + n else r, e)
    }
  }

  /** readFdET on a stream with the given number of bytes left. */
  function ReadLoop(s: Shape, available: nat, script: seq<Io>, errno: int): Outcome
    requires s.Valid()
    decreases available
  {
    match NextIo(script)
    case Fails(e) => Done(0, if e == EAGAIN then 0 else -1, e)
    case Moves(max) =>
      var n := ReadCount(s, available, max);
      if n == 0 then Done(0, 0, errno)
      else if ReadTrap(s, n) then Aborted
      else ReadLoop(ReadInto(s, n), available - n, LaterIo(script), errno).After(n)
  }

  function WriteLoop(readable: nat, script: seq<Io>, errno: int): Outcome
    decreases readable
  {
    match NextIo(script)
    case Fails(e) => Done(0, if e == EAGAIN then 0 else -1, e)
    case Moves(max) =>
      var n := Min(max, readable);
      if n == 0 then Done(0, 0, errno)
      else WriteLoop(readable - n, LaterIo(script), errno).After(n)
  }

  predicate CountIsReturned(o: Outcome)
    requires o.Done?
  {
    o.ret == o.moved
  }

  /** Where a loop comes to rest, from the kernel's decisions alone: the index and the kind of the
      first decision that moves nothing; or a read before that is trapped. */
  datatype Rest = Trapped | At(index: nat, io: Io) {
    function Later(): Rest {
      if Trapped? then this else At(index + 1, io)
    }

    /** Which rests let the loop report its count: EAGAIN, or nothing moved at the first call; with
        an errno that happens to be EAGAIN from before, any call that moved nothing. */
    predicate Reports(errno: int) {
      At? && (io == Fails(EAGAIN) || (io.Moves? && (index == 0 || errno == EAGAIN)))
    }
  }

  function ReadRest(s: Shape, available: nat, script: seq<Io>): Rest
    requires s.Valid()
    decreases available
  {
    var io := NextIo(script);
    if io.Fails? || ReadCount(s, available, io.max) == 0 then At(0, io)
    else
      var n := ReadCount(s, available, io.max);
      if ReadTrap(s, n) then Trapped
      else ReadRest(ReadInto(s, n), available - n, LaterIo(script)).Later()
  }

  function WriteRest(readable: nat, script: seq<Io>): Rest
    decreases readable
  {
    var io := NextIo(script);
    if io.Fails? || Min(io.max, readable) == 0 then At(0, io)
    else WriteRest(readable - Min(io.max, readable), LaterIo(script)).Later()
  }

  /** readFdET fails an assertion exactly if a read on the way is trapped, and it returns the byte
      count exactly when it stops on EAGAIN or its first call moves nothing without an error (or an
      EAGAIN was left behind before); otherwise the count is lost and 0 or -1 is returned. */
  lemma {:induction false} ReadLoopReturn(s: Shape, available: nat, script: seq<Io>, errno: int)
    requires s.Valid()
    ensures var o, rest := ReadLoop(s, available, script, errno), ReadRest(s, available, script);
      && (o.Done? <==> rest.At?)
      && (o.Done? ==> o.moved <= available && (o.moved == 0 <==> rest.index == 0))
      && (o.Done? ==> o.errno == if rest.io.Fails? then rest.io.errno else errno)
      && (o.Done? ==> (CountIsReturned(o) <==> rest.Reports(errno)))
      && (o.Done? && !rest.Reports(errno) ==> o.ret == if rest.io.Fails? then -1 else 0)
    decreases available
  {
    match NextIo(script)
    case Fails(e) =>
    case Moves(max) =>
      var n := ReadCount(s, available, max);
      if n > 0 && !ReadTrap(s, n) {
        ReadLoopReturn(ReadInto(s, n), available - n, LaterIo(script), errno);
      }
  }

  lemma {:induction false} WriteLoopReturn(readable: nat, script: seq<Io>, errno: int)
    ensures var o, rest := WriteLoop(readable, script, errno), WriteRest(readable, script);
      && o.Done? && rest.At?
      && o.moved <= readable && (o.moved == 0 <==> rest.index == 0)
      && o.errno == (if rest.io.Fails? then rest.io.errno else errno)
      && (CountIsReturned(o) <==> rest.Reports(errno))
      && (!rest.Reports(errno) ==> o.ret == if rest.io.Fails? then -1 else 0)
    decreases readable
  {
    match NextIo(script)
    case Fails(e) =>
    case Moves(max) =>
      var n := Min(max, readable);
      if n > 0 {
        WriteLoopReturn(readable - n, LaterIo(script), errno);
      }
  }

  /** For example: bytes that fit the tail, then the end of the stream. readFdET has stored them all,
      and returns 0 as if there had been none. */
  lemma BytesThenEndReturnsZero(s: Shape, n: nat, later: Io, errno: int)
    requires s.Valid() && 0 < n <= s.Writable()
    requires later.Moves? && errno != EAGAIN
    ensures ReadLoop(s, n, [Moves(n), later], errno) == Done(n, 0, errno)
  {
    assert LaterIo([Moves(n), later]) == [later];
    assert ReadLoop(ReadInto(s, n), 0, [later], errno) == Done(0, 0, errno);
  }

  /** Finding the descriptor not ready, errno 11, is no failure; any other errno is. */
  lemma NotReadyIsNoError(s: Shape, available: nat, readable: nat, e: int, errno: int)
    requires s.Valid()
    ensures ReadLoop(s, available, [Fails(e)], errno) == WriteLoop(readable, [Fails(e)], errno) == Done(0, if e == 11 then 0 else -1, e)
    ensures ReadLoop(s, available, [], errno) == WriteLoop(readable, [], errno) == Done(0, 0, 11)
  {
  }

  /** A peer that takes everything makes writeFdET report 0, not the count, so its caller cannot
      tell a finished drain from no progress. */
  lemma {:induction false} FullDrainReturnsZero(readable: nat, script: seq<Io>, errno: int)
    requires |script| > readable
    requires forall k :: 0 <= k < |script| ==> script[k].Moves? && script[k].max > 0
    requires errno != EAGAIN
    ensures WriteLoop(readable, script, errno) == Done(readable, 0, errno)
    decreases readable
  {
    if readable > 0 {
      FullDrainReturnsZero(readable - Min(script[0].max, readable), script[1..], errno);
    }
  }

  lemma IntendedReads(s: Shape, available: nat, max: nat)
    requires s.Valid() && s.guard.AsIntended? && available > 0 && max > 0
    ensures var n := ReadCount(s, available, max);
      0 < n <= available && !ReadTrap(s, n) && ReadInto(s, n).Valid() && ReadInto(s, n).guard.AsIntended?
  {
  }

  /** And a stream that the kernel gives out in pieces is read to its end, unless a read is trapped. */
  lemma {:induction false} FullReadTakesAll(s: Shape, available: nat, script: seq<Io>, errno: int)
    requires s.Valid() && s.guard.AsIntended? && |script| > available
    requires forall k :: 0 <= k < |script| ==> script[k].Moves? && script[k].max > 0
    requires errno != EAGAIN
    ensures ReadLoop(s, available, script, errno) == Done(available, 0, errno)
    decreases available
  {
    assert script[0].Moves?;
    if available > 0 {
      IntendedReads(s, available, script[0].max);
      var n := ReadCount(s, available, script[0].max);
      FullReadTakesAll(ReadInto(s, n), available - n, script[1..], errno);
    }
  }

  lemma SplitJoins(start: seq<byte>, bytes: seq<byte>, n: nat)
    requires n <= |bytes|
    ensures (start + bytes[..n]) + bytes[n..] == start + bytes
  {
  }

  /** A cut of the whole is found again from its length. */
  lemma CutAt(start: seq<byte>, stream: seq<byte>, got: seq<byte>, rest: seq<byte>, n: nat)
    requires n <= |stream| && |got| == |start| + n && got + rest == start + stream
    ensures got == start + stream[..n] && rest == stream[n..]
  {
    assert got == (got + rest)[..|start| + n] && rest == (got + rest)[|start| + n..];
  }

  // ---------- The class ----------

  class Buffer {
    const guard: Guard
    var data: array<byte>
    var reader: nat
    var writer: nat

    ghost predicate Valid()
      reads this
    {
      reader <= writer <= data.Length
    }

    ghost function Contents(): seq<byte>
      reads this, data
      requires Valid()
    {
      data[reader..writer]
    }

    ghost function Geometry(): (s: Shape)
      reads this
      requires Valid()
      ensures s.Valid()
    {
      Shape(reader, writer, data.Length, guard)
    }

    constructor (initialSize: nat, guard: Guard)
      ensures Valid() && fresh(data)
      ensures Contents() == [] && Geometry() == Shape(0, 0, initialSize, guard)
    {
      this.guard := guard;
      data := new byte[initialSize](_ => 0);
      reader := 0;
      writer := 0;
    }

    function ReadableBytes(): nat
      reads this
      requires Valid()
    {
      writer - reader
    }

    function WritableBytes(): nat
      reads this
      requires Valid()
    {
      data.Length - writer
    }

    method Retrieve(len: nat)
      requires Valid() && len <= ReadableBytes()
      modifies this
      ensures Valid() && data == old(data)
      ensures Contents() == old(Contents())[len..]
      ensures Geometry() == Retrieved(old(Geometry()), len)
    {
      if len < ReadableBytes() {
        reader := reader + len;
      } else {
        reader := 0;
        writer := 0;
      }
    }

    method RetrieveAsString(len: nat) returns (str: seq<byte>)
      requires Valid() && len <= ReadableBytes()
      modifies this
      ensures Valid() && data == old(data)
      ensures str + Contents() == old(Contents()) && |str| == len
      ensures Geometry() == Retrieved(old(Geometry()), len)
    {
      str := data[reader..reader + len];
      Retrieve(len);
    }

    /** vector::resize: the old bytes keep their places in new storage. */
    method Resize(size: nat)
      requires Valid() && data.Length <= size
      modifies this
      ensures Valid() && fresh(data) && data.Length == size
      ensures reader == old(reader) && writer == old(writer)
      ensures Contents() == old(Contents())
    {
      var grown := new byte[size](_ => 0);
      forall k | 0 <= k < data.Length {
        grown[k] := data[k];
      }
      data := grown;
    }

    /** std::copy of the stored bytes to the front; source and target may overlap. */
    method CopyDown()
      requires Valid()
      modifies data
      ensures data[..writer - reader] == old(Contents())
    {
      var k := 0;
      while k < writer - reader
        invariant 0 <= k <= writer - reader
        invariant data[..k] == old(data[reader..reader + k])
        invariant forall j :: k <= j < data.Length ==> data[j] == old(data[j])
      {
        data[k] := data[reader + k];
        k := k + 1;
      }
    }

    method MakeSpace(len: nat)
      requires Valid() && WritableBytes() < len
      modifies this, data
      ensures Valid() && (data == old(data) || fresh(data))
      ensures Contents() == old(Contents())
      ensures Geometry() == Roomy(old(Geometry()), len)
    {
      if WritableBytes() + (if guard.AsWritten? then ReadableBytes() else reader) < len {
        Resize(writer + len);
      } else {
        var readable := ReadableBytes();
        CopyDown();
        reader := 0;
        writer := readable;
      }
    }

    /** The result is the closing assertion: true exactly outside the trap. */
    method EnsureWriteBytes(len: nat) returns (fits: bool)
      requires Valid()
      modifies this, data
      ensures Valid() && (data == old(data) || fresh(data))
      ensures Contents() == old(Contents())
      ensures Geometry() == Roomy(old(Geometry()), len)
      ensures fits == (WritableBytes() >= len)
      ensures fits <==> !Trap(old(Geometry()), len)
    {
      if WritableBytes() < len {
        MakeSpace(len);
      }
      fits := WritableBytes() >= len;
    }

    method HasWritten(len: nat)
      requires Valid() && len <= WritableBytes()
      modifies this
      ensures Valid() && data == old(data)
      ensures Contents() == old(data[reader..writer + len])
      ensures Geometry() == old(Geometry()).(writer := old(writer) + len)
    {
      writer := writer + len;
    }

    /** Bytes stored into the free tail, by std::copy or by the kernel; the indices do not move. */
    method FillTail(bytes: seq<byte>)
      requires Valid() && |bytes| <= WritableBytes()
      modifies data
      ensures data[reader..writer + |bytes|] == old(Contents()) + bytes
    {
      forall k | 0 <= k < |bytes| {
        data[writer + k] := bytes[k];
      }
      assert data[writer..writer + |bytes|] == bytes;
      assert data[reader..writer] == old(Contents());
      assert data[reader..writer + |bytes|] == data[reader..writer] + data[writer..writer + |bytes|];
    }

    method StoreTail(bytes: seq<byte>)
      requires Valid() && |bytes| <= WritableBytes()
      modifies this, data
      ensures Valid() && data == old(data)
      ensures Contents() == old(Contents()) + bytes
      ensures Geometry() == old(Geometry()).(writer := old(writer) + |bytes|)
    {
      FillTail(bytes);
      HasWritten(|bytes|);
    }

    /** Appends all of the bytes, unless the assertion on the room fails. */
    method Append(bytes: seq<byte>) returns (ok: bool)
      requires Valid()
      modifies this, data
      ensures Valid() && (data == old(data) || fresh(data))
      ensures ok <==> !Trap(old(Geometry()), |bytes|)
      ensures Contents() == if ok then old(Contents()) + bytes else old(Contents())
      ensures ok ==> Geometry() == Appended(old(Geometry()), |bytes|)
    {
      ok := EnsureWriteBytes(|bytes|);
      if ok {
        StoreTail(bytes);
      }
    }

    /** The kernel fills the tail first, then the spill area, which is appended afterwards. */
    method Scatter(bytes: seq<byte>) returns (ok: bool)
      requires Valid()
      modifies this, data
      ensures Valid() && (data == old(data) || fresh(data))
      ensures ok <==> !ReadTrap(old(Geometry()), |bytes|)
      ensures ok ==> Contents() == old(Contents()) + bytes
      ensures ok ==> Geometry() == ReadInto(old(Geometry()), |bytes|)
    {
      ok := true;
      var writable := WritableBytes();
      if |bytes| <= writable {
        StoreTail(bytes);
      } else {
        SplitJoins(Contents(), bytes, writable);
        StoreTail(bytes[..writable]);
        ok := Append(bytes[writable..]);
      }
    }

    /** Scatter read into the tail and the spill area. The kernel moves a prefix of the stream. */
    method ReadFd(stream: seq<byte>, io: Io, errnoIn: int)
      returns (n: int, errno: int, rest: seq<byte>, ok: bool)
      requires Valid()
      modifies this, data
      ensures Valid() && (data == old(data) || fresh(data))
      ensures io.Fails? ==>
        n == -1 && errno == io.errno && rest == stream && ok && Geometry() == old(Geometry()) && Contents() == old(Contents())
      ensures io.Moves? ==>
        && errno == errnoIn
        && n == ReadCount(old(Geometry()), |stream|, io.max)
        && rest == stream[n..]
        && (ok <==> !ReadTrap(old(Geometry()), n))
        && (ok ==> Contents() == old(Contents()) + stream[..n])
        && (ok ==> Geometry() == ReadInto(old(Geometry()), n))
    {
      errno, rest, ok := errnoIn, stream, true;
      match io
      case Fails(e) =>
        n := -1;
        errno := e;
      case Moves(max) =>
        n := Min(max, Min(|stream|, WritableBytes() + SPILL_SIZE));
        rest := stream[n..];
        ok := Scatter(stream[..n]);
    }

    method WriteFd(wire: seq<byte>, io: Io, errnoIn: int)
      returns (n: int, errno: int, wire': seq<byte>)
      requires Valid()
      modifies this
      ensures Valid() && data == old(data)
      ensures io.Fails? ==>
        n == -1 && errno == io.errno && wire' == wire && Geometry() == old(Geometry()) && Contents() == old(Contents())
      ensures io.Moves? ==>
        && n == Min(io.max, old(ReadableBytes())) && errno == errnoIn
        && wire' == wire + old(Contents())[..n] && Contents() == old(Contents())[n..]
        && Geometry() == Written(old(Geometry()), n)
    {
      errno, wire' := errnoIn, wire;
      match io
      case Fails(e) =>
        n := -1;
        errno := e;
      case Moves(max) =>
        n := Min(max, ReadableBytes());
        assert Contents()[..n] == data[reader..reader + n] && Contents()[n..] == data[reader + n..writer];
        wire' := wire + data[reader..reader + n];
        reader := reader + n;
    }

    /** One call of readFd in the loop below, seen from the loop's outcome. */
    method ReadRound(stream: seq<byte>, script: seq<Io>, errnoIn: int)
      returns (len: int, errno: int, rest: seq<byte>, ok: bool)
      requires Valid()
      modifies this, data
      ensures Valid() && (data == old(data) || fresh(data))
      ensures -1 <= len <= |stream|
      ensures var o := ReadLoop(old(Geometry()), |stream|, script, errnoIn);
        if !ok then o == Aborted
        else if len <= 0 then o == Done(0, if errno == EAGAIN then 0 else len, errno)
        else errno == errnoIn && o == ReadLoop(Geometry(), |rest|, LaterIo(script), errnoIn).After(len)
      ensures ok ==>
        && Contents() + rest == old(Contents()) + stream
        && |rest| == |stream| - (if len > 0 then len else 0)
    {
      ghost var start := Contents();
      len, errno, rest, ok := ReadFd(stream, NextIo(script), errnoIn);
      if ok && len >= 0 {
        SplitJoins(start, stream, len);
      }
    }

    /** Reads until the first result that is not positive. Terminates on every finite stream. */
    method ReadFdET(stream: seq<byte>, script: seq<Io>, errnoIn: int)
      returns (ret: int, errno: int, rest: seq<byte>, ok: bool)
      requires Valid()
      modifies this, data
      ensures Valid() && (data == old(data) || fresh(data))
      ensures var o := ReadLoop(old(Geometry()), |stream|, script, errnoIn);
        && (ok <==> o.Done?)
        && (ok ==> ret == o.ret && errno == o.errno)
        && (ok ==> o.moved <= |stream| && rest == stream[o.moved..] && Contents() == old(Contents()) + stream[..o.moved])
    {
      var n := 0;
      ghost var o, start := ReadLoop(Geometry(), |stream|, script, errnoIn), Contents();
      errno, rest, ok := errnoIn, stream, true;
      var todo := script;
      while true
        invariant Valid() && (data == old(data) || fresh(data)) && errno == errnoIn && ok
        invariant 0 <= n <= |stream| && |rest| == |stream| - n
        invariant Contents() + rest == start + stream
        invariant o == ReadLoop(Geometry(), |rest|, todo, errnoIn).After(n)
        decreases |rest|
      {
        var len;
        len, errno, rest, ok := ReadRound(rest, todo, errno);
        if !ok {
          ret := 0;
          return;
        }
        if len <= 0 {
          CutAt(start, stream, Contents(), rest, n);
          if errno == EAGAIN {
            break;
          } else {
            ret := len;
            return;
          }
        }
        todo := LaterIo(todo);
        n := n + len;
      }
      ret := n;
    }

    /** One call of writeFd in the loop below, seen from the loop's outcome. */
    method WriteRound(wire: seq<byte>, script: seq<Io>, errnoIn: int)
      returns (len: int, errno: int, wire': seq<byte>)
      requires Valid()
      modifies this
      ensures Valid() && data == old(data)
      ensures -1 <= len <= old(ReadableBytes()) && ReadableBytes() == old(ReadableBytes()) - (if len > 0 then len else 0)
      ensures wire' + Contents() == wire + old(Contents()) && |wire'| == |wire| + (if len > 0 then len else 0)
      ensures var o := WriteLoop(old(ReadableBytes()), script, errnoIn);
        if len <= 0 then o == Done(0, if errno == EAGAIN then 0 else len, errno)
        else errno == errnoIn && o == WriteLoop(ReadableBytes(), LaterIo(script), errnoIn).After(len)
    {
      ghost var held := Contents();
      len, errno, wire' := WriteFd(wire, NextIo(script), errnoIn);
      if len >= 0 {
        SplitJoins(wire, held, len);
      }
    }

    /** Writes until the first result that is not positive. Once drained, the kernel accepts nothing. */
    method WriteFdET(wire: seq<byte>, script: seq<Io>, errnoIn: int)
      returns (ret: int, errno: int, wire': seq<byte>)
      requires Valid()
      modifies this
      ensures Valid() && data == old(data)
      ensures wire' + Contents() == wire + old(Contents())
      ensures var o := WriteLoop(old(ReadableBytes()), script, errnoIn);
        o.Done? && ret == o.ret && errno == o.errno && |wire'| == |wire| + o.moved
    {
      var n := 0;
      ghost var o := WriteLoop(ReadableBytes(), script, errnoIn);
      errno, wire' := errnoIn, wire;
      var todo := script;
      while true
        invariant Valid() && data == old(data) && errno == errnoIn
        invariant n >= 0 && |wire'| == |wire| + n
        invariant wire' + Contents() == wire + old(Contents())
        invariant o == WriteLoop(ReadableBytes(), todo, errnoIn).After(n)
        decreases ReadableBytes()
      {
        var len;
        len, errno, wire' := WriteRound(wire', todo, errno);
        if len <= 0 {
          if errno == EAGAIN {
            break;
          } else {
            return len, errno, wire';
          }
        }
        todo := LaterIo(todo);
        n := n + len;
      }
      ret := n;
    }
  }

  // ---------- Whole runs: the buffer is a byte queue until the first trapped request ----------

  /** Retrieve asks for at most what is there, as its assertion demands; Read takes from a stream, and
      Write gives to the wire what the kernel takes. */
  datatype Op = Append(bytes: seq<byte>) | Retrieve(len: nat) | Read(stream: seq<byte>, max: nat) | Write(max: nat)

  datatype Model = Model(shape: Shape, queue: seq<byte>, wire: seq<byte>)

  predicate Consistent(m: Model) {
    m.shape.Valid() && |m.queue| == m.shape.Readable()
  }

  predicate Traps(m: Model, op: Op)
    requires m.shape.Valid()
  {
    match op
    case Append(bytes) => Trap(m.shape, |bytes|)
    case Read(stream, max) => ReadTrap(m.shape, ReadCount(m.shape, |stream|, max))
    case _ => false
  }

  function Step(m: Model, op: Op): (m': Model)
    requires Consistent(m) && !Traps(m, op)
    ensures Consistent(m')
  {
    match op
    case Append(bytes) => m.(shape := Appended(m.shape, |bytes|), queue := m.queue + bytes)
    case Retrieve(len) =>
      var n := Min(len, |m.queue|);
      m.(shape := Retrieved(m.shape, n), queue := m.queue[n..])
    case Read(stream, max) =>
      var n := ReadCount(m.shape, |stream|, max);
      m.(shape := ReadInto(m.shape, n), queue := m.queue + stream[..n])
    case Write(max) =>
      var n := Min(max, |m.queue|);
      Model(Written(m.shape, n), m.queue[n..], m.wire + m.queue[..n])
  }

  datatype RunResult = Trapping | Ran(m: Model)

  function Run(start: Shape, ops: seq<Op>): (r: RunResult)
    requires start.Valid() && start.Readable() == 0
    ensures r.Ran? ==> Consistent(r.m)
  {
    if ops == [] then Ran(Model(start, [], []))
    else
      match Run(start, ops[..|ops| - 1])
      case Trapping => Trapping
      case Ran(m) => if Traps(m, ops[|ops| - 1]) then Trapping else Ran(Step(m, ops[|ops| - 1]))
  }

  lemma RunStep(start: Shape, ops: seq<Op>, i: nat)
    requires start.Valid() && start.Readable() == 0 && i < |ops|
    ensures Run(start, ops[..i + 1]) ==
      match Run(start, ops[..i])
      case Trapping => Trapping
      case Ran(m) => if Traps(m, ops[i]) then Trapping else Ran(Step(m, ops[i]))
  {
    assert ops[..i + 1][..i] == ops[..i];
  }

  lemma {:induction false} TrappingStays(start: Shape, ops: seq<Op>, k: nat)
    requires start.Valid() && start.Readable() == 0
    requires k <= |ops| && Run(start, ops[..k]).Trapping?
    ensures Run(start, ops).Trapping?
    decreases |ops| - k
  {
    if k < |ops| {
      RunStep(start, ops, k);
      TrappingStays(start, ops, k + 1);
    } else {
      assert ops[..k] == ops;
    }
  }

  lemma StepKeepsGuard(m: Model, op: Op)
    requires Consistent(m) && !Traps(m, op)
    ensures Step(m, op).shape.guard == m.shape.guard
  {
  }

  /** With the intended guard no run is ever trapped. */
  lemma {:induction false} IntendedRunsThrough(start: Shape, ops: seq<Op>)
    requires start.Valid() && start.Readable() == 0 && start.guard.AsIntended?
    ensures Run(start, ops).Ran? && Run(start, ops).m.shape.guard.AsIntended?
  {
    if ops != [] {
      var rest, op := ops[..|ops| - 1], ops[|ops| - 1];
      IntendedRunsThrough(start, rest);
      var m := Run(start, rest).m;
      match op {
        case Append(bytes) => IntendedGuardSuffices(m.shape, |bytes|);
        case Read(stream, max) => IntendedGuardSuffices(m.shape, ReadCount(m.shape, |stream|, max));
        case _ =>
      }
      StepKeepsGuard(m, op);
    }
  }

  // ---------- A buffer that is only written out never reclaims its prefix ----------

  /** Chunks appended one by one, each written out completely before the next. */
  function Drains(chunks: seq<seq<byte>>): seq<Op> {
    if chunks == [] then []
    else
      var last := chunks[|chunks| - 1];
      Drains(chunks[..|chunks| - 1]) + [Append(last)] + [Write(|last|)]
  }

  function Flat(chunks: seq<seq<byte>>): seq<byte> {
    if chunks == [] then [] else Flat(chunks[..|chunks| - 1]) + chunks[|chunks| - 1]
  }

  lemma RunOneMore(start: Shape, ops: seq<Op>, op: Op)
    requires start.Valid() && start.Readable() == 0
    ensures Run(start, ops + [op]) ==
      match Run(start, ops)
      case Trapping => Trapping
      case Ran(m) => if Traps(m, op) then Trapping else Ran(Step(m, op))
  {
    assert (ops + [op])[..|ops|] == ops;
  }

  /** One chunk through an empty buffer: as the code is written it is never trapped, and the indices
      stay behind it. */
  lemma DrainOne(m: Model, chunk: seq<byte>)
    requires Consistent(m) && m.queue == [] && m.shape.guard.AsWritten?
    ensures !Traps(m, Append(chunk))
    ensures var end := m.shape.writer + |chunk|;
      Step(Step(m, Append(chunk)), Write(|chunk|)) ==
      Model(Shape(end, end, if end > m.shape.size then end else m.shape.size, AsWritten), [], m.wire + chunk)
  {
    assert [] + chunk == chunk && chunk[..|chunk|] == chunk;
  }

  /** However small the chunks, the vector ends up with room for every byte that has ever gone
      through: an empty buffer has nothing readable, so makeSpace grows it and never compacts. */
  lemma {:induction false} DrainedBufferOnlyGrows(size: nat, chunks: seq<seq<byte>>)
    ensures var total := |Flat(chunks)|;
      Run(Shape(0, 0, size, AsWritten), Drains(chunks)) ==
      Ran(Model(Shape(total, total, if total > size then total else size, AsWritten), [], Flat(chunks)))
  {
    if chunks != [] {
      var rest, last, start := chunks[..|chunks| - 1], chunks[|chunks| - 1], Shape(0, 0, size, AsWritten);
      DrainedBufferOnlyGrows(size, rest);
      RunOneMore(start, Drains(rest), Append(last));
      RunOneMore(start, Drains(rest) + [Append(last)], Write(|last|));
      DrainOne(Run(start, Drains(rest)).m, last);
    }
  }

  // ---------- The real buffer through whole runs ----------

  method Apply(b: Buffer, op: Op, wire: seq<byte>) returns (ok: bool, wire': seq<byte>)
    requires b.Valid()
    modifies b, b.data
    ensures b.Valid() && (b.data == old(b.data) || fresh(b.data))
    ensures var m := Model(old(b.Geometry()), old(b.Contents()), wire);
      && (ok <==> !Traps(m, op))
      && (ok ==> Model(b.Geometry(), b.Contents(), wire') == Step(m, op))
  {
    ok, wire' := true, wire;
    match op {
      case Append(bytes) =>
        ok := b.Append(bytes);
      case Retrieve(len) =>
        b.Retrieve(Min(len, b.ReadableBytes()));
      case Read(stream, max) =>
        var n, errno, rest;
        n, errno, rest, ok := b.ReadFd(stream, Moves(max), 0);
      case Write(max) =>
        var n, errno;
        n, errno, wire' := b.WriteFd(wire, Moves(max), 0);
    }
  }

  /** Every sequence of appends, retrieves, reads and writes: all assertions hold exactly when no
      request is trapped, and then the stored bytes are the abstract queue, the wire has what was
      written, and the vector has the size computed. */
  method Perform(size: nat, guard: Guard, ops: seq<Op>) returns (ok: bool, left: seq<byte>, wire: seq<byte>, finalSize: nat)
    ensures ok <==> Run(Shape(0, 0, size, guard), ops).Ran?
    ensures ok ==>
      var m := Run(Shape(0, 0, size, guard), ops).m;
      left == m.queue && wire == m.wire && finalSize == m.shape.size
  {
    var b := new Buffer(size, guard);
    wire := [];
    for i := 0 to |ops|
      invariant b.Valid() && fresh(b) && fresh(b.data)
      invariant Run(Shape(0, 0, size, guard), ops[..i]) == Ran(Model(b.Geometry(), b.Contents(), wire))
    {
      RunStep(Shape(0, 0, size, guard), ops, i);
      ok, wire := Apply(b, ops[i], wire);
      if !ok {
        TrappingStays(Shape(0, 0, size, guard), ops, i + 1);
        return false, [], [], 0;
      }
    }
    assert ops[..|ops|] == ops;
    ok := true;
    left := b.data[b.reader..b.writer];
    finalSize := b.data.Length;
  }
}
