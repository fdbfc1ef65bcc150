/** Event masks and event dispatch of a channel (twnl/Channel.h, twnl/Channel.cc). */
module Channels {
  /** The bits of an epoll mask; a mask is the set of its bits. */
  datatype Event = IN | PRI | OUT | ERR | HUP | RDHUP | EDGE

  type Mask = set<Event>

  const NONE_EVENT: Mask := {}

  datatype Mode = LT | ET

  function ReadEvent(mode: Mode): Mask {
    match mode
    case LT => {IN, PRI}
    case ET => {EDGE, IN, PRI}
  }

  function WriteEvent(mode: Mode): Mask {
    match mode
    case LT => {OUT}
    case ET => {EDGE, OUT}
  }

  function WithReading(mode: Mode, events: Mask): Mask { events + ReadEvent(mode) }

  function WithoutReading(mode: Mode, events: Mask): Mask { events - ReadEvent(mode) }

  function WithWriting(mode: Mode, events: Mask): Mask { events + WriteEvent(mode) }

  function WithoutWriting(mode: Mode, events: Mask): Mask { events - WriteEvent(mode) }

  predicate IsReading(mode: Mode, events: Mask) { events * ReadEvent(mode) != {} }

  predicate IsWriting(mode: Mode, events: Mask) { events * WriteEvent(mode) != {} }

  /** Level triggered, the tests are on single bits. */
  lemma LevelTests(events: Mask)
    ensures IsReading(LT, events) <==> IN in events || PRI in events
    ensures IsWriting(LT, events) <==> OUT in events
  {
    if IN in events { assert IN in events * ReadEvent(LT); }
    if PRI in events { assert PRI in events * ReadEvent(LT); }
    if OUT in events { assert OUT in events * WriteEvent(LT); }
  }

  /** Edge triggered, enabling asks for the flag besides the events themselves, and disabling takes
      all of them away. */
  lemma EdgeMasks(events: Mask)
    ensures WithReading(ET, events) == events + {IN, PRI} + {EDGE} && WithoutReading(ET, events) == events - {IN, PRI} - {EDGE}
    ensures WithWriting(ET, events) == events + {OUT} + {EDGE} && WithoutWriting(ET, events) == events - {OUT} - {EDGE}
  {
  }

  /** Under level triggering reading and writing are switched independently. */
  lemma SwitchesAreIndependent(events: Mask)
    ensures IsReading(LT, WithReading(LT, events)) && !IsReading(LT, WithoutReading(LT, events))
    ensures IsWriting(LT, WithWriting(LT, events)) && !IsWriting(LT, WithoutWriting(LT, events))
    ensures IsWriting(LT, WithReading(LT, events)) == IsWriting(LT, WithoutReading(LT, events)) == IsWriting(LT, events)
    ensures IsReading(LT, WithWriting(LT, events)) == IsReading(LT, WithoutWriting(LT, events)) == IsReading(LT, events)
  {
    LevelTests(events);
    LevelTests(WithReading(LT, events));
    LevelTests(WithoutReading(LT, events));
    LevelTests(WithWriting(LT, events));
    LevelTests(WithoutWriting(LT, events));
  }

  /** The edge flag sits in both edge-triggered masks: enabling reading makes the channel look as
      if it were writing exactly in that mode (or when it was writing before). */
  lemma ReadingLooksLikeWriting(mode: Mode, events: Mask)
    ensures IsWriting(mode, WithReading(mode, events)) <==> mode.ET? || IsWriting(mode, events)
  {
    match mode
    case LT => SwitchesAreIndependent(events);
    case ET => assert EDGE in WithReading(ET, events) * WriteEvent(ET);
  }

  // ---------- Dispatch ----------

  datatype Callback = CloseCallback | ErrorCallback | ReadCallback | WriteCallback {
    function Rank(): nat {
      match this
      case CloseCallback => 0
      case ErrorCallback => 1
      case ReadCallback => 2
      case WriteCallback => 3
    }
  }

  predicate Triggers(revents: Mask, cb: Callback) {
    match cb
    case CloseCallback => HUP in revents && IN !in revents
    case ErrorCallback => ERR in revents
    case ReadCallback => IN in revents || PRI in revents || RDHUP in revents
    case WriteCallback => OUT in revents
  }

  function ByRank(k: nat): (cb: Callback)
    requires k < 4
    ensures cb.Rank() == k
  {
    if k == 0 then CloseCallback else if k == 1 then ErrorCallback else if k == 2 then ReadCallback else WriteCallback
  }

  /** The callbacks of rank below upTo that one dispatch runs. */
  function Dispatched(revents: Mask, installed: set<Callback>, upTo: nat): seq<Callback>
    requires upTo <= 4
  {
    if upTo == 0 then []
    else
      var before, cb := Dispatched(revents, installed, upTo - 1), ByRank(upTo - 1);
      if cb in installed && Triggers(revents, cb) then before + [cb] else before
  }

  /** Exactly the triggered and installed callbacks, each once, in rank order. */
  lemma {:induction false} DispatchIsExact(revents: Mask, installed: set<Callback>, upTo: nat)
    requires upTo <= 4
    ensures var calls := Dispatched(revents, installed, upTo);
      && (forall cb :: cb in calls <==> cb.Rank() < upTo && cb in installed && Triggers(revents, cb))
      && (forall i, j :: 0 <= i < j < |calls| ==> calls[i].Rank() < calls[j].Rank())
  {
    if upTo > 0 {
      DispatchIsExact(revents, installed, upTo - 1);
      forall cb: Callback
        ensures cb.Rank() == upTo - 1 <==> cb == ByRank(upTo - 1)
      {
      }
    }
  }

  /** One dispatch closes and reads exactly on a hang-up without input that comes with urgent or
      half-close data. */
  lemma CloseAndReadTogether(revents: Mask)
    ensures Triggers(revents, CloseCallback) && Triggers(revents, ReadCallback) <==>
      HUP in revents && IN !in revents && (PRI in revents || RDHUP in revents)
  {
  }

  /** The four tests of the dispatch, in terms of the reported events, and their order. */
  lemma DispatchRuns(revents: Mask, installed: set<Callback>)
    ensures Dispatched(revents, installed, 4) ==
      (if HUP in revents && IN !in revents && CloseCallback in installed then [CloseCallback] else [])
      + (if ERR in revents && ErrorCallback in installed then [ErrorCallback] else [])
      + (if revents * {IN, PRI, RDHUP} != {} && ReadCallback in installed then [ReadCallback] else [])
      + (if OUT in revents && WriteCallback in installed then [WriteCallback] else [])
  {
    assert IN in revents ==> IN in revents * {IN, PRI, RDHUP};
    assert PRI in revents ==> PRI in revents * {IN, PRI, RDHUP};
    assert RDHUP in revents ==> RDHUP in revents * {IN, PRI, RDHUP};
    assert Dispatched(revents, installed, 0) == [];
    assert Dispatched(revents, installed, 1) == if HUP in revents && IN !in revents && CloseCallback in installed then [CloseCallback] else [];
    assert Dispatched(revents, installed, 2) ==
      Dispatched(revents, installed, 1) + (if ERR in revents && ErrorCallback in installed then [ErrorCallback] else []);
    assert Dispatched(revents, installed, 3) ==
      Dispatched(revents, installed, 2) + (if revents * {IN, PRI, RDHUP} != {} && ReadCallback in installed then [ReadCallback] else []);
  }

  class Channel {
    const fd: nat
    var events: Mask
    var revents: Mask
    var index: int
    var eventHandling: bool

    constructor (fd: nat)
      ensures this.fd == fd && events == NONE_EVENT && revents == {} && index == -1 && !eventHandling
    {
      this.fd := fd;
      events, revents, index, eventHandling := NONE_EVENT, {}, -1, false;
    }

    /** The dispatch, in the order close, error, read, write. */
    method HandleEvent(installed: set<Callback>) returns (calls: seq<Callback>)
      modifies this`eventHandling
      ensures !eventHandling
      ensures calls == Dispatched(revents, installed, 4)
      ensures CloseCallback in calls <==> CloseCallback in installed && HUP in revents && IN !in revents
      ensures ErrorCallback in calls <==> ErrorCallback in installed && ERR in revents
      ensures ReadCallback in calls <==> ReadCallback in installed && (IN in revents || PRI in revents || RDHUP in revents)
      ensures WriteCallback in calls <==> WriteCallback in installed && OUT in revents
      ensures forall i, j :: 0 <= i < j < |calls| ==> calls[i].Rank() < calls[j].Rank()
    {
      DispatchIsExact(revents, installed, 4);
      eventHandling := true;
      calls := [];
      if HUP in revents && IN !in revents && CloseCallback in installed {
        calls := calls + [CloseCallback];
      }
      assert calls == Dispatched(revents, installed, 1);
      if ERR in revents && ErrorCallback in installed {
        calls := calls + [ErrorCallback];
      }
      assert calls == Dispatched(revents, installed, 2);
      if (IN in revents || PRI in revents || RDHUP in revents) && ReadCallback in installed {
        calls := calls + [ReadCallback];
      }
      assert calls == Dispatched(revents, installed, 3);
      if OUT in revents && WriteCallback in installed {
        calls := calls + [WriteCallback];
      }
      eventHandling := false;
    }
  }
}
