/** Timers ordered by deadline behind a one-shot timerfd (twnl/TimerQueue.cc, twnl/Timer.h). */
module Timers {
  import opened Basics

  const MILLISECOND := 1_000_000
  const SECOND := 1_000_000_000

  // ---------- The ordered set ----------

  /** A queued timer: deadline, address of the Timer object (positive), repeat interval. */
  datatype Entry = Entry(when: int, addr: int, interval: int) {
    predicate Repeats() {
      interval > 0
    }

    function Restarted(): Entry {
      this.(when := when + interval)
    }
  }

  /** std::pair's order on (deadline, address). */
  predicate Less(aWhen: int, aAddr: int, bWhen: int, bAddr: int) {
    aWhen < bWhen || (aWhen == bWhen && aAddr < bAddr)
  }

  predicate Before(a: Entry, b: Entry) {
    Less(a.when, a.addr, b.when, b.addr)
  }

  ghost predicate Sorted(q: seq<Entry>) {
    forall i, j :: 0 <= i < j < |q| ==> Before(q[i], q[j])
  }

  predicate Queued(q: seq<Entry>, addr: int) {
    exists e :: e in q && e.addr == addr
  }

  /** A legal queue: in order, and no Timer object twice. */
  ghost predicate Proper(q: seq<Entry>) {
    && Sorted(q)
    && (forall i, j :: 0 <= i < j < |q| ==> q[i].addr != q[j].addr)
    && (forall e :: e in q ==> e.addr > 0)
  }

  function Insert(q: seq<Entry>, e: Entry): (r: seq<Entry>)
    ensures forall x :: x in r <==> x == e || x in q
    ensures |r| == |q| + 1
  {
    if q == [] || Before(e, q[0]) then [e] + q else [q[0]] + Insert(q[1..], e)
  }

  lemma HeadAndTail(q: seq<Entry>)
    requires Proper(q) && q != []
    ensures Proper(q[1..]) && q[0].addr > 0
    ensures forall x :: x in q[1..] ==> Before(q[0], x) && q[0].addr != x.addr
  {
    var rest := q[1..];
    assert q[0] in q;
    forall x | x in rest
      ensures x in q && Before(q[0], x) && q[0].addr != x.addr
    {
      var k :| 0 <= k < |rest| && rest[k] == x;
      assert q[k + 1] == x;
    }
  }

  lemma ConsIsProper(e: Entry, q: seq<Entry>)
    requires Proper(q) && e.addr > 0
    requires forall x :: x in q ==> Before(e, x) && e.addr != x.addr
    ensures Proper([e] + q)
  {
    var r := [e] + q;
    forall i, j | 0 <= i < j < |r|
      ensures Before(r[i], r[j]) && r[i].addr != r[j].addr
    {
      assert r[j] == q[j - 1] && r[j] in q;
      if i > 0 { assert r[i] == q[i - 1]; }
    }
  }

  lemma {:induction false} InsertKeepsProper(q: seq<Entry>, e: Entry)
    requires Proper(q) && e.addr > 0 && !Queued(q, e.addr)
    ensures Proper(Insert(q, e))
  {
    if q == [] {
    } else {
      HeadAndTail(q);
      assert q[0] in q;
      assert forall x :: x in q ==> x.addr != e.addr;
      if Before(e, q[0]) {
        assert q == [q[0]] + q[1..];
        ConsIsProper(e, q);
      } else {
        assert forall x :: x in q[1..] ==> x in q;
        InsertKeepsProper(q[1..], e);
        ConsIsProper(q[0], Insert(q[1..], e));
      }
    }
  }

  /** Insertion puts the new entry before the first one it precedes. */
  lemma {:induction false} InsertAt(q: seq<Entry>, e: Entry, i: nat)
    requires i <= |q| && (forall k :: 0 <= k < i ==> !Before(e, q[k]))
    requires i < |q| ==> Before(e, q[i])
    ensures Insert(q, e) == q[..i] + [e] + q[i..]
  {
    if i > 0 {
      InsertAt(q[1..], e, i - 1);
      assert q == [q[0]] + q[1..];
    }
  }

  /** std::set::erase of one timer's key. */
  function Erase(q: seq<Entry>, addr: int): (r: seq<Entry>)
    ensures forall x :: x in r <==> x in q && x.addr != addr
  {
    if q == [] then [] else if q[0].addr == addr then Erase(q[1..], addr) else [q[0]] + Erase(q[1..], addr)
  }

  lemma {:induction false} EraseAbsent(q: seq<Entry>, addr: int)
    requires forall x :: x in q ==> x.addr != addr
    ensures Erase(q, addr) == q
  {
    if q != [] {
      EraseAbsent(q[1..], addr);
    }
  }

  lemma {:induction false} EraseAt(q: seq<Entry>, i: nat)
    requires Proper(q) && i < |q|
    ensures Erase(q, q[i].addr) == q[..i] + q[i + 1..]
  {
    HeadAndTail(q);
    var rest := q[1..];
    if i > 0 {
      assert rest[i - 1] == q[i] && q[i] in rest;
      EraseAt(rest, i - 1);
      assert q[..i] + q[i + 1..] == [q[0]] + (rest[..i - 1] + rest[i..]);
    } else {
      EraseAbsent(rest, q[0].addr);
      assert q[..0] + rest == rest;
    }
  }

  /** Cancelling a queued timer removes it and no other. */
  lemma {:induction false} EraseRemovesOne(q: seq<Entry>, addr: int)
    requires Proper(q)
    ensures Proper(Erase(q, addr))
    ensures |Erase(q, addr)| == if Queued(q, addr) then |q| - 1 else |q|
    ensures !Queued(Erase(q, addr), addr)
    ensures Erase(q, addr) != [] && q != [] ==> q[0].when <= Erase(q, addr)[0].when
  {
    if q != [] {
      var rest, r := q[1..], Erase(q[1..], addr);
      HeadAndTail(q);
      EraseRemovesOne(rest, addr);
      ConsIsProper(q[0], r);
      assert q == [q[0]] + rest;
      assert Queued(q, addr) <==> q[0].addr == addr || Queued(rest, addr);
      if q[0].addr == addr {
        assert !Queued(rest, addr);
      }
      if r != [] { assert r[0] in r; }
    }
  }

  // ---------- Splitting off what has expired ----------

  /** std::set::lower_bound: the first place whose entry is not less than the key. */
  function LowerBound(q: seq<Entry>, when: int, addr: int): (i: nat)
    ensures i <= |q|
    ensures forall k :: 0 <= k < i ==> Less(q[k].when, q[k].addr, when, addr)
    ensures i < |q| ==> !Less(q[i].when, q[i].addr, when, addr)
  {
    if q == [] || !Less(q[0].when, q[0].addr, when, addr) then 0 else 1 + LowerBound(q[1..], when, addr)
  }

  function Expired(q: seq<Entry>, now: int): seq<Entry> {
    q[..LowerBound(q, now + 1, 0)]
  }

  function Remaining(q: seq<Entry>, now: int): seq<Entry> {
    q[LowerBound(q, now + 1, 0)..]
  }

  lemma SplitIsProper(q: seq<Entry>, n: nat)
    requires Proper(q) && n <= |q|
    ensures Proper(q[..n]) && Proper(q[n..])
    ensures forall e :: e in q[..n] ==> e in q && !Queued(q[n..], e.addr)
    ensures forall e :: e in q[n..] ==> e in q
  {
    forall e | e in q[..n]
      ensures !Queued(q[n..], e.addr)
    {
      var i :| 0 <= i < n && q[i] == e;
      forall x | x in q[n..]
        ensures x.addr != e.addr
      {
        var j :| 0 <= j < |q| - n && q[n..][j] == x;
        assert q[i].addr != q[n + j].addr;
      }
    }
  }

  lemma BoundSplitsByDeadline(q: seq<Entry>, now: int, k: nat)
    requires Proper(q) && k < |q|
    ensures k < LowerBound(q, now + 1, 0) <==> q[k].when <= now
  {
    var n := LowerBound(q, now + 1, 0);
    assert q[k] in q && q[k].addr > 0;
    if n < k { assert Before(q[n], q[k]); }
  }

  lemma PrefixIsDue(q: seq<Entry>, now: int)
    requires Proper(q)
    ensures forall e :: e in Expired(q, now) ==> e.when <= now
    ensures forall e :: e in Remaining(q, now) ==> e.when > now
  {
    var n := LowerBound(q, now + 1, 0);
    forall e | e in q[..n]
      ensures e.when <= now
    {
      var k :| 0 <= k < n && q[..n][k] == e;
      BoundSplitsByDeadline(q, now, k);
    }
    forall e | e in q[n..]
      ensures e.when > now
    {
      var k :| 0 <= k < |q| - n && q[n..][k] == e;
      BoundSplitsByDeadline(q, now, n + k);
    }
  }

  /** The bound (now + 1ns, null) takes exactly the entries due at now, in deadline order. */
  lemma ExpiredIsExact(q: seq<Entry>, now: int)
    requires Proper(q)
    ensures q == Expired(q, now) + Remaining(q, now)
    ensures forall e :: e in Expired(q, now) <==> e in q && e.when <= now
    ensures forall e :: e in Remaining(q, now) <==> e in q && e.when > now
  {
    PrefixIsDue(q, now);
    var a, b := Expired(q, now), Remaining(q, now);
    assert q == a + b;
    assert forall e :: e in q <==> e in a || e in b;
  }

  // ---------- The timerfd ----------

  datatype TimerFd = Disarmed | Armed(at: int, since: int) | Unread

  datatype Timespec = Timespec(sec: int, nsec: int) {
    function Nanoseconds(): int {
      sec * SECOND + nsec
    }
  }

  function Max(a: int, b: int): int {
    if a < b then b else a
  }

  /** The relative time handed to the kernel: well formed, never zero (which would disarm), exactly
      the distance to the deadline but at least one millisecond. */
  function DurationFromNow(when: int, now: int): (t: Timespec)
    ensures 0 <= t.sec && 0 <= t.nsec < 1_000_000_000
    ensures t.sec * 1_000_000_000 + t.nsec == t.Nanoseconds() == Max(when - now, 1_000_000) && t.Nanoseconds() != 0
  {
    var ns := if when - now < MILLISECOND then MILLISECOND else when - now;
    Timespec(ns / SECOND, ns % SECOND)
  }

  function Arm(when: int, now: int): TimerFd {
    Armed(now + DurationFromNow(when, now).Nanoseconds(), now)
  }

  // ---------- State and steps ----------

  datatype Firing = Firing(addr: int, deadline: int)

  datatype State = State(queue: seq<Entry>, fd: TimerFd, clock: int, fired: seq<Firing>)

  /** What a callback (or any other code on the loop thread) may do; time may pass meanwhile. */
  datatype Action = Add(e: Entry) | Cancel(addr: int) | Wait(ns: nat)

  function Tick(s: State, ns: nat): State {
    var clock := s.clock + ns;
    s.(clock := clock, fd := if s.fd.Armed? && s.fd.at <= clock then Unread else s.fd)
  }

  function AddTimer(s: State, e: Entry): State {
    var q := Insert(s.queue, e);
    s.(queue := q, fd := if q[0] == e then Arm(e.when, s.clock) else s.fd)
  }

  function CancelTimer(s: State, addr: int): State {
    s.(queue := Erase(s.queue, addr))
  }

  /** A new Timer object is none of the live ones; only queued timers may be cancelled, which
      excludes the running batch and freed objects. */
  predicate Legal(s: State, a: Action, batch: seq<Entry>) {
    match a
    case Add(e) => e.addr > 0 && !Queued(s.queue, e.addr) && !Queued(batch, e.addr)
    case Cancel(addr) => Queued(s.queue, addr)
    case Wait(_) => true
  }

  function Act(s: State, a: Action, batch: seq<Entry>): State {
    if !Legal(s, a, batch) then s
    else
      match a
      case Add(e) => AddTimer(s, e)
      case Cancel(addr) => CancelTimer(s, addr)
      case Wait(ns) => Tick(s, ns)
  }

  function ActAll(s: State, actions: seq<Action>, batch: seq<Entry>): State {
    if actions == [] then s
    else Act(ActAll(s, actions[..|actions| - 1], batch), actions[|actions| - 1], batch)
  }

  /** A fired timer leaves the batch: it goes back to the queue if it repeats, and is gone otherwise. */
  function Requeue(q: seq<Entry>, e: Entry): seq<Entry> {
    if e.Repeats() then Insert(q, e.Restarted()) else q
  }

  /** Runs the callback, then puts a repeating timer back one interval later. The timer that is
      running counts as part of the batch. */
  function Fire(s: State, batch: seq<Entry>, actions: seq<Action>): State
    requires batch != []
  {
    var e := batch[0];
    var s' := ActAll(s.(fired := s.fired + [Firing(e.addr, e.when)]), actions, batch);
    s'.(queue := Requeue(s'.queue, e))
  }

  function FireAll(s: State, batch: seq<Entry>, script: seq<seq<Action>>): State
    decreases |batch|
  {
    if batch == [] then s
    else if script == [] then FireAll(Fire(s, batch, []), batch[1..], [])
    else FireAll(Fire(s, batch, script[0]), batch[1..], script[1..])
  }

  /** timerfdRead: the expiry count is consumed; an armed timer stays armed. */
  function ReadTimerFd(fd: TimerFd): TimerFd {
    if fd.Unread? then Disarmed else fd
  }

  function HandleRead(s: State, script: seq<seq<Action>>): State {
    var now := s.clock;
    var s1 := s.(queue := Remaining(s.queue, now), fd := ReadTimerFd(s.fd));
    var s2 := FireAll(s1, Expired(s.queue, now), script);
    if s2.queue == [] then s2 else s2.(fd := Arm(s2.queue[0].when, s2.clock))
  }

  datatype Event = Do(a: Action) | Readable(script: seq<seq<Action>>)

  function Step(s: State, ev: Event): State {
    match ev
    case Do(a) => Act(s, a, [])
    case Readable(script) => HandleRead(s, script)
  }

  function Run(events: seq<Event>): State {
    if events == [] then State([], Disarmed, 0, [])
    else Step(Run(events[..|events| - 1]), events[|events| - 1])
  }

  // ---------- Ownership and arming, over every run ----------

  /** The next wake-up is not too late: an expiry is waiting to be read, or the timerfd goes off by
      the earliest deadline (or one millisecond after it was set, if that is later). */
  ghost predicate ArmedInTime(s: State) {
    s.queue != [] ==>
      s.fd.Unread? || (s.fd.Armed? && s.fd.at <= Max(s.queue[0].when, s.fd.since + MILLISECOND))
  }

  /** Each live timer is in exactly one of the queue and the running batch. */
  ghost predicate Apart(q: seq<Entry>, batch: seq<Entry>) {
    && Proper(q)
    && (forall i, j :: 0 <= i < j < |batch| ==> batch[i].addr != batch[j].addr)
    && (forall e :: e in batch ==> e.addr > 0 && !Queued(q, e.addr))
  }

  lemma SplitIsApart(q: seq<Entry>, now: int)
    requires Proper(q)
    ensures Apart(Remaining(q, now), Expired(q, now))
  {
    var n := LowerBound(q, now + 1, 0);
    SplitIsProper(q, n);
    forall e | e in q[..n]
      ensures e.addr > 0
    {
      assert e in q;
    }
  }

  lemma ActKeepsApart(s: State, a: Action, batch: seq<Entry>)
    requires Apart(s.queue, batch)
    ensures Apart(Act(s, a, batch).queue, batch)
    ensures Act(s, a, batch).fired == s.fired
  {
    if Legal(s, a, batch) {
      match a
      case Add(e) =>
        InsertKeepsProper(s.queue, e);
        forall b | b in batch
          ensures !Queued(Insert(s.queue, e), b.addr)
        {
        }
      case Cancel(addr) => EraseRemovesOne(s.queue, addr);
      case Wait(_) =>
    }
  }

  lemma {:induction false} ActAllKeepsApart(s: State, actions: seq<Action>, batch: seq<Entry>)
    requires Apart(s.queue, batch)
    ensures Apart(ActAll(s, actions, batch).queue, batch)
    ensures ActAll(s, actions, batch).fired == s.fired
  {
    if actions != [] {
      var before := actions[..|actions| - 1];
      ActAllKeepsApart(s, before, batch);
      ActKeepsApart(ActAll(s, before, batch), actions[|actions| - 1], batch);
    }
  }

  lemma RequeueKeepsApart(q: seq<Entry>, batch: seq<Entry>)
    requires batch != [] && Apart(q, batch)
    ensures Apart(Requeue(q, batch[0]), batch[1..])
  {
    var e := batch[0];
    assert e in batch;
    if e.Repeats() {
      InsertKeepsProper(q, e.Restarted());
    }
    forall b | b in batch[1..]
      ensures b.addr > 0 && b.addr != e.addr && !Queued(q, b.addr)
    {
      var k :| 0 <= k < |batch| - 1 && batch[1..][k] == b;
      assert batch[k + 1] == b && b in batch;
    }
  }

  lemma FireKeepsApart(s: State, batch: seq<Entry>, actions: seq<Action>)
    requires batch != [] && Apart(s.queue, batch)
    ensures Apart(Fire(s, batch, actions).queue, batch[1..])
    ensures Fire(s, batch, actions).fired == s.fired + [Firing(batch[0].addr, batch[0].when)]
  {
    var s0 := s.(fired := s.fired + [Firing(batch[0].addr, batch[0].when)]);
    ActAllKeepsApart(s0, actions, batch);
    RequeueKeepsApart(ActAll(s0, actions, batch).queue, batch);
  }

  function Log(batch: seq<Entry>): seq<Firing> {
    if batch == [] then [] else [Firing(batch[0].addr, batch[0].when)] + Log(batch[1..])
  }

  lemma {:induction false} FireAllKeepsApart(s: State, batch: seq<Entry>, script: seq<seq<Action>>)
    requires Apart(s.queue, batch)
    ensures Proper(FireAll(s, batch, script).queue)
    ensures FireAll(s, batch, script).fired == s.fired + Log(batch)
    decreases |batch|
  {
    if batch != [] {
      var actions := if script == [] then [] else script[0];
      var later := if script == [] then [] else script[1..];
      FireKeepsApart(s, batch, actions);
      FireAllKeepsApart(Fire(s, batch, actions), batch[1..], later);
      assert s.fired + Log(batch) == (s.fired + [Firing(batch[0].addr, batch[0].when)]) + Log(batch[1..]);
    }
  }

  /** One expiry handler run fires exactly the due entries, in deadline order, whatever the
      callbacks do, and leaves a legal queue with the timerfd armed for its front. */
  lemma HandleReadFiresDue(s: State, script: seq<seq<Action>>)
    requires Proper(s.queue)
    ensures Proper(HandleRead(s, script).queue) && ArmedInTime(HandleRead(s, script))
    ensures HandleRead(s, script).fired == s.fired + Log(Expired(s.queue, s.clock))
  {
    var s1 := s.(queue := Remaining(s.queue, s.clock), fd := ReadTimerFd(s.fd));
    SplitIsApart(s.queue, s.clock);
    FireAllKeepsApart(s1, Expired(s.queue, s.clock), script);
  }

  lemma ActKeepsArming(s: State, a: Action)
    requires Proper(s.queue) && ArmedInTime(s)
    ensures Proper(Act(s, a, []).queue) && ArmedInTime(Act(s, a, []))
  {
    ActKeepsApart(s, a, []);
    if Legal(s, a, []) {
      match a
      case Add(e) =>
      case Cancel(addr) => EraseRemovesOne(s.queue, addr);
      case Wait(_) =>
    }
  }

  /** Through every run of additions, cancellations, waiting and expiries, with callbacks that add
      and cancel timers, the queue stays legal and outside the handler the timerfd is armed in time. */
  lemma {:induction false} AlwaysArmed(events: seq<Event>)
    ensures Proper(Run(events).queue) && ArmedInTime(Run(events))
  {
    if events != [] {
      AlwaysArmed(events[..|events| - 1]);
      var s := Run(events[..|events| - 1]);
      match events[|events| - 1]
      case Do(a) => ActKeepsArming(s, a);
      case Readable(script) => HandleReadFiresDue(s, script);
    }
  }

  // ---------- For which moment the timerfd is set ----------

  lemma InsertHead(q: seq<Entry>, e: Entry)
    ensures Insert(q, e)[0] == if q == [] || Before(e, q[0]) then e else q[0]
  {
  }

  /** A timer that becomes the first one sets the timerfd for its own deadline, or a millisecond from
      now if that is later; any other leaves it alone. */
  lemma AddTimerArms(s: State, e: Entry)
    requires !Queued(s.queue, e.addr)
    ensures AddTimer(s, e).fd ==
      if s.queue == [] || e.when < s.queue[0].when || (e.when == s.queue[0].when && e.addr < s.queue[0].addr) then
        Armed(if e.when > s.clock + 1_000_000 then e.when else s.clock + 1_000_000, s.clock)
      else s.fd
  {
    InsertHead(s.queue, e);
    if s.queue != [] { assert s.queue[0] in s.queue; }
  }

  /** The handler leaves the timerfd set for the deadline of the front, whatever its callbacks did. */
  lemma HandleReadArms(s: State, script: seq<seq<Action>>)
    ensures var s' := HandleRead(s, script);
      s'.queue != [] ==>
        s'.fd == Armed(if s'.queue[0].when > s'.clock + 1_000_000 then s'.queue[0].when else s'.clock + 1_000_000, s'.clock)
  {
  }

  lemma {:induction false} QuietBatchKeepsFd(s: State, batch: seq<Entry>)
    ensures FireAll(s, batch, []).fd == s.fd
    decreases |batch|
  {
    if batch != [] {
      QuietBatchKeepsFd(Fire(s, batch, []), batch[1..]);
    }
  }

  /** A quiet handler run that leaves no timer has used up the expiry it was called for. */
  lemma HandleReadConsumes(s: State)
    ensures HandleRead(s, []).queue == [] ==> !HandleRead(s, []).fd.Unread?
  {
    QuietBatchKeepsFd(s.(queue := Remaining(s.queue, s.clock), fd := ReadTimerFd(s.fd)), Expired(s.queue, s.clock));
  }

  /** The timerfd is not set for a moment before the front is due (or a millisecond after it was set). */
  predicate ArmedForFront(s: State) {
    s.queue != [] && s.fd.Armed? ==>
      s.fd.at == if s.queue[0].when > s.fd.since + 1_000_000 then s.queue[0].when else s.fd.since + 1_000_000
  }

  /** The first timer is not being cancelled outside the handler. */
  predicate SparesFront(s: State, ev: Event) {
    ev.Do? && ev.a.Cancel? && s.queue != [] ==> ev.a.addr != s.queue[0].addr
  }

  lemma StepArmsForFront(s: State, ev: Event)
    requires ArmedForFront(s) && SparesFront(s, ev)
    ensures ArmedForFront(Step(s, ev))
  {
    match ev
    case Readable(script) => HandleReadArms(s, script);
    case Do(a) =>
      if a.Add? && Legal(s, a, []) {
        InsertHead(s.queue, a.e);
        AddTimerArms(s, a.e);
      }
  }

  /** The timerfd is never set for a moment before the first timer is due, unless that timer has been
      cancelled outside the handler, which leaves the timerfd as it was. */
  lemma {:induction false} NeverWokenEarly(events: seq<Event>)
    requires forall k :: 0 <= k < |events| ==> SparesFront(Run(events[..k]), events[k])
    ensures ArmedForFront(Run(events))
  {
    if events != [] {
      var n := |events| - 1;
      var before := events[..n];
      forall k | 0 <= k < n
        ensures SparesFront(Run(before[..k]), before[k])
      {
        assert before[..k] == events[..k] && before[k] == events[k];
      }
      NeverWokenEarly(before);
      StepArmsForFront(Run(before), events[n]);
    }
  }

  /** And then the loop is indeed woken early: the timerfd still goes off for the cancelled timer. */
  lemma CancelledFrontWakesEarly(s: State, first: Entry, second: Entry)
    requires s.queue == [] && first.addr > 0 && second.addr > 0 && first.addr != second.addr && s.clock + 1_000_000 < first.when < second.when
    ensures var s' := Act(Act(Act(s, Add(first), []), Add(second), []), Cancel(first.addr), []);
      s'.queue == [second] && s'.fd == Armed(first.when, s.clock) && !ArmedForFront(s')
  {
    var s1 := Act(s, Add(first), []);
    AddTimerArms(s, first);
    assert s1.queue == [first];
    var s2 := Act(s1, Add(second), []);
    AddTimerArms(s1, second);
    assert !Queued(s1.queue, second.addr) && s2.queue == [first, second] by {
      assert [first][1..] == [];
    }
    assert s2.fd == s1.fd == Armed(first.when, s.clock);
    assert first in s2.queue && Queued(s2.queue, first.addr);
    EraseAbsent([second], first.addr);
    assert s2.queue[1..] == [second] && s2.queue[0] == first;
    assert Erase(s2.queue, first.addr) == Erase(s2.queue[1..], first.addr);
  }

  /** A timerfd that is set goes off when its time comes: none is ever set for a moment gone by. */
  predicate ArmedAhead(s: State) {
    s.fd.Armed? ==> s.fd.at > s.clock
  }

  lemma {:induction false} ActsKeepAhead(s: State, actions: seq<Action>, batch: seq<Entry>)
    requires ArmedAhead(s)
    ensures ArmedAhead(ActAll(s, actions, batch))
  {
    if actions != [] {
      ActsKeepAhead(s, actions[..|actions| - 1], batch);
    }
  }

  lemma {:induction false} FiringKeepsAhead(s: State, batch: seq<Entry>, script: seq<seq<Action>>)
    requires ArmedAhead(s)
    ensures ArmedAhead(FireAll(s, batch, script))
    decreases |batch|
  {
    if batch != [] {
      var actions := if script == [] then [] else script[0];
      var later := if script == [] then [] else script[1..];
      ActsKeepAhead(s.(fired := s.fired + [Firing(batch[0].addr, batch[0].when)]), actions, batch);
      FiringKeepsAhead(Fire(s, batch, actions), batch[1..], later);
    }
  }

  lemma {:induction false} AlwaysAhead(events: seq<Event>)
    ensures ArmedAhead(Run(events))
  {
    if events != [] {
      AlwaysAhead(events[..|events| - 1]);
      var s := Run(events[..|events| - 1]);
      match events[|events| - 1]
      case Do(a) =>
      case Readable(script) =>
        FiringKeepsAhead(s.(queue := Remaining(s.queue, s.clock), fd := ReadTimerFd(s.fd)), Expired(s.queue, s.clock), script);
    }
  }

  // ---------- What callbacks do ----------

  lemma ActOne(s: State, a: Action, batch: seq<Entry>)
    ensures ActAll(s, [a], batch) == Act(s, a, batch)
  {
    assert [a][..0] == [];
    assert ActAll(s, [], batch) == s;
  }

  /** In a callback, adding, cancelling and waiting have their effects. */
  lemma CallbacksAct(s: State, batch: seq<Entry>, e: Entry, ns: nat)
    requires batch != [] && Apart(s.queue, batch)
    ensures e.addr > 0 && !Queued(s.queue, e.addr) && !Queued(batch, e.addr) ==> e in Fire(s, batch, [Add(e)]).queue
    ensures e in s.queue ==> e !in Fire(s, batch, [Cancel(e.addr)]).queue
    ensures Fire(s, batch, [Wait(ns)]).clock == s.clock + ns
  {
    var s0 := s.(fired := s.fired + [Firing(batch[0].addr, batch[0].when)]);
    ActOne(s0, Add(e), batch);
    ActOne(s0, Cancel(e.addr), batch);
    ActOne(s0, Wait(ns), batch);
    if e in s.queue {
      assert batch[0] in batch && batch[0].addr != e.addr;
    }
  }

  function Waited(actions: seq<Action>): nat {
    if actions == [] then 0
    else Waited(actions[..|actions| - 1]) + (if actions[|actions| - 1].Wait? then actions[|actions| - 1].ns else 0)
  }

  /** The time taken by the first n callbacks of a script. */
  function WaitedBy(script: seq<seq<Action>>, n: nat): nat {
    if n == 0 || script == [] then 0 else Waited(script[0]) + WaitedBy(script[1..], n - 1)
  }

  lemma {:induction false} ActsTakeTime(s: State, actions: seq<Action>, batch: seq<Entry>)
    ensures ActAll(s, actions, batch).clock == s.clock + Waited(actions)
  {
    if actions != [] {
      ActsTakeTime(s, actions[..|actions| - 1], batch);
    }
  }

  /** Every timer of a batch runs its own callback, all of it: the clock moves by what they take. */
  lemma {:induction false} BatchTakesTime(s: State, batch: seq<Entry>, script: seq<seq<Action>>)
    ensures FireAll(s, batch, script).clock == s.clock + WaitedBy(script, |batch|)
    decreases |batch|
  {
    if batch != [] {
      var actions := if script == [] then [] else script[0];
      var later := if script == [] then [] else script[1..];
      ActsTakeTime(s.(fired := s.fired + [Firing(batch[0].addr, batch[0].when)]), actions, batch);
      BatchTakesTime(Fire(s, batch, actions), batch[1..], later);
    }
  }

  // ---------- Catching up ----------

  /** How often a timer still has to fire at a frozen clock. */
  function Due(e: Entry, now: int): nat {
    if e.when > now then 0 else if e.Repeats() then (now - e.when) / e.interval + 1 else 1
  }

  lemma DueAfterFiring(e: Entry, now: int)
    requires e.when <= now
    ensures e.Repeats() ==> Due(e.Restarted(), now) == Due(e, now) - 1
  {
    if e.Repeats() {
      var x, d := now - e.when, e.interval;
      var q, r := x / d, x % d;
      assert x == q * d + r;
      if x >= d {
        assert x - d == (q - 1) * d + r;
        DivModUnique(x - d, d, q - 1, r);
      } else {
        DivModUnique(x, d, 0, x);
      }
    }
  }

  /** The deadlines those firings are for. */
  function Deadlines(e: Entry, now: int): seq<int>
    decreases Due(e, now)
  {
    if e.when > now then []
    else if e.Repeats() then
      DueAfterFiring(e, now);
      [e.when] + Deadlines(e.Restarted(), now)
    else [e.when]
  }

  /** A repeating timer is due floor((now - w) / d) + 1 times, at w + k * d without drift. */
  lemma {:induction false} DeadlinesAreExact(e: Entry, now: int)
    ensures |Deadlines(e, now)| == Due(e, now)
    ensures forall k :: 0 <= k < |Deadlines(e, now)| ==> Deadlines(e, now)[k] == e.when + k * e.interval
    decreases Due(e, now)
  {
    if e.when <= now && e.Repeats() {
      DueAfterFiring(e, now);
      DeadlinesAreExact(e.Restarted(), now);
      forall k | 0 <= k < |Deadlines(e, now)|
        ensures Deadlines(e, now)[k] == e.when + k * e.interval
      {
        if k > 0 {
          assert Deadlines(e, now)[k] == Deadlines(e.Restarted(), now)[k - 1];
          assert (k - 1) * e.interval + e.interval == k * e.interval;
        }
      }
    }
  }

  /** The sum of the due firings: the measure of the catch-up. */
  function Debt(q: seq<Entry>, now: int): nat {
    if q == [] then 0 else Due(q[0], now) + Debt(q[1..], now)
  }

  lemma {:induction false} InsertDebt(q: seq<Entry>, e: Entry, now: int)
    ensures Debt(Insert(q, e), now) == Debt(q, now) + Due(e, now)
  {
    if q == [] || Before(e, q[0]) {
      assert ([e] + q)[1..] == q;
    } else {
      InsertDebt(q[1..], e, now);
      assert ([q[0]] + Insert(q[1..], e))[1..] == Insert(q[1..], e);
    }
  }

  lemma {:induction false} DebtSplits(a: seq<Entry>, b: seq<Entry>, now: int)
    ensures Debt(a + b, now) == Debt(a, now) + Debt(b, now)
  {
    if a == [] {
      assert a + b == b;
    } else {
      DebtSplits(a[1..], b, now);
      assert (a + b)[1..] == a[1..] + b;
    }
  }

  /** Each firing without callbacks' interference pays exactly one due firing. */
  lemma {:induction false} FiringPaysDebt(s: State, batch: seq<Entry>, now: int)
    requires forall e :: e in batch ==> e.when <= now
    ensures Debt(FireAll(s, batch, []).queue, now) == Debt(s.queue, now) + Debt(batch, now) - |batch|
    ensures FireAll(s, batch, []).clock == s.clock
    decreases |batch|
  {
    if batch != [] {
      var e := batch[0];
      assert e in batch;
      var s' := Fire(s, batch, []);
      assert forall x :: x in batch[1..] ==> x in batch;
      DueAfterFiring(e, now);
      InsertDebt(s.queue, e.Restarted(), now);
      FiringPaysDebt(s', batch[1..], now);
    }
  }

  lemma PassPaysDebt(s: State)
    requires Proper(s.queue)
    ensures var s' := HandleRead(s, []);
      && s'.clock == s.clock
      && Debt(s'.queue, s.clock) == Debt(s.queue, s.clock) - |Expired(s.queue, s.clock)|
  {
    var now := s.clock;
    ExpiredIsExact(s.queue, now);
    DebtSplits(Expired(s.queue, now), Remaining(s.queue, now), now);
    FiringPaysDebt(s.(queue := Remaining(s.queue, now), fd := ReadTimerFd(s.fd)), Expired(s.queue, now), now);
  }

  /** Expiry handler runs at a frozen clock, until nothing is due. */
  ghost function CatchUp(s: State): State
    requires Proper(s.queue)
    decreases Debt(s.queue, s.clock)
  {
    if Expired(s.queue, s.clock) == [] then s
    else
      PassPaysDebt(s);
      HandleReadFiresDue(s, []);
      CatchUp(HandleRead(s, []))
  }

  /** The deadlines one timer has fired for. */
  function LogFor(fired: seq<Firing>, addr: int): seq<int> {
    if fired == [] then []
    else
      var before, last := LogFor(fired[..|fired| - 1], addr), fired[|fired| - 1];
      if last.addr == addr then before + [last.deadline] else before
  }

  lemma LogForLast(fired: seq<Firing>, f: Firing, addr: int)
    ensures LogFor(fired + [f], addr) ==
      if f.addr == addr then LogFor(fired, addr) + [f.deadline] else LogFor(fired, addr)
  {
    assert (fired + [f])[..|fired|] == fired;
  }

  /** A quiet batch leaves every other timer alone. */
  lemma {:induction false} BatchSkipsOthers(s: State, batch: seq<Entry>, addr: int)
    requires forall e :: e in batch ==> e.addr != addr
    ensures LogFor(FireAll(s, batch, []).fired, addr) == LogFor(s.fired, addr)
    ensures forall x: Entry :: x.addr == addr ==> (x in FireAll(s, batch, []).queue <==> x in s.queue)
    decreases |batch|
  {
    if batch != [] {
      assert batch[0] in batch;
      assert forall x :: x in batch[1..] ==> x in batch;
      LogForLast(s.fired, Firing(batch[0].addr, batch[0].when), addr);
      BatchSkipsOthers(Fire(s, batch, []), batch[1..], addr);
    }
  }

  /** A quiet batch fires its member once, for its own deadline, and puts it back if it repeats. */
  lemma {:induction false} BatchFiresMember(s: State, batch: seq<Entry>, e: Entry)
    requires Apart(s.queue, batch) && e in batch
    ensures LogFor(FireAll(s, batch, []).fired, e.addr) == LogFor(s.fired, e.addr) + [e.when]
    ensures forall x: Entry :: x.addr == e.addr ==>
      (x in FireAll(s, batch, []).queue <==> e.Repeats() && x == e.Restarted())
    decreases |batch|
  {
    var s', rest := Fire(s, batch, []), batch[1..];
    FireKeepsApart(s, batch, []);
    LogForLast(s.fired, Firing(batch[0].addr, batch[0].when), e.addr);
    if batch[0] == e {
      forall b | b in rest
        ensures b.addr != e.addr
      {
        var k :| 0 <= k < |rest| && rest[k] == b;
        assert batch[k + 1] == b;
      }
      BatchSkipsOthers(s', rest, e.addr);
      assert !Queued(s.queue, e.addr);
    } else {
      assert e in rest;
      var k :| 0 <= k < |batch| && batch[k] == e;
      assert batch[0].addr != e.addr;
      BatchFiresMember(s', rest, e);
    }
  }

  lemma SameTimer(q: seq<Entry>, x: Entry, y: Entry)
    requires Proper(q) && x in q && y in q && x.addr == y.addr
    ensures x == y
  {
    var i :| 0 <= i < |q| && q[i] == x;
    var j :| 0 <= j < |q| && q[j] == y;
  }

  /** One quiet pass, seen from one timer. */
  lemma PassForOne(s: State, e: Entry)
    requires Proper(s.queue) && e in s.queue
    ensures var s' := HandleRead(s, []);
      if e.when <= s.clock then
        && LogFor(s'.fired, e.addr) == LogFor(s.fired, e.addr) + [e.when]
        && forall x: Entry :: x.addr == e.addr ==> (x in s'.queue <==> e.Repeats() && x == e.Restarted())
      else
        && LogFor(s'.fired, e.addr) == LogFor(s.fired, e.addr)
        && forall x: Entry :: x.addr == e.addr ==> (x in s'.queue <==> x == e)
  {
    var now := s.clock;
    ExpiredIsExact(s.queue, now);
    var batch := Expired(s.queue, now);
    var s1 := s.(queue := Remaining(s.queue, now), fd := ReadTimerFd(s.fd));
    forall x: Entry, y: Entry | x in s.queue && y in s.queue && x.addr == y.addr
      ensures x == y
    {
      SameTimer(s.queue, x, y);
    }
    SplitIsApart(s.queue, now);
    if e.when <= now {
      BatchFiresMember(s1, batch, e);
    } else {
      BatchSkipsOthers(s1, batch, e.addr);
    }
  }

  lemma PassForAbsent(s: State, addr: int)
    requires Proper(s.queue) && !Queued(s.queue, addr)
    ensures var s' := HandleRead(s, []);
      !Queued(s'.queue, addr) && LogFor(s'.fired, addr) == LogFor(s.fired, addr)
  {
    var now := s.clock;
    ExpiredIsExact(s.queue, now);
    forall b | b in Expired(s.queue, now) ensures b.addr != addr { assert b in s.queue; }
    BatchSkipsOthers(s.(queue := Remaining(s.queue, now), fd := ReadTimerFd(s.fd)), Expired(s.queue, now), addr);
  }

  lemma {:induction false} CatchUpForAbsent(s: State, addr: int)
    requires Proper(s.queue) && !Queued(s.queue, addr)
    ensures !Queued(CatchUp(s).queue, addr) && LogFor(CatchUp(s).fired, addr) == LogFor(s.fired, addr)
    decreases Debt(s.queue, s.clock)
  {
    if Expired(s.queue, s.clock) != [] {
      PassPaysDebt(s);
      HandleReadFiresDue(s, []);
      PassForAbsent(s, addr);
      CatchUpForAbsent(HandleRead(s, []), addr);
    }
  }

  /** Where the catch-up leaves a timer; a one-shot timer that was due is gone. */
  function Settled(e: Entry, now: int): Entry {
    e.(when := e.when + Due(e, now) * e.interval)
  }

  /** Between the log fired and the final state c, timer e has fired for exactly its deadlines up to
      now, and waits for the first one after now; a due one-shot timer is gone. */
  ghost predicate Settles(fired: seq<Firing>, c: State, e: Entry, now: int) {
    && LogFor(c.fired, e.addr) == LogFor(fired, e.addr) + Deadlines(e, now)
    && (e.Repeats() || e.when > now ==> Settled(e, now) in c.queue && Settled(e, now).when > now)
    && (!e.Repeats() && e.when <= now ==> !Queued(c.queue, e.addr))
  }

  lemma SettledAfterFiring(e: Entry, now: int)
    requires e.Repeats() && e.when <= now
    ensures Settled(e.Restarted(), now) == Settled(e, now)
  {
    DueAfterFiring(e, now);
    var n, d := Due(e, now), e.interval;
    assert (n - 1) * d + d == n * d;
  }

  lemma SettlesAfterFiring(before: seq<Firing>, after: seq<Firing>, c: State, e: Entry, now: int)
    requires e.Repeats() && e.when <= now
    requires LogFor(after, e.addr) == LogFor(before, e.addr) + [e.when]
    requires Settles(after, c, e.Restarted(), now)
    ensures Settles(before, c, e, now)
  {
    SettledAfterFiring(e, now);
    assert Deadlines(e, now) == [e.when] + Deadlines(e.Restarted(), now);
    Assoc(LogFor(before, e.addr), [e.when], Deadlines(e.Restarted(), now));
  }

  lemma NothingDue(s: State, e: Entry)
    requires Proper(s.queue) && e in s.queue && Expired(s.queue, s.clock) == []
    ensures Settles(s.fired, s, e, s.clock)
  {
    assert |Expired(s.queue, s.clock)| == LowerBound(s.queue, s.clock + 1, 0);
    var k :| 0 <= k < |s.queue| && s.queue[k] == e;
    BoundSplitsByDeadline(s.queue, s.clock, k);
  }

  lemma {:induction false} CatchUpEnds(s: State)
    requires Proper(s.queue)
    ensures Expired(CatchUp(s).queue, s.clock) == [] && CatchUp(s).clock == s.clock
    decreases Debt(s.queue, s.clock)
  {
    if Expired(s.queue, s.clock) != [] {
      PassPaysDebt(s);
      HandleReadFiresDue(s, []);
      CatchUpEnds(HandleRead(s, []));
    }
  }

  /** The catch-up ends with nothing due, and every timer has fired for exactly its deadlines. */
  lemma {:induction false} CatchUpIsExact(s: State, e: Entry)
    requires Proper(s.queue) && e in s.queue
    ensures Expired(CatchUp(s).queue, s.clock) == []
    ensures Settles(s.fired, CatchUp(s), e, s.clock)
    decreases Debt(s.queue, s.clock)
  {
    CatchUpEnds(s);
    if Expired(s.queue, s.clock) == [] {
      NothingDue(s, e);
    } else {
      var s' := HandleRead(s, []);
      PassPaysDebt(s);
      HandleReadFiresDue(s, []);
      PassForOne(s, e);
      if e.when > s.clock {
        CatchUpIsExact(s', e);
      } else if e.Repeats() {
        CatchUpIsExact(s', e.Restarted());
        SettlesAfterFiring(s.fired, s'.fired, CatchUp(s), e, s.clock);
      } else {
        CatchUpForAbsent(s', e.addr);
      }
    }
  }
}
