/** The timer queue as the loop thread runs it: Timer objects updated in place, a set of
    (deadline, Timer*) pairs, and a batch taken out of it (twnl/TimerQueue.cc, twnl/Timer.h). */
module TimerObjects {
  import opened Timers

  class Timer {
    const addr: int
    const interval: int
    const repeat: bool
    var when: int
    var canceled: bool

    constructor (addr: int, when: int, interval: int)
      ensures this.addr == addr && this.when == when && this.interval == interval
      ensures repeat == (interval > 0) && !canceled
    {
      this.addr, this.when, this.interval := addr, when, interval;
      repeat, canceled := interval > 0, false;
    }

    predicate Expired(now: int)
      reads this
    {
      now >= when
    }

    method Restart()
      requires repeat
      modifies this`when
      ensures when == old(when) + interval
    {
      when := when + interval;
    }

    method Cancel()
      requires !canceled
      modifies this`canceled
      ensures canceled
    {
      canceled := true;
    }
  }

  /** An element of the set: the key it was inserted with, and the object. */
  datatype Node = Node(key: int, timer: Timer)

  function AsEntry(n: Node): Entry {
    Entry(n.key, n.timer.addr, n.timer.interval)
  }

  function Entries(nodes: seq<Node>): (r: seq<Entry>)
    ensures |r| == |nodes| && forall k :: 0 <= k < |r| ==> r[k] == AsEntry(nodes[k])
  {
    seq(|nodes|, k requires 0 <= k < |nodes| => AsEntry(nodes[k]))
  }

  ghost function Objects(nodes: seq<Node>): set<Timer> {
    set n | n in nodes :: n.timer
  }

  /** The key is the timer's own deadline, and the timer is not cancelled. */
  ghost predicate Current(n: Node)
    reads n.timer
  {
    n.key == n.timer.when && !n.timer.canceled && n.timer.repeat == (n.timer.interval > 0)
  }

  ghost predicate AllCurrent(nodes: seq<Node>)
    reads Objects(nodes)
  {
    forall n | n in nodes :: Current(n)
  }

  /** Different nodes hold different objects. */
  lemma OthersDiffer(timers: seq<Node>, batch: seq<Node>, i: nat)
    requires Apart(Entries(timers), Entries(batch)) && i < |timers|
    ensures forall k :: 0 <= k < |timers| && k != i ==> timers[k].timer != timers[i].timer
    ensures forall k :: 0 <= k < |batch| ==> batch[k].timer != timers[i].timer
  {
    var q, b := Entries(timers), Entries(batch);
    forall k | 0 <= k < |timers| && k != i
      ensures timers[k].timer != timers[i].timer
    {
      assert q[k].addr != q[i].addr;
    }
    forall k | 0 <= k < |batch|
      ensures batch[k].timer != timers[i].timer
    {
      assert b[k] in b && q[i] in q;
    }
  }

  lemma BatchDiffers(timers: seq<Node>, batch: seq<Node>)
    requires batch != [] && Apart(Entries(timers), Entries(batch))
    ensures batch[0].timer !in Objects(timers)
    ensures batch[0].timer !in Objects(batch[1..])
  {
    var q, b := Entries(timers), Entries(batch);
    forall n | n in timers
      ensures n.timer != batch[0].timer
    {
      var k :| 0 <= k < |timers| && timers[k] == n;
      assert b[0] in b && q[k] in q;
    }
    forall n | n in batch[1..]
      ensures n.timer != batch[0].timer
    {
      var k :| 0 <= k < |batch| - 1 && batch[1..][k] == n;
      assert b[0].addr != b[k + 1].addr;
    }
  }

  lemma SplitNodes(timers: seq<Node>, now: int)
    requires Proper(Entries(timers))
    ensures var q, end := Entries(timers), LowerBound(Entries(timers), now + 1, 0);
      && Entries(timers[..end]) == Expired(q, now) && Entries(timers[end..]) == Remaining(q, now)
      && Apart(Entries(timers[end..]), Entries(timers[..end]))
      && Objects(timers[end..]) + Objects(timers[..end]) == Objects(timers)
      && (forall n | n in timers[..end] || n in timers[end..] :: n in timers)
  {
    var q, end := Entries(timers), LowerBound(Entries(timers), now + 1, 0);
    assert Entries(timers[..end]) == q[..end] && Entries(timers[end..]) == q[end..];
    SplitIsApart(q, now);
    assert timers == timers[..end] + timers[end..];
  }

  predicate AllDue(nodes: seq<Node>, now: int) {
    forall n :: n in nodes ==> n.key <= now
  }

  /** What is taken out of the set is due. */
  lemma DueNodes(timers: seq<Node>, now: int)
    requires Proper(Entries(timers))
    ensures AllDue(timers[..LowerBound(Entries(timers), now + 1, 0)], now)
  {
    var q, end := Entries(timers), LowerBound(Entries(timers), now + 1, 0);
    forall n | n in timers[..end]
      ensures n.key <= now
    {
      var k :| 0 <= k < end && timers[k] == n;
      BoundSplitsByDeadline(q, now, k);
    }
  }

  lemma EntriesSlice(nodes: seq<Node>, i: nat)
    requires i < |nodes|
    ensures Entries(nodes[..i] + nodes[i + 1..]) == Entries(nodes)[..i] + Entries(nodes)[i + 1..]
  {
  }

  lemma SliceOut(nodes: seq<Node>, i: nat)
    requires i < |nodes|
    requires forall k :: 0 <= k < |nodes| && k != i ==> nodes[k].timer != nodes[i].timer
    ensures forall n :: n in nodes[..i] + nodes[i + 1..] <==> n in nodes && n.timer != nodes[i].timer
  {
    var r := nodes[..i] + nodes[i + 1..];
    forall n | n in nodes && n.timer != nodes[i].timer
      ensures n in r
    {
      var k :| 0 <= k < |nodes| && nodes[k] == n;
      assert n == if k < i then r[k] else r[k - 1];
    }
    forall n | n in r
      ensures n in nodes && n.timer != nodes[i].timer
    {
      var k :| 0 <= k < |r| && r[k] == n;
      assert n == if k < i then nodes[k] else nodes[k + 1];
    }
  }

  class TimerQueue {
    var timers: seq<Node>
    var fd: TimerFd
    var clock: int
    var fired: seq<Firing>
    ghost var live: set<Timer>  // allocated and not yet deleted

    ghost function View(): State
      reads this
    {
      State(Entries(timers), fd, clock, fired)
    }

    /** Every live timer is in exactly one of the set and the running batch, under its own deadline. */
    ghost predicate Valid(batch: seq<Node>)
      reads this, Objects(timers), Objects(batch)
    {
      && AllCurrent(timers) && AllCurrent(batch)
      && Apart(Entries(timers), Entries(batch))
      && live == Objects(timers) + Objects(batch)
    }

    constructor ()
      ensures Valid([]) && View() == State([], Disarmed, 0, []) && timers == []
    {
      timers, fd, clock, fired, live := [], Disarmed, 0, [], {};
    }

    /** std::set::insert, at the first place that keeps the order. */
    method InsertNode(n: Node) returns (first: bool)
      modifies this`timers
      ensures Entries(timers) == Insert(old(Entries(timers)), AsEntry(n))
      ensures forall m :: m in timers <==> m == n || m in old(timers)
      ensures first == (Entries(timers)[0] == AsEntry(n))
      ensures |timers| == |old(timers)| + 1
    {
      ghost var q, e := Entries(timers), AsEntry(n);
      var i := 0;
      while i < |timers| && !Before(AsEntry(n), AsEntry(timers[i]))
        invariant 0 <= i <= |timers|
        invariant forall k :: 0 <= k < i ==> !Before(e, q[k])
      {
        i := i + 1;
      }
      InsertAt(q, e, i);
      timers := timers[..i] + [n] + timers[i..];
      assert Entries(timers) == q[..i] + [e] + q[i..];
      first := AsEntry(timers[0]) == AsEntry(n);
    }

    /** A timer that is in neither the set nor the batch goes into the set under its own deadline. */
    method Place(n: Node, ghost batch: seq<Node>) returns (first: bool)
      requires AllCurrent(timers) && AllCurrent(batch) && Current(n)
      requires Apart(Insert(Entries(timers), AsEntry(n)), Entries(batch))
      requires live == Objects(timers) + {n.timer} + Objects(batch)
      modifies this`timers
      ensures Valid(batch)
      ensures Entries(timers) == Insert(old(Entries(timers)), AsEntry(n))
      ensures Objects(timers) == old(Objects(timers)) + {n.timer}
      ensures first == (Entries(timers)[0] == AsEntry(n))
    {
      first := InsertNode(n);
      assert n in timers;
    }

    method AddTimer(e: Entry, ghost batch: seq<Node>) returns (timer: Timer)
      requires Valid(batch) && Legal(View(), Add(e), Entries(batch))
      modifies this
      ensures fresh(timer) && Valid(batch)
      ensures View() == Act(old(View()), Add(e), Entries(batch))
      ensures Objects(timers) == old(Objects(timers)) + {timer}
      ensures fd == if Entries(timers)[0] == e then Armed(if e.when > clock + 1_000_000 then e.when else clock + 1_000_000, clock)
                    else old(fd)
    {
      ActKeepsApart(View(), Add(e), Entries(batch));
      timer := new Timer(e.addr, e.when, e.interval);
      live := live + {timer};
      var first := Place(Node(e.when, timer), batch);
      if first {
        fd := Arm(e.when, clock);
      }
    }

    method EraseNode(i: nat)
      requires i < |timers| && Proper(Entries(timers))
      requires forall k :: 0 <= k < |timers| && k != i ==> timers[k].timer != timers[i].timer
      modifies this`timers
      ensures forall n :: n in timers <==> n in old(timers) && n.timer != old(timers)[i].timer
      ensures Objects(timers) == old(Objects(timers)) - {old(timers)[i].timer}
      ensures Entries(timers) == Erase(old(Entries(timers)), old(timers)[i].timer.addr)
    {
      SliceOut(timers, i);
      EraseAt(Entries(timers), i);
      EntriesSlice(timers, i);
      timers := timers[..i] + timers[i + 1..];
    }

    /** A queued timer can be cancelled, and what is left of the set is as it should be. */
    lemma QueuedTimer(i: nat, batch: seq<Node>)
      requires Valid(batch) && i < |timers|
      ensures var addr := timers[i].timer.addr;
        && Legal(View(), Cancel(addr), Entries(batch))
        && Apart(Erase(Entries(timers), addr), Entries(batch)) && Proper(Entries(timers))
      ensures forall k :: 0 <= k < |timers| && k != i ==> timers[k].timer != timers[i].timer
      ensures timers[i].timer !in Objects(batch) && Current(timers[i])
    {
      ghost var q, addr := Entries(timers), timers[i].timer.addr;
      assert Queued(q, addr) by { assert q[i] in q && q[i].addr == addr; }
      ActKeepsApart(View(), Cancel(addr), Entries(batch));
      OthersDiffer(timers, batch, i);
      assert timers[i] in timers;
    }

    /** Marks the timer, erases its key and deletes the object. */
    method CancelTimer(timer: Timer, ghost batch: seq<Node>)
      requires Valid(batch) && timer in Objects(timers)
      modifies this, timer
      ensures Valid(batch) && timer !in live
      ensures View() == Act(old(View()), Cancel(timer.addr), Entries(batch))
      ensures Objects(timers) == old(Objects(timers)) - {timer}
    {
      var i :| 0 <= i < |timers| && timers[i].timer == timer;
      QueuedTimer(i, batch);
      timer.Cancel();
      EraseNode(i);
      live := live - {timer};
    }

    method FindTimer(addr: int) returns (timer: Timer)
      requires Queued(Entries(timers), addr)
      ensures timer in Objects(timers) && timer.addr == addr
    {
      ghost var q := Entries(timers);
      ghost var e :| e in q && e.addr == addr;
      ghost var k :| 0 <= k < |q| && q[k] == e;
      assert timers[k].timer.addr == addr;
      var i :| 0 <= i < |timers| && timers[i].timer.addr == addr;
      timer := timers[i].timer;
      assert timers[i] in timers;
    }

    /** What one callback does, in order. Illegal actions are not attempted. */
    method RunActions(actions: seq<Action>, batch: seq<Node>)
      requires Valid(batch)
      modifies this, Objects(timers)
      ensures Valid(batch)
      ensures View() == ActAll(old(View()), actions, Entries(batch))
      ensures forall o | o in Objects(timers) :: o in old(Objects(timers)) || fresh(o)
    {
      ghost var s := View();
      for i := 0 to |actions|
        invariant Valid(batch)
        invariant View() == ActAll(s, actions[..i], Entries(batch))
        invariant forall o | o in Objects(timers) :: o in old(Objects(timers)) || fresh(o)
      {
        assert actions[..i + 1][..i] == actions[..i];
        var a := actions[i];
        if Legal(State(Entries(timers), fd, clock, fired), a, Entries(batch)) {
          match a
          case Add(e) =>
            var _ := AddTimer(e, batch);
          case Cancel(addr) =>
            var timer := FindTimer(addr);
            CancelTimer(timer, batch);
          case Wait(ns) =>
            clock := clock + ns;
            if fd.Armed? && fd.at <= clock {
              fd := Unread;
            }
        }
      }
      assert actions[..|actions|] == actions;
    }

    /** Takes the due nodes out of the set. */
    method GetExpired(now: int) returns (entries: seq<Node>)
      requires Valid([])
      modifies this`timers
      ensures Valid(entries)
      ensures Entries(entries) == Expired(old(Entries(timers)), now)
      ensures View() == old(View()).(queue := Remaining(old(Entries(timers)), now))
      ensures Objects(timers) + Objects(entries) == old(Objects(timers))
      ensures AllDue(entries, now)
    {
      DueNodes(timers, now);
      var end := LowerBound(Entries(timers), now + 1, 0);
      SplitNodes(timers, now);
      entries := timers[..end];
      timers := timers[end..];
    }

    /** The head of a batch is in nothing else, and stays apart from the rest if re-inserted. */
    lemma HeadIsApart(batch: seq<Node>)
      requires batch != [] && Valid(batch)
      ensures Current(batch[0]) && Entries(batch[1..]) == Entries(batch)[1..]
      ensures batch[0].timer !in Objects(timers) && batch[0].timer !in Objects(batch[1..])
      ensures Objects(batch) == {batch[0].timer} + Objects(batch[1..])
      ensures Apart(Requeue(Entries(timers), Entries(batch)[0]), Entries(batch[1..]))
    {
      assert batch[0] in batch && batch == [batch[0]] + batch[1..];
      RequeueKeepsApart(Entries(timers), Entries(batch));
      BatchDiffers(timers, batch);
    }

    /** A repeating timer moves on to its next deadline and back into the set. */
    method PutBack(batch: seq<Node>)
      requires batch != [] && Valid(batch) && batch[0].timer.repeat
      modifies this`timers, batch[0].timer
      ensures Valid(batch[1..])
      ensures View() == old(View()).(queue := Requeue(old(Entries(timers)), Entries(batch)[0]))
      ensures Objects(timers) == old(Objects(timers)) + {batch[0].timer}
    {
      HeadIsApart(batch);
      var e, timer := batch[0], batch[0].timer;
      timer.Restart();
      e := e.(key := timer.when);
      assert AsEntry(e) == Entries(batch)[0].Restarted();
      var _ := Place(e, batch[1..]);
    }

    /** Restart and re-insertion of a timer that has run, or its deletion. */
    method Finish(batch: seq<Node>)
      requires batch != [] && Valid(batch)
      modifies this, batch[0].timer
      ensures Valid(batch[1..])
      ensures View() == old(View()).(queue := Requeue(old(Entries(timers)), Entries(batch)[0]))
      ensures Objects(timers) <= old(Objects(timers)) + {batch[0].timer}
      ensures batch[0].timer in live <==> batch[0].timer.repeat
    {
      HeadIsApart(batch);
      var timer := batch[0].timer;
      if !timer.canceled && timer.repeat {
        PutBack(batch);
      } else {
        live := live - {timer};
      }
    }

    /** Runs one expired timer. It is due at the time the batch was taken, as the loop asserts,
        however long earlier callbacks took and whatever they did. */
    method FireOne(batch: seq<Node>, actions: seq<Action>, now: int)
      requires batch != [] && Valid(batch) && AllDue(batch, now)
      modifies this, Objects(timers), batch[0].timer
      ensures Valid(batch[1..]) && AllDue(batch[1..], now)
      ensures old(batch[0].timer.Expired(now))
      ensures View() == Fire(old(View()), Entries(batch), actions)
      ensures forall o | o in Objects(timers) :: o in old(Objects(timers)) || o == batch[0].timer || fresh(o)
    {
      assert batch[0] in batch && batch == [batch[0]] + batch[1..];
      assert batch[0].timer.Expired(now);
      fired := fired + [Firing(batch[0].timer.addr, batch[0].timer.when)];
      RunActions(actions, batch);
      Finish(batch);
    }

    /** The loop over the expired timers. */
    method RunBatch(entries: seq<Node>, script: seq<seq<Action>>, now: int)
      requires Valid(entries) && AllDue(entries, now)
      modifies this, Objects(timers), Objects(entries)
      ensures Valid([])
      ensures forall o | o in Objects(timers) :: o in old(Objects(timers)) || o in Objects(entries) || fresh(o)
      ensures View() == FireAll(old(View()), Entries(entries), script)
    {
      var batch, todo := entries, script;
      ghost var target := FireAll(View(), Entries(batch), todo);
      while batch != []
        invariant Valid(batch) && AllDue(batch, now)
        invariant target == FireAll(View(), Entries(batch), todo)
        invariant Objects(batch) <= Objects(entries)
        invariant forall o | o in Objects(timers) :: o in old(Objects(timers)) || o in Objects(entries) || fresh(o)
        decreases |batch|
      {
        var actions := if todo == [] then [] else todo[0];
        assert batch[0] in batch && Entries(batch)[1..] == Entries(batch[1..]);
        FireOne(batch, actions, now);
        batch := batch[1..];
        todo := if todo == [] then [] else todo[1..];
      }
    }

    /** The timerfd is set for the front of the set, if there is one. */
    method Rearm()
      modifies this`fd
      ensures timers != [] ==>
        fd == Armed(if timers[0].key > clock + 1_000_000 then timers[0].key else clock + 1_000_000, clock)
      ensures View() == old(if timers == [] then View() else View().(fd := Arm(View().queue[0].when, clock)))
    {
      if timers != [] {
        fd := Arm(timers[0].key, clock);
      }
    }

    method HandleRead(script: seq<seq<Action>>)
      requires Valid([])
      modifies this, Objects(timers)
      ensures Valid([])
      ensures forall o | o in Objects(timers) :: o in old(Objects(timers)) || fresh(o)
      ensures timers != [] ==>
        fd == Armed(if timers[0].key > clock + 1_000_000 then timers[0].key else clock + 1_000_000, clock)
      ensures View() == Timers.HandleRead(old(View()), script)
    {
      fd := ReadTimerFd(fd);
      var now := clock;
      var entries := GetExpired(now);
      RunBatch(entries, script, now);
      Rearm();
    }
  }
  lemma RunStep(events: seq<Event>, i: nat)
    requires i < |events|
    ensures Run(events[..i + 1]) == Step(Run(events[..i]), events[i])
  {
    assert events[..i + 1][..i] == events[..i];
  }

  /** The real queue and its timer objects through any run: it ends where the run ends, with the same
      firings in the same order, and outside the handler its timerfd goes off in time. */
  method RunTimers(events: seq<Event>) returns (fired: seq<Firing>, waiting: seq<Entry>, fd: TimerFd, clock: int)
    ensures State(waiting, fd, clock, fired) == Run(events)
    ensures ArmedInTime(State(waiting, fd, clock, fired))
  {
    var q := new TimerQueue();
    for i := 0 to |events|
      invariant fresh(q) && (forall o | o in Objects(q.timers) :: fresh(o))
      invariant q.Valid([]) && q.View() == Run(events[..i])
    {
      RunStep(events, i);
      match events[i] {
        case Do(a) =>
          ActOne(q.View(), a, []);
          q.RunActions([a], []);
        case Readable(script) => q.HandleRead(script);
      }
    }
    assert events[..|events|] == events;
    AlwaysArmed(events);
    fired, waiting, fd, clock := q.fired, Entries(q.timers), q.fd, q.clock;
  }
}
