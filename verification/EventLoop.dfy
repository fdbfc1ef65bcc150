/** Handing functors from any thread to the loop thread (twnl/EventLoop.cc). */
module EventLoops {
  type Functor = nat
  type Thread = nat

  // ---------- The protocol, one atomic step at a time ----------

  /** Where the loop thread is. Idle: outside loop(). Dispatching(wake): running event callbacks,
      the wake-up channel's still to come if wake. Entered: in doPendingFunctors before the swap. */
  datatype Pc = Idle | Checking | Polling | Dispatching(wake: bool) | Entered | Running

  datatype State = State(
    pc: Pc,
    quit: bool,
    calling: bool,            // callingPendingFunctors_
    pending: seq<Functor>,    // pendingFunctors_
    batch: seq<Functor>,      // the swapped-out functors still to run
    counter: nat,             // the eventfd
    owing: set<Thread>,       // other threads between their push (or quit) and their wakeup
    loopOwes: bool,           // the loop thread, likewise
    queued: seq<Functor>,     // everything pushed so far, in lock order
    executed: seq<Functor>,
    stranded: bool)           // the loop thread pushed outside loop() while no wake-up was due, and
                              // since then no other thread has called in and no swap has come
  {
    /** The loop thread will be woken: the eventfd is readable or another thread is about to write it. */
    predicate Notified() {
      counter > 0 || owing != {}
    }
  }

  const EVENTFD_MAX := 0xFFFF_FFFF_FFFF_FFFE

  /** Writing 1 to the eventfd; a full counter refuses (EAGAIN), which is only logged. */
  function Bump(counter: nat): nat {
    if counter < EVENTFD_MAX then counter + 1 else counter
  }

  datatype Event =
    | Start | Check | PollReturn(wake: bool) | ReadEventFd | EndDispatch | Swap | RunNext | Finish
    | LoopQueue(f: Functor) | LoopWake | LoopQuit
    | Queue(t: Thread, f: Functor) | Quit(t: Thread) | Wake(t: Thread)

  /** Whether callbacks of the user may be running on the loop thread. */
  predicate InCallback(s: State) {
    !s.loopOwes && (s.pc.Idle? || s.pc.Dispatching? || s.pc.Running?)
  }

  predicate Enabled(s: State, ev: Event) {
    match ev
    case Start => s.pc.Idle?
    case Check => s.pc.Checking?
    case PollReturn(wake) => s.pc.Polling? && (wake ==> s.counter > 0)
    case ReadEventFd => s.pc == Dispatching(true) && !s.loopOwes
    case EndDispatch => s.pc == Dispatching(false) && !s.loopOwes
    case Swap => s.pc.Entered?
    case RunNext => s.pc.Running? && s.batch != [] && !s.loopOwes
    case Finish => s.pc.Running? && s.batch == [] && !s.loopOwes
    case LoopQueue(_) => InCallback(s)
    case LoopWake => s.loopOwes
    case LoopQuit => InCallback(s)
    case Queue(t, _) => t !in s.owing
    case Quit(t) => t !in s.owing
    case Wake(t) => t in s.owing
  }

  function Step(s: State, ev: Event): State
    requires Enabled(s, ev)
  {
    match ev
    case Start => s.(pc := Checking, quit := false)
    case Check => s.(pc := if s.quit then Idle else Polling)
    case PollReturn(wake) => s.(pc := Dispatching(wake))
    case ReadEventFd => s.(pc := Dispatching(false), counter := 0)
    case EndDispatch => s.(pc := Entered, calling := true)
    case Swap => s.(pc := Running, batch := s.pending, pending := [], stranded := false)
    case RunNext => s.(batch := s.batch[1..], executed := s.executed + [s.batch[0]])
    case Finish => s.(pc := Checking, calling := false)
    case LoopQueue(f) =>
      s.(pending := s.pending + [f], queued := s.queued + [f], loopOwes := s.calling,
          stranded := s.stranded || (s.pc.Idle? && !s.Notified()))
    case LoopWake => s.(counter := Bump(s.counter), loopOwes := false)
    case LoopQuit => s.(quit := true)
    case Queue(t, f) => s.(pending := s.pending + [f], queued := s.queued + [f], owing := s.owing + {t}, stranded := false)
    case Quit(t) => s.(quit := true, owing := s.owing + {t}, stranded := false)
    case Wake(t) => s.(counter := Bump(s.counter), owing := s.owing - {t})
  }

  const INITIAL := State(Idle, false, false, [], [], 0, {}, false, [], [], false)

  /** An event that is not enabled does not happen. */
  function After(s: State, ev: Event): State {
    if Enabled(s, ev) then Step(s, ev) else s
  }

  /** A run. */
  function Exec(s: State, events: seq<Event>): State
    decreases |events|
  {
    if events == [] then s else Exec(After(s, events[0]), events[1..])
  }

  lemma {:induction false} ExecConcat(s: State, a: seq<Event>, b: seq<Event>)
    ensures Exec(s, a + b) == Exec(Exec(s, a), b)
    decreases |a|
  {
    if a == [] {
      assert a + b == b;
    } else {
      assert (a + b)[0] == a[0] && (a + b)[1..] == a[1..] + b;
      ExecConcat(After(s, a[0]), a[1..], b);
    }
  }

  lemma ExecLast(s: State, events: seq<Event>, ev: Event)
    ensures Exec(s, events + [ev]) == After(Exec(s, events), ev)
  {
    ExecConcat(s, events, [ev]);
    assert [ev][1..] == [];
  }

  lemma ExecThree(s: State, a: Event, b: Event, c: Event)
    ensures Exec(s, [a, b, c]) == After(After(After(s, a), b), c)
  {
    ExecLast(s, [], a);
    ExecLast(s, [a], b);
    ExecLast(s, [a, b], c);
    assert [] + [a] == [a] && [a] + [b] == [a, b] && [a, b] + [c] == [a, b, c];
  }

  // ---------- Invariants ----------

  /** Each functor is executed, in the running batch, or pending: once each, in lock order. */
  predicate FifoHolds(s: State) {
    s.queued == s.executed + s.batch + s.pending
  }

  predicate Inv(s: State) {
    && (s.calling <==> s.pc.Entered? || s.pc.Running?)
    && (s.batch != [] ==> s.pc.Running?)
    && (s.loopOwes ==> s.pc.Running?)
    && (s.pc.Running? && s.pending != [] ==> s.Notified() || s.loopOwes)
    && (s.pc.Running? ==> !s.stranded)
    && (s.pc.Idle? || s.pc.Checking? || s.pc.Polling? ==> (s.stranded <==> s.pending != [] && !s.Notified()))
    && (s.pc.Polling? && s.quit ==> s.Notified())
    && FifoHolds(s)
  }

  lemma StepKeepsInv(s: State, ev: Event)
    requires Inv(s) && Enabled(s, ev)
    ensures Inv(Step(s, ev))
  {
    var s' := Step(s, ev);
    match ev
    case RunNext => assert s.batch == [s.batch[0]] + s.batch[1..];
    case Wake(t) => assert s.Notified() && s'.counter > 0;
    case Queue(t, f) => assert t in s'.owing;
    case Quit(t) => assert t in s'.owing;
    case _ =>
  }

  lemma {:induction false} ExecKeepsInv(s: State, events: seq<Event>)
    requires Inv(s)
    ensures Inv(Exec(s, events))
    decreases |events|
  {
    if events != [] {
      if Enabled(s, events[0]) {
        StepKeepsInv(s, events[0]);
      }
      ExecKeepsInv(After(s, events[0]), events[1..]);
    }
  }

  // ---------- No wake-up is lost ----------

  /** In every interleaving, between the end of doPendingFunctors and the return of poll, pending
      functors mean that the eventfd is readable or a thread is between its push and its wakeup:
      always, but for functors the loop thread left stranded before entering loop(). */
  lemma NoLostWakeup(events: seq<Event>)
    ensures var s := Exec(INITIAL, events);
      (s.pc.Checking? || s.pc.Polling?) && s.pending != [] ==> (s.Notified() <==> !s.stranded)
  {
    ExecKeepsInv(INITIAL, events);
  }

  /** The loop thread queues nothing while it is outside loop(). */
  predicate QueuesInsideOnly(s: State, events: seq<Event>)
    decreases |events|
  {
    events == [] || (!(s.pc.Idle? && events[0].LoopQueue?) && QueuesInsideOnly(After(s, events[0]), events[1..]))
  }

  lemma {:induction false} NothingStranded(s: State, events: seq<Event>)
    requires !s.stranded && QueuesInsideOnly(s, events)
    ensures !Exec(s, events).stranded
    decreases |events|
  {
    if events != [] {
      NothingStranded(After(s, events[0]), events[1..]);
    }
  }

  /** So without such functors no wake-up is ever lost. */
  lemma NoLostWakeupInside(events: seq<Event>)
    requires QueuesInsideOnly(INITIAL, events)
    ensures var s := Exec(INITIAL, events);
      (s.pc.Checking? || s.pc.Polling?) && s.pending != [] ==> s.Notified()
  {
    NoLostWakeup(events);
    NothingStranded(INITIAL, events);
  }

  /** Another thread pushes a functor or requests a quit. */
  predicate CallsIn(s: State, events: seq<Event>)
    decreases |events|
  {
    events != [] &&
    ((Enabled(s, events[0]) && (events[0].Queue? || events[0].Quit?)) || CallsIn(After(s, events[0]), events[1..]))
  }

  /** On the way into poll. */
  predicate Approaching(s: State) {
    !s.calling && !s.loopOwes && (s.pc.Idle? || s.pc.Checking? || s.pc.Polling?)
  }

  lemma StepNotifies(s: State, ev: Event)
    requires Approaching(s) && !ev.PollReturn?
    ensures var s' := After(s, ev);
      && Approaching(s') && s.pending <= s'.pending
      && (s'.Notified() <==> s.Notified() || (Enabled(s, ev) && (ev.Queue? || ev.Quit?)))
  {
    var s' := After(s, ev);
    match ev
    case Queue(t, _) => assert t in s'.owing;
    case Quit(t) => assert t in s'.owing;
    case Wake(t) => assert Enabled(s, ev) ==> s.Notified() && s'.counter > 0;
    case _ =>
  }

  lemma {:induction false} NotifiedByOthers(s: State, events: seq<Event>)
    requires Approaching(s)
    requires forall ev :: ev in events ==> !ev.PollReturn?
    ensures var s' := Exec(s, events);
      && s.pending <= s'.pending
      && (s'.Notified() <==> s.Notified() || CallsIn(s, events))
    decreases |events|
  {
    if events != [] {
      assert events[0] in events && forall ev :: ev in events[1..] ==> ev in events;
      StepNotifies(s, events[0]);
      NotifiedByOthers(After(s, events[0]), events[1..]);
    }
  }

  /** When a functor queued by the loop thread outside loop() will be woken for: whatever happens on
      the way into poll, exactly if a wake-up was due already or another thread calls in. */
  lemma EarlyFunctorNeedsAnother(before: seq<Event>, f: Functor, events: seq<Event>)
    requires Exec(INITIAL, before).pc.Idle?
    requires forall ev :: ev in events ==> !ev.PollReturn?
    ensures var s := Exec(INITIAL, before);
      var s1, s' := After(s, LoopQueue(f)), Exec(INITIAL, before + [LoopQueue(f)] + events);
      && f in s'.pending && (s'.Notified() <==> s.Notified() || CallsIn(s1, events))
  {
    var s := Exec(INITIAL, before);
    ExecKeepsInv(INITIAL, before);
    ExecLast(INITIAL, before, LoopQueue(f));
    ExecConcat(INITIAL, before + [LoopQueue(f)], events);
    NotifiedByOthers(After(s, LoopQueue(f)), events);
    assert f in After(s, LoopQueue(f)).pending;
  }

  /** Entering poll at once, the functor is stranded exactly if no wake-up was due. */
  lemma EarlyFunctorIsStranded(s: State, f: Functor)
    requires s.pc.Idle? && !s.loopOwes && !s.calling
    ensures var s' := Exec(s, [LoopQueue(f), Start, Check]);
      s'.pc.Polling? && f in s'.pending && (s'.Notified() <==> s.Notified())
    ensures !Exec(INITIAL, [LoopQueue(f), Start, Check]).Notified()
  {
    ExecThree(s, LoopQueue(f), Start, Check);
    ExecThree(INITIAL, LoopQueue(f), Start, Check);
  }

  /** In every interleaving the functors in lock order are the executed ones, the rest of the
      running batch, and the pending ones: nothing lost, repeated or reordered. */
  lemma ExactlyOnceFifo(events: seq<Event>)
    ensures FifoHolds(Exec(INITIAL, events))
  {
    ExecKeepsInv(INITIAL, events);
  }

  // ---------- Quitting ----------

  /** The run leaves loop(), or never was inside. */
  predicate ReachesIdle(s: State, events: seq<Event>)
    decreases |events|
  {
    s.pc.Idle? || (events != [] && ReachesIdle(After(s, events[0]), events[1..]))
  }

  lemma {:induction false} QuitStaysSet(s: State, events: seq<Event>)
    requires s.quit && !ReachesIdle(s, events)
    ensures Exec(s, events).quit
    decreases |events|
  {
    if events != [] {
      QuitStaysSet(After(s, events[0]), events[1..]);
    }
  }

  /** A quit requested while the loop runs, by whatever thread and wherever the loop is, is in force
      until the loop is left: the loop does not sleep in poll, and its next test of the flag ends it. */
  lemma QuitIsNotSleptThrough(before: seq<Event>, request: Event, events: seq<Event>)
    requires var s := Exec(INITIAL, before); !s.pc.Idle? && Enabled(s, request)
    requires request.Quit? || request.LoopQuit?
    requires !ReachesIdle(Step(Exec(INITIAL, before), request), events)
    ensures var s := Exec(INITIAL, before + [request] + events);
      && s.quit
      && (s.pc.Polling? ==> s.Notified())
      && (Enabled(s, Check) ==> Step(s, Check).pc.Idle?)
  {
    ExecLast(INITIAL, before, request);
    ExecConcat(INITIAL, before + [request], events);
    QuitStaysSet(Step(Exec(INITIAL, before), request), events);
    ExecKeepsInv(INITIAL, before + [request] + events);
  }

  /** A quit requested before loop() is forgotten: loop() clears the flag and goes on to poll. */
  lemma QuitBeforeLoopIsForgotten(s: State, t: Thread)
    requires s.pc.Idle? && t !in s.owing
    ensures var s' := Exec(s, [Quit(t), Start, Check]); s'.pc.Polling? && !s'.quit
  {
    ExecThree(s, Quit(t), Start, Check);
  }

  // ---------- Pending functors are served ----------

  function RunTimes(n: nat): seq<Event> {
    if n == 0 then [] else [RunNext] + RunTimes(n - 1)
  }

  /** One iteration of the loop thread from the return of poll, with nobody interfering. */
  function Iteration(n: nat): seq<Event> {
    [PollReturn(true), ReadEventFd, EndDispatch] + ([Swap] + RunTimes(n) + [Finish])
  }

  lemma {:induction false} RunTimesRunsBatch(s: State)
    requires s.pc.Running? && !s.loopOwes
    ensures Exec(s, RunTimes(|s.batch|)) == s.(batch := [], executed := s.executed + s.batch)
    decreases |s.batch|
  {
    if s.batch != [] {
      var s' := Step(s, RunNext);
      assert RunTimes(|s.batch|)[1..] == RunTimes(|s'.batch|);
      RunTimesRunsBatch(s');
      assert s.executed + s.batch == (s.executed + [s.batch[0]]) + s.batch[1..];
    }
  }

  lemma QuietBatch(s: State)
    requires s.pc.Entered? && !s.loopOwes && s.batch == []
    ensures Exec(s, [Swap] + RunTimes(|s.pending|) + [Finish]) ==
      s.(pc := Checking, calling := false, stranded := false, executed := s.executed + s.pending, pending := [])
  {
    var s1, body := Step(s, Swap), RunTimes(|s.pending|);
    RunTimesRunsBatch(s1);
    ExecConcat(s, [Swap], body);
    ExecLast(s, [], Swap);
    assert [] + [Swap] == [Swap];
    ExecLast(s, [Swap] + body, Finish);
  }

  lemma QuietIteration(s: State)
    requires Inv(s) && s.pc.Polling? && s.counter > 0
    ensures Exec(s, Iteration(|s.pending|)) ==
      s.(pc := Checking, counter := 0, stranded := false, executed := s.executed + s.pending, pending := [])
  {
    ExecThree(s, PollReturn(true), ReadEventFd, EndDispatch);
    ExecConcat(s, [PollReturn(true), ReadEventFd, EndDispatch], [Swap] + RunTimes(|s.pending|) + [Finish]);
    QuietBatch(s.(pc := Entered, counter := 0, calling := true));
  }

  /** Once every pusher has done its wakeup, a blocked poll can return at once, and the iteration
      that follows executes every functor ever queued. */
  lemma PendingIsServed(events: seq<Event>)
    requires var s := Exec(INITIAL, events);
      s.pc.Polling? && s.pending != [] && s.owing == {} && !s.stranded
    ensures var s := Exec(INITIAL, events);
      && Enabled(s, PollReturn(true))
      && var s' := Exec(s, Iteration(|s.pending|));
      s'.pc.Checking? && s'.executed == s.queued == s'.queued && s'.pending == [] && s'.counter == 0
  {
    ExecKeepsInv(INITIAL, events);
    var s := Exec(INITIAL, events);
    QuietIteration(s);
    assert s.executed + [] + s.pending == s.executed + s.pending;
  }

  // ---------- The class ----------

  /** What callbacks, functors and other threads do: anything but the loop's own control flow. */
  predicate ByCallers(ev: Event) {
    ev.LoopQueue? || ev.LoopWake? || ev.LoopQuit? || ev.Queue? || ev.Quit? || ev.Wake?
  }

  predicate AllByCallers(events: seq<Event>) {
    forall ev :: ev in events ==> ByCallers(ev)
  }

  /** What happens while the i-th functor of a batch runs. */
  function During(during: seq<seq<Event>>, i: nat): seq<Event> {
    if i < |during| then during[i] else []
  }

  /** The steps of the first n functors of a batch. Each one ends with its last wakeup done. */
  function BatchTrace(during: seq<seq<Event>>, n: nat): seq<Event> {
    if n == 0 then [] else BatchTrace(during, n - 1) + ([RunNext] + During(during, n - 1) + [LoopWake])
  }

  /** What the environment does in one turn of the loop: before the test of the flag, while poll
      waits, whether the eventfd is then reported, before and after it is read, and in the batch. */
  datatype Turn = Turn(testing: seq<Event>, polling: seq<Event>, wake: bool,
                       first: seq<Event>, last: seq<Event>, running: seq<seq<Event>>)
  {
    predicate Fair() {
      && AllByCallers(testing) && AllByCallers(polling) && AllByCallers(first) && AllByCallers(last)
      && forall i :: 0 <= i < |running| ==> AllByCallers(running[i])
    }
  }

  /** Callers do not move the loop thread, and only ever add functors. */
  lemma CallerMovesNothing(s: State, ev: Event)
    requires ByCallers(ev)
    ensures var s' := After(s, ev);
      && s'.pc == s.pc && s'.batch == s.batch && s'.executed == s.executed
      && s.pending <= s'.pending
  {
  }

  lemma LastWake(events: seq<Event>)
    ensures !Exec(INITIAL, events + [LoopWake]).loopOwes
  {
    ExecLast(INITIAL, events, LoopWake);
  }

  class EventLoop {
    var quit: bool
    var callingPendingFunctors: bool
    var pendingFunctors: seq<Functor>
    var counter: nat

    // Where the threads are, and what has been queued and run so far.
    var pc: Pc
    var batch: seq<Functor>
    var owing: set<Thread>
    var loopOwes: bool
    var queued: seq<Functor>
    var executed: seq<Functor>
    var stranded: bool
    ghost var trace: seq<Event>

    function View(): State
      reads this
    {
      State(pc, quit, callingPendingFunctors, pendingFunctors, batch, counter, owing, loopOwes, queued, executed, stranded)
    }

    /** The object has got where it is by a run of the protocol. */
    ghost predicate Valid()
      reads this
    {
      View() == Exec(INITIAL, trace)
    }

    constructor ()
      ensures Valid() && trace == []
    {
      quit, callingPendingFunctors, pendingFunctors, counter := false, false, [], 0;
      pc, batch, owing, loopOwes, queued, executed, stranded := Idle, [], {}, false, [], [], false;
      trace := [];
    }

    lemma ValidHasInv()
      requires Valid()
      ensures Inv(View())
    {
      ExecKeepsInv(INITIAL, trace);
    }

    /** The fields have just made the given step. */
    ghost method Record(ev: Event)
      requires View() == After(Exec(INITIAL, trace), ev)
      modifies this`trace
      ensures Valid() && trace == old(trace) + [ev]
    {
      ExecLast(INITIAL, trace, ev);
      trace := trace + [ev];
    }

    method Wakeup()
      modifies this`counter
      ensures counter == Bump(old(counter))
      ensures counter == if old(counter) < 0xFFFF_FFFF_FFFF_FFFE then old(counter) + 1 else old(counter)
    {
      if counter < EVENTFD_MAX {
        counter := counter + 1;
      }
    }

    /** The wake-ups written so far are used up: only threads that still owe one notify the loop. */
    method HandleRead()
      requires Valid() && Enabled(View(), ReadEventFd)
      modifies this
      ensures Valid() && trace == old(trace) + [ReadEventFd]
      ensures pc == Dispatching(false) && pendingFunctors == old(pendingFunctors) && executed == old(executed)
      ensures View().Notified() <==> old(owing) != {}
    {
      counter := 0;
      pc := Dispatching(false);
      Record(ReadEventFd);
    }

    /** The locked push of queueInLoop; afterwards the caller owes a wakeup, or does not. */
    method PushBack(f: Functor, thread: Thread, isInLoopThread: bool)
      requires Valid()
      requires if isInLoopThread then InCallback(View()) else thread !in owing
      modifies this
      ensures Valid() && trace == old(trace) + [if isInLoopThread then LoopQueue(f) else Queue(thread, f)]
      ensures View() == Step(old(View()), if isInLoopThread then LoopQueue(f) else Queue(thread, f))
    {
      ghost var ev := if isInLoopThread then LoopQueue(f) else Queue(thread, f);
      ghost var target := Step(View(), ev);
      pendingFunctors, queued := pendingFunctors + [f], queued + [f];
      if isInLoopThread {
        loopOwes, stranded := callingPendingFunctors, stranded || (pc.Idle? && counter == 0 && owing == {});
      } else {
        owing, stranded := owing + {thread}, false;
      }
      assert View() == target;
      Record(ev);
    }

    /** The wakeup that a caller owes. */
    method PayWakeup(thread: Thread, isInLoopThread: bool)
      requires Valid()
      requires if isInLoopThread then loopOwes else thread in owing
      modifies this
      ensures Valid() && trace == old(trace) + [if isInLoopThread then LoopWake else Wake(thread)]
      ensures View() == Step(old(View()), if isInLoopThread then LoopWake else Wake(thread)) && counter > 0
    {
      Wakeup();
      if isInLoopThread {
        loopOwes := false;
        Record(LoopWake);
      } else {
        owing := owing - {thread};
        Record(Wake(thread));
      }
    }

    /** A call that no other thread interrupts: push, then wake up if called from another thread or
        from a functor of the running batch. Afterwards the functor is announced, unless it was
        queued on the loop thread: there it is before the swap, or before loop(). */
    method QueueInLoop(f: Functor, thread: Thread, isInLoopThread: bool)
      requires Valid()
      requires if isInLoopThread then InCallback(View()) else thread !in owing
      modifies this
      ensures Valid()
      ensures pendingFunctors == old(pendingFunctors) + [f] && executed == old(executed)
      ensures trace == old(trace) + (if !isInLoopThread then [Queue(thread, f), Wake(thread)]
                                     else if old(callingPendingFunctors) then [LoopQueue(f), LoopWake] else [LoopQueue(f)])
      ensures !isInLoopThread || old(pc.Running?) ==> counter > 0
    {
      ValidHasInv();
      PushBack(f, thread, isInLoopThread);
      if !isInLoopThread || callingPendingFunctors {
        PayWakeup(thread, isInLoopThread);
      }
    }

    /** One step of some caller; a step that is not enabled does not happen. */
    method Happen(ev: Event)
      requires Valid() && ByCallers(ev)
      modifies this
      ensures Valid() && trace == old(trace) + [ev]
      ensures View() == After(old(View()), ev)
    {
      if Enabled(View(), ev) {
        match ev
        case LoopQueue(f) => PushBack(f, 0, true);
        case Queue(t, f) => PushBack(f, t, false);
        case LoopWake => PayWakeup(0, true);
        case Wake(t) => PayWakeup(t, false);
        case LoopQuit =>
          quit := true;
          Record(ev);
        case Quit(t) =>
          quit, owing, stranded := true, owing + {t}, false;
          Record(ev);
      } else {
        Record(ev);
      }
    }

    /** Callers do not move the loop thread, and only ever add functors. */
    method HappenAll(events: seq<Event>)
      requires Valid() && AllByCallers(events)
      modifies this
      ensures Valid() && trace == old(trace) + events
      ensures pc == old(pc) && batch == old(batch) && executed == old(executed)
      ensures old(pendingFunctors) <= pendingFunctors
    {
      for i := 0 to |events|
        invariant Valid() && trace == old(trace) + events[..i]
        invariant pc == old(pc) && batch == old(batch) && executed == old(executed)
        invariant old(pendingFunctors) <= pendingFunctors
      {
        CallerMovesNothing(View(), events[i]);
        Happen(events[i]);
      }
    }

    method TakeNext()
      requires Valid() && Enabled(View(), RunNext)
      modifies this
      ensures Valid() && pc.Running? && trace == old(trace) + [RunNext]
      ensures batch == old(batch)[1..] && executed == old(executed) + [old(batch)[0]]
    {
      executed, batch := executed + [batch[0]], batch[1..];
      Record(RunNext);
    }

    /** One functor of the batch: it leaves the batch, things happen, and its last wakeup is done. */
    method RunFunctor(events: seq<Event>)
      requires Valid() && Enabled(View(), RunNext) && AllByCallers(events)
      modifies this
      ensures Valid() && trace == old(trace) + ([RunNext] + events + [LoopWake])
      ensures pc.Running? && !loopOwes
      ensures batch == old(batch)[1..] && executed == old(executed) + [old(batch)[0]]
    {
      TakeNext();
      HappenAll(events);
      HappenAll([LoopWake]);
      LastWake(old(trace) + [RunNext] + events);
      assert old(trace) + [RunNext] + events + [LoopWake] == old(trace) + ([RunNext] + events + [LoopWake]);
    }

    method RunBatch(functors: seq<Functor>, during: seq<seq<Event>>)
      requires Valid() && pc.Running? && !loopOwes && batch == functors
      requires forall i :: 0 <= i < |during| ==> AllByCallers(during[i])
      modifies this
      ensures Valid() && trace == old(trace) + BatchTrace(during, |functors|)
      ensures pc.Running? && !loopOwes && batch == [] && executed == old(executed) + functors
    {
      for i := 0 to |functors|
        invariant Valid() && trace == old(trace) + BatchTrace(during, i)
        invariant pc.Running? && !loopOwes
        invariant batch == functors[i..] && executed == old(executed) + functors[..i]
      {
        RunFunctor(During(during, i));
      }
    }

    /** Callbacks are done; from here on a push by the loop thread must be followed by a wakeup. */
    method Enter()
      requires Valid() && Enabled(View(), EndDispatch)
      modifies this
      ensures Valid() && trace == old(trace) + [EndDispatch]
      ensures View() == Step(old(View()), EndDispatch)
    {
      pc, callingPendingFunctors := Entered, true;
      Record(EndDispatch);
    }

    /** The locked section: the batch is everything pending. */
    method SwapOut() returns (functors: seq<Functor>)
      requires Valid() && Enabled(View(), Swap)
      modifies this
      ensures Valid() && trace == old(trace) + [Swap]
      ensures functors == batch == old(pendingFunctors) && pendingFunctors == []
      ensures pc.Running? && loopOwes == old(loopOwes) && executed == old(executed)
    {
      functors := [];
      functors, pendingFunctors := pendingFunctors, functors;
      pc, batch, stranded := Running, functors, false;
      Record(Swap);
    }

    method Leave()
      requires Valid() && Enabled(View(), Finish)
      modifies this
      ensures Valid() && pc.Checking? && !callingPendingFunctors && trace == old(trace) + [Finish]
      ensures executed == old(executed)
      ensures pendingFunctors != [] ==> View().Notified()
    {
      ValidHasInv();
      pc, callingPendingFunctors := Checking, false;
      Record(Finish);
    }

    /** Swap the queue out under the lock and run the whole batch, while functors queue functors and
        other threads push, quit and wake up. It is a run of the protocol, it executes exactly what
        was pending at the swap, in order, and leaves no functor behind without a wake-up. */
    method DoPendingFunctors(during: seq<seq<Event>>)
      requires Valid() && Enabled(View(), EndDispatch)
      requires forall i :: 0 <= i < |during| ==> AllByCallers(during[i])
      modifies this
      ensures Valid() && pc.Checking? && !callingPendingFunctors
      ensures trace == old(trace) + [EndDispatch] + [Swap] + BatchTrace(during, |old(pendingFunctors)|) + [Finish]
      ensures executed == old(executed) + old(pendingFunctors)
      ensures pendingFunctors != [] ==> View().Notified()
    {
      Enter();
      var functors := SwapOut();
      RunBatch(functors, during);
      Leave();
    }

    method ReturnFromPoll(wake: bool)
      requires Valid() && Enabled(View(), PollReturn(wake))
      modifies this
      ensures Valid() && trace == old(trace) + [PollReturn(wake)]
      ensures pc == Dispatching(wake) && executed == old(executed) && pendingFunctors == old(pendingFunctors)
    {
      pc := Dispatching(wake);
      Record(PollReturn(wake));
    }

    /** Callbacks run, and among them that of the wake-up channel if poll reported it. */
    method ReadWakeups(first: seq<Event>)
      requires Valid() && pc.Dispatching? && AllByCallers(first)
      modifies this
      ensures Valid() && pc == Dispatching(false) && old(trace) <= trace
      ensures executed == old(executed) && old(pendingFunctors) <= pendingFunctors
    {
      HappenAll(first);
      ValidHasInv();
      if pc.wake {
        HandleRead();
      }
    }

    /** From the wait in poll to the end of the batch: everything queued by the time poll is entered
        has been executed at the end. */
    method Iterate(turn: Turn)
      requires Valid() && pc.Polling? && turn.Fair()
      modifies this
      ensures Valid() && pc.Checking? && old(trace) <= trace
      ensures old(executed + pendingFunctors) <= executed
    {
      HappenAll(turn.polling);
      ReturnFromPoll(turn.wake && counter > 0);
      ReadWakeups(turn.first);
      HappenAll(turn.last);
      ValidHasInv();
      DoPendingFunctors(turn.running);
    }

    /** The loop's test: with the flag set it ends, otherwise it goes into poll. */
    method TestFlag(testing: seq<Event>)
      requires Valid() && pc.Checking? && AllByCallers(testing)
      modifies this
      ensures Valid() && old(trace) <= trace
      ensures pc == (if quit then Idle else Polling)
      ensures executed == old(executed) && old(pendingFunctors) <= pendingFunctors
    {
      HappenAll(testing);
      pc := if quit then Idle else Polling;
      Record(Check);
    }

    /** loop(): turns until the flag is found set, or the environment's script ends. Every turn
        executes what had been queued before it; nothing is lost, repeated or reordered; and the loop
        is left only after a quit. */
    method Loop(turns: seq<Turn>) returns (done: nat)
      requires Valid() && pc.Idle?
      requires forall i :: 0 <= i < |turns| ==> turns[i].Fair()
      modifies this
      ensures Valid() && old(trace) <= trace
      ensures done <= |turns| && ((pc.Idle? && quit) || (pc.Checking? && done == |turns|))
      ensures done > 0 ==> old(queued) <= executed
      ensures queued == executed + pendingFunctors
      ensures pendingFunctors != [] ==> (View().Notified() <==> !stranded)
    {
      ValidHasInv();
      quit, pc := false, Checking;
      Record(Start);
      done := 0;
      while done < |turns|
        invariant Valid() && pc.Checking? && old(trace) <= trace
        invariant done <= |turns|
        invariant old(queued) <= executed + pendingFunctors
        invariant done > 0 ==> old(queued) <= executed
      {
        TestFlag(turns[done].testing);
        if pc.Idle? {
          break;
        }
        Iterate(turns[done]);
        done := done + 1;
      }
      ValidHasInv();
    }
  }
}
