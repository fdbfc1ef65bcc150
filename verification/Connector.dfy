/** Non-blocking connect with retries (twnl/Connector.cc, twnl/Connector.h). Sockets are numbered in
    the order they are created, so a descriptor reused by the kernel is a new socket. */
module Connectors {
  import opened Basics
  import opened Channels

  const MAX_RETRY_DELAY_MS := 30_000
  const INIT_RETRY_DELAY_MS := 50

  datatype States = Disconnected | Connecting | Connected

  /** connect errors by what the switch does with them. */
  datatype Verdict = Proceed | TryAgain | GiveUp

  function Classify(savedErrno: int): Verdict {
    if savedErrno in {0, 115, 4, 106} then Proceed                // success, EINPROGRESS, EINTR, EISCONN
    else if savedErrno in {11, 98, 99, 111, 101} then TryAgain    // EAGAIN, EADDRINUSE, EADDRNOTAVAIL, ECONNREFUSED, ENETUNREACH
    else GiveUp
  }

  datatype State = State(
    connect: bool,
    state: States,
    channel: Option<nat>,   // the socket of channel_
    watching: bool,         // channel_ is registered with the poller
    resets: nat,            // resetChannel functors in the loop's queue
    armed: bool,            // the retry timer in timer_ has not gone off
    stale: nat,             // earlier retry timers that have not: timer_ holds only the last one
    retryDelayMs: nat,
    created: nat,           // sockets created so far
    closed: seq<nat>,
    handed: seq<nat>,       // sockets given to newConnectionCallback_
    delays: seq<nat>)       // delays scheduled since construction or the last restart
  {
    // The operations; None where an assertion fails.

    function Retry(sockfd: nat): State {
      var s := this.(closed := closed + [sockfd], state := Disconnected);
      if !connect then s
      else s.(armed := true, stale := if armed then stale + 1 else stale, delays := delays + [retryDelayMs],
              retryDelayMs := Min(retryDelayMs * 2, MAX_RETRY_DELAY_MS))
    }

    function ConnectingTo(sockfd: nat): Option<State> {
      if channel.Some? then None
      else Some(this.(state := Connecting, channel := Some(sockfd), watching := true))
    }

    function Connect(savedErrno: int): Option<State> {
      var s := this.(created := created + 1);
      match Classify(savedErrno)
      case Proceed => s.ConnectingTo(created)
      case TryAgain => Some(s.Retry(created))
      case GiveUp => Some(s.(closed := closed + [created]))
    }

    function StartInLoop(savedErrno: int): Option<State> {
      if !state.Disconnected? then None
      else if connect then Connect(savedErrno)
      else Some(this)
    }

    function Start(savedErrno: int): Option<State> {
      this.(connect := true).StartInLoop(savedErrno)
    }

    function Restart(savedErrno: int): Option<State> {
      this.(state := Disconnected, retryDelayMs := INIT_RETRY_DELAY_MS, connect := true, delays := []).StartInLoop(savedErrno)
    }

    /** Cancels the timer in timer_ and no other. Cancelling one that no longer exists is outside the
        model: here it does nothing. */
    function Stop(): State {
      this.(connect := false, armed := false)
    }

    function TimerGone(last: bool): State {
      if last then this.(armed := false) else this.(stale := if stale > 0 then stale - 1 else 0)
    }

    function RemoveAndResetChannel(): State {
      this.(watching := false, resets := resets + 1)
    }

    /** The connection is made; its socket goes to the user if it is still wanted. */
    function Succeed(sockfd: nat): State {
      if connect then this.(state := Connected, handed := handed + [sockfd])
      else this.(state := Connected, closed := closed + [sockfd])
    }

    function HandleWrite(err: int, selfConnect: bool): Option<State> {
      if state.Connecting? then
        if channel.None? then None
        else
          var s := RemoveAndResetChannel();
          Some(if err != 0 || selfConnect then s.Retry(channel.value) else s.Succeed(channel.value))
      else if state.Disconnected? then Some(this)
      else None
    }

    function HandleError(): Option<State> {
      if !state.Connecting? || channel.None? then None
      else Some(RemoveAndResetChannel().Retry(channel.value))
    }
  }

  const INITIAL := State(false, Disconnected, None, false, 0, false, 0, INIT_RETRY_DELAY_MS, 0, [], [], [])

  // ---------- Events and runs ----------

  /** TimerFires: the retry timer in timer_ goes off, or an earlier one. Dispatch: the poller reports revents on the channel; the socket error and the self-connect test
      are what the kernel answers if asked. */
  datatype Event =
    | CallStart(savedErrno: int)
    | CallRestart(savedErrno: int)
    | CallStop
    | TimerFires(savedErrno: int, last: bool)
    | Dispatch(revents: Mask, err: int, selfConnect: bool)
    | RunReset

  const INSTALLED: set<Callback> := {WriteCallback, ErrorCallback}

  function RunCallbacks(s: State, calls: seq<Callback>, err: int, selfConnect: bool): Option<State>
    decreases |calls|
  {
    if calls == [] then Some(s)
    else
      var r := if calls[0].ErrorCallback? then s.HandleError() else s.HandleWrite(err, selfConnect);
      if r.None? then None else RunCallbacks(r.value, calls[1..], err, selfConnect)
  }

  /** start and stop at any time; restart not while connecting; the others when there is something to
      fire, dispatch or run. */
  predicate Legal(s: State, ev: Event) {
    match ev
    case CallRestart(_) => !s.state.Connecting?
    case TimerFires(_, last) => if last then s.armed else s.stale > 0
    case Dispatch(_, _, _) => s.watching
    case RunReset => s.resets > 0
    case _ => true
  }

  function Step(s: State, ev: Event): Option<State> {
    match ev
    case CallStart(e) => s.Start(e)
    case CallRestart(e) => s.Restart(e)
    case CallStop => Some(s.Stop())
    case TimerFires(e, last) => s.TimerGone(last).StartInLoop(e)
    case Dispatch(revents, err, selfConnect) =>
      RunCallbacks(s, Dispatched(revents, INSTALLED, 4), err, selfConnect)
    case RunReset => Some(s.(channel := None, resets := if s.resets > 0 then s.resets - 1 else 0))
  }

  /** A run from construction; it stops at the first failing assertion. Illegal events do not happen. */
  function Run(events: seq<Event>): Option<State> {
    if events == [] then Some(INITIAL)
    else
      var before, ev := Run(events[..|events| - 1]), events[|events| - 1];
      if before.None? then None
      else if !Legal(before.value, ev) then before
      else Step(before.value, ev)
  }

  // ---------- Ownership and backoff ----------

  function FirstNats(n: nat): multiset<nat> {
    if n == 0 then multiset{} else FirstNats(n - 1) + multiset{n - 1}
  }

  function Held(s: State): multiset<nat> {
    if s.watching && s.channel.Some? then multiset{s.channel.value} else multiset{}
  }

  predicate AllAre(created: nat, closed: seq<nat>, handed: seq<nat>, held: multiset<nat>) {
    multiset(closed) + multiset(handed) + held == FirstNats(created)
  }

  /** Every created socket is exactly one of: held by the live channel, closed once, handed over once. */
  predicate Owned(s: State) {
    AllAre(s.created, s.closed, s.handed, Held(s))
  }

  lemma {:induction false} FirstNatsCounts(n: nat, i: nat)
    ensures FirstNats(n)[i] == if i < n then 1 else 0
  {
    if n > 0 {
      FirstNatsCounts(n - 1, i);
    }
  }

  /** What Owned says of one socket. */
  lemma EachSocketOnce(s: State, i: nat)
    requires Owned(s)
    ensures multiset(s.closed)[i] + multiset(s.handed)[i] + Held(s)[i] == if i < s.created then 1 else 0
  {
    FirstNatsCounts(s.created, i);
    assert (multiset(s.closed) + multiset(s.handed) + Held(s))[i] == FirstNats(s.created)[i];
  }

  lemma SocketsOnce(s: State, held: Option<nat>)
    requires Owned(s) && held == if s.watching then s.channel else None
    ensures forall i: nat :: multiset(s.closed)[i] + multiset(s.handed)[i] + (if held == Some(i) then 1 else 0) ==
                             if i < s.created then 1 else 0
  {
    forall i: nat
      ensures multiset(s.closed)[i] + multiset(s.handed)[i] + (if held == Some(i) then 1 else 0) == if i < s.created then 1 else 0
    {
      EachSocketOnce(s, i);
    }
  }

  function Pow2(k: nat): nat {
    if k == 0 then 1 else 2 * Pow2(k - 1)
  }

  /** The delay after k scheduled retries. */
  function Backoff(k: nat): nat {
    Min(INIT_RETRY_DELAY_MS * Pow2(k), MAX_RETRY_DELAY_MS)
  }

  predicate BacksOff(delays: seq<nat>, next: nat) {
    next == Backoff(|delays|) && forall k :: 0 <= k < |delays| ==> delays[k] == Backoff(k)
  }

  predicate BackoffHolds(s: State) {
    BacksOff(s.delays, s.retryDelayMs)
  }

  /** Channel, state and pending reset agree. Retry timers may be pending in any state. */
  predicate Coherent(s: State) {
    && (s.watching <==> s.state.Connecting?)
    && (s.watching ==> s.channel.Some? && s.resets == 0)
    && (s.channel.Some? && !s.watching ==> s.resets == 1)
    && (s.channel.None? ==> s.resets == 0)
  }

  predicate Inv(s: State) {
    Coherent(s) && Owned(s) && BackoffHolds(s)
  }

  lemma BackoffDoubles(k: nat)
    ensures Min(Backoff(k) * 2, MAX_RETRY_DELAY_MS) == Backoff(k + 1)
  {
  }

  lemma {:induction false} PowersGrow(j: nat, k: nat)
    requires j <= k
    ensures Pow2(j) <= Pow2(k)
  {
    if j < k {
      PowersGrow(j, k - 1);
    }
  }

  /** In milliseconds: 50, 100, 200 and so on, and never more than 30 seconds. */
  lemma BackoffInMilliseconds(k: nat)
    ensures Backoff(0) == 50 && Backoff(1) == 100 && Backoff(2) == 200
    ensures Backoff(k) <= 30000 && (k >= 10 ==> Backoff(k) == 30000)
  {
    assert Pow2(1) == 2 && Pow2(2) == 4;
    if k >= 10 {
      PowersGrow(10, k);
      assert Pow2(10) == 1024;
    }
  }

  lemma RetryKeepsBackoff(s: State, sockfd: nat)
    requires BackoffHolds(s)
    ensures BackoffHolds(s.Retry(sockfd))
  {
    BackoffDoubles(|s.delays|);
  }

  /** Nobody holds sockfd any more; everything else is closed or handed over. */
  predicate OwnedBut(s: State, sockfd: nat) {
    !s.watching && AllAre(s.created, s.closed, s.handed, multiset{sockfd})
  }

  lemma ClosingSettles(s: State, t: State, sockfd: nat)
    requires OwnedBut(s, sockfd)
    requires !t.watching && t.created == s.created
    requires (t.closed == s.closed + [sockfd] && t.handed == s.handed) || (t.closed == s.closed && t.handed == s.handed + [sockfd])
    ensures Owned(t)
  {
    assert Held(t) == multiset{};
    assert multiset(s.closed + [sockfd]) == multiset(s.closed) + multiset{sockfd};
    assert multiset(s.handed + [sockfd]) == multiset(s.handed) + multiset{sockfd};
  }

  /** Between two parts of an operation: sockfd is in hand, and must be closed or handed over next. */
  predicate InHand(s: State, sockfd: nat) {
    && OwnedBut(s, sockfd) && BackoffHolds(s)
    && s.resets == if s.channel.Some? then 1 else 0
  }

  /** Whether a retry has been scheduled, with the backed-off delay; no pending one is lost. */
  predicate RetryScheduled(s: State, t: State, retry: bool) {
    if retry then t.armed && t.stale == (if s.armed then s.stale + 1 else s.stale) && t.delays == s.delays + [Backoff(|s.delays|)]
    else t.armed == s.armed && t.stale == s.stale && t.delays == s.delays
  }

  lemma RetrySettles(s: State, sockfd: nat)
    requires InHand(s, sockfd)
    ensures Inv(s.Retry(sockfd)) && RetryScheduled(s, s.Retry(sockfd), s.connect)
  {
    ClosingSettles(s, s.Retry(sockfd), sockfd);
    RetryKeepsBackoff(s, sockfd);
  }

  /** The connect flag and the timers concern neither ownership nor backoff. */
  lemma FlagsAreFree(s: State, t: State)
    requires Inv(s) && t == s.(connect := t.connect, armed := t.armed, stale := t.stale)
    ensures Inv(t)
  {
  }

  lemma LettingGo(s: State)
    requires Inv(s) && s.watching
    ensures InHand(s.RemoveAndResetChannel(), s.channel.value)
  {
    assert Held(s) == multiset{s.channel.value};
  }

  lemma NewSocket(s: State)
    requires Inv(s) && s.state.Disconnected?
    ensures InHand(s.(created := s.created + 1), s.created)
  {
    assert Held(s) == multiset{};
    assert multiset(s.closed) + multiset(s.handed) == FirstNats(s.created);
    assert FirstNats(s.created + 1) == FirstNats(s.created) + multiset{s.created};
  }

  function Socket(s: State): nat {
    match s.channel
    case Some(sockfd) => sockfd
    case None => 0
  }

  /** From s to t one connection attempt has been made: the new socket is watched, or it has been
      closed, and after an error worth retrying the next attempt is scheduled with the backed-off
      delay; every other socket is where it was. */
  predicate Attempted(s: State, t: State, savedErrno: int) {
    && t.created == s.created + 1 && t.handed == s.handed && t.connect
    && (if Classify(savedErrno).Proceed?
        then t.watching && t.channel == Some(s.created) && t.closed == s.closed
        else !t.watching && t.state.Disconnected? && t.closed == s.closed + [s.created])
    && RetryScheduled(s, t, Classify(savedErrno).TryAgain?)
  }

  /** A connection attempt fails an assertion exactly if it proceeds while the old channel is still
      waiting for its reset. */
  lemma ConnectKeepsInv(s: State, savedErrno: int)
    requires Inv(s) && s.state.Disconnected? && s.connect
    ensures s.Connect(savedErrno).None? <==> Classify(savedErrno).Proceed? && s.resets > 0
    ensures s.Connect(savedErrno).Some? ==> Inv(s.Connect(savedErrno).value)
  {
    var s1 := s.(created := s.created + 1);
    NewSocket(s);
    match Classify(savedErrno)
    case Proceed =>
      if s.channel.None? {
        var t := s.Connect(savedErrno).value;
        assert Held(t) == multiset{s.created};
      }
    case TryAgain => RetrySettles(s1, s.created);
    case GiveUp => ClosingSettles(s1, s.Connect(savedErrno).value, s.created);
  }

  lemma ConnectAttempts(s: State, savedErrno: int)
    requires Inv(s) && s.state.Disconnected? && s.connect && s.Connect(savedErrno).Some?
    ensures Attempted(s, s.Connect(savedErrno).value, savedErrno)
  {
  }

  /** Which answers of connect lead where, as errno values: with 0, EINPROGRESS, EINTR and EISCONN the
      socket is watched; with EAGAIN, EADDRINUSE, EADDRNOTAVAIL, ECONNREFUSED and ENETUNREACH a retry is
      armed; with any other the socket is closed and that is all. */
  lemma ConnectByErrno(s: State, savedErrno: int)
    requires Inv(s) && s.state.Disconnected? && s.connect && s.resets == 0 && !s.armed
    ensures var t := s.Connect(savedErrno).value;
      && (t.watching <==> savedErrno in {0, 115, 4, 106})
      && (t.armed <==> savedErrno in {11, 98, 99, 111, 101})
      && (s.created in t.closed <==> savedErrno !in {0, 115, 4, 106})
  {
    if s.created in s.closed {
      EachSocketOnce(s, s.created);
    }
  }

  /** What an error event does to the socket: it is closed, and retried if still wanted. */
  predicate Failed(s: State, t: State) {
    && t.closed == s.closed + [Socket(s)] && t.handed == s.handed && t.created == s.created
    && !t.watching && t.resets == 1 && t.state.Disconnected? && t.connect == s.connect
    && RetryScheduled(s, t, s.connect)
  }

  /** What a success does: the socket is handed over if still wanted, and closed otherwise. */
  predicate Succeeded(s: State, t: State) {
    && (if s.connect then t.handed == s.handed + [Socket(s)] && t.closed == s.closed
        else t.closed == s.closed + [Socket(s)] && t.handed == s.handed)
    && t.created == s.created && !t.watching && t.resets == 1 && t.state.Connected?
    && RetryScheduled(s, t, false) && t.connect == s.connect
  }

  lemma HandleErrorKeepsInv(s: State)
    requires Inv(s) && s.watching
    ensures s.HandleError().Some? && Inv(s.HandleError().value) && Failed(s, s.HandleError().value)
  {
    LettingGo(s);
    RetrySettles(s.RemoveAndResetChannel(), s.channel.value);
  }

  /** A write event hands the socket over exactly if the connect succeeded, is no self-connection and
      is still wanted; a failed connect or self-connection is handled as by an error event. */
  lemma HandleWriteKeepsInv(s: State, err: int, selfConnect: bool)
    requires Inv(s) && s.watching
    ensures s.HandleWrite(err, selfConnect).Some? && Inv(s.HandleWrite(err, selfConnect).value)
    ensures var t := s.HandleWrite(err, selfConnect).value;
      if err == 0 && !selfConnect then Succeeded(s, t) else Failed(s, t)
  {
    LettingGo(s);
    var s1 := s.RemoveAndResetChannel();
    if err != 0 || selfConnect {
      RetrySettles(s1, s.channel.value);
    } else {
      ClosingSettles(s1, s.HandleWrite(err, selfConnect).value, s.channel.value);
    }
  }

  lemma RunOne(s: State, cb: Callback, err: int, selfConnect: bool)
    ensures RunCallbacks(s, [cb], err, selfConnect) ==
      if cb.ErrorCallback? then s.HandleError() else s.HandleWrite(err, selfConnect)
  {
    assert [cb][1..] == [];
  }

  /** An error event settles the socket, and the write callback of the same dispatch then finds
      nothing to do. */
  lemma RunCalls(s: State, calls: seq<Callback>, error: bool, write: bool, err: int, selfConnect: bool)
    requires s.state.Connecting? && s.channel.Some?
    requires calls == (if error then [ErrorCallback] else []) + (if write then [WriteCallback] else [])
    ensures RunCallbacks(s, calls, err, selfConnect) ==
      if error then s.HandleError() else if write then s.HandleWrite(err, selfConnect) else Some(s)
  {
    if error && write {
      assert calls[1..] == [WriteCallback];
      RunOne(s.HandleError().value, WriteCallback, err, selfConnect);
    } else if error {
      assert calls == [ErrorCallback];
      RunOne(s, ErrorCallback, err, selfConnect);
    } else if write {
      assert calls == [WriteCallback];
      RunOne(s, WriteCallback, err, selfConnect);
    }
  }

  lemma DispatchedToConnector(revents: Mask)
    ensures Dispatched(revents, INSTALLED, 4) ==
      (if ERR in revents then [ErrorCallback] else []) + (if OUT in revents then [WriteCallback] else [])
  {
    assert Dispatched(revents, INSTALLED, 1) == [];
    assert Dispatched(revents, INSTALLED, 2) == if ERR in revents then [ErrorCallback] else [];
    assert Dispatched(revents, INSTALLED, 3) == Dispatched(revents, INSTALLED, 2);
  }

  /** One dispatch never fails an assertion, an error event followed by a write event included. */
  lemma DispatchKeepsInv(s: State, revents: Mask, err: int, selfConnect: bool)
    requires Inv(s) && s.watching
    ensures var r := RunCallbacks(s, Dispatched(revents, INSTALLED, 4), err, selfConnect);
      && r.Some? && Inv(r.value)
      && r == if ERR in revents then s.HandleError()
              else if OUT in revents then s.HandleWrite(err, selfConnect) else Some(s)
  {
    DispatchedToConnector(revents);
    RunCalls(s, Dispatched(revents, INSTALLED, 4), ERR in revents, OUT in revents, err, selfConnect);
    if ERR in revents {
      HandleErrorKeepsInv(s);
    } else if OUT in revents {
      HandleWriteKeepsInv(s, err, selfConnect);
    }
  }

  lemma RestartKeepsInv(s: State)
    requires Inv(s) && !s.state.Connecting?
    ensures Inv(s.(state := Disconnected, retryDelayMs := INIT_RETRY_DELAY_MS, connect := true, delays := []))
  {
    assert Backoff(0) == INIT_RETRY_DELAY_MS;
  }

  lemma StartKeepsInv(s: State, savedErrno: int)
    requires Inv(s)
    ensures s.Start(savedErrno).None? <==> !s.state.Disconnected? || (Classify(savedErrno).Proceed? && s.resets > 0)
    ensures s.Start(savedErrno).Some? ==> Inv(s.Start(savedErrno).value)
  {
    if s.state.Disconnected? {
      ConnectKeepsInv(s.(connect := true), savedErrno);
    }
  }

  lemma TimerKeepsInv(s: State, savedErrno: int, last: bool)
    requires Inv(s)
    ensures var r := Step(s, TimerFires(savedErrno, last));
      && (r.None? <==> !s.state.Disconnected? || (s.connect && Classify(savedErrno).Proceed? && s.resets > 0))
      && (r.Some? ==> Inv(r.value))
  {
    if s.state.Disconnected? && s.connect {
      ConnectKeepsInv(s.TimerGone(last), savedErrno);
    }
  }

  /** When an event fails an assertion: a start, or a retry timer, finds the connector connecting or
      connected; or a wanted attempt proceeds while the previous channel waits for its reset. */
  predicate Fails(s: State, ev: Event) {
    match ev
    case CallStart(e) => !s.state.Disconnected? || (Classify(e).Proceed? && s.resets > 0)
    case CallRestart(e) => Classify(e).Proceed? && s.resets > 0
    case TimerFires(e, _) => !s.state.Disconnected? || (s.connect && Classify(e).Proceed? && s.resets > 0)
    case _ => false
  }

  lemma StepKeepsInv(s: State, ev: Event)
    requires Inv(s) && Legal(s, ev)
    ensures Step(s, ev).None? <==> Fails(s, ev)
    ensures Step(s, ev).Some? ==> Inv(Step(s, ev).value)
  {
    match ev
    case CallStart(e) => StartKeepsInv(s, e);
    case CallRestart(e) =>
      RestartKeepsInv(s);
      StartKeepsInv(s.(state := Disconnected, retryDelayMs := INIT_RETRY_DELAY_MS, connect := true, delays := []), e);
    case TimerFires(e, last) => TimerKeepsInv(s, e, last);
    case Dispatch(revents, err, selfConnect) => DispatchKeepsInv(s, revents, err, selfConnect);
    case CallStop =>
    case RunReset =>
  }

  /** In every run each created socket is held, closed or handed over, exactly one of them and once,
      and after k retries since construction or restart the next delay is min(50 * 2^k, 30000). */
  lemma {:induction false} RunKeepsInv(events: seq<Event>)
    ensures Run(events).Some? ==> Owned(Run(events).value) && BackoffHolds(Run(events).value) && Inv(Run(events).value)
  {
    if events == [] {
      assert Backoff(0) == INIT_RETRY_DELAY_MS;
    } else {
      RunKeepsInv(events[..|events| - 1]);
      var before, ev := Run(events[..|events| - 1]), events[|events| - 1];
      if before.Some? && Legal(before.value, ev) {
        StepKeepsInv(before.value, ev);
      }
    }
  }

  function Pending(s: State): nat {
    s.stale + (if s.armed then 1 else 0)
  }

  lemma DispatchSchedules(s: State, revents: Mask, err: int, selfConnect: bool)
    requires Inv(s) && s.watching && Step(s, Dispatch(revents, err, selfConnect)).Some?
    ensures var t := Step(s, Dispatch(revents, err, selfConnect)).value;
      Pending(t) == Pending(s) + (if t.state.Disconnected? && s.connect then 1 else 0)
  {
    DispatchKeepsInv(s, revents, err, selfConnect);
    HandleErrorKeepsInv(s);
    HandleWriteKeepsInv(s, err, selfConnect);
  }

  lemma StartSchedules(s: State, savedErrno: int)
    requires s.Start(savedErrno).Some?
    ensures Pending(s.Start(savedErrno).value) == Pending(s) + (if Classify(savedErrno).TryAgain? then 1 else 0)
  {
  }

  /** Retry timers are counted: an event adds those it schedules, a timer that goes off is pending no
      more, and a stop takes away the last one. */
  lemma RetriesAreCounted(s: State, ev: Event)
    requires Inv(s) && Legal(s, ev) && Step(s, ev).Some?
    ensures var t := Step(s, ev).value;
      match ev
      case CallStop => Pending(t) == s.stale && !t.connect
      case TimerFires(e, _) => Pending(t) == Pending(s) - 1 + (if s.connect && Classify(e).TryAgain? then 1 else 0)
      case CallStart(e) => Pending(t) == Pending(s) + (if Classify(e).TryAgain? then 1 else 0)
      case CallRestart(e) => Pending(t) == Pending(s) + (if Classify(e).TryAgain? then 1 else 0)
      case Dispatch(_, _, _) => Pending(t) == Pending(s) + (if t.state.Disconnected? && s.connect then 1 else 0)
      case RunReset => Pending(t) == Pending(s) && t.channel == None
  {
    match ev
    case CallStart(e) => StartSchedules(s, e);
    case CallRestart(e) =>
      StartSchedules(s.(state := Disconnected, retryDelayMs := INIT_RETRY_DELAY_MS, connect := true, delays := []), e);
    case TimerFires(e, last) => if s.connect { StartSchedules(s.TimerGone(last), e); }
    case Dispatch(revents, err, selfConnect) => DispatchSchedules(s, revents, err, selfConnect);
    case CallStop =>
    case RunReset =>
  }

  lemma RunLast(events: seq<Event>, ev: Event)
    ensures Run(events + [ev]) ==
      match Run(events)
      case None => None
      case Some(s) => if Legal(s, ev) then Step(s, ev) else Some(s)
  {
    assert (events + [ev])[..|events|] == events;
  }

  /** In every run, the next event fails an assertion exactly in the cases named by Fails. */
  lemma AssertionFailsExactly(events: seq<Event>, ev: Event)
    requires Run(events).Some? && Legal(Run(events).value, ev)
    ensures Run(events + [ev]).None? <==> Fails(Run(events).value, ev)
  {
    RunKeepsInv(events);
    StepKeepsInv(Run(events).value, ev);
    RunLast(events, ev);
  }

  /** One failing case is reached: a start does not cancel the retry that is pending, so its timer
      later finds the connector busy. */
  lemma StartWhileRetryPendsFails(first: int, second: int, third: int)
    requires Classify(first).TryAgain? && Classify(second).Proceed?
    ensures var events := [CallStart(first)] + [CallStart(second)];
      && Run(events).Some? && Legal(Run(events).value, TimerFires(third, true))
      && Run(events + [TimerFires(third, true)]).None?
  {
    assert [] + [CallStart(first)] == [CallStart(first)];
    RunLast([], CallStart(first));
    RunLast([CallStart(first)], CallStart(second));
    AssertionFailsExactly([CallStart(first)] + [CallStart(second)], TimerFires(third, true));
  }

  lemma ErrorThenStop(s: State, err: int)
    requires Inv(s) && s.watching
    ensures var r := Step(s, Dispatch({ERR}, err, false));
      r.Some? && r.value.Stop().resets > 0 && r.value.Stop().state.Disconnected?
  {
    assert Step(s, Dispatch({ERR}, err, false)) == s.HandleError() by { DispatchKeepsInv(s, {ERR}, err, false); }
    HandleErrorKeepsInv(s);
  }

  /** An error event leaves the reset pending, also through a stop. */
  lemma ResetPendsAfterError(events: seq<Event>, err: int)
    requires Run(events).Some? && Run(events).value.watching
    ensures var r := Run(events + [Dispatch({ERR}, err, false)] + [CallStop]);
      r.Some? && r.value.resets > 0 && r.value.state.Disconnected?
  {
    RunKeepsInv(events);
    RunLast(events, Dispatch({ERR}, err, false));
    RunLast(events + [Dispatch({ERR}, err, false)], CallStop);
    ErrorThenStop(Run(events).value, err);
  }

  /** So is the other: an error event closes the socket and queues the reset; if the user
      stops and starts the connector before the loop comes to that functor, and the new connect
      proceeds, the old channel is still there. */
  lemma StopAndStartTooSoonFails(first: int, err: int, second: int)
    requires Classify(first).Proceed? && Classify(second).Proceed?
    ensures var events := [CallStart(first)] + [Dispatch({ERR}, err, false)] + [CallStop];
      Run(events).Some? && Legal(Run(events).value, CallStart(second)) && Run(events + [CallStart(second)]).None?
  {
    assert [] + [CallStart(first)] == [CallStart(first)];
    RunLast([], CallStart(first));
    ResetPendsAfterError([CallStart(first)], err);
    AssertionFailsExactly([CallStart(first)] + [Dispatch({ERR}, err, false)] + [CallStop], CallStart(second));
  }

  lemma RunStep(events: seq<Event>, n: nat)
    requires n < |events|
    ensures Run(events[..n + 1]) ==
      match Run(events[..n])
      case None => None
      case Some(s) => if Legal(s, events[n]) then Step(s, events[n]) else Some(s)
  {
    assert events[..n + 1] == events[..n] + [events[n]];
    RunLast(events[..n], events[n]);
  }

  lemma {:induction false} FailureStays(events: seq<Event>, n: nat)
    requires n <= |events| && Run(events[..n]).None?
    ensures Run(events).None?
    decreases |events| - n
  {
    if n < |events| {
      RunStep(events, n);
      FailureStays(events, n + 1);
    } else {
      assert events[..n] == events;
    }
  }

  // ---------- The class ----------

  /** The connector over its real channel. The other fields stand for the loop (functors and timers
      pending) and the kernel (what has become of the sockets). */
  class Connector {
    var connect: bool
    var state: States
    var channel: Channel?
    var retryDelayMs: nat
    var resets: nat
    var armed: bool
    var stale: nat
    var created: nat
    var closed: seq<nat>
    var handed: seq<nat>
    ghost var delays: seq<nat>

    predicate Watching()
      reads this, channel
    {
      channel != null && channel.events != NONE_EVENT
    }

    function HeldSocket(): Option<nat>
      reads this, channel
    {
      if Watching() then Some(channel.fd) else None
    }

    ghost function View(): State
      reads this, channel
    {
      State(connect, state, if channel == null then None else Some(channel.fd), Watching(),
            resets, armed, stale, retryDelayMs, created, closed, handed, delays)
    }

    /** Every socket has one owner, the next delay is backed off as often as was retried, and channel,
        state, functors and timers agree. */
    ghost predicate Valid()
      reads this, channel
    {
      Inv(View())
    }

    constructor ()
      ensures Valid() && View() == INITIAL && channel == null
    {
      connect, state, channel, resets, armed, stale := false, Disconnected, null, 0, false, 0;
      retryDelayMs, created, closed, handed, delays := INIT_RETRY_DELAY_MS, 0, [], [], [];
      new;
      RunKeepsInv([]);
    }

    method CloseAndSchedule(sockfd: nat)
      modifies this
      ensures channel == old(channel) && View() == old(View()).Retry(sockfd)
    {
      closed := closed + [sockfd];
      state := Disconnected;
      if connect {
        armed, stale := true, if armed then stale + 1 else stale;
        delays := delays + [retryDelayMs];
        retryDelayMs := Min(retryDelayMs * 2, MAX_RETRY_DELAY_MS);
      }
    }

    /** The socket in hand is closed, and the next attempt scheduled if it is still wanted. */
    method Retry(sockfd: nat)
      requires InHand(View(), sockfd)
      modifies this
      ensures Valid() && channel == old(channel) && View() == old(View()).Retry(sockfd)
      ensures state.Disconnected? && closed == old(closed) + [sockfd] && RetryScheduled(old(View()), View(), connect)
    {
      RetrySettles(View(), sockfd);
      CloseAndSchedule(sockfd);
    }

    /** A new channel for the socket, waiting for writability; the old one must be gone. */
    method ConnectingTo(sockfd: nat) returns (ok: bool)
      modifies this
      ensures ok <==> old(channel) == null
      ensures ok ==> fresh(channel) && Watching() && Some(View()) == old(View()).ConnectingTo(sockfd)
    {
      state := Connecting;
      ok := channel == null;
      if ok {
        channel := new Channel(sockfd);
        channel.events := WithWriting(LT, channel.events);
        SwitchesAreIndependent(NONE_EVENT);
        LevelTests(NONE_EVENT);
      }
    }

    /** socket() and connect(), and what the switch makes of the error. */
    method Try(savedErrno: int) returns (ok: bool)
      requires InHand(View().(created := created + 1), created)
      modifies this, channel
      ensures ok <==> old(View()).Connect(savedErrno).Some?
      ensures ok ==> (channel == old(channel) || fresh(channel)) && Some(View()) == old(View()).Connect(savedErrno)
    {
      var sockfd := created;
      created := created + 1;
      ok := true;
      match Classify(savedErrno)
      case Proceed => ok := ConnectingTo(sockfd);
      case TryAgain => Retry(sockfd);
      case GiveUp => closed := closed + [sockfd];
    }

    method Connect(savedErrno: int) returns (ok: bool)
      requires Valid() && state.Disconnected? && connect
      modifies this, channel
      ensures ok <==> !(savedErrno in {0, 115, 4, 106} && old(resets) > 0)
      ensures ok ==> (Watching() <==> savedErrno in {0, 115, 4, 106})
      ensures ok && !old(armed) ==> (armed <==> savedErrno in {11, 98, 99, 111, 101})
      ensures ok ==> Valid() && Attempted(old(View()), View(), savedErrno)
      ensures ok ==> (channel == old(channel) || fresh(channel)) && Some(View()) == old(View()).Connect(savedErrno)
    {
      ghost var s := View();
      assert s.Connect(savedErrno).None? <==> Classify(savedErrno).Proceed? && resets > 0 by { ConnectKeepsInv(s, savedErrno); }
      assert InHand(s.(created := created + 1), created) by { NewSocket(s); }
      ok := Try(savedErrno);
      if ok {
        ConnectKeepsInv(s, savedErrno);
        ConnectAttempts(s, savedErrno);
      }
    }

    /** Nothing happens once the connector is stopped. */
    method StartInLoop(savedErrno: int) returns (ok: bool)
      requires Valid()
      modifies this, channel
      ensures ok <==> old(state).Disconnected? && !(old(connect) && Classify(savedErrno).Proceed? && old(resets) > 0)
      ensures ok ==> Valid() && if old(connect) then Attempted(old(View()), View(), savedErrno) else View() == old(View())
      ensures ok ==> (channel == old(channel) || fresh(channel)) && Some(View()) == old(View()).StartInLoop(savedErrno)
    {
      ok := state == Disconnected;
      if ok && connect {
        ok := Connect(savedErrno);
      }
    }

    method Want()
      modifies this`connect
      ensures View() == old(View()).(connect := true)
    {
      connect := true;
    }

    /** Whether the assertions hold is the result: they fail exactly if the connector is not
        disconnected, or the attempt proceeds before the old channel is reset. The state is then of no
        interest. */
    method Start(savedErrno: int) returns (ok: bool)
      requires Valid()
      modifies this, channel
      ensures ok <==> old(state).Disconnected? && !(Classify(savedErrno).Proceed? && old(resets) > 0)
      ensures ok ==> Valid() && Attempted(old(View()), View(), savedErrno)
      ensures ok ==> (channel == old(channel) || fresh(channel)) && Some(View()) == old(View()).Start(savedErrno)
    {
      FlagsAreFree(View(), View().(connect := true));
      Want();
      ok := StartInLoop(savedErrno);
    }

    method DropTimer(last: bool)
      requires if last then armed else stale > 0
      modifies this`armed, this`stale
      ensures View() == old(View()).TimerGone(last)
    {
      if last {
        armed := false;
      } else {
        stale := stale - 1;
      }
    }

    /** A retry timer goes off, the last one or an earlier one: it makes the next attempt if that is
        still wanted, and fails if the connector is busy. */
    method FireTimer(savedErrno: int, last: bool) returns (ok: bool)
      requires Valid() && (if last then armed else stale > 0)
      modifies this, channel
      ensures ok <==> old(state).Disconnected? && !(old(connect) && Classify(savedErrno).Proceed? && old(resets) > 0)
      ensures ok ==> Valid() && if old(connect) then Attempted(old(View()).TimerGone(last), View(), savedErrno)
                               else View() == old(View()).TimerGone(last)
      ensures ok ==> (channel == old(channel) || fresh(channel)) && Some(View()) == Step(old(View()), TimerFires(savedErrno, last))
    {
      FlagsAreFree(View(), View().TimerGone(last));
      DropTimer(last);
      ok := StartInLoop(savedErrno);
    }

    method Reset()
      modifies this`state, this`retryDelayMs, this`connect, this`delays
      ensures View() == old(View()).(state := Disconnected, retryDelayMs := INIT_RETRY_DELAY_MS, connect := true, delays := [])
    {
      state, retryDelayMs, connect, delays := Disconnected, INIT_RETRY_DELAY_MS, true, [];
    }

    /** From scratch, with the first delay; usually after a connection. */
    method Restart(savedErrno: int) returns (ok: bool)
      requires Valid() && !state.Connecting?
      modifies this, channel
      ensures ok <==> !(Classify(savedErrno).Proceed? && old(resets) > 0)
      ensures ok ==> Valid() && Attempted(old(View()).(delays := []), View(), savedErrno)
      ensures ok ==> (channel == old(channel) || fresh(channel)) && Some(View()) == old(View()).Restart(savedErrno)
    {
      RestartKeepsInv(View());
      Reset();
      ok := StartInLoop(savedErrno);
    }

    /** The last retry is cancelled, and whatever still comes is neither retried nor handed over. */
    method Stop()
      requires Valid()
      modifies this
      ensures Valid() && View() == old(View()).Stop()
      ensures !connect && !armed && stale == old(stale) && channel == old(channel)
    {
      connect, armed := false, false;
    }

    /** The channel lets go of its socket, which its caller now has in hand. */
    method RemoveAndResetChannel() returns (sockfd: nat)
      requires Valid() && Watching()
      modifies this, channel
      ensures channel == old(channel) && sockfd == channel.fd && InHand(View(), sockfd)
      ensures View() == old(View()).RemoveAndResetChannel()
    {
      LettingGo(View());
      channel.events := NONE_EVENT;
      sockfd := channel.fd;
      resets := resets + 1;
    }

    method ResetChannel()
      requires Valid() && resets > 0
      modifies this
      ensures Valid() && channel == null && resets == 0
      ensures View() == old(View()).(channel := None, resets := 0)
    {
      channel := null;
      resets := resets - 1;
    }

    method Succeed(sockfd: nat)
      modifies this
      ensures channel == old(channel) && View() == old(View()).Succeed(sockfd)
    {
      state := Connected;
      if connect {
        handed := handed + [sockfd];
      } else {
        closed := closed + [sockfd];
      }
    }

    /** The result is the assertion: a write event never comes once connected. */
    method HandleWrite(err: int, selfConnect: bool) returns (ok: bool)
      requires Valid()
      modifies this, channel
      ensures ok <==> !old(state).Connected?
      ensures ok ==> Valid() && channel == old(channel) && Some(View()) == old(View()).HandleWrite(err, selfConnect)
      ensures ok ==>
        if old(state).Disconnected? then View() == old(View())
        else if err == 0 && !selfConnect then Succeeded(old(View()), View())
        else Failed(old(View()), View())
    {
      if state == Connecting {
        ok := true;
        ghost var s := View();
        var sockfd := RemoveAndResetChannel();
        if err != 0 {
          Retry(sockfd);
        } else if selfConnect {
          Retry(sockfd);
        } else {
          Succeed(sockfd);
        }
        HandleWriteKeepsInv(s, err, selfConnect);
      } else {
        ok := state == Disconnected;
      }
    }

    /** The result is the assertion: an error event comes only while connecting. */
    method HandleError() returns (ok: bool)
      requires Valid()
      modifies this, channel
      ensures ok <==> old(state).Connecting?
      ensures ok ==> Valid() && channel == old(channel) && Some(View()) == old(View()).HandleError()
      ensures ok ==> Failed(old(View()), View())
    {
      ok := state == Connecting;
      if ok {
        HandleErrorKeepsInv(View());
        var sockfd := RemoveAndResetChannel();
        Retry(sockfd);
      }
    }

    method RunCallback(cb: Callback, err: int, selfConnect: bool)
      requires Valid()
      requires if cb.ErrorCallback? then View().HandleError().Some? else View().HandleWrite(err, selfConnect).Some?
      modifies this, channel
      ensures Valid() && channel == old(channel)
      ensures Some(View()) == old(if cb.ErrorCallback? then View().HandleError() else View().HandleWrite(err, selfConnect))
    {
      var ok;
      if cb.ErrorCallback? {
        ok := HandleError();
      } else {
        ok := HandleWrite(err, selfConnect);
      }
    }

    method RunCalls(calls: seq<Callback>, err: int, selfConnect: bool)
      requires Valid() && RunCallbacks(View(), calls, err, selfConnect).Some?
      modifies this, channel
      ensures Valid() && channel == old(channel)
      ensures Some(View()) == RunCallbacks(old(View()), calls, err, selfConnect)
    {
      ghost var target := RunCallbacks(View(), calls, err, selfConnect);
      for k := 0 to |calls|
        invariant Valid() && channel == old(channel)
        invariant RunCallbacks(View(), calls[k..], err, selfConnect) == target
      {
        assert calls[k..][1..] == calls[k + 1..];
        RunCallback(calls[k], err, selfConnect);
      }
    }

    /** The poller's report: the real channel picks the callbacks, and none of them fails. */
    method HandleEvent(revents: Mask, err: int, selfConnect: bool)
      requires Valid() && Watching()
      modifies this, channel
      ensures Valid() && channel == old(channel)
      ensures Some(View()) == Step(old(View()), Dispatch(revents, err, selfConnect))
    {
      assert Step(View(), Dispatch(revents, err, selfConnect)).Some? by { DispatchKeepsInv(View(), revents, err, selfConnect); }
      channel.revents := revents;
      var calls := channel.HandleEvent(INSTALLED);
      assert View() == old(View());
      RunCalls(calls, err, selfConnect);
    }

    /** One event, if it is legal. */
    method Happen(ev: Event) returns (ok: bool)
      requires Valid()
      modifies this, channel
      ensures var s := old(View());
        if !Legal(s, ev) then ok && View() == s
        else (ok <==> Step(s, ev).Some?) && (ok ==> Some(View()) == Step(s, ev))
      ensures ok ==> Valid() && (channel == old(channel) || channel == null || fresh(channel))
    {
      ok := true;
      match ev {
        case CallStart(e) => ok := Start(e);
        case CallRestart(e) =>
          if state != Connecting { ok := Restart(e); }
        case CallStop => Stop();
        case TimerFires(e, last) =>
          if (last && armed) || (!last && stale > 0) { ok := FireTimer(e, last); }
        case Dispatch(revents, err, selfConnect) =>
          if Watching() { HandleEvent(revents, err, selfConnect); }
        case RunReset =>
          if resets > 0 { ResetChannel(); }
      }
    }
  }

  /** The real connector through any sequence of calls, timers, dispatches and functors: it fails an
      assertion exactly where the run does, and otherwise every socket it created has been closed
      once, handed over once, or is held by the channel, and no two of these. */
  method RunConnector(events: seq<Event>) returns (ok: bool, created: nat, closed: seq<nat>, handed: seq<nat>, held: Option<nat>)
    ensures ok <==> Run(events).Some?
    ensures ok ==>
      var s := Run(events).value;
      && created == s.created && closed == s.closed && handed == s.handed && held == (if s.watching then s.channel else None)
      && forall i: nat :: multiset(closed)[i] + multiset(handed)[i] + (if held == Some(i) then 1 else 0) ==
                          if i < created then 1 else 0
  {
    var c := new Connector();
    ok := true;
    for n := 0 to |events|
      invariant fresh(c) && (c.channel == null || fresh(c.channel))
      invariant ok && c.Valid() && Run(events[..n]) == Some(c.View())
    {
      RunStep(events, n);
      ok := c.Happen(events[n]);
      assert ok ==> Run(events[..n + 1]) == Some(c.View());
      if !ok {
        FailureStays(events, n + 1);
        return false, 0, [], [], None;
      }
    }
    assert events[..|events|] == events;
    created, closed, handed, held := c.created, c.closed, c.handed, c.HeldSocket();
    SocketsOnce(c.View(), held);
  }
}
