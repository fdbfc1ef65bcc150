/** The life of connections shared between the server's base loop and the I/O loops
    (twnl/TcpServer.cc, twnl/TcpConnection.cc). Each step is one functor or one event callback, run
    by the loop thread that owns the data it touches; the steps of different loops interleave freely. */
module TcpServers {
  import opened Basics
  import Log = LogStream
  import Buf = Buffers
  import opened Channels
  import opened TcpConnections

  type LoopId = nat

  const BASE_LOOP: LoopId := 0

  /** A functor in some loop's queue, about connection c. */
  datatype Task = DoEstablish(c: nat) | DoForceClose(c: nat) | DoRemove(c: nat) | DoDestroy(c: nat)

  datatype Life = Established | Closed | Erased | Destroyed

  const WHOLE_LIFE := [Established, Closed, Erased, Destroyed]

  /** What one operation adds to the connection's history. */
  function Happened(k: Conn, k': Conn): seq<Life> {
    (if k'.ups > k.ups then [Established] else [])
    + (if k'.closes > k.closes then [Closed] else [])
    + (if k'.removals > k.removals then [Destroyed] else [])
  }

  /** What has to come next: the removal after a close, the queued close after forceClose. */
  function NextHand(c: nat, k: Conn, k': Conn, ev: ConnEvent): Option<Task> {
    if k'.closes > k.closes then Some(DoRemove(c))
    else if ev.CallForceClose? && k'.Open() then Some(DoForceClose(c))
    else None
  }

  datatype Server = Server(
    name: string,
    cfg: Config,
    conns: seq<Conn>,                   // every accepted connection, in order
    io: seq<LoopId>,                    // and its I/O loop
    connections: map<string, nat>,      // connections_
    queues: map<LoopId, seq<Task>>,
    lives: seq<seq<Life>>,              // what has happened to each connection, in order
    erased: seq<nat>)                   // results of map erase
  {
    function Queue(l: LoopId): seq<Task> {
      if l in queues then queues[l] else []
    }

    function Push(l: LoopId, t: Task): Server {
      this.(queues := queues[l := Queue(l) + [t]])
    }

    function Pop(l: LoopId): Server
      requires Queue(l) != []
    {
      this.(queues := queues[l := Queue(l)[1..]])
    }

    function Count(l: LoopId, t: Task): nat {
      multiset(Queue(l))[t]
    }

    /** The generated name. The address part is empty, because ipPort_ is never set. */
    function ConnName(c: nat): string {
      name + ("-" + "" + "#" + Log.Printed(c + 1))
    }

    predicate Sized() {
      |conns| == |io| == |lives|
    }

    /** A new connection under its generated name, before it is established. */
    function Accepted(l: LoopId): Server {
      this.(conns := conns + [FRESH], io := io + [l], lives := lives + [[]],
            connections := connections[ConnName(|conns|) := |conns|])
    }

    /** newConnection: runInLoop is a direct call when the I/O loop is the base loop. */
    function NewConnection(l: LoopId): Option<Server>
      requires Sized()
    {
      if l == BASE_LOOP then Accepted(l).OnConnection(|conns|, Establish)
      else Some(Accepted(l).Push(l, DoEstablish(|conns|)))
    }

    function Updated(c: nat, k: Conn): Server
      requires Sized() && c < |conns|
    {
      this.(conns := conns[c := k], lives := lives[c := lives[c] + Happened(conns[c], k)])
    }

    /** Runs one operation of connection c on its loop, with the callbacks into the server. */
    function OnConnection(c: nat, ev: ConnEvent): Option<Server>
      requires Sized() && c < |conns|
    {
      match Step(conns[c], ev, cfg)
      case AssertionFails => None
      case Next(k) => Some(Updated(c, k).PassOn(c, NextHand(c, conns[c], k, ev)))
    }

    function RemoveConnectionInLoop(c: nat): Server
      requires Sized() && c < |conns|
    {
      var n := if ConnName(c) in connections then 1 else 0;
      this.(connections := connections - {ConnName(c)}, erased := erased + [n],
            lives := lives[c := lives[c] + [Erased]]).Push(io[c], DoDestroy(c))
    }

    function RemoveConnection(c: nat): Server
      requires Sized() && c < |conns|
    {
      if io[c] == BASE_LOOP then RemoveConnectionInLoop(c) else Push(BASE_LOOP, DoRemove(c))
    }

    /** The close callback runs at once; a forced close is queued. */
    function PassOn(c: nat, hand: Option<Task>): Server
      requires Sized() && c < |conns|
    {
      match hand
      case None => this
      case Some(DoRemove(_)) => RemoveConnection(c)
      case Some(t) => Push(io[c], t)
    }

    /** The next functor of loop l. */
    function RunTask(l: LoopId): Option<Server>
      requires Sized() && Queue(l) != [] && Queue(l)[0].c < |conns|
    {
      var s := Pop(l);
      match Queue(l)[0]
      case DoEstablish(c) => s.OnConnection(c, Establish)
      case DoForceClose(c) => s.OnConnection(c, RunForceClose)
      case DoRemove(c) => Some(s.RemoveConnectionInLoop(c))
      case DoDestroy(c) => s.OnConnection(c, Destroy)
    }
  }

  // ---------- Names ----------

  /** Different connections get different names. */
  lemma NamesDiffer(s: Server, c: nat, d: nat)
    requires s.ConnName(c) == s.ConnName(d)
    ensures c == d
  {
    var n := |s.name|;
    var x, y := Log.Printed(c + 1), Log.Printed(d + 1);
    assert s.ConnName(c)[n..] == "-" + "" + "#" + x;
    assert s.ConnName(d)[n..] == "-" + "" + "#" + y;
    assert ("-" + "" + "#" + x)[2..] == x && ("-" + "" + "#" + y)[2..] == y;
    Log.PrintParse(c + 1);
  }

  // ---------- Runs ----------

  datatype ServerEvent = Accept(l: LoopId) | RunNext(l: LoopId) | OnLoop(c: nat, ev: ConnEvent)

  /** Establish, destroy and the queued close come only as functors. */
  predicate Possible(s: Server, e: ServerEvent) {
    match e
    case Accept(_) => true
    case RunNext(l) => s.Queue(l) != []
    case OnLoop(c, ev) =>
      c < |s.conns| && !ev.Establish? && !ev.Destroy? && !ev.RunForceClose? && TcpConnections.Legal(s.conns[c], ev)
  }

  // ---------- Invariant ----------

  /** How far connection k has come, with r removals still queued. */
  function Stage(k: Conn, r: nat): int {
    k.ups + k.closes + (k.closes - r) + k.removals
  }

  /** Connection k, with e, r, d, f functors of each kind under way, present in the map or not. A close
      is matched by exactly one of a removal under way, a destruction under way, and a completed one;
      a forced close not yet done is under way; and the history is a prefix of one whole life. */
  predicate TrackedBy(k: Conn, e: nat, r: nat, d: nat, f: nat, mapped: bool, life: seq<Life>) {
    && Inv(k)
    && e == (if k.state.Connecting? then 1 else 0)
    && r + d + k.removals == k.closes
    && (f > 0 ==> k.forced)
    && (k.forced && !k.state.Disconnected? ==> f > 0)
    && (mapped <==> k.closes == 0 || r == 1)
    && 0 <= Stage(k, r) <= 4 && life == WHOLE_LIFE[..Stage(k, r)]
  }

  /** The loop that may run a task. */
  function Home(s: Server, t: Task): LoopId
    requires s.Sized() && t.c < |s.conns|
  {
    if t.DoRemove? then BASE_LOOP else s.io[t.c]
  }

  /** A task in its home queue, or in hand: taken out and being run, or about to be pushed. */
  function UnderWay(s: Server, t: Task, hand: Option<Task>): nat
    requires s.Sized() && t.c < |s.conns|
  {
    s.Count(Home(s, t), t) + (if hand == Some(t) then 1 else 0)
  }

  predicate Tracked(s: Server, c: nat, hand: Option<Task>)
    requires s.Sized() && c < |s.conns|
  {
    && TrackedBy(s.conns[c], UnderWay(s, DoEstablish(c), hand), UnderWay(s, DoRemove(c), hand),
                 UnderWay(s, DoDestroy(c), hand), UnderWay(s, DoForceClose(c), hand),
                 s.ConnName(c) in s.connections, s.lives[c])
  }

  predicate TasksAtHome(s: Server)
    requires s.Sized()
  {
    forall l, t :: l in s.queues && t in s.queues[l] ==> t.c < |s.conns| && Home(s, t) == l
  }

  predicate MapIsNamed(s: Server) {
    forall x :: x in s.connections ==> s.connections[x] < |s.conns| && s.ConnName(s.connections[x]) == x
  }

  predicate ServerInv(s: Server, hand: Option<Task>) {
    && s.Sized() && TasksAtHome(s) && MapIsNamed(s)
    && (hand.Some? ==> hand.value.c < |s.conns|)
    && (forall c :: 0 <= c < |s.conns| ==> Tracked(s, c, hand))
    && (forall i :: 0 <= i < |s.erased| ==> s.erased[i] == 1)
  }

  // ---------- Queues ----------

  lemma CountAfterPush(s: Server, l: LoopId, t: Task, m: LoopId, u: Task)
    ensures s.Push(l, t).Count(m, u) == s.Count(m, u) + (if l == m && t == u then 1 else 0)
  {
    if l == m {
      assert multiset(s.Queue(l) + [t]) == multiset(s.Queue(l)) + multiset{t};
    }
  }

  lemma CountAfterPop(s: Server, l: LoopId, m: LoopId, u: Task)
    requires s.Queue(l) != []
    ensures s.Pop(l).Count(m, u) + (if l == m && s.Queue(l)[0] == u then 1 else 0) == s.Count(m, u)
  {
    if l == m {
      assert s.Queue(l) == [s.Queue(l)[0]] + s.Queue(l)[1..];
      assert multiset(s.Queue(l)) == multiset{s.Queue(l)[0]} + multiset(s.Queue(l)[1..]);
    }
  }

  lemma PushSettles(s: Server, t: Task, u: Task)
    requires s.Sized() && t.c < |s.conns| && u.c < |s.conns|
    ensures UnderWay(s.Push(Home(s, t), t), u, None) == UnderWay(s, u, Some(t))
  {
    CountAfterPush(s, Home(s, t), t, Home(s, u), u);
  }

  lemma PushStaysHome(s: Server, t: Task)
    requires s.Sized() && TasksAtHome(s) && t.c < |s.conns|
    ensures TasksAtHome(s.Push(Home(s, t), t))
  {
    var s' := s.Push(Home(s, t), t);
    forall l, u | l in s'.queues && u in s'.queues[l]
      ensures u.c < |s.conns| && Home(s', u) == l
    {
      if l == Home(s, t) { assert u in s.Queue(l) || u == t; }
    }
  }

  /** Pushing a task in hand to its home queue: nothing changes in what is under way. */
  lemma PushHand(s: Server, t: Task)
    requires ServerInv(s, Some(t))
    ensures ServerInv(s.Push(Home(s, t), t), None)
  {
    var s' := s.Push(Home(s, t), t);
    forall c | 0 <= c < |s.conns|
      ensures Tracked(s', c, None)
    {
      assert Tracked(s, c, Some(t));
      PushSettles(s, t, DoEstablish(c));
      PushSettles(s, t, DoRemove(c));
      PushSettles(s, t, DoDestroy(c));
      PushSettles(s, t, DoForceClose(c));
    }
    PushStaysHome(s, t);
  }

  lemma PopSettles(s: Server, l: LoopId, u: Task)
    requires s.Sized() && s.Queue(l) != [] && s.Queue(l)[0].c < |s.conns| && u.c < |s.conns|
    requires Home(s, s.Queue(l)[0]) == l
    ensures UnderWay(s.Pop(l), u, Some(s.Queue(l)[0])) == UnderWay(s, u, None)
  {
    CountAfterPop(s, l, Home(s, u), u);
  }

  lemma PopStaysHome(s: Server, l: LoopId)
    requires s.Sized() && TasksAtHome(s) && s.Queue(l) != []
    ensures s.Queue(l)[0].c < |s.conns| && Home(s, s.Queue(l)[0]) == l
    ensures TasksAtHome(s.Pop(l))
  {
    var s' := s.Pop(l);
    assert s.Queue(l)[0] in s.queues[l];
    forall m, u | m in s'.queues && u in s'.queues[m]
      ensures u.c < |s.conns| && Home(s', u) == m
    {
      if m == l { assert u in s.queues[l]; }
    }
  }

  /** Taking the next task of a queue in hand. */
  lemma PopHand(s: Server, l: LoopId)
    requires ServerInv(s, None) && s.Queue(l) != []
    ensures s.Queue(l)[0].c < |s.conns| && Home(s, s.Queue(l)[0]) == l
    ensures ServerInv(s.Pop(l), Some(s.Queue(l)[0]))
  {
    PopStaysHome(s, l);
    var t, s' := s.Queue(l)[0], s.Pop(l);
    forall c | 0 <= c < |s.conns|
      ensures Tracked(s', c, Some(t))
    {
      assert Tracked(s, c, None);
      PopSettles(s, l, DoEstablish(c));
      PopSettles(s, l, DoRemove(c));
      PopSettles(s, l, DoDestroy(c));
      PopSettles(s, l, DoForceClose(c));
    }
  }

  // ---------- One connection ----------

  lemma StepCounts(k: Conn, ev: ConnEvent, cfg: Config)
    requires Inv(k) && TcpConnections.Legal(k, ev) && Step(k, ev, cfg).Next?
    ensures var k' := Step(k, ev, cfg).c;
      && k'.ups == k.ups + (if ev.Establish? then 1 else 0)
      && k'.removals == k.removals + (if ev.Destroy? then 1 else 0)
      && (k'.state.Connecting? <==> k.state.Connecting? && !ev.Establish?)
      && (k.state.Disconnected? ==> k'.state.Disconnected?)
      && (k'.closes == k.closes
          || (k'.closes == k.closes + 1 && k.closes == 0 && k.ups == 1 && !ev.Establish? && !ev.Destroy? && !ev.CallForceClose?))
  {
    if ev.CallSend? || ev.Writable? {
      OutputKeepsLife(k, ev, cfg);
    }
  }

  lemma StepForces(k: Conn, ev: ConnEvent, cfg: Config)
    requires Inv(k) && TcpConnections.Legal(k, ev) && Step(k, ev, cfg).Next?
    ensures var k' := Step(k, ev, cfg).c;
      && (k.forced ==> k'.forced)
      && (k'.forced && !k.forced ==> ev.CallForceClose?)
      && (ev.RunForceClose? ==> k'.state.Disconnected?)
      && (ev.CallForceClose? && k'.Open() ==> k'.forced)
  {
    if ev.CallSend? || ev.Writable? {
      OutputKeepsLife(k, ev, cfg);
    }
  }

  /** What one operation can do to the life of a connection. */
  predicate Advances(k: Conn, k': Conn, ev: ConnEvent) {
    && Inv(k')
    && k'.ups == k.ups + (if ev.Establish? then 1 else 0)
    && k'.removals == k.removals + (if ev.Destroy? then 1 else 0)
    && (k'.state.Connecting? <==> k.state.Connecting? && !ev.Establish?)
    && (k.forced ==> k'.forced)
    && (k'.forced && !k.forced ==> ev.CallForceClose?)
    && (ev.RunForceClose? ==> k'.state.Disconnected?)
    && (k.state.Disconnected? ==> k'.state.Disconnected?)
    && (k'.closes == k.closes
        || (k'.closes == k.closes + 1 && k.closes == 0 && k.ups == 1 && !ev.Establish? && !ev.Destroy? && !ev.CallForceClose?))
    && (ev.CallForceClose? && k'.Open() ==> k'.forced)
  }

  lemma StepLife(k: Conn, ev: ConnEvent, cfg: Config)
    requires Inv(k) && TcpConnections.Legal(k, ev)
    ensures Step(k, ev, cfg).Next? && Advances(k, Step(k, ev, cfg).c, ev)
  {
    StepKeepsInv(k, ev, cfg);
    StepCounts(k, ev, cfg);
    StepForces(k, ev, cfg);
  }

  lemma SameUnderWay(s: Server, s': Server, d: nat, hand: Option<Task>)
    requires s.Sized() && s'.Sized() && d < |s.conns| && d < |s'.conns|
    requires s'.queues == s.queues && s'.io[d] == s.io[d]
    ensures UnderWay(s', DoEstablish(d), hand) == UnderWay(s, DoEstablish(d), hand)
    ensures UnderWay(s', DoRemove(d), hand) == UnderWay(s, DoRemove(d), hand)
    ensures UnderWay(s', DoDestroy(d), hand) == UnderWay(s, DoDestroy(d), hand)
    ensures UnderWay(s', DoForceClose(d), hand) == UnderWay(s, DoForceClose(d), hand)
  {
    assert forall l :: s'.Queue(l) == s.Queue(l);
  }

  /** A connection that a step is not about stays as it was. */
  lemma OthersStayTracked(s: Server, s': Server, d: nat, hand: Option<Task>, hand': Option<Task>)
    requires s.Sized() && s'.Sized() && d < |s.conns| && d < |s'.conns|
    requires Tracked(s, d, hand)
    requires s'.queues == s.queues && s'.name == s.name
    requires s'.conns[d] == s.conns[d] && s'.io[d] == s.io[d] && s'.lives[d] == s.lives[d]
    requires s.ConnName(d) in s'.connections <==> s.ConnName(d) in s.connections
    requires hand.Some? ==> hand.value.c != d
    requires hand'.Some? ==> hand'.value.c != d
    ensures Tracked(s', d, hand')
  {
    SameUnderWay(s, s', d, None);
  }

  /** Queued tasks stay at home when no queue changes and connections are only added. */
  lemma TasksStayHome(s: Server, s': Server)
    requires s.Sized() && s'.Sized() && TasksAtHome(s)
    requires s'.queues == s.queues && s.io <= s'.io
    ensures TasksAtHome(s')
  {
    forall l, t | l in s'.queues && t in s'.queues[l]
      ensures t.c < |s'.conns| && Home(s', t) == l
    {
      assert t.c < |s.conns| && Home(s, t) == l;
    }
  }

  lemma ReplacedIsTracked(s: Server, c: nat, k: Conn, life: seq<Life>, hand: Option<Task>, hand': Option<Task>, d: nat)
    requires s.Sized() && c < |s.conns| && d < |s.conns| && Tracked(s, d, hand)
    requires hand.Some? ==> hand.value.c == c
    requires hand'.Some? ==> hand'.value.c == c
    requires TrackedBy(k, UnderWay(s, DoEstablish(c), hand'), UnderWay(s, DoRemove(c), hand'),
                       UnderWay(s, DoDestroy(c), hand'), UnderWay(s, DoForceClose(c), hand'),
                       s.ConnName(c) in s.connections, life)
    ensures Tracked(s.(conns := s.conns[c := k], lives := s.lives[c := life]), d, hand')
  {
    var s' := s.(conns := s.conns[c := k], lives := s.lives[c := life]);
    if d != c {
      OthersStayTracked(s, s', d, hand, hand');
    } else {
      SameUnderWay(s, s', c, hand');
    }
  }

  /** Connection c is updated and the task in hand replaced by another one of c. */
  lemma ReplaceHand(s: Server, c: nat, k: Conn, life: seq<Life>, hand: Option<Task>, hand': Option<Task>)
    requires ServerInv(s, hand) && c < |s.conns|
    requires hand.Some? ==> hand.value.c == c
    requires hand'.Some? ==> hand'.value.c == c
    requires TrackedBy(k, UnderWay(s, DoEstablish(c), hand'), UnderWay(s, DoRemove(c), hand'),
                       UnderWay(s, DoDestroy(c), hand'), UnderWay(s, DoForceClose(c), hand'),
                       s.ConnName(c) in s.connections, life)
    ensures ServerInv(s.(conns := s.conns[c := k], lives := s.lives[c := life]), hand')
  {
    var s' := s.(conns := s.conns[c := k], lives := s.lives[c := life]);
    forall d | 0 <= d < |s.conns|
      ensures Tracked(s', d, hand')
    {
      ReplacedIsTracked(s, c, k, life, hand, hand', d);
    }
    TasksStayHome(s, s');
  }

  /** The functor that brought the event about, if any. */
  predicate Brings(hand: Option<Task>, c: nat, ev: ConnEvent) {
    match ev
    case Establish => hand == Some(DoEstablish(c))
    case RunForceClose => hand == Some(DoForceClose(c))
    case Destroy => hand == Some(DoDestroy(c))
    case _ => hand == None
  }

  /** A functor in hand is legal for its connection. */
  lemma HandIsLegal(s: Server, c: nat, ev: ConnEvent, hand: Option<Task>)
    requires ServerInv(s, hand) && c < |s.conns| && Brings(hand, c, ev)
    requires hand == None ==> TcpConnections.Legal(s.conns[c], ev)
    ensures TcpConnections.Legal(s.conns[c], ev)
  {
    assert Tracked(s, c, hand);
  }

  lemma UpdateKeepsTracking(k: Conn, k': Conn, ev: ConnEvent,
                            e: nat, r: nat, d: nat, f: nat, mapped: bool, life: seq<Life>)
    requires TrackedBy(k, e, r, d, f, mapped, life) && TcpConnections.Legal(k, ev) && Advances(k, k', ev)
    requires (ev.Establish? ==> e > 0) && (ev.Destroy? ==> d > 0) && (ev.RunForceClose? ==> f > 0)
    ensures TrackedBy(k', e - (if ev.Establish? then 1 else 0), r + (if k'.closes > k.closes then 1 else 0),
                      d - (if ev.Destroy? then 1 else 0),
                      f + (if ev.CallForceClose? && k'.Open() then 1 else 0) - (if ev.RunForceClose? then 1 else 0),
                      mapped, life + Happened(k, k'))
  {
    assert ev.Establish? ==> k.state.Connecting? && k.closes == 0;
  }

  /** How the counts of what is under way change when one task in hand gives way to the next. */
  lemma NextUnderWay(s: Server, c: nat, ev: ConnEvent, hand: Option<Task>, k: Conn, k': Conn)
    requires s.Sized() && c < |s.conns| && Brings(hand, c, ev)
    requires k'.closes > k.closes ==> !ev.CallForceClose?
    ensures var hand' := NextHand(c, k, k', ev);
      && UnderWay(s, DoEstablish(c), hand') == UnderWay(s, DoEstablish(c), hand) - (if ev.Establish? then 1 else 0)
      && UnderWay(s, DoRemove(c), hand') == UnderWay(s, DoRemove(c), hand) + (if k'.closes > k.closes then 1 else 0)
      && UnderWay(s, DoDestroy(c), hand') == UnderWay(s, DoDestroy(c), hand) - (if ev.Destroy? then 1 else 0)
      && UnderWay(s, DoForceClose(c), hand') == UnderWay(s, DoForceClose(c), hand)
         + (if ev.CallForceClose? && k'.Open() then 1 else 0) - (if ev.RunForceClose? then 1 else 0)
  {
  }

  lemma UpdateIsTracked(s: Server, c: nat, ev: ConnEvent, hand: Option<Task>, k': Conn)
    requires s.Sized() && c < |s.conns| && Tracked(s, c, hand) && Brings(hand, c, ev)
    requires TcpConnections.Legal(s.conns[c], ev) && Advances(s.conns[c], k', ev)
    ensures var k := s.conns[c];
      var hand' := NextHand(c, k, k', ev);
      TrackedBy(k', UnderWay(s, DoEstablish(c), hand'), UnderWay(s, DoRemove(c), hand'),
                UnderWay(s, DoDestroy(c), hand'), UnderWay(s, DoForceClose(c), hand'),
                s.ConnName(c) in s.connections, s.lives[c] + Happened(k, k'))
  {
    var k := s.conns[c];
    NextUnderWay(s, c, ev, hand, k, k');
    UpdateKeepsTracking(k, k', ev, UnderWay(s, DoEstablish(c), hand), UnderWay(s, DoRemove(c), hand),
                        UnderWay(s, DoDestroy(c), hand), UnderWay(s, DoForceClose(c), hand),
                        s.ConnName(c) in s.connections, s.lives[c]);
  }

  function ErasedFrom(s: Server, c: nat): Server
    requires s.Sized() && c < |s.conns|
  {
    s.(connections := s.connections - {s.ConnName(c)}, erased := s.erased + [1],
       lives := s.lives[c := s.lives[c] + [Erased]])
  }

  /** The entry is there to be erased, and the connection moves on from removal to destruction. */
  lemma ErasedIsTracked(s: Server, c: nat)
    requires c < |s.conns| && ServerInv(s, Some(DoRemove(c)))
    ensures s.ConnName(c) in s.connections
    ensures Tracked(ErasedFrom(s, c), c, Some(DoDestroy(c)))
  {
    var s', hand, hand' := ErasedFrom(s, c), Some(DoRemove(c)), Some(DoDestroy(c));
    assert Tracked(s, c, hand);
    assert UnderWay(s', DoEstablish(c), hand') == UnderWay(s, DoEstablish(c), hand);
    assert UnderWay(s', DoRemove(c), hand') == UnderWay(s, DoRemove(c), hand) - 1;
    assert UnderWay(s', DoDestroy(c), hand') == UnderWay(s, DoDestroy(c), hand) + 1;
    assert UnderWay(s', DoForceClose(c), hand') == UnderWay(s, DoForceClose(c), hand);
  }

  /** The erase removes exactly the connection's own entry. */
  lemma RemoveInLoopKeepsInv(s: Server, c: nat)
    requires c < |s.conns| && ServerInv(s, Some(DoRemove(c)))
    ensures ServerInv(s.RemoveConnectionInLoop(c), None)
  {
    var s', hand, hand' := ErasedFrom(s, c), Some(DoRemove(c)), Some(DoDestroy(c));
    ErasedIsTracked(s, c);
    forall d | 0 <= d < |s.conns|
      ensures Tracked(s', d, hand')
    {
      if d != c {
        assert s.ConnName(d) != s.ConnName(c) by {
          if s.ConnName(d) == s.ConnName(c) { NamesDiffer(s, c, d); }
        }
        OthersStayTracked(s, s', d, hand, hand');
      }
    }
    TasksStayHome(s, s');
    PushHand(s', DoDestroy(c));
    assert s.RemoveConnectionInLoop(c) == s'.Push(s.io[c], DoDestroy(c));
  }

  lemma RemoveConnectionKeepsInv(s: Server, c: nat)
    requires c < |s.conns| && ServerInv(s, Some(DoRemove(c)))
    ensures ServerInv(s.RemoveConnection(c), None)
  {
    if s.io[c] == BASE_LOOP {
      RemoveInLoopKeepsInv(s, c);
    } else {
      PushHand(s, DoRemove(c));
    }
  }

  /** Queueing, or running, what has to come next. */
  lemma HandIsPassedOn(s: Server, c: nat, hand: Option<Task>)
    requires ServerInv(s, hand) && c < |s.conns|
    requires hand == None || hand == Some(DoRemove(c)) || hand == Some(DoForceClose(c))
    ensures ServerInv(s.PassOn(c, hand), None)
  {
    if hand == Some(DoRemove(c)) {
      RemoveConnectionKeepsInv(s, c);
    } else if hand.Some? {
      PushHand(s, hand.value);
    }
  }

  lemma UpdatedKeepsInv(s: Server, c: nat, ev: ConnEvent, hand: Option<Task>)
    requires ServerInv(s, hand) && c < |s.conns| && Brings(hand, c, ev)
    requires TcpConnections.Legal(s.conns[c], ev) && Step(s.conns[c], ev, s.cfg).Next?
    ensures var k' := Step(s.conns[c], ev, s.cfg).c;
      ServerInv(s.Updated(c, k'), NextHand(c, s.conns[c], k', ev))
  {
    var k, k' := s.conns[c], Step(s.conns[c], ev, s.cfg).c;
    assert Tracked(s, c, hand);
    StepLife(k, ev, s.cfg);
    UpdateIsTracked(s, c, ev, hand, k');
    ReplaceHand(s, c, k', s.lives[c] + Happened(k, k'), hand, NextHand(c, k, k', ev));
  }

  lemma OnConnectionKeepsInv(s: Server, c: nat, ev: ConnEvent, hand: Option<Task>)
    requires ServerInv(s, hand) && c < |s.conns| && Brings(hand, c, ev)
    requires hand == None ==> TcpConnections.Legal(s.conns[c], ev)
    ensures s.OnConnection(c, ev).Some? && ServerInv(s.OnConnection(c, ev).value, None)
  {
    HandIsLegal(s, c, ev, hand);
    assert Tracked(s, c, hand);
    StepKeepsInv(s.conns[c], ev, s.cfg);
    var k' := Step(s.conns[c], ev, s.cfg).c;
    UpdatedKeepsInv(s, c, ev, hand);
    HandIsPassedOn(s.Updated(c, k'), c, NextHand(c, s.conns[c], k', ev));
  }

  lemma FreshIsTracked(s: Server, c: nat)
    requires s.Sized() && c < |s.conns| && s.conns[c] == FRESH && s.lives[c] == [] && s.ConnName(c) in s.connections
    requires forall u: Task :: u.c == c ==> UnderWay(s, u, None) == 0
    ensures Tracked(s, c, Some(DoEstablish(c)))
  {
    NoMaskNoWriting();
    assert UnderWay(s, DoEstablish(c), None) == UnderWay(s, DoRemove(c), None) == UnderWay(s, DoDestroy(c), None)
        == UnderWay(s, DoForceClose(c), None) == 0;
  }

  lemma AcceptedIsTracked(s: Server, l: LoopId, d: nat)
    requires ServerInv(s, None) && d <= |s.conns|
    ensures Tracked(s.Accepted(l), d, Some(DoEstablish(|s.conns|)))
  {
    var c, s' := |s.conns|, s.Accepted(l);
    if d < c {
      assert s.ConnName(d) != s.ConnName(c) by {
        if s.ConnName(d) == s.ConnName(c) { NamesDiffer(s, c, d); }
      }
      OthersStayTracked(s, s', d, None, Some(DoEstablish(c)));
    } else {
      forall u: Task | u.c == c
        ensures UnderWay(s', u, None) == 0
      {
        assert u !in s.Queue(Home(s', u));
      }
      FreshIsTracked(s', c);
    }
  }

  lemma AcceptedIsNamed(s: Server, l: LoopId)
    requires MapIsNamed(s)
    ensures MapIsNamed(s.Accepted(l))
  {
    var c, s' := |s.conns|, s.Accepted(l);
    forall x | x in s'.connections
      ensures s'.connections[x] <= c && s'.ConnName(s'.connections[x]) == x
    {
      if x != s.ConnName(c) { assert x in s.connections; }
    }
  }

  lemma AcceptedKeepsInv(s: Server, l: LoopId)
    requires ServerInv(s, None)
    ensures ServerInv(s.Accepted(l), Some(DoEstablish(|s.conns|)))
  {
    var s' := s.Accepted(l);
    forall d | 0 <= d <= |s.conns|
      ensures Tracked(s', d, Some(DoEstablish(|s.conns|)))
    {
      AcceptedIsTracked(s, l, d);
    }
    AcceptedIsNamed(s, l);
    TasksStayHome(s, s');
  }

  lemma NewConnectionKeepsInv(s: Server, l: LoopId)
    requires ServerInv(s, None)
    ensures s.NewConnection(l).Some? && ServerInv(s.NewConnection(l).value, None)
  {
    var c, s' := |s.conns|, s.Accepted(l);
    AcceptedKeepsInv(s, l);
    if l == BASE_LOOP {
      OnConnectionKeepsInv(s', c, Establish, Some(DoEstablish(c)));
    } else {
      PushHand(s', DoEstablish(c));
    }
  }

  function Apply(s: Server, e: ServerEvent): Option<Server>
    requires ServerInv(s, None) && Possible(s, e)
  {
    match e
    case Accept(l) => s.NewConnection(l)
    case RunNext(l) => s.RunTask(l)
    case OnLoop(c, ev) => s.OnConnection(c, ev)
  }

  lemma StepKeepsServerInv(s: Server, e: ServerEvent)
    requires ServerInv(s, None) && Possible(s, e)
    ensures e.RunNext? ==> s.Queue(e.l)[0].c < |s.conns|
    ensures Apply(s, e).Some? && ServerInv(Apply(s, e).value, None)
  {
    match e
    case Accept(l) => NewConnectionKeepsInv(s, l);
    case OnLoop(c, ev) => OnConnectionKeepsInv(s, c, ev, None);
    case RunNext(l) =>
      PopHand(s, l);
      var t := s.Queue(l)[0];
      match t
      case DoEstablish(c) => OnConnectionKeepsInv(s.Pop(l), c, Establish, Some(t));
      case DoForceClose(c) => OnConnectionKeepsInv(s.Pop(l), c, RunForceClose, Some(t));
      case DoDestroy(c) => OnConnectionKeepsInv(s.Pop(l), c, Destroy, Some(t));
      case DoRemove(c) => RemoveInLoopKeepsInv(s.Pop(l), c);
  }

  // ---------- Which loop does what ----------

  lemma OtherLoopsOperate(s: Server, c: nat, ev: ConnEvent)
    requires s.Sized() && c < |s.conns| && s.io[c] != BASE_LOOP && s.OnConnection(c, ev).Some?
    ensures s.OnConnection(c, ev).value.connections == s.connections && s.OnConnection(c, ev).value.erased == s.erased
  {
  }

  /** The map of connections belongs to the base loop: functors of other loops, and events of
      connections on other loops, leave it alone and erase nothing. */
  lemma OnlyBaseLoopErases(s: Server, e: ServerEvent)
    requires ServerInv(s, None) && Possible(s, e)
    requires match e
      case Accept(_) => false
      case RunNext(l) => l != BASE_LOOP
      case OnLoop(c, _) => s.io[c] != BASE_LOOP
    ensures var r := Apply(s, e); r.Some? && r.value.connections == s.connections && r.value.erased == s.erased
  {
    StepKeepsServerInv(s, e);
    if e.RunNext? {
      PopHand(s, e.l);
      match s.Queue(e.l)[0]
      case DoEstablish(c) => OtherLoopsOperate(s.Pop(e.l), c, Establish);
      case DoForceClose(c) => OtherLoopsOperate(s.Pop(e.l), c, RunForceClose);
      case DoDestroy(c) => OtherLoopsOperate(s.Pop(e.l), c, Destroy);
      case DoRemove(c) =>
    } else {
      OtherLoopsOperate(s, e.c, e.ev);
    }
  }

  /** A hang-up of an open connection is a close, and brings its removal. */
  lemma HangUpBringsRemoval(s: Server, c: nat)
    requires ServerInv(s, None) && Possible(s, OnLoop(c, HangUp))
    ensures var k' := Step(s.conns[c], HangUp, s.cfg);
      && k'.Next? && s.lives[c] == [Established]
      && Apply(s, OnLoop(c, HangUp)) == Some(s.Updated(c, k'.c).RemoveConnection(c))
      && s.Updated(c, k'.c).lives[c] == [Established, Closed]
  {
    assert Tracked(s, c, None);
  }

  /** A connection on another loop that closes hands its removal to the base loop, as the last functor
      there; one on the base loop is removed at once, and its destruction queued. */
  lemma CloseReachesBaseLoop(s: Server, c: nat)
    requires ServerInv(s, None) && Possible(s, OnLoop(c, HangUp))
    ensures var r := Apply(s, OnLoop(c, HangUp));
      && r.Some?
      && if s.io[c] == BASE_LOOP then
           && s.ConnName(c) !in r.value.connections && r.value.erased == s.erased + [1]
           && r.value.Queue(BASE_LOOP) == s.Queue(BASE_LOOP) + [DoDestroy(c)]
         else
           && r.value.Queue(BASE_LOOP) == s.Queue(BASE_LOOP) + [DoRemove(c)]
           && r.value.lives[c] == [Established, Closed]
  {
    HangUpBringsRemoval(s, c);
    assert Tracked(s, c, None);
  }

  /** A new connection of the base loop is up at once; any other is mapped, and comes up when its loop
      runs the functor queued for it. */
  lemma AcceptedComesUp(s: Server, l: LoopId)
    requires ServerInv(s, None)
    ensures var r, c := Apply(s, Accept(l)), |s.conns|;
      && r.Some? && |r.value.conns| == c + 1 && r.value.io == s.io + [l]
      && s.ConnName(c) in r.value.connections && r.value.connections[s.ConnName(c)] == c
      && if l == BASE_LOOP then r.value.conns[c].state.Connected? && r.value.queues == s.queues
         else r.value.conns[c].state.Connecting? && r.value.Queue(l) == s.Queue(l) + [DoEstablish(c)]
  {
    StepKeepsServerInv(s, Accept(l));
  }

  /** The address part of a name stays empty, and the numbers begin with 1. */
  lemma NameForm(s: Server, c: nat)
    ensures s.ConnName(c) == s.name + "-#" + Log.Printed(c + 1)
  {
    assert "-" + "" + "#" + Log.Printed(c + 1) == "-#" + Log.Printed(c + 1);
    assert s.name + ("-#" + Log.Printed(c + 1)) == s.name + "-#" + Log.Printed(c + 1);
  }

  lemma OperationQueuesBehind(s: Server, c: nat, ev: ConnEvent, m: LoopId)
    requires s.Sized() && c < |s.conns| && s.OnConnection(c, ev).Some?
    ensures s.Queue(m) <= s.OnConnection(c, ev).value.Queue(m)
  {
  }

  /** Functors run in the order in which they were queued: a loop takes its first, and whatever a step
      queues comes behind what is there. */
  lemma QueuesAreFifo(s: Server, e: ServerEvent, m: LoopId)
    requires ServerInv(s, None) && Possible(s, e)
    ensures var left := if e == RunNext(m) then s.Queue(m)[1..] else s.Queue(m);
      Apply(s, e).Some? && left <= Apply(s, e).value.Queue(m)
  {
    StepKeepsServerInv(s, e);
    match e
    case Accept(l) => if l == BASE_LOOP { OperationQueuesBehind(s.Accepted(l), |s.conns|, Establish, m); }
    case OnLoop(c, ev) => OperationQueuesBehind(s, c, ev, m);
    case RunNext(l) =>
      PopHand(s, l);
      match s.Queue(l)[0]
      case DoEstablish(c) => OperationQueuesBehind(s.Pop(l), c, Establish, m);
      case DoForceClose(c) => OperationQueuesBehind(s.Pop(l), c, RunForceClose, m);
      case DoDestroy(c) => OperationQueuesBehind(s.Pop(l), c, Destroy, m);
      case DoRemove(c) =>
  }

  // ---------- Whole runs ----------

  function Initial(name: string, cfg: Config): Server {
    Server(name, cfg, [], [], map[], map[], [], [])
  }

  /** Any interleaving of accepted connections, functors and events. Illegal events do not happen;
      no step fails an assertion, the one on the empty mask in Channel::remove included. */
  ghost function Run(name: string, cfg: Config, events: seq<ServerEvent>): (s: Server)
    ensures ServerInv(s, None)
  {
    if events == [] then Initial(name, cfg)
    else
      var s, e := Run(name, cfg, events[..|events| - 1]), events[|events| - 1];
      if !Possible(s, e) then s
      else
        StepKeepsServerInv(s, e);
        Apply(s, e).value
  }

  /** No single step fails an assertion. */
  lemma NoServerAssertionFails(name: string, cfg: Config, events: seq<ServerEvent>, e: ServerEvent)
    requires Possible(Run(name, cfg, events), e)
    ensures Apply(Run(name, cfg, events), e).Some?
  {
    StepKeepsServerInv(Run(name, cfg, events), e);
  }

  /** Events of one connection, on its loop. */
  function OnLoops(c: nat, evs: seq<ConnEvent>): seq<ServerEvent> {
    if evs == [] then [] else [OnLoop(c, evs[0])] + OnLoops(c, evs[1..])
  }

  lemma OnConnectionActs(s: Server, c: nat, ev: ConnEvent)
    requires ServerInv(s, None) && Possible(s, OnLoop(c, ev))
    ensures var r := Apply(s, OnLoop(c, ev));
      r.Some? && |r.value.conns| == |s.conns| && r.value.conns[c] == After(s.conns[c], ev, s.cfg)
  {
    StepKeepsServerInv(s, OnLoop(c, ev));
  }

  lemma ApplyKeepsConfig(s: Server, e: ServerEvent)
    requires ServerInv(s, None) && Possible(s, e) && Apply(s, e).Some?
    ensures Apply(s, e).value.cfg == s.cfg
  {
  }

  lemma {:induction false} RunKeepsConfig(name: string, cfg: Config, events: seq<ServerEvent>)
    ensures Run(name, cfg, events).cfg == cfg
  {
    if events != [] {
      RunKeepsConfig(name, cfg, events[..|events| - 1]);
      var s, e := Run(name, cfg, events[..|events| - 1]), events[|events| - 1];
      if Possible(s, e) {
        StepKeepsServerInv(s, e);
        ApplyKeepsConfig(s, e);
      }
    }
  }

  lemma RunOnLoop(name: string, cfg: Config, events: seq<ServerEvent>, c: nat, ev: ConnEvent)
    requires c < |Run(name, cfg, events).conns| && !ev.Establish? && !ev.Destroy? && !ev.RunForceClose?
    ensures var s, s' := Run(name, cfg, events), Run(name, cfg, events + [OnLoop(c, ev)]);
      |s'.conns| == |s.conns| && s'.conns[c] == After(s.conns[c], ev, cfg)
  {
    var s, e := Run(name, cfg, events), OnLoop(c, ev);
    RunKeepsConfig(name, cfg, events);
    assert (events + [e])[..|events|] == events;
    if Possible(s, e) {
      OnConnectionActs(s, c, ev);
    }
  }

  lemma OnLoopsAfter(events: seq<ServerEvent>, c: nat, evs: seq<ConnEvent>)
    requires evs != []
    ensures events + OnLoops(c, evs) == events + [OnLoop(c, evs[0])] + OnLoops(c, evs[1..])
  {
  }

  lemma {:induction false} RunOnLoops(name: string, cfg: Config, events: seq<ServerEvent>, c: nat, evs: seq<ConnEvent>)
    requires c < |Run(name, cfg, events).conns| && AllPlain(evs)
    ensures c < |Run(name, cfg, events + OnLoops(c, evs)).conns|
    ensures Run(name, cfg, events + OnLoops(c, evs)).conns[c] == AfterAll(Run(name, cfg, events).conns[c], evs, cfg)
    decreases |evs|
  {
    if evs == [] {
      assert events + OnLoops(c, evs) == events;
    } else {
      assert evs[0] in evs && AllPlain(evs[1..]);
      var next := events + [OnLoop(c, evs[0])];
      RunOnLoop(name, cfg, events, c, evs[0]);
      RunOnLoops(name, cfg, next, c, evs[1..]);
      OnLoopsAfter(events, c, evs);
    }
  }

  /** A whole dispatch on an open connection of the running server, with the calls its callbacks
      make: it fails an assertion exactly on a hang-up without input, with urgent or half-close data,
      whose read finds the end of the stream; otherwise it is part of a run of the server, so what is
      said of runs covers whole dispatches. */
  lemma ServerDispatchFailsExactly(name: string, cfg: Config, events: seq<ServerEvent>, c: nat,
                                   revents: Mask, n: int, io: Buf.Io, during: seq<seq<ConnEvent>>)
    requires c < |Run(name, cfg, events).conns| && Run(name, cfg, events).conns[c].Open()
    requires forall i :: 0 <= i < |during| ==> AllCalls(during[i])
    ensures var cbs := Dispatched(revents, INSTALLED, 4);
      var r := Dispatch(Run(name, cfg, events).conns[c], cbs, n, io, during, cfg);
      && (r.AssertionFails? <==> HUP in revents && IN !in revents && (PRI in revents || RDHUP in revents) && n == 0)
      && (r.Next? ==>
            var s' := Run(name, cfg, events + OnLoops(c, DispatchTrace(cbs, n, io, during)));
            c < |s'.conns| && s'.conns[c] == r.c)
  {
    var s, cbs := Run(name, cfg, events), Dispatched(revents, INSTALLED, 4);
    assert Tracked(s, c, None);
    DispatchIsExact(revents, INSTALLED, 4);
    DispatchFails(s.conns[c], cbs, n, io, during, cfg);
    DispatchIsRun(s.conns[c], cbs, n, io, during, cfg);
    TraceIsPlain(cbs, n, io, during);
    RunOnLoops(name, cfg, events, c, DispatchTrace(cbs, n, io, during));
  }

  /** Every connection is established, closed, erased and destroyed at most once each, in that order,
      with one callback up and at most one down; every erase has removed exactly one entry. */
  lemma EveryLifeInOrder(name: string, cfg: Config, events: seq<ServerEvent>, c: nat)
    requires c < |Run(name, cfg, events).conns|
    ensures var s := Run(name, cfg, events);
      && s.lives[c] <= WHOLE_LIFE
      && s.conns[c].ups == (if s.conns[c].state.Connecting? then 0 else 1)
      && s.conns[c].downs == (if s.conns[c].state.Disconnected? then 1 else 0)
      && (forall i :: 0 <= i < |s.erased| ==> s.erased[i] == 1)
  {
    var s := Run(name, cfg, events);
    assert Tracked(s, c, None);
  }

  /** Nothing is left half-way: once the queues are empty, a connection that was closed has been
      erased and destroyed, and one that was not is up, not forced to close, and in the map under its
      own name. */
  lemma QuietServerIsSettled(name: string, cfg: Config, events: seq<ServerEvent>, c: nat)
    requires c < |Run(name, cfg, events).conns|
    requires forall l :: Run(name, cfg, events).Queue(l) == []
    ensures var s := Run(name, cfg, events);
      if s.conns[c].state.Disconnected? then s.lives[c] == WHOLE_LIFE && s.ConnName(c) !in s.connections
      else !s.conns[c].forced && s.lives[c] == [Established] && s.ConnName(c) in s.connections && s.connections[s.ConnName(c)] == c
  {
    var s := Run(name, cfg, events);
    assert Tracked(s, c, None);
    assert forall l :: multiset(s.Queue(l)) == multiset{};
    if s.ConnName(c) in s.connections {
      var d := s.connections[s.ConnName(c)];
      NamesDiffer(s, c, d);
    }
  }

  // ---------- The class ----------

  class TcpServer {
    const name: string
    const cfg: Config
    var nextConnId: nat
    var connections: map<string, nat>
    var queues: map<LoopId, seq<Task>>   // of the loops, as far as this server's connections go

    // The accepted connections, their loops and their histories.
    var conns: seq<Conn>
    var io: seq<LoopId>
    var lives: seq<seq<Life>>
    var erased: seq<nat>

    function View(): Server
      reads this
    {
      Server(name, cfg, conns, io, connections, queues, lives, erased)
    }

    ghost predicate Valid()
      reads this
    {
      ServerInv(View(), None) && nextConnId == |conns| + 1
    }

    constructor (name: string, cfg: Config)
      ensures Valid() && View() == Initial(name, cfg)
    {
      this.name, this.cfg, nextConnId := name, cfg, 1;
      connections, queues, conns, io, lives, erased := map[], map[], [], [], [], [];
    }

    method QueueInLoop(l: LoopId, t: Task)
      modifies this`queues
      ensures View() == old(View()).Push(l, t)
    {
      var q := if l in queues then queues[l] else [];
      queues := queues[l := q + [t]];
    }

    /** std::map::erase of a key that is there: the result is the number of entries removed. */
    method Erase(connName: string) returns (n: nat)
      requires connName in connections
      modifies this`connections
      ensures n == 1 && connections == old(connections) - {connName}
    {
      ghost var keys := connections.Keys;
      var size := |connections|;
      connections := connections - {connName};
      assert connections.Keys == keys - {connName};
      n := size - |connections|;
    }

    /** On the base loop. n is the number of map entries erased: exactly one. */
    method RemoveConnectionInLoop(c: nat) returns (n: nat)
      requires c < |conns| && nextConnId == |conns| + 1 && ServerInv(View(), Some(DoRemove(c)))
      modifies this
      ensures Valid() && View() == old(View()).RemoveConnectionInLoop(c)
      ensures n == 1
    {
      ghost var s := View();
      ErasedIsTracked(s, c);
      RemoveInLoopKeepsInv(s, c);
      n := Erase(name + ("-" + "" + "#" + Log.Printed(c + 1)));
      erased, lives := erased + [n], lives[c := lives[c] + [Erased]];
      assert View() == ErasedFrom(s, c);
      QueueInLoop(io[c], DoDestroy(c));
    }

    /** The close callback of connection c, on its I/O loop. */
    method RemoveConnection(c: nat)
      requires c < |conns| && nextConnId == |conns| + 1 && ServerInv(View(), Some(DoRemove(c)))
      modifies this
      ensures Valid() && View() == old(View()).RemoveConnection(c)
      ensures old(io[c]) != BASE_LOOP ==> connections == old(connections) && erased == old(erased)
    {
      RemoveConnectionKeepsInv(View(), c);
      if io[c] == BASE_LOOP {
        var _ := RemoveConnectionInLoop(c);
      } else {
        QueueInLoop(BASE_LOOP, DoRemove(c));
      }
    }

    /** A connection has run one of its operations; what comes next is then in hand. */
    method Update(c: nat, k: Conn)
      requires c < |conns| && View().Sized()
      modifies this`conns, this`lives
      ensures View() == old(View()).Updated(c, k)
    {
      lives := lives[c := lives[c] + Happened(conns[c], k)];
      conns := conns[c := k];
    }

    method PassOn(c: nat, hand: Option<Task>)
      requires c < |conns| && nextConnId == |conns| + 1 && ServerInv(View(), hand)
      requires hand == None || hand == Some(DoRemove(c)) || hand == Some(DoForceClose(c))
      modifies this
      ensures Valid() && View() == old(View()).PassOn(c, hand)
    {
      HandIsPassedOn(View(), c, hand);
      if hand.Some? {
        if hand.value.DoRemove? {
          RemoveConnection(c);
        } else {
          QueueInLoop(io[c], hand.value);
        }
      }
    }

    /** An operation of connection c on its loop, brought about by the functor in hand or, without
        one, by an event or a call; the assertions of the connection hold. */
    method OnConnection(c: nat, ev: ConnEvent, ghost hand: Option<Task>)
      requires c < |conns| && nextConnId == |conns| + 1 && ServerInv(View(), hand)
      requires Brings(hand, c, ev) && (hand == None ==> TcpConnections.Legal(conns[c], ev))
      modifies this
      ensures Valid() && Some(View()) == old(View()).OnConnection(c, ev)
    {
      var k := conns[c];
      assert TcpConnections.Legal(k, ev) by { HandIsLegal(View(), c, ev, hand); }
      assert Step(k, ev, cfg).Next? by { OnConnectionKeepsInv(View(), c, ev, hand); }
      UpdatedKeepsInv(View(), c, ev, hand);
      var k' := Step(k, ev, cfg).c;
      Update(c, k');
      PassOn(c, NextHand(c, k, k', ev));
    }

    /** A new connection gets the next number, and its entry in the map under the generated name. */
    method Accept(ioLoop: LoopId)
      requires Valid()
      modifies this
      ensures nextConnId == |conns| + 1 && View() == old(View()).Accepted(ioLoop)
    {
      var connName := name + ("-" + "" + "#" + Log.Printed(nextConnId));
      connections := connections[connName := nextConnId - 1];
      nextConnId := nextConnId + 1;
      conns, io, lives := conns + [FRESH], io + [ioLoop], lives + [[]];
    }

    /** The acceptor's callback on the base loop; ioLoop is the pool's next loop. */
    method NewConnection(ioLoop: LoopId)
      requires Valid()
      modifies this
      ensures Valid() && Some(View()) == old(View()).NewConnection(ioLoop)
    {
      AcceptedKeepsInv(View(), ioLoop);
      NewConnectionKeepsInv(View(), ioLoop);
      var c := |conns|;
      Accept(ioLoop);
      if ioLoop == BASE_LOOP {
        OnConnection(c, Establish, Some(DoEstablish(c)));
      } else {
        QueueInLoop(ioLoop, DoEstablish(c));
      }
    }

    method Pop(l: LoopId) returns (t: Task)
      requires View().Queue(l) != []
      modifies this`queues
      ensures View() == old(View()).Pop(l) && t == old(View()).Queue(l)[0]
    {
      t := queues[l][0];
      queues := queues[l := queues[l][1..]];
    }

    /** Loop l runs its next functor. */
    method RunTask(l: LoopId)
      requires Valid() && View().Queue(l) != []
      modifies this
      ensures old(View().Queue(l)[0].c) < old(|conns|)
      ensures Valid() && Some(View()) == old(View()).RunTask(l)
    {
      PopHand(View(), l);
      var t := Pop(l);
      match t
      case DoEstablish(c) => OnConnection(c, Establish, Some(t));
      case DoForceClose(c) => OnConnection(c, RunForceClose, Some(t));
      case DoRemove(c) => var _ := RemoveConnectionInLoop(c);
      case DoDestroy(c) => OnConnection(c, Destroy, Some(t));
    }

    /** One step of some loop. */
    method Happen(e: ServerEvent)
      requires Valid() && Possible(View(), e)
      modifies this
      ensures Valid() && Some(View()) == Apply(old(View()), e)
    {
      match e
      case Accept(l) => NewConnection(l);
      case RunNext(l) => RunTask(l);
      case OnLoop(c, ev) => OnConnection(c, ev, None);
    }
  }

  lemma RunLast(name: string, cfg: Config, events: seq<ServerEvent>, e: ServerEvent)
    ensures var s, s' := Run(name, cfg, events), Run(name, cfg, events + [e]);
      if Possible(s, e) then Apply(s, e) == Some(s') else s' == s
  {
    assert (events + [e])[..|events|] == events;
    if Possible(Run(name, cfg, events), e) {
      StepKeepsServerInv(Run(name, cfg, events), e);
    }
  }

  /** The real server through any interleaving of its loops: it ends where the run ends, every history
      is a part of one whole life, and no erase removed anything but the one entry. */
  method RunServer(name: string, cfg: Config, events: seq<ServerEvent>)
    returns (connections: map<string, nat>, lives: seq<seq<Life>>, erased: seq<nat>)
    ensures var s := Run(name, cfg, events);
      connections == s.connections && lives == s.lives && erased == s.erased
    ensures forall c :: 0 <= c < |lives| ==> lives[c] <= WHOLE_LIFE
    ensures forall i :: 0 <= i < |erased| ==> erased[i] == 1
  {
    var server := new TcpServer(name, cfg);
    for i := 0 to |events|
      invariant fresh(server) && server.Valid() && server.View() == Run(name, cfg, events[..i])
    {
      assert events[..i + 1] == events[..i] + [events[i]];
      RunLast(name, cfg, events[..i], events[i]);
      if Possible(server.View(), events[i]) {
        server.Happen(events[i]);
      }
    }
    assert events[..|events|] == events;
    connections, lives, erased := server.connections, server.lives, server.erased;
    forall c | 0 <= c < |lives|
      ensures lives[c] <= WHOLE_LIFE
    {
      EveryLifeInOrder(name, cfg, events, c);
    }
  }
}
