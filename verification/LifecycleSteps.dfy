/**
 Connections of a TcpServer across its base loop (loop 0) and I/O loops: accepting, establishing,
 closing, erasing and destroying, with the task queue of every loop.
 */
module LifecycleSteps {
  import opened Wrappers
  import opened Bytes
  import opened TcpConnectionState

  type LoopId = nat
  type ConnId = nat

  datatype Task = Establish(conn: ConnId) | Remove(conn: ConnId) | Destroy(conn: ConnId)

  ghost predicate Distinct(ts: seq<Task>) {
    forall i, j :: 0 <= i < j < |ts| ==> ts[i] != ts[j]
  }

  datatype Mark = WasAccepted | WasEstablished | WasClosed | WasErased | WasDestroyed

  const LIFECYCLE := [WasAccepted, WasEstablished, WasClosed, WasErased, WasDestroyed]

  datatype Conn = Conn(
    name: string,
    loop: LoopId,
    state: StateE,
    interest: bool,        // the channel has events the poller watches
    registered: bool,      // the poller's channel map holds the channel
    life: seq<Mark>)       // history

  /** Closed, and perhaps shut down after that: shutdown() acts on a disconnected connection only. */
  predicate Down(state: StateE) { state.Disconnected? || state.Disconnecting? }

  /** The marks come once each and in order, and the other fields follow from them. */
  ghost predicate RecordValid(conn: Conn) {
    match |conn.life|
    case 1 => conn.life == [WasAccepted] && conn.state == Connecting && !conn.interest && !conn.registered
    case 2 => conn.life == LIFECYCLE[..2] && conn.state == Connected && conn.interest && conn.registered
    case 3 => conn.life == LIFECYCLE[..3] && Down(conn.state) && !conn.interest && conn.registered
    case 4 => conn.life == LIFECYCLE[..4] && Down(conn.state) && !conn.interest && conn.registered
    case 5 => conn.life == LIFECYCLE && Down(conn.state) && !conn.interest && !conn.registered
    case _ => false
  }

  datatype Server = Server(
    name: string,
    ipPort: string,
    nextConnId: nat,
    connections: map<string, ConnId>,
    conns: map<ConnId, Conn>,                // every connection ever created
    queues: map<LoopId, seq<Task>>,
    handling: map<LoopId, ConnId>)           // whose event handler runs on which loop
  {
    function Queue(l: LoopId): seq<Task> {
      if l in queues then queues[l] else []
    }

    /** The one task that must be queued for a connection, and where. */
    function Owed(c: ConnId): Option<(LoopId, Task)>
      requires c in conns
    {
      match |conns[c].life|
      case 1 => Some((conns[c].loop, Establish(c)))
      case 3 => Some((0, Remove(c)))
      case 4 => Some((conns[c].loop, Destroy(c)))
      case _ => None
    }

    ghost predicate ConnValid(c: ConnId)
      requires c in conns
    {
      && RecordValid(conns[c])
      && (if |conns[c].life| <= 3 then conns[c].name in connections && connections[conns[c].name] == c
          else conns[c].name !in connections)
      && (Owed(c).Some? ==> Owed(c).value.1 in Queue(Owed(c).value.0))
    }

    ghost predicate Named(c: ConnId)
      requires c in conns
    {
      conns[c].name == ConnName(name, ipPort, c)
    }

    ghost predicate NameValid(n: string) {
      n in connections ==> connections[n] in conns && conns[connections[n]].name == n
    }

    ghost predicate QueueValid(l: LoopId) {
      Distinct(Queue(l)) && forall t :: t in Queue(l) ==> TaskOwed(l, t)
    }

    /** A handler runs on its connection's own loop, between establishment and destruction. */
    ghost predicate HandlerValid(l: LoopId) {
      l in handling ==>
        handling[l] in conns && conns[handling[l]].loop == l && 2 <= |conns[handling[l]].life| <= 4
    }

    ghost predicate Valid() {
      && nextConnId <= INT_MAX && |ipPort| <= MAX_IP_PORT
      && (forall c :: c in conns ==> c < nextConnId && ConnValid(c))
      && (forall c :: c in conns ==> Named(c))
      && (forall n :: NameValid(n))
      && (forall l :: QueueValid(l))
      && (forall l :: HandlerValid(l))
    }

    ghost predicate TaskOwed(l: LoopId, t: Task) {
      t.conn in conns && Owed(t.conn) == Some((l, t))
    }

    /** A shared_ptr to the connection exists, in the map or in a queued task. */
    ghost predicate Referenced(c: ConnId) {
      || (exists n :: n in connections && connections[n] == c)
      || (exists l, t :: t in Queue(l) && t.conn == c)
    }
  }

  /** snprintf into char[64]: at most 63 bytes survive. */
  function Snprintf64(s: string): string {
    if |s| < 64 then s else s[..63]
  }

  /** The name newConnection prints. */
  function ConnName(name: string, ipPort: string, id: nat): string {
    name + Snprintf64("-" + ipPort + "#" + Decimal(id))
  }

  const INT_MAX: nat := 0x7fff_ffff

  /** The length of "255.255.255.255:65535". */
  const MAX_IP_PORT: nat := 21

  function Start(name: string, ipPort: string): Server
    requires |ipPort| <= MAX_IP_PORT
  {
    Server(name, ipPort, 1, map[], map[], map[], map[])
  }

  function Post(s: Server, l: LoopId, t: Task): Server {
    s.(queues := s.queues[l := s.Queue(l) + [t]])
  }

  function Aged(conn: Conn, m: Mark): Conn { conn.(life := conn.life + [m]) }

  function Established(conn: Conn): Conn {
    Aged(conn.(state := Connected, interest := true, registered := true), WasEstablished)
  }

  function Closed(conn: Conn): Conn {
    Aged(conn.(state := Disconnected, interest := false), WasClosed)
  }

  function Erased(conn: Conn): Conn { Aged(conn, WasErased) }

  function Destroyed(conn: Conn): Conn {
    var conn1 := if conn.state.Connected? then conn.(state := Disconnected, interest := false) else conn;
    Aged(conn1.(registered := false), WasDestroyed)
  }

  /** TcpConnection::shutdown, whose guard lets only a disconnected connection through. */
  function ShutDown(conn: Conn): Conn {
    if conn.state.Disconnected? then conn.(state := Disconnecting) else conn
  }

  function With(s: Server, c: ConnId, conn: Conn): Server {
    s.(conns := s.conns[c := conn])
  }

  function ConnectEstablished(s: Server, c: ConnId): Server
    requires c in s.conns
  {
    With(s, c, Established(s.conns[c]))
  }

  function WithConnection(s: Server, ioLoop: LoopId): Server {
    var c := s.nextConnId;
    var name := ConnName(s.name, s.ipPort, c);
    s.(nextConnId := c + 1, connections := s.connections[name := c],
       conns := s.conns[c := Conn(name, ioLoop, Connecting, false, false, [WasAccepted])])
  }

  /** TcpServer::newConnection; on the base loop itself runInLoop runs at once. */
  function NewConnection(s: Server, ioLoop: LoopId): Server {
    var s1 := WithConnection(s, ioLoop);
    if ioLoop == 0 then ConnectEstablished(s1, s.nextConnId) else Post(s1, ioLoop, Establish(s.nextConnId))
  }

  function RemoveConnectionInLoop(s: Server, c: ConnId): Server
    requires c in s.conns
  {
    var s1 := s.(connections := s.connections - {s.conns[c].name});
    Post(With(s1, c, Erased(s.conns[c])), s.conns[c].loop, Destroy(c))
  }

  /** TcpConnection::handleClose up to TcpServer::removeConnection, on the connection's own loop. */
  function HandleClose(s: Server, c: ConnId): Server
    requires c in s.conns
  {
    var s1 := With(s, c, Closed(s.conns[c]));
    if s.conns[c].loop == 0 then RemoveConnectionInLoop(s1, c) else Post(s1, 0, Remove(c))
  }

  function ConnectDestroyed(s: Server, c: ConnId): Server
    requires c in s.conns
  {
    With(s, c, Destroyed(s.conns[c]))
  }

  function Shutdown(s: Server, c: ConnId): Server
    requires c in s.conns
  {
    With(s, c, ShutDown(s.conns[c]))
  }

  datatype Event =
    | Accept(ioLoop: LoopId)
    | RunTask(loop: LoopId)            // the next functor of a loop
    | BeginEvent(conn: ConnId)         // the loop calls the channel's handler
    | Close(loop: LoopId)              // the handler that runs on the loop calls handleClose
    | EndEvent(loop: LoopId)
    | ShutdownCalled(conn: ConnId)     // any callback, on any connection

  /**
   A loop runs tasks and accepts only outside connections' event handlers; a closed channel reports
   no events; the int that numbers connections must not overflow.
   */
  predicate Enabled(s: Server, ev: Event) {
    match ev
    case Accept(_) => 0 !in s.handling && s.nextConnId < INT_MAX
    case RunTask(l) => l !in s.handling && s.Queue(l) != []
    case BeginEvent(c) => c in s.conns && s.conns[c].interest && s.conns[c].loop !in s.handling
    case Close(l) => l in s.handling && s.handling[l] in s.conns && s.conns[s.handling[l]].interest
    case EndEvent(l) => l in s.handling
    case ShutdownCalled(c) => c in s.conns
  }

  function Execute(s: Server, t: Task): Server
    requires t.conn in s.conns
  {
    match t
    case Establish(c) => ConnectEstablished(s, c)
    case Remove(c) => RemoveConnectionInLoop(s, c)
    case Destroy(c) => ConnectDestroyed(s, c)
  }

  /** What the step takes for granted: a free number, a task bound to a connection, a handler on its own loop. */
  predicate Supported(s: Server, ev: Event) {
    match ev
    case Accept(_) => s.nextConnId !in s.conns
    case RunTask(l) => s.Queue(l) != [] ==> s.Queue(l)[0].conn in s.conns
    case Close(l) => l in s.handling && s.handling[l] in s.conns ==> s.conns[s.handling[l]].loop == l
    case _ => true
  }

  function Step(s: Server, ev: Event): Server
    requires Enabled(s, ev) && Supported(s, ev)
  {
    match ev
    case Accept(l) => NewConnection(s, l)
    case RunTask(l) =>
      Execute(s.(queues := s.queues[l := s.Queue(l)[1..]]), s.Queue(l)[0])
    case BeginEvent(c) => s.(handling := s.handling[s.conns[c].loop := c])
    case Close(l) => HandleClose(s, s.handling[l])
    case EndEvent(l) => s.(handling := s.handling - {l})
    case ShutdownCalled(c) => Shutdown(s, c)
  }

  /** An event that cannot happen is skipped. */
  function Next(s: Server, ev: Event): Server
    requires Supported(s, ev)
  {
    if Enabled(s, ev) then Step(s, ev) else s
  }

  // ---- every step keeps the server valid

  /** An int and an IPv4 address with its port fit the 64-byte array. */
  lemma NameIsNotCut(name: string, ipPort: string, id: nat)
    requires |ipPort| <= MAX_IP_PORT && id <= INT_MAX
    ensures ConnName(name, ipPort, id) == name + ("-" + ipPort + "#" + Decimal(id))
  {
    assert Power10(10) == 10_000_000_000;
    DecimalLength(id, 10, Power10(10));
  }

  lemma NamesAreDistinct(name: string, ipPort: string, c: nat, d: nat)
    requires |ipPort| <= MAX_IP_PORT && c <= INT_MAX && d <= INT_MAX
    ensures ConnName(name, ipPort, c) == ConnName(name, ipPort, d) <==> c == d
  {
    NameIsNotCut(name, ipPort, c);
    NameIsNotCut(name, ipPort, d);
    var p := "-" + ipPort + "#";
    if ConnName(name, ipPort, c) == ConnName(name, ipPort, d) {
      assert ConnName(name, ipPort, c)[|name|..][|p|..] == Decimal(c);
      assert ConnName(name, ipPort, d)[|name|..][|p|..] == Decimal(d);
      DecimalIsInjective(c, d);
    }
  }

  /** What each stage of a life makes of a record. */
  lemma RecordSteps(conn: Conn)
    requires RecordValid(conn)
    ensures |conn.life| == 1 ==> RecordValid(Established(conn))
    ensures |conn.life| == 2 ==> RecordValid(Closed(conn)) && RecordValid(Erased(Closed(conn)))
    ensures |conn.life| == 3 ==> RecordValid(Erased(conn))
    ensures |conn.life| == 4 ==> RecordValid(Destroyed(conn))
    ensures RecordValid(ShutDown(conn))
  {
    assert LIFECYCLE[..1] + [WasEstablished] == LIFECYCLE[..2];
    assert LIFECYCLE[..2] + [WasClosed] == LIFECYCLE[..3];
    assert LIFECYCLE[..3] + [WasErased] == LIFECYCLE[..4];
    assert LIFECYCLE[..4] + [WasDestroyed] == LIFECYCLE;
  }

  ghost predicate SameConn(s: Server, r: Server, d: ConnId) {
    (d in r.conns <==> d in s.conns) && (d in s.conns ==> r.conns[d] == s.conns[d])
  }

  ghost predicate SameName(s: Server, r: Server, n: string) {
    (n in r.connections <==> n in s.connections) && (n in s.connections ==> r.connections[n] == s.connections[n])
  }

  /** The queue of l lost or gained only tasks of c, and those it has are owed. */
  ghost predicate QueueChange(s: Server, r: Server, c: ConnId, l: LoopId) {
    && Distinct(r.Queue(l))
    && (forall t: Task :: t.conn != c ==> (t in r.Queue(l) <==> t in s.Queue(l)))
    && (forall t: Task :: t.conn == c && t in r.Queue(l) ==> r.TaskOwed(l, t))
  }

  /** Only connection c changed between s and r: its record, its map entry, its tasks. */
  lemma ConnChange(s: Server, r: Server, c: ConnId)
    requires s.Valid() && r.name == s.name && r.ipPort == s.ipPort && s.nextConnId <= r.nextConnId <= INT_MAX
    requires c in r.conns && c < r.nextConnId && r.ConnValid(c) && r.Named(c)
    requires c in s.conns ==> r.conns[c].name == s.conns[c].name
    requires forall d :: d != c ==> SameConn(s, r, d)
    requires forall n :: n != r.conns[c].name ==> SameName(s, r, n)
    requires r.conns[c].name in r.connections ==> r.connections[r.conns[c].name] == c
    requires forall l :: QueueChange(s, r, c, l)
    requires forall l :: r.HandlerValid(l)
    ensures r.Valid()
  {
    forall d | d in r.conns && d != c ensures d < r.nextConnId && r.ConnValid(d) && r.Named(d) {
      assert SameConn(s, r, d) && s.ConnValid(d) && s.Named(d);
      NamesAreDistinct(s.name, s.ipPort, c, d);
      assert SameName(s, r, s.conns[d].name);
      assert r.Owed(d) == s.Owed(d);
      if r.Owed(d).Some? {
        assert QueueChange(s, r, c, r.Owed(d).value.0);
      }
    }
    forall n ensures r.NameValid(n) {
      if n != r.conns[c].name && n in r.connections {
        assert SameName(s, r, n) && s.NameValid(n);
        assert SameConn(s, r, s.connections[n]);
      }
    }
    forall l ensures r.QueueValid(l) {
      assert QueueChange(s, r, c, l) && s.QueueValid(l);
      forall t | t in r.Queue(l) && t.conn != c ensures r.TaskOwed(l, t) {
        assert SameConn(s, r, t.conn) && s.TaskOwed(l, t);
      }
    }
  }

  /** A task of c that is not owed is in no queue. */
  lemma NotOwedNotQueued(s: Server, c: ConnId, l: LoopId, t: Task)
    requires s.Valid() && t in s.Queue(l) && t.conn == c
    ensures c in s.conns && s.Owed(c) == Some((l, t))
  {
    assert s.QueueValid(l);
  }

  /** Appending one owed task of c to a queue that had none. */
  lemma PostChange(s: Server, r: Server, c: ConnId, to: LoopId, t: Task)
    requires t.conn == c && r.TaskOwed(to, t)
    requires forall l :: r.Queue(l) == if l == to then s.Queue(l) + [t] else s.Queue(l)
    requires forall l :: Distinct(s.Queue(l))
    requires forall l, u :: u in s.Queue(l) ==> u.conn != c
    ensures forall l :: QueueChange(s, r, c, l)
  {
    forall l ensures QueueChange(s, r, c, l) {
      assert Distinct(s.Queue(l));
      assert l == to ==> r.Queue(l) == s.Queue(l) + [t];
    }
  }

  /** The next id is unused: no record, no task. */
  lemma NextIdIsFresh(s: Server)
    requires s.Valid()
    ensures s.nextConnId !in s.conns && (forall m, t :: t in s.Queue(m) ==> t.conn != s.nextConnId)
    ensures forall m :: Distinct(s.Queue(m))
  {
    forall m, t | t in s.Queue(m) ensures t.conn != s.nextConnId { NotOwedNotQueued(s, t.conn, m, t); }
    forall m ensures Distinct(s.Queue(m)) { assert s.QueueValid(m); }
  }

  /** r is s with one connection more. */
  ghost predicate Created(s: Server, r: Server, conn: Conn) {
    var c := s.nextConnId;
    && c < INT_MAX && conn.name == ConnName(s.name, s.ipPort, c)
    && r == s.(nextConnId := c + 1, connections := s.connections[conn.name := c],
               conns := s.conns[c := conn], queues := r.queues)
  }

  lemma CreatedIsValid(s: Server, r: Server, conn: Conn)
    requires s.Valid() && Created(s, r, conn) && RecordValid(conn) && |conn.life| <= 2
    requires forall l :: QueueChange(s, r, s.nextConnId, l)
    requires r.Owed(s.nextConnId).Some? ==> r.Owed(s.nextConnId).value.1 in r.Queue(r.Owed(s.nextConnId).value.0)
    ensures r.Valid()
  {
    NextIdIsFresh(s);
    forall l ensures r.HandlerValid(l) { assert s.HandlerValid(l); }
    ConnChange(s, r, s.nextConnId);
  }

  lemma AcceptElsewhereKeepsValid(s: Server, l: LoopId)
    requires s.Valid() && s.nextConnId < INT_MAX && l != 0
    ensures NewConnection(s, l).Valid()
  {
    var r, c := NewConnection(s, l), s.nextConnId;
    NextIdIsFresh(s);
    PostChange(s, r, c, l, Establish(c));
    CreatedIsValid(s, r, r.conns[c]);
  }

  lemma AcceptOnBaseKeepsValid(s: Server)
    requires s.Valid() && s.nextConnId < INT_MAX
    ensures NewConnection(s, 0).Valid()
  {
    var r, c := NewConnection(s, 0), s.nextConnId;
    NextIdIsFresh(s);
    RecordSteps(Conn(ConnName(s.name, s.ipPort, c), 0, Connecting, false, false, [WasAccepted]));
    forall m ensures QueueChange(s, r, c, m) { assert r.Queue(m) == s.Queue(m); }
    CreatedIsValid(s, r, r.conns[c]);
  }

  lemma AcceptKeepsValid(s: Server, l: LoopId)
    requires s.Valid() && s.nextConnId < INT_MAX
    ensures NewConnection(s, l).Valid()
  {
    if l == 0 {
      AcceptOnBaseKeepsValid(s);
    } else {
      AcceptElsewhereKeepsValid(s, l);
    }
  }

  /** r is s with connection c further on in its life, and erased from the map if it is far enough. */
  ghost predicate Moved(s: Server, r: Server, c: ConnId, conn: Conn) {
    && c in s.conns && conn.name == s.conns[c].name && conn.loop == s.conns[c].loop
    && r == s.(conns := s.conns[c := conn], queues := r.queues,
               connections := if |conn.life| <= 3 then s.connections else s.connections - {conn.name})
    && |s.conns[c].life| <= |conn.life|
  }

  lemma MovedIsValid(s: Server, r: Server, c: ConnId, conn: Conn)
    requires s.Valid() && Moved(s, r, c, conn) && RecordValid(conn)
    requires forall l :: QueueChange(s, r, c, l)
    requires r.Owed(c).Some? ==> r.Owed(c).value.1 in r.Queue(r.Owed(c).value.0)
    requires conn.loop in s.handling && s.handling[conn.loop] == c ==> 2 <= |conn.life| <= 4
    ensures r.Valid()
  {
    assert s.ConnValid(c) && s.Named(c);
    forall l ensures r.HandlerValid(l) { assert s.HandlerValid(l); }
    forall n | n != conn.name ensures SameName(s, r, n) { }
    ConnChange(s, r, c);
  }

  lemma CloseOnBaseKeepsValid(s: Server, c: ConnId)
    requires s.Valid() && c in s.conns && s.conns[c].loop == 0 && |s.conns[c].life| == 2
    ensures HandleClose(s, c).Valid()
  {
    var r := HandleClose(s, c);
    assert s.ConnValid(c);
    NothingQueuedWhileOpen(s, c);
    RecordSteps(s.conns[c]);
    PostChange(s, r, c, 0, Destroy(c));
    MovedIsValid(s, r, c, Erased(Closed(s.conns[c])));
  }

  lemma CloseElsewhereKeepsValid(s: Server, c: ConnId)
    requires s.Valid() && c in s.conns && s.conns[c].loop != 0 && |s.conns[c].life| == 2
    ensures HandleClose(s, c).Valid()
  {
    var r := HandleClose(s, c);
    assert s.ConnValid(c);
    NothingQueuedWhileOpen(s, c);
    RecordSteps(s.conns[c]);
    PostChange(s, r, c, 0, Remove(c));
    MovedIsValid(s, r, c, Closed(s.conns[c]));
  }

  /** handleClose in the handler of an open connection. */
  lemma CloseKeepsValid(s: Server, l: LoopId)
    requires s.Valid() && l in s.handling && s.handling[l] in s.conns && s.conns[s.handling[l]].interest
    ensures HandleClose(s, s.handling[l]).Valid()
  {
    var c := s.handling[l];
    assert s.HandlerValid(l) && s.ConnValid(c);
    if l == 0 {
      CloseOnBaseKeepsValid(s, c);
    } else {
      CloseElsewhereKeepsValid(s, c);
    }
  }

  lemma NothingQueuedWhileOpen(s: Server, c: ConnId)
    requires s.Valid() && c in s.conns && |s.conns[c].life| == 2
    ensures forall m, t :: t in s.Queue(m) ==> t.conn != c
    ensures forall m :: Distinct(s.Queue(m))
  {
    forall m, t | t in s.Queue(m) ensures t.conn != c {
      if t.conn == c { NotOwedNotQueued(s, c, m, t); }
    }
    forall m ensures Distinct(s.Queue(m)) { assert s.QueueValid(m); }
  }

  /** s1 is s with the one task of c taken off its queue. */
  ghost predicate TaskTaken(s: Server, s1: Server, c: ConnId) {
    && s1 == s.(queues := s1.queues)
    && (forall m :: Distinct(s1.Queue(m)))
    && (forall m, u :: u in s1.Queue(m) ==> u.conn != c)
    && (forall m, u: Task :: u.conn != c ==> (u in s1.Queue(m) <==> u in s.Queue(m)))
  }

  lemma TakeTask(s: Server, l: LoopId)
    requires s.Valid() && s.Queue(l) != []
    ensures var s1, t := s.(queues := s.queues[l := s.Queue(l)[1..]]), s.Queue(l)[0];
      s.TaskOwed(l, t) && TaskTaken(s, s1, t.conn)
  {
    var t, rest := s.Queue(l)[0], s.Queue(l)[1..];
    var s1 := s.(queues := s.queues[l := rest]);
    assert s.QueueValid(l) && t in s.Queue(l);
    assert s.Queue(l) == [t] + rest;
    forall m ensures Distinct(s1.Queue(m)) { assert s.QueueValid(m); }
    forall m, u | u in s1.Queue(m) ensures u.conn != t.conn {
      assert u in s.Queue(m);
      if u.conn == t.conn { NotOwedNotQueued(s, t.conn, m, u); }
    }
  }

  lemma PostAfterTake(s: Server, s1: Server, r: Server, c: ConnId, to: LoopId, t: Task)
    requires TaskTaken(s, s1, c) && t.conn == c && r.TaskOwed(to, t)
    requires forall l :: r.Queue(l) == if l == to then s1.Queue(l) + [t] else s1.Queue(l)
    ensures forall l :: QueueChange(s, r, c, l)
  {
    PostChange(s1, r, c, to, t);
    forall l ensures QueueChange(s, r, c, l) {
      assert QueueChange(s1, r, c, l);
    }
  }

  lemma RemoveKeepsValid(s: Server, s1: Server, c: ConnId)
    requires s.Valid() && c in s.conns && |s.conns[c].life| == 3 && TaskTaken(s, s1, c)
    ensures RemoveConnectionInLoop(s1, c).Valid()
  {
    var r := RemoveConnectionInLoop(s1, c);
    assert s.ConnValid(c);
    RecordSteps(s.conns[c]);
    PostAfterTake(s, s1, r, c, s.conns[c].loop, Destroy(c));
    MovedIsValid(s, r, c, r.conns[c]);
  }

  lemma LoneTaskKeepsValid(s: Server, s1: Server, t: Task)
    requires s.Valid() && t.conn in s.conns && TaskTaken(s, s1, t.conn) && !t.Remove?
    requires |s.conns[t.conn].life| == (if t.Establish? then 1 else 4)
    requires t.Destroy? ==> s.conns[t.conn].loop !in s.handling
    ensures Execute(s1, t).Valid()
  {
    var r, c := Execute(s1, t), t.conn;
    assert s.ConnValid(c);
    RecordSteps(s.conns[c]);
    forall m ensures QueueChange(s, r, c, m) { assert r.Queue(m) == s1.Queue(m); }
    MovedIsValid(s, r, c, r.conns[c]);
  }

  lemma TaskKeepsValid(s: Server, l: LoopId)
    requires s.Valid() && l !in s.handling && s.Queue(l) != []
    ensures s.Queue(l)[0].conn in s.conns
    ensures Execute(s.(queues := s.queues[l := s.Queue(l)[1..]]), s.Queue(l)[0]).Valid()
  {
    var t := s.Queue(l)[0];
    TakeTask(s, l);
    var s1 := s.(queues := s.queues[l := s.Queue(l)[1..]]);
    if t.Remove? {
      RemoveKeepsValid(s, s1, t.conn);
    } else {
      LoneTaskKeepsValid(s, s1, t);
    }
  }

  lemma HandlersKeepValid(s: Server, r: Server)
    requires s.Valid() && r == s.(handling := r.handling) && forall l :: r.HandlerValid(l)
    ensures r.Valid()
  {
    assert forall l :: r.Queue(l) == s.Queue(l);
    forall c | c in r.conns ensures c < r.nextConnId && r.ConnValid(c) && r.Named(c) {
      assert s.Named(c) && s.ConnValid(c) && r.Owed(c) == s.Owed(c);
    }
    forall n ensures r.NameValid(n) { assert s.NameValid(n); }
    forall l ensures r.QueueValid(l) {
      assert s.QueueValid(l);
      forall t | t in r.Queue(l) ensures r.TaskOwed(l, t) { assert s.TaskOwed(l, t); }
    }
  }

  lemma ShutdownKeepsValid(s: Server, c: ConnId)
    requires s.Valid() && c in s.conns
    ensures Shutdown(s, c).Valid()
  {
    var r := Shutdown(s, c);
    assert s.ConnValid(c);
    RecordSteps(s.conns[c]);
    forall l ensures QueueChange(s, r, c, l) {
      assert s.QueueValid(l) && r.Queue(l) == s.Queue(l) && r.Owed(c) == s.Owed(c);
    }
    assert s.HandlerValid(s.conns[c].loop);
    if |s.conns[c].life| > 3 {
      assert s.connections - {s.conns[c].name} == s.connections;
    }
    MovedIsValid(s, r, c, r.conns[c]);
  }

  lemma ValidSupports(s: Server, ev: Event)
    requires s.Valid()
    ensures Supported(s, ev)
  {
    match ev
    case RunTask(l) =>
      assert s.QueueValid(l);
      assert s.Queue(l) != [] ==> s.Queue(l)[0] in s.Queue(l);
    case Close(l) => assert s.HandlerValid(l);
    case _ =>
  }

  lemma StepKeepsValid(s: Server, ev: Event)
    requires s.Valid() && Enabled(s, ev)
    ensures Supported(s, ev) && Step(s, ev).Valid()
  {
    ValidSupports(s, ev);
    match ev
    case Accept(l) => AcceptKeepsValid(s, l);
    case RunTask(l) => TaskKeepsValid(s, l);
    case BeginEvent(c) =>
      var r := Step(s, ev);
      assert s.ConnValid(c);
      forall m ensures r.HandlerValid(m) { assert s.HandlerValid(m); }
      HandlersKeepValid(s, r);
    case Close(l) => CloseKeepsValid(s, l);
    case EndEvent(l) =>
      var r := Step(s, ev);
      forall m ensures r.HandlerValid(m) { assert s.HandlerValid(m); }
      HandlersKeepValid(s, r);
    case ShutdownCalled(c) => ShutdownKeepsValid(s, c);
  }

  lemma NextKeepsValid(s: Server, ev: Event)
    requires s.Valid()
    ensures Supported(s, ev) && Next(s, ev).Valid()
  {
    ValidSupports(s, ev);
    if Enabled(s, ev) {
      StepKeepsValid(s, ev);
    }
  }

  /** Any interleaving of the base loop and the I/O loops; an event that cannot happen is skipped. */
  function Run(s: Server, evs: seq<Event>): (r: Server)
    requires s.Valid()
    ensures r.Valid()
    decreases |evs|
  {
    if evs == [] then s
    else
      NextKeepsValid(s, evs[0]);
      Run(Next(s, evs[0]), evs[1..])
  }

  // ---- whole runs

  lemma StartIsValid(name: string, ipPort: string)
    requires |ipPort| <= MAX_IP_PORT
    ensures Start(name, ipPort).Valid()
  {
    var s := Start(name, ipPort);
    assert forall n :: s.NameValid(n);
    assert forall l :: s.QueueValid(l);
    assert forall l :: s.HandlerValid(l);
  }

  /**
   In every interleaving of the base loop and the I/O loops each connection has its own name, goes
   through accepted, established, closed, erased and destroyed at most once each and in that order,
   is in the map exactly until it is erased, and is not destroyed while its channel's handler runs.
   */
  lemma LivesAreOrderly(name: string, ipPort: string, evs: seq<Event>)
    requires |ipPort| <= MAX_IP_PORT
    ensures Start(name, ipPort).Valid()
    ensures var s := Run(Start(name, ipPort), evs);
      && (forall c :: c in s.conns ==> s.conns[c].life <= LIFECYCLE)
      && (forall c, d :: c in s.conns && d in s.conns && s.conns[c].name == s.conns[d].name ==> c == d)
      && (forall c :: c in s.conns ==>
            (WasErased !in s.conns[c].life <==>
               s.conns[c].name in s.connections && s.connections[s.conns[c].name] == c))
      && (forall l :: l in s.handling ==>
            s.handling[l] in s.conns && WasDestroyed !in s.conns[s.handling[l]].life)
  {
    StartIsValid(name, ipPort);
    var s := Run(Start(name, ipPort), evs);
    forall c, d | c in s.conns && d in s.conns && s.conns[c].name == s.conns[d].name ensures c == d {
      assert s.Named(c) && s.Named(d);
      NamesAreDistinct(s.name, s.ipPort, c, d);
    }
    forall c | c in s.conns
      ensures s.conns[c].life <= LIFECYCLE
      ensures WasErased !in s.conns[c].life <==>
                s.conns[c].name in s.connections && s.connections[s.conns[c].name] == c
      ensures |s.conns[c].life| <= 4 ==> WasDestroyed !in s.conns[c].life
    {
      assert s.ConnValid(c);
      MarksByLength(s.conns[c]);
    }
    forall l | l in s.handling ensures s.handling[l] in s.conns && |s.conns[s.handling[l]].life| <= 4 {
      assert s.HandlerValid(l);
    }
  }

  lemma MarksByLength(conn: Conn)
    requires RecordValid(conn)
    ensures WasErased in conn.life <==> |conn.life| >= 4
    ensures WasDestroyed in conn.life <==> |conn.life| >= 5
    ensures WasClosed in conn.life <==> |conn.life| >= 3
    ensures WasEstablished in conn.life <==> |conn.life| >= 2
    ensures conn.life <= LIFECYCLE
  {
    assert forall i :: 0 <= i < |conn.life| ==> conn.life[i] == LIFECYCLE[i];
    assert |conn.life| >= 4 ==> conn.life[3] == WasErased;
    assert |conn.life| >= 5 ==> conn.life[4] == WasDestroyed;
    assert |conn.life| >= 3 ==> conn.life[2] == WasClosed;
    assert |conn.life| >= 2 ==> conn.life[1] == WasEstablished;
  }

  /**
   The poller never holds the channel of a freed connection: a registered channel's connection is
   in the map or in a queued task. connectDestroyed runs on the connection's own loop and never
   finds it connected, so its kConnected branch is never taken; it finds kDisconnected, or
   kDisconnecting when a callback has called shutdown() since the close.
   */
  lemma RegisteredIsReferenced(name: string, ipPort: string, evs: seq<Event>)
    requires |ipPort| <= MAX_IP_PORT
    ensures Start(name, ipPort).Valid()
    ensures var s := Run(Start(name, ipPort), evs);
      && (forall c :: c in s.conns && s.conns[c].registered ==> s.Referenced(c))
      && (forall l, c :: Destroy(c) in s.Queue(l) ==> c in s.conns && Down(s.conns[c].state) && l == s.conns[c].loop)
  {
    StartIsValid(name, ipPort);
    var s := Run(Start(name, ipPort), evs);
    forall c | c in s.conns && s.conns[c].registered ensures s.Referenced(c) {
      assert s.ConnValid(c);
      if s.Owed(c).Some? {
        assert s.Owed(c).value.1 in s.Queue(s.Owed(c).value.0);
      }
    }
    forall l, c | Destroy(c) in s.Queue(l)
      ensures c in s.conns && Down(s.conns[c].state) && l == s.conns[c].loop
    {
      assert s.QueueValid(l) && s.TaskOwed(l, Destroy(c));
      assert s.ConnValid(c);
    }
  }

  lemma NextOfClosed(s: Server, ev: Event, c: ConnId)
    requires c in s.conns && Down(s.conns[c].state) && RecordValid(s.conns[c]) && Supported(s, ev)
    requires ev.RunTask? && s.Queue(ev.loop) != [] ==> s.Queue(ev.loop)[0] != Establish(c)
    ensures c in Next(s, ev).conns
    ensures Next(s, ev).conns[c].state == if ev == ShutdownCalled(c) then Disconnecting else s.conns[c].state
  {
  }

  lemma NothingEstablishesClosed(s: Server, c: ConnId, l: LoopId)
    requires s.Valid() && c in s.conns && Down(s.conns[c].state)
    ensures RecordValid(s.conns[c]) && Establish(c) !in s.Queue(l)
  {
    assert s.ConnValid(c);
    if Establish(c) in s.Queue(l) {
      NotOwedNotQueued(s, c, l, Establish(c));
    }
  }

  /**
   What connectDestroyed finds: once closed, a connection is kDisconnecting if and only if some
   callback has called shutdown() on it since.
   */
  lemma {:induction false} ClosedStateIff(s: Server, c: ConnId, evs: seq<Event>)
    requires s.Valid() && c in s.conns && Down(s.conns[c].state)
    ensures var r := Run(s, evs);
      c in r.conns && r.conns[c].state == if ShutdownCalled(c) in evs then Disconnecting else s.conns[c].state
    decreases |evs|
  {
    if evs != [] {
      ValidSupports(s, evs[0]);
      NothingEstablishesClosed(s, c, if evs[0].RunTask? then evs[0].loop else 0);
      NextOfClosed(s, evs[0], c);
      NextKeepsValid(s, evs[0]);
      ClosedStateIff(Next(s, evs[0]), c, evs[1..]);
      assert ShutdownCalled(c) in evs <==> evs[0] == ShutdownCalled(c) || ShutdownCalled(c) in evs[1..];
    }
  }

  /** When every queue is empty, each connection is open and in the map, or was closed and is destroyed. */
  lemma QuietMeansOpenOrDestroyed(name: string, ipPort: string, evs: seq<Event>)
    requires |ipPort| <= MAX_IP_PORT
    ensures Start(name, ipPort).Valid()
    ensures var s := Run(Start(name, ipPort), evs);
      (forall l :: s.Queue(l) == []) ==>
        forall c :: c in s.conns ==>
          if WasClosed in s.conns[c].life then s.conns[c].life == LIFECYCLE && !s.conns[c].registered && s.conns[c].name !in s.connections
          else s.conns[c].state.Connected? && s.conns[c].interest && s.conns[c].name in s.connections
  {
    StartIsValid(name, ipPort);
    var s := Run(Start(name, ipPort), evs);
    if forall l :: s.Queue(l) == [] {
      forall c | c in s.conns
        ensures if WasClosed in s.conns[c].life then s.conns[c].life == LIFECYCLE && !s.conns[c].registered && s.conns[c].name !in s.connections
                else s.conns[c].state.Connected? && s.conns[c].interest && s.conns[c].name in s.connections
      {
        assert s.ConnValid(c);
        MarksByLength(s.conns[c]);
        assert s.Owed(c).Some? ==> s.Queue(s.Owed(c).value.0) == [];
      }
    }
  }
}
