/** TcpServer and the connections it creates as objects, driven by any schedule of its loops. */
module TcpServerObject {
  import opened TcpConnectionState
  import opened LifecycleSteps

  /** The part of TcpConnection that the life of a connection runs through. */
  class Connection {
    ghost const id: ConnId
    const name: string
    const loop: LoopId
    var state: StateE
    var interest: bool
    var registered: bool
    ghost var life: seq<Mark>

    ghost function Value(): Conn
      reads this
    {
      Conn(name, loop, state, interest, registered, life)
    }

    constructor (ghost id: ConnId, name: string, loop: LoopId)
      ensures this.id == id && Value() == Conn(name, loop, Connecting, false, false, [WasAccepted])
    {
      this.id, this.name, this.loop := id, name, loop;
      state, interest, registered, life := Connecting, false, false, [WasAccepted];
    }

    method ConnectEstablished()
      modifies this
      ensures Value() == Established(old(Value()))
    {
      state := Connected;
      interest, registered := true, true;
      life := life + [WasEstablished];
    }

    method Disconnect()
      modifies this
      ensures Value() == Closed(old(Value()))
    {
      state := Disconnected;
      interest := false;
      life := life + [WasClosed];
    }

    method ConnectDestroyed()
      modifies this
      ensures Value() == Destroyed(old(Value()))
    {
      if state == Connected {
        state := Disconnected;
        interest := false;
      }
      registered := false;
      life := life + [WasDestroyed];
    }

    method Shutdown()
      modifies this`state
      ensures Value() == ShutDown(old(Value()))
    {
      if state == Disconnected {
        state := Disconnecting;
      }
    }
  }

  /** A functor bound to a connection, as the loops' queues hold it. */
  datatype Functor =
    | BindEstablished(conn: Connection)
    | BindRemove(conn: Connection)
    | BindDestroyed(conn: Connection)

  ghost function TaskOf(f: Functor): Task {
    match f
    case BindEstablished(x) => Establish(x.id)
    case BindRemove(x) => Remove(x.id)
    case BindDestroyed(x) => Destroy(x.id)
  }

  ghost function TasksOf(fs: seq<Functor>): seq<Task> {
    seq(|fs|, i requires 0 <= i < |fs| => TaskOf(fs[i]))
  }

  class TcpServer {
    const name: string
    const ipPort: string
    var nextConnId: nat
    var connections: map<string, Connection>
    var queues: map<LoopId, seq<Functor>>
    var handling: map<LoopId, Connection>
    var created: map<ConnId, Connection>       // every connection ever created, for the schedule to name

    ghost function Names(): map<string, ConnId>
      reads this
    {
      map n | n in connections :: connections[n].id
    }

    ghost function Records(): map<ConnId, Conn>
      reads this, created.Values
    {
      map c | c in created :: created[c].Value()
    }

    ghost function Tasks(): map<LoopId, seq<Task>>
      reads this
    {
      map l | l in queues :: TasksOf(queues[l])
    }

    ghost function Handlers(): map<LoopId, ConnId>
      reads this
    {
      map l | l in handling :: handling[l].id
    }

    ghost function State(): Server
      reads this, created.Values
    {
      Server(name, ipPort, nextConnId, Names(), Records(), Tasks(), Handlers())
    }

    ghost predicate Known(x: Connection)
      reads this
    {
      x.id in created && created[x.id] == x
    }

    /** Every pointer in the map, in a queue or in a handler leads to the one object with that number. */
    ghost predicate Linked()
      reads this
    {
      && (forall c :: c in created ==> created[c].id == c)
      && (forall n :: n in connections ==> Known(connections[n]))
      && (forall l, i :: l in queues && 0 <= i < |queues[l]| ==> Known(queues[l][i].conn))
      && (forall l :: l in handling ==> Known(handling[l]))
    }

    ghost predicate Valid()
      reads this, created.Values
    {
      Linked() && State().Valid()
    }

    constructor (name: string, ipPort: string)
      requires |ipPort| <= MAX_IP_PORT
      ensures Valid() && State() == Start(name, ipPort) && created == map[]
    {
      this.name, this.ipPort := name, ipPort;
      nextConnId, connections, queues, handling, created := 1, map[], map[], map[], map[];
      new;
      StartIsValid(name, ipPort);
    }

    method QueueInLoop(l: LoopId, f: Functor)
      requires Linked() && Known(f.conn)
      modifies this`queues
      ensures Linked() && State() == Post(old(State()), l, TaskOf(f))
    {
      var queued := if l in queues then queues[l] else [];
      queues := queues[l := queued + [f]];
      assert TasksOf(queued + [f]) == TasksOf(queued) + [TaskOf(f)];
      assert Tasks() == old(Tasks())[l := old(State()).Queue(l) + [TaskOf(f)]];
    }

    method Register(connName: string, ioLoop: LoopId) returns (conn: Connection)
      requires Linked() && nextConnId !in created
      modifies this`nextConnId, this`created
      ensures fresh(conn) && created == old(created)[old(nextConnId) := conn] && conn.id == old(nextConnId)
      ensures conn.Value() == Conn(connName, ioLoop, Connecting, false, false, [WasAccepted])
      ensures Linked() && State() == With(old(State()).(nextConnId := nextConnId), conn.id, conn.Value())
      ensures nextConnId == old(nextConnId) + 1
    {
      conn := new Connection(nextConnId, connName, ioLoop);
      created := created[nextConnId := conn];
      nextConnId := nextConnId + 1;
      assert Records() == old(Records())[conn.id := conn.Value()];
    }

    method List(connName: string, conn: Connection)
      requires Linked() && Known(conn)
      modifies this`connections
      ensures Linked() && State() == var s := old(State()); s.(connections := s.connections[connName := conn.id])
    {
      connections := connections[connName := conn];
      assert Names() == old(Names())[connName := conn.id];
    }

    method CreateConnection(ioLoop: LoopId) returns (conn: Connection)
      requires Linked() && nextConnId !in created
      modifies this`nextConnId, this`connections, this`created
      ensures fresh(conn) && created == old(created)[old(nextConnId) := conn] && conn.id == old(nextConnId)
      ensures Linked() && State() == WithConnection(old(State()), ioLoop)
    {
      var connName := ConnName(name, ipPort, nextConnId);
      conn := Register(connName, ioLoop);
      List(connName, conn);
    }

    /** Nothing but the connection x changed. */
    twostate lemma OneChanged(x: Connection)
      requires old(Linked()) && unchanged(this) && Known(x)
      requires forall c :: c in created && created[c] != x ==> unchanged(created[c])
      ensures Linked() && State() == With(old(State()), x.id, x.Value())
    {
      assert Records() == old(Records())[x.id := x.Value()];
    }

    method NewConnection(ioLoop: LoopId)
      requires Linked() && nextConnId !in created
      modifies this`nextConnId, this`connections, this`created, this`queues
      ensures Linked() && State() == LifecycleSteps.NewConnection(old(State()), ioLoop)
      ensures fresh(created.Values - old(created.Values))
    {
      var conn := CreateConnection(ioLoop);
      RunEstablish(conn, ioLoop);
    }

    /** ioLoop->runInLoop of connectEstablished. */
    method RunEstablish(conn: Connection, ioLoop: LoopId)
      requires Linked() && Known(conn)
      modifies this`queues, conn
      ensures Linked()
      ensures State() == if ioLoop == 0 then LifecycleSteps.ConnectEstablished(old(State()), conn.id)
                         else Post(old(State()), ioLoop, Establish(conn.id))
    {
      if ioLoop == 0 {
        conn.ConnectEstablished();
        OneChanged(conn);
      } else {
        QueueInLoop(ioLoop, BindEstablished(conn));
      }
    }

    method Unlist(connName: string)
      requires Linked()
      modifies this`connections
      ensures Linked() && State() == var s := old(State()); s.(connections := s.connections - {connName})
    {
      connections := connections - {connName};
      assert Names() == old(Names()) - {connName};
    }

    method MarkErased(conn: Connection)
      requires Linked() && Known(conn)
      modifies conn`life
      ensures Linked() && State() == With(old(State()), conn.id, Erased(old(conn.Value())))
    {
      conn.life := conn.life + [WasErased];
      OneChanged(conn);
    }

    method RemoveConnectionInLoop(conn: Connection)
      requires Linked() && Known(conn)
      modifies this`connections, this`queues, conn`life
      ensures Linked() && State() == LifecycleSteps.RemoveConnectionInLoop(old(State()), conn.id)
    {
      Unlist(conn.name);
      MarkErased(conn);
      QueueInLoop(conn.loop, BindDestroyed(conn));
    }

    /** loop_->runInLoop: at once when the caller is on the base loop, queued otherwise. */
    method RemoveConnection(conn: Connection, callerLoop: LoopId)
      requires Linked() && Known(conn)
      modifies this`connections, this`queues, conn`life
      ensures Linked()
      ensures State() == if callerLoop == 0 then LifecycleSteps.RemoveConnectionInLoop(old(State()), conn.id)
                         else Post(old(State()), 0, Remove(conn.id))
    {
      if callerLoop == 0 {
        RemoveConnectionInLoop(conn);
      } else {
        QueueInLoop(0, BindRemove(conn));
      }
    }

    /** TcpConnection::handleClose, called by the channel's handler on loop l. */
    method HandleClose(l: LoopId)
      requires Linked() && l in handling && handling[l].loop == l
      modifies this`connections, this`queues, handling[l]
      ensures Linked() && State() == LifecycleSteps.HandleClose(old(State()), handling[l].id)
    {
      var conn := handling[l];
      conn.Disconnect();
      OneChanged(conn);
      RemoveConnection(conn, l);
    }

    method Execute(f: Functor)
      requires Linked() && Known(f.conn)
      modifies this`connections, this`queues, f.conn
      ensures Linked() && State() == LifecycleSteps.Execute(old(State()), TaskOf(f))
    {
      match f
      case BindEstablished(conn) =>
        conn.ConnectEstablished();
        OneChanged(conn);
      case BindRemove(conn) =>
        RemoveConnectionInLoop(conn);
      case BindDestroyed(conn) =>
        conn.ConnectDestroyed();
        OneChanged(conn);
    }

    method TakeFunctor(l: LoopId) returns (f: Functor)
      requires Linked() && l in queues && queues[l] != []
      modifies this`queues
      ensures Linked() && Known(f.conn) && TaskOf(f) == old(State()).Queue(l)[0]
      ensures State() == var s := old(State()); s.(queues := s.queues[l := s.Queue(l)[1..]])
    {
      f := queues[l][0];
      assert TasksOf(queues[l])[1..] == TasksOf(queues[l][1..]);
      queues := queues[l := queues[l][1..]];
      assert Tasks() == old(Tasks())[l := TasksOf(queues[l])];
    }

    /** The next functor of loop l. */
    method RunTask(l: LoopId)
      requires Linked() && l in queues && queues[l] != []
      modifies this`connections, this`queues, queues[l][0].conn
      ensures Linked()
      ensures var s := old(State());
        State() == LifecycleSteps.Execute(s.(queues := s.queues[l := s.Queue(l)[1..]]), s.Queue(l)[0])
    {
      var f := TakeFunctor(l);
      Execute(f);
    }

    /** The loop calls the channel's handler, which holds the connection until it returns. */
    method BeginEvent(conn: Connection)
      requires Linked() && Known(conn)
      modifies this`handling
      ensures Linked() && State() == var s := old(State()); s.(handling := s.handling[conn.loop := conn.id])
    {
      handling := handling[conn.loop := conn];
      assert Handlers() == old(Handlers())[conn.loop := conn.id];
    }

    method EndEvent(l: LoopId)
      requires Linked()
      modifies this`handling
      ensures Linked() && State() == var s := old(State()); s.(handling := s.handling - {l})
    {
      handling := handling - {l};
      assert Handlers() == old(Handlers()) - {l};
    }

    method Shutdown(conn: Connection)
      requires Linked() && Known(conn)
      modifies conn`state
      ensures Linked() && State() == LifecycleSteps.Shutdown(old(State()), conn.id)
    {
      conn.Shutdown();
      OneChanged(conn);
    }

    /** One event of a schedule, if it can happen now. */
    method Perform(ev: Event)
      requires Linked() && Supported(State(), ev)
      modifies this, created.Values
      ensures Linked() && fresh(created.Values - old(created.Values))
      ensures State() == Next(old(State()), ev)
    {
      match ev
      case Accept(l) =>
        if 0 !in handling && nextConnId < INT_MAX {
          NewConnection(l);
        }
      case RunTask(l) =>
        if l !in handling && l in queues && queues[l] != [] {
          RunTask(l);
        }
      case _ =>
        Handle(ev);
    }

    /** The events around a channel's handler, and calls of shutdown(). */
    method Handle(ev: Event)
      requires Linked() && Supported(State(), ev) && !ev.Accept? && !ev.RunTask?
      modifies this`connections, this`queues, this`handling, created.Values
      ensures Linked() && State() == Next(old(State()), ev)
    {
      match ev
      case BeginEvent(c) =>
        if c in created && created[c].interest && created[c].loop !in handling {
          BeginEvent(created[c]);
        }
      case Close(l) =>
        if l in handling && handling[l].interest {
          HandleClose(l);
        }
      case EndEvent(l) =>
        if l in handling {
          EndEvent(l);
        }
      case ShutdownCalled(c) =>
        if c in created {
          Shutdown(created[c]);
        }
    }

    /** Any schedule of the base loop, the I/O loops and the callbacks: the objects run as the step system does. */
    method Drive(evs: seq<Event>)
      requires Valid()
      modifies this, created.Values
      ensures Valid() && State() == Run(old(State()), evs)
    {
      ghost var s := State();
      for i := 0 to |evs|
        invariant Linked() && State() == s && fresh(created.Values - old(created.Values))
        invariant s.Valid() && Run(old(State()), evs) == Run(s, evs[i..])
      {
        RunUnfolds(s, evs, i);
        Perform(evs[i]);
        s := Next(s, evs[i]);
      }
    }
  }

  lemma NewNameIsFree(s: Server)
    requires s.Valid()
    ensures ConnName(s.name, s.ipPort, s.nextConnId) !in s.connections
  {
    var n := ConnName(s.name, s.ipPort, s.nextConnId);
    assert s.NameValid(n);
    if n in s.connections {
      assert s.Named(s.connections[n]);
      NamesAreDistinct(s.name, s.ipPort, s.nextConnId, s.connections[n]);
      assert false;
    }
  }

  lemma RunUnfolds(s: Server, evs: seq<Event>, i: nat)
    requires s.Valid() && i < |evs|
    ensures Supported(s, evs[i]) && Next(s, evs[i]).Valid()
    ensures Run(s, evs[i..]) == Run(Next(s, evs[i]), evs[i + 1..])
  {
    NextKeepsValid(s, evs[i]);
    assert evs[i..][1..] == evs[i + 1..];
  }
}
