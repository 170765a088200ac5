/**
 The lives of connections against a ledger kept from the schedule alone: which loop each accept was
 for, how far each connection is, what each loop has queued, whose handler runs, who was shut down.
 */
module LifeLedger {
  import opened Wrappers
  import opened Bytes
  import opened TcpConnectionState
  import opened LifecycleSteps

  /** Stages: 1 accepted, 2 established, 3 closed, 4 erased from the map, 5 destroyed. Connection c is at c - 1. */
  datatype Ledger = Ledger(
    loops: seq<LoopId>,
    stages: seq<nat>,
    queues: map<LoopId, seq<Task>>,
    handlers: map<LoopId, ConnId>,
    closed: set<ConnId>,
    shut: set<ConnId>)
  {
    predicate Has(c: ConnId) { 1 <= c <= |stages| && |loops| == |stages| }

    function Queue(l: LoopId): seq<Task> { if l in queues then queues[l] else [] }

    function Posted(l: LoopId, t: Task): Ledger { this.(queues := queues[l := Queue(l) + [t]]) }

    function At(c: ConnId, stage: nat): Ledger
      requires Has(c)
    {
      this.(stages := stages[c - 1 := stage])
    }
  }

  const EMPTY := Ledger([], [], map[], map[], {}, {})

  predicate Possible(l: Ledger, ev: Event) {
    match ev
    case Accept(_) => 0 !in l.handlers && |l.stages| + 1 < INT_MAX
    case RunTask(k) => k !in l.handlers && l.Queue(k) != []
    case BeginEvent(c) => l.Has(c) && l.stages[c - 1] == 2 && l.loops[c - 1] !in l.handlers
    case Close(k) => k in l.handlers && l.Has(l.handlers[k]) && l.stages[l.handlers[k] - 1] == 2
    case EndEvent(k) => k in l.handlers
    case ShutdownCalled(c) => l.Has(c)
  }

  /** A connection of the base loop is established at once; the others by a task on their own loop. */
  function Accepted(l: Ledger, k: LoopId): Ledger {
    var l1 := l.(loops := l.loops + [k], stages := l.stages + [if k == 0 then 2 else 1]);
    if k == 0 then l1 else l1.Posted(k, Establish(|l1.stages|))
  }

  /** A close on the base loop erases at once; elsewhere it asks the base loop to. */
  function ClosedAt(l: Ledger, k: LoopId, c: ConnId): Ledger
    requires l.Has(c)
  {
    var l1 := l.(closed := l.closed + {c});
    if k == 0 then l1.At(c, 4).Posted(0, Destroy(c)) else l1.At(c, 3).Posted(0, Remove(c))
  }

  /** The oldest task of the loop runs. */
  function TaskRun(l: Ledger, k: LoopId): Ledger
    requires l.Queue(k) != []
  {
    var t := l.Queue(k)[0];
    var l1 := l.(queues := l.queues[k := l.Queue(k)[1..]]);
    if !l.Has(t.conn) then l1
    else
      match t
      case Establish(c) => l1.At(c, 2)
      case Remove(c) => l1.At(c, 4).Posted(l.loops[c - 1], Destroy(c))
      case Destroy(c) => l1.At(c, 5)
  }

  function Enter(l: Ledger, ev: Event): Ledger
    requires Possible(l, ev)
  {
    match ev
    case Accept(k) => Accepted(l, k)
    case RunTask(k) => TaskRun(l, k)
    case BeginEvent(c) => l.(handlers := l.handlers[l.loops[c - 1] := c])
    case Close(k) => ClosedAt(l, k, l.handlers[k])
    case EndEvent(k) => l.(handlers := l.handlers - {k})
    case ShutdownCalled(c) => if l.stages[c - 1] >= 3 then l.(shut := l.shut + {c}) else l
  }

  function Keep(l: Ledger, evs: seq<Event>): Ledger
    decreases |evs|
  {
    if evs == [] then l else Keep(if Possible(l, evs[0]) then Enter(l, evs[0]) else l, evs[1..])
  }

  /** All there is to a connection, from its stage. */
  function RecordOf(name: string, loop: LoopId, stage: nat, shut: bool): Conn
    requires stage <= 5
  {
    Conn(name, loop,
         if stage <= 1 then Connecting else if stage == 2 then Connected else if shut then Disconnecting else Disconnected,
         stage == 2, 2 <= stage <= 4, LIFECYCLE[..stage])
  }

  ghost predicate ConnAgrees(s: Server, l: Ledger, c: ConnId) {
    && (c in s.conns <==> l.Has(c))
    && (c in s.conns ==>
          && 1 <= l.stages[c - 1] <= 5
          && s.conns[c] == RecordOf(ConnName(s.name, s.ipPort, c), l.loops[c - 1], l.stages[c - 1], c in l.shut))
    && (c in l.shut ==> l.Has(c) && l.stages[c - 1] >= 3)
    && (c in l.closed <==> l.Has(c) && l.stages[c - 1] >= 3)
  }

  ghost predicate Agrees(s: Server, l: Ledger) {
    && |l.loops| == |l.stages| && s.nextConnId == |l.stages| + 1
    && (forall c :: ConnAgrees(s, l, c))
    && (forall k :: s.Queue(k) == l.Queue(k))
    && s.handling == l.handlers
  }

  lemma RecordStages(name: string, loop: LoopId, shut: bool)
    ensures Established(RecordOf(name, loop, 1, shut)) == RecordOf(name, loop, 2, shut)
    ensures Closed(RecordOf(name, loop, 2, shut)) == RecordOf(name, loop, 3, false)
    ensures Erased(RecordOf(name, loop, 3, shut)) == RecordOf(name, loop, 4, shut)
    ensures Destroyed(RecordOf(name, loop, 4, shut)) == RecordOf(name, loop, 5, shut)
    ensures RecordOf(name, loop, 1, shut) == Conn(name, loop, Connecting, false, false, [WasAccepted])
  {
    assert LIFECYCLE[..1] == [WasAccepted];
    assert LIFECYCLE[..1] + [WasEstablished] == LIFECYCLE[..2];
    assert LIFECYCLE[..2] + [WasClosed] == LIFECYCLE[..3];
    assert LIFECYCLE[..3] + [WasErased] == LIFECYCLE[..4];
    assert LIFECYCLE[..4] + [WasDestroyed] == LIFECYCLE[..5];
  }

  lemma {:induction false} ShutDownStages(name: string, loop: LoopId, stage: nat, shut: bool)
    requires 1 <= stage <= 5
    ensures ShutDown(RecordOf(name, loop, stage, shut)) == RecordOf(name, loop, stage, shut || stage >= 3)
  {
  }

  // ---- what can happen is the same

  lemma PossibleIff(s: Server, l: Ledger, ev: Event)
    requires s.Valid() && Agrees(s, l)
    ensures Enabled(s, ev) <==> Possible(l, ev)
  {
    match ev
    case Accept(_) =>
    case RunTask(k) => assert s.Queue(k) == l.Queue(k);
    case BeginEvent(c) => assert ConnAgrees(s, l, c);
    case Close(k) =>
      if k in s.handling {
        assert ConnAgrees(s, l, s.handling[k]);
      }
    case EndEvent(_) =>
    case ShutdownCalled(c) => assert ConnAgrees(s, l, c);
  }

  // ---- each step is the entry

  ghost predicate SameEntry(l: Ledger, l1: Ledger, d: ConnId) {
    && (l1.Has(d) <==> l.Has(d))
    && (l.Has(d) ==> l1.loops[d - 1] == l.loops[d - 1] && l1.stages[d - 1] == l.stages[d - 1])
    && (d in l1.closed <==> d in l.closed) && (d in l1.shut <==> d in l.shut)
  }

  /** Only connection c changed on both sides, and it agrees. */
  lemma OneConnAgrees(s: Server, r: Server, l: Ledger, l1: Ledger, c: ConnId)
    requires Agrees(s, l) && r.name == s.name && r.ipPort == s.ipPort
    requires |l1.loops| == |l1.stages| && r.nextConnId == |l1.stages| + 1
    requires forall d :: d != c ==> SameConn(s, r, d) && SameEntry(l, l1, d)
    requires ConnAgrees(r, l1, c)
    requires forall k :: r.Queue(k) == l1.Queue(k)
    requires r.handling == l1.handlers
    ensures Agrees(r, l1)
  {
    forall d ensures ConnAgrees(r, l1, d) {
      assert ConnAgrees(s, l, d);
      assert d != c ==> SameConn(s, r, d) && SameEntry(l, l1, d);
    }
  }

  lemma MovedEntry(l: Ledger, l1: Ledger, c: ConnId, stage: nat)
    requires l.Has(c) && l1.loops == l.loops && l1.stages == l.stages[c - 1 := stage]
    requires l1.shut == l.shut && (l1.closed == l.closed || l1.closed == l.closed + {c})
    ensures forall d :: d != c ==> SameEntry(l, l1, d)
  {
  }

  lemma PostAgrees(s: Server, l: Ledger, r: Server, l1: Ledger, to: LoopId, t: Task)
    requires forall k :: s.Queue(k) == l.Queue(k)
    requires r.queues == s.queues[to := s.Queue(to) + [t]] && l1.queues == l.queues[to := l.Queue(to) + [t]]
    ensures forall k :: r.Queue(k) == l1.Queue(k)
  {
    assert s.Queue(to) == l.Queue(to);
    forall k ensures r.Queue(k) == l1.Queue(k) { assert s.Queue(k) == l.Queue(k); }
  }

  lemma AcceptOnBaseAgrees(s: Server, l: Ledger)
    requires Agrees(s, l)
    ensures Agrees(NewConnection(s, 0), Accepted(l, 0))
  {
    var c, r, l1 := s.nextConnId, NewConnection(s, 0), Accepted(l, 0);
    assert ConnAgrees(s, l, c);
    RecordStages(ConnName(s.name, s.ipPort, c), 0, false);
    forall j ensures r.Queue(j) == l1.Queue(j) { assert s.Queue(j) == l.Queue(j); }
    AddedEntry(l, l1, 0, 2);
    AddedConn(s, r, c);
    OneConnAgrees(s, r, l, l1, c);
  }

  lemma AcceptElsewhereAgrees(s: Server, l: Ledger, k: LoopId)
    requires Agrees(s, l) && k != 0
    ensures Agrees(NewConnection(s, k), Accepted(l, k))
  {
    var c, r, l1 := s.nextConnId, NewConnection(s, k), Accepted(l, k);
    assert ConnAgrees(s, l, c);
    RecordStages(ConnName(s.name, s.ipPort, c), k, false);
    PostAgrees(s, l, r, l1, k, Establish(c));
    AddedEntry(l, l1, k, 1);
    AddedConn(s, r, c);
    OneConnAgrees(s, r, l, l1, c);
  }

  lemma AddedEntry(l: Ledger, l1: Ledger, k: LoopId, stage: nat)
    requires |l.loops| == |l.stages| && l1.loops == l.loops + [k] && l1.stages == l.stages + [stage]
    requires l1.shut == l.shut && l1.closed == l.closed
    ensures forall d :: d != |l.stages| + 1 ==> SameEntry(l, l1, d)
  {
  }

  lemma AddedConn(s: Server, r: Server, c: ConnId)
    requires c in r.conns && r.conns == s.conns[c := r.conns[c]]
    ensures forall d :: d != c ==> SameConn(s, r, d)
  {
  }

  lemma CloseOnBaseAgrees(s: Server, l: Ledger, c: ConnId)
    requires Agrees(s, l) && l.Has(c) && c in s.conns && s.conns[c].loop == 0 && l.stages[c - 1] == 2
    ensures Agrees(HandleClose(s, c), ClosedAt(l, 0, c))
  {
    var r, l1 := HandleClose(s, c), ClosedAt(l, 0, c);
    assert ConnAgrees(s, l, c);
    RecordStages(ConnName(s.name, s.ipPort, c), 0, false);
    MovedEntry(l, l1, c, 4);
    AddedConn(s, r, c);
    PostAgrees(s, l, r, l1, 0, Destroy(c));
    OneConnAgrees(s, r, l, l1, c);
  }

  lemma CloseElsewhereAgrees(s: Server, l: Ledger, k: LoopId, c: ConnId)
    requires Agrees(s, l) && l.Has(c) && c in s.conns && s.conns[c].loop == k != 0 && l.stages[c - 1] == 2
    ensures Agrees(HandleClose(s, c), ClosedAt(l, k, c))
  {
    var r, l1 := HandleClose(s, c), ClosedAt(l, k, c);
    assert ConnAgrees(s, l, c);
    RecordStages(ConnName(s.name, s.ipPort, c), k, false);
    MovedEntry(l, l1, c, 3);
    AddedConn(s, r, c);
    PostAgrees(s, l, r, l1, 0, Remove(c));
    OneConnAgrees(s, r, l, l1, c);
  }

  lemma ShutdownAgrees(s: Server, l: Ledger, c: ConnId)
    requires Agrees(s, l) && c in s.conns && l.Has(c)
    ensures Agrees(Shutdown(s, c), Enter(l, ShutdownCalled(c)))
  {
    var r, l1 := Shutdown(s, c), Enter(l, ShutdownCalled(c));
    assert ConnAgrees(s, l, c);
    ShutDownStages(ConnName(s.name, s.ipPort, c), l.loops[c - 1], l.stages[c - 1], c in l.shut);
    AddedConn(s, r, c);
    assert forall d :: d != c ==> SameEntry(l, l1, d);
    forall k ensures r.Queue(k) == l1.Queue(k) { assert s.Queue(k) == l.Queue(k); }
    OneConnAgrees(s, r, l, l1, c);
  }

  /** The oldest task of a loop, and the stage its connection is at. */
  lemma OldestTask(s: Server, l: Ledger, k: LoopId)
    requires s.Valid() && Agrees(s, l) && s.Queue(k) != []
    ensures l.Queue(k) == s.Queue(k)
    ensures var t := s.Queue(k)[0];
      t.conn in s.conns && l.Has(t.conn) && l.stages[t.conn - 1] == match t case Establish(_) => 1 case Remove(_) => 3 case Destroy(_) => 4
  {
    var t := s.Queue(k)[0];
    assert t in s.Queue(k);
    NotOwedNotQueued(s, t.conn, k, t);
    assert ConnAgrees(s, l, t.conn) && s.Queue(k) == l.Queue(k);
  }

  lemma TakenAgrees(s: Server, l: Ledger, k: LoopId)
    requires Agrees(s, l) && s.Queue(k) != [] && l.Queue(k) == s.Queue(k)
    ensures var s1, l1 := s.(queues := s.queues[k := s.Queue(k)[1..]]), l.(queues := l.queues[k := l.Queue(k)[1..]]);
      forall j :: s1.Queue(j) == l1.Queue(j)
  {
    var s1, l1 := s.(queues := s.queues[k := s.Queue(k)[1..]]), l.(queues := l.queues[k := l.Queue(k)[1..]]);
    forall j ensures s1.Queue(j) == l1.Queue(j) { assert s.Queue(j) == l.Queue(j); }
  }

  lemma LoneTaskAgrees(s: Server, l: Ledger, k: LoopId)
    requires s.Valid() && Agrees(s, l) && s.Queue(k) != [] && !s.Queue(k)[0].Remove? && s.Queue(k)[0].conn in s.conns
    ensures l.Queue(k) != [] && Agrees(Execute(s.(queues := s.queues[k := s.Queue(k)[1..]]), s.Queue(k)[0]), TaskRun(l, k))
  {
    OldestTask(s, l, k);
    var t, c := s.Queue(k)[0], s.Queue(k)[0].conn;
    var s1 := s.(queues := s.queues[k := s.Queue(k)[1..]]);
    var r, l1 := Execute(s1, t), TaskRun(l, k);
    assert ConnAgrees(s, l, c);
    TakenAgrees(s, l, k);
    RecordStages(ConnName(s.name, s.ipPort, c), l.loops[c - 1], c in l.shut);
    MovedEntry(l, l1, c, if t.Establish? then 2 else 5);
    AddedConn(s, r, c);
    var l0 := l.(queues := l.queues[k := l.Queue(k)[1..]]);
    forall j ensures r.Queue(j) == l1.Queue(j) { assert s1.Queue(j) == l0.Queue(j); }
    OneConnAgrees(s, r, l, l1, c);
  }

  lemma RemoveTaskAgrees(s: Server, l: Ledger, k: LoopId)
    requires s.Valid() && Agrees(s, l) && s.Queue(k) != [] && s.Queue(k)[0].Remove? && s.Queue(k)[0].conn in s.conns
    ensures l.Queue(k) != [] && Agrees(Execute(s.(queues := s.queues[k := s.Queue(k)[1..]]), s.Queue(k)[0]), TaskRun(l, k))
  {
    OldestTask(s, l, k);
    var c := s.Queue(k)[0].conn;
    var s1, l0 := s.(queues := s.queues[k := s.Queue(k)[1..]]), l.(queues := l.queues[k := l.Queue(k)[1..]]);
    var r, l1 := RemoveConnectionInLoop(s1, c), TaskRun(l, k);
    assert ConnAgrees(s, l, c);
    TakenAgrees(s, l, k);
    RecordStages(ConnName(s.name, s.ipPort, c), l.loops[c - 1], c in l.shut);
    MovedEntry(l, l1, c, 4);
    AddedConn(s, r, c);
    PostAgrees(s1, l0, r, l1, l.loops[c - 1], Destroy(c));
    OneConnAgrees(s, r, l, l1, c);
  }

  lemma HandlersAgree(s: Server, l: Ledger, r: Server, l1: Ledger)
    requires Agrees(s, l) && r == s.(handling := r.handling) && l1 == l.(handlers := l1.handlers) && r.handling == l1.handlers
    ensures Agrees(r, l1)
  {
    forall c ensures ConnAgrees(r, l1, c) { assert ConnAgrees(s, l, c); }
    forall k ensures r.Queue(k) == l1.Queue(k) { assert s.Queue(k) == l.Queue(k); }
  }

  lemma StepAgrees(s: Server, l: Ledger, ev: Event)
    requires s.Valid() && Agrees(s, l) && Enabled(s, ev)
    ensures Supported(s, ev) && Possible(l, ev) && Agrees(Step(s, ev), Enter(l, ev))
  {
    ValidSupports(s, ev);
    PossibleIff(s, l, ev);
    match ev
    case Accept(k) =>
      if k == 0 {
        AcceptOnBaseAgrees(s, l);
      } else {
        AcceptElsewhereAgrees(s, l, k);
      }
    case RunTask(k) =>
      if s.Queue(k)[0].Remove? {
        RemoveTaskAgrees(s, l, k);
      } else {
        LoneTaskAgrees(s, l, k);
      }
    case BeginEvent(c) =>
      assert ConnAgrees(s, l, c);
      HandlersAgree(s, l, Step(s, ev), Enter(l, ev));
    case Close(k) =>
      assert s.HandlerValid(k);
      if k == 0 {
        CloseOnBaseAgrees(s, l, s.handling[0]);
      } else {
        CloseElsewhereAgrees(s, l, k, s.handling[k]);
      }
    case EndEvent(_) => HandlersAgree(s, l, Step(s, ev), Enter(l, ev));
    case ShutdownCalled(c) => ShutdownAgrees(s, l, c);
  }

  lemma {:induction false} RunAgrees(s: Server, l: Ledger, evs: seq<Event>)
    requires s.Valid() && Agrees(s, l)
    ensures Agrees(Run(s, evs), Keep(l, evs))
    decreases |evs|
  {
    if evs != [] {
      PossibleIff(s, l, evs[0]);
      NextKeepsValid(s, evs[0]);
      if Enabled(s, evs[0]) {
        StepAgrees(s, l, evs[0]);
        RunAgrees(Next(s, evs[0]), Enter(l, evs[0]), evs[1..]);
      } else {
        RunAgrees(s, l, evs[1..]);
      }
    }
  }

  lemma StartAgrees(name: string, ipPort: string)
    requires |ipPort| <= MAX_IP_PORT
    ensures Start(name, ipPort).Valid() && Agrees(Start(name, ipPort), EMPTY)
  {
    StartIsValid(name, ipPort);
    var s := Start(name, ipPort);
    forall c ensures ConnAgrees(s, EMPTY, c) { }
    forall k ensures s.Queue(k) == EMPTY.Queue(k) { }
  }

  /**
   For every schedule: there are as many connections as accepts that could happen, numbered from 1, each
   on the loop of its accept and in the state, interest, registration and history of its stage in the
   ledger; the queues and the running handlers are the ledger's; and a connection was closed if and
   only if a close came while its own handler ran.
   */
  lemma LivesFollowLedger(name: string, ipPort: string, evs: seq<Event>)
    requires |ipPort| <= MAX_IP_PORT
    ensures Start(name, ipPort).Valid()
    ensures var s, l := Run(Start(name, ipPort), evs), Keep(EMPTY, evs);
      && Agrees(s, l)
      && (forall c :: c in s.conns ==> (WasClosed in s.conns[c].life <==> c in l.closed))
  {
    StartAgrees(name, ipPort);
    RunAgrees(Start(name, ipPort), EMPTY, evs);
    var s, l := Run(Start(name, ipPort), evs), Keep(EMPTY, evs);
    forall c | c in s.conns ensures WasClosed in s.conns[c].life <==> c in l.closed {
      assert ConnAgrees(s, l, c) && s.ConnValid(c);
      MarksByLength(s.conns[c]);
    }
  }

  /** A close, wherever it can happen: the channel is no longer watched and the next task is queued behind the others. */
  lemma CloseCloses(s: Server, k: LoopId)
    requires s.Valid() && Enabled(s, Close(k))
    ensures Supported(s, Close(k))
    ensures var c, r := s.handling[k], Step(s, Close(k));
      && c in r.conns && !r.conns[c].interest && r.conns[c].state.Disconnected? && r.conns[c].registered
      && r.Queue(0) == s.Queue(0) + [if k == 0 then Destroy(c) else Remove(c)]
      && (k == 0 <==> r.conns[c].name !in r.connections)
  {
    ValidSupports(s, Close(k));
    StepKeepsValid(s, Close(k));
    var c, r := s.handling[k], Step(s, Close(k));
    assert s.HandlerValid(k) && s.ConnValid(c) && r.ConnValid(c);
  }
}
