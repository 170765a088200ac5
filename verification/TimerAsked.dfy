/** When timers run, against the times their creators asked for. */
module TimerAsked {
  import opened Wrappers
  import opened TimerSteps
  import opened TimerRuns

  datatype Ask = Ask(when: int, interval: int)

  /** The creations of a run, in order, behind those already made: the k-th is that of sequence number k. */
  function AskedAfter(q: Queue, asked: seq<Ask>, evs: seq<Event>): seq<Ask>
    requires q.Valid()
    decreases |evs|
  {
    if evs == [] then asked
    else if Enabled(q, evs[0]) then
      StepKeepsValid(q, evs[0]);
      AskedAfter(Step(q, evs[0]), asked + AskedBy(evs[0]), evs[1..])
    else AskedAfter(q, asked, evs[1..])
  }

  function AskedBy(ev: Event): seq<Ask> {
    if ev.New? then [Ask(ev.when, ev.interval)] else []
  }

  /** The last run of the timer with sequence number k. */
  function LastOf(ran: seq<Firing>, k: nat): (f: Option<Firing>)
    ensures f.Some? ==> f.value in ran && f.value.id.sequence == k
  {
    if ran == [] then None
    else if ran[|ran| - 1].id.sequence == k then Some(ran[|ran| - 1])
    else LastOf(ran[..|ran| - 1], k)
  }

  /** When a timer is next to run: at the time asked for, and then one interval after the clock of its last run. */
  function NextDue(ask: Ask, last: Option<Firing>): int {
    match last
    case None => ask.when
    case Some(f) => f.now + ask.interval
  }

  /** A timer that last ran so may run again only if it was asked to repeat. */
  predicate MayRun(ask: Ask, last: Option<Firing>) { last.Some? ==> ask.interval > 0 }

  /** The i-th run was due when it was asked for, and is the first unless it was asked to repeat. */
  ghost predicate DueAsAsked(ran: seq<Firing>, asked: seq<Ask>, i: nat)
    requires i < |ran|
  {
    var k := ran[i].id.sequence;
    && 0 < k <= |asked|
    && var ask, last := asked[k - 1], LastOf(ran[..i], k);
    && ran[i].due == NextDue(ask, last) && MayRun(ask, last)
  }

  ghost predicate AllDueAsAsked(ran: seq<Firing>, asked: seq<Ask>) {
    forall i :: 0 <= i < |ran| ==> DueAsAsked(ran, asked, i)
  }

  /** The live timer at a is set for the time it is next to run, or has just run in the batch that holds it. */
  ghost predicate SetAsAsked(q: Queue, asked: seq<Ask>, a: Addr)
    requires a in q.heap
  {
    var t := q.heap[a];
    && 0 < t.sequence <= |asked| && t.interval == asked[t.sequence - 1].interval
    && if q.EntryAt(a) in CalledHeld(q) then
         var last := LastOf(q.ran, t.sequence);
         last.Some? && !q.phase.Idle? && last.value.now == q.phase.now
       else
         var ask, last := asked[t.sequence - 1], LastOf(q.ran, t.sequence);
         t.expiration == NextDue(ask, last) && MayRun(ask, last)
  }

  ghost predicate Timely(q: Queue, asked: seq<Ask>) {
    && |asked| == q.numCreated && AllDueAsAsked(q.ran, asked)
    && forall a :: a in q.heap ==> SetAsAsked(q, asked, a)
  }

  lemma {:induction false} NeverRan(ran: seq<Firing>, k: nat)
    requires forall i :: 0 <= i < |ran| ==> ran[i].id.sequence < k
    ensures LastOf(ran, k) == None
  {
    if ran != [] {
      NeverRan(ran[..|ran| - 1], k);
    }
  }

  lemma MoreAskedFor(ran: seq<Firing>, asked: seq<Ask>, more: seq<Ask>)
    requires AllDueAsAsked(ran, asked)
    ensures AllDueAsAsked(ran, asked + more)
  {
    forall i | 0 <= i < |ran| ensures DueAsAsked(ran, asked + more, i) {
      assert DueAsAsked(ran, asked, i);
    }
  }

  lemma NewKeepsTimely(q: Queue, a: Addr, when: int, interval: int, asked: seq<Ask>)
    requires q.Valid() && Timely(q, asked) && a !in q.heap
    ensures Timely(NewTimer(q, a, when, interval), asked + [Ask(when, interval)])
  {
    var r, asked1 := NewTimer(q, a, when, interval), asked + [Ask(when, interval)];
    MoreAskedFor(q.ran, asked, [Ask(when, interval)]);
    NewKeepsValid(q, a, when, interval);
    assert CalledHeld(r) == CalledHeld(q) && r.Held() == q.Held();
    forall b | b in r.heap ensures SetAsAsked(r, asked1, b) {
      if b == a {
        forall i | 0 <= i < |q.ran| ensures q.ran[i].id.sequence < q.numCreated + 1 { assert DueAsAsked(q.ran, asked, i); }
        NeverRan(q.ran, q.numCreated + 1);
        assert r.Local(a) && forall e :: e in CalledHeld(r) ==> e in r.Held();
      } else {
        assert SetAsAsked(q, asked, b);
      }
    }
  }

  /** Nothing about the timers that are left has changed. */
  lemma SameTimersAreTimely(q: Queue, r: Queue, asked: seq<Ask>)
    requires Timely(q, asked) && r.numCreated == q.numCreated && r.ran == q.ran
    requires forall a :: a in r.heap ==> a in q.heap && r.heap[a] == q.heap[a]
    requires forall a :: a in r.heap ==> (r.EntryAt(a) in CalledHeld(r) <==> q.EntryAt(a) in CalledHeld(q))
    requires CalledHeld(r) != [] ==> !r.phase.Idle? && !q.phase.Idle? && r.phase.now == q.phase.now
    ensures Timely(r, asked)
  {
    forall a | a in r.heap ensures SetAsAsked(r, asked, a) { assert SetAsAsked(q, asked, a); }
  }

  lemma UserStepKeepsTimely(q: Queue, ev: Event, asked: seq<Ask>)
    requires q.Valid() && Enabled(q, ev) && Timely(q, asked) && (ev.Add? || ev.Cancel?)
    ensures Timely(Step(q, ev), asked)
  {
    UserStepKeepsFiring(q, ev);
    var r := Step(q, ev);
    assert ev.Add? ==> q.Local(ev.addr);
    assert r.Held() == q.Held() && CalledHeld(r) == CalledHeld(q);
    SameTimersAreTimely(q, r, asked);
  }

  lemma BeginKeepsTimely(q: Queue, now: Clock, consumed: bool, asked: seq<Ask>)
    requires q.Valid() && q.phase.Idle? && Timely(q, asked)
    ensures Timely(BeginRead(q, now, consumed), asked)
  {
    assert CalledHeld(q) == [] && CalledHeld(BeginRead(q, now, consumed)) == [];
    SameTimersAreTimely(q, BeginRead(q, now, consumed), asked);
  }

  /** One more run, of a timer that is set as asked. */
  lemma OneMoreRun(ran: seq<Firing>, f: Firing, asked: seq<Ask>)
    requires AllDueAsAsked(ran, asked) && 0 < f.id.sequence <= |asked|
    requires f.due == NextDue(asked[f.id.sequence - 1], LastOf(ran, f.id.sequence))
    requires MayRun(asked[f.id.sequence - 1], LastOf(ran, f.id.sequence))
    ensures AllDueAsAsked(ran + [f], asked)
    ensures forall k :: LastOf(ran + [f], k) == if k == f.id.sequence then Some(f) else LastOf(ran, k)
  {
    var ran1 := ran + [f];
    assert ran1[..|ran|] == ran;
    forall i | 0 <= i < |ran1| ensures DueAsAsked(ran1, asked, i) {
      assert ran1[..i] == ran[..i];
      assert i < |ran| ==> DueAsAsked(ran, asked, i);
      assert ran[..|ran|] == ran;
    }
  }

  /** Which of the batch is called next, and that it was not called yet. */
  lemma NextCalled(q: Queue)
    requires q.Valid() && q.phase.Calling? && q.phase.next < |q.phase.batch|
    ensures var e := q.phase.batch[q.phase.next];
      && e.addr in q.heap && e == q.EntryAt(e.addr) && e !in CalledHeld(q)
      && CalledHeld(CallNext(q)) == CalledHeld(q) + [e]
  {
    var Calling(batch, k, now) := q.phase;
    var e := batch[k];
    assert e in q.Held() && e == Entry(e.when, e.addr) && q.Local(e.addr);
    assert batch[..k + 1] == batch[..k] + [e];
    forall i | 0 <= i < k ensures batch[i] != e { assert Less(q.Held()[i], q.Held()[k]); }
  }

  lemma CallKeepsTimely(q: Queue, asked: seq<Ask>)
    requires q.Valid() && q.phase.Calling? && q.phase.next < |q.phase.batch| && Timely(q, asked)
    ensures Timely(CallNext(q), asked)
  {
    NextCalled(q);
    var r, e := CallNext(q), q.phase.batch[q.phase.next];
    var t := q.heap[e.addr];
    assert SetAsAsked(q, asked, e.addr);
    OneMoreRun(q.ran, r.ran[|q.ran|], asked);
    forall a | a in r.heap ensures SetAsAsked(r, asked, a) {
      assert SetAsAsked(q, asked, a);
      assert a != e.addr ==> q.heap[a].sequence != t.sequence;
    }
  }

  lemma CallsEndKeepsTimely(q: Queue, asked: seq<Ask>)
    requires q.Valid() && q.phase.Calling? && q.phase.next == |q.phase.batch| && Timely(q, asked)
    ensures Timely(CallNext(q), asked)
  {
    var batch := q.phase.batch;
    assert batch[..|batch|] == batch && batch[0..] == batch;
    SameTimersAreTimely(q, CallNext(q), asked);
  }

  lemma HeldShrinks(q: Queue, clock: Clock)
    requires q.Valid() && q.phase.Resetting? && q.phase.next < |q.phase.batch|
    ensures var r, e := ResetNext(q, clock), q.phase.batch[q.phase.next];
      CalledHeld(q) == [e] + CalledHeld(r) && e.addr in q.heap && e == q.EntryAt(e.addr)
  {
    var e := q.phase.batch[q.phase.next];
    RecycleChangesOneTimer(q, clock);
    assert q.Held() == [e] + ResetNext(q, clock).Held() && e == Entry(e.when, e.addr) && q.Local(e.addr);
  }

  lemma OtherStaysSet(q: Queue, clock: Clock, asked: seq<Ask>, a: Addr)
    requires q.Valid() && q.phase.Resetting? && q.phase.next < |q.phase.batch| && a != q.phase.batch[q.phase.next].addr
    requires a in q.heap && SetAsAsked(q, asked, a)
    ensures a in ResetNext(q, clock).heap && SetAsAsked(ResetNext(q, clock), asked, a)
  {
    RecycleChangesOneTimer(q, clock);
    ResetKeepsFiring(q, clock);
    HeldShrinks(q, clock);
    StaysSet(q, ResetNext(q, clock), asked, a);
  }

  lemma StaysSet(q: Queue, r: Queue, asked: seq<Ask>, a: Addr)
    requires a in q.heap && a in r.heap && r.heap[a] == q.heap[a] && r.ran == q.ran && SetAsAsked(q, asked, a)
    requires r.EntryAt(a) in CalledHeld(r) <==> q.EntryAt(a) in CalledHeld(q)
    requires !q.phase.Idle? && !r.phase.Idle? && r.phase.now == q.phase.now
    ensures SetAsAsked(r, asked, a)
  {
  }

  lemma RecycledIsSet(q: Queue, clock: Clock, asked: seq<Ask>)
    requires q.Valid() && q.phase.Resetting? && q.phase.next < |q.phase.batch|
    requires var a := q.phase.batch[q.phase.next].addr; a in q.heap && SetAsAsked(q, asked, a)
    ensures var r, a := ResetNext(q, clock), q.phase.batch[q.phase.next].addr; a in r.heap ==> SetAsAsked(r, asked, a)
  {
    RecycleChangesOneTimer(q, clock);
    ResetKeepsFiring(q, clock);
    HeldShrinks(q, clock);
    NotHeldAnyMore(q, clock);
    GoneOrRestarted(q, clock);
  }

  lemma GoneOrRestarted(q: Queue, clock: Clock)
    requires q.Valid() && q.phase.Resetting? && q.phase.next < |q.phase.batch|
    ensures var r, e := ResetNext(q, clock), q.phase.batch[q.phase.next];
      e.addr in q.heap && (e.addr in r.heap <==> Repeats(q, e))
  {
    var e := q.phase.batch[q.phase.next];
    assert e == q.Held()[0] == Entry(e.when, e.addr) && q.Local(e.addr);
  }

  lemma RecycleKeepsTimely(q: Queue, clock: Clock, asked: seq<Ask>)
    requires q.Valid() && q.phase.Resetting? && q.phase.next < |q.phase.batch| && Timely(q, asked)
    ensures Timely(ResetNext(q, clock), asked)
  {
    var r, e := ResetNext(q, clock), q.phase.batch[q.phase.next];
    RecycleChangesOneTimer(q, clock);
    ResetKeepsFiring(q, clock);
    forall a | a in r.heap ensures SetAsAsked(r, asked, a) {
      if a == e.addr {
        RecycledIsSet(q, clock, asked);
      } else {
        OtherStaysSet(q, clock, asked, a);
      }
    }
  }

  lemma NotHeldAnyMore(q: Queue, clock: Clock)
    requires q.Valid() && q.phase.Resetting? && q.phase.next < |q.phase.batch|
    ensures var r, a := ResetNext(q, clock), q.phase.batch[q.phase.next].addr;
      a in r.heap ==> r.EntryAt(a) !in r.Held()
  {
    var r, e := ResetNext(q, clock), q.phase.batch[q.phase.next];
    RecycleChangesOneTimer(q, clock);
    assert q.Held() == [e] + r.Held();
    if e.addr in r.heap && r.EntryAt(e.addr) in r.Held() {
      var i :| 0 <= i < |r.Held()| && r.Held()[i] == r.EntryAt(e.addr);
      HeldAreApart(q, 0, i + 1);
      assert false;
    }
  }

  lemma StepKeepsTimely(q: Queue, ev: Event, asked: seq<Ask>)
    requires q.Valid() && Enabled(q, ev) && Timely(q, asked)
    ensures Timely(Step(q, ev), asked + AskedBy(ev))
  {
    assert asked + [] == asked;
    if ev.New? {
      NewKeepsTimely(q, ev.addr, ev.when, ev.interval, asked);
    } else if ev.Fire? {
      BeginKeepsTimely(q, ev.clock, ev.consumed, asked);
    } else if ev.Call? {
      if q.phase.next < |q.phase.batch| {
        CallKeepsTimely(q, asked);
      } else {
        CallsEndKeepsTimely(q, asked);
      }
    } else if !ev.Reset? {
      UserStepKeepsTimely(q, ev, asked);
    } else if q.phase.next < |q.phase.batch| {
      RecycleKeepsTimely(q, ev.clock, asked);
    } else {
      assert q.Held() == [];
      SameTimersAreTimely(q, Step(q, ev), asked);
    }
  }

  lemma {:induction false} RunKeepsTimely(q: Queue, asked: seq<Ask>, evs: seq<Event>)
    requires q.Valid() && Timely(q, asked)
    ensures Timely(Run(q, evs), AskedAfter(q, asked, evs))
    decreases |evs|
  {
    if evs != [] {
      if Enabled(q, evs[0]) {
        StepKeepsTimely(q, evs[0], asked);
        StepKeepsValid(q, evs[0]);
        RunKeepsTimely(Step(q, evs[0]), asked + AskedBy(evs[0]), evs[1..]);
      } else {
        RunKeepsTimely(q, asked, evs[1..]);
      }
    }
  }

  /**
   Over every run: the first run of a timer is due at the time its creator asked for, each later one
   one interval after the clock of the one before, only timers asked to repeat run again, and none
   runs before it is due.
   */
  lemma RunsAreAsAsked(evs: seq<Event>)
    ensures INIT.Valid()
    ensures var ran, asked := Run(INIT, evs).ran, AskedAfter(INIT, [], evs);
      AllDueAsAsked(ran, asked) && forall i :: 0 <= i < |ran| ==> ran[i].due <= ran[i].now
  {
    InitIsValid();
    RunKeepsTimely(INIT, [], evs);
    FiringsAreInOrder(evs);
  }

  lemma {:induction false} AskedTimeIsPast(ran: seq<Firing>, asked: seq<Ask>, i: nat)
    requires i < |ran| && AllDueAsAsked(ran, asked) && forall j :: 0 <= j < |ran| ==> ran[j].due <= ran[j].now
    ensures var k := ran[i].id.sequence; 0 < k <= |asked| && asked[k - 1].when <= ran[i].now
    decreases i
  {
    assert DueAsAsked(ran, asked, i);
    var last := LastOf(ran[..i], ran[i].id.sequence);
    if last.Some? {
      var j :| 0 <= j < i && ran[..i][j] == last.value;
      AskedTimeIsPast(ran, asked, j);
    }
  }

  /** In particular no timer ever runs before the time asked for. */
  lemma NoneIsEarly(evs: seq<Event>)
    ensures INIT.Valid()
    ensures var ran, asked := Run(INIT, evs).ran, AskedAfter(INIT, [], evs);
      forall i :: 0 <= i < |ran| ==> 0 < ran[i].id.sequence <= |asked| && asked[ran[i].id.sequence - 1].when <= ran[i].now
  {
    RunsAreAsAsked(evs);
    var ran, asked := Run(INIT, evs).ran, AskedAfter(INIT, [], evs);
    forall i | 0 <= i < |ran| ensures 0 < ran[i].id.sequence <= |asked| && asked[ran[i].id.sequence - 1].when <= ran[i].now {
      AskedTimeIsPast(ran, asked, i);
    }
  }
}
