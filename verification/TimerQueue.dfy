/** TimerQueue as the object the event loop owns, proved against the step system. */
module TimerQueueObject {
  import opened Wrappers
  import opened TimerSteps
  import opened TimerRuns
  import opened TimerReturns

  predicate IsRequest(ev: Event) { ev.New? || ev.Add? || ev.Cancel? }

  function EventsAt(evs: seq<seq<Event>>, k: nat): seq<Event> {
    if k < |evs| then evs[k] else []
  }

  /** The callback loop from the i-th of n due timers on: evs[k] is requested during the k-th callback. */
  function Callbacks(evs: seq<seq<Event>>, i: nat, n: nat): seq<Event>
    decreases n - i
  {
    if n <= i then [] else [Call] + EventsAt(evs, i) + Callbacks(evs, i + 1, n)
  }

  /** reset()'s loop from the i-th of n timers on: evs[k] is created elsewhere behind the k-th. */
  function Resets(evs: seq<seq<Event>>, i: nat, n: nat, clock: Clock): seq<Event>
    decreases n - i
  {
    if n <= i then [] else [Reset(clock)] + EventsAt(evs, i) + Resets(evs, i + 1, n, clock)
  }

  /**
   What happens during a handleRead: other threads' creations before the first callback, the
   requests of callbacks and of other threads meanwhile, and other threads' creations before and
   during reset().
   */
  datatype Meanwhile = Meanwhile(atStart: seq<Event>, inCallbacks: seq<seq<Event>>, beforeReset: seq<Event>, inReset: seq<seq<Event>>)

  ghost predicate Requests(evs: seq<Event>) { forall i :: 0 <= i < |evs| ==> IsRequest(evs[i]) }
  ghost predicate Creations(evs: seq<Event>) { forall i :: 0 <= i < |evs| ==> evs[i].New? }

  ghost predicate Possible(m: Meanwhile) {
    && Creations(m.atStart) && Creations(m.beforeReset)
    && (forall k :: 0 <= k < |m.inCallbacks| ==> Requests(m.inCallbacks[k]))
    && (forall k :: 0 <= k < |m.inReset| ==> Creations(m.inReset[k]))
  }

  function HandleReadScript(now: Clock, consumed: bool, m: Meanwhile, n: nat, clock: Clock): seq<Event> {
    [Fire(now, consumed)] + m.atStart + Callbacks(m.inCallbacks, 0, n)
      + ([Call] + m.beforeReset + (Resets(m.inReset, 0, n, clock) + [Reset(clock)]))
  }

  lemma OneThen(q: Queue, ev: Event, a: seq<Event>, b: seq<Event>)
    requires q.Valid() && Enabled(q, ev)
    ensures Step(q, ev).Valid() && Run(q, [ev] + a + b) == Run(Run(Step(q, ev), a), b)
  {
    StepKeepsValid(q, ev);
    RunOne(q, ev);
    RunAppend(q, [ev], a);
    RunAppend(q, [ev] + a, b);
  }

  lemma TimersAreLive(q: Queue)
    requires q.Valid()
    ensures forall e :: e in q.timers ==> e.addr in q.heap
  {
    forall e | e in q.timers ensures e.addr in q.heap {
      assert e == Entry(e.when, e.addr) && q.Local(e.addr);
    }
  }

  /** Creations elsewhere leave the timer at a and the active timers alone. */
  lemma {:induction false} NewTimersKeep(q: Queue, evs: seq<Event>, a: Addr)
    requires q.Valid() && a in q.heap && Creations(evs)
    ensures var r := Run(q, evs); a in r.heap && r.heap[a] == q.heap[a] && r.active == q.active
    decreases |evs|
  {
    if evs != [] {
      if Enabled(q, evs[0]) {
        StepKeepsValid(q, evs[0]);
        NewTimersKeep(Step(q, evs[0]), evs[1..], a);
      } else {
        NewTimersKeep(q, evs[1..], a);
      }
    }
  }

  class TimerQueue {
    var heap: map<Addr, Timer>
    var numCreated: nat
    var posted: set<Addr>
    var timers: seq<Entry>
    var activeTimers: set<TimerId>
    var cancelingTimers: set<TimerId>
    var callingExpiredTimers: bool
    var deadline: Option<int>
    var lastArmed: int
    ghost var phase: Phase
    ghost var batches: nat
    ghost var ran: seq<Firing>

    ghost function State(): Queue
      reads this
    {
      Queue(heap, numCreated, posted, timers, activeTimers, cancelingTimers, phase, batches, deadline, lastArmed, ran)
    }

    ghost predicate Valid()
      reads this
    {
      State().Valid() && callingExpiredTimers == phase.Calling?
    }

    constructor ()
      ensures Valid() && State() == INIT
    {
      heap, numCreated, posted, timers := map[], 0, {}, [];
      activeTimers, cancelingTimers, callingExpiredTimers := {}, {}, false;
      deadline, lastArmed, phase, batches, ran := None, 0, Idle, 0, [];
      new;
      InitIsValid();
    }

    /** addTimer up to its return, on any thread. */
    method NewTimer(a: Addr, when: int, interval: int)
      requires Valid() && a !in heap
      modifies this
      ensures Valid() && State() == TimerSteps.NewTimer(old(State()), a, when, interval)
    {
      NewKeepsValid(State(), a, when, interval);
      numCreated := numCreated + 1;
      heap := heap[a := Timer(when, interval, numCreated)];
      posted := posted + {a};
    }

    /** The return of addTimer: what it reads at the address, which the loop may have freed meanwhile. */
    method ReturnId(a: Addr) returns (id: Option<TimerId>)
      ensures id == ReadBack(State(), a)
    {
      if a in heap {
        return Some(TimerId(a, heap[a].sequence));
      }
      return None;
    }

    /** The whole of addTimer on the loop thread; other threads' requests come before its return. */
    method AddTimer(a: Addr, when: int, interval: int, clock: Clock, others: seq<Event>) returns (id: Option<TimerId>)
      requires Valid() && a !in heap && !phase.Resetting? && Creations(others)
      modifies this
      ensures Valid() && phase == old(phase)
      ensures id == Some(TimerId(a, old(numCreated) + 1)) && id.value in activeTimers
    {
      NewTimer(a, when, interval);
      AddTimerInLoop(a, clock);
      ghost var q := State();
      NewTimersKeep(q, others, a);
      Serve(others);
      id := ReturnId(a);
    }

    method Insert(a: Addr) returns (earliestChanged: bool)
      requires a in heap
      modifies this`timers, this`activeTimers
      ensures (State(), earliestChanged) == TimerSteps.Insert(old(State()), a)
    {
      earliestChanged := false;
      var when := heap[a].expiration;
      if timers == [] || when < timers[0].when {
        earliestChanged := true;
      }
      timers := InsertEntry(timers, Entry(when, a));
      activeTimers := activeTimers + {TimerId(a, heap[a].sequence)};
    }

    method Arm(when: int, clock: Clock)
      modifies this`deadline, this`lastArmed
      ensures State() == ResetTimerfd(old(State()), when, clock)
    {
      var ts := HowMuchTimeFromNow(when, clock);
      deadline := Some(clock + ts.sec * MICROS_PER_SECOND + ts.nsec / 1000);
      lastArmed := clock;
    }

    method AddTimerInLoop(a: Addr, clock: Clock)
      requires Valid() && a in posted && !phase.Resetting?
      modifies this
      ensures Valid() && a in old(heap) && State() == TimerSteps.AddTimerInLoop(old(State()), a, clock)
    {
      AddKeepsValid(State(), a, clock);
      posted := posted - {a};
      var earliestChanged := Insert(a);
      if earliestChanged {
        Arm(heap[a].expiration, clock);
      }
    }

    method CancelInLoop(id: TimerId)
      requires Valid() && !phase.Resetting?
      modifies this
      ensures Valid() && State() == TimerSteps.CancelInLoop(old(State()), id)
    {
      CancelKeepsValid(State(), id);
      assert State().Local(id.addr) && id == TimerId(id.addr, id.sequence);
      if id in activeTimers {
        timers := EraseEntry(timers, Entry(heap[id.addr].expiration, id.addr));
        heap := heap - {id.addr};
        activeTimers := activeTimers - {id};
      } else if callingExpiredTimers {
        cancelingTimers := cancelingTimers + {id};
      }
    }

    /** Requests of callbacks and of other threads, in the order the loop or the allocator sees them. */
    method Serve(evs: seq<Event>)
      requires Valid() && Requests(evs) && (phase.Resetting? ==> Creations(evs))
      modifies this
      ensures Valid() && State() == Run(old(State()), evs) && phase == old(phase)
    {
      ghost var q := State();
      var i := 0;
      while i < |evs|
        invariant 0 <= i <= |evs| && Valid() && phase == old(phase)
        invariant Run(q, evs) == Run(State(), evs[i..])
      {
        ghost var before := State();
        assert evs[i..][0] == evs[i] && evs[i..][1..] == evs[i + 1..];
        match evs[i] {
          case New(a, when, interval) =>
            if a !in heap {
              NewTimer(a, when, interval);
            }
          case Add(a, clock) =>
            if a in posted {
              AddTimerInLoop(a, clock);
            }
          case Cancel(id) =>
            CancelInLoop(id);
        }
        assert Run(before, evs[i..]) == Run(State(), evs[i + 1..]);
        i := i + 1;
      }
    }

    method GetExpired(now: Clock) returns (expired: seq<Entry>)
      requires forall e :: e in timers ==> e.addr in heap
      modifies this`timers, this`activeTimers
      ensures expired == old(timers)[..LowerBound(old(timers), now)]
      ensures timers == old(timers)[LowerBound(old(timers), now)..]
      ensures activeTimers == old(activeTimers) - BatchIds(heap, expired)
    {
      var end := LowerBound(timers, now);
      expired := timers[..end];
      timers := timers[end..];
      var i := 0;
      while i < |expired|
        invariant 0 <= i <= |expired| && timers == old(timers)[end..]
        invariant activeTimers == old(activeTimers) - BatchIds(heap, expired[..i])
      {
        assert expired[..i + 1] == expired[..i] + [expired[i]];
        activeTimers := activeTimers - {TimerId(expired[i].addr, heap[expired[i].addr].sequence)};
        i := i + 1;
      }
      assert expired[..i] == expired;
    }

    /** The body of reset()'s loop. */
    method RecycleOne(expired: seq<Entry>, i: nat, now: Clock, ghost clock: Clock)
      requires Valid() && phase == Resetting(expired, i, now) && i < |expired|
      modifies this
      ensures Valid() && phase == Resetting(expired, i + 1, now)
      ensures State() == ResetNext(old(State()), clock)
    {
      ResetKeepsValid(State(), clock);
      var a := expired[i].addr;
      assert expired[i] == State().Held()[0] == Entry(expired[i].when, a) && State().Local(a);
      phase := Resetting(expired, i + 1, now);
      if heap[a].Repeat() && TimerId(a, heap[a].sequence) !in cancelingTimers {
        heap := heap[a := heap[a].Restart(now)];
        var _ := Insert(a);
      } else {
        heap := heap - {a};
      }
    }

    /** What follows reset()'s loop. */
    method ArmNext(ghost expired: seq<Entry>, ghost now: Clock, clock: Clock)
      requires Valid() && phase == Resetting(expired, |expired|, now)
      modifies this
      ensures Valid() && phase.Idle?
      ensures State() == ResetNext(old(State()), clock)
    {
      ResetKeepsValid(State(), clock);
      var nextExpire := 0;
      if timers != [] {
        assert timers[0] == Entry(timers[0].when, timers[0].addr) && State().Local(timers[0].addr);
        nextExpire := heap[timers[0].addr].expiration;
      }
      phase := Idle;
      if 0 < nextExpire {
        Arm(nextExpire, clock);
      }
    }

    /** reset()'s loop. */
    method RecycleAll(expired: seq<Entry>, now: Clock, evs: seq<seq<Event>>, ghost clock: Clock)
      requires Valid() && phase == Resetting(expired, 0, now)
      requires forall k :: 0 <= k < |evs| ==> Creations(evs[k])
      modifies this
      ensures Valid() && phase == Resetting(expired, |expired|, now)
      ensures State() == Run(old(State()), Resets(evs, 0, |expired|, clock))
    {
      ghost var q := State();
      for i := 0 to |expired|
        invariant Valid() && phase == Resetting(expired, i, now)
        invariant Run(q, Resets(evs, 0, |expired|, clock)) == Run(State(), Resets(evs, i, |expired|, clock))
      {
        OneThen(State(), Event.Reset(clock), EventsAt(evs, i), Resets(evs, i + 1, |expired|, clock));
        RecycleOne(expired, i, now, clock);
        Serve(EventsAt(evs, i));
      }
    }

    method Reset(expired: seq<Entry>, now: Clock, evs: seq<seq<Event>>, clock: Clock)
      requires Valid() && phase == Resetting(expired, 0, now)
      requires forall k :: 0 <= k < |evs| ==> Creations(evs[k])
      modifies this
      ensures Valid() && phase.Idle?
      ensures State() == Run(old(State()), Resets(evs, 0, |expired|, clock) + [Event.Reset(clock)])
    {
      ghost var q := State();
      RecycleAll(expired, now, evs, clock);
      RunOne(State(), Event.Reset(clock));
      ArmNext(expired, now, clock);
      RunAppend(q, Resets(evs, 0, |expired|, clock), [Event.Reset(clock)]);
    }

    /** handleRead up to its callback loop. */
    method StartBatch(now: Clock, consumed: bool) returns (expired: seq<Entry>)
      requires Valid() && phase.Idle?
      modifies this
      ensures Valid() && phase == Calling(expired, 0, now)
      ensures State() == BeginRead(old(State()), now, consumed)
    {
      ghost var q := State();
      BeginKeepsValid(q, now, consumed);
      TimersAreLive(q);
      if consumed {
        deadline := None;
      }
      expired := GetExpired(now);
      callingExpiredTimers := true;
      cancelingTimers := {};
      phase, batches := Calling(expired, 0, now), batches + 1;
    }

    /** handleRead's callback loop. */
    method RunCallbacks(expired: seq<Entry>, ghost now: Clock, evs: seq<seq<Event>>)
      requires Valid() && phase == Calling(expired, 0, now)
      requires forall k :: 0 <= k < |evs| ==> Requests(evs[k])
      modifies this
      ensures Valid() && phase == Calling(expired, |expired|, now)
      ensures State() == Run(old(State()), Callbacks(evs, 0, |expired|))
    {
      ghost var q := State();
      for i := 0 to |expired|
        invariant Valid() && phase == Calling(expired, i, now)
        invariant Run(q, Callbacks(evs, 0, |expired|)) == Run(State(), Callbacks(evs, i, |expired|))
      {
        OneThen(State(), Call, EventsAt(evs, i), Callbacks(evs, i + 1, |expired|));
        RunTimer(expired, i, now);
        Serve(EventsAt(evs, i));
      }
    }

    /** it.second->run(): the timer must be live; what the callback does is in the requests. */
    method RunTimer(expired: seq<Entry>, i: nat, ghost now: Clock)
      requires Valid() && phase == Calling(expired, i, now) && i < |expired|
      modifies this`phase, this`ran
      ensures Valid() && phase == Calling(expired, i + 1, now)
      ensures State() == CallNext(old(State()))
    {
      CallKeepsValid(State());
      var a := expired[i].addr;
      assert expired[i] in State().Held() && expired[i] == Entry(expired[i].when, a) && State().Local(a);
      var timer := heap[a];
      ran := ran + [Firing(TimerId(a, timer.sequence), batches, timer.expiration, now, timer.Repeat())];
      phase := Calling(expired, i + 1, now);
    }

    /** handleRead up to the end of its callbacks. */
    method FireBatch(now: Clock, consumed: bool, m: Meanwhile) returns (expired: seq<Entry>)
      requires Valid() && phase.Idle? && Possible(m)
      modifies this
      ensures Valid() && phase == Calling(expired, |expired|, now) && |expired| == LowerBound(old(timers), now)
      ensures State() == Run(old(State()), [Fire(now, consumed)] + m.atStart + Callbacks(m.inCallbacks, 0, |expired|))
    {
      ghost var q := State();
      OneThen(q, Fire(now, consumed), m.atStart, Callbacks(m.inCallbacks, 0, LowerBound(timers, now)));
      expired := StartBatch(now, consumed);
      Serve(m.atStart);
      RunCallbacks(expired, now, m.inCallbacks);
    }

    /** The rest of handleRead. */
    method EndBatch(expired: seq<Entry>, now: Clock, m: Meanwhile, clock: Clock)
      requires Valid() && phase == Calling(expired, |expired|, now) && Possible(m)
      modifies this
      ensures Valid() && phase.Idle?
      ensures State() == Run(old(State()), [Call] + m.beforeReset + (Resets(m.inReset, 0, |expired|, clock) + [Event.Reset(clock)]))
    {
      OneThen(State(), Call, m.beforeReset, Resets(m.inReset, 0, |expired|, clock) + [Event.Reset(clock)]);
      callingExpiredTimers := false;
      phase := Resetting(expired, 0, now);
      Serve(m.beforeReset);
      Reset(expired, now, m.inReset, clock);
    }

    method HandleRead(now: Clock, consumed: bool, m: Meanwhile, clock: Clock)
      requires Valid() && phase.Idle? && Possible(m)
      modifies this
      ensures Valid() && phase.Idle?
      ensures State() == Run(old(State()), HandleReadScript(now, consumed, m, LowerBound(old(timers), now), clock))
    {
      ghost var q := State();
      var expired := FireBatch(now, consumed, m);
      EndBatch(expired, now, m, clock);
      RunAppend(q, [Fire(now, consumed)] + m.atStart + Callbacks(m.inCallbacks, 0, |expired|),
        [Call] + m.beforeReset + (Resets(m.inReset, 0, |expired|, clock) + [Event.Reset(clock)]));
    }
  }
}
