/**
 addTimer in two halves: it creates and posts the timer, and reads the timer's sequence number only
 when it returns. In between the loop may have added, run and freed that timer.
 */
module TimerReturns {
  import opened Wrappers
  import opened TimerSteps
  import opened TimerRuns

  type Caller = nat

  /** What a call was to return, and what it read: None when the memory was already freed. */
  datatype Return = Return(own: TimerId, read: Option<TimerId>)

  datatype Adds = Adds(
    queue: Queue,
    owing: map<Caller, TimerId>,     // callers inside addTimer, with the id of the timer each created
    returned: seq<Return>)           // history

  const NONE_YET := Adds(INIT, map[], [])

  datatype Move =
    | Begin(caller: Caller, addr: Addr, when: int, interval: int)
    | End(caller: Caller)
    | Within(event: Event)           // any other step of the queue

  predicate CanMove(s: Adds, m: Move) {
    match m
    case Begin(c, a, _, _) => c !in s.owing && a !in s.queue.heap
    case End(c) => c in s.owing
    case Within(ev) => Enabled(s.queue, ev)
  }

  /** TimerId(timer, timer->sequece()), for the timer at an address that may have been freed or reused. */
  function ReadBack(q: Queue, a: Addr): Option<TimerId> {
    if a in q.heap then Some(q.IdAt(a)) else None
  }

  function Make(s: Adds, m: Move): Adds
    requires s.queue.Valid() && CanMove(s, m)
  {
    match m
    case Begin(c, a, when, interval) =>
      s.(queue := NewTimer(s.queue, a, when, interval), owing := s.owing[c := TimerId(a, s.queue.numCreated + 1)])
    case End(c) =>
      s.(owing := s.owing - {c}, returned := s.returned + [Return(s.owing[c], ReadBack(s.queue, s.owing[c].addr))])
    case Within(ev) => s.(queue := Step(s.queue, ev))
  }

  /** Any interleaving; a move that cannot happen is skipped. */
  function RunMoves(s: Adds, ms: seq<Move>): (r: Adds)
    requires s.queue.Valid()
    ensures r.queue.Valid()
    decreases |ms|
  {
    if ms == [] then s
    else if CanMove(s, ms[0]) then
      MoveKeepsValid(s, ms[0]);
      RunMoves(Make(s, ms[0]), ms[1..])
    else RunMoves(s, ms[1..])
  }

  lemma MoveKeepsValid(s: Adds, m: Move)
    requires s.queue.Valid() && CanMove(s, m)
    ensures Make(s, m).queue.Valid()
  {
    match m
    case Begin(c, a, when, interval) => NewKeepsValid(s.queue, a, when, interval);
    case End(_) =>
    case Within(ev) => StepKeepsValid(s.queue, ev);
  }

  // ---- what frees a timer

  ghost predicate RanOnce(q: Queue, id: TimerId) {
    exists f :: f in q.ran && f.id == id && !f.repeat
  }

  /** A timer is live until it has run as a one-shot timer or has been canceled. */
  ghost predicate Accounted(q: Queue, id: TimerId, canceled: bool) {
    && 0 < id.sequence <= q.numCreated
    && (!Live(q, id) ==> RanOnce(q, id) || canceled)
    && (id in q.canceling ==> canceled)
    && (id.addr in q.heap ==> id.sequence <= q.heap[id.addr].sequence)
    && (Live(q, id) && !q.heap[id.addr].Repeat() && q.EntryAt(id.addr) in CalledHeld(q) ==> RanOnce(q, id))
  }

  lemma RanOnceStays(q: Queue, r: Queue, id: TimerId)
    requires q.ran <= r.ran && RanOnce(q, id)
    ensures RanOnce(r, id)
  {
    var f :| f in q.ran && f.id == id && !f.repeat;
    assert f in r.ran;
  }

  lemma CallKeepsAccounted(q: Queue, id: TimerId, canceled: bool)
    requires q.Valid() && q.phase.Calling? && Accounted(q, id, canceled)
    ensures Accounted(CallNext(q), id, canceled)
  {
    var r := CallNext(q);
    var Calling(batch, k, now) := q.phase;
    if RanOnce(q, id) { RanOnceStays(q, r, id); }
    assert r.Held() == q.Held();
    if k < |batch| {
      assert batch[k] in q.Held() && batch[k] == Entry(batch[k].when, batch[k].addr) && q.Local(batch[k].addr);
      assert batch[..k + 1] == batch[..k] + [batch[k]];
      if Live(q, id) && q.EntryAt(id.addr) == batch[k] && !q.heap[id.addr].Repeat() {
        assert r.ran[|q.ran|] in r.ran;
      }
    } else {
      assert batch[..k] == batch && batch[0..] == batch;
    }
  }

  lemma ResetKeepsAccounted(q: Queue, clock: Clock, id: TimerId, canceled: bool)
    requires q.Valid() && q.phase.Resetting? && Accounted(q, id, canceled)
    ensures Accounted(ResetNext(q, clock), id, canceled)
  {
    var Resetting(batch, k, now) := q.phase;
    var r := ResetNext(q, clock);
    ResetKeepsFiring(q, clock);
    if RanOnce(q, id) { RanOnceStays(q, r, id); }
    assert q.Local(id.addr);
    if k < |batch| {
      RecycleChangesOneTimer(q, clock);
      assert batch[k] == q.Held()[0] == Entry(batch[k].when, batch[k].addr) && q.Local(batch[k].addr);
      assert q.Held() == [batch[k]] + r.Held();
      RecycleKeepsValid(q, clock);
      assert r.Local(id.addr);
    }
  }

  lemma StepKeepsAccounted(q: Queue, ev: Event, id: TimerId, canceled: bool)
    requires q.Valid() && Enabled(q, ev) && Accounted(q, id, canceled)
    ensures Accounted(Step(q, ev), id, canceled || ev == Cancel(id))
  {
    if ev.Call? {
      CallKeepsAccounted(q, id, canceled);
    } else if ev.Reset? {
      ResetKeepsAccounted(q, ev.clock, id, canceled);
    } else {
      var r := Step(q, ev);
      assert ev.Add? ==> q.Local(ev.addr);
      assert ev.Cancel? ==> q.Local(ev.id.addr) && ev.id == TimerId(ev.id.addr, ev.id.sequence);
      assert CalledHeld(r) == if ev.Fire? then [] else CalledHeld(q);
      if RanOnce(q, id) { RanOnceStays(q, r, id); }
    }
  }

  // ---- what addTimer returns

  ghost predicate CanceledIn(ms: seq<Move>, id: TimerId) { Within(Cancel(id)) in ms }

  /** Every call under way and every cancel mark is accounted for by the moves so far. */
  ghost predicate AllAccounted(s: Adds, before: seq<Move>) {
    && (forall c :: c in s.owing ==> Accounted(s.queue, s.owing[c], CanceledIn(before, s.owing[c])))
    && (forall id :: id in s.queue.canceling ==> CanceledIn(before, id))
  }

  lemma NewIsAccounted(q: Queue, a: Addr, when: int, interval: int, canceled: bool)
    requires q.Valid() && a !in q.heap && (TimerId(a, q.numCreated + 1) in q.canceling ==> canceled)
    ensures Accounted(NewTimer(q, a, when, interval), TimerId(a, q.numCreated + 1), canceled)
  {
    var r := NewTimer(q, a, when, interval);
    NewKeepsValid(q, a, when, interval);
    assert r.Local(a) && a in r.posted;
    assert forall e :: e in CalledHeld(r) ==> e in r.Held();
  }

  /** The queue's part of a move, as a step of the queue. */
  lemma QueueStepKeepsAccounted(s: Adds, r: Queue, ev: Event, before: seq<Move>, m: Move)
    requires s.queue.Valid() && Enabled(s.queue, ev) && r == Step(s.queue, ev) && AllAccounted(s, before)
    requires ev.Cancel? ==> m == Within(ev)
    ensures AllAccounted(s.(queue := r), before + [m])
  {
    forall c | c in s.owing ensures Accounted(r, s.owing[c], CanceledIn(before + [m], s.owing[c])) {
      var id := s.owing[c];
      StepKeepsAccounted(s.queue, ev, id, CanceledIn(before, id));
      AccountedMore(r, id, CanceledIn(before, id) || ev == Cancel(id), CanceledIn(before + [m], id));
    }
    forall id | id in r.canceling ensures CanceledIn(before + [m], id) {
      MarksComeFromCancels(s.queue, ev, id);
      assert id in s.queue.canceling ==> CanceledIn(before, id);
    }
  }

  lemma AccountedMore(q: Queue, id: TimerId, canceled: bool, canceled': bool)
    requires Accounted(q, id, canceled) && (canceled ==> canceled')
    ensures Accounted(q, id, canceled')
  {
  }

  lemma MarksComeFromCancels(q: Queue, ev: Event, id: TimerId)
    requires q.Valid() && Enabled(q, ev) && id in Step(q, ev).canceling
    ensures id in q.canceling || ev == Cancel(id)
  {
    if ev.Reset? && q.phase.next < |q.phase.batch| {
      RecycleChangesOneTimer(q, ev.clock);
    } else if ev.Add? {
      assert q.Local(ev.addr);
    }
  }

  lemma MoveKeepsAccounted(s: Adds, m: Move, before: seq<Move>)
    requires s.queue.Valid() && CanMove(s, m) && AllAccounted(s, before) && History(s.queue)
    ensures AllAccounted(Make(s, m), before + [m]) && History(Make(s, m).queue)
  {
    match m
    case Begin(c, a, when, interval) =>
      var ev := New(a, when, interval);
      StepKeepsHistory(s.queue, ev);
      QueueStepKeepsAccounted(s, Make(s, m).queue, ev, before, m);
      var own := TimerId(a, s.queue.numCreated + 1);
      NewIsAccounted(s.queue, a, when, interval, CanceledIn(before + [m], own));
    case End(c) =>
      forall d | d in Make(s, m).owing ensures Accounted(s.queue, s.owing[d], CanceledIn(before + [m], s.owing[d])) {
        AccountedMore(s.queue, s.owing[d], CanceledIn(before, s.owing[d]), CanceledIn(before + [m], s.owing[d]));
      }
      forall id | id in s.queue.canceling ensures CanceledIn(before + [m], id) { assert CanceledIn(before, id); }
    case Within(ev) =>
      StepKeepsHistory(s.queue, ev);
      QueueStepKeepsAccounted(s, Make(s, m).queue, ev, before, m);
  }

  lemma {:induction false} RunKeepsAccounted(s: Adds, ms: seq<Move>, before: seq<Move>)
    requires s.queue.Valid() && AllAccounted(s, before) && History(s.queue)
    ensures AllAccounted(RunMoves(s, ms), before + ms) && History(RunMoves(s, ms).queue)
    decreases |ms|
  {
    if ms == [] {
      assert before + ms == before;
    } else {
      assert before + ms == before + [ms[0]] + ms[1..];
      if CanMove(s, ms[0]) {
        MoveKeepsAccounted(s, ms[0], before);
        MoveKeepsValid(s, ms[0]);
        RunKeepsAccounted(Make(s, ms[0]), ms[1..], before + [ms[0]]);
      } else {
        SkipKeepsAccounted(s, before, ms[0]);
        RunKeepsAccounted(s, ms[1..], before + [ms[0]]);
      }
    }
  }

  lemma SkipKeepsAccounted(s: Adds, before: seq<Move>, m: Move)
    requires AllAccounted(s, before)
    ensures AllAccounted(s, before + [m])
  {
    forall c | c in s.owing ensures Accounted(s.queue, s.owing[c], CanceledIn(before + [m], s.owing[c])) {
      AccountedMore(s.queue, s.owing[c], CanceledIn(before, s.owing[c]), CanceledIn(before + [m], s.owing[c]));
    }
    forall id | id in s.queue.canceling ensures CanceledIn(before + [m], id) { assert CanceledIn(before, id); }
  }

  /**
   In every run, what a call under way would read: its own timer's id if and only if that timer has
   not been freed. A timer that nobody canceled (its id is not known to anybody yet) is freed only
   by having run as a one-shot timer; and outside handleRead such a timer has been freed. A read that
   fails finds freed memory, or the id of a younger timer at the same address.
   */
  lemma ReturnIsOwnIff(ms: seq<Move>, c: Caller)
    ensures INIT.Valid()
    ensures var s := RunMoves(NONE_YET, ms);
      c in s.owing ==>
        var own := s.owing[c];
        var read := ReadBack(s.queue, own.addr);
        && (read == Some(own) <==> !Gone(s.queue, own))
        && (read != Some(own) && !CanceledIn(ms, own) ==> RanOnce(s.queue, own))
        && (RanOnce(s.queue, own) && s.queue.phase.Idle? ==> read != Some(own))
        && (read.Some? && read != Some(own) ==> read.value.addr == own.addr && own.sequence < read.value.sequence)
  {
    InitIsValid();
    assert [] + ms == ms;
    RunKeepsAccounted(NONE_YET, ms, []);
    var s := RunMoves(NONE_YET, ms);
    if c in s.owing && RanOnce(s.queue, s.owing[c]) && s.queue.phase.Idle? {
      var f :| f in s.queue.ran && f.id == s.owing[c] && !f.repeat;
      assert Spent(s.queue, f);
    }
  }

  // ---- a call on the loop thread

  /** A move of another thread than the loop's, and not of caller c. */
  predicate Elsewhere(m: Move, c: Caller) {
    match m
    case Begin(d, _, _, _) => d != c
    case End(d) => d != c
    case Within(ev) => ev.New?
  }

  lemma {:induction false} ElsewhereKeepsLive(s: Adds, ms: seq<Move>, c: Caller)
    requires s.queue.Valid() && c in s.owing && Live(s.queue, s.owing[c])
    requires forall m :: m in ms ==> Elsewhere(m, c)
    ensures var r := RunMoves(s, ms); c in r.owing && r.owing[c] == s.owing[c] && Live(r.queue, r.owing[c])
    decreases |ms|
  {
    if ms != [] {
      assert Elsewhere(ms[0], c);
      if CanMove(s, ms[0]) {
        MoveKeepsValid(s, ms[0]);
        ElsewhereKeepsLive(Make(s, ms[0]), ms[1..], c);
      } else {
        ElsewhereKeepsLive(s, ms[1..], c);
      }
    }
  }

  /**
   On the loop thread the timer is added at once and the loop does nothing else before the return,
   so the id is the timer's own, whatever other threads do.
   */
  lemma LoopThreadAddReturnsOwn(s: Adds, c: Caller, a: Addr, when: int, interval: int, clock: Clock, ms: seq<Move>)
    requires s.queue.Valid() && CanMove(s, Begin(c, a, when, interval)) && !s.queue.phase.Resetting?
    requires forall m :: m in ms ==> Elsewhere(m, c)
    ensures var own := TimerId(a, s.queue.numCreated + 1);
      && var s1 := Make(s, Begin(c, a, when, interval));
      && s1.queue.Valid() && CanMove(s1, Within(Add(a, clock)))
      && var s2 := Make(s1, Within(Add(a, clock)));
      && s2.queue.Valid() && own in s2.queue.active
      && var r := RunMoves(s2, ms);
      && CanMove(r, End(c)) && Make(r, End(c)).returned == r.returned + [Return(own, Some(own))]
  {
    var s1 := Make(s, Begin(c, a, when, interval));
    MoveKeepsValid(s, Begin(c, a, when, interval));
    assert s1.queue.Local(a);
    MoveKeepsValid(s1, Within(Add(a, clock)));
    ElsewhereKeepsLive(Make(s1, Within(Add(a, clock))), ms, c);
  }

  // ---- a repeating timer

  /** A repeating timer stays until it is canceled. */
  ghost predicate KeepsRepeating(q: Queue, id: TimerId, canceled: bool) {
    && id.sequence <= q.numCreated
    && (canceled || (Live(q, id) && q.heap[id.addr].interval > 0))
    && (id in q.canceling ==> canceled)
  }

  lemma StepKeepsRepeating(q: Queue, ev: Event, id: TimerId, canceled: bool)
    requires q.Valid() && Enabled(q, ev) && KeepsRepeating(q, id, canceled)
    ensures KeepsRepeating(Step(q, ev), id, canceled || ev == Cancel(id))
  {
    if ev.Reset? && q.phase.next < |q.phase.batch| {
      RecycleChangesOneTimer(q, ev.clock);
    } else {
      assert ev.Add? ==> q.Local(ev.addr);
      assert ev.Cancel? ==> q.Local(ev.id.addr) && ev.id == TimerId(ev.id.addr, ev.id.sequence);
    }
  }

  lemma MoveKeepsRepeating(s: Adds, m: Move, id: TimerId, canceled: bool)
    requires s.queue.Valid() && CanMove(s, m) && KeepsRepeating(s.queue, id, canceled)
    ensures KeepsRepeating(Make(s, m).queue, id, canceled || m == Within(Cancel(id)))
  {
    match m
    case Begin(_, a, when, interval) => StepKeepsRepeating(s.queue, New(a, when, interval), id, canceled);
    case End(_) =>
    case Within(ev) => StepKeepsRepeating(s.queue, ev, id, canceled);
  }

  lemma {:induction false} RunKeepsRepeating(s: Adds, ms: seq<Move>, id: TimerId, canceled: bool)
    requires s.queue.Valid() && KeepsRepeating(s.queue, id, canceled)
    ensures KeepsRepeating(RunMoves(s, ms).queue, id, canceled || CanceledIn(ms, id))
    decreases |ms|
  {
    if ms != [] {
      assert CanceledIn(ms, id) <==> ms[0] == Within(Cancel(id)) || CanceledIn(ms[1..], id);
      if CanMove(s, ms[0]) {
        MoveKeepsValid(s, ms[0]);
        MoveKeepsRepeating(s, ms[0], id, canceled);
        RunKeepsRepeating(Make(s, ms[0]), ms[1..], id, canceled || ms[0] == Within(Cancel(id)));
      } else {
        RunKeepsRepeating(s, ms[1..], id, canceled);
      }
    }
  }

  lemma RepeatingFrom(s: Adds, c: Caller, a: Addr, when: int, interval: int, after: seq<Move>)
    requires s.queue.Valid() && CanMove(s, Begin(c, a, when, interval)) && interval > 0
    requires var own := TimerId(a, s.queue.numCreated + 1); own !in s.queue.canceling && !CanceledIn(after, own)
    ensures var s1 := Make(s, Begin(c, a, when, interval));
      s1.queue.Valid() && ReadBack(RunMoves(s1, after).queue, a) == Some(TimerId(a, s.queue.numCreated + 1))
  {
    MoveKeepsValid(s, Begin(c, a, when, interval));
    RunKeepsRepeating(Make(s, Begin(c, a, when, interval)), after, TimerId(a, s.queue.numCreated + 1), false);
  }

  lemma MarksAreCanceled(before: seq<Move>, id: TimerId)
    ensures INIT.Valid()
    ensures id in RunMoves(NONE_YET, before).queue.canceling ==> CanceledIn(before, id)
  {
    InitIsValid();
    assert [] + before == before;
    RunKeepsAccounted(NONE_YET, before, []);
  }

  /** A repeating timer that nobody cancels is returned as its own, on any thread and after any run. */
  lemma RepeatingAddReturnsOwn(before: seq<Move>, c: Caller, a: Addr, when: int, interval: int, after: seq<Move>)
    requires INIT.Valid() && CanMove(RunMoves(NONE_YET, before), Begin(c, a, when, interval)) && interval > 0
    requires !CanceledIn(before + after, TimerId(a, RunMoves(NONE_YET, before).queue.numCreated + 1))
    ensures var s := RunMoves(NONE_YET, before);
      && Make(s, Begin(c, a, when, interval)).queue.Valid()
      && ReadBack(RunMoves(Make(s, Begin(c, a, when, interval)), after).queue, a) == Some(TimerId(a, s.queue.numCreated + 1))
  {
    var s := RunMoves(NONE_YET, before);
    var own := TimerId(a, s.queue.numCreated + 1);
    assert CanceledIn(before + after, own) <==> CanceledIn(before, own) || CanceledIn(after, own);
    MarksAreCanceled(before, own);
    RepeatingFrom(s, c, a, when, interval, after);
  }

  // ---- a one-shot timer can always be overtaken

  /** The loop finishes the batch it is in; a posted timer stays as it is. */
  lemma ReachIdle(q: Queue, a: Addr) returns (evs: seq<Event>)
    requires q.Valid() && a in q.posted && a in q.heap
    ensures var r := Run(q, evs); r.phase.Idle? && a in r.posted && a in r.heap && r.heap[a] == q.heap[a]
    decreases if q.phase.Calling? then 2 else if q.phase.Resetting? then 1 else 0,
              if q.phase.Idle? then 0 else |q.phase.batch| - q.phase.next
  {
    evs := [];
    if !q.phase.Idle? {
      var ev := if q.phase.Calling? then Call else Reset(1);
      StepKeepsValid(q, ev);
      LoopStepKeepsPosted(q, ev, a);
      var rest := ReachIdle(Step(q, ev), a);
      evs := [ev] + rest;
      assert evs[1..] == rest;
    }
  }

  lemma LoopStepKeepsPosted(q: Queue, ev: Event, a: Addr)
    requires q.Valid() && Enabled(q, ev) && (ev.Call? || ev.Reset?) && a in q.posted && a in q.heap
    ensures var r := Step(q, ev); a in r.posted && a in r.heap && r.heap[a] == q.heap[a]
    ensures var r := Step(q, ev);
      if q.phase.next < |q.phase.batch| then !r.phase.Idle? && r.phase == q.phase.(next := q.phase.next + 1)
      else if ev.Call? then r.phase.Resetting? else r.phase.Idle?
  {
    if ev.Reset? && q.phase.next < |q.phase.batch| {
      RecycleChangesOneTimer(q, ev.clock);
      RecycleKeepsPosted(q, ev.clock);
      var e := q.phase.batch[q.phase.next];
      assert e == q.Held()[0] == Entry(e.when, e.addr) && q.Local(e.addr) && q.Local(a);
    }
  }

  lemma RecycleKeepsPosted(q: Queue, clock: Clock)
    requires q.Valid() && q.phase.Resetting? && q.phase.next < |q.phase.batch|
    ensures ResetNext(q, clock).posted == q.posted
  {
    var e := q.phase.batch[q.phase.next];
    assert e == q.Held()[0] == Entry(e.when, e.addr) && q.Local(e.addr);
  }

  /** All callbacks of the batch run. */
  lemma CallAll(q: Queue) returns (evs: seq<Event>)
    requires q.Valid() && q.phase.Calling?
    ensures var r := Run(q, evs); r == q.(phase := Resetting(q.phase.batch, 0, q.phase.now), ran := r.ran)
    decreases |q.phase.batch| - q.phase.next
  {
    CallKeepsValid(q);
    RunOne(q, Call);
    evs := [Call];
    if q.phase.next < |q.phase.batch| {
      var rest := CallAll(CallNext(q));
      evs := [Call] + rest;
      assert evs[1..] == rest;
    }
  }

  /** reset() goes through its batch. */
  lemma ResetAll(q: Queue) returns (evs: seq<Event>)
    requires q.Valid() && q.phase.Resetting?
    ensures var r := Run(q, evs); r.batches == q.batches && r.phase == Resetting(q.phase.batch, |q.phase.batch|, q.phase.now)
    decreases |q.phase.batch| - q.phase.next
  {
    evs := [];
    if q.phase.next < |q.phase.batch| {
      RecycleChangesOneTimer(q, 1);
      ResetKeepsValid(q, 1);
      var rest := ResetAll(ResetNext(q, 1));
      evs := [Reset(1)] + rest;
      assert evs[1..] == rest;
    }
  }

  /** A due one-shot timer is freed by the batch that takes it. */
  lemma FireAndFree(q: Queue, a: Addr, now: Clock) returns (evs: seq<Event>)
    requires q.Valid() && q.phase.Idle? && a in q.heap && q.EntryAt(a) in q.timers
    requires q.heap[a].interval <= 0 && q.heap[a].expiration <= now
    ensures Gone(Run(q, evs), q.IdAt(a))
  {
    assert q.Local(a);
    BatchIsExactlyTheDue(q, now, true);
    BeginKeepsValid(q, now, true);
    var q1 := BeginRead(q, now, true);
    RunOne(q, Fire(now, true));
    var calls := CallAll(q1);
    var q2 := Run(q1, calls);
    var resets := ResetAll(q2);
    ResetRearmsExactly(q2, resets);
    assert q.EntryAt(a) in q2.phase.batch && Settled(q2, Run(q2, resets), q.EntryAt(a), now);
    evs := [Fire(now, true)] + calls + resets;
    RunAppend(q, [Fire(now, true)], calls);
    RunAppend(q, [Fire(now, true)] + calls, resets);
  }

  lemma Overtake(q: Queue, a: Addr) returns (evs: seq<Event>)
    requires q.Valid() && a in q.posted && a in q.heap && q.heap[a].interval <= 0
    ensures Gone(Run(q, evs), q.IdAt(a))
  {
    var idle := ReachIdle(q, a);
    var q1 := Run(q, idle);
    AddKeepsValid(q1, a, 1);
    RunOne(q1, Add(a, 1));
    var q2 := AddTimerInLoop(q1, a, 1);
    var now := if q.heap[a].expiration < 1 then 1 else q.heap[a].expiration;
    var fire := FireAndFree(q2, a, now);
    evs := idle + [Add(a, 1)] + fire;
    RunAppend(q, idle, [Add(a, 1)]);
    RunAppend(q, idle + [Add(a, 1)], fire);
  }

  function Inside(evs: seq<Event>): seq<Move> {
    if evs == [] then [] else [Within(evs[0])] + Inside(evs[1..])
  }

  lemma {:induction false} RunInside(s: Adds, evs: seq<Event>)
    requires s.queue.Valid()
    ensures RunMoves(s, Inside(evs)) == s.(queue := Run(s.queue, evs))
    decreases |evs|
  {
    if evs != [] {
      assert Inside(evs)[1..] == Inside(evs[1..]);
      if Enabled(s.queue, evs[0]) {
        StepKeepsValid(s.queue, evs[0]);
        RunInside(Make(s, Within(evs[0])), evs[1..]);
      } else {
        RunInside(s, evs[1..]);
      }
    }
  }

  /**
   A one-shot timer whose add is still queued can always be overtaken: from any state the loop has
   moves of its own that add, run and free it before its caller, on another thread, reads it.
   */
  lemma OneShotCanBeOvertaken(s: Adds, c: Caller) returns (ms: seq<Move>)
    requires s.queue.Valid() && c in s.owing && Live(s.queue, s.owing[c])
    requires s.owing[c].addr in s.queue.posted && s.queue.heap[s.owing[c].addr].interval <= 0
    ensures forall m :: m in ms ==> m.Within?
    ensures var r := RunMoves(s, ms);
      c in r.owing && r.owing[c] == s.owing[c] && ReadBack(r.queue, r.owing[c].addr) != Some(r.owing[c])
  {
    var evs := Overtake(s.queue, s.owing[c].addr);
    ms := Inside(evs);
    InsideIsWithin(evs);
    RunInside(s, evs);
  }

  lemma {:induction false} InsideIsWithin(evs: seq<Event>)
    ensures forall m :: m in Inside(evs) ==> m.Within?
  {
    if evs != [] {
      InsideIsWithin(evs[1..]);
    }
  }

  // ---- a call on another thread that fails

  /** A one-shot timer is created, added, run and freed before its creator reads it. */
  const OVERTAKEN := [Begin(0, 1, 10, 0), Within(Add(1, 5)), Within(Fire(20, true)), Within(Call), Within(Call),
                      Within(Reset(20)), Within(Reset(20))]

  lemma OneMove(s: Adds, m: Move, ms: seq<Move>)
    requires s.queue.Valid() && CanMove(s, m)
    ensures Make(s, m).queue.Valid() && RunMoves(s, [m] + ms) == RunMoves(Make(s, m), ms)
  {
    MoveKeepsValid(s, m);
    assert ([m] + ms)[1..] == ms;
  }

  /** The timer of the run is in the queue. */
  const ADDED := Queue(map[1 := Timer(10, 0, 1)], 1, {}, [Entry(10, 1)], {TimerId(1, 1)}, {}, Idle, 0, Some(105), 5, [])

  const FIRED := Firing(TimerId(1, 1), 1, 10, 20, false)

  lemma IntoTheQueue(ms: seq<Move>)
    ensures INIT.Valid() && ADDED.Valid()
    ensures RunMoves(NONE_YET, OVERTAKEN[..2] + ms) == RunMoves(Adds(ADDED, map[0 := TimerId(1, 1)], []), ms)
  {
    InitIsValid();
    var rest := [OVERTAKEN[1]] + ms;
    assert OVERTAKEN[..2] + ms == [OVERTAKEN[0]] + rest;
    OneMove(NONE_YET, OVERTAKEN[0], rest);
    var s1 := Make(NONE_YET, OVERTAKEN[0]);
    OneMove(s1, OVERTAKEN[1], ms);
    var s2 := Make(s1, OVERTAKEN[1]);
    assert HowMuchTimeFromNow(10, 5) == Timespec(0, 100_000);
    assert s2.queue == ADDED;
  }

  /** It has run and is freed. */
  const FREED := Queue(map[], 1, {}, [], {}, {}, Idle, 1, None, 5, [FIRED])

  const BATCH := [Entry(10, 1)]

  lemma FiringSteps()
    ensures ADDED.Valid()
    ensures var q1 := BeginRead(ADDED, 20, true);
      && q1.Valid() && q1 == ADDED.(timers := [], active := {}, phase := Calling(BATCH, 0, 20), batches := 1, deadline := None)
      && var q2 := CallNext(q1);
      && q2.Valid() && q2 == q1.(phase := Calling(BATCH, 1, 20), ran := [FIRED])
      && CallNext(q2).Valid() && CallNext(q2) == q2.(phase := Resetting(BATCH, 0, 20))
  {
    IntoTheQueue([]);
    BeginKeepsValid(ADDED, 20, true);
    var q1 := BeginRead(ADDED, 20, true);
    assert LowerBound(ADDED.timers, 20) == 1;
    CallKeepsValid(q1);
    CallKeepsValid(CallNext(q1));
  }

  /** Its callback has run. */
  const RAN := ADDED.(timers := [], active := {}, phase := Resetting(BATCH, 0, 20), batches := 1, deadline := None, ran := [FIRED])

  const OWING := map[0 := TimerId(1, 1)]

  lemma FiringMoves(ms: seq<Move>)
    ensures ADDED.Valid() && RAN.Valid()
    ensures RunMoves(Adds(ADDED, OWING, []), [OVERTAKEN[2]] + ([OVERTAKEN[3]] + ([OVERTAKEN[4]] + ms))) == RunMoves(Adds(RAN, OWING, []), ms)
  {
    FiringSteps();
    var s2 := Adds(ADDED, OWING, []);
    OneMove(s2, OVERTAKEN[2], [OVERTAKEN[3]] + ([OVERTAKEN[4]] + ms));
    var s3 := Make(s2, OVERTAKEN[2]);
    OneMove(s3, OVERTAKEN[3], [OVERTAKEN[4]] + ms);
    OneMove(Make(s3, OVERTAKEN[3]), OVERTAKEN[4], ms);
  }

  lemma FreeingMoves(ms: seq<Move>)
    requires RAN.Valid()
    ensures FREED.Valid()
    ensures RunMoves(Adds(RAN, OWING, []), [OVERTAKEN[5]] + ([OVERTAKEN[6]] + ms)) == RunMoves(Adds(FREED, OWING, []), ms)
  {
    ResetKeepsValid(RAN, 20);
    var q := ResetNext(RAN, 20);
    assert q == FREED.(phase := Resetting(BATCH, 1, 20));
    ResetKeepsValid(q, 20);
    OneMove(Adds(RAN, OWING, []), OVERTAKEN[5], [OVERTAKEN[6]] + ms);
    OneMove(Adds(q, OWING, []), OVERTAKEN[6], ms);
  }

  lemma OvertakenIsFreed(ms: seq<Move>)
    ensures INIT.Valid() && FREED.Valid()
    ensures RunMoves(NONE_YET, OVERTAKEN + ms) == RunMoves(Adds(FREED, OWING, []), ms)
  {
    var free := [OVERTAKEN[5]] + ([OVERTAKEN[6]] + ms);
    var fire := [OVERTAKEN[2]] + ([OVERTAKEN[3]] + ([OVERTAKEN[4]] + free));
    assert OVERTAKEN + ms == OVERTAKEN[..2] + fire;
    IntoTheQueue(fire);
    FiringMoves(free);
    FreeingMoves(ms);
  }

  /** addTimer reads a timer that its loop has run and freed. */
  lemma ReadAfterFree()
    ensures INIT.Valid() && RunMoves(NONE_YET, OVERTAKEN + [End(0)]).returned == [Return(TimerId(1, 1), None)]
  {
    OvertakenIsFreed([End(0)]);
    OneMove(Adds(FREED, OWING, []), End(0), []);
    assert [End(0)] + [] == [End(0)];
  }

  /**
   With the address reused it reads another caller's id, and a cancel with what it returned frees
   that caller's timer.
   */
  lemma ReadAfterReuseCancelsAnother()
    ensures INIT.Valid()
    ensures var s := RunMoves(NONE_YET, OVERTAKEN + [Begin(1, 1, 100, 0), End(0), Within(Add(1, 30))]);
      && s.returned == [Return(TimerId(1, 1), Some(TimerId(1, 2)))] && s.owing == map[1 := TimerId(1, 2)]
      && TimerId(1, 2) in s.queue.active
      && CancelInLoop(s.queue, s.returned[0].read.value).heap == map[]
  {
    var ms := [Begin(1, 1, 100, 0), End(0), Within(Add(1, 30))];
    OvertakenIsFreed(ms);
    var s0 := Adds(FREED, OWING, []);
    assert ms == [ms[0]] + ([ms[1]] + ([ms[2]] + []));
    OneMove(s0, ms[0], [ms[1]] + ([ms[2]] + []));
    var s1 := Make(s0, ms[0]);
    OneMove(s1, ms[1], [ms[2]] + []);
    var s2 := Make(s1, ms[1]);
    assert s2.queue.Local(1);
    OneMove(s2, ms[2], []);
  }
}
