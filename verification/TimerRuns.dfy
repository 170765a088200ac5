/** Whole-run properties of the timer queue. */
module TimerRuns {
  import opened Wrappers
  import opened TimerSteps

  // ---- runs in parts

  lemma {:induction false} RunAppend(q: Queue, a: seq<Event>, b: seq<Event>)
    requires q.Valid()
    ensures Run(q, a + b) == Run(Run(q, a), b)
    decreases |a|
  {
    if a == [] {
      assert a + b == b;
    } else {
      assert (a + b)[1..] == a[1..] + b;
      if Enabled(q, a[0]) {
        StepKeepsValid(q, a[0]);
        RunAppend(Step(q, a[0]), a[1..], b);
      } else {
        RunAppend(q, a[1..], b);
      }
    }
  }

  lemma RunOne(q: Queue, ev: Event)
    requires q.Valid() && Enabled(q, ev)
    ensures Run(q, [ev]) == Step(q, ev)
  {
    StepKeepsValid(q, ev);
    assert [ev][1..] == [];
  }

  // ---- ownership

  lemma InitIsValid()
    ensures INIT.Valid()
  {
    assert forall a :: INIT.Local(a);
  }

  /**
   In every reachable state timers_ and activeTimers_ hold the same timers under their current
   expirations, the held batch is disjoint from both, and the live heap is exactly what they and
   the posted adds own. Step dereferences and deletes only live addresses, so no step of the loop
   deletes a timer twice or touches it after its deletion. (What addTimer reads when it returns
   is not a step of the loop: see TimerReturns.)
   */
  lemma ReachableQueueIsConsistent(evs: seq<Event>)
    ensures INIT.Valid()
    ensures var q := Run(INIT, evs);
      && (forall e :: e in q.timers ==>
            e.addr in q.heap && e == q.EntryAt(e.addr) && q.IdAt(e.addr) in q.active)
      && (forall id :: id in q.active ==>
            id.addr in q.heap && id == q.IdAt(id.addr) && q.EntryAt(id.addr) in q.timers)
      && (forall e :: e in q.Held() ==>
            e.addr in q.heap && e == q.EntryAt(e.addr) && e !in q.timers && q.IdAt(e.addr) !in q.active)
      && (forall a :: a in q.heap <==>
            a in q.posted || (exists e :: e in q.timers && e.addr == a) || (exists e :: e in q.Held() && e.addr == a))
      && (forall e :: e in q.timers || e in q.Held() ==> e.addr !in q.posted)
  {
    InitIsValid();
    var q := Run(INIT, evs);
    forall e | e in q.timers || e in q.Held() ensures e.addr in q.heap && e == q.EntryAt(e.addr) {
      assert q.Local(e.addr) && e == Entry(e.when, e.addr);
    }
    forall id: TimerId ensures q.Local(id.addr) && id == TimerId(id.addr, id.sequence) { }
    forall a | a in q.heap
      ensures a in q.posted || (exists e :: e in q.timers && e.addr == a) || (exists e :: e in q.Held() && e.addr == a)
    {
      assert q.Local(a) && q.EntryAt(a).addr == a;
    }
    forall a | a in q.posted ensures a in q.heap { assert q.Local(a); }
  }

  // ---- cancellation

  ghost predicate Live(q: Queue, id: TimerId) {
    id.addr in q.heap && q.heap[id.addr].sequence == id.sequence
  }

  /** The timer is freed for good: its sequence number is spent. */
  ghost predicate Gone(q: Queue, id: TimerId) {
    id.sequence <= q.numCreated && !Live(q, id)
  }

  /** Canceled while in batch n: it can only be held there, marked for deletion. */
  ghost predicate Doomed(q: Queue, id: TimerId, n: nat) {
    && id.sequence <= q.numCreated
    && (Live(q, id) ==> q.EntryAt(id.addr) in q.Held() && id in q.canceling && q.batches == n)
  }

  lemma ResetKeepsDoomed(q: Queue, clock: Clock, id: TimerId, n: nat)
    requires q.Valid() && q.phase.Resetting? && Doomed(q, id, n)
    ensures Doomed(ResetNext(q, clock), id, n)
    ensures Gone(q, id) ==> Gone(ResetNext(q, clock), id)
    ensures ResetNext(q, clock).ran == q.ran
  {
    ResetKeepsFiring(q, clock);
    if q.phase.next < |q.phase.batch| {
      RecycleKeepsDoomed(q, clock, id, n);
    }
  }

  lemma RecycleKeepsDoomed(q: Queue, clock: Clock, id: TimerId, n: nat)
    requires q.Valid() && q.phase.Resetting? && q.phase.next < |q.phase.batch| && Doomed(q, id, n)
    ensures Doomed(ResetNext(q, clock), id, n)
    ensures Gone(q, id) ==> Gone(ResetNext(q, clock), id)
  {
    var e := q.phase.batch[q.phase.next];
    RecycleChangesOneTimer(q, clock);
    assert q.Held() == [e] + ResetNext(q, clock).Held();
    assert e == Entry(e.when, e.addr) && q.Local(e.addr);
  }

  lemma StepKeepsDoomed(q: Queue, ev: Event, id: TimerId, n: nat)
    requires q.Valid() && Enabled(q, ev) && Doomed(q, id, n)
    ensures Doomed(Step(q, ev), id, n)
    ensures Gone(q, id) ==> Gone(Step(q, ev), id)
    ensures q.ran <= Step(q, ev).ran
    ensures forall i :: |q.ran| <= i < |Step(q, ev).ran| && Step(q, ev).ran[i].id == id
              ==> Live(q, id) && Step(q, ev).ran[i].batch == n
  {
    if ev.Reset? {
      ResetKeepsDoomed(q, ev.clock, id, n);
    } else {
      var r := Step(q, ev);
      assert q.Local(id.addr);
      assert !ev.Fire? ==> r.Held() == q.Held();
      assert ev.Cancel? ==> q.Local(ev.id.addr) && ev.id == TimerId(ev.id.addr, ev.id.sequence);
    }
  }

  lemma {:induction false} RunKeepsDoomed(q: Queue, evs: seq<Event>, id: TimerId, n: nat)
    requires q.Valid() && Doomed(q, id, n)
    ensures Doomed(Run(q, evs), id, n) && (Gone(q, id) ==> Gone(Run(q, evs), id))
    ensures q.ran <= Run(q, evs).ran
    ensures forall i :: |q.ran| <= i < |Run(q, evs).ran| && Run(q, evs).ran[i].id == id
              ==> !Gone(q, id) && Run(q, evs).ran[i].batch == n
    decreases |evs|
  {
    if evs != [] {
      if Enabled(q, evs[0]) {
        StepKeepsValid(q, evs[0]);
        StepKeepsDoomed(q, evs[0], id, n);
        RunKeepsDoomed(Step(q, evs[0]), evs[1..], id, n);
      } else {
        RunKeepsDoomed(q, evs[1..], id, n);
      }
    }
  }

  /**
   A cancel processed for a timer that was added (it is active, or it is in the batch whose
   callbacks are running, possibly the caller itself) is final. An active timer never runs
   again; one in the running batch runs in no later batch, is not re-armed, and is freed when
   the batch ends.
   */
  lemma CancelIsFinal(q: Queue, id: TimerId, evs: seq<Event>)
    requires q.Valid() && !q.phase.Resetting? && Live(q, id) && id.addr !in q.posted
    ensures CancelInLoop(q, id).Valid()
    ensures var r := Run(CancelInLoop(q, id), evs);
      && id !in r.active
      && q.ran <= r.ran
      && (forall i :: |q.ran| <= i < |r.ran| && r.ran[i].id == id ==> id !in q.active && r.ran[i].batch == q.batches)
      && (r.phase.Idle? || r.batches != q.batches || id in q.active ==> !Live(r, id))
  {
    CancelKeepsValid(q, id);
    var q1 := CancelInLoop(q, id);
    assert q.Local(id.addr) && id == q.IdAt(id.addr);
    assert Doomed(q1, id, q.batches);
    RunKeepsDoomed(q1, evs, id, q.batches);
    var r := Run(q1, evs);
    assert r.Local(id.addr);
  }

  /** Equal but for cancel marks on timers that are not held. */
  ghost predicate Similar(q: Queue, r: Queue) {
    r == q.(canceling := r.canceling) && MarksAgree(q, r.canceling)
  }

  ghost predicate MarksAgree(q: Queue, marks: set<TimerId>) {
    forall e :: e in q.Held() && e.addr in q.heap ==> (q.IdAt(e.addr) in q.canceling <==> q.IdAt(e.addr) in marks)
  }

  lemma ResetKeepsSimilar(q: Queue, r: Queue, clock: Clock)
    requires q.Valid() && r.Valid() && q.phase.Resetting? && Similar(q, r)
    ensures Similar(ResetNext(q, clock), ResetNext(r, clock))
  {
    var q', r' := ResetNext(q, clock), ResetNext(r, clock);
    assert r.Held() == q.Held();
    var Resetting(batch, k, now) := q.phase;
    if k < |batch| {
      assert batch[k] == q.Held()[0] == Entry(batch[k].when, batch[k].addr) && q.Local(batch[k].addr);
      assert q'.Held() == q.Held()[1..];
      assert q.IdAt(batch[k].addr) in q.canceling <==> q.IdAt(batch[k].addr) in r.canceling;
      assert r' == q'.(canceling := r'.canceling);
      assert forall a :: a in q'.heap ==> a in q.heap && q'.IdAt(a) == q.IdAt(a);
    } else {
      assert r' == q'.(canceling := r'.canceling);
    }
  }

  lemma UserStepKeepsSimilar(q: Queue, r: Queue, ev: Event)
    requires q.Valid() && r.Valid() && Enabled(q, ev) && Similar(q, r) && (ev.New? || ev.Add? || ev.Cancel?)
    ensures Similar(Step(q, ev), Step(r, ev))
  {
    var q', r' := Step(q, ev), Step(r, ev);
    assert !ev.Cancel? ==> q.Local(ev.addr);
    assert r' == q'.(canceling := r'.canceling);
    assert q'.Held() == q.Held();
    forall e | e in q.Held() ensures e.addr in q.heap { assert e == Entry(e.when, e.addr) && q.Local(e.addr); }
  }

  lemma StepKeepsSimilar(q: Queue, r: Queue, ev: Event)
    requires q.Valid() && r.Valid() && Enabled(q, ev) && Similar(q, r)
    ensures Enabled(r, ev) && Similar(Step(q, ev), Step(r, ev))
  {
    if ev.New? || ev.Add? || ev.Cancel? {
      UserStepKeepsSimilar(q, r, ev);
    } else if ev.Reset? {
      ResetKeepsSimilar(q, r, ev.clock);
    } else if ev.Call? {
      assert Step(q, ev).Held() == q.Held();
    }
  }

  lemma {:induction false} RunKeepsSimilar(q: Queue, r: Queue, evs: seq<Event>)
    requires q.Valid() && r.Valid() && Similar(q, r)
    ensures Similar(Run(q, evs), Run(r, evs))
    decreases |evs|
  {
    if evs != [] {
      if Enabled(q, evs[0]) {
        StepKeepsSimilar(q, r, evs[0]);
        StepKeepsValid(q, evs[0]);
        StepKeepsValid(r, evs[0]);
        RunKeepsSimilar(Step(q, evs[0]), Step(r, evs[0]), evs[1..]);
      } else {
        RunKeepsSimilar(q, r, evs[1..]);
      }
    }
  }

  /**
   A cancel whose id names no added timer (fired and freed, canceled before, its address reused
   by a newer timer, or its add still queued) changes no later behaviour at all: every run from
   there has the same heap, containers, arming and history, cancel marks aside.
   */
  lemma StaleCancelIsInvisible(q: Queue, id: TimerId, evs: seq<Event>)
    requires q.Valid()
    requires Live(q, id) ==> id.addr in q.posted
    ensures CancelInLoop(q, id).Valid()
    ensures var r, r' := Run(q, evs), Run(CancelInLoop(q, id), evs); r' == r.(canceling := r'.canceling)
  {
    assert q.Local(id.addr) && id == TimerId(id.addr, id.sequence);
    CancelKeepsValid(q, id);
    var q1 := CancelInLoop(q, id);
    assert Similar(q, q1);
    RunKeepsSimilar(q, q1, evs);
  }

  // ---- re-arming

  ghost predicate Repeats(q: Queue, e: Entry)
    requires e.addr in q.heap
  {
    q.heap[e.addr].interval > 0 && q.IdAt(e.addr) !in q.canceling
  }

  /** What the first k timers of the batch become: an entry one interval after the batch's clock, for those that repeat. */
  ghost function Rearmed(q: Queue, k: nat): set<Entry>
    requires q.phase.Resetting? && k <= |q.phase.batch|
  {
    set i | 0 <= i < k && q.phase.batch[i].addr in q.heap && Repeats(q, q.phase.batch[i])
      :: Entry(q.phase.now + q.heap[q.phase.batch[i].addr].interval, q.phase.batch[i].addr)
  }

  /** The timer of e is restarted, or freed for good. */
  ghost predicate Settled(q: Queue, r: Queue, e: Entry, now: int) {
    e.addr in q.heap &&
    if Repeats(q, e) then e.addr in r.heap && r.heap[e.addr] == q.heap[e.addr].(expiration := now + q.heap[e.addr].interval)
    else Gone(r, q.IdAt(e.addr))
  }

  ghost predicate Untouched(q: Queue, r: Queue, e: Entry) {
    e.addr in q.heap && e.addr in r.heap && r.heap[e.addr] == q.heap[e.addr]
  }

  /** r is the reset of q's batch under way. */
  ghost predicate ResetUnderWay(q: Queue, r: Queue)
    requires q.phase.Resetting?
  {
    && r.phase.Resetting? && r.phase.batch == q.phase.batch && r.phase.now == q.phase.now
    && r.phase.next <= |q.phase.batch| && r.canceling == q.canceling && r.batches == q.batches
    && (forall i :: 0 <= i < r.phase.next ==> Settled(q, r, q.phase.batch[i], q.phase.now))
    && (forall i :: r.phase.next <= i < |q.phase.batch| ==> Untouched(q, r, q.phase.batch[i]))
    && (forall e :: e in r.timers <==> e in q.timers || e in Rearmed(q, r.phase.next))
  }

  lemma HeldAreApart(q: Queue, i: nat, j: nat)
    requires q.Valid() && i < |q.Held()| && j < |q.Held()| && i != j
    ensures q.Held()[i].addr != q.Held()[j].addr
  {
    var e, f := q.Held()[i], q.Held()[j];
    assert Less(e, f) || Less(f, e);
    assert e == Entry(e.when, e.addr) && f == Entry(f.when, f.addr) && q.Local(e.addr);
  }

  lemma RearmedGrows(q: Queue, k: nat)
    requires q.phase.Resetting? && k < |q.phase.batch| && q.phase.batch[k].addr in q.heap
    ensures var a := q.phase.batch[k].addr;
      Rearmed(q, k + 1) == Rearmed(q, k) +
        if Repeats(q, q.phase.batch[k]) then {Entry(q.phase.now + q.heap[a].interval, a)} else {}
  {
  }

  lemma RecycleChangesOneTimer(q: Queue, clock: Clock)
    requires q.Valid() && q.phase.Resetting? && q.phase.next < |q.phase.batch|
    ensures var r, e := ResetNext(q, clock), q.phase.batch[q.phase.next];
      && e.addr in q.heap && q.heap[e.addr].sequence <= q.numCreated && r.numCreated == q.numCreated
      && r.phase == Resetting(q.phase.batch, q.phase.next + 1, q.phase.now) && r.canceling == q.canceling && r.batches == q.batches
      && Settled(q, r, e, q.phase.now)
      && (forall b :: b != e.addr ==> (b in r.heap <==> b in q.heap) && (b in q.heap ==> r.heap[b] == q.heap[b]))
      && (forall x :: x in r.timers <==> x in q.timers || (Repeats(q, e) && x == Entry(q.phase.now + q.heap[e.addr].interval, e.addr)))
  {
    var e := q.phase.batch[q.phase.next];
    assert e == q.Held()[0] == Entry(e.when, e.addr) && q.Local(e.addr);
  }

  lemma RecycleKeepsResetUnderWay(q: Queue, r: Queue, clock: Clock)
    requires q.Valid() && q.phase.Resetting? && q.phase.next == 0
    requires r.Valid() && ResetUnderWay(q, r) && r.phase.next < |r.phase.batch|
    ensures ResetUnderWay(q, ResetNext(r, clock))
  {
    var batch, k := r.phase.batch, r.phase.next;
    var r', a := ResetNext(r, clock), batch[k].addr;
    RecycleChangesOneTimer(r, clock);
    assert q.Held() == batch;
    forall i | 0 <= i < |batch| && i != k ensures batch[i].addr != a { HeldAreApart(q, i, k); }
    assert Untouched(q, r, batch[k]);
    forall i | 0 <= i < k + 1 ensures Settled(q, r', batch[i], q.phase.now) {
      assert i < k ==> Settled(q, r, batch[i], q.phase.now);
    }
    forall i | k + 1 <= i < |batch| ensures Untouched(q, r', batch[i]) {
      assert Untouched(q, r, batch[i]);
    }
    RearmedGrows(q, k);
  }

  lemma NewKeepsResetUnderWay(q: Queue, r: Queue, a: Addr, when: int, interval: int)
    requires q.Valid() && q.phase.Resetting? && q.phase.next == 0
    requires r.Valid() && ResetUnderWay(q, r) && a !in r.heap
    ensures ResetUnderWay(q, NewTimer(r, a, when, interval))
  {
    var r', batch := NewTimer(r, a, when, interval), q.phase.batch;
    forall i | 0 <= i < r.phase.next ensures Settled(q, r', batch[i], q.phase.now) {
      assert Settled(q, r, batch[i], q.phase.now);
    }
    forall i | r.phase.next <= i < |batch| ensures Untouched(q, r', batch[i]) {
      assert Untouched(q, r, batch[i]);
    }
  }

  /** The batch of q is being reset, or its reset is over. */
  ghost predicate ResetOrLater(q: Queue, r: Queue)
    requires q.phase.Resetting?
  {
    ResetUnderWay(q, r) || (r.batches == q.batches && r.phase.Idle?) || q.batches < r.batches
  }

  lemma StepKeepsResetOrLater(q: Queue, r: Queue, ev: Event)
    requires q.Valid() && q.phase.Resetting? && q.phase.next == 0
    requires r.Valid() && ResetOrLater(q, r) && Enabled(r, ev)
    ensures ResetOrLater(q, Step(r, ev))
  {
    if ev.Reset? {
      ResetKeepsFiring(r, ev.clock);
    }
    if ResetUnderWay(q, r) {
      if ev.New? {
        NewKeepsResetUnderWay(q, r, ev.addr, ev.when, ev.interval);
      } else if r.phase.next < |r.phase.batch| {
        RecycleKeepsResetUnderWay(q, r, ev.clock);
      }
    } else if ev.Add? {
      assert r.Local(ev.addr);
    }
  }

  lemma {:induction false} RunKeepsResetOrLater(q: Queue, r: Queue, evs: seq<Event>)
    requires q.Valid() && q.phase.Resetting? && q.phase.next == 0 && r.Valid() && ResetOrLater(q, r)
    ensures ResetOrLater(q, Run(r, evs))
    decreases |evs|
  {
    if evs != [] {
      if Enabled(r, evs[0]) {
        StepKeepsResetOrLater(q, r, evs[0]);
        StepKeepsValid(r, evs[0]);
        RunKeepsResetOrLater(q, Step(r, evs[0]), evs[1..]);
      } else {
        RunKeepsResetOrLater(q, r, evs[1..]);
      }
    }
  }

  /**
   When reset() has been through its batch, whatever other threads create meanwhile: timers_ is
   what it was plus one entry for each repeating timer that was not canceled, one interval after
   the batch's clock; those timers keep their interval and sequence; all others are freed for good.
   */
  lemma ResetRearmsExactly(q: Queue, evs: seq<Event>)
    requires q.Valid() && q.phase.Resetting? && q.phase.next == 0
    ensures var r := Run(q, evs);
      r.batches == q.batches && r.phase.Resetting? && r.phase.next == |q.phase.batch| ==>
        && (forall e :: e in r.timers <==> e in q.timers || e in Rearmed(q, |q.phase.batch|))
        && (forall e :: e in q.phase.batch ==> Settled(q, r, e, q.phase.now))
  {
    assert q.Held() == q.phase.batch;
    forall i | 0 <= i < |q.phase.batch| ensures Untouched(q, q, q.phase.batch[i]) {
      var e := q.phase.batch[i];
      assert e in q.Held() && e == Entry(e.when, e.addr) && q.Local(e.addr);
    }
    assert ResetUnderWay(q, q);
    RunKeepsResetOrLater(q, q, evs);
  }

  // ---- arming

  function Max(a: int, b: int): int { if a < b then b else a }

  /** The timerfd fires no later than the earliest timer, or 100 microseconds after it was armed. */
  ghost predicate Armed(q: Queue) {
    q.timers != [] ==>
      q.deadline.Some? && q.deadline.value <= Max(q.timers[0].when, q.lastArmed + MIN_DELAY)
  }

  /**
   Inside handleRead the timerfd may stay unarmed until reset() ends, except for an earliest
   expiration that reset() would refuse as invalid: addTimerInLoop must have armed that one.
   */
  ghost predicate ArmedOrResetWill(q: Queue) {
    q.phase.Idle? || (q.timers != [] && q.timers[0].when <= 0) ==> Armed(q)
  }

  lemma HeadIsLeast(ts: seq<Entry>, e: Entry)
    requires Sorted(ts) && e in ts
    ensures ts[0].when <= e.when
  {
    var i :| 0 <= i < |ts| && ts[i] == e;
    assert i == 0 || Less(ts[0], ts[i]);
  }

  lemma StepKeepsArmed(q: Queue, ev: Event)
    requires q.Valid() && Enabled(q, ev) && ArmedOrResetWill(q)
    ensures ArmedOrResetWill(Step(q, ev))
  {
    var r := Step(q, ev);
    match ev
    case New(_, _, _) =>
    case Add(a, clock) => assert q.Local(a);
    case Cancel(id) =>
      if r.timers != [] {
        assert r.timers[0] in q.timers;
        HeadIsLeast(q.timers, r.timers[0]);
      }
    case Fire(clock, _) =>
      var n := LowerBound(q.timers, clock);
      assert r.timers != [] ==> r.timers[0] == q.timers[n];
    case Call =>
    case Reset(_) =>
      var Resetting(batch, k, now) := q.phase;
      if k < |batch| {
        assert batch[k] == q.Held()[0] == Entry(batch[k].when, batch[k].addr) && q.Local(batch[k].addr);
      }
  }

  lemma {:induction false} RunKeepsArmed(q: Queue, evs: seq<Event>)
    requires q.Valid() && ArmedOrResetWill(q)
    ensures ArmedOrResetWill(Run(q, evs))
    decreases |evs|
  {
    if evs != [] {
      if Enabled(q, evs[0]) {
        StepKeepsArmed(q, evs[0]);
        StepKeepsValid(q, evs[0]);
        RunKeepsArmed(Step(q, evs[0]), evs[1..]);
      } else {
        RunKeepsArmed(q, evs[1..]);
      }
    }
  }

  /** The steps that set the timerfd: an add that becomes the earliest, and the end of reset() with a valid earliest timer. */
  predicate Arms(q: Queue, ev: Event)
    requires q.Valid() && Enabled(q, ev)
  {
    match ev
    case Add(a, _) => a in q.heap && (q.timers == [] || q.heap[a].expiration < q.timers[0].when)
    case Reset(_) => q.phase.next == |q.phase.batch| && q.timers != [] && 0 < q.timers[0].when
    case _ => false
  }

  /**
   The deadline after every step: a step that sets the timerfd sets it for the earliest timer, or for
   100 microseconds from now if that is later; otherwise it changes only when handleRead consumes it.
   */
  lemma DeadlineIsExact(q: Queue, ev: Event)
    requires q.Valid() && Enabled(q, ev)
    ensures var r := Step(q, ev);
      if Arms(q, ev) then r.timers != [] && r.deadline == Some(Max(r.timers[0].when, ev.clock + MIN_DELAY)) && r.lastArmed == ev.clock
      else r.lastArmed == q.lastArmed && r.deadline == if ev.Fire? && ev.consumed then None else q.deadline
  {
    if ev.Add? {
      assert q.Local(ev.addr);
    } else if ev.Reset? && q.phase.next < |q.phase.batch| {
      var e := q.phase.batch[q.phase.next];
      assert e == q.Held()[0] == Entry(e.when, e.addr) && q.Local(e.addr);
    }
  }

  /** Outside handleRead a non-empty queue is always armed early enough. */
  lemma NoTimerIsForgotten(evs: seq<Event>)
    ensures INIT.Valid()
    ensures Run(INIT, evs).phase.Idle? ==> Armed(Run(INIT, evs))
  {
    InitIsValid();
    RunKeepsArmed(INIT, evs);
  }

  // ---- firing

  /** The held timers whose callbacks have started. */
  function CalledHeld(q: Queue): seq<Entry> {
    if q.phase.Calling? && q.phase.next <= |q.phase.batch| then q.phase.batch[..q.phase.next] else
    if q.phase.Resetting? then q.Held() else []
  }

  /** How many callbacks of the current batch have started. */
  ghost function Called(q: Queue): nat {
    match q.phase
    case Idle => 0
    case Calling(_, k, _) => k
    case Resetting(batch, _, _) => |batch|
  }

  ghost predicate FiredFor(f: Firing, e: Entry, batch: nat, now: int) {
    f.id.addr == e.addr && f.due == e.when && f.batch == batch && f.now == now && f.due <= now
  }

  /** The history ends with the current batch, in order; what is before it belongs to earlier batches and was due. */
  ghost predicate BatchHistory(q: Queue) {
    && var c := Called(q);
    && c <= |q.ran|
    && (forall i :: 0 <= i < |q.ran| - c ==> q.ran[i].batch <= q.batches && q.ran[i].due <= q.ran[i].now)
    && (!q.phase.Idle? ==>
          && c <= |q.phase.batch|
          && (forall e :: e in q.phase.batch ==> e.when <= q.phase.now)
          && (forall i, j :: 0 <= i < j < |q.phase.batch| ==> q.phase.batch[i].addr != q.phase.batch[j].addr)
          && (forall i :: 0 <= i < |q.ran| - c ==> q.ran[i].batch < q.batches)
          && forall i :: 0 <= i < c ==> FiredFor(q.ran[|q.ran| - c + i], q.phase.batch[i], q.batches, q.phase.now))
  }

  /** A one-shot timer that ran is freed, or held in the batch that ran it. */
  ghost predicate Spent(q: Queue, f: Firing) {
    && f.id.sequence <= q.numCreated
    && (!f.repeat && Live(q, f.id) ==>
          q.EntryAt(f.id.addr) in q.Held() && !q.heap[f.id.addr].Repeat() && f.batch == q.batches)
  }

  ghost predicate History(q: Queue) {
    BatchHistory(q) && forall f :: f in q.ran ==> Spent(q, f)
  }

  /** No timer runs twice in a batch, and a one-shot timer runs once at most. */
  ghost predicate RunsAreApart(ran: seq<Firing>) {
    forall i, j :: 0 <= i < j < |ran| && ran[i].id == ran[j].id ==> ran[i].batch < ran[j].batch && ran[i].repeat
  }

  /** The timer of f is as it was, in the same place. */
  lemma SpentStays(q: Queue, r: Queue, f: Firing)
    requires Spent(q, f) && q.numCreated <= r.numCreated && r.batches == q.batches
    requires Live(r, f.id) ==> Live(q, f.id) && r.heap[f.id.addr] == q.heap[f.id.addr]
    requires Live(r, f.id) && q.EntryAt(f.id.addr) in q.Held() ==> r.EntryAt(f.id.addr) in r.Held()
    ensures Spent(r, f)
  {
  }

  lemma UserStepKeepsSpent(q: Queue, ev: Event, f: Firing)
    requires q.Valid() && Enabled(q, ev) && Spent(q, f) && (ev.New? || ev.Add? || ev.Cancel?)
    ensures Spent(Step(q, ev), f)
  {
    var r := Step(q, ev);
    assert ev.Add? ==> q.Local(ev.addr);
    assert r.Held() == q.Held();
    SpentStays(q, r, f);
  }

  lemma BeginKeepsSpent(q: Queue, now: Clock, consumed: bool, f: Firing)
    requires q.Valid() && q.phase.Idle? && Spent(q, f)
    ensures Spent(BeginRead(q, now, consumed), f)
  {
    assert q.Held() == [];
  }

  lemma CallKeepsSpent(q: Queue, f: Firing)
    requires q.Valid() && q.phase.Calling? && Spent(q, f)
    ensures Spent(CallNext(q), f)
  {
    assert CallNext(q).Held() == q.Held();
    SpentStays(q, CallNext(q), f);
  }

  lemma RecycleKeepsSpent(q: Queue, clock: Clock, f: Firing)
    requires q.Valid() && q.phase.Resetting? && q.phase.next < |q.phase.batch| && Spent(q, f)
    ensures Spent(ResetNext(q, clock), f)
  {
    var r, e := ResetNext(q, clock), q.phase.batch[q.phase.next];
    RecycleChangesOneTimer(q, clock);
    assert q.Held() == [e] + r.Held();
    if f.id.addr != e.addr {
      SpentStays(q, r, f);
    } else if !f.repeat && Live(q, f.id) {
      assert e == Entry(e.when, e.addr) && q.Local(e.addr);
    }
  }

  lemma StepKeepsSpent(q: Queue, ev: Event, f: Firing)
    requires q.Valid() && Enabled(q, ev) && Spent(q, f)
    ensures Spent(Step(q, ev), f)
  {
    if ev.Fire? {
      BeginKeepsSpent(q, ev.clock, ev.consumed, f);
    } else if ev.Call? {
      CallKeepsSpent(q, f);
    } else if !ev.Reset? {
      UserStepKeepsSpent(q, ev, f);
    } else if q.phase.next < |q.phase.batch| {
      RecycleKeepsSpent(q, ev.clock, f);
    } else {
      assert q.Held() == [];
    }
  }

  lemma CallKeepsBatchHistory(q: Queue)
    requires q.Valid() && q.phase.Calling? && BatchHistory(q)
    ensures BatchHistory(CallNext(q))
    ensures forall f :: f in CallNext(q).ran && f !in q.ran ==> Spent(CallNext(q), f)
  {
    var r := CallNext(q);
    var Calling(batch, k, now) := q.phase;
    assert r.Held() == q.Held();
    if k < |batch| {
      assert batch[k] in q.Held() && batch[k] == Entry(batch[k].when, batch[k].addr) && q.Local(batch[k].addr);
      var n := |q.ran|;
      forall i | 0 <= i <= k ensures FiredFor(r.ran[n - k + i], batch[i], r.batches, now) {
        assert i < k ==> FiredFor(q.ran[n - k + i], batch[i], q.batches, now);
      }
    }
  }

  lemma BeginKeepsBatchHistory(q: Queue, now: Clock, consumed: bool)
    requires q.Valid() && q.phase.Idle? && BatchHistory(q)
    ensures BatchHistory(BeginRead(q, now, consumed))
  {
    var batch := BeginRead(q, now, consumed).phase.batch;
    forall i, j | 0 <= i < j < |batch| ensures batch[i].addr != batch[j].addr {
      assert batch[i] in q.timers && batch[j] in q.timers && Less(batch[i], batch[j]);
      assert batch[i] == Entry(batch[i].when, batch[i].addr) && batch[j] == Entry(batch[j].when, batch[j].addr);
      assert q.Local(batch[i].addr);
    }
  }

  lemma ResetKeepsFiring(q: Queue, clock: Clock)
    requires q.Valid() && q.phase.Resetting?
    ensures var r := ResetNext(q, clock);
      && r.ran == q.ran && r.batches == q.batches
      && (r.phase.Idle? || r.phase == Resetting(q.phase.batch, q.phase.next + 1, q.phase.now))
  {
    if q.phase.next < |q.phase.batch| {
      var e := q.phase.batch[q.phase.next];
      assert e == q.Held()[0] == Entry(e.when, e.addr) && q.Local(e.addr);
    }
  }

  lemma ResetKeepsBatchHistory(q: Queue, clock: Clock)
    requires q.Valid() && q.phase.Resetting? && BatchHistory(q)
    ensures BatchHistory(ResetNext(q, clock)) && ResetNext(q, clock).ran == q.ran
  {
    ResetKeepsFiring(q, clock);
    HistoryIsDue(q);
    BatchesBounded(q);
    SameBatchHistory(q, ResetNext(q, clock));
  }

  lemma SameBatchHistory(q: Queue, r: Queue)
    requires BatchHistory(q) && q.phase.Resetting? && r.ran == q.ran && r.batches == q.batches
    requires r.phase.Idle? || (r.phase.Resetting? && r.phase.batch == q.phase.batch && r.phase.now == q.phase.now)
    requires forall i :: 0 <= i < |q.ran| ==> q.ran[i].due <= q.ran[i].now && q.ran[i].batch <= q.batches
    ensures BatchHistory(r)
  {
  }

  lemma BatchesBounded(q: Queue)
    requires BatchHistory(q)
    ensures forall i :: 0 <= i < |q.ran| ==> q.ran[i].batch <= q.batches
  {
    var m := |q.ran| - Called(q);
    forall i | m <= i < |q.ran| ensures q.ran[i].batch <= q.batches {
      assert FiredFor(q.ran[m + (i - m)], q.phase.batch[i - m], q.batches, q.phase.now);
    }
  }

  lemma UserStepKeepsBatchHistory(q: Queue, ev: Event)
    requires q.Valid() && Enabled(q, ev) && BatchHistory(q) && (ev.New? || ev.Add? || ev.Cancel?)
    ensures BatchHistory(Step(q, ev)) && Step(q, ev).ran == q.ran
  {
    UserStepKeepsFiring(q, ev);
    SameFiring(q, Step(q, ev));
  }

  lemma UserStepKeepsFiring(q: Queue, ev: Event)
    requires q.Valid() && Enabled(q, ev) && (ev.New? || ev.Add? || ev.Cancel?)
    ensures var r := Step(q, ev); r.ran == q.ran && r.phase == q.phase && r.batches == q.batches
  {
    assert ev.Add? ==> q.Local(ev.addr);
  }

  lemma SameFiring(q: Queue, r: Queue)
    requires BatchHistory(q) && r.ran == q.ran && r.phase == q.phase && r.batches == q.batches
    ensures BatchHistory(r)
  {
  }

  lemma StepKeepsBatchHistory(q: Queue, ev: Event)
    requires q.Valid() && Enabled(q, ev) && BatchHistory(q)
    ensures BatchHistory(Step(q, ev))
    ensures forall f :: f in Step(q, ev).ran && f !in q.ran ==> Spent(Step(q, ev), f)
  {
    if ev.Fire? {
      BeginKeepsBatchHistory(q, ev.clock, ev.consumed);
    } else if ev.Call? {
      CallKeepsBatchHistory(q);
    } else if ev.Reset? {
      ResetKeepsBatchHistory(q, ev.clock);
    } else {
      UserStepKeepsBatchHistory(q, ev);
    }
  }

  lemma StepKeepsHistory(q: Queue, ev: Event)
    requires q.Valid() && Enabled(q, ev) && History(q)
    ensures History(Step(q, ev))
  {
    StepKeepsBatchHistory(q, ev);
    forall f | f in Step(q, ev).ran ensures Spent(Step(q, ev), f) {
      if f in q.ran {
        StepKeepsSpent(q, ev, f);
      }
    }
  }

  lemma StepKeepsRunsApart(q: Queue, ev: Event)
    requires q.Valid() && Enabled(q, ev) && History(q) && RunsAreApart(q.ran)
    ensures RunsAreApart(Step(q, ev).ran)
  {
    if ev.Call? && q.phase.next < |q.phase.batch| {
      var r := Step(q, ev);
      var Calling(batch, k, now) := q.phase;
      assert batch[k] in q.Held() && batch[k] == Entry(batch[k].when, batch[k].addr) && q.Local(batch[k].addr);
      var n := |q.ran|;
      forall i | n - k <= i < n ensures r.ran[i].id.addr != r.ran[n].id.addr {
        assert FiredFor(q.ran[n - k + (i - (n - k))], batch[i - (n - k)], q.batches, now);
      }
      forall i | 0 <= i < n && r.ran[i].id == r.ran[n].id ensures r.ran[i].batch < r.ran[n].batch && r.ran[i].repeat {
        assert q.ran[i] in q.ran;
      }
    }
  }

  lemma {:induction false} RunKeepsHistory(q: Queue, evs: seq<Event>)
    requires q.Valid() && History(q) && RunsAreApart(q.ran)
    ensures History(Run(q, evs)) && RunsAreApart(Run(q, evs).ran)
    decreases |evs|
  {
    if evs != [] {
      if Enabled(q, evs[0]) {
        StepKeepsHistory(q, evs[0]);
        StepKeepsRunsApart(q, evs[0]);
        StepKeepsValid(q, evs[0]);
        RunKeepsHistory(Step(q, evs[0]), evs[1..]);
      } else {
        RunKeepsHistory(q, evs[1..]);
      }
    }
  }

  lemma HistoryIsDue(q: Queue)
    requires BatchHistory(q)
    ensures forall i :: 0 <= i < |q.ran| ==> q.ran[i].due <= q.ran[i].now
  {
    var m := |q.ran| - Called(q);
    forall i | m <= i < |q.ran| ensures q.ran[i].due <= q.ran[i].now {
      assert FiredFor(q.ran[m + (i - m)], q.phase.batch[i - m], q.batches, q.phase.now);
    }
  }

  /** Every due timer and only those: the batch handleRead takes is the part of timers_ due by its clock. */
  lemma BatchIsExactlyTheDue(q: Queue, now: Clock, consumed: bool)
    requires q.Valid() && q.phase.Idle?
    ensures var r := BeginRead(q, now, consumed);
      && (forall e :: e in q.timers ==> (e in r.phase.batch <==> e.when <= now) && (e in r.timers <==> now < e.when))
      && Sorted(r.phase.batch) && r.phase.batch + r.timers == q.timers
  {
    SortedSplit(q.timers, LowerBound(q.timers, now));
  }

  /** No callback ran early, and when reset() starts the whole batch has run, in order of expiration. */
  ghost predicate FiringsInOrder(q: Queue) {
    && RunsAreApart(q.ran)
    && (forall i :: 0 <= i < |q.ran| ==> q.ran[i].due <= q.ran[i].now)
    && (q.phase.Resetting? ==>
          && |q.phase.batch| <= |q.ran|
          && forall i :: 0 <= i < |q.phase.batch| ==>
               FiredFor(q.ran[|q.ran| - |q.phase.batch| + i], q.phase.batch[i], q.batches, q.phase.now))
  }

  /**
   Over every run: no callback runs before its timer is due, none runs twice in one batch,
   a one-shot timer runs at most once, and when reset() starts the whole batch has run in
   order of expiration.
   */
  lemma FiringsAreInOrder(evs: seq<Event>)
    ensures INIT.Valid()
    ensures FiringsInOrder(Run(INIT, evs))
  {
    InitIsValid();
    RunKeepsHistory(INIT, evs);
    HistoryIsDue(Run(INIT, evs));
  }
}
