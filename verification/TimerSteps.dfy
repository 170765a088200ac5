/**
 The timer queue of an event loop as a step system over an explicit heap of timers.

 A timer is known by its address and its sequence number. Addresses come from an
 allocator that may hand out a freed address again. The clock, the allocator, the timerfd
 and the user (including callbacks that re-enter the queue) are inputs of the steps.
 */
module TimerSteps {
  import opened Wrappers

  type Addr = nat
  /** What Timestamp::now() returns: microseconds after the epoch. */
  type Clock = t: int | 0 < t witness 1

  const MICROS_PER_SECOND := 1_000_000
  const MIN_DELAY := 100

  datatype Timer = Timer(expiration: int, interval: int, sequence: nat) {
    predicate Repeat() { interval > 0 }

    function Restart(now: Clock): Timer {
      this.(expiration := if Repeat() then now + interval else 0)
    }
  }

  datatype TimerId = TimerId(addr: Addr, sequence: nat)

  datatype Entry = Entry(when: int, addr: Addr)

  predicate Less(a: Entry, b: Entry) {
    a.when < b.when || (a.when == b.when && a.addr < b.addr)
  }

  /** The iteration order of std::set<Entry>. */
  ghost predicate Sorted(ts: seq<Entry>) {
    forall i, j :: 0 <= i < j < |ts| ==> Less(ts[i], ts[j])
  }

  function InsertEntry(ts: seq<Entry>, e: Entry): (r: seq<Entry>)
    ensures forall x :: x in r <==> x == e || x in ts
    ensures Sorted(ts) ==> Sorted(r)
    ensures r != [] && r[0] == if ts == [] || Less(e, ts[0]) then e else ts[0]
  {
    if ts == [] then [e]
    else if e == ts[0] then ts
    else if Less(e, ts[0]) then [e] + ts
    else
      var rest := InsertEntry(ts[1..], e);
      assert forall x :: x in ts <==> x == ts[0] || x in ts[1..];
      assert Sorted(ts) ==> forall x :: x in rest ==> Less(ts[0], x);
      [ts[0]] + rest
  }

  function EraseEntry(ts: seq<Entry>, e: Entry): (r: seq<Entry>)
    ensures Sorted(ts) ==> Sorted(r) && forall x :: x in r <==> x != e && x in ts
    ensures forall x :: x in r ==> x in ts
  {
    if ts == [] then []
    else
      assert forall x :: x in ts <==> x == ts[0] || x in ts[1..];
      if e == ts[0] then ts[1..]
      else
        var rest := EraseEntry(ts[1..], e);
        assert Sorted(ts) ==> forall x :: x in rest ==> Less(ts[0], x);
        [ts[0]] + rest
  }

  /** std::set::lower_bound for the sentry (now, UINTPTR_MAX): no timer has that address. */
  function LowerBound(ts: seq<Entry>, now: int): (n: nat)
    ensures n <= |ts|
    ensures forall i :: 0 <= i < n ==> ts[i].when <= now
    ensures Sorted(ts) ==> forall i :: n <= i < |ts| ==> now < ts[i].when
  {
    if ts == [] || now < ts[0].when then 0 else
      var n := LowerBound(ts[1..], now);
      assert forall i :: 0 < i < |ts| ==> ts[i] == ts[1..][i - 1];
      n + 1
  }

  /** Where the loop thread stands: outside handleRead, in its callback loop, or in reset(). */
  datatype Phase =
    | Idle
    | Calling(batch: seq<Entry>, next: nat, now: Clock)
    | Resetting(batch: seq<Entry>, next: nat, now: Clock)

  /** One call of Timer::run, as the history records it. */
  datatype Firing = Firing(id: TimerId, batch: nat, due: int, now: int, repeat: bool)

  datatype Queue = Queue(
    heap: map<Addr, Timer>,      // live timers
    numCreated: nat,             // Timer::s_numCreated_
    posted: set<Addr>,           // built by addTimer, addTimerInLoop not run yet
    timers: seq<Entry>,
    active: set<TimerId>,
    canceling: set<TimerId>,
    phase: Phase,
    batches: nat,                // handleRead calls so far
    deadline: Option<int>,       // when the timerfd becomes readable
    lastArmed: int,              // clock at the last timerfd_settime
    ran: seq<Firing>)            // history
  {
    /** Entries taken out of timers_ and not yet deleted or re-inserted. */
    function Held(): seq<Entry> {
      if phase.Calling? then phase.batch
      else if phase.Resetting? && phase.next <= |phase.batch| then phase.batch[phase.next..]
      else []
    }

    function IdAt(a: Addr): TimerId requires a in heap {
      TimerId(a, heap[a].sequence)
    }

    function EntryAt(a: Addr): Entry requires a in heap {
      Entry(heap[a].expiration, a)
    }

    /**
     What holds of one address. Entries carry the live timer's own expiration as their key.
     A live timer has exactly one owner: a posted add, timers_, or the held batch.
     activeTimers_ names it exactly when timers_ holds it.
     */
    ghost predicate Local(a: Addr) {
      && (forall w :: Entry(w, a) in timers ==> a in heap && w == heap[a].expiration)
      && (forall w :: Entry(w, a) in Held() ==> a in heap && w == heap[a].expiration)
      && (forall s :: TimerId(a, s) in active ==> a in heap && s == heap[a].sequence && EntryAt(a) in timers)
      && (a in posted ==> a in heap)
      && (a in heap ==>
            && 0 < heap[a].sequence <= numCreated
            && (EntryAt(a) in timers ==> IdAt(a) in active)
            && !(EntryAt(a) in timers && EntryAt(a) in Held())
            && (a in posted <==> EntryAt(a) !in timers && EntryAt(a) !in Held()))
    }

    ghost predicate DistinctSequences() {
      forall a, b :: a in heap && b in heap && heap[a].sequence == heap[b].sequence ==> a == b
    }

    ghost predicate Valid() {
      && (phase.Idle? || phase.next <= |phase.batch|)
      && Sorted(timers) && Sorted(Held())
      && DistinctSequences()
      && forall a :: Local(a)
    }
  }

  const INIT := Queue(map[], 0, {}, [], {}, {}, Idle, 0, None, 0, [])

  datatype Timespec = Timespec(sec: int, nsec: int)

  function HowMuchTimeFromNow(when: int, now: Clock): (ts: Timespec)
    ensures ts.sec * MICROS_PER_SECOND * 1000 + ts.nsec
         == 1000 * (if when - now < MIN_DELAY then MIN_DELAY else when - now)
    ensures 0 <= ts.sec && 0 <= ts.nsec < 1_000_000_000
  {
    var micros := if when - now < MIN_DELAY then MIN_DELAY else when - now;
    Timespec(micros / MICROS_PER_SECOND, (micros % MICROS_PER_SECOND) * 1000)
  }

  function ResetTimerfd(q: Queue, when: int, now: Clock): Queue {
    var ts := HowMuchTimeFromNow(when, now);
    q.(deadline := Some(now + ts.sec * MICROS_PER_SECOND + ts.nsec / 1000), lastArmed := now)
  }

  function Insert(q: Queue, a: Addr): (Queue, bool)
    requires a in q.heap
  {
    var when := q.heap[a].expiration;
    (q.(timers := InsertEntry(q.timers, q.EntryAt(a)), active := q.active + {q.IdAt(a)}),
     q.timers == [] || when < q.timers[0].when)
  }

  /** `new Timer` on any thread: the allocator answers with an address that is not live. */
  function NewTimer(q: Queue, a: Addr, when: int, interval: int): Queue
    requires a !in q.heap
  {
    q.(heap := q.heap[a := Timer(when, interval, q.numCreated + 1)],
       numCreated := q.numCreated + 1, posted := q.posted + {a})
  }

  function AddTimerInLoop(q: Queue, a: Addr, now: Clock): Queue
    requires a in q.heap
  {
    var (r, earliestChanged) := Insert(q.(posted := q.posted - {a}), a);
    if earliestChanged then ResetTimerfd(r, q.heap[a].expiration, now) else r
  }

  function Delete(q: Queue, a: Addr): Queue
    requires a in q.heap
  {
    q.(heap := q.heap - {a})
  }

  function CancelInLoop(q: Queue, id: TimerId): Queue
    requires q.Valid()
  {
    if id in q.active then
      assert q.Local(id.addr) && id == TimerId(id.addr, id.sequence);
      var e := q.EntryAt(id.addr);
      Delete(q.(timers := EraseEntry(q.timers, e), active := q.active - {id}), id.addr)
    else if q.phase.Calling? then q.(canceling := q.canceling + {id})
    else q
  }

  /** The ids of a batch of live timers. */
  function BatchIds(heap: map<Addr, Timer>, es: seq<Entry>): set<TimerId>
    requires forall e :: e in es ==> e.addr in heap
  {
    set e | e in es :: TimerId(e.addr, heap[e.addr].sequence)
  }

  /** handleRead up to its callback loop; `consumed` tells whether the timerfd really had expired. */
  function BeginRead(q: Queue, now: Clock, consumed: bool): Queue
    requires q.Valid() && q.phase.Idle?
  {
    var n := LowerBound(q.timers, now);
    var expired := q.timers[..n];
    assert forall e :: e in expired ==> e == Entry(e.when, e.addr) && q.Local(e.addr);
    q.(timers := q.timers[n..], active := q.active - BatchIds(q.heap, expired), canceling := {},
       phase := Calling(expired, 0, now), batches := q.batches + 1,
       deadline := if consumed then None else q.deadline)
  }

  /** The next callback starts, or the callback loop ends. */
  function CallNext(q: Queue): Queue
    requires q.Valid() && q.phase.Calling?
  {
    var Calling(batch, k, now) := q.phase;
    if k < |batch| then
      assert batch[k] in q.Held() && batch[k] == Entry(batch[k].when, batch[k].addr) && q.Local(batch[k].addr);
      var a := batch[k].addr;
      q.(phase := Calling(batch, k + 1, now),
         ran := q.ran + [Firing(q.IdAt(a), q.batches, q.heap[a].expiration, now, q.heap[a].Repeat())])
    else q.(phase := Resetting(batch, 0, now))
  }

  /** One iteration of reset()'s loop, or its end, which arms the timerfd. */
  function ResetNext(q: Queue, clock: Clock): Queue
    requires q.Valid() && q.phase.Resetting?
  {
    var Resetting(batch, k, now) := q.phase;
    if k < |batch| then
      assert batch[k] == q.Held()[0] == Entry(batch[k].when, batch[k].addr) && q.Local(batch[k].addr);
      var a := batch[k].addr;
      var q1 := q.(phase := Resetting(batch, k + 1, now));
      if q.heap[a].Repeat() && q.IdAt(a) !in q.canceling then
        Insert(q1.(heap := q1.heap[a := q1.heap[a].Restart(now)]), a).0
      else Delete(q1, a)
    else
      var q1 := q.(phase := Idle);
      if q.timers != [] && 0 < q.timers[0].when then ResetTimerfd(q1, q.timers[0].when, clock) else q1
  }

  datatype Event =
    | New(addr: Addr, when: int, interval: int)
    | Add(addr: Addr, clock: Clock)
    | Cancel(id: TimerId)
    | Fire(clock: Clock, consumed: bool)
    | Call
    | Reset(clock: Clock)

  /** The event can happen now: each names the thread position and the allocator answer it needs. */
  predicate Enabled(q: Queue, ev: Event) {
    match ev
    case New(a, _, _) => a !in q.heap
    case Add(a, _) => a in q.posted && !q.phase.Resetting?
    case Cancel(_) => !q.phase.Resetting?
    case Fire(_, _) => q.phase.Idle?
    case Call => q.phase.Calling?
    case Reset(_) => q.phase.Resetting?
  }

  function Step(q: Queue, ev: Event): Queue
    requires q.Valid() && Enabled(q, ev)
  {
    match ev
    case New(a, when, interval) => NewTimer(q, a, when, interval)
    case Add(a, clock) =>
      assert q.Local(a);
      AddTimerInLoop(q, a, clock)
    case Cancel(id) => CancelInLoop(q, id)
    case Fire(clock, consumed) => BeginRead(q, clock, consumed)
    case Call => CallNext(q)
    case Reset(clock) => ResetNext(q, clock)
  }

  /** A run; an event that cannot happen is skipped. */
  function Run(q: Queue, evs: seq<Event>): (r: Queue)
    requires q.Valid()
    ensures r.Valid()
    decreases |evs|
  {
    if evs == [] then q
    else if Enabled(q, evs[0]) then
      StepKeepsValid(q, evs[0]);
      Run(Step(q, evs[0]), evs[1..])
    else Run(q, evs[1..])
  }

  lemma SortedSplit(ts: seq<Entry>, n: nat)
    requires Sorted(ts) && n <= |ts|
    ensures Sorted(ts[..n]) && Sorted(ts[n..])
    ensures forall e :: e in ts <==> e in ts[..n] || e in ts[n..]
    ensures forall e :: !(e in ts[..n] && e in ts[n..])
  {
    assert ts == ts[..n] + ts[n..];
  }

  // ---- every step keeps the queue valid

  /** Nothing outside address a differs between q and r, and a itself is in order in r. */
  ghost predicate OnlyAt(q: Queue, r: Queue, a: Addr) {
    && (forall b :: b != a ==> (b in r.heap <==> b in q.heap) && (b in r.posted <==> b in q.posted))
    && (forall b :: b != a && b in q.heap ==> r.heap[b] == q.heap[b])
    && (forall e: Entry :: e.addr != a ==> (e in r.timers <==> e in q.timers) && (e in r.Held() <==> e in q.Held()))
    && (forall id: TimerId :: id.addr != a ==> (id in r.active <==> id in q.active))
  }

  lemma LocalChange(q: Queue, r: Queue, a: Addr)
    requires q.Valid() && OnlyAt(q, r, a) && q.numCreated <= r.numCreated
    requires r.phase.Idle? || r.phase.next <= |r.phase.batch|
    requires Sorted(r.timers) && Sorted(r.Held()) && r.Local(a) && r.DistinctSequences()
    ensures r.Valid()
  {
    forall b ensures r.Local(b) {
      assert q.Local(b);
    }
  }

  lemma NewKeepsValid(q: Queue, a: Addr, when: int, interval: int)
    requires q.Valid() && a !in q.heap
    ensures NewTimer(q, a, when, interval).Valid()
  {
    var r := NewTimer(q, a, when, interval);
    assert r.Held() == q.Held();
    assert q.Local(a);
    forall b | b in q.heap ensures q.heap[b].sequence <= q.numCreated { assert q.Local(b); }
    LocalChange(q, r, a);
  }

  lemma InsertKeepsValid(q: Queue, a: Addr)
    requires a in q.posted && q.Valid()
    ensures a in q.heap && Insert(q.(posted := q.posted - {a}), a).0.Valid()
  {
    assert q.Local(a);
    var r := Insert(q.(posted := q.posted - {a}), a).0;
    assert r.Held() == q.Held();
    LocalChange(q, r, a);
  }

  lemma ArmKeepsValid(q: Queue, when: int, now: Clock)
    requires q.Valid()
    ensures ResetTimerfd(q, when, now).Valid()
  {
    var r := ResetTimerfd(q, when, now);
    assert r.Held() == q.Held() && q.Local(0);
    LocalChange(q, r, 0);
  }

  lemma AddKeepsValid(q: Queue, a: Addr, now: Clock)
    requires q.Valid() && a in q.posted
    ensures a in q.heap && AddTimerInLoop(q, a, now).Valid()
  {
    InsertKeepsValid(q, a);
    ArmKeepsValid(Insert(q.(posted := q.posted - {a}), a).0, q.heap[a].expiration, now);
  }

  lemma CancelKeepsValid(q: Queue, id: TimerId)
    requires q.Valid()
    ensures CancelInLoop(q, id).Valid()
  {
    var r := CancelInLoop(q, id);
    assert r.Held() == q.Held();
    assert q.Local(id.addr) && id == TimerId(id.addr, id.sequence);
    LocalChange(q, r, id.addr);
  }

  lemma BeginKeepsValid(q: Queue, now: Clock, consumed: bool)
    requires q.Valid() && q.phase.Idle?
    ensures BeginRead(q, now, consumed).Valid()
  {
    var r := BeginRead(q, now, consumed);
    var n := LowerBound(q.timers, now);
    assert r.Held() == q.timers[..n];
    SortedSplit(q.timers, n);
    forall a ensures r.Local(a) {
      assert q.Local(a);
      assert a in q.heap ==> r.EntryAt(a) == q.EntryAt(a);
    }
  }

  lemma CallKeepsValid(q: Queue)
    requires q.Valid() && q.phase.Calling?
    ensures CallNext(q).Valid()
  {
    var r := CallNext(q);
    assert r.Held() == q.Held() && q.Local(0);
    LocalChange(q, r, 0);
  }

  /** The first held timer is freed, or goes back into the queue with its new expiration. */
  lemma RecycleKeepsValid(q: Queue, clock: Clock)
    requires q.Valid() && q.phase.Resetting? && q.phase.next < |q.phase.batch|
    ensures ResetNext(q, clock).Valid()
  {
    var Resetting(batch, k, now) := q.phase;
    var r, a := ResetNext(q, clock), batch[k].addr;
    SortedSplit(q.Held(), 1);
    assert r.Held() == q.Held()[1..] && q.Held()[..1] == [batch[k]];
    assert batch[k] == Entry(batch[k].when, a) && q.Local(a);
    LocalChange(q, r, a);
  }

  lemma ResetKeepsValid(q: Queue, clock: Clock)
    requires q.Valid() && q.phase.Resetting?
    ensures ResetNext(q, clock).Valid()
  {
    if q.phase.next < |q.phase.batch| {
      RecycleKeepsValid(q, clock);
    } else {
      var q1 := q.(phase := Idle);
      assert q1.Held() == q.Held() && q.Local(0);
      LocalChange(q, q1, 0);
      ArmKeepsValid(q1, if q.timers == [] then 0 else q.timers[0].when, clock);
    }
  }

  lemma StepKeepsValid(q: Queue, ev: Event)
    requires q.Valid() && Enabled(q, ev)
    ensures ev.Add? ==> ev.addr in q.heap
    ensures Step(q, ev).Valid()
  {
    match ev
    case New(a, when, interval) => NewKeepsValid(q, a, when, interval);
    case Add(a, clock) => AddKeepsValid(q, a, clock);
    case Cancel(id) => CancelKeepsValid(q, id);
    case Fire(clock, consumed) => BeginKeepsValid(q, clock, consumed);
    case Call => CallKeepsValid(q);
    case Reset(clock) => ResetKeepsValid(q, clock);
  }
}
