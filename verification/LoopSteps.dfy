/**
 The task queue of an event loop: the loop thread with its program counter, and any number of
 other threads that push under the mutex and then write the eventfd.
 */
module LoopSteps {

  type Functor = nat
  type Thread = nat

  /** An eventfd counter never exceeds this value; a write that would is refused. */
  const EVENTFD_MAX: nat := 0xffff_ffff_ffff_fffe

  datatype Pc =
    | Check                     // while (!quit_)
    | Poll                      // blocked in poll
    | Handle(wake: bool)        // dispatching channels; wake: the wakeup channel is reported and not handled yet
    | Swap                      // callingPendingFunctors_ set, the mutex not taken yet
    | Work(owes: bool)          // running the batch; owes: a running functor has pushed and not written yet
    | Stopped

  datatype Loop = Loop(
    pc: Pc,
    pending: seq<Functor>,      // pendingFunctors_
    batch: seq<Functor>,        // what is left of the swapped-out vector
    calling: bool,              // callingPendingFunctors_
    quit: bool,
    counter: nat,               // the eventfd
    writing: set<Thread>,       // other threads between their push (or quit) and their write
    rounds: nat,                // swaps so far
    pushed: seq<Functor>,       // history: pushes in lock order
    done: seq<Functor>)         // history: functors executed
  {
    ghost predicate Valid() {
      && pushed == done + batch + pending
      && (batch != [] ==> pc.Work?)
      && calling == (pc.Swap? || pc.Work?)
      && counter <= EVENTFD_MAX
      && ((pc.Poll? || pc.Check? || pc.Work?) && pending != [] ==> WakeComing())
      && (pc.Poll? && quit ==> WakeComing())
    }

    /** The next poll returns at once, or some thread is about to make it so. */
    ghost predicate WakeComing() {
      counter > 0 || writing != {} || pc == Work(true)
    }
  }

  const INIT := Loop(Check, [], [], false, false, 0, {}, 0, [], [])

  /** wakeup(): the write fails only when the counter is full, hence positive. */
  function Wakeup(q: Loop): Loop {
    if q.counter < EVENTFD_MAX then q.(counter := q.counter + 1) else q
  }

  datatype Event =
    | Post(thread: Thread, functor: Functor)   // queueInLoop on another thread, up to the unlock
    | Quit(thread: Thread)                     // quit() on another thread, up to its wakeup
    | Write(thread: Thread)                    // that thread's wakeup
    | OwnPost(functor: Functor)                // queueInLoop on the loop thread, up to the unlock
    | OwnWrite                                 // its wakeup
    | OwnQuit
    | Test                                     // the loop condition
    | PollReturns(reported: bool)              // with the wakeup channel among the active ones or not
    | Drain                                    // handleRead
    | EnterWork                                // the channels are done; callingPendingFunctors_ = true
    | TakeBatch                                // swap under the mutex
    | Exec                                     // the next functor starts
    | LeaveWork

  predicate Enabled(q: Loop, ev: Event) {
    match ev
    case Post(t, _) => t !in q.writing
    case Quit(t) => t !in q.writing
    case Write(t) => t in q.writing
    case OwnPost(_) => q.pc.Handle? || q.pc == Work(false)
    case OwnWrite => q.pc == Work(true)
    case OwnQuit => q.pc.Handle? || q.pc == Work(false)
    case Test => q.pc.Check?
    case PollReturns(reported) => q.pc.Poll? && (reported ==> q.counter > 0)
    case Drain => q.pc == Handle(true)
    case EnterWork => q.pc == Handle(false)
    case TakeBatch => q.pc.Swap?
    case Exec => q.pc == Work(false) && q.batch != []
    case LeaveWork => q.pc == Work(false) && q.batch == []
  }

  function Push(q: Loop, f: Functor): Loop {
    q.(pending := q.pending + [f], pushed := q.pushed + [f])
  }

  function Step(q: Loop, ev: Event): Loop
    requires Enabled(q, ev)
  {
    match ev
    case Post(t, f) => Push(q, f).(writing := q.writing + {t})
    case Quit(t) => q.(quit := true, writing := q.writing + {t})
    case Write(t) => Wakeup(q.(writing := q.writing - {t}))
    case OwnPost(f) => if q.calling then Push(q, f).(pc := Work(true)) else Push(q, f)
    case OwnWrite => Wakeup(q.(pc := Work(false)))
    case OwnQuit => q.(quit := true)
    case Test => q.(pc := if q.quit then Stopped else Poll)
    case PollReturns(reported) => q.(pc := Handle(reported))
    case Drain => q.(pc := Handle(false), counter := 0)
    case EnterWork => q.(pc := Swap, calling := true)
    case TakeBatch => q.(pc := Work(false), batch := q.pending, pending := [], rounds := q.rounds + 1)
    case Exec => q.(batch := q.batch[1..], done := q.done + [q.batch[0]])
    case LeaveWork => q.(pc := Check, calling := false)
  }

  /** Any interleaving; an event that cannot happen is skipped. */
  function Run(q: Loop, evs: seq<Event>): Loop
    decreases |evs|
  {
    if evs == [] then q
    else Run(if Enabled(q, evs[0]) then Step(q, evs[0]) else q, evs[1..])
  }

  lemma StepKeepsValid(q: Loop, ev: Event)
    requires q.Valid() && Enabled(q, ev)
    ensures Step(q, ev).Valid()
  {
    var r := Step(q, ev);
    match ev
    case Exec => assert q.batch == [q.batch[0]] + q.batch[1..];
    case Post(t, f) => assert t in r.writing;
    case Quit(t) => assert t in r.writing;
    case Write(_) =>
    case _ =>
  }

  lemma {:induction false} RunKeepsValid(q: Loop, evs: seq<Event>)
    requires q.Valid()
    ensures Run(q, evs).Valid()
    decreases |evs|
  {
    if evs != [] {
      if Enabled(q, evs[0]) {
        StepKeepsValid(q, evs[0]);
        RunKeepsValid(Step(q, evs[0]), evs[1..]);
      } else {
        RunKeepsValid(q, evs[1..]);
      }
    }
  }

  /**
   In every interleaving, a loop blocked in poll with pending functors, or after a quit from
   another thread, has a positive eventfd counter or a thread that is about to write it.
   */
  lemma NoLostWakeup(evs: seq<Event>)
    ensures var q := Run(INIT, evs);
      q.pc.Poll? && (q.pending != [] || q.quit) ==> q.counter > 0 || q.writing != {}
  {
    RunKeepsValid(INIT, evs);
  }

  /** Executed functors, then the rest of the batch, then pendingFunctors_, are the pushes in lock order. */
  lemma ExactlyOnceInOrder(evs: seq<Event>)
    ensures var q := Run(INIT, evs); q.pushed == q.done + q.batch + q.pending
  {
    RunKeepsValid(INIT, evs);
  }

  lemma StepKeepsBatchClosed(q: Loop, ev: Event)
    requires q.Valid() && Enabled(q, ev)
    ensures var r := Step(q, ev);
      && q.rounds <= r.rounds && q.done <= r.done
      && (r.rounds == q.rounds ==> r.done + r.batch == q.done + q.batch)
  {
    if ev.Exec? {
      assert q.batch == [q.batch[0]] + q.batch[1..];
    }
  }

  /** Until the next swap a batch only moves into the history: what is pushed meanwhile never joins it. */
  lemma {:induction false} BatchIsClosed(q: Loop, evs: seq<Event>)
    requires q.Valid()
    ensures var r := Run(q, evs);
      && q.rounds <= r.rounds
      && q.done <= r.done
      && (r.rounds == q.rounds ==> r.done + r.batch == q.done + q.batch)
    decreases |evs|
  {
    if evs != [] {
      if Enabled(q, evs[0]) {
        StepKeepsValid(q, evs[0]);
        StepKeepsBatchClosed(q, evs[0]);
        BatchIsClosed(Step(q, evs[0]), evs[1..]);
      } else {
        BatchIsClosed(q, evs[1..]);
      }
    }
  }

  /** A functor pushed before a swap has run by the time the loop tests its condition again, whoever interferes. */
  lemma PushedBeforeSwapIsDone(q: Loop, evs: seq<Event>)
    requires q.Valid() && q.pc.Swap?
    ensures var r := Run(Step(q, TakeBatch), evs);
      r.pc.Check? && r.rounds == q.rounds + 1 ==> r.done == q.pushed
  {
    var q1 := Step(q, TakeBatch);
    StepKeepsValid(q, TakeBatch);
    BatchIsClosed(q1, evs);
    RunKeepsValid(q1, evs);
  }
}
