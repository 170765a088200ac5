/** EventLoop's task queue as an object, proved against the step system. */
module EventLoopObject {
  import opened LoopSteps

  /** What happens while a handler or functor runs: its own calls, and steps of other threads. */
  datatype Call =
    | Queue(functor: Functor)      // queueInLoop on the loop thread
    | QuitLoop                     // quit() on the loop thread
    | OtherPost(thread: Thread, functor: Functor)
    | OtherQuit(thread: Thread)
    | OtherWrite(thread: Thread)

  predicate Foreign(c: Call) { c.OtherPost? || c.OtherQuit? || c.OtherWrite? }

  ghost predicate AllForeign(calls: seq<Call>) { forall i :: 0 <= i < |calls| ==> Foreign(calls[i]) }

  function Trace(calls: seq<Call>): seq<Event> {
    if calls == [] then [] else Trace(calls[..|calls| - 1]) + EventsOf(calls[|calls| - 1])
  }

  function EventsOf(c: Call): seq<Event> {
    match c
    case Queue(f) => [OwnPost(f), OwnWrite]
    case QuitLoop => [OwnQuit]
    case OtherPost(t, f) => [Post(t, f)]
    case OtherQuit(t) => [Quit(t)]
    case OtherWrite(t) => [Write(t)]
  }

  /** What one functor is: its start, then its calls. */
  function FunctorTrace(calls: seq<Call>): seq<Event> {
    [Exec] + Trace(calls)
  }

  /** doPendingFunctors from the i-th functor of a batch of n on: calls[k] happen during the k-th. */
  function WorkTrace(calls: seq<seq<Call>>, i: nat, n: nat): seq<Event>
    decreases n - i
  {
    if n <= i then [] else FunctorTrace(CallsAt(calls, i)) + WorkTrace(calls, i + 1, n)
  }

  function CallsAt(calls: seq<seq<Call>>, k: nat): seq<Call> {
    if k < |calls| then calls[k] else []
  }

  lemma {:induction false} RunAppend(q: Loop, a: seq<Event>, b: seq<Event>)
    ensures Run(q, a + b) == Run(Run(q, a), b)
    decreases |a|
  {
    if a == [] {
      assert a + b == b;
    } else {
      assert (a + b)[1..] == a[1..] + b;
      RunAppend(if Enabled(q, a[0]) then Step(q, a[0]) else q, a[1..], b);
    }
  }

  lemma RunOne(q: Loop, ev: Event)
    ensures Run(q, [ev]) == if Enabled(q, ev) then Step(q, ev) else q
  {
    assert [ev][1..] == [];
  }

  lemma WorkUnfolds(q: Loop, calls: seq<seq<Call>>, i: nat, n: nat)
    requires i < n
    ensures Run(q, WorkTrace(calls, i, n)) == Run(Run(q, FunctorTrace(CallsAt(calls, i))), WorkTrace(calls, i + 1, n))
  {
    RunAppend(q, FunctorTrace(CallsAt(calls, i)), WorkTrace(calls, i + 1, n));
  }

  lemma OneFurther(done: seq<Functor>, functors: seq<Functor>, i: nat)
    requires i < |functors|
    ensures functors[i..] == [functors[i]] + functors[i + 1..] && functors[i..][1..] == functors[i + 1..]
    ensures done + functors[..i] + [functors[i]] == done + functors[..i + 1]
  {
    assert functors[..i + 1] == functors[..i] + [functors[i]];
  }

  class EventLoop {
    var pendingFunctors: seq<Functor>
    var callingPendingFunctors: bool
    var quit: bool
    var wakeupCounter: nat
    var writing: set<Thread>
    ghost var pc: Pc
    ghost var batch: seq<Functor>
    ghost var rounds: nat
    ghost var pushed: seq<Functor>
    ghost var done: seq<Functor>

    ghost function State(): Loop
      reads this
    {
      Loop(pc, pendingFunctors, batch, callingPendingFunctors, quit, wakeupCounter, writing, rounds, pushed, done)
    }

    constructor ()
      ensures State() == INIT && State().Valid()
    {
      pendingFunctors, callingPendingFunctors, quit, wakeupCounter, writing := [], false, false, 0, {};
      pc, batch, rounds, pushed, done := Check, [], 0, [], [];
    }

    method Wakeup()
      modifies this`wakeupCounter
      ensures State() == LoopSteps.Wakeup(old(State()))
    {
      if wakeupCounter < EVENTFD_MAX {
        wakeupCounter := wakeupCounter + 1;
      }
    }

    /** queueInLoop on the loop's own thread. */
    method QueueInLoop(f: Functor)
      requires State().Valid() && (pc.Handle? || pc == Work(false))
      modifies this
      ensures State() == Run(old(State()), [OwnPost(f), OwnWrite]) && pc == old(pc)
      ensures batch == old(batch) && done == old(done) && pendingFunctors == old(pendingFunctors) + [f]
    {
      ghost var q := State();
      pendingFunctors, pushed := pendingFunctors + [f], pushed + [f];
      if callingPendingFunctors {
        Wakeup();
      }
      RunOne(q, OwnPost(f));
      RunOne(Run(q, [OwnPost(f)]), OwnWrite);
      RunAppend(q, [OwnPost(f)], [OwnWrite]);
      assert [OwnPost(f)] + [OwnWrite] == [OwnPost(f), OwnWrite];
    }

    method Apply(c: Call)
      requires State().Valid() && (pc.Handle? || pc == Work(false) || Foreign(c))
      modifies this
      ensures State() == Run(old(State()), EventsOf(c)) && State().Valid() && pc == old(pc) && batch == old(batch)
      ensures done == old(done) && old(pendingFunctors) <= pendingFunctors
    {
      ghost var q := State();
      match c
      case Queue(f) =>
        QueueInLoop(f);
        RunKeepsValid(q, EventsOf(c));
      case QuitLoop =>
        quit := true;
        RunOne(q, OwnQuit);
        RunKeepsValid(q, EventsOf(c));
      case _ =>
        ApplyForeign(c);
    }

    /** A step of another thread, which may come at any time. */
    method ApplyForeign(c: Call)
      requires State().Valid() && Foreign(c)
      modifies this
      ensures State() == Run(old(State()), EventsOf(c)) && State().Valid() && pc == old(pc) && batch == old(batch)
      ensures done == old(done) && old(pendingFunctors) <= pendingFunctors
    {
      ghost var q := State();
      RunKeepsValid(q, EventsOf(c));
      match c
      case OtherPost(t, f) =>
        if t !in writing {
          pendingFunctors, pushed, writing := pendingFunctors + [f], pushed + [f], writing + {t};
        }
        RunOne(q, Post(t, f));
      case OtherQuit(t) =>
        if t !in writing {
          quit, writing := true, writing + {t};
        }
        RunOne(q, Quit(t));
      case OtherWrite(t) =>
        if t in writing {
          writing := writing - {t};
          Wakeup();
        }
        RunOne(q, Write(t));
    }

    method ApplyAll(calls: seq<Call>)
      requires State().Valid() && (pc.Handle? || pc == Work(false) || AllForeign(calls))
      modifies this
      ensures State() == Run(old(State()), Trace(calls)) && State().Valid() && pc == old(pc) && batch == old(batch)
      ensures done == old(done) && old(pendingFunctors) <= pendingFunctors
    {
      ghost var q := State();
      for i := 0 to |calls|
        invariant State() == Run(q, Trace(calls[..i])) && State().Valid() && pc == q.pc && batch == q.batch
        invariant done == q.done && q.pending <= pendingFunctors
      {
        assert calls[..i + 1][..i] == calls[..i];
        RunAppend(q, Trace(calls[..i]), EventsOf(calls[i]));
        Apply(calls[i]);
      }
      assert calls[..|calls|] == calls;
    }

    /** The flag, what other threads do before the lock is taken, and the swap. */
    method SwapOut(meanwhile: seq<Call>) returns (functors: seq<Functor>)
      requires State().Valid() && pc == Handle(false) && AllForeign(meanwhile)
      modifies this
      ensures State() == Run(old(State()), SwapTrace(meanwhile)) && State().Valid() && pc == Work(false)
      ensures batch == functors == Run(old(State()), [EnterWork] + Trace(meanwhile)).pending
      ensures old(pendingFunctors) <= functors && done == old(done)
    {
      ghost var q := State();
      EnterSteps(q, meanwhile);
      callingPendingFunctors, pc := true, Swap;
      ApplyAll(meanwhile);
      TakeSteps(q, State(), meanwhile);
      functors, pendingFunctors := pendingFunctors, [];
      pc, batch, rounds := Work(false), functors, rounds + 1;
    }

    method RunFunctor(f: Functor, calls: seq<Call>)
      requires State().Valid() && pc == Work(false) && batch != [] && batch[0] == f
      modifies this
      ensures State() == Run(old(State()), FunctorTrace(calls)) && State().Valid()
      ensures pc == Work(false) && batch == old(batch)[1..] && done == old(done) + [f]
    {
      ghost var q := State();
      RunOne(q, Exec);
      StepKeepsValid(q, Exec);
      done, batch := done + [f], batch[1..];
      RunAppend(q, [Exec], Trace(calls));
      ApplyAll(calls);
    }

    /** The loop over the swapped-out functors. */
    method RunBatch(functors: seq<Functor>, calls: seq<seq<Call>>)
      requires State().Valid() && pc == Work(false) && batch == functors
      modifies this
      ensures State() == Run(old(State()), WorkTrace(calls, 0, |functors|)) && State().Valid()
      ensures pc == Work(false) && batch == [] && done == old(done) + functors
    {
      ghost var q := State();
      for i := 0 to |functors|
        invariant Run(q, WorkTrace(calls, 0, |functors|)) == Run(State(), WorkTrace(calls, i, |functors|)) && State().Valid()
        invariant pc == Work(false) && batch == functors[i..] && done == q.done + functors[..i]
      {
        OneFurther(q.done, functors, i);
        WorkUnfolds(State(), calls, i, |functors|);
        RunFunctor(functors[i], CallsAt(calls, i));
      }
      assert functors[..|functors|] == functors;
    }

    /**
     From the flag being set to the flag being cleared, with the calls each functor makes and
     the steps other threads take meanwhile. Runs exactly the functors pending at the swap.
     */
    method DoPendingFunctors(meanwhile: seq<Call>, calls: seq<seq<Call>>)
      requires State().Valid() && pc == Handle(false) && AllForeign(meanwhile)
      modifies this
      ensures State() == Run(old(State()), FunctorsTrace(old(State()), meanwhile, calls)) && State().Valid() && pc.Check?
      ensures done == old(done) + Run(old(State()), [EnterWork] + Trace(meanwhile)).pending
      ensures old(done) + old(pendingFunctors) <= done
    {
      ghost var q := State();
      var functors := SwapOut(meanwhile);
      WorkSplits(q, meanwhile, calls, |functors|);
      RunBatch(functors, calls);
      StepKeepsValid(State(), LeaveWork);
      callingPendingFunctors, pc := false, Check;
    }

    /** What poll reports, and the handlers before and after the one of the wakeup channel. */
    method HandleEvents(reported: bool, before: seq<Call>, after: seq<Call>)
      requires State().Valid() && pc.Poll? && (reported ==> wakeupCounter > 0)
      modifies this
      ensures State() == Run(old(State()), EventsTrace(reported, before, after)) && State().Valid()
      ensures pc == Handle(false) && done == old(done) && old(pendingFunctors) <= pendingFunctors
    {
      ghost var q := State();
      EventsSplit(q, reported, before, after);
      StepKeepsValid(q, PollReturns(reported));
      pc := Handle(reported);
      ApplyAll(before);
      if reported {
        RunOne(State(), Drain);
        StepKeepsValid(State(), Drain);
        wakeupCounter, pc := 0, Handle(false);
      }
      ApplyAll(after);
    }

    /** One turn of loop(), with all that happens in its handlers and functors and in other threads. */
    method LoopOnce(t: Turn)
      requires State().Valid() && pc.Check? && AllForeign(t.atPoll) && AllForeign(t.atSwap) && AllForeign(t.atEnd)
      requires t.reported ==> Run(State(), [Test] + Trace(t.atPoll)).counter > 0
      modifies this
      ensures State() == Run(old(State()), TurnTrace(old(State()), t)) && State().Valid()
      ensures old(quit) ==> pc.Stopped?
      ensures !old(quit) ==> pc.Check? && old(done) + old(pendingFunctors) <= done
    {
      ghost var q := State();
      StepKeepsValid(q, Test);
      RunOne(q, Test);
      if quit {
        pc := Stopped;
        return;
      }
      RunAppend(q, [Test], Trace(t.atPoll));
      pc := Poll;
      ApplyAll(t.atPoll);
      TurnSplits(q, t);
      HandleEvents(t.reported, t.before, t.after);
      DoPendingFunctors(t.atSwap, t.calls);
      ApplyAll(t.atEnd);
    }
  }

  /**
   What happens in one turn: in other threads until poll returns, poll's report of the wakeup
   channel, the handlers before and after that channel's, other threads before the swap, what
   each functor calls, and other threads before the next test. Other threads also move within
   the handlers and functors.
   */
  datatype Turn = Turn(atPoll: seq<Call>, reported: bool, before: seq<Call>, after: seq<Call>,
                       atSwap: seq<Call>, calls: seq<seq<Call>>, atEnd: seq<Call>)

  function DrainTrace(reported: bool): seq<Event> { if reported then [Drain] else [] }

  function EventsTrace(reported: bool, before: seq<Call>, after: seq<Call>): seq<Event> {
    [PollReturns(reported)] + Trace(before) + DrainTrace(reported) + Trace(after)
  }

  function SwapTrace(meanwhile: seq<Call>): seq<Event> {
    [EnterWork] + Trace(meanwhile) + [TakeBatch]
  }

  function FunctorsTrace(q: Loop, meanwhile: seq<Call>, calls: seq<seq<Call>>): seq<Event> {
    SwapTrace(meanwhile) + WorkTrace(calls, 0, |Run(q, [EnterWork] + Trace(meanwhile)).pending|) + [LeaveWork]
  }

  /** The test, and unless it ends the loop: poll, the handlers, and the functors pending at the swap. */
  function TurnTrace(q: Loop, t: Turn): seq<Event> {
    if q.quit then [Test] else
      var head := [Test] + Trace(t.atPoll) + EventsTrace(t.reported, t.before, t.after);
      head + FunctorsTrace(Run(q, head), t.atSwap, t.calls) + Trace(t.atEnd)
  }

  lemma EventsSplit(q: Loop, reported: bool, before: seq<Call>, after: seq<Call>)
    requires Enabled(q, PollReturns(reported))
    ensures Run(q, EventsTrace(reported, before, after))
         == Run(Run(Run(Step(q, PollReturns(reported)), Trace(before)), DrainTrace(reported)), Trace(after))
  {
    RunOne(q, PollReturns(reported));
    RunAppend(q, [PollReturns(reported)], Trace(before));
    RunAppend(q, [PollReturns(reported)] + Trace(before), DrainTrace(reported));
    RunAppend(q, [PollReturns(reported)] + Trace(before) + DrainTrace(reported), Trace(after));
  }

  lemma TurnSplits(q: Loop, t: Turn)
    requires q.pc.Check? && !q.quit
    ensures var r := Run(Run(q, [Test] + Trace(t.atPoll)), EventsTrace(t.reported, t.before, t.after));
      Run(q, TurnTrace(q, t)) == Run(Run(r, FunctorsTrace(r, t.atSwap, t.calls)), Trace(t.atEnd))
  {
    RunAppend(q, [Test] + Trace(t.atPoll), EventsTrace(t.reported, t.before, t.after));
    var head := [Test] + Trace(t.atPoll) + EventsTrace(t.reported, t.before, t.after);
    RunAppend(q, head, FunctorsTrace(Run(q, head), t.atSwap, t.calls));
    RunAppend(q, head + FunctorsTrace(Run(q, head), t.atSwap, t.calls), Trace(t.atEnd));
  }

  lemma EnterSteps(q: Loop, meanwhile: seq<Call>)
    requires q.Valid() && q.pc == Handle(false)
    ensures Step(q, EnterWork).Valid()
    ensures Run(q, [EnterWork] + Trace(meanwhile)) == Run(Step(q, EnterWork), Trace(meanwhile))
  {
    StepKeepsValid(q, EnterWork);
    RunOne(q, EnterWork);
    RunAppend(q, [EnterWork], Trace(meanwhile));
  }

  lemma TakeSteps(q: Loop, q1: Loop, meanwhile: seq<Call>)
    requires q1.Valid() && q1.pc.Swap? && q1 == Run(q, [EnterWork] + Trace(meanwhile))
    ensures Step(q1, TakeBatch).Valid() && Run(q, SwapTrace(meanwhile)) == Step(q1, TakeBatch)
  {
    StepKeepsValid(q1, TakeBatch);
    RunOne(q1, TakeBatch);
    RunAppend(q, [EnterWork] + Trace(meanwhile), [TakeBatch]);
  }

  lemma WorkSplits(q: Loop, meanwhile: seq<Call>, calls: seq<seq<Call>>, n: nat)
    requires n == |Run(q, [EnterWork] + Trace(meanwhile)).pending|
    ensures var r := Run(Run(q, SwapTrace(meanwhile)), WorkTrace(calls, 0, n));
      Run(q, FunctorsTrace(q, meanwhile, calls)) == if Enabled(r, LeaveWork) then Step(r, LeaveWork) else r
  {
    RunAppend(q, SwapTrace(meanwhile), WorkTrace(calls, 0, n));
    RunAppend(q, SwapTrace(meanwhile) + WorkTrace(calls, 0, n), [LeaveWork]);
    RunOne(Run(q, SwapTrace(meanwhile) + WorkTrace(calls, 0, n)), LeaveWork);
  }
}
