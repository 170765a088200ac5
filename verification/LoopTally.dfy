/** The event loop's task queue against a tally of the steps that were taken, kept without looking at the queue. */
module LoopTally {
  import opened LoopSteps

  datatype Tally = Tally(
    pushes: seq<Functor>,     // every push, in lock order
    swapped: nat,             // how many of them the last swap had seen
    started: nat,             // how many functors were started
    quit: bool,
    counter: nat,             // eventfd writes since the last read, as far as it counts
    owing: set<Thread>)       // other threads that have pushed or quit and not written yet

  const NOTHING := Tally([], 0, 0, false, 0, {})

  function Written(n: nat): nat { if n < EVENTFD_MAX then n + 1 else n }

  function Count(t: Tally, ev: Event): Tally {
    match ev
    case Post(thread, f) => t.(pushes := t.pushes + [f], owing := t.owing + {thread})
    case Quit(thread) => t.(quit := true, owing := t.owing + {thread})
    case Write(thread) => t.(counter := Written(t.counter), owing := t.owing - {thread})
    case OwnPost(f) => t.(pushes := t.pushes + [f])
    case OwnWrite => t.(counter := Written(t.counter))
    case OwnQuit => t.(quit := true)
    case Drain => t.(counter := 0)
    case TakeBatch => t.(swapped := |t.pushes|)
    case Exec => t.(started := t.started + 1)
    case _ => t
  }

  /** The tally of the steps of a run that could be taken. */
  function CountAll(t: Tally, q: Loop, evs: seq<Event>): Tally
    decreases |evs|
  {
    if evs == [] then t
    else if Enabled(q, evs[0]) then CountAll(Count(t, evs[0]), Step(q, evs[0]), evs[1..])
    else CountAll(t, q, evs[1..])
  }

  ghost predicate Agrees(q: Loop, t: Tally) {
    && t.started <= t.swapped <= |t.pushes| && (t.started < t.swapped ==> q.pc.Work?)
    && q.pushed == t.pushes
    && q.done == t.pushes[..t.started]
    && q.batch == t.pushes[t.started..t.swapped]
    && q.pending == t.pushes[t.swapped..]
    && q.quit == t.quit && q.counter == t.counter && q.writing == t.owing
  }

  lemma PushAgrees(pushes: seq<Functor>, a: nat, b: nat, f: Functor)
    requires a <= b <= |pushes|
    ensures var more := pushes + [f]; more[..a] == pushes[..a] && more[a..b] == pushes[a..b] && more[b..] == pushes[b..] + [f]
  {
  }

  lemma ExecAgrees(pushes: seq<Functor>, a: nat, b: nat)
    requires a < b <= |pushes|
    ensures pushes[a..b][0] == pushes[a] && pushes[a..b][1..] == pushes[a + 1..b] && pushes[..a] + [pushes[a]] == pushes[..a + 1]
  {
  }

  lemma SwapAgrees(pushes: seq<Functor>, a: nat)
    requires a <= |pushes|
    ensures pushes[a..|pushes|] == pushes[a..] && pushes[|pushes|..] == []
  {
  }

  lemma StepAgrees(q: Loop, t: Tally, ev: Event)
    requires Enabled(q, ev) && Agrees(q, t)
    ensures Agrees(Step(q, ev), Count(t, ev))
  {
    match ev
    case Post(_, f) => PushAgrees(t.pushes, t.started, t.swapped, f);
    case OwnPost(f) => PushAgrees(t.pushes, t.started, t.swapped, f);
    case TakeBatch => SwapAgrees(t.pushes, t.swapped);
    case Exec => ExecAgrees(t.pushes, t.started, t.swapped);
    case _ =>
  }

  lemma {:induction false} RunAgrees(q: Loop, t: Tally, evs: seq<Event>)
    requires Agrees(q, t)
    ensures Agrees(Run(q, evs), CountAll(t, q, evs))
    decreases |evs|
  {
    if evs != [] {
      if Enabled(q, evs[0]) {
        StepAgrees(q, t, evs[0]);
        RunAgrees(Step(q, evs[0]), Count(t, evs[0]), evs[1..]);
      } else {
        RunAgrees(q, t, evs[1..]);
      }
    }
  }

  /**
   In every interleaving: the functors executed are the first pushes, as many as were started; the
   rest of the batch is what the last swap saw of the others; pendingFunctors_ is what was pushed
   since; the flag is set exactly when some thread has quit; and the counter counts the writes
   since it was last read.
   */
  lemma LoopFollowsTally(evs: seq<Event>)
    ensures Agrees(Run(INIT, evs), CountAll(NOTHING, INIT, evs))
  {
    RunAgrees(INIT, NOTHING, evs);
  }

  /** Once quit() was called the loop never goes back to poll: it stops at its next test, and stays stopped. */
  lemma {:induction false} QuitEndsTheLoop(q: Loop, evs: seq<Event>)
    requires q.quit && !q.pc.Poll?
    ensures var r := Run(q, evs);
      && r.quit && !r.pc.Poll?
      && (q.pc.Check? && Test in evs ==> r.pc.Stopped?)
      && (q.pc.Stopped? ==> r.pc.Stopped? && r.done == q.done)
    decreases |evs|
  {
    if evs != [] {
      var next := if Enabled(q, evs[0]) then Step(q, evs[0]) else q;
      QuitEndsTheLoop(next, evs[1..]);
    }
  }
}
