/** FixedBuffer and AsyncLogging as objects, proved against the step system. */
module AsyncLoggingObject {
  import opened Wrappers
  import opened LogSteps

  class FixedBuffer {
    const data: array<char>
    var cur: nat

    ghost predicate Valid()
      reads this
    {
      data.Length == SIZE && cur <= SIZE
    }

    ghost function Contents(): string
      requires Valid()
      reads this, data
    {
      data[..cur]
    }

    constructor ()
      ensures Valid() && fresh(data) && Contents() == ""
    {
      data := new char[SIZE](_ => '\0');
      cur := 0;
    }

    function Avail(): nat
      requires Valid()
      reads this
    {
      SIZE - cur
    }

    method Append(buf: string)
      requires Valid()
      modifies this`cur, data
      ensures Valid() && Contents() == FixedAppend(old(Contents()), buf)
    {
      if Avail() > |buf| {
        ghost var was := Contents();
        for i := 0 to |buf|
          invariant cur == old(cur)
          invariant forall k :: 0 <= k < cur ==> data[k] == was[k]
          invariant forall k :: cur <= k < cur + i ==> data[k] == buf[k - cur]
        {
          data[cur + i] := buf[i];
        }
        ghost var now := data[..cur + |buf|];
        assert forall k :: 0 <= k < |now| ==> now[k] == data[k] == (was + buf)[k];
        cur := cur + |buf|;
      }
    }

    method Reset()
      requires Valid()
      modifies this`cur
      ensures Valid() && Contents() == ""
    {
      cur := 0;
    }
  }

  function Appends(msgs: seq<string>): seq<Event> {
    if msgs == [] then [] else Appends(msgs[..|msgs| - 1]) + [AppendMsg(msgs[|msgs| - 1])]
  }

  /** The writes of a batch of n from the i-th on; arrivals[k] are appended by other threads after the k-th. */
  function Writes(arrivals: seq<seq<string>>, i: nat, n: nat): seq<Event>
    decreases n - i
  {
    if n <= i then [] else [WriteNext] + Appends(ArrivalsAt(arrivals, i)) + Writes(arrivals, i + 1, n)
  }

  function ArrivalsAt(arrivals: seq<seq<string>>, k: nat): seq<string> {
    if k < |arrivals| then arrivals[k] else []
  }

  /** What other threads append while the back end goes through a round, between any two of its steps. */
  datatype Arrivals = Arrivals(afterSwap: seq<string>, afterDrop: seq<string>,
                               afterWrites: seq<seq<string>>, beforeRecycle: seq<string>)

  function StartTrace(a: Arrivals): seq<Event> {
    [SwapOut] + Appends(a.afterSwap) + [DropOld] + Appends(a.afterDrop)
  }

  function FinishTrace(a: Arrivals): seq<Event> {
    [WriteNext] + Appends(a.beforeRecycle) + [RecycleSpares]
  }

  /** A whole round for a batch of which n buffers are written. */
  function RoundTrace(a: Arrivals, n: nat): seq<Event> {
    StartTrace(a) + Writes(a.afterWrites, 0, n) + FinishTrace(a)
  }

  lemma {:induction false} RunAppend(q: Log, a: seq<Event>, b: seq<Event>)
    ensures Run(q, a + b) == Run(Run(q, a), b)
    decreases |a|
  {
    if a == [] {
      assert a + b == b;
    } else {
      assert (a + b)[1..] == a[1..] + b;
      RunAppend(if Enabled(q, a[0]) then Step(q, a[0]) else q, a[1..], b);
    }
  }

  lemma RunOne(q: Log, ev: Event)
    requires Enabled(q, ev)
    ensures Run(q, [ev]) == Step(q, ev)
  {
    assert [ev][1..] == [];
  }

  lemma AppendsStep(q: Log, msgs: seq<string>, i: nat)
    requires q.Valid() && i < |msgs|
    ensures Run(q, Appends(msgs[..i])).Valid()
    ensures Run(q, Appends(msgs[..i + 1])) == Append(Run(q, Appends(msgs[..i])), msgs[i])
  {
    assert msgs[..i + 1][..i] == msgs[..i];
    RunAppend(q, Appends(msgs[..i]), [AppendMsg(msgs[i])]);
    RunKeepsValid(q, Appends(msgs[..i]));
    RunOne(Run(q, Appends(msgs[..i])), AppendMsg(msgs[i]));
  }

  lemma WritesUnfold(q: Log, arrivals: seq<seq<string>>, i: nat, n: nat)
    requires i < n
    ensures Run(q, Writes(arrivals, i, n)) == Run(Run(q, [WriteNext] + Appends(ArrivalsAt(arrivals, i))), Writes(arrivals, i + 1, n))
  {
    RunAppend(q, [WriteNext] + Appends(ArrivalsAt(arrivals, i)), Writes(arrivals, i + 1, n));
  }

  lemma WriteThenAppends(q: Log, msgs: seq<string>)
    requires q.Valid() && q.pc.Writing?
    ensures Write(q).Valid() && Run(q, [WriteNext] + Appends(msgs)) == Run(Write(q), Appends(msgs))
  {
    WriteKeepsValid(q);
    RunOne(q, WriteNext);
    RunAppend(q, [WriteNext], Appends(msgs));
  }

  class AsyncLogging {
    var currentBuffer: Option<string>
    var nextBuffer: Option<string>
    var buffers: seq<string>
    var newBuffer1: Option<string>
    var newBuffer2: Option<string>
    var buffersToWrite: seq<string>
    var logFile: string
    ghost var pc: Pc
    ghost var batches: seq<seq<string>>
    ghost var accepted: string

    ghost function State(): Log
      reads this
    {
      Log(currentBuffer, nextBuffer, buffers, newBuffer1, newBuffer2, buffersToWrite, pc, logFile, batches, accepted)
    }

    constructor ()
      ensures State() == INIT && State().Valid()
    {
      currentBuffer, nextBuffer, buffers := Some(""), Some(""), [];
      newBuffer1, newBuffer2, buffersToWrite, logFile := Some(""), Some(""), [], "";
      pc, batches, accepted := Waiting, [], "";
    }

    method Append(msg: string)
      requires currentBuffer.Some?
      modifies this
      ensures State() == LogSteps.Append(old(State()), msg)
    {
      accepted := if |msg| < SIZE then accepted + msg else accepted;
      if SIZE - |currentBuffer.value| > |msg| {
        currentBuffer := Some(FixedAppend(currentBuffer.value, msg));
      } else {
        RollCurrent();
        currentBuffer := Some(FixedAppend(currentBuffer.value, msg));
      }
    }

    /** The full buffer is queued and the spare, or a new one, takes its place. */
    method RollCurrent()
      requires currentBuffer.Some?
      modifies this`currentBuffer, this`nextBuffer, this`buffers
      ensures buffers == old(buffers) + [old(currentBuffer.value)] && nextBuffer == None
      ensures currentBuffer == Some(if old(nextBuffer).Some? then old(nextBuffer).value else "")
    {
      buffers := buffers + [currentBuffer.value];
      currentBuffer := None;
      if nextBuffer.Some? {
        currentBuffer, nextBuffer := nextBuffer, None;
      } else {
        currentBuffer := Some("");
      }
    }

    method AppendAll(msgs: seq<string>)
      requires State().Valid()
      modifies this
      ensures State().Valid() && State() == Run(old(State()), Appends(msgs))
      ensures pc == old(pc) && buffersToWrite == old(buffersToWrite)
    {
      ghost var q := State();
      for i := 0 to |msgs|
        invariant State().Valid() && State() == Run(q, Appends(msgs[..i]))
        invariant pc == old(pc) && buffersToWrite == old(buffersToWrite)
      {
        AppendsStep(q, msgs, i);
        AppendKeepsValid(State(), msgs[i]);
        Append(msgs[i]);
      }
      assert msgs[..|msgs|] == msgs;
    }

    /** The critical section of threadFunc. */
    method SwapBuffers()
      requires currentBuffer.Some?
      modifies this
      ensures State() == Swap(old(State()))
    {
      buffers := buffers + [currentBuffer.value];
      currentBuffer, newBuffer1 := newBuffer1, None;
      buffersToWrite, buffers := buffers, buffersToWrite;
      if nextBuffer.None? {
        nextBuffer, newBuffer2 := newBuffer2, None;
      }
      pc, batches := Dropping, batches + [buffersToWrite];
    }

    method DropExcess()
      modifies this
      ensures State() == Drop(old(State()))
    {
      if |buffersToWrite| > MAX_BATCH {
        buffersToWrite := buffersToWrite[..2];
      }
      pc := Writing(0);
    }

    method WriteOne(i: nat, arrivals: seq<string>)
      requires State().Valid() && pc == Writing(i) && i < |buffersToWrite|
      modifies this
      ensures State().Valid() && pc == Writing(i + 1) && buffersToWrite == old(buffersToWrite)
      ensures State() == Run(old(State()), [WriteNext] + Appends(arrivals))
    {
      WriteThenAppends(State(), arrivals);
      logFile, pc := logFile + buffersToWrite[i], Writing(i + 1);
      AppendAll(arrivals);
    }

    method WriteBatch(arrivals: seq<seq<string>>)
      requires State().Valid() && pc == Writing(0)
      modifies this
      ensures State().Valid() && pc == Writing(|buffersToWrite|) && buffersToWrite == old(buffersToWrite)
      ensures State() == Run(old(State()), Writes(arrivals, 0, |buffersToWrite|))
    {
      ghost var q := State();
      for i := 0 to |buffersToWrite|
        invariant State().Valid() && pc == Writing(i) && buffersToWrite == old(buffersToWrite)
        invariant Run(q, Writes(arrivals, 0, |buffersToWrite|)) == Run(State(), Writes(arrivals, i, |buffersToWrite|))
      {
        WritesUnfold(State(), arrivals, i, |buffersToWrite|);
        WriteOne(i, ArrivalsAt(arrivals, i));
      }
    }

    /** resize(2), the two refills and clear(). */
    method RecycleBuffers()
      requires Missing(State()) <= |buffersToWrite|
      modifies this
      ensures State() == Recycle(old(State()))
    {
      if |buffersToWrite| > 2 {
        buffersToWrite := buffersToWrite[..2];
      }
      if newBuffer1.None? {
        newBuffer1, buffersToWrite := Some(""), buffersToWrite[..|buffersToWrite| - 1];
      }
      if newBuffer2.None? {
        newBuffer2, buffersToWrite := Some(""), buffersToWrite[..|buffersToWrite| - 1];
      }
      buffersToWrite := [];
      pc := Waiting;
    }

    /** The critical section and the drop, with what is appended around them. */
    method StartRound(a: Arrivals)
      requires State().Valid() && pc.Waiting?
      modifies this
      ensures State().Valid() && pc == Writing(0) && State() == Run(old(State()), StartTrace(a))
      ensures |buffersToWrite| == |Cut(old(buffers) + [old(currentBuffer).value])|
    {
      ghost var q := State();
      SwapSteps(q, a.afterSwap);
      SwapBuffers();
      AppendAll(a.afterSwap);
      DropSteps(q, State(), a);
      DropExcess();
      AppendAll(a.afterDrop);
    }

    /** The end of the write loop and the recycling. */
    method FinishRound(a: Arrivals)
      requires State().Valid() && pc == Writing(|buffersToWrite|)
      modifies this
      ensures State().Valid() && pc.Waiting? && State() == Run(old(State()), FinishTrace(a))
    {
      ghost var q := State();
      EndSteps(q, a.beforeRecycle);
      pc := Recycling;
      AppendAll(a.beforeRecycle);
      RecycleSteps(q, State(), a);
      RecycleBuffers();
    }

    /** One turn of threadFunc's loop, with appends of other threads between any two of its steps. */
    method Round(a: Arrivals)
      requires State().Valid() && pc.Waiting?
      modifies this
      ensures State().Valid() && pc.Waiting?
      ensures var n := |Cut(old(buffers) + [old(currentBuffer).value])|;
              State() == Run(old(State()), RoundTrace(a, n))
    {
      ghost var q := State();
      StartRound(a);
      ghost var n := |buffersToWrite|;
      WriteBatch(a.afterWrites);
      FinishRound(a);
      RunAppend(q, StartTrace(a), Writes(a.afterWrites, 0, n));
      RunAppend(q, StartTrace(a) + Writes(a.afterWrites, 0, n), FinishTrace(a));
    }
  }

  lemma SwapSteps(q: Log, msgs: seq<string>)
    requires q.Valid() && q.pc.Waiting?
    ensures Swap(q).Valid() && Run(q, [SwapOut] + Appends(msgs)) == Run(Swap(q), Appends(msgs))
  {
    StepKeepsValid(q, SwapOut);
    RunOne(q, SwapOut);
    RunAppend(q, [SwapOut], Appends(msgs));
  }

  lemma DropSteps(q: Log, q1: Log, a: Arrivals)
    requires q1.Valid() && q1.pc.Dropping? && q1 == Run(q, [SwapOut] + Appends(a.afterSwap))
    ensures Drop(q1).Valid() && Run(q, StartTrace(a)) == Run(Drop(q1), Appends(a.afterDrop))
  {
    StepKeepsValid(q1, DropOld);
    RunOne(q1, DropOld);
    RunAppend(q, [SwapOut] + Appends(a.afterSwap), [DropOld]);
    RunAppend(q, [SwapOut] + Appends(a.afterSwap) + [DropOld], Appends(a.afterDrop));
  }

  lemma EndSteps(q: Log, msgs: seq<string>)
    requires q.Valid() && q.pc == Writing(|q.toWrite|)
    ensures q.(pc := Recycling).Valid() && Run(q, [WriteNext] + Appends(msgs)) == Run(q.(pc := Recycling), Appends(msgs))
  {
    WriteThenAppends(q, msgs);
  }

  lemma RecycleSteps(q: Log, q1: Log, a: Arrivals)
    requires q1.Valid() && q1.pc.Recycling? && q1 == Run(q, [WriteNext] + Appends(a.beforeRecycle))
    ensures Missing(q1) <= |q1.toWrite| && Recycle(q1).Valid() && Run(q, FinishTrace(a)) == Recycle(q1)
  {
    StepKeepsValid(q1, RecycleSpares);
    RunOne(q1, RecycleSpares);
    RunAppend(q, [WriteNext] + Appends(a.beforeRecycle), [RecycleSpares]);
  }
}
