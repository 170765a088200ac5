/**
 Asynchronous logging: front-end threads append under the mutex, one back-end thread swaps the
 filled buffers out, writes them and recycles two of them. A buffer is its contents; a null
 unique_ptr is None.
 */
module LogSteps {
  import opened Wrappers
  import opened Bytes

  const SIZE: nat := 4_000_000
  const MAX_BATCH: nat := 25

  /** Where the back end stands in its round; Crashed after a null buffer is used or an empty vector popped. */
  datatype Pc = Waiting | Dropping | Writing(next: nat) | Recycling | Crashed

  datatype Log = Log(
    current: Option<string>,       // currentBuffer_
    next: Option<string>,          // nextBuffer_
    buffers: seq<string>,          // buffers_
    spare1: Option<string>,        // newBuffer1
    spare2: Option<string>,        // newBuffer2
    toWrite: seq<string>,          // buffersToWrite
    pc: Pc,
    written: string,               // history: log data written, drop notices aside
    batches: seq<seq<string>>,     // history: every vector swapped out
    accepted: string)              // history: the appended messages that fit a buffer
  {
    ghost predicate Valid() {
      && !pc.Crashed?
      && current.Some? && |current.value| < SIZE
      && (next.Some? ==> next.value == "")
      && (next.None? ==> buffers != [])
      && (pc.Waiting? ==> spare1 == Some("") && spare2 == Some("") && toWrite == [])
      && (!pc.Waiting? ==>
            && spare1.None? && toWrite != []
            && (spare2 == Some("") || (spare2.None? && 2 <= |toWrite|)))
      && (pc.Dropping? ==> batches != [] && toWrite == batches[|batches| - 1])
      && (pc.Writing? ==> pc.next <= |toWrite|)
      && accepted == AllOf(batches) + Concat(buffers) + current.value
      && written + Unwritten() == KeptOf(batches)
    }

    /** The rest of the batch that is still going to be written. */
    ghost function Unwritten(): string {
      match pc
      case Dropping => Concat(Cut(toWrite))
      case Writing(k) => if k <= |toWrite| then Concat(toWrite[k..]) else ""
      case _ => ""
    }
  }

  /** More than 25 buffers: all but the first two are dropped. */
  function Cut(batch: seq<string>): seq<string> {
    if |batch| > MAX_BATCH then batch[..2] else batch
  }

  function AllOf(batches: seq<seq<string>>): string {
    if batches == [] then "" else AllOf(batches[..|batches| - 1]) + Concat(batches[|batches| - 1])
  }

  function KeptOf(batches: seq<seq<string>>): string {
    if batches == [] then "" else KeptOf(batches[..|batches| - 1]) + Concat(Cut(batches[|batches| - 1]))
  }

  const INIT := Log(Some(""), Some(""), [], Some(""), Some(""), [], Waiting, "", [], "")

  /** FixedBuffer::append: a message that does not leave a byte free is ignored. */
  function FixedAppend(content: string, msg: string): string {
    if SIZE - |content| > |msg| then content + msg else content
  }

  function Append(q: Log, msg: string): Log
    requires q.current.Some?
  {
    var q1 := q.(accepted := if |msg| < SIZE then q.accepted + msg else q.accepted);
    var cur := q.current.value;
    if SIZE - |cur| > |msg| then q1.(current := Some(FixedAppend(cur, msg)))
    else
      var empty := if q.next.Some? then q.next.value else "";
      q1.(buffers := q.buffers + [cur], current := Some(FixedAppend(empty, msg)), next := None)
  }

  /** The back end's critical section. */
  function Swap(q: Log): Log
    requires q.current.Some?
  {
    var filled := q.buffers + [q.current.value];
    q.(current := q.spare1, spare1 := None, buffers := q.toWrite, toWrite := filled,
       next := if q.next.None? then q.spare2 else q.next,
       spare2 := if q.next.None? then None else q.spare2,
       pc := Dropping, batches := q.batches + [filled])
  }

  function Drop(q: Log): Log {
    q.(toWrite := Cut(q.toWrite), pc := Writing(0))
  }

  function Write(q: Log): Log
    requires q.pc.Writing?
  {
    var k := q.pc.next;
    if k < |q.toWrite| then q.(written := q.written + q.toWrite[k], pc := Writing(k + 1))
    else q.(pc := Recycling)
  }

  /** back() and pop_back() need an element; reset() empties the buffer that is kept. */
  function Refill(spare: Option<string>, vec: seq<string>): (Option<string>, seq<string>)
    requires spare.None? ==> vec != []
  {
    if spare.None? then (Some(""), vec[..|vec| - 1]) else (spare, vec)
  }

  /** The buffers back() and pop_back() are asked for. */
  function Missing(q: Log): nat {
    (if q.spare1.None? then 1 else 0) + (if q.spare2.None? then 1 else 0)
  }

  function Recycle(q: Log): Log
    requires Missing(q) <= |q.toWrite|
  {
    var kept := if |q.toWrite| > 2 then q.toWrite[..2] else q.toWrite;
    var (s1, rest1) := Refill(q.spare1, kept);
    var (s2, _) := Refill(q.spare2, rest1);
    q.(spare1 := s1, spare2 := s2, toWrite := [], pc := Waiting)
  }

  datatype Event = AppendMsg(msg: string) | SwapOut | DropOld | WriteNext | RecycleSpares

  predicate Enabled(q: Log, ev: Event) {
    match ev
    case AppendMsg(_) => !q.pc.Crashed?
    case SwapOut => q.pc.Waiting?
    case DropOld => q.pc.Dropping?
    case WriteNext => q.pc.Writing?
    case RecycleSpares => q.pc.Recycling?
  }

  /** The step uses no null buffer and pops no empty vector. */
  predicate Safe(q: Log, ev: Event) {
    match ev
    case AppendMsg(_) => q.current.Some?
    case SwapOut => q.current.Some?
    case RecycleSpares => Missing(q) <= |q.toWrite|
    case _ => true
  }

  function Step(q: Log, ev: Event): Log
    requires Enabled(q, ev)
  {
    if !Safe(q, ev) then q.(pc := Crashed) else
    match ev
    case AppendMsg(msg) => Append(q, msg)
    case SwapOut => Swap(q)
    case DropOld => Drop(q)
    case WriteNext => Write(q)
    case RecycleSpares => Recycle(q)
  }

  /** Any interleaving of appends with the back end's steps; a step that is not due is skipped. */
  function Run(q: Log, evs: seq<Event>): Log
    decreases |evs|
  {
    if evs == [] then q
    else Run(if Enabled(q, evs[0]) then Step(q, evs[0]) else q, evs[1..])
  }

  function SubmittedBy(ev: Event): string {
    if ev.AppendMsg? && |ev.msg| < SIZE then ev.msg else ""
  }

  /** The messages of a run that are shorter than a buffer, in order, after the text so far. */
  function SubmittedAfter(sofar: string, evs: seq<Event>): string
    decreases |evs|
  {
    if evs == [] then sofar else SubmittedAfter(sofar + SubmittedBy(evs[0]), evs[1..])
  }

  function Submitted(evs: seq<Event>): string { SubmittedAfter("", evs) }

  // ---- every step keeps the log valid

  lemma ConcatPush(ss: seq<string>, s: string)
    ensures Concat(ss + [s]) == Concat(ss) + s
  {
    ConcatAppend(ss, [s]);
    ConcatOne(s);
  }

  lemma Reassociate(a: string, b: string, c: string, d: string)
    ensures a + b + (c + d) == a + b + c + d && a + (b + c) + d == a + b + c + d
  {
  }

  lemma AppendKeepsText(q: Log, msg: string)
    requires q.Valid()
    ensures var r := Append(q, msg); r.accepted == AllOf(r.batches) + Concat(r.buffers) + r.current.value
  {
    var cur, all, held := q.current.value, AllOf(q.batches), Concat(q.buffers);
    var kept := if |msg| < SIZE then msg else "";
    assert Append(q, msg).accepted == all + held + cur + kept;
    Reassociate(all, held, cur, kept);
    if SIZE - |cur| <= |msg| {
      ConcatPush(q.buffers, cur);
      assert Append(q, msg).current.value == kept;
    }
  }

  lemma AppendKeepsValid(q: Log, msg: string)
    requires q.Valid()
    ensures Append(q, msg).Valid()
  {
    AppendKeepsText(q, msg);
  }

  lemma SwapKeepsValid(q: Log)
    requires q.Valid() && q.pc.Waiting?
    ensures Swap(q).Valid()
  {
    var r := Swap(q);
    var filled := q.buffers + [q.current.value];
    assert r.batches[..|r.batches| - 1] == q.batches;
    ConcatPush(q.buffers, q.current.value);
    assert AllOf(q.batches) + (Concat(q.buffers) + q.current.value) == AllOf(q.batches) + Concat(q.buffers) + q.current.value;
    assert r.accepted == AllOf(r.batches) + Concat([]) + "";
    assert q.written + "" == q.written;
  }

  lemma WriteKeepsValid(q: Log)
    requires q.Valid() && q.pc.Writing?
    ensures Write(q).Valid()
  {
    var k := q.pc.next;
    if k < |q.toWrite| {
      assert q.toWrite[k..] == [q.toWrite[k]] + q.toWrite[k + 1..];
      assert q.written + q.toWrite[k] + Concat(q.toWrite[k + 1..]) == q.written + (q.toWrite[k] + Concat(q.toWrite[k + 1..]));
    } else {
      assert q.toWrite[k..] == [];
    }
  }

  lemma StepKeepsValid(q: Log, ev: Event)
    requires q.Valid() && Enabled(q, ev)
    ensures Step(q, ev).Valid()
  {
    match ev
    case AppendMsg(msg) => AppendKeepsValid(q, msg);
    case SwapOut => SwapKeepsValid(q);
    case DropOld => assert Cut(q.toWrite)[0..] == Cut(q.toWrite);
    case WriteNext => WriteKeepsValid(q);
    case RecycleSpares =>
  }

  lemma {:induction false} RunKeepsValid(q: Log, evs: seq<Event>)
    requires q.Valid()
    ensures Run(q, evs).Valid()
    decreases |evs|
  {
    if evs != [] {
      if Enabled(q, evs[0]) {
        StepKeepsValid(q, evs[0]);
        RunKeepsValid(Step(q, evs[0]), evs[1..]);
      } else {
        RunKeepsValid(q, evs[1..]);
      }
    }
  }

  lemma StepAccepts(q: Log, ev: Event)
    requires q.Valid() && Enabled(q, ev)
    ensures Step(q, ev).accepted == q.accepted + SubmittedBy(ev)
  {
    assert q.accepted + "" == q.accepted;
  }

  lemma {:induction false} RunAccepts(q: Log, evs: seq<Event>)
    requires q.Valid()
    ensures Run(q, evs).accepted == SubmittedAfter(q.accepted, evs)
    decreases |evs|
  {
    if evs != [] {
      if Enabled(q, evs[0]) {
        StepKeepsValid(q, evs[0]);
        StepAccepts(q, evs[0]);
        RunAccepts(Step(q, evs[0]), evs[1..]);
      } else {
        assert q.accepted + "" == q.accepted;
        RunAccepts(q, evs[1..]);
      }
    }
  }

  /**
   In every interleaving no null buffer is used and no empty vector popped: the front end always
   has a buffer to write into, an exhausted spare means a filled buffer is waiting, every round of
   the back end starts with two empty spares, and when it recycles there are at least as many
   buffers as it must take.
   */
  lemma RecyclingIsSafe(evs: seq<Event>)
    ensures var q := Run(INIT, evs);
      && !q.pc.Crashed? && q.current.Some?
      && (q.next.None? ==> q.buffers != [])
      && (q.pc.Waiting? ==> q.spare1 == Some("") && q.spare2 == Some(""))
      && (q.pc.Recycling? ==> Missing(q) <= |q.toWrite|)
  {
    RunKeepsValid(INIT, evs);
  }

  /**
   In every interleaving the swapped-out buffers, buffers_ and the current buffer hold exactly the
   submitted messages in order; what is written, with the rest of the batch, is the same text minus
   the buffers from index 2 on of every batch of more than 25.
   */
  lemma LogIsConserved(evs: seq<Event>)
    ensures var q := Run(INIT, evs);
      && q.current.Some?
      && AllOf(q.batches) + Concat(q.buffers) + q.current.value == Submitted(evs)
      && q.written + q.Unwritten() == KeptOf(q.batches)
  {
    RunKeepsValid(INIT, evs);
    RunAccepts(INIT, evs);
  }

  /** Cutting the batch down to two buffers loses no text. */
  predicate CutLosesNothing(b: seq<string>) {
    |b| > MAX_BATCH ==> forall i :: 2 <= i < |b| ==> b[i] == ""
  }

  /**
   Nothing is lost (written, unwritten, waiting and current text are the submitted messages) if and
   only if every batch of more than 25 holds only empty buffers from index 2 on.
   */
  lemma NothingLostIff(evs: seq<Event>)
    ensures var q := Run(INIT, evs);
      && q.current.Some?
      && ((forall b :: b in q.batches ==> CutLosesNothing(b)) <==>
            q.written + q.Unwritten() + Concat(q.buffers) + q.current.value == Submitted(evs))
  {
    LogIsConserved(evs);
    var q := Run(INIT, evs);
    KeptIsAllIff(q.batches);
    SameTail(KeptOf(q.batches), AllOf(q.batches), Concat(q.buffers), q.current.value);
  }

  lemma SameTail(a: string, b: string, c: string, d: string)
    ensures a + c + d == b + c + d <==> a == b
  {
    if a + c + d == b + c + d {
      assert |a| == |b|;
      assert a == (a + c + d)[..|a|] == (b + c + d)[..|b|] == b;
    }
  }

  lemma {:induction false} ConcatEmptyIff(ss: seq<string>)
    ensures |Concat(ss)| == 0 <==> forall i :: 0 <= i < |ss| ==> ss[i] == ""
  {
    if ss != [] {
      ConcatEmptyIff(ss[1..]);
      assert forall i :: 0 < i < |ss| ==> ss[i] == ss[1..][i - 1];
    }
  }

  lemma CutShrinks(b: seq<string>)
    ensures |Concat(Cut(b))| <= |Concat(b)| && (|Concat(Cut(b))| == |Concat(b)| <==> CutLosesNothing(b))
    ensures CutLosesNothing(b) ==> Concat(Cut(b)) == Concat(b)
  {
    if |b| > MAX_BATCH {
      assert b == b[..2] + b[2..];
      ConcatAppend(b[..2], b[2..]);
      ConcatEmptyIff(b[2..]);
      assert forall i :: 2 <= i < |b| ==> b[i] == b[2..][i - 2];
    }
  }

  lemma {:induction false} KeptIsAllIff(batches: seq<seq<string>>)
    ensures |KeptOf(batches)| <= |AllOf(batches)|
    ensures |KeptOf(batches)| == |AllOf(batches)| ==> KeptOf(batches) == AllOf(batches)
    ensures KeptOf(batches) == AllOf(batches) <==> forall b :: b in batches ==> CutLosesNothing(b)
  {
    if batches != [] {
      var before, last := batches[..|batches| - 1], batches[|batches| - 1];
      KeptIsAllIff(before);
      CutShrinks(last);
      assert forall b :: b in batches <==> b in before || b == last;
      assert |KeptOf(batches)| == |KeptOf(before)| + |Concat(Cut(last))|;
      assert |AllOf(batches)| == |AllOf(before)| + |Concat(last)|;
    }
  }
}
