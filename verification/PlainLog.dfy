/** The asynchronous log refines a plain one that has no spare buffers to move about. */
module PlainLog {
  import opened Wrappers
  import opened LogSteps

  /** The buffer being filled, the full ones, the batch being written, and the file. */
  datatype Plain = Plain(filling: string, full: seq<string>, batch: seq<string>, pc: Pc, file: string)

  const BLANK := Plain("", [], [], Waiting, "")

  /** A message goes into the buffer if a byte is left over, else into the next one; one that fits no buffer is lost. */
  function Put(p: Plain, msg: string): Plain {
    if |p.filling| + |msg| < 4_000_000 then p.(filling := p.filling + msg)
    else p.(full := p.full + [p.filling], filling := if |msg| < 4_000_000 then msg else "")
  }

  /** The back end takes everything there is. */
  function Take(p: Plain): Plain {
    Plain("", [], p.full + [p.filling], Dropping, p.file)
  }

  /** Of more than 25 buffers the first two are written. */
  function Trim(p: Plain): Plain {
    p.(batch := if |p.batch| > 25 then [p.batch[0], p.batch[1]] else p.batch, pc := Writing(0))
  }

  function WriteOut(p: Plain, i: nat): Plain {
    if i < |p.batch| then p.(file := p.file + p.batch[i], pc := Writing(i + 1)) else p.(pc := Recycling)
  }

  function PlainStep(p: Plain, ev: Event): Plain {
    match ev
    case AppendMsg(msg) => Put(p, msg)
    case SwapOut => if p.pc.Waiting? then Take(p) else p
    case DropOld => if p.pc.Dropping? then Trim(p) else p
    case WriteNext => if p.pc.Writing? then WriteOut(p, p.pc.next) else p
    case RecycleSpares => if p.pc.Recycling? then p.(batch := [], pc := Waiting) else p
  }

  function PlainRun(p: Plain, evs: seq<Event>): Plain
    decreases |evs|
  {
    if evs == [] then p else PlainRun(PlainStep(p, evs[0]), evs[1..])
  }

  ghost predicate Agrees(q: Log, p: Plain) {
    q.current == Some(p.filling) && q.buffers == p.full && q.toWrite == p.batch && q.pc == p.pc && q.written == p.file
  }

  lemma AppendAgrees(q: Log, p: Plain, msg: string)
    requires q.Valid() && Agrees(q, p)
    ensures Agrees(Append(q, msg), Put(p, msg))
  {
    assert "" + msg == msg;
  }

  lemma StepAgrees(q: Log, p: Plain, ev: Event)
    requires q.Valid() && Agrees(q, p)
    ensures Agrees(if Enabled(q, ev) then Step(q, ev) else q, PlainStep(p, ev))
  {
    match ev
    case AppendMsg(msg) => AppendAgrees(q, p, msg);
    case DropOld => assert |q.toWrite| > 25 ==> q.toWrite[..2] == [q.toWrite[0], q.toWrite[1]];
    case _ =>
  }

  lemma {:induction false} RunAgrees(q: Log, p: Plain, evs: seq<Event>)
    requires q.Valid() && Agrees(q, p)
    ensures Agrees(Run(q, evs), PlainRun(p, evs))
    decreases |evs|
  {
    if evs != [] {
      StepAgrees(q, p, evs[0]);
      if Enabled(q, evs[0]) {
        StepKeepsValid(q, evs[0]);
      }
      RunAgrees(if Enabled(q, evs[0]) then Step(q, evs[0]) else q, PlainStep(p, evs[0]), evs[1..]);
    }
  }

  /** In every interleaving the log with its moving buffers holds and writes what the plain log does. */
  lemma LogRefinesPlain(evs: seq<Event>)
    ensures Agrees(Run(INIT, evs), PlainRun(BLANK, evs))
  {
    RunAgrees(INIT, BLANK, evs);
  }
}
