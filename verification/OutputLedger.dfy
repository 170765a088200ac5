/**
 The output path against a ledger kept from the calls and write()'s answers alone: how many bytes
 write() has taken, and which text was to be sent.
 */
module OutputLedger {
  import opened TcpConnectionState
  import opened OutputSteps

  datatype Note = Done | High(len: nat)

  datatype Ledger = Ledger(open: bool, text: string, taken: nat, notes: seq<Note>)

  const OPENED := Ledger(true, "", 0, [])

  function Waiting(l: Ledger): int { |l.text| - l.taken }

  /** What write() took, if the event called it and it succeeded: a send with nothing waiting, or a writable event with something. */
  function TakenBy(l: Ledger, ev: Event): nat {
    match ev
    case SendCalled(_, Wrote(n)) => if l.open && Waiting(l) == 0 then n else 0
    case Writable(Wrote(n)) => if l.open && Waiting(l) > 0 then n else 0
    case _ => 0
  }

  /** What the event adds to the text: a message sent while open, unless its own write finds the peer gone. */
  function AddedBy(l: Ledger, ev: Event): string {
    match ev
    case SendCalled(msg, r) => if l.open && !(Waiting(l) == 0 && r.Broken?) then msg else ""
    case _ => ""
  }

  /** The event has write() take the last byte there is: all of a message sent directly, or the rest of what waited. */
  predicate Finishes(l: Ledger, ev: Event) {
    match ev
    case SendCalled(msg, Wrote(n)) => l.open && Waiting(l) == 0 && n == |msg|
    case Writable(Wrote(n)) => l.open && Waiting(l) > 0 && n == Waiting(l)
    case _ => false
  }

  /** The notes an event queues: completion, and an upward crossing of the mark by what waits. */
  function NotesBy(config: Config, l: Ledger, ev: Event): seq<Note> {
    var after := Waiting(l) + |AddedBy(l, ev)| - TakenBy(l, ev);
    (if config.notifyComplete && Finishes(l, ev) then [Done] else [])
      + if config.notifyHigh && Waiting(l) < config.highWaterMark <= after then [High(after)] else []
  }

  function Enter(config: Config, l: Ledger, ev: Event): Ledger {
    Ledger(l.open && !ev.Closed?, l.text + AddedBy(l, ev), l.taken + TakenBy(l, ev), l.notes + NotesBy(config, l, ev))
  }

  /** write() takes no more than it is offered, and a close comes once. */
  predicate Possible(l: Ledger, ev: Event) {
    match ev
    case SendCalled(msg, Wrote(n)) => n <= |msg|
    case Writable(Wrote(n)) => n <= Waiting(l)
    case Closed => l.open
    case _ => true
  }

  function Keep(config: Config, l: Ledger, evs: seq<Event>): Ledger
    decreases |evs|
  {
    if evs == [] then l
    else Keep(config, if Possible(l, evs[0]) then Enter(config, l, evs[0]) else l, evs[1..])
  }

  /** The notes among the items of the connection's log. */
  function NotesOf(log: seq<Item>): seq<Note> {
    if log == [] then []
    else
      NotesOf(log[..|log| - 1]) +
      match log[|log| - 1]
      case Complete(_, _) => [Done]
      case HighWater(n) => [High(n)]
      case Level(_) => []
  }

  ghost predicate Agrees(q: Out, l: Ledger) {
    && 0 <= Waiting(l)
    && q.state.Connected? == l.open
    && q.retained == l.text
    && q.kernel == l.text[..l.taken] && q.buffer == l.text[l.taken..]
    && NotesOf(q.log) == l.notes
  }

  lemma NotesAppend(log: seq<Item>, item: Item)
    ensures NotesOf(log + [item]) == NotesOf(log) +
      match item
      case Complete(_, _) => [Done]
      case HighWater(n) => [High(n)]
      case Level(_) => []
  {
    assert (log + [item])[..|log|] == log;
  }

  lemma RecordKeepsNotes(q: Out)
    ensures NotesOf(Record(q).log) == NotesOf(q.log)
  {
    NotesAppend(q.log, Level(|q.buffer|));
  }

  /** Text split behind its first n bytes; k more of them move over. */
  lemma MoveOver(text: string, n: nat, k: nat)
    requires n + k <= |text|
    ensures text[..n] + text[n..][..k] == text[..n + k] && text[n..][k..] == text[n + k..]
  {
  }

  /** The parts of an agreement, for a text that is known. */
  lemma AgreesWith(q: Out, l: Ledger, n: nat)
    requires n <= |l.text| && l.taken == n && q.state.Connected? == l.open && q.retained == l.text
    requires q.kernel == l.text[..n] && q.buffer == l.text[n..] && NotesOf(q.log) == l.notes
    ensures Agrees(Record(q), l)
  {
    RecordKeepsNotes(q);
  }

  /** n bytes of a message go behind what was taken, the rest behind what waits; both only if nothing waits. */
  lemma MessageSplits(text: string, taken: nat, msg: string, n: nat)
    requires taken <= |text| && n <= |msg| && (n > 0 ==> taken == |text|)
    ensures text[..taken] + msg[..n] == (text + msg)[..taken + n]
    ensures text[taken..] + msg[n..] == (text + msg)[taken + n..]
  {
  }

  lemma EnqueueNotes(q: Out, remaining: string)
    requires remaining != ""
    ensures var after := |q.buffer| + |remaining|;
      NotesOf(Enqueue(q, remaining).log) == NotesOf(q.log) +
        if q.config.notifyHigh && |q.buffer| < q.config.highWaterMark <= after then [High(after)] else []
  {
    NotesAppend(q.log, HighWater(|q.buffer| + |remaining|));
    assert NotesOf(q.log) + [] == NotesOf(q.log);
  }

  /** A message is buffered behind what waits, or what a direct write left of it. */
  lemma EnqueueAgrees(q: Out, q1: Out, l: Ledger, msg: string, n: nat, ev: Event)
    requires Agrees(q, l) && l.open && n < |msg| && (n > 0 ==> q.buffer == "")
    requires q1 == q.(kernel := q.kernel + msg[..n], retained := q.retained + msg)
    requires ev.SendCalled? && AddedBy(l, ev) == msg && TakenBy(l, ev) == n && !Finishes(l, ev)
    ensures Agrees(Record(Enqueue(q1, msg[n..])), Enter(q.config, l, ev))
  {
    var r, l1 := Enqueue(q1, msg[n..]), Enter(q.config, l, ev);
    MessageSplits(l.text, l.taken, msg, n);
    EnqueueNotes(q1, msg[n..]);
    assert [] + NotesBy(q.config, l, ev) == NotesBy(q.config, l, ev);
    AgreesWith(r, l1, l1.taken);
  }

  lemma DirectSendAgrees(q: Out, l: Ledger, msg: string, n: nat)
    requires q.Valid() && Agrees(q, l) && l.open && Direct(q) && n <= |msg|
    ensures Agrees(Record(SendInLoop(q, msg, Wrote(n))), Enter(q.config, l, SendCalled(msg, Wrote(n))))
  {
    var ev := SendCalled(msg, Wrote(n));
    var q1, l1 := q.(kernel := q.kernel + msg[..n], retained := q.retained + msg), Enter(q.config, l, ev);
    if n == |msg| {
      MessageSplits(l.text, l.taken, msg, n);
      NotesAppend(q.log, Complete(q1.kernel, q1.retained));
      assert l.notes + [] == l.notes;
      AgreesWith(NoteComplete(q1), l1, l1.taken);
    } else {
      EnqueueAgrees(q, q1, l, msg, n, ev);
    }
  }

  lemma SendAgrees(q: Out, l: Ledger, msg: string, r: WriteResult)
    requires q.Valid() && Agrees(q, l) && (r.Wrote? ==> r.n <= |msg|)
    ensures Agrees(Record(Send(q, msg, r)), Enter(q.config, l, SendCalled(msg, r)))
  {
    var ev := SendCalled(msg, r);
    if l.open && Direct(q) && r.Wrote? {
      DirectSendAgrees(q, l, msg, r.n);
    } else if AddedBy(l, ev) == "" {
      EmptySendAgrees(q, l, msg, r);
    } else {
      BufferedSendAgrees(q, l, msg, r);
    }
  }

  /** The whole message is buffered: something waits, or the direct write would have blocked or failed otherwise. */
  lemma BufferedSendAgrees(q: Out, l: Ledger, msg: string, r: WriteResult)
    requires q.Valid() && Agrees(q, l) && l.open && msg != "" && (r.Wrote? ==> r.n <= |msg|)
    requires !(Direct(q) && (r.Wrote? || r.Broken?))
    ensures Agrees(Record(Send(q, msg, r)), Enter(q.config, l, SendCalled(msg, r)))
  {
    NoneAndAll(q.kernel, msg);
    EnqueueAgrees(q, q.(kernel := q.kernel + msg[..0], retained := q.retained + msg), l, msg, 0, SendCalled(msg, r));
  }

  lemma NoneAndAll(kernel: string, msg: string)
    ensures kernel + msg[..0] == kernel && msg[0..] == msg
  {
  }

  /** Nothing is added: not connected, the peer is gone, or the message is empty. */
  lemma EmptySendAgrees(q: Out, l: Ledger, msg: string, r: WriteResult)
    requires q.Valid() && Agrees(q, l) && (r.Wrote? ==> r.n <= |msg|)
    requires AddedBy(l, SendCalled(msg, r)) == "" && !(l.open && Direct(q) && r.Wrote?)
    ensures Agrees(Record(Send(q, msg, r)), Enter(q.config, l, SendCalled(msg, r)))
  {
    assert l.text + "" == l.text && q.retained + "" == q.retained && l.notes + [] == l.notes;
    RecordKeepsNotes(q);
  }

  lemma WriteAgrees(q: Out, l: Ledger, n: nat)
    requires q.Valid() && Agrees(q, l) && l.open && 0 < n <= Waiting(l)
    ensures Agrees(Record(HandleWrite(q, Wrote(n))), Enter(q.config, l, Writable(Wrote(n))))
  {
    var r, l1 := HandleWrite(q, Wrote(n)), Enter(q.config, l, Writable(Wrote(n)));
    MoveOver(l.text, l.taken, n);
    assert l.text + "" == l.text && l.notes + [] == l.notes;
    NotesAppend(q.log, Complete(r.kernel, r.retained));
    AgreesWith(r, l1, l1.taken);
  }

  lemma HandleWriteAgrees(q: Out, l: Ledger, r: WriteResult)
    requires q.Valid() && Agrees(q, l) && (r.Wrote? ==> r.n <= Waiting(l))
    ensures Agrees(Record(HandleWrite(q, r)), Enter(q.config, l, Writable(r)))
  {
    if l.open && r.Wrote? && r.n > 0 {
      WriteAgrees(q, l, r.n);
    } else {
      assert l.text + "" == l.text && l.notes + [] == l.notes;
      RecordKeepsNotes(q);
    }
  }

  lemma StepAgrees(q: Out, l: Ledger, ev: Event)
    requires q.Valid() && Agrees(q, l) && Enabled(q, ev)
    ensures Agrees(Step(q, ev), Enter(q.config, l, ev))
  {
    match ev
    case SendCalled(msg, r) => SendAgrees(q, l, msg, r);
    case Writable(r) => HandleWriteAgrees(q, l, r);
    case Closed =>
      assert l.text + "" == l.text && l.notes + [] == l.notes;
      RecordKeepsNotes(HandleClose(q));
    case ShutdownCalled =>
      assert l.text + "" == l.text && l.notes + [] == l.notes;
      RecordKeepsNotes(Shutdown(q));
  }

  lemma {:induction false} RunAgrees(q: Out, l: Ledger, evs: seq<Event>)
    requires q.Valid() && Agrees(q, l)
    ensures Agrees(Run(q, evs), Keep(q.config, l, evs))
    decreases |evs|
  {
    if evs != [] {
      assert Enabled(q, evs[0]) <==> Possible(l, evs[0]);
      if Enabled(q, evs[0]) {
        StepAgrees(q, l, evs[0]);
        StepKeepsValid(q, evs[0]);
        StepRetains(q, evs[0]);
        RunAgrees(Step(q, evs[0]), Enter(q.config, l, evs[0]), evs[1..]);
      } else {
        RunAgrees(q, l, evs[1..]);
      }
    }
  }

  /**
   Over every run, with the ledger kept from the calls and write()'s answers alone: the kernel has
   exactly the bytes that write() said it took, from the front of the text sent; the output buffer
   is exactly the rest; and the notes queued are exactly those the ledger calls for, in order:
   completion each time write() takes the last byte, high water each time what waits crosses the
   mark upwards.
   */
  lemma OutputFollowsLedger(config: Config, evs: seq<Event>)
    ensures var q, l := Run(Established(config), evs), Keep(config, OPENED, evs);
      && l.taken <= |l.text|
      && q.kernel == l.text[..l.taken] && q.buffer == l.text[l.taken..]
      && (q.writing <==> l.open && l.taken < |l.text|)
      && (q.state.Connected? <==> l.open)
      && NotesOf(q.log) == l.notes
  {
    assert NotesOf([Level(0)]) == [] by { assert [Level(0)][..0] == []; }
    RunAgrees(Established(config), OPENED, evs);
    RunKeepsValid(Established(config), evs);
  }
}
