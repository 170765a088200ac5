/** The output path of a connection: direct writes, the output buffer, and write interest. */
module OutputSteps {

  import opened TcpConnectionState

  /** What write() answers. */
  datatype WriteResult = Wrote(n: nat) | WouldBlock | Broken /* EPIPE, ECONNRESET */ | OtherError

  /** What the run records: queued notifications, and the buffered length after every step. */
  datatype Item =
    | Complete(kernel: string, retained: string)
    | HighWater(len: nat)
    | Level(len: nat)

  datatype Config = Config(notifyComplete: bool, notifyHigh: bool, highWaterMark: nat)

  datatype Out = Out(
    config: Config,
    state: StateE,
    buffer: string,       // outputBuffer_
    writing: bool,        // channel_->isWriting()
    halfClosed: bool,     // shutdownWrite was called
    kernel: string,       // history: bytes write() took
    retained: string,     // history: the messages sent and not dropped
    log: seq<Item>)       // history
  {
    ghost predicate Valid() {
      && kernel + buffer == retained
      && (state.Connected? ==> (writing <==> buffer != ""))
      && (!state.Connected? ==> !writing)
      && (halfClosed ==> !state.Connected?)
      && log != [] && log[|log| - 1] == Level(|buffer|)
      && NotesValid(log, config.highWaterMark)
    }
  }

  /** Notifications are queued at the right moments. */
  ghost predicate NotesValid(log: seq<Item>, mark: nat) {
    && (forall i :: 0 <= i < |log| && log[i].Complete? ==> log[i].kernel == log[i].retained)
    && (forall i :: 0 <= i < |log| && log[i].HighWater? ==>
          && 0 < i && log[i - 1].Level? && log[i - 1].len < mark
          && i + 1 < |log| && log[i + 1] == Level(log[i].len) && mark <= log[i].len)
  }

  function Established(config: Config): Out {
    Out(config, Connected, "", false, false, "", "", [Level(0)])
  }

  /** queueInLoop of writeCompleteCallback_. */
  function NoteComplete(q: Out): Out {
    if q.config.notifyComplete then q.(log := q.log + [Complete(q.kernel, q.retained)]) else q
  }

  function Record(q: Out): Out {
    q.(log := q.log + [Level(|q.buffer|)])
  }

  predicate Direct(q: Out) { !q.writing && q.buffer == "" }

  function SendInLoop(q: Out, msg: string, r: WriteResult): Out
    requires r.Wrote? ==> r.n <= |msg|
  {
    if q.state.Disconnected? then q
    else if Direct(q) then
      match r
      case Wrote(n) =>
        var q1 := q.(kernel := q.kernel + msg[..n], retained := q.retained + msg);
        if n == |msg| then NoteComplete(q1) else Enqueue(q1, msg[n..])
      case Broken => q
      case _ => Enqueue(q.(retained := q.retained + msg), msg)
    else Enqueue(q.(retained := q.retained + msg), msg)
  }

  /** The part of sendInLoop after the direct write, for what remains. */
  function Enqueue(q: Out, remaining: string): Out {
    if remaining == "" then q else
      var oldLen, newLen := |q.buffer|, |q.buffer| + |remaining|;
      var crossed := newLen >= q.config.highWaterMark && oldLen < q.config.highWaterMark && q.config.notifyHigh;
      q.(buffer := q.buffer + remaining, writing := true,
         log := if crossed then q.log + [HighWater(newLen)] else q.log)
  }

  function Send(q: Out, msg: string, r: WriteResult): Out
    requires r.Wrote? ==> r.n <= |msg|
  {
    if q.state.Connected? then SendInLoop(q, msg, r) else q
  }

  function ShutdownInLoop(q: Out): Out {
    if q.writing then q else q.(halfClosed := true)
  }

  function HandleWrite(q: Out, r: WriteResult): Out
    requires r.Wrote? ==> r.n <= |q.buffer|
  {
    if q.writing && r.Wrote? && r.n > 0 then
      var q1 := q.(kernel := q.kernel + q.buffer[..r.n], buffer := q.buffer[r.n..]);
      if q1.buffer == "" then
        var q2 := NoteComplete(q1.(writing := false));
        if q.state.Disconnecting? then ShutdownInLoop(q2) else q2
      else q1
    else q
  }

  function HandleClose(q: Out): Out {
    q.(state := Disconnected, writing := false)
  }

  /** The guard is the one in the code: only a disconnected connection is shut down. */
  function Shutdown(q: Out): Out {
    if q.state.Disconnected? then ShutdownInLoop(q.(state := Disconnecting)) else q
  }

  datatype Event =
    | SendCalled(msg: string, result: WriteResult)
    | Writable(result: WriteResult)
    | Closed
    | ShutdownCalled

  predicate Enabled(q: Out, ev: Event) {
    match ev
    case SendCalled(msg, r) => r.Wrote? ==> r.n <= |msg|
    case Writable(r) => r.Wrote? ==> r.n <= |q.buffer|
    case Closed => q.state.Connected?
    case ShutdownCalled => true
  }

  function Step(q: Out, ev: Event): Out
    requires Enabled(q, ev)
  {
    Record(match ev
      case SendCalled(msg, r) => Send(q, msg, r)
      case Writable(r) => HandleWrite(q, r)
      case Closed => HandleClose(q)
      case ShutdownCalled => Shutdown(q))
  }

  function Run(q: Out, evs: seq<Event>): Out
    decreases |evs|
  {
    if evs == [] then q
    else Run(if Enabled(q, evs[0]) then Step(q, evs[0]) else q, evs[1..])
  }

  /** What a step adds to the kept messages: one sent while connected, but for a direct write that found the peer gone. */
  function KeptBy(q: Out, ev: Event): string {
    if ev.SendCalled? && q.state.Connected? && !(Direct(q) && ev.result.Broken?) then ev.msg else ""
  }

  /** The messages a run sends and does not drop, after the text so far. */
  function KeptAfter(sofar: string, q: Out, evs: seq<Event>): string
    decreases |evs|
  {
    if evs == [] then sofar
    else if Enabled(q, evs[0]) then KeptAfter(sofar + KeptBy(q, evs[0]), Step(q, evs[0]), evs[1..])
    else KeptAfter(sofar, q, evs[1..])
  }

  function Kept(q: Out, evs: seq<Event>): string { KeptAfter("", q, evs) }

  lemma NotesExtend(log: seq<Item>, mark: nat, notes: seq<Item>, len: nat)
    requires NotesValid(log, mark) && log != [] && log[|log| - 1].Level?
    requires |notes| <= 1
    requires notes != [] ==>
      || (notes[0].Complete? && notes[0].kernel == notes[0].retained)
      || (notes[0] == HighWater(len) && log[|log| - 1].len < mark <= len)
    ensures NotesValid(log + notes + [Level(len)], mark)
  {
  }

  lemma EnqueueKeepsValid(q: Out, q1: Out, remaining: string)
    requires q.Valid() && q.state.Connected? && remaining != ""
    requires q1 == q.(kernel := q1.kernel, retained := q1.retained) && q1.kernel + q1.buffer + remaining == q1.retained
    ensures Record(Enqueue(q1, remaining)).Valid()
  {
    var r := Enqueue(q1, remaining);
    assert r.kernel + r.buffer == q1.kernel + q1.buffer + remaining;
    var notes := if r.log == q.log then [] else [HighWater(|r.buffer|)];
    assert r.log == q.log + notes;
    NotesExtend(q.log, q.config.highWaterMark, notes, |r.buffer|);
  }

  lemma DirectWriteKeepsValid(q: Out, msg: string, n: nat)
    requires q.Valid() && q.state.Connected? && Direct(q) && n <= |msg|
    ensures Record(SendInLoop(q, msg, Wrote(n))).Valid()
  {
    var q1 := q.(kernel := q.kernel + msg[..n], retained := q.retained + msg);
    assert q1.kernel + msg[n..] == q1.retained;
    if n == |msg| {
      var notes := if q.config.notifyComplete then [Complete(q1.kernel, q1.retained)] else [];
      NotesExtend(q.log, q.config.highWaterMark, notes, 0);
      assert NoteComplete(q1).log == q.log + notes;
    } else {
      assert q1.kernel + q1.buffer + msg[n..] == q1.retained;
      EnqueueKeepsValid(q, q1, msg[n..]);
    }
  }

  lemma SendKeepsValid(q: Out, msg: string, r: WriteResult)
    requires q.Valid() && (r.Wrote? ==> r.n <= |msg|)
    ensures Record(Send(q, msg, r)).Valid()
  {
    if !q.state.Connected? || (Direct(q) && r.Broken?) {
      NotesExtend(q.log, q.config.highWaterMark, [], |q.buffer|);
    } else if Direct(q) && r.Wrote? {
      DirectWriteKeepsValid(q, msg, r.n);
    } else if msg == "" {
      NotesExtend(q.log, q.config.highWaterMark, [], |q.buffer|);
    } else {
      EnqueueKeepsValid(q, q.(retained := q.retained + msg), msg);
    }
  }

  lemma HandleWriteKeepsValid(q: Out, r: WriteResult)
    requires q.Valid() && (r.Wrote? ==> r.n <= |q.buffer|)
    ensures Record(HandleWrite(q, r)).Valid()
  {
    var q1 := HandleWrite(q, r);
    if r.Wrote? {
      assert q.buffer == q.buffer[..r.n] + q.buffer[r.n..];
    }
    assert q.log <= q1.log && q1.log == q.log + q1.log[|q.log|..];
    NotesExtend(q.log, q.config.highWaterMark, q1.log[|q.log|..], |q1.buffer|);
  }

  lemma StepKeepsValid(q: Out, ev: Event)
    requires q.Valid() && Enabled(q, ev)
    ensures Step(q, ev).Valid()
  {
    match ev
    case SendCalled(msg, r) => SendKeepsValid(q, msg, r);
    case Writable(r) => HandleWriteKeepsValid(q, r);
    case Closed => NotesExtend(q.log, q.config.highWaterMark, [], |q.buffer|);
    case ShutdownCalled => NotesExtend(q.log, q.config.highWaterMark, [], |q.buffer|);
  }

  lemma StepRetains(q: Out, ev: Event)
    requires q.Valid() && Enabled(q, ev)
    ensures Step(q, ev).retained == q.retained + KeptBy(q, ev) && Step(q, ev).config == q.config
  {
    assert q.retained + "" == q.retained;
  }

  lemma {:induction false} RunKeepsValid(q: Out, evs: seq<Event>)
    requires q.Valid()
    ensures Run(q, evs).Valid() && Run(q, evs).retained == KeptAfter(q.retained, q, evs) && Run(q, evs).config == q.config
    decreases |evs|
  {
    if evs != [] {
      if Enabled(q, evs[0]) {
        StepKeepsValid(q, evs[0]);
        StepRetains(q, evs[0]);
        RunKeepsValid(Step(q, evs[0]), evs[1..]);
      } else {
        RunKeepsValid(q, evs[1..]);
      }
    }
  }

  /**
   Over every run of a connection and whatever the kernel accepts: the bytes it took followed by
   the output buffer are the kept messages in order, and while connected write interest is on
   exactly when the buffer is not empty.
   */
  lemma OutputIsConserved(config: Config, evs: seq<Event>)
    ensures var q := Run(Established(config), evs);
      && q.kernel + q.buffer == Kept(Established(config), evs)
      && (q.state.Connected? ==> (q.writing <==> q.buffer != ""))
  {
    RunKeepsValid(Established(config), evs);
  }

  /**
   Write-complete is queued only when every retained byte has reached the kernel. Each
   high-water notification is an upward crossing, so between two of them the buffered length
   was below the mark.
   */
  lemma NotificationsAreTimely(config: Config, evs: seq<Event>)
    ensures var log := Run(Established(config), evs).log;
      && (forall i :: 0 <= i < |log| && log[i].Complete? ==> log[i].kernel == log[i].retained)
      && (forall i, j :: 0 <= i < j < |log| && log[i].HighWater? && log[j].HighWater? ==>
            exists k :: i < k < j && log[k].Level? && log[k].len < config.highWaterMark)
      && (forall i :: 0 <= i < |log| && log[i].HighWater? ==> config.highWaterMark <= log[i].len)
  {
    RunKeepsValid(Established(config), evs);
    var log := Run(Established(config), evs).log;
    forall i, j | 0 <= i < j < |log| && log[i].HighWater? && log[j].HighWater?
      ensures exists k :: i < k < j && log[k].Level? && log[k].len < config.highWaterMark
    {
      assert log[j - 1].Level?;
    }
  }

  /**
   shutdown() does not half-close: the write side of a connection is never shut down while it
   is connected, however often shutdown() is called.
   */
  lemma ShutdownNeverHalfClosesWhileConnected(config: Config, evs: seq<Event>)
    ensures var q := Run(Established(config), evs);
      && (q.state.Connected? ==> !q.halfClosed && Shutdown(q) == q)
      && (Shutdown(q).halfClosed <==> q.halfClosed || q.state.Disconnected?)
  {
    RunKeepsValid(Established(config), evs);
  }
}
