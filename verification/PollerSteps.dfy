/**
 Registration in the two pollers. A channel is known by its fd; its events are the read and the
 write mask of Channel. The kernel is the epoll interest list with epoll_ctl's own refusals.
 */
module PollerSteps {
  import opened Wrappers

  type Fd = nat

  datatype Interest = Interest(read: bool, write: bool)

  const NONE := Interest(false, false)

  /** kNew, kAdded, kDeleted. */
  datatype Index = New | Added | Deleted

  datatype Channel = Channel(events: Interest, index: Index)

  const UNKNOWN := Channel(NONE, New)

  datatype CtlOp = CtlAdd | CtlMod | CtlDel

  /** epoll_ctl: EEXIST for adding a registered fd, ENOENT for changing an unregistered one. */
  function EpollCtl(kernel: map<Fd, Interest>, op: CtlOp, fd: Fd, events: Interest): Option<map<Fd, Interest>> {
    match op
    case CtlAdd => if fd in kernel then Option.None else Some(kernel[fd := events])
    case CtlMod => if fd in kernel then Some(kernel[fd := events]) else Option.None
    case CtlDel => if fd in kernel then Some(kernel - {fd}) else Option.None
  }

  // ---- EPollPoller

  datatype Epoll = Epoll(channels: set<Fd>, kernel: map<Fd, Interest>, refused: nat)

  function EpollApply(p: Epoll, op: CtlOp, fd: Fd, events: Interest): Epoll {
    match EpollCtl(p.kernel, op, fd, events)
    case None => p.(refused := p.refused + 1)
    case Some(k) => p.(kernel := k)
  }

  function EpollUpdate(p: Epoll, fd: Fd, ch: Channel): (Epoll, Channel) {
    if ch.index.New? || ch.index.Deleted? then
      var p1 := if ch.index.New? then p.(channels := p.channels + {fd}) else p;
      (EpollApply(p1, CtlAdd, fd, ch.events), ch.(index := Added))
    else if ch.events == NONE then (EpollApply(p, CtlDel, fd, ch.events), ch.(index := Deleted))
    else (EpollApply(p, CtlMod, fd, ch.events), ch)
  }

  function EpollRemove(p: Epoll, fd: Fd, ch: Channel): (Epoll, Channel) {
    var p1 := p.(channels := p.channels - {fd});
    (if ch.index.Added? then EpollApply(p1, CtlDel, fd, ch.events) else p1, ch.(index := New))
  }

  // ---- SelectPoller

  const FD_SETSIZE: nat := 1024

  datatype Select = Select(channels: set<Fd>, readfds: set<Fd>, writefds: set<Fd>, exceptfds: set<Fd>, maxfd: int)

  /** m is the largest of the fds, or -1 and there are none. */
  ghost predicate IsMaxFd(m: int, fds: set<Fd>) {
    (m in fds || m == -1) && forall x :: x in fds ==> x <= m
  }

  /** The largest fd below n, or -1. */
  function MaxBelow(fds: set<Fd>, n: nat): (m: int)
    ensures (forall x :: x in fds ==> x < n) ==> IsMaxFd(m, fds)
  {
    if n == 0 then -1
    else if n - 1 in fds then n - 1
    else MaxBelow(fds, n - 1)
  }

  function MaxFd(fds: set<Fd>): int { MaxBelow(fds, FD_SETSIZE) }

  function SelectUpdate(p: Select, fd: Fd, ch: Channel): (Select, Channel) {
    (p.(channels := if ch.index.New? then p.channels + {fd} else p.channels,
        readfds := if ch.events.read then p.readfds + {fd} else p.readfds - {fd},
        writefds := if ch.events.write then p.writefds + {fd} else p.writefds - {fd},
        exceptfds := p.exceptfds + {fd},
        maxfd := if fd > p.maxfd then fd else p.maxfd),
     ch.(index := Added))
  }

  function SelectRemove(p: Select, fd: Fd, ch: Channel): (Select, Channel) {
    var left := p.channels - {fd};
    (Select(left, p.readfds - {fd}, p.writefds - {fd}, p.exceptfds - {fd},
            if fd == p.maxfd then MaxFd(left) else p.maxfd),
     ch.(index := New))
  }

  // ---- a trace of calls on the channels of a loop

  datatype Op = EnableReading | DisableReading | EnableWriting | DisableWriting | DisableAll | RemoveIt

  datatype Call = Call(fd: Fd, op: Op)

  function NewEvents(e: Interest, op: Op): Interest {
    match op
    case EnableReading => e.(read := true)
    case DisableReading => e.(read := false)
    case EnableWriting => e.(write := true)
    case DisableWriting => e.(write := false)
    case DisableAll => NONE
    case RemoveIt => e
  }

  function ChannelAt(chans: map<Fd, Channel>, fd: Fd): Channel {
    if fd in chans then chans[fd] else UNKNOWN
  }

  /** Channel::remove asserts no events, removeChannel a registered channel. */
  predicate Allowed(ch: Channel, op: Op) {
    op.RemoveIt? ==> ch.events == NONE && !ch.index.New?
  }

  /** No call from the i-th on takes reading off the fd. */
  ghost predicate ReadingStays(cs: seq<Call>, fd: Fd, i: nat) {
    forall j :: i <= j < |cs| ==> cs[j] != Call(fd, DisableReading) && cs[j] != Call(fd, DisableAll)
  }

  ghost predicate WritingStays(cs: seq<Call>, fd: Fd, i: nat) {
    forall j :: i <= j < |cs| ==> cs[j] != Call(fd, DisableWriting) && cs[j] != Call(fd, DisableAll)
  }

  /** Reading was asked for on the fd and not taken back since. */
  ghost predicate WantsReading(cs: seq<Call>, fd: Fd) {
    exists i :: 0 <= i < |cs| && cs[i] == Call(fd, EnableReading) && ReadingStays(cs, fd, i + 1)
  }

  ghost predicate WantsWriting(cs: seq<Call>, fd: Fd) {
    exists i :: 0 <= i < |cs| && cs[i] == Call(fd, EnableWriting) && WritingStays(cs, fd, i + 1)
  }

  /** The events a trace asks for on an fd, from its calls alone. */
  ghost function Wanted(cs: seq<Call>, fd: Fd): Interest {
    Interest(WantsReading(cs, fd), WantsWriting(cs, fd))
  }

  /** The events a channel of fd has after the calls. */
  function EventsAfter(e: Interest, cs: seq<Call>, fd: Fd): Interest
    decreases |cs|
  {
    if cs == [] then e
    else EventsAfter(if cs[0].fd == fd then NewEvents(e, cs[0].op) else e, cs[1..], fd)
  }

  lemma WantsReadingTail(cs: seq<Call>, fd: Fd)
    requires cs != []
    ensures ReadingStays(cs, fd, 0) <==> cs[0] != Call(fd, DisableReading) && cs[0] != Call(fd, DisableAll) && ReadingStays(cs[1..], fd, 0)
    ensures WantsReading(cs, fd) <==> WantsReading(cs[1..], fd) || (cs[0] == Call(fd, EnableReading) && ReadingStays(cs[1..], fd, 0))
  {
    var tail := cs[1..];
    assert forall j :: 0 < j < |cs| ==> cs[j] == tail[j - 1];
    assert forall j :: 0 <= j < |tail| ==> tail[j] == cs[j + 1];
    forall i | 0 <= i < |cs| ensures ReadingStays(cs, fd, i + 1) <==> ReadingStays(tail, fd, i) {
      assert forall j :: i <= j < |tail| ==> tail[j] == cs[j + 1];
    }
    if i :| 0 <= i < |tail| && tail[i] == Call(fd, EnableReading) && ReadingStays(tail, fd, i + 1) {
      assert cs[i + 1] == Call(fd, EnableReading) && ReadingStays(cs, fd, i + 2);
    }
    if i :| 0 < i < |cs| && cs[i] == Call(fd, EnableReading) && ReadingStays(cs, fd, i + 1) {
      assert tail[i - 1] == Call(fd, EnableReading) && ReadingStays(tail, fd, i);
    }
  }

  lemma {:induction false} ReadingAfter(e: Interest, cs: seq<Call>, fd: Fd)
    ensures EventsAfter(e, cs, fd).read <==> WantsReading(cs, fd) || (e.read && ReadingStays(cs, fd, 0))
    decreases |cs|
  {
    if cs != [] {
      ReadingAfter(if cs[0].fd == fd then NewEvents(e, cs[0].op) else e, cs[1..], fd);
      WantsReadingTail(cs, fd);
    }
  }

  lemma WantsWritingTail(cs: seq<Call>, fd: Fd)
    requires cs != []
    ensures WritingStays(cs, fd, 0) <==> cs[0] != Call(fd, DisableWriting) && cs[0] != Call(fd, DisableAll) && WritingStays(cs[1..], fd, 0)
    ensures WantsWriting(cs, fd) <==> WantsWriting(cs[1..], fd) || (cs[0] == Call(fd, EnableWriting) && WritingStays(cs[1..], fd, 0))
  {
    var tail := cs[1..];
    assert forall j :: 0 < j < |cs| ==> cs[j] == tail[j - 1];
    assert forall j :: 0 <= j < |tail| ==> tail[j] == cs[j + 1];
    forall i | 0 <= i < |cs| ensures WritingStays(cs, fd, i + 1) <==> WritingStays(tail, fd, i) {
      assert forall j :: i <= j < |tail| ==> tail[j] == cs[j + 1];
    }
    if i :| 0 <= i < |tail| && tail[i] == Call(fd, EnableWriting) && WritingStays(tail, fd, i + 1) {
      assert cs[i + 1] == Call(fd, EnableWriting) && WritingStays(cs, fd, i + 2);
    }
    if i :| 0 < i < |cs| && cs[i] == Call(fd, EnableWriting) && WritingStays(cs, fd, i + 1) {
      assert tail[i - 1] == Call(fd, EnableWriting) && WritingStays(tail, fd, i);
    }
  }

  lemma {:induction false} WritingAfter(e: Interest, cs: seq<Call>, fd: Fd)
    ensures EventsAfter(e, cs, fd).write <==> WantsWriting(cs, fd) || (e.write && WritingStays(cs, fd, 0))
    decreases |cs|
  {
    if cs != [] {
      WritingAfter(if cs[0].fd == fd then NewEvents(e, cs[0].op) else e, cs[1..], fd);
      WantsWritingTail(cs, fd);
    }
  }

  /** A channel that starts without events ends with exactly those last asked for. */
  lemma EventsAreWanted(cs: seq<Call>, fd: Fd)
    ensures EventsAfter(NONE, cs, fd) == Wanted(cs, fd)
  {
    ReadingAfter(NONE, cs, fd);
    WritingAfter(NONE, cs, fd);
  }

  /**
   The channel of fd is registered: some method has updated it since it was last removed. A
   removal while events are wanted is refused by an assertion.
   */
  ghost predicate Registered(cs: seq<Call>, fd: Fd)
    decreases |cs|
  {
    cs != [] &&
    var before, last := cs[..|cs| - 1], cs[|cs| - 1];
    if last.fd != fd then Registered(before, fd)
    else if last.op.RemoveIt? then Registered(before, fd) && Wanted(before, fd) != NONE
    else true
  }

  // ---- EPollPoller and its channels, for any fd

  datatype EpollLoop = EpollLoop(poller: Epoll, chans: map<Fd, Channel>) {
    function At(fd: Fd): Channel { ChannelAt(chans, fd) }

    /** What the kernel watches. */
    function View(fd: Fd): Interest { if fd in poller.kernel then poller.kernel[fd] else NONE }

    ghost predicate FdValid(fd: Fd) {
      && (fd in poller.channels <==> !At(fd).index.New?)
      && (fd in poller.kernel <==> At(fd).index.Added?)
      && (fd in poller.kernel ==> poller.kernel[fd] == At(fd).events)
      && (!At(fd).index.Added? ==> At(fd).events == NONE)
    }

    ghost predicate Valid() {
      poller.refused == 0 && forall fd :: FdValid(fd)
    }
  }

  const EPOLL_EMPTY := EpollLoop(Epoll({}, map[], 0), map[])

  /** A call that its assertions forbid is skipped. */
  function EpollStep(w: EpollLoop, c: Call): EpollLoop {
    if !Allowed(w.At(c.fd), c.op) then w else
      var ch := w.At(c.fd).(events := NewEvents(w.At(c.fd).events, c.op));
      var (p, ch1) := if c.op.RemoveIt? then EpollRemove(w.poller, c.fd, ch) else EpollUpdate(w.poller, c.fd, ch);
      EpollLoop(p, w.chans[c.fd := ch1])
  }

  function EpollRun(w: EpollLoop, cs: seq<Call>): EpollLoop
    decreases |cs|
  {
    if cs == [] then w else EpollRun(EpollStep(w, cs[0]), cs[1..])
  }

  lemma EpollStepKeepsValid(w: EpollLoop, c: Call)
    requires w.Valid()
    ensures EpollStep(w, c).Valid()
  {
    var r := EpollStep(w, c);
    assert w.FdValid(c.fd);
    forall fd ensures r.FdValid(fd) { assert w.FdValid(fd); }
  }

  lemma {:induction false} EpollRunKeepsValid(w: EpollLoop, cs: seq<Call>)
    requires w.Valid()
    ensures EpollRun(w, cs).Valid()
    decreases |cs|
  {
    if cs != [] {
      EpollStepKeepsValid(w, cs[0]);
      EpollRunKeepsValid(EpollStep(w, cs[0]), cs[1..]);
    }
  }

  lemma {:induction false} EpollRunEvents(w: EpollLoop, cs: seq<Call>, fd: Fd)
    ensures EpollRun(w, cs).At(fd).events == EventsAfter(w.At(fd).events, cs, fd)
    decreases |cs|
  {
    if cs != [] {
      EpollRunEvents(EpollStep(w, cs[0]), cs[1..], fd);
    }
  }

  lemma {:induction false} EpollRunPush(w: EpollLoop, cs: seq<Call>, c: Call)
    ensures EpollRun(w, cs + [c]) == EpollStep(EpollRun(w, cs), c)
    decreases |cs|
  {
    if cs == [] {
      assert (cs + [c])[1..] == [];
    } else {
      assert (cs + [c])[1..] == cs[1..] + [c];
      EpollRunPush(EpollStep(w, cs[0]), cs[1..], c);
    }
  }

  lemma {:induction false} EpollRegisters(cs: seq<Call>, fd: Fd)
    ensures !EpollRun(EPOLL_EMPTY, cs).At(fd).index.New? <==> Registered(cs, fd)
    decreases |cs|
  {
    if cs != [] {
      var before, c := cs[..|cs| - 1], cs[|cs| - 1];
      EpollRegisters(before, fd);
      EpollRunEvents(EPOLL_EMPTY, before, fd);
      EventsAreWanted(before, fd);
      EpollRunPush(EPOLL_EMPTY, before, c);
      assert before + [c] == cs;
    }
  }

  /**
   For every trace on any fds the kernel refuses no epoll_ctl call: an fd is added only when it is
   not registered and changed or deleted only when it is. The kernel watches on every fd exactly
   the events the trace asked for, and the channel map holds exactly the registered channels.
   */
  lemma EpollMirrorsChannels(cs: seq<Call>)
    ensures var w := EpollRun(EPOLL_EMPTY, cs);
      && w.poller.refused == 0
      && (forall fd :: w.View(fd) == Wanted(cs, fd))
      && w.poller.kernel.Keys <= w.poller.channels
      && (forall fd :: fd in w.poller.channels <==> Registered(cs, fd))
  {
    assert EPOLL_EMPTY.Valid() by { assert forall fd :: EPOLL_EMPTY.FdValid(fd); }
    EpollRunKeepsValid(EPOLL_EMPTY, cs);
    var w := EpollRun(EPOLL_EMPTY, cs);
    forall fd
      ensures w.View(fd) == Wanted(cs, fd) && (fd in w.poller.kernel ==> fd in w.poller.channels)
      ensures fd in w.poller.channels <==> Registered(cs, fd)
    {
      assert w.FdValid(fd);
      EpollRegisters(cs, fd);
      EpollRunEvents(EPOLL_EMPTY, cs, fd);
      EventsAreWanted(cs, fd);
    }
  }

  // ---- SelectPoller and its channels, for fds an fd_set can hold

  datatype SelectLoop = SelectLoop(poller: Select, chans: map<Fd, Channel>) {
    function At(fd: Fd): Channel { ChannelAt(chans, fd) }

    /** What select is asked to watch. */
    function View(fd: Fd): Interest { Interest(fd in poller.readfds, fd in poller.writefds) }

    ghost predicate FdValid(fd: Fd) {
      && !At(fd).index.Deleted?
      && (fd in poller.channels <==> !At(fd).index.New?)
      && (At(fd).index.New? ==> At(fd).events == NONE)
      && View(fd) == At(fd).events
      && (fd in poller.exceptfds <==> fd in poller.channels)
      && (fd in poller.channels ==> fd < FD_SETSIZE)
    }

    ghost predicate Valid() {
      IsMaxFd(poller.maxfd, poller.channels) && forall fd :: FdValid(fd)
    }
  }

  const SELECT_EMPTY := SelectLoop(Select({}, {}, {}, {}, -1), map[])

  function SelectStep(w: SelectLoop, c: Call): SelectLoop {
    if !Allowed(w.At(c.fd), c.op) then w else
      var ch := w.At(c.fd).(events := NewEvents(w.At(c.fd).events, c.op));
      var (p, ch1) := if c.op.RemoveIt? then SelectRemove(w.poller, c.fd, ch) else SelectUpdate(w.poller, c.fd, ch);
      SelectLoop(p, w.chans[c.fd := ch1])
  }

  function SelectRun(w: SelectLoop, cs: seq<Call>): SelectLoop
    decreases |cs|
  {
    if cs == [] then w else SelectRun(SelectStep(w, cs[0]), cs[1..])
  }

  /** FD_SET and FD_CLR are defined for the fds of the trace. */
  ghost predicate AllBelow(cs: seq<Call>) { forall c :: c in cs ==> c.fd < FD_SETSIZE }

  lemma MaxGrows(m: int, fds: set<Fd>, fd: Fd)
    requires IsMaxFd(m, fds)
    ensures IsMaxFd(if fd > m then fd else m, fds + {fd})
  {
  }

  lemma MaxStays(m: int, fds: set<Fd>, fd: Fd)
    requires IsMaxFd(m, fds) && fd != m
    ensures IsMaxFd(m, fds - {fd})
  {
  }

  lemma SelectStepKeepsMax(w: SelectLoop, c: Call)
    requires w.Valid() && c.fd < FD_SETSIZE
    ensures IsMaxFd(SelectStep(w, c).poller.maxfd, SelectStep(w, c).poller.channels)
  {
    assert w.FdValid(c.fd);
    var p := w.poller;
    if c.op.RemoveIt? {
      if c.fd == p.maxfd {
        forall x | x in p.channels ensures x < FD_SETSIZE { assert w.FdValid(x); }
      } else {
        MaxStays(p.maxfd, p.channels, c.fd);
      }
    } else {
      MaxGrows(p.maxfd, p.channels, c.fd);
      if !w.At(c.fd).index.New? {
        assert p.channels + {c.fd} == p.channels;
      }
    }
  }

  lemma SelectStepKeepsValid(w: SelectLoop, c: Call)
    requires w.Valid() && c.fd < FD_SETSIZE
    ensures SelectStep(w, c).Valid()
  {
    var r := SelectStep(w, c);
    SelectStepKeepsMax(w, c);
    assert w.FdValid(c.fd);
    forall fd ensures r.FdValid(fd) { assert w.FdValid(fd); }
  }

  lemma {:induction false} SelectRunKeepsValid(w: SelectLoop, cs: seq<Call>)
    requires w.Valid() && AllBelow(cs)
    ensures SelectRun(w, cs).Valid()
    decreases |cs|
  {
    if cs != [] {
      SelectStepKeepsValid(w, cs[0]);
      SelectRunKeepsValid(SelectStep(w, cs[0]), cs[1..]);
    }
  }

  lemma {:induction false} SelectRunEvents(w: SelectLoop, cs: seq<Call>, fd: Fd)
    ensures SelectRun(w, cs).At(fd).events == EventsAfter(w.At(fd).events, cs, fd)
    decreases |cs|
  {
    if cs != [] {
      SelectRunEvents(SelectStep(w, cs[0]), cs[1..], fd);
    }
  }

  lemma {:induction false} SelectRunPush(w: SelectLoop, cs: seq<Call>, c: Call)
    ensures SelectRun(w, cs + [c]) == SelectStep(SelectRun(w, cs), c)
    decreases |cs|
  {
    if cs == [] {
      assert (cs + [c])[1..] == [];
    } else {
      assert (cs + [c])[1..] == cs[1..] + [c];
      SelectRunPush(SelectStep(w, cs[0]), cs[1..], c);
    }
  }

  lemma {:induction false} SelectRegisters(cs: seq<Call>, fd: Fd)
    ensures !SelectRun(SELECT_EMPTY, cs).At(fd).index.New? <==> Registered(cs, fd)
    decreases |cs|
  {
    if cs != [] {
      var before, c := cs[..|cs| - 1], cs[|cs| - 1];
      SelectRegisters(before, fd);
      SelectRunEvents(SELECT_EMPTY, before, fd);
      EventsAreWanted(before, fd);
      SelectRunPush(SELECT_EMPTY, before, c);
      assert before + [c] == cs;
    }
  }

  /**
   For every trace on fds below FD_SETSIZE select watches on every fd exactly the events the trace
   asked for, the channel map and exceptfds_ hold exactly the registered fds, and maxfd_ is the
   largest of them or -1.
   */
  lemma SelectMirrorsChannels(cs: seq<Call>)
    requires AllBelow(cs)
    ensures var w := SelectRun(SELECT_EMPTY, cs);
      && (forall fd :: w.View(fd) == Wanted(cs, fd))
      && (forall fd :: fd in w.poller.channels <==> Registered(cs, fd))
      && w.poller.channels == w.poller.exceptfds
      && IsMaxFd(w.poller.maxfd, w.poller.channels)
  {
    assert SELECT_EMPTY.Valid() by { assert forall fd :: SELECT_EMPTY.FdValid(fd); }
    SelectRunKeepsValid(SELECT_EMPTY, cs);
    var w := SelectRun(SELECT_EMPTY, cs);
    forall fd
      ensures w.View(fd) == Wanted(cs, fd) && (fd in w.poller.channels <==> fd in w.poller.exceptfds)
      ensures fd in w.poller.channels <==> Registered(cs, fd)
    {
      assert w.FdValid(fd);
      SelectRegisters(cs, fd);
      SelectRunEvents(SELECT_EMPTY, cs, fd);
      EventsAreWanted(cs, fd);
    }
  }

  // ---- the two compared

  /** The same trace, on fds both can hold: the two pollers watch the same events and register the same channels. */
  lemma PollersAgree(cs: seq<Call>)
    requires AllBelow(cs)
    ensures var e, s := EpollRun(EPOLL_EMPTY, cs), SelectRun(SELECT_EMPTY, cs);
      (forall fd :: e.View(fd) == s.View(fd)) && e.poller.channels == s.poller.channels
  {
    EpollMirrorsChannels(cs);
    SelectMirrorsChannels(cs);
  }
}
