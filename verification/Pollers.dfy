/** Channel, EPollPoller and SelectPoller as objects, proved against the registration steps. */
module PollerObjects {
  import opened PollerSteps

  class ChannelObject {
    const fd: Fd
    var events: Interest
    var index: Index

    ghost function Value(): Channel
      reads this
    {
      Channel(events, index)
    }

    constructor (fd: Fd)
      ensures this.fd == fd && Value() == UNKNOWN
    {
      this.fd, events, index := fd, NONE, New;
    }

    /** The enable and disable methods, up to their update(). */
    method Change(op: Op)
      modifies this`events
      ensures Value() == old(Value()).(events := NewEvents(old(events), op))
    {
      match op
      case EnableReading => events := Interest(true, events.write);
      case DisableReading => events := Interest(false, events.write);
      case EnableWriting => events := Interest(events.read, true);
      case DisableWriting => events := Interest(events.read, false);
      case DisableAll => events := NONE;
      case RemoveIt =>
    }
  }

  class EPollPoller {
    var channels: map<Fd, ChannelObject>
    var kernel: map<Fd, Interest>
    var refused: nat

    ghost function State(): Epoll
      reads this
    {
      Epoll(channels.Keys, kernel, refused)
    }

    constructor ()
      ensures State() == EPOLL_EMPTY.poller
    {
      channels, kernel, refused := map[], map[], 0;
    }

    method Update(op: CtlOp, ch: ChannelObject)
      modifies this`kernel, this`refused
      ensures State() == EpollApply(old(State()), op, ch.fd, ch.events)
    {
      var answer := EpollCtl(kernel, op, ch.fd, ch.events);
      if answer.Some? {
        kernel := answer.value;
      } else {
        refused := refused + 1;
      }
    }

    method UpdateChannel(ch: ChannelObject)
      modifies this, ch`index
      ensures (State(), ch.Value()) == EpollUpdate(old(State()), ch.fd, old(ch.Value()))
      ensures channels == if old(ch.index).New? then old(channels)[ch.fd := ch] else old(channels)
    {
      if ch.index == New || ch.index == Deleted {
        if ch.index == New {
          channels := channels[ch.fd := ch];
          assert channels.Keys == old(channels).Keys + {ch.fd};
        }
        ch.index := Added;
        Update(CtlAdd, ch);
      } else {
        if ch.events == NONE {
          Update(CtlDel, ch);
          ch.index := Deleted;
        } else {
          Update(CtlMod, ch);
        }
      }
    }

    method RemoveChannel(ch: ChannelObject)
      requires !ch.index.New?
      modifies this, ch`index
      ensures (State(), ch.Value()) == EpollRemove(old(State()), ch.fd, old(ch.Value()))
      ensures channels == old(channels) - {ch.fd}
    {
      channels := channels - {ch.fd};
      if ch.index == Added {
        Update(CtlDel, ch);
      }
      ch.index := New;
    }
  }

  class SelectPoller {
    var channels: map<Fd, ChannelObject>
    var readfds: set<Fd>
    var writefds: set<Fd>
    var exceptfds: set<Fd>
    var maxfd: int

    ghost function State(): Select
      reads this
    {
      Select(channels.Keys, readfds, writefds, exceptfds, maxfd)
    }

    constructor ()
      ensures State() == SELECT_EMPTY.poller
    {
      channels, readfds, writefds, exceptfds, maxfd := map[], {}, {}, {}, -1;
    }

    method UpdateChannel(ch: ChannelObject)
      requires ch.fd < FD_SETSIZE
      modifies this, ch`index
      ensures (State(), ch.Value()) == SelectUpdate(old(State()), ch.fd, old(ch.Value()))
      ensures channels == if old(ch.index).New? then old(channels)[ch.fd := ch] else old(channels)
    {
      if ch.index == New || ch.index == Deleted {
        if ch.index == New {
          channels := channels[ch.fd := ch];
          assert channels.Keys == old(channels).Keys + {ch.fd};
        }
        ch.index := Added;
      }
      readfds := if ch.events.read then readfds + {ch.fd} else readfds - {ch.fd};
      writefds := if ch.events.write then writefds + {ch.fd} else writefds - {ch.fd};
      exceptfds := exceptfds + {ch.fd};
      if ch.fd > maxfd {
        maxfd := ch.fd;
      }
    }

    ghost predicate AllBelow()
      reads this
    {
      forall fd :: fd in channels ==> fd < FD_SETSIZE
    }

    method RemoveChannel(ch: ChannelObject)
      requires AllBelow()
      modifies this, ch`index
      ensures (State(), ch.Value()) == SelectRemove(old(State()), ch.fd, old(ch.Value()))
      ensures channels == old(channels) - {ch.fd}
    {
      channels := channels - {ch.fd};
      readfds := readfds - {ch.fd};
      writefds := writefds - {ch.fd};
      exceptfds := exceptfds - {ch.fd};
      ch.index := New;
      if ch.fd == maxfd {
        maxfd := Recalculate(channels.Keys);
      }
    }

    /** The loop over channels_ that recomputes maxfd_, in whatever order the map is iterated. */
    static method Recalculate(fds: set<Fd>) returns (m: int)
      requires forall fd :: fd in fds ==> fd < FD_SETSIZE
      ensures IsMaxFd(m, fds) && m == MaxFd(fds)
    {
      m := -1;
      var left := fds;
      while left != {}
        invariant left <= fds
        invariant (m in fds || m == -1) && forall x :: x in fds ==> x in left || x <= m
        decreases |left|
      {
        var fd :| fd in left;
        if fd > m {
          m := fd;
        }
        left := left - {fd};
      }
    }
  }

  /** The channels of an event loop, one object for each fd. */
  class ChannelTable {
    var chans: map<Fd, ChannelObject>

    ghost function Values(): map<Fd, Channel>
      reads this, chans.Values
    {
      map fd | fd in chans :: chans[fd].Value()
    }

    ghost predicate Linked()
      reads this
    {
      forall fd :: fd in chans ==> chans[fd].fd == fd
    }

    constructor ()
      ensures Linked() && Values() == map[] && chans == map[]
    {
      chans := map[];
    }

    /** A call on a channel that its assertions allow; the channel is created when it is first used. */
    method Prepare(c: Call) returns (ch: ChannelObject?)
      requires Linked()
      modifies this`chans, chans.Values
      ensures Linked() && fresh(chans.Values - old(chans.Values))
      ensures var was := ChannelAt(old(Values()), c.fd);
        if ch == null then !Allowed(was, c.op) && Values() == old(Values())
        else && Allowed(was, c.op) && c.fd in chans && chans[c.fd] == ch && ch.fd == c.fd
             && ch.Value() == was.(events := NewEvents(was.events, c.op))
             && Values() == old(Values())[c.fd := ch.Value()]
    {
      if c.op == RemoveIt && (c.fd !in chans || chans[c.fd].events != NONE || chans[c.fd].index == New) {
        return null;
      }
      if c.fd in chans {
        ch := chans[c.fd];
      } else {
        ch := new ChannelObject(c.fd);
        chans := chans[c.fd := ch];
      }
      ch.Change(c.op);
      assert Values() == old(Values())[c.fd := ch.Value()];
    }

    /** Only the channel of fd changed. */
    twostate lemma OneChanged(fd: Fd)
      requires old(Linked()) && unchanged(this) && fd in chans
      requires forall d :: d in chans && d != fd ==> unchanged(chans[d])
      ensures Linked() && Values() == old(Values())[fd := chans[fd].Value()]
    {
    }
  }

  /** An event loop's channels over an EPollPoller. */
  ghost function EpollState(t: ChannelTable, p: EPollPoller): EpollLoop
    reads t, t.chans.Values, p
  {
    EpollLoop(p.State(), t.Values())
  }

  lemma EpollStepInParts(w: EpollLoop, c: Call, mid: Channel, after: (Epoll, Channel))
    requires Allowed(w.At(c.fd), c.op) && mid == w.At(c.fd).(events := NewEvents(w.At(c.fd).events, c.op))
    requires after == if c.op.RemoveIt? then EpollRemove(w.poller, c.fd, mid) else EpollUpdate(w.poller, c.fd, mid)
    ensures EpollLoop(after.0, w.chans[c.fd := mid][c.fd := after.1]) == EpollStep(w, c)
  {
    assert w.chans[c.fd := mid][c.fd := after.1] == w.chans[c.fd := after.1];
  }

  method EpollRegister(t: ChannelTable, p: EPollPoller, ch: ChannelObject, op: Op)
    requires t.Linked() && ch.fd in t.chans && t.chans[ch.fd] == ch && (op.RemoveIt? ==> !ch.index.New?)
    modifies p, ch`index
    ensures t.Linked() && t.Values() == old(t.Values())[ch.fd := ch.Value()]
    ensures (p.State(), ch.Value()) ==
      if op.RemoveIt? then EpollRemove(old(p.State()), ch.fd, old(ch.Value())) else EpollUpdate(old(p.State()), ch.fd, old(ch.Value()))
  {
    if op == RemoveIt {
      p.RemoveChannel(ch);
    } else {
      p.UpdateChannel(ch);
    }
    t.OneChanged(ch.fd);
  }

  method EpollPerform(t: ChannelTable, p: EPollPoller, c: Call)
    requires t.Linked()
    modifies t`chans, t.chans.Values, p
    ensures t.Linked() && fresh(t.chans.Values - old(t.chans.Values))
    ensures EpollState(t, p) == EpollStep(old(EpollState(t, p)), c)
  {
    ghost var w := EpollState(t, p);
    var ch := t.Prepare(c);
    if ch != null {
      ghost var mid := ch.Value();
      EpollRegister(t, p, ch, c.op);
      EpollStepInParts(w, c, mid, (p.State(), ch.Value()));
    }
  }

  /** Any trace of calls: the objects run as the step system does. */
  method EpollDrive(t: ChannelTable, p: EPollPoller, cs: seq<Call>)
    requires t.Linked()
    modifies t`chans, t.chans.Values, p
    ensures t.Linked() && EpollState(t, p) == EpollRun(old(EpollState(t, p)), cs)
  {
    for i := 0 to |cs|
      invariant t.Linked() && fresh(t.chans.Values - old(t.chans.Values))
      invariant EpollRun(old(EpollState(t, p)), cs) == EpollRun(EpollState(t, p), cs[i..])
    {
      assert cs[i..][1..] == cs[i + 1..];
      EpollPerform(t, p, cs[i]);
    }
  }

  /** An event loop's channels over a SelectPoller. */
  ghost function SelectState(t: ChannelTable, p: SelectPoller): SelectLoop
    reads t, t.chans.Values, p
  {
    SelectLoop(p.State(), t.Values())
  }

  lemma SelectStepInParts(w: SelectLoop, c: Call, mid: Channel, after: (Select, Channel))
    requires Allowed(w.At(c.fd), c.op) && mid == w.At(c.fd).(events := NewEvents(w.At(c.fd).events, c.op))
    requires after == if c.op.RemoveIt? then SelectRemove(w.poller, c.fd, mid) else SelectUpdate(w.poller, c.fd, mid)
    ensures SelectLoop(after.0, w.chans[c.fd := mid][c.fd := after.1]) == SelectStep(w, c)
  {
    assert w.chans[c.fd := mid][c.fd := after.1] == w.chans[c.fd := after.1];
  }

  method SelectRegister(t: ChannelTable, p: SelectPoller, ch: ChannelObject, op: Op)
    requires t.Linked() && ch.fd in t.chans && t.chans[ch.fd] == ch && (op.RemoveIt? ==> !ch.index.New?) && ch.fd < FD_SETSIZE && p.AllBelow()
    modifies p, ch`index
    ensures t.Linked() && t.Values() == old(t.Values())[ch.fd := ch.Value()] && p.AllBelow()
    ensures (p.State(), ch.Value()) ==
      if op.RemoveIt? then SelectRemove(old(p.State()), ch.fd, old(ch.Value())) else SelectUpdate(old(p.State()), ch.fd, old(ch.Value()))
  {
    if op == RemoveIt {
      p.RemoveChannel(ch);
    } else {
      p.UpdateChannel(ch);
    }
    t.OneChanged(ch.fd);
  }

  method SelectPerform(t: ChannelTable, p: SelectPoller, c: Call)
    requires t.Linked() && c.fd < FD_SETSIZE && p.AllBelow()
    modifies t`chans, t.chans.Values, p
    ensures t.Linked() && p.AllBelow() && fresh(t.chans.Values - old(t.chans.Values))
    ensures SelectState(t, p) == SelectStep(old(SelectState(t, p)), c)
  {
    ghost var w := SelectState(t, p);
    var ch := t.Prepare(c);
    if ch != null {
      ghost var mid := ch.Value();
      SelectRegister(t, p, ch, c.op);
      SelectStepInParts(w, c, mid, (p.State(), ch.Value()));
    }
  }

  method SelectDrive(t: ChannelTable, p: SelectPoller, cs: seq<Call>)
    requires t.Linked() && p.AllBelow() && AllBelow(cs)
    modifies t`chans, t.chans.Values, p
    ensures t.Linked() && SelectState(t, p) == SelectRun(old(SelectState(t, p)), cs)
  {
    for i := 0 to |cs|
      invariant t.Linked() && p.AllBelow() && fresh(t.chans.Values - old(t.chans.Values))
      invariant SelectRun(old(SelectState(t, p)), cs) == SelectRun(SelectState(t, p), cs[i..])
    {
      assert cs[i..][1..] == cs[i + 1..];
      SelectPerform(t, p, cs[i]);
    }
  }
}
