/**
 A whole HTTP connection: messages come in, requests are dispatched, and their responses leave
 through the output path. The user's callback and the printing of its response are one function.
 */
module HttpWire {
  import opened HttpParse
  import Session = HttpSessionRuns
  import Output = OutputSteps

  datatype Reply = Reply(text: string, close: bool)

  type Handler = Request -> Reply

  const BAD_REQUEST := "HTTP/1.1 400 Bad Request\r\n\r\n"

  /** The connection is read or becomes writable; the result is what write() answers, cut to what it was offered. */
  datatype Event = Arrive(message: Session.Message, result: Output.WriteResult) | Flush(result: Output.WriteResult)

  datatype Conn = Conn(
    session: Session.Session,
    out: Output.Out,
    lost: seq<bool>)        // history: which replies found the peer gone

  function Open(config: Output.Config): Conn {
    Conn(Session.OPENED, Output.Established(config), [])
  }

  function Offered(r: Output.WriteResult, len: nat): Output.WriteResult {
    if r.Wrote? && len < r.n then Output.Wrote(len) else r
  }

  /** What a message makes the server send, if anything; a rejected line is answered each time it is met. */
  function Answer(handler: Handler, before: Session.Session, after: Session.Session): (r: seq<Reply>)
    ensures |r| <= 1
  {
    if |after.dispatched| > |before.dispatched| then [handler(after.dispatched[|after.dispatched| - 1])]
    else if after.rejected > before.rejected then [Reply(BAD_REQUEST, true)]
    else []
  }

  /** send(), and shutdown() when the connection is to be closed. */
  function SendReply(q: Output.Out, reply: Reply, r: Output.WriteResult): Output.Out {
    var sent := Output.Step(q, Output.SendCalled(reply.text, Offered(r, |reply.text|)));
    if reply.close then Output.Step(sent, Output.ShutdownCalled) else sent
  }

  /** Nothing happens once the process has aborted. */
  function Step(handler: Handler, c: Conn, ev: Event): Conn
    requires !c.session.ctx.state.GotAll?
  {
    if c.session.aborted then c else
    match ev
    case Arrive(m, r) =>
      var after := Session.OnMessage(c.session, m);
      var answer := Answer(handler, c.session, after);
      if answer == [] then c.(session := after)
      else Conn(after, SendReply(c.out, answer[0], r), c.lost + [Output.Direct(c.out) && r.Broken?])
    case Flush(r) => c.(out := Output.Step(c.out, Output.Writable(Offered(r, |c.out.buffer|))))
  }

  function Run(handler: Handler, config: Output.Config, evs: seq<Event>): (c: Conn)
    ensures !c.session.ctx.state.GotAll?
    decreases |evs|
  {
    if evs == [] then Open(config)
    else Step(handler, Run(handler, config, evs[..|evs| - 1]), evs[|evs| - 1])
  }

  /** The messages of a run. */
  function Arrived(evs: seq<Event>): seq<Session.Message> {
    if evs == [] then []
    else
      var ev := evs[|evs| - 1];
      Arrived(evs[..|evs| - 1]) + if ev.Arrive? then [ev.message] else []
  }

  /** The replies a session calls for: one for each dispatched request, and a 400 for each rejection after them. */
  function Replies(handler: Handler, requests: seq<Request>, rejected: nat): seq<string>
    decreases |requests|, rejected
  {
    if rejected > 0 then Replies(handler, requests, rejected - 1) + [BAD_REQUEST]
    else if requests == [] then []
    else Replies(handler, requests[..|requests| - 1], 0) + [handler(requests[|requests| - 1]).text]
  }

  /** The replies that were not lost, one behind the other. */
  function Delivered(replies: seq<string>, lost: seq<bool>): string
    requires |lost| == |replies|
  {
    if replies == [] then "" else
      var n := |replies| - 1;
      Delivered(replies[..n], lost[..n]) + if lost[n] then "" else replies[n]
  }

  ghost predicate Consistent(handler: Handler, c: Conn) {
    && c.out.Valid() && c.out.state.Connected? && !c.out.halfClosed
    && var replies := Replies(handler, c.session.dispatched, c.session.rejected);
    && |c.lost| == |replies| && c.out.retained == Delivered(replies, c.lost)
  }

  lemma DeliveredPush(replies: seq<string>, lost: seq<bool>, reply: string, gone: bool)
    requires |lost| == |replies|
    ensures Delivered(replies + [reply], lost + [gone]) == Delivered(replies, lost) + if gone then "" else reply
  {
    assert (replies + [reply])[..|replies|] == replies && (lost + [gone])[..|lost|] == lost;
  }

  lemma RepliesPush(handler: Handler, requests: seq<Request>, r: Request)
    ensures Replies(handler, requests + [r], 0) == Replies(handler, requests, 0) + [handler(r).text]
  {
    assert (requests + [r])[..|requests|] == requests;
  }

  /** What a message adds to the replies is its answer. */
  lemma AnswerIsNextReply(handler: Handler, q: Session.Session, m: Session.Message)
    requires Session.Valid(q)
    ensures var r := Session.OnMessage(q, m);
      var answer := Answer(handler, q, r);
      Replies(handler, r.dispatched, r.rejected)
        == Replies(handler, q.dispatched, q.rejected) + if answer == [] then [] else [answer[0].text]
  {
    if q.Open() {
      var p := Parse(q.ctx, q.unread + m.bytes, m.time);
      RepliesPush(handler, q.dispatched, p.ctx.request);
    } else {
      Session.StuckMessage(q, m);
    }
  }

  lemma SendReplyKeepsValid(q: Output.Out, reply: Reply, r: Output.WriteResult)
    requires q.Valid() && q.state.Connected? && !q.halfClosed
    ensures var q1 := SendReply(q, reply, r);
      && q1.Valid() && q1.state.Connected? && !q1.halfClosed
      && q1.retained == q.retained + if Output.Direct(q) && r.Broken? then "" else reply.text
  {
    var send := Output.SendCalled(reply.text, Offered(r, |reply.text|));
    Output.StepKeepsValid(q, send);
    Output.StepRetains(q, send);
    Output.StepKeepsValid(Output.Step(q, send), Output.ShutdownCalled);
  }

  lemma StepKeepsConsistent(handler: Handler, c: Conn, ev: Event)
    requires Session.Valid(c.session) && !c.session.aborted
    requires Consistent(handler, c)
    ensures Consistent(handler, Step(handler, c, ev))
  {
    match ev
    case Flush(r) =>
      var w := Output.Writable(Offered(r, |c.out.buffer|));
      Output.StepKeepsValid(c.out, w);
      Output.StepRetains(c.out, w);
      assert c.out.retained + "" == c.out.retained;
    case Arrive(m, r) =>
      AnswerIsNextReply(handler, c.session, m);
      var answer := Answer(handler, c.session, Session.OnMessage(c.session, m));
      var replies := Replies(handler, c.session.dispatched, c.session.rejected);
      if answer == [] {
        assert replies + [] == replies;
      } else {
        SendReplyKeepsValid(c.out, answer[0], r);
        DeliveredPush(replies, c.lost, answer[0].text, Output.Direct(c.out) && r.Broken?);
      }
  }

  lemma {:induction false} RunIsConsistent(handler: Handler, config: Output.Config, evs: seq<Event>)
    ensures Consistent(handler, Run(handler, config, evs))
    decreases |evs|
  {
    if evs != [] {
      var c := Run(handler, config, evs[..|evs| - 1]);
      RunIsConsistent(handler, config, evs[..|evs| - 1]);
      if !c.session.aborted {
        RunFollowsSession(handler, config, evs[..|evs| - 1]);
        Session.RunIsValid(Arrived(evs[..|evs| - 1]));
        StepKeepsConsistent(handler, c, evs[|evs| - 1]);
      }
    }
  }

  lemma StepFollowsSession(handler: Handler, c: Conn, ev: Event)
    requires !c.session.ctx.state.GotAll?
    ensures Step(handler, c, ev).session == if ev.Arrive? then Session.OnMessage(c.session, ev.message) else c.session
  {
  }

  /** The input side of a run is the session of its messages. */
  lemma {:induction false} RunFollowsSession(handler: Handler, config: Output.Config, evs: seq<Event>)
    ensures Run(handler, config, evs).session == Session.Run(Arrived(evs))
    decreases |evs|
  {
    if evs != [] {
      var before, ev := evs[..|evs| - 1], evs[|evs| - 1];
      RunFollowsSession(handler, config, before);
      StepFollowsSession(handler, Run(handler, config, before), ev);
      if ev.Arrive? {
        Session.RunPush(Arrived(before), ev.message);
      } else {
        assert Arrived(before) + [] == Arrived(before);
      }
    }
  }

  lemma {:induction false} NothingLostUnbroken(handler: Handler, config: Output.Config, evs: seq<Event>)
    requires forall ev :: ev in evs ==> !ev.result.Broken?
    ensures true !in Run(handler, config, evs).lost
    decreases |evs|
  {
    if evs != [] {
      NothingLostUnbroken(handler, config, evs[..|evs| - 1]);
    }
  }

  /**
   Over every run of a connection, however its bytes are cut, whatever the handler answers and
   whatever the kernel takes: the bytes on the wire followed by the output buffer are, in order,
   the replies to the dispatched requests and then a 400 for each time a malformed line was met,
   less those that found the peer gone; the dispatched requests are a prefix of those in the
   client's text. When write() never reports a broken connection no reply is lost. This holds up
   to the moment the process aborts, if it does.
   */
  lemma WireCarriesReplies(handler: Handler, config: Output.Config, evs: seq<Event>)
    ensures var c := Run(handler, config, evs);
      var replies := Replies(handler, c.session.dispatched, c.session.rejected);
      && |c.lost| == |replies|
      && c.out.kernel + c.out.buffer == Delivered(replies, c.lost)
      && ((forall ev :: ev in evs ==> !ev.result.Broken?) ==> true !in c.lost)
      && Session.UntimeAll(c.session.dispatched) <= Session.Requests(START, Session.Stream(Arrived(evs)))
  {
    RunIsConsistent(handler, config, evs);
    RunFollowsSession(handler, config, evs);
    if forall ev :: ev in evs ==> !ev.result.Broken? {
      NothingLostUnbroken(handler, config, evs);
    }
    Session.DispatchIsPrefixOfBatch(Arrived(evs));
  }

  /**
   No reply ends the connection: neither a closing response nor a 400 shuts the write side down.
   It goes on until the process aborts, which happens if and only if a message follows the
   rejection of a line with a known method.
   */
  lemma ClosingRepliesLeaveItOpen(handler: Handler, config: Output.Config, evs: seq<Event>)
    ensures var c := Run(handler, config, evs);
      && c.out.state.Connected? && !c.out.halfClosed
      && (c.session.aborted <==> Session.GoesOnDoomed(Arrived(evs)))
  {
    RunIsConsistent(handler, config, evs);
    RunFollowsSession(handler, config, evs);
    Session.AbortsIff(Arrived(evs));
  }
}
