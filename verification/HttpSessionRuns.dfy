/** A connection's HTTP session: the bytes of a client arrive cut into messages. */
module HttpSessionRuns {
  import opened Wrappers
  import opened Seqs
  import opened Bytes
  import opened HttpParse
  import opened HttpRoundTrip
  import opened HttpLines

  datatype Session = Session(
    ctx: Context,
    unread: string,
    dispatched: seq<Request>,
    rejected: nat,            // how often a request line was rejected, each time with a 400
    aborted: bool)            // setMethod's assertion failed and the process is gone
  {
    /** No request line was rejected yet, and the context is ready for more. */
    predicate Open() { rejected == 0 && !aborted && ctx.Ready() }
  }

  const OPENED := Session(START, "", [], 0, false)

  /** What readFd delivers when it delivers something. */
  type Chunk = s: string | s != "" witness "x"

  datatype Message = Message(bytes: Chunk, time: int)

  /** handleRead then onMessage, as long as there is a process. */
  function OnMessage(q: Session, m: Message): (r: Session)
    requires !q.ctx.state.GotAll?
    ensures !r.ctx.state.GotAll?
  {
    if q.aborted then q else
      var text := q.unread + m.bytes;
      Settle(q.(unread := text), Parse(q.ctx, text, m.time))
  }

  /** onMessage once parseRequest has answered. A rejected line stays in the buffer. */
  function Settle(q: Session, p: Outcome): Session {
    match p
    case Aborted => q.(aborted := true)
    case Outcome(ok, ctx, rest) =>
      if !ok then q.(ctx := ctx, unread := rest, rejected := q.rejected + 1)
      else if ctx.state.GotAll? then q.(ctx := START, unread := rest, dispatched := q.dispatched + [ctx.request])
      else q.(ctx := ctx, unread := rest)
  }

  function Run(ms: seq<Message>): (q: Session)
    ensures !q.ctx.state.GotAll?
    decreases |ms|
  {
    if ms == [] then OPENED else OnMessage(Run(ms[..|ms| - 1]), ms[|ms| - 1])
  }

  function Stream(ms: seq<Message>): string {
    if ms == [] then "" else Stream(ms[..|ms| - 1]) + ms[|ms| - 1].bytes
  }

  function Untime(r: Request): Request { r.(receiveTime := 0) }

  function UntimeAll(rs: seq<Request>): seq<Request> {
    if rs == [] then [] else UntimeAll(rs[..|rs| - 1]) + [Untime(rs[|rs| - 1])]
  }

  /** The batch parser: all requests of a text, up to the first malformed or incomplete one. */
  function Requests(ctx: Context, s: string): seq<Request>
    requires ctx.Ready()
    decreases |s|
  {
    var p := Parse(ctx, s, 0);
    if p.ok && p.ctx.state.GotAll? then [Untime(p.ctx.request)] + Requests(START, p.rest) else []
  }

  lemma RequestsUntimed(ctx: Context, ctx': Context, s: string)
    requires ctx.Ready() && ctx'.Ready() && Untimed(ctx) == Untimed(ctx')
    ensures Requests(ctx, s) == Requests(ctx', s)
  {
    ParseUntimed(ctx, ctx', s, 0, 0);
  }

  /** One message of the session, seen by the batch parser with any text c still to come. */
  lemma RequestsAfterMessage(ctx: Context, s: string, time: int, c: string)
    requires ctx.Ready()
    ensures var p := Parse(ctx, s, time);
      Requests(ctx, s + c) ==
        if !p.ok then []
        else if p.ctx.state.GotAll? then [Untime(p.ctx.request)] + Requests(START, p.rest + c)
        else Requests(p.ctx, p.rest + c)
  {
    var p, p0 := Parse(ctx, s, time), Parse(ctx, s, 0);
    ParseUntimed(ctx, ctx, s, time, 0);
    ParseSplit(ctx, s, c, 0);
    if p.ok && !p.ctx.state.GotAll? {
      RequestsUntimed(p0.ctx, p.ctx, p0.rest + c);
    }
  }

  lemma UntimeAppend(rs: seq<Request>, r: Request)
    ensures UntimeAll(rs + [r]) == UntimeAll(rs) + [Untime(r)]
  {
    assert (rs + [r])[..|rs|] == rs;
  }

  // ---- rejected request lines

  /** The line has one of the five method names in front of its first space. */
  predicate KnownMethod(line: string) {
    var space := Find(line, ' ');
    space < |line| && IsMethodName(line[..space])
  }

  function FirstLine(text: string): string {
    match FindCrlf(text)
    case None => text
    case Some(i) => text[..i]
  }

  /** The unread text begins with a complete line that was rejected and will be read again. */
  ghost predicate Stuck(q: Session) {
    && q.rejected > 0 && q.ctx.state.ExpectRequestLine? && FindCrlf(q.unread).Some?
    && (q.ctx.request.verb.Invalid? <==> !KnownMethod(FirstLine(q.unread)))
    && (q.ctx.request.verb.Invalid? ==> ProcessRequestLine(q.ctx.request, FirstLine(q.unread)) == (false, q.ctx.request))
  }

  ghost predicate Valid(q: Session) {
    q.Open() || Stuck(q)
  }

  /** A rejected line leaves the method it names behind, and nothing else if it names none. */
  lemma RejectedLeaves(r: Request, line: string)
    requires r.verb.Invalid? && !ProcessRequestLine(r, line).0
    ensures var r1 := ProcessRequestLine(r, line).1;
      && (r1.verb.Invalid? <==> !KnownMethod(line))
      && (r1.verb.Invalid? ==> r1 == r)
  {
    var space := Find(line, ' ');
    if space < |line| {
      MethodIsItsName(line[..space]);
    }
  }

  lemma RejectionSticks(q: Session, m: Message)
    requires q.Open()
    ensures Valid(OnMessage(q, m))
  {
    var text := q.unread + m.bytes;
    var p := Parse(q.ctx, text, m.time);
    if !p.ok {
      RejectionIsAtOnce(q.ctx, text, m.time);
      RejectedLeaves(q.ctx.request, FirstLine(text));
    }
  }

  /** A rejection comes from the first line of the text: later lines are field lines. */
  lemma RejectionIsAtOnce(ctx: Context, s: string, time: int)
    requires ctx.Ready() && !Parse(ctx, s, time).ok
    ensures ctx.state.ExpectRequestLine? && FindCrlf(s).Some?
    ensures var (ok, r) := ProcessRequestLine(ctx.request, FirstLine(s));
      !ok && Parse(ctx, s, time) == Outcome(false, Context(ExpectRequestLine, r), s)
  {
  }

  /** A message after a rejection, whatever it holds: the process aborts, or the same line is rejected again. */
  lemma StuckMessage(q: Session, m: Message)
    requires Stuck(q)
    ensures Stuck(OnMessage(q, m))
    ensures FirstLine(q.unread + m.bytes) == FirstLine(q.unread)
    ensures OnMessage(q, m) ==
      if q.aborted then q
      else if KnownMethod(FirstLine(q.unread)) then q.(unread := q.unread + m.bytes, aborted := true)
      else q.(unread := q.unread + m.bytes, rejected := q.rejected + 1)
  {
    FindCrlfExtends(q.unread, m.bytes);
    assert FirstLine(q.unread + m.bytes) == FirstLine(q.unread);
  }

  lemma {:induction false} RunIsValid(ms: seq<Message>)
    ensures Valid(Run(ms))
    decreases |ms|
  {
    if ms != [] {
      var before, m := ms[..|ms| - 1], ms[|ms| - 1];
      RunIsValid(before);
      if Run(before).Open() {
        RejectionSticks(Run(before), m);
      } else {
        StuckMessage(Run(before), m);
      }
    }
  }

  /** What the batch parser finds in what the session has left, when the text c follows. */
  function Later(q: Session, c: string): seq<Request> {
    if q.Open() then Requests(q.ctx, q.unread + c) else []
  }

  /** What the session owes a reader of its text: what it dispatched, then what it has left. */
  function Owed(q: Session, c: string): seq<Request> {
    UntimeAll(q.dispatched) + Later(q, c)
  }

  function Newest(q: Session, r: Session): seq<Request> {
    if |r.dispatched| > |q.dispatched| then [Untime(r.dispatched[|r.dispatched| - 1])] else []
  }

  /** What was later is now dispatched or still later. */
  lemma MessageKeepsLater(q: Session, m: Message, c: string)
    requires Valid(q)
    ensures Later(q, m.bytes + c) == Newest(q, OnMessage(q, m)) + Later(OnMessage(q, m), c)
  {
    if q.Open() {
      assert q.unread + (m.bytes + c) == q.unread + m.bytes + c;
      RequestsAfterMessage(q.ctx, q.unread + m.bytes, m.time, c);
    } else {
      StuckMessage(q, m);
    }
  }

  lemma MessageKeepsDispatched(q: Session, m: Message)
    requires !q.ctx.state.GotAll?
    ensures UntimeAll(OnMessage(q, m).dispatched) == UntimeAll(q.dispatched) + Newest(q, OnMessage(q, m))
    ensures |q.dispatched| <= |OnMessage(q, m).dispatched| <= |q.dispatched| + 1
  {
    var r := OnMessage(q, m);
    if |r.dispatched| > |q.dispatched| {
      UntimeAppend(q.dispatched, r.dispatched[|q.dispatched|]);
    }
  }

  lemma MessageKeepsOwed(q: Session, m: Message, c: string)
    requires Valid(q)
    ensures Owed(q, m.bytes + c) == Owed(OnMessage(q, m), c)
  {
    MessageKeepsLater(q, m, c);
    MessageKeepsDispatched(q, m);
    Associates(UntimeAll(q.dispatched), Newest(q, OnMessage(q, m)), Later(OnMessage(q, m), c));
  }

  /** For every text c that may follow, the batch parser finds the dispatched requests and then what is left. */
  lemma {:induction false} SessionFollowsStream(ms: seq<Message>, c: string)
    ensures Requests(START, Stream(ms) + c) == Owed(Run(ms), c)
    decreases |ms|
  {
    if ms == [] {
      OpenedOwesAll(c);
    } else {
      var before, m := ms[..|ms| - 1], ms[|ms| - 1];
      SessionFollowsStream(before, m.bytes + c);
      StreamGrows(ms, c);
      RunIsValid(before);
      MessageKeepsOwed(Run(before), m, c);
    }
  }

  lemma OpenedOwesAll(c: string)
    ensures Requests(START, "" + c) == Owed(OPENED, c)
  {
    EmptyEnds(Later(OPENED, c));
  }

  lemma StreamGrows(ms: seq<Message>, c: string)
    requires ms != []
    ensures Stream(ms) + c == Stream(ms[..|ms| - 1]) + (ms[|ms| - 1].bytes + c)
  {
  }

  /**
   However a client's bytes are cut into messages, the dispatched requests are in order a prefix
   of what the batch parser finds in the whole text, no message dispatches more than one, and the
   context is never left finished between messages.
   */
  lemma DispatchIsPrefixOfBatch(ms: seq<Message>)
    ensures var q := Run(ms);
      && UntimeAll(q.dispatched) <= Requests(START, Stream(ms))
      && |q.dispatched| <= |ms|
      && !q.ctx.state.GotAll?
      && (q.rejected > 0 ==> UntimeAll(q.dispatched) == Requests(START, Stream(ms)))
  {
    SessionFollowsStream(ms, "");
    assert Stream(ms) + "" == Stream(ms);
    AtMostOneEach(ms);
  }

  lemma {:induction false} AtMostOneEach(ms: seq<Message>)
    ensures |Run(ms).dispatched| <= |ms|
    decreases |ms|
  {
    if ms != [] {
      AtMostOneEach(ms[..|ms| - 1]);
      MessageKeepsDispatched(Run(ms[..|ms| - 1]), ms[|ms| - 1]);
    }
  }

  /** What the parser leaves unread without finishing holds no request. */
  lemma LeftoverHasNoRequest(ctx: Context, s: string, time: int)
    requires ctx.Ready()
    ensures var p := Parse(ctx, s, time); p.ok && !p.ctx.state.GotAll? ==> Requests(p.ctx, p.rest) == []
  {
    var p := Parse(ctx, s, time);
    if p.ok && !p.ctx.state.GotAll? {
      ParseSplit(ctx, s, "", time);
      assert s + "" == s && p.rest + "" == p.rest;
      ParseUntimed(p.ctx, p.ctx, p.rest, time, 0);
    }
  }

  lemma QuietMessage(q: Session, m: Message)
    requires Valid(q) && |OnMessage(q, m).dispatched| == |q.dispatched|
    ensures Later(OnMessage(q, m), "") == []
  {
    if q.Open() {
      LeftoverHasNoRequest(q.ctx, q.unread + m.bytes, m.time);
      LeftoverIsNotLater(q.(unread := q.unread + m.bytes), Parse(q.ctx, q.unread + m.bytes, m.time));
    } else {
      StuckMessage(q, m);
    }
  }

  lemma LeftoverIsNotLater(q: Session, p: Outcome)
    requires q.Open() && p.Outcome? && (p.ok && !p.ctx.state.GotAll? ==> p.ctx.Ready() && Requests(p.ctx, p.rest) == [])
    ensures !(p.ok && p.ctx.state.GotAll?) ==> Later(Settle(q, p), "") == []
  {
    assert p.rest + "" == p.rest;
  }

  /** A message that dispatches nothing leaves no complete request behind: the session has caught up with its text. */
  lemma QuietMessageMeansCaughtUp(ms: seq<Message>)
    requires ms != []
    ensures |Run(ms).dispatched| == |Run(ms[..|ms| - 1]).dispatched| ==> UntimeAll(Run(ms).dispatched) == Requests(START, Stream(ms))
  {
    if |Run(ms).dispatched| == |Run(ms[..|ms| - 1]).dispatched| {
      RunIsValid(ms[..|ms| - 1]);
      QuietMessage(Run(ms[..|ms| - 1]), ms[|ms| - 1]);
      SessionFollowsStream(ms, "");
      EmptyEnds(Stream(ms));
      NothingOwed(Run(ms), Requests(START, Stream(ms)));
    }
  }

  lemma NothingOwed(q: Session, found: seq<Request>)
    requires found == Owed(q, "") && Later(q, "") == []
    ensures found == UntimeAll(q.dispatched)
  {
    EmptyEnds(UntimeAll(q.dispatched));
  }

  lemma RunOne(m: Message)
    ensures Run([m]) == OnMessage(OPENED, m) && Stream([m]) == m.bytes
  {
    assert [m][..0] == [];
    assert "" + m.bytes == m.bytes;
  }

  lemma FirstMessage(m: Message, r: Request, rest: string)
    requires Parse(START, m.bytes, m.time) == Outcome(true, Context(GotAll, r), rest)
    ensures Run([m]) == Session(START, rest, [r], 0, false)
    ensures Requests(START, m.bytes) == [Untime(r)] + Requests(START, rest)
  {
    RunOne(m);
    assert "" + m.bytes == m.bytes && [] + [r] == [r];
    RequestsAfterMessage(START, m.bytes, m.time, "");
    assert m.bytes + "" == m.bytes && rest + "" == rest;
  }

  /** A text in two parts, the first of which is a whole request. */
  lemma FirstAndLater(m: Message, r1: Request, rest: string)
    requires Parse(START, m.bytes, m.time) == Outcome(true, Context(GotAll, r1), rest)
    ensures Requests(START, Stream([m])) == [Untime(r1)] + Requests(START, rest)
  {
    FirstMessage(m, r1, rest);
    RunOne(m);
  }

  lemma PairOf(a: Request, b: Request)
    ensures [a] + [b] == [a, b]
  {
  }

  lemma FirstOfTwoIsRead(m: Message, r1: Request, fs1: seq<Field>, rest: string)
    requires RequestWellFormed(r1, fs1) && m.bytes == PrintRequest(r1, fs1) + rest && m.time == r1.receiveTime
    ensures Parse(START, m.bytes, m.time) == Outcome(true, Context(GotAll, r1), rest)
  {
    RequestRoundTrip(r1, fs1, rest);
  }

  lemma SecondOfTwoWaits(m: Message, r1: Request, fs1: seq<Field>, rest: string)
    requires RequestWellFormed(r1, fs1) && m.bytes == PrintRequest(r1, fs1) + rest && m.time == r1.receiveTime
    ensures Run([m]) == Session(START, rest, [r1], 0, false)
  {
    FirstOfTwoIsRead(m, r1, fs1, rest);
    FirstMessage(m, r1, rest);
  }

  /** Not every complete request is dispatched: of two in one message the second waits. */
  lemma PipelinedRequestWaits(m: Message, r1: Request, fs1: seq<Field>, r2: Request, fs2: seq<Field>)
    requires RequestWellFormed(r1, fs1) && RequestWellFormed(r2, fs2)
    requires m.bytes == PrintRequest(r1, fs1) + PrintRequest(r2, fs2) && m.time == r1.receiveTime
    ensures Run([m]) == Session(START, PrintRequest(r2, fs2), [r1], 0, false)
    ensures Requests(START, Stream([m])) == [Untime(r1), Untime(r2)]
  {
    SecondOfTwoWaits(m, r1, fs1, PrintRequest(r2, fs2));
    FirstOfTwoIsRead(m, r1, fs1, PrintRequest(r2, fs2));
    SingleRequest(r2, fs2);
    FirstAndLater(m, r1, PrintRequest(r2, fs2));
    PairOf(Untime(r1), Untime(r2));
  }

  lemma SingleRequest(r: Request, fs: seq<Field>)
    requires RequestWellFormed(r, fs)
    ensures Requests(START, PrintRequest(r, fs)) == [Untime(r)]
  {
    var s := PrintRequest(r, fs);
    RequestRoundTrip(r, fs, "");
    assert s + "" == s;
    ParseUntimed(START, START, s, r.receiveTime, 0);
    assert FindCrlf("") == None;
    assert Requests(START, "") == [];
  }

  /**
   However the text of one well-formed request is cut into messages, exactly that request is
   dispatched, once.
   */
  lemma AnyCutsDispatchTheRequest(ms: seq<Message>, r: Request, fs: seq<Field>)
    requires RequestWellFormed(r, fs) && Stream(ms) == PrintRequest(r, fs)
    ensures UntimeAll(Run(ms).dispatched) == [Untime(r)]
  {
    SingleRequest(r, fs);
    DispatchIsPrefixOfBatch(ms);
    UntimeLength(Run(ms).dispatched);
    if Run(ms).dispatched == [] {
      NoDispatchStays(ms);
      QuietMessageMeansCaughtUp(ms);
    }
  }

  lemma {:induction false} UntimeLength(rs: seq<Request>)
    ensures |UntimeAll(rs)| == |rs|
  {
    if rs != [] {
      UntimeLength(rs[..|rs| - 1]);
    }
  }

  lemma NoDispatchStays(ms: seq<Message>)
    requires ms != [] && Run(ms).dispatched == []
    ensures Run(ms[..|ms| - 1]).dispatched == []
  {
    MessageKeepsDispatched(Run(ms[..|ms| - 1]), ms[|ms| - 1]);
  }

  // ---- how many requests are dispatched

  /** How many complete requests the messages hold, as their sender can count them. */
  function Complete(ms: seq<Message>): nat { |Requests(START, Stream(ms))| }

  function Dispatched(ms: seq<Message>): nat { |Run(ms).dispatched| }

  /** A message dispatches one request, or else everything complete has been dispatched. */
  lemma OneOrCaughtUp(ms: seq<Message>)
    requires ms != []
    ensures var before := Dispatched(ms[..|ms| - 1]);
      Dispatched(ms) == before + 1 || (Dispatched(ms) == before && Dispatched(ms) == Complete(ms))
  {
    MessageKeepsDispatched(Run(ms[..|ms| - 1]), ms[|ms| - 1]);
    if Dispatched(ms) == Dispatched(ms[..|ms| - 1]) {
      QuietMessageMeansCaughtUp(ms);
      UntimeLength(Run(ms).dispatched);
    }
  }

  lemma DispatchedIsComplete(ms: seq<Message>)
    ensures Dispatched(ms) <= Complete(ms)
    ensures Dispatched(ms) == Complete(ms) <==> UntimeAll(Run(ms).dispatched) == Requests(START, Stream(ms))
  {
    DispatchIsPrefixOfBatch(ms);
    UntimeLength(Run(ms).dispatched);
  }

  lemma {:induction false} DispatchedAtMost(ms: seq<Message>, k: nat)
    requires k <= |ms|
    ensures Dispatched(ms) <= Complete(ms[..k]) + |ms| - k
    decreases |ms|
  {
    if k == |ms| {
      AllOfThem(ms);
      DispatchedIsComplete(ms);
    } else {
      FirstOfFirst(ms, k);
      DispatchedAtMost(ms[..|ms| - 1], k);
      OneOrCaughtUp(ms);
    }
  }

  lemma {:induction false} DispatchedAttained(ms: seq<Message>) returns (k: nat)
    ensures k <= |ms| && Dispatched(ms) == Complete(ms[..k]) + |ms| - k
    decreases |ms|
  {
    k := |ms|;
    AllOfThem(ms);
    if ms == [] {
      NothingIsComplete();
    } else {
      OneOrCaughtUp(ms);
      if Dispatched(ms) != Dispatched(ms[..|ms| - 1]) {
        k := DispatchedAttained(ms[..|ms| - 1]);
        FirstOfFirst(ms, k);
      }
    }
  }

  lemma AllOfThem(ms: seq<Message>)
    ensures ms[..|ms|] == ms
  {
  }

  lemma FirstOfFirst(ms: seq<Message>, k: nat)
    requires k < |ms|
    ensures ms[..|ms| - 1][..k] == ms[..k]
  {
  }

  lemma NothingIsComplete()
    ensures Complete([]) == 0 && Dispatched([]) == 0
  {
    assert FindCrlf("") == None;
  }

  /**
   The number of requests dispatched is the least, over every split of the messages, of the complete
   requests before the split and the messages after it.
   */
  lemma DispatchedIsLeast(ms: seq<Message>)
    ensures forall k :: 0 <= k <= |ms| ==> Dispatched(ms) <= Complete(ms[..k]) + |ms| - k
    ensures exists k :: 0 <= k <= |ms| && Dispatched(ms) == Complete(ms[..k]) + |ms| - k
  {
    forall k | 0 <= k <= |ms| ensures Dispatched(ms) <= Complete(ms[..k]) + |ms| - k {
      DispatchedAtMost(ms, k);
    }
    var k := DispatchedAttained(ms);
  }

  /**
   Every complete request is dispatched if and only if no group of last messages completes more
   requests than it has messages.
   */
  lemma AllDispatchedIff(ms: seq<Message>)
    ensures UntimeAll(Run(ms).dispatched) == Requests(START, Stream(ms))
       <==> forall k :: 0 <= k <= |ms| ==> Complete(ms) - Complete(ms[..k]) <= |ms| - k
  {
    DispatchedIsLeast(ms);
    DispatchedIsComplete(ms);
  }

  // ---- messages after a rejection

  lemma RunPush(ms: seq<Message>, m: Message)
    ensures Run(ms + [m]) == OnMessage(Run(ms), m)
  {
    assert (ms + [m])[..|ms|] == ms;
  }

  /**
   A rejected line stays in the buffer, so every further message meets it again: it is rejected
   and answered with a 400 once more if its method is unknown, and otherwise the process aborts.
   */
  lemma RejectionRepeatsOrAborts(ms: seq<Message>, m: Message)
    requires Run(ms).rejected > 0 && !Run(ms).aborted
    ensures var q := Run(ms);
      && FindCrlf(q.unread).Some?
      && Run(ms + [m]) ==
           if KnownMethod(FirstLine(q.unread)) then q.(unread := q.unread + m.bytes, aborted := true)
           else q.(unread := q.unread + m.bytes, rejected := q.rejected + 1)
  {
    RunIsValid(ms);
    StuckMessage(Run(ms), m);
    RunPush(ms, m);
  }

  /** The session waits on a rejected line whose method it knows. */
  predicate Doomed(q: Session) { q.rejected > 0 && KnownMethod(FirstLine(q.unread)) }

  lemma AbortSteps(q: Session, m: Message)
    requires Valid(q)
    ensures OnMessage(q, m).aborted <==> q.aborted || Doomed(q)
  {
    if !q.Open() {
      StuckMessage(q, m);
    }
  }

  /** Some message follows the rejection of a line with a known method. */
  predicate GoesOnDoomed(ms: seq<Message>)
    decreases |ms|
  {
    ms != [] && (GoesOnDoomed(ms[..|ms| - 1]) || Doomed(Run(ms[..|ms| - 1])))
  }

  /** A run aborts if and only if a message follows the rejection of a line with a known method. */
  lemma {:induction false} AbortsIff(ms: seq<Message>)
    ensures Run(ms).aborted <==> GoesOnDoomed(ms)
    decreases |ms|
  {
    if ms != [] {
      AbortsIff(ms[..|ms| - 1]);
      RunIsValid(ms[..|ms| - 1]);
      AbortSteps(Run(ms[..|ms| - 1]), ms[|ms| - 1]);
    }
  }

  lemma FirstLineRejected(m: Message, line: string)
    requires m.bytes == line + CRLF && !HasCrlf(line) && !ProcessRequestLine(FRESH, line).0
    ensures Run([m]) == Session(Context(ExpectRequestLine, ProcessRequestLine(FRESH, line).1), m.bytes, [], 1, false)
    ensures FirstLine(m.bytes) == line
  {
    RunOne(m);
    assert m.bytes == line + CRLF + "" && "" + m.bytes == m.bytes;
    ParseLine(START, line, "", m.time);
    LineIsFound(line, "");
  }

  lemma AfterFirst(q: Session, n: Message, line: string)
    requires !HasCrlf(line) && !ProcessRequestLine(FRESH, line).0 && q.unread == line + CRLF
    requires q.ctx == Context(ExpectRequestLine, ProcessRequestLine(FRESH, line).1) && q.rejected == 1 && !q.aborted
    ensures var r := OnMessage(q, n); r.aborted == KnownMethod(line) && r.rejected == if KnownMethod(line) then 1 else 2
  {
    assert line + CRLF + "" == line + CRLF;
    LineIsFound(line, "");
    RejectedLeaves(FRESH, line);
    StuckMessage(q, n);
  }

  /**
   Any first line that is no request line, and then any message: if the line begins with one of the
   five method names and a space the process aborts, and otherwise the client gets a second 400.
   */
  lemma MalformedLineThenAnything(m: Message, n: Message, line: string)
    requires m.bytes == line + CRLF && !HasCrlf(line) && !exists verb, target, v :: IsRequestLine(line, verb, target, v)
    ensures var q := Run([m, n]); q.aborted == KnownMethod(line) && q.rejected == if KnownMethod(line) then 1 else 2
  {
    RequestLineIff(line);
    FirstLineRejected(m, line);
    RunTwo(m, n);
    AfterFirst(Run([m]), n, line);
  }

  lemma RunTwo(m: Message, n: Message)
    ensures Run([m, n]) == OnMessage(Run([m]), n)
  {
    assert [m, n][..1] == [m];
  }

  /** A line whose text before its first space is no method name is no request line. */
  lemma UnknownMethodIsMalformed(line: string, space: nat)
    requires space == Find(line, ' ') && !(space < |line| && IsMethodName(line[..space]))
    ensures !exists verb, target, v :: IsRequestLine(line, verb, target, v)
  {
    if verb, target, v :| IsRequestLine(line, verb, target, v) {
      NamesHaveNoSpace(verb);
      assert line == verb + " " + (target + " " + v) && line[..|verb|] == verb;
      FindIs(line, ' ', |verb|);
      assert false;
    }
  }

  /** An unknown method, as OPTIONS is here: the next message is answered with a second 400. */
  lemma UnknownMethodIsRefusedTwice(m: Message, n: Message, line: string)
    requires m.bytes == line + CRLF && !HasCrlf(line) && !KnownMethod(line)
    ensures Run([m, n]).rejected == 2 && !Run([m, n]).aborted
  {
    UnknownMethodIsMalformed(line, Find(line, ' '));
    MalformedLineThenAnything(m, n, line);
  }

  lemma OptionsIsUnknown(line: string)
    requires line == "OPTIONS / HTTP/1.1"
    ensures !HasCrlf(line) && !KnownMethod(line)
  {
    assert forall i :: 0 <= i < |line| ==> line[i] != '\r';
    assert |line[..7]| == 7 && forall i :: 0 <= i < 7 ==> line[i] != ' ';
    FindIs(line, ' ', 7);
    assert |"GET"| == 3 && |"POST"| == 4 && |"HEAD"| == 4 && |"PUT"| == 3 && |"DELETE"| == 6;
  }

  /** An unsupported version: whatever is sent next aborts the process. */
  lemma BadVersionAborts(m: Message, n: Message, line: string, target: string, v: string)
    requires line == "GET" + " " + (target + " " + v) && ' ' !in target && !IsVersionName(v) && !HasCrlf(line)
    requires m.bytes == line + CRLF
    ensures Run([m, n]).aborted
  {
    SplitsAtSpace("GET", target + " " + v);
    SplitsAtSpace(target, v);
    VersionIsItsName(SetTarget(FRESH.(verb := MethodOf("GET")), target), v);
    RequestLineSplits("GET", target, v);
    RequestLineIff(line);
    MalformedLineThenAnything(m, n, line);
  }
}
