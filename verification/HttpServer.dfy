/** HttpResponse printing into a Buffer, and the per-connection work of HttpServer. */
module HttpServerObject {
  import opened Wrappers
  import opened Bytes
  import opened BufferLayout
  import opened BufferObject
  import opened HttpParse
  import opened HttpContextObject
  import opened HttpRoundTrip
  import opened HttpResponsePrint
  import opened HttpSessionRuns
  import opened HttpPersistence

  /** Buffer::append, seen as a byte queue only. */
  method Emit(output: Buffer, s: string)
    requires output.Valid()
    modifies output, output.buffer
    ensures output.Valid() && (output.buffer == old(output.buffer) || fresh(output.buffer))
    ensures output.Contents() == old(output.Contents()) + s
  {
    output.Append(s);
  }

  /** The fields printed so far are the headers whose keys are not left. */
  ghost predicate PartlyEnumerated(order: seq<Field>, headers: map<string, string>, left: set<string>) {
    && left <= headers.Keys
    && (forall f :: f in order <==> f.name in headers.Keys - left && f.value == headers[f.name])
    && (forall i, j :: 0 <= i < j < |order| ==> order[i].name != order[j].name)
  }

  lemma EnumerateOneMore(order: seq<Field>, headers: map<string, string>, left: set<string>, key: string)
    requires PartlyEnumerated(order, headers, left) && key in left
    ensures PartlyEnumerated(order + [Field(key, headers[key])], headers, left - {key})
  {
    assert forall i :: 0 <= i < |order| ==> order[i] in order;
  }

  lemma PrintOneMore(start: string, order: seq<Field>, f: Field)
    ensures start + PrintFields(order + [f]) == start + PrintFields(order) + (f.name + ": " + f.value + CRLF)
  {
    PrintAppend(order, [f]);
    assert [f][1..] == [];
    assert PrintFields([f]) == f.name + ": " + f.value + CRLF;
  }

  class HttpResponse {
    var headers: map<string, string>
    var statusCode: nat
    var statusMessage: string
    var closeConnection: bool
    var body: string

    ghost function Value(): Response
      reads this
    {
      Response(statusCode, statusMessage, closeConnection, headers, body)
    }

    constructor (close: bool)
      ensures Value() == Response(0, "", close, map[], "")
    {
      headers, statusCode, statusMessage, closeConnection, body := map[], 0, "", close, "";
    }

    /** What the user's callback makes of the response. */
    method Fill(r: Response)
      modifies this
      ensures Value() == r
    {
      headers, statusCode, statusMessage, closeConnection, body := r.headers, r.statusCode, r.statusMessage, r.closeConnection, r.body;
    }

    method AppendStatusLine(output: Buffer)
      requires output.Valid()
      modifies output, output.buffer
      ensures output.Valid() && (output.buffer == old(output.buffer) || fresh(output.buffer))
      ensures output.Contents() == old(output.Contents()) + (StatusLine(Value()) + CRLF)
    {
      ghost var start := output.Contents();
      var prefix := Snprintf32("HTTP/1.1 " + Decimal(statusCode) + " ");
      Emit(output, prefix);
      Emit(output, statusMessage);
      Emit(output, "\r\n");
      assert start + prefix + statusMessage + CRLF == start + (prefix + statusMessage + CRLF);
    }

    /** Prints the response; order tells in which order headers_ was iterated. */
    method AppendToBuffer(output: Buffer) returns (ghost order: seq<Field>)
      requires output.Valid()
      modifies output, output.buffer
      ensures output.Valid() && (output.buffer == old(output.buffer) || fresh(output.buffer))
      ensures Enumerates(order, headers)
      ensures output.Contents() == old(output.Contents()) + Print(Value(), order)
    {
      ghost var start := output.Contents();
      AppendStatusLine(output);
      AppendOwnFields(output);
      order := AppendHeaders(output);
      Emit(output, "\r\n");
      Emit(output, body);
      PrintAssociates(start, StatusLine(Value()) + CRLF, OwnFields(Value()), PrintFields(order), body);
    }

    method AppendOwnFields(output: Buffer)
      requires output.Valid()
      modifies output, output.buffer
      ensures output.Valid() && (output.buffer == old(output.buffer) || fresh(output.buffer))
      ensures output.Contents() == old(output.Contents()) + OwnFields(Value())
    {
      if closeConnection {
        Emit(output, "Connection: close\r\n");
      } else {
        ghost var start := output.Contents();
        var line := Snprintf32("Content-Length: " + Decimal(|body|) + "\r\n");
        Emit(output, line);
        Emit(output, "Connection: Keep-Alive\r\n");
        assert start + line + KEEP_ALIVE_LINE == start + (line + KEEP_ALIVE_LINE);
      }
    }

    method AppendHeaders(output: Buffer) returns (ghost order: seq<Field>)
      requires output.Valid()
      modifies output, output.buffer
      ensures output.Valid() && (output.buffer == old(output.buffer) || fresh(output.buffer))
      ensures Enumerates(order, headers)
      ensures output.Contents() == old(output.Contents()) + PrintFields(order)
    {
      order := [];
      var left := headers.Keys;
      ghost var start := output.Contents();
      while left != {}
        invariant output.Valid() && (output.buffer == old(output.buffer) || fresh(output.buffer))
        invariant PartlyEnumerated(order, headers, left)
        invariant output.Contents() == start + PrintFields(order)
        decreases |left|
      {
        var key :| key in left;
        AppendField(output, key, headers[key]);
        ghost var f := Field(key, headers[key]);
        PrintOneMore(start, order, f);
        EnumerateOneMore(order, headers, left, key);
        order := order + [f];
        left := left - {key};
      }
    }

    method AppendField(output: Buffer, name: string, value: string)
      requires output.Valid()
      modifies output, output.buffer
      ensures output.Valid() && (output.buffer == old(output.buffer) || fresh(output.buffer))
      ensures output.Contents() == old(output.Contents()) + (name + ": " + value + CRLF)
    {
      ghost var start := output.Contents();
      Emit(output, name);
      Emit(output, ": ");
      Emit(output, value);
      Emit(output, "\r\n");
      FieldAssociates(start, name, value);
    }
  }

  lemma FieldAssociates(start: string, name: string, value: string)
    ensures start + name + ": " + value + CRLF == start + (name + ": " + value + CRLF)
  {
  }

  lemma PrintAssociates(start: string, a: string, b: string, c: string, d: string)
    ensures start + a + b + c + CRLF + d == start + (a + (b + c + CRLF + d))
  {
  }

  /** onRequest: the decision, the user's callback, and the bytes to send and whether to shut down behind them. */
  method OnRequest(req: HttpRequest, callback: (Request, Response) -> Response)
    returns (sent: string, close: bool)
    ensures var response := callback(req.Value(), Response(0, "", ShouldClose(req.Value()), map[], ""));
      && close == response.closeConnection
      && exists order :: Enumerates(order, response.headers) && sent == Print(response, order)
  {
    var connection := req.GetHeader("Connection");
    var closing := connection == "close" || (req.version == Http10 && connection != "Keep-Alive");
    var response := new HttpResponse(closing);
    var request := Request(req.verb, req.version, req.path, req.query, req.receiveTime, req.headers);
    response.Fill(callback(request, Response(0, "", closing, map[], "")));
    var buf := new Buffer(1024);
    ghost var order := response.AppendToBuffer(buf);
    sent := buf.buffer[buf.readerIndex..buf.writerIndex];
    close := response.closeConnection;
    assert sent == Print(response.Value(), order);
  }

  /** What TcpConnection and HttpServer keep for one client. */
  class HttpSession {
    const context: HttpContext
    const inputBuffer: Buffer
    var rejected: nat
    var aborted: bool
    ghost var dispatched: seq<Request>

    ghost predicate Valid()
      reads this, context, context.request, inputBuffer
    {
      inputBuffer.Valid() && !context.state.GotAll?
    }

    ghost function State(): Session
      requires inputBuffer.Valid()
      reads this, context, context.request, inputBuffer, inputBuffer.buffer
    {
      Session(context.Value(), inputBuffer.Contents(), dispatched, rejected, aborted)
    }

    constructor ()
      ensures fresh(context) && fresh(context.request) && fresh(inputBuffer) && fresh(inputBuffer.buffer)
      ensures Valid() && State() == OPENED
    {
      context := new HttpContext();
      inputBuffer := new Buffer(1024);
      rejected, aborted, dispatched := 0, false, [];
    }

    /** A readable event that delivers the bytes of m, and the message callback it ends in. */
    method OnMessage(m: Message)
      requires Valid() && !aborted && |m.bytes| <= inputBuffer.ReadCapacity()
      modifies this, context, context.request, inputBuffer, inputBuffer.buffer
      ensures Valid() && (inputBuffer.buffer == old(inputBuffer.buffer) || fresh(inputBuffer.buffer))
      ensures State() == HttpSessionRuns.OnMessage(old(State()), m)
    {
      ReadIn(inputBuffer, m.bytes);
      ghost var p := ParseAndSettle(m.time);
    }

    /** onMessage: parse, then dispatch and reset. */
    method ParseAndSettle(time: int) returns (ghost p: Outcome)
      requires Valid()
      modifies this, context, context.request, inputBuffer
      ensures Valid() && inputBuffer.buffer == old(inputBuffer.buffer)
      ensures p == Parse(old(context.Value()), old(inputBuffer.Contents()), time) && State() == Settle(old(State()), p)
    {
      ghost var q := State();
      p := Parse(context.Value(), inputBuffer.Contents(), time);
      var ok, dead := context.ParseRequest(inputBuffer, time);
      SettleWith(ok, dead, q, p);
    }

    /** q and p: the session before the parse, and what the parse came to. */
    method SettleWith(ok: bool, dead: bool, ghost q: Session, ghost p: Outcome)
      requires inputBuffer.Valid() && q == State().(ctx := q.ctx, unread := q.unread)
      requires p == if dead then Aborted else Outcome(ok, context.Value(), inputBuffer.Contents())
      requires dead ==> q == State() && !context.state.GotAll?
      requires !dead && !ok ==> context.state.ExpectRequestLine?
      modifies this, context, context.request
      ensures !context.state.GotAll? && State() == Settle(q, p)
    {
      if dead {
        aborted := true;
        return;
      }
      if !ok {
        rejected := rejected + 1;
      }
      if context.state == GotAll {
        dispatched := dispatched + [context.request.Value()];
        context.Reset();
      }
    }
  }

  /** Buffer::readFd, seen as a byte queue only. */
  method ReadIn(input: Buffer, s: string)
    requires input.Valid() && |s| <= input.ReadCapacity()
    modifies input, input.buffer
    ensures input.Valid() && (input.buffer == old(input.buffer) || fresh(input.buffer))
    ensures input.Contents() == old(input.Contents()) + s
  {
    ReceivedIsAppended(input.View(), s);
    var _ := input.ReadFd(Option.Some(s));
  }

  lemma ReceivedIsAppended(b: Layout, s: string)
    requires b.Valid()
    ensures ReadFd(b, s).data == b.data + s
  {
    if |s| > b.Writable() {
      assert b.data + s[..b.Writable()] + s[b.Writable()..] == b.data + s;
    }
  }
}
