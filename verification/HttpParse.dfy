/** HTTP requests and the incremental parser, as functions of the context and the unread bytes. */
module HttpParse {
  import opened Bytes

  datatype Method = Invalid | Get | Post | Head | Put | Delete
  datatype Version = Unknown | Http10 | Http11

  datatype Request = Request(verb: Method, version: Version, path: string, query: string,
                             receiveTime: int, headers: map<string, string>)

  const FRESH := Request(Invalid, Unknown, "", "", 0, map[])

  datatype State = ExpectRequestLine | ExpectHeaders | GotAll

  datatype Context = Context(state: State, request: Request) {
    /** Not finished, and no method set while a request line is expected. */
    predicate Ready() {
      !state.GotAll? && (state.ExpectRequestLine? ==> request.verb.Invalid?)
    }

    /** The line gets past setMethod's assertion, which a line without a space does not reach. */
    predicate Accepts(line: string) {
      Ready() || (state.ExpectRequestLine? && Find(line, ' ') == |line|)
    }
  }

  const START := Context(ExpectRequestLine, FRESH)

  /** How parseRequest ends; Aborted when setMethod's assertion fails. */
  datatype Outcome = Outcome(ok: bool, ctx: Context, rest: string) | Aborted

  function MethodOf(m: string): Method {
    if m == "GET" then Get
    else if m == "POST" then Post
    else if m == "HEAD" then Head
    else if m == "PUT" then Put
    else if m == "DELETE" then Delete
    else Invalid
  }

  function MethodString(m: Method): string {
    match m
    case Get => "GET"
    case Post => "POST"
    case Head => "HEAD"
    case Put => "PUT"
    case Delete => "DELETE"
    case Invalid => "UNKNOWN"
  }

  // ---- header values

  predicate IsSpace(c: char) {
    c == ' ' || '\t' <= c <= '\r'
  }

  function TrimLeft(s: string): string {
    if s != "" && IsSpace(s[0]) then TrimLeft(s[1..]) else s
  }

  function TrimRight(s: string): string {
    if s != "" && IsSpace(s[|s| - 1]) then TrimRight(s[..|s| - 1]) else s
  }

  function Trim(s: string): string { TrimRight(TrimLeft(s)) }

  predicate Trimmed(s: string) {
    s != "" ==> !IsSpace(s[0]) && !IsSpace(s[|s| - 1])
  }

  lemma {:induction false} TrimLeftSplits(s: string)
    ensures var n := |s| - |TrimLeft(s)|;
      && 0 <= n && TrimLeft(s) == s[n..] && (forall i :: 0 <= i < n ==> IsSpace(s[i]))
      && (n < |s| ==> !IsSpace(s[n]))
  {
    if s != "" && IsSpace(s[0]) {
      TrimLeftSplits(s[1..]);
      var n := |s[1..]| - |TrimLeft(s[1..])|;
      assert s[1..][n..] == s[n + 1..];
      assert forall i :: 0 < i < n + 1 ==> s[i] == s[1..][i - 1];
    }
  }

  lemma {:induction false} TrimRightSplits(s: string)
    ensures var n := |TrimRight(s)|;
      && n <= |s| && TrimRight(s) == s[..n] && (forall i :: n <= i < |s| ==> IsSpace(s[i]))
      && (0 < n ==> !IsSpace(s[n - 1]))
  {
    if s != "" && IsSpace(s[|s| - 1]) {
      TrimRightSplits(s[..|s| - 1]);
      assert s[..|s| - 1][..|TrimRight(s)|] == s[..|TrimRight(s)|];
    }
  }

  /** The stored value is what is left of the text when the white space around it is cut away. */
  lemma TrimCutsExactlyTheSpace(s: string)
    ensures Trimmed(Trim(s))
    ensures exists i, j :: 0 <= i <= j <= |s| && Trim(s) == s[i..j]
              && (forall k :: 0 <= k < i ==> IsSpace(s[k])) && (forall k :: j <= k < |s| ==> IsSpace(s[k]))
    ensures Trimmed(s) ==> Trim(s) == s
  {
    TrimLeftSplits(s);
    var t := TrimLeft(s);
    TrimRightSplits(t);
    var i, j := |s| - |t|, |s| - |t| + |Trim(s)|;
    assert s[i..j] == t[..|Trim(s)|];
    assert forall k :: j <= k < |s| ==> s[k] == t[k - i];
  }

  function AddHeader(r: Request, line: string, colon: nat): Request
    requires colon < |line|
  {
    r.(headers := r.headers[line[..colon] := Trim(line[colon + 1..])])
  }

  // ---- the parser

  function ProcessRequestLine(r: Request, line: string): (bool, Request)
    requires r.verb.Invalid? || Find(line, ' ') == |line|
  {
    var space := Find(line, ' ');
    if space == |line| then (false, r) else
      var r1 := r.(verb := MethodOf(line[..space]));
      if r1.verb.Invalid? then (false, r1) else
        var rest := line[space + 1..];
        var end := Find(rest, ' ');
        if end == |rest| then (false, r1) else
          SetVersion(SetTarget(r1, rest[..end]), rest[end + 1..])
  }

  function SetVersion(r: Request, v: string): (bool, Request) {
    if |v| == 8 && v[..7] == "HTTP/1." && v[7] == '1' then (true, r.(version := Http11))
    else if |v| == 8 && v[..7] == "HTTP/1." && v[7] == '0' then (true, r.(version := Http10))
    else (false, r)
  }

  function SetTarget(r: Request, target: string): Request {
    var question := Find(target, '?');
    if question < |target| then r.(path := target[..question], query := target[question..])
    else r.(path := target)
  }

  /** What one complete line does: go on behind it, finish the request behind it, or reject it unread. */
  datatype Turn = More(ctx: Context) | Finished(ctx: Context) | Rejected(ctx: Context)

  function ReadLine(ctx: Context, line: string, time: int): (t: Turn)
    requires ctx.Accepts(line)
    ensures t.More? ==> t.ctx.Ready()
    ensures t.Finished? <==> t.ctx.state.GotAll?
    ensures t.Rejected? <==> t.ctx.state.ExpectRequestLine?
  {
    if ctx.state.ExpectRequestLine? then
      var (ok, r) := ProcessRequestLine(ctx.request, line);
      if ok then More(Context(ExpectHeaders, r.(receiveTime := time)))
      else Rejected(Context(ExpectRequestLine, r))
    else
      var colon := Find(line, ':');
      if colon < |line| then More(Context(ExpectHeaders, AddHeader(ctx.request, line, colon)))
      else Finished(Context(GotAll, ctx.request))
  }

  /** parseRequest; it spins on a finished request, so it must not be called with one. */
  function Parse(ctx: Context, s: string, time: int): (o: Outcome)
    requires !ctx.state.GotAll?
    ensures ctx.Ready() ==> o.Outcome? && (o.ok ==> o.ctx.Ready() || o.ctx.state.GotAll?)
    ensures o.Outcome? && !o.ok ==> o.ctx.state.ExpectRequestLine? && o.rest == s
    ensures o.Outcome? ==> |o.rest| <= |s| && o.rest == s[|s| - |o.rest|..]
    ensures o.Outcome? && o.ctx.state.GotAll? ==> o.ok && |o.rest| < |s|
    decreases |s|
  {
    match FindCrlf(s)
    case None => Outcome(true, ctx, s)
    case Some(i) =>
      var rest := s[i + 2..];
      if !ctx.Accepts(s[..i]) then Aborted else
      match ReadLine(ctx, s[..i], time)
      case More(c) => Parse(c, rest, time)
      case Finished(c) => Outcome(true, c, rest)
      case Rejected(c) => Outcome(false, c, s)
  }

  // ---- chunk invariance

  lemma FindCrlfExtends(a: string, b: string)
    requires FindCrlf(a).Some?
    ensures FindCrlf(a + b) == FindCrlf(a)
  {
    var i := FindCrlf(a).value;
    assert forall k :: 0 <= k <= i ==> (CrlfAt(a + b, k) <==> CrlfAt(a, k));
    FindCrlfIs(a + b, i);
  }

  lemma {:induction false} ParseSplit(ctx: Context, a: string, b: string, time: int)
    requires !ctx.state.GotAll?
    ensures var p := Parse(ctx, a, time);
      if p.Aborted? then Parse(ctx, a + b, time).Aborted?
      else if p.ok && !p.ctx.state.GotAll?
      then Parse(ctx, a + b, time) == Parse(p.ctx, p.rest + b, time)
      else Parse(ctx, a + b, time) == p.(rest := p.rest + b)
    decreases |a|
  {
    if FindCrlf(a).Some? {
      FindCrlfExtends(a, b);
      var i := FindCrlf(a).value;
      var line, rest := a[..i], a[i + 2..];
      assert (a + b)[..i] == line && (a + b)[i + 2..] == rest + b;
      if ctx.Accepts(line) && ReadLine(ctx, line, time).More? {
        ParseSplit(ReadLine(ctx, line, time).ctx, rest, b, time);
      }
    }
  }

  function Untimed(ctx: Context): Context {
    ctx.(request := ctx.request.(receiveTime := 0))
  }

  function UntimedOutcome(o: Outcome): Outcome {
    if o.Aborted? then o else o.(ctx := Untimed(o.ctx))
  }

  lemma ReadLineUntimed(c: Context, c': Context, line: string, t: int, t': int)
    requires c.Accepts(line) && c'.Accepts(line) && Untimed(c) == Untimed(c')
    ensures var u, u' := ReadLine(c, line, t), ReadLine(c', line, t');
      u.More? == u'.More? && u.Finished? == u'.Finished? && Untimed(u.ctx) == Untimed(u'.ctx)
  {
    assert c'.request == c.request.(receiveTime := c'.request.receiveTime);
  }

  lemma {:induction false} ParseUntimed(c: Context, c': Context, s: string, t: int, t': int)
    requires !c.state.GotAll? && !c'.state.GotAll? && Untimed(c) == Untimed(c')
    ensures UntimedOutcome(Parse(c, s, t)) == UntimedOutcome(Parse(c', s, t'))
    decreases |s|
  {
    if FindCrlf(s).Some? {
      var i := FindCrlf(s).value;
      assert c.Accepts(s[..i]) <==> c'.Accepts(s[..i]);
      if c.Accepts(s[..i]) {
        ReadLineUntimed(c, c', s[..i], t, t');
        var turn := ReadLine(c, s[..i], t);
        if turn.More? {
          ParseUntimed(turn.ctx, ReadLine(c', s[..i], t').ctx, s[i + 2..], t, t');
        }
      }
    }
  }

  /**
   Parsing a, then what is left of it with b appended, gives what parsing a + b at once gives:
   the same verdict, state, request (receive time aside) and unread bytes. A finished or
   rejected request in a is not disturbed by b, nor is an abort. The cut may fall anywhere, between
   CR and LF too.
   */
  lemma ChunkInvariance(ctx: Context, a: string, b: string, t1: int, t2: int, t: int)
    requires !ctx.state.GotAll?
    ensures var p := Parse(ctx, a, t1);
      UntimedOutcome(Parse(ctx, a + b, t)) ==
        if p.Aborted? then p
        else if p.ok && !p.ctx.state.GotAll? then UntimedOutcome(Parse(p.ctx, p.rest + b, t2))
        else UntimedOutcome(p.(rest := p.rest + b))
  {
    ParseSplit(ctx, a, b, t1);
    ParseUntimed(ctx, ctx, a + b, t, t1);
    var p := Parse(ctx, a, t1);
    if p.Outcome? && p.ok && !p.ctx.state.GotAll? {
      ParseUntimed(p.ctx, p.ctx, p.rest + b, t1, t2);
    }
  }
}
