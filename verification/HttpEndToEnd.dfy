/** A whole HTTP connection from the client's requests to what the client reads. */
module HttpEndToEnd {
  import opened Wrappers
  import opened Seqs
  import opened Bytes
  import opened HttpParse
  import opened HttpRoundTrip
  import opened HttpResponsePrint
  import opened HttpClient
  import opened HttpClientReads
  import Output = OutputSteps
  import Session = HttpSessionRuns
  import Wire = HttpWire

  /** The user's callback, with the order in which the response's headers are printed. */
  type Responder = Request -> Printed

  function Answered(p: Printed): Wire.Reply {
    Wire.Reply(Print(p.response, p.order), p.response.closeConnection)
  }

  function HandlerOf(respond: Responder): Wire.Handler {
    (r: Request) => Answered(respond(r))
  }

  function TextOf(respond: Responder): Request -> string {
    (r: Request) => Answered(respond(r)).text
  }

  function Each<A, B>(f: A -> B, xs: seq<A>): seq<B> {
    seq(|xs|, i requires 0 <= i < |xs| => f(xs[i]))
  }

  function Texts(respond: Responder, rs: seq<Request>): seq<string> { Each(TextOf(respond), rs) }

  lemma EachSplits<A, B>(f: A -> B, xs: seq<A>, i: nat)
    requires i <= |xs|
    ensures Each(f, xs) == Each(f, xs[..i]) + Each(f, xs[i..]) && Each(f, xs)[..i] == Each(f, xs[..i])
  {
  }

  lemma EachTail<A, B>(f: A -> B, xs: seq<A>, i: nat)
    requires i < |xs|
    ensures var ys := Each(f, xs[i..]); ys != [] && ys[0] == f(xs[i]) && ys[1..] == Each(f, xs[i + 1..])
  {
  }

  function Verbs(rs: seq<Request>): seq<Method> {
    seq(|rs|, i requires 0 <= i < |rs| => rs[i].verb)
  }

  function SeenAll(respond: Responder, rs: seq<Request>): seq<Received> {
    seq(|rs|, i requires 0 <= i < |rs| => Seen(respond(rs[i])))
  }

  /** What a refused client reads: the status line of a 400, and no field. */
  lemma BadRequestIsRead(line: string, t: string)
    requires line == "HTTP/1.1 400 Bad Request"
    ensures ReadHead(Wire.BAD_REQUEST + t) == Some(ResponseHead(line, 400, [], t))
  {
    assert Wire.BAD_REQUEST == line + CRLF + CRLF;
    assert forall i :: 0 <= i < |line| ==> line[i] != '\r';
    assert Wire.BAD_REQUEST + t == line + CRLF + (CRLF + t);
    LineIsFound(line, CRLF + t);
    NoFieldIsRead(t);
    assert PrintFields([]) + CRLF + t == CRLF + t;
    FourHundred(line);
    HeadInParts(Wire.BAD_REQUEST + t, |line|, line, [], t);
  }

  lemma FourHundred(line: string)
    requires line == "HTTP/1.1 400 Bad Request"
    ensures StatusCode(line) == Some(400)
  {
    var d := line[9..12];
    assert d == "400" && line[..9] == VERSION_SP;
    assert d[..2] == "40" && d[..2][..1] == "4" && d[..2][..1][..0] == "";
    assert NumberOf(d[..2][..1]) == 4;
    assert NumberOf(d[..2]) == 40;
  }

  // ---- what is left when some replies are lost

  function Surviving<T>(xs: seq<T>, lost: seq<bool>): (ys: seq<T>)
    requires |lost| == |xs|
    ensures forall y :: y in ys ==> y in xs
  {
    if xs == [] then [] else
      var n := |xs| - 1;
      Surviving(xs[..n], lost[..n]) + if lost[n] then [] else [xs[n]]
  }

  lemma {:induction false} NoneLostAllSurvive<T>(xs: seq<T>, lost: seq<bool>)
    requires |lost| == |xs| && true !in lost
    ensures Surviving(xs, lost) == xs
  {
    if xs != [] {
      var n := |xs| - 1;
      assert lost[n] == false;
      NoneLostAllSurvive(xs[..n], lost[..n]);
      assert xs[..n] + [xs[n]] == xs;
    }
  }

  lemma {:induction false} DeliveredIs(replies: seq<string>, lost: seq<bool>)
    requires |lost| == |replies|
    ensures Wire.Delivered(replies, lost) == Concat(Surviving(replies, lost))
  {
    if replies != [] {
      var n := |replies| - 1;
      DeliveredIs(replies[..n], lost[..n]);
      var last := if lost[n] then [] else [replies[n]];
      ConcatAppend(Surviving(replies[..n], lost[..n]), last);
      ConcatOne(replies[n]);
    }
  }

  lemma {:induction false} SurvivingAppend<T>(a: seq<T>, b: seq<T>, lost: seq<bool>)
    requires |lost| == |a| + |b|
    ensures Surviving(a + b, lost) == Surviving(a, lost[..|a|]) + Surviving(b, lost[|a|..])
    decreases |b|
  {
    if b == [] {
      assert a + b == a && lost[..|a|] == lost;
    } else {
      var n := |b| - 1;
      SurvivingAppend(a, b[..n], lost[..|a| + n]);
      assert (a + b)[..|a| + n] == a + b[..n];
      assert lost[..|a| + n][..|a|] == lost[..|a|] && lost[..|a| + n][|a|..] == lost[|a|..][..n];
    }
  }

  lemma {:induction false} SurvivingTexts(respond: Responder, rs: seq<Request>, lost: seq<bool>)
    requires |lost| == |rs|
    ensures Surviving(Texts(respond, rs), lost) == Texts(respond, Surviving(rs, lost))
  {
    if rs != [] {
      var n := |rs| - 1;
      SurvivingTexts(respond, rs[..n], lost[..n]);
      EachSplits(TextOf(respond), rs, n);
    }
  }

  function Refusals(n: nat): seq<string> { seq(n, _ => Wire.BAD_REQUEST) }

  lemma {:induction false} RepliesAre(respond: Responder, rs: seq<Request>, rejected: nat)
    ensures Wire.Replies(HandlerOf(respond), rs, rejected) == Texts(respond, rs) + Refusals(rejected)
    decreases |rs|, rejected
  {
    if rejected > 0 {
      RepliesAre(respond, rs, rejected - 1);
      OneMoreRefusal(Texts(respond, rs), rejected);
    } else if rs != [] {
      RepliesAre(respond, rs[..|rs| - 1], 0);
      OneMoreText(respond, rs);
    }
  }

  lemma OneMoreRefusal(texts: seq<string>, n: nat)
    requires n > 0
    ensures texts + Refusals(n - 1) + [Wire.BAD_REQUEST] == texts + Refusals(n)
  {
    assert Refusals(n) == Refusals(n - 1) + [Wire.BAD_REQUEST];
  }

  lemma OneMoreText(respond: Responder, rs: seq<Request>)
    requires rs != []
    ensures var n := |rs| - 1;
      Texts(respond, rs[..n]) + Refusals(0) + [HandlerOf(respond)(rs[n]).text] == Texts(respond, rs) + Refusals(0)
  {
    var n := |rs| - 1;
    PushLast(Texts(respond, rs), Texts(respond, rs[..n]), HandlerOf(respond)(rs[n]).text);
  }

  lemma PushLast(xs: seq<string>, ys: seq<string>, x: string)
    requires |xs| == |ys| + 1 && xs[|ys|] == x && forall i :: 0 <= i < |ys| ==> xs[i] == ys[i]
    ensures ys + Refusals(0) + [x] == xs + Refusals(0)
  {
  }

  /** The wire is the surviving responses, and then the surviving refusals. */
  lemma WireIs(respond: Responder, rs: seq<Request>, rejected: nat, lost: seq<bool>)
    requires |lost| == |rs| + rejected
    ensures var replies := Wire.Replies(HandlerOf(respond), rs, rejected);
      && |replies| == |lost|
      && Wire.Delivered(replies, lost)
           == Concat(Texts(respond, Surviving(rs, lost[..|rs|]))) + Concat(Surviving(Refusals(rejected), lost[|rs|..]))
  {
    var texts, refusals := Texts(respond, rs), Refusals(rejected);
    RepliesAre(respond, rs, rejected);
    DeliveredIs(texts + refusals, lost);
    SurvivingAppend(texts, refusals, lost);
    SurvivingTexts(respond, rs, lost[..|rs|]);
    ConcatAppend(Surviving(texts, lost[..|rs|]), Surviving(refusals, lost[|rs|..]));
  }

  // ---- reading in step

  /** The wire from the i-th reply on. */
  function From(respond: Responder, rs: seq<Request>, wire: string, i: nat): string
    requires i <= |rs|
  {
    var n := |Concat(Texts(respond, rs[..i]))|;
    if n <= |wire| then wire[n..] else ""
  }

  /** The client, at the first byte of a reply, reads exactly that reply. */
  ghost predicate InStepAt(respond: Responder, rs: seq<Request>, wire: string, i: nat)
    requires i < |rs|
  {
    ReadResponse(rs[i].verb, From(respond, rs, wire, i)) == Some((Seen(respond(rs[i])), From(respond, rs, wire, i + 1)))
  }

  ghost predicate InStep(respond: Responder, rs: seq<Request>, wire: string) {
    forall i :: 0 <= i < |rs| ==> InStepAt(respond, rs, wire, i)
  }

  ghost predicate AllDelimited(respond: Responder, rs: seq<Request>) {
    forall i :: 0 <= i < |rs| ==> Delimited(rs[i].verb, respond(rs[i]))
  }

  ghost predicate Printable(p: Printed) {
    FieldsWellFormed(p.order) && !HasCrlf(p.response.statusMessage)
  }

  lemma TextsSplit(respond: Responder, rs: seq<Request>, i: nat)
    requires i <= |rs|
    ensures Concat(Texts(respond, rs)) == Concat(Texts(respond, rs[..i])) + Concat(Texts(respond, rs[i..]))
  {
    EachSplits(TextOf(respond), rs, i);
    ConcatAppend(Texts(respond, rs[..i]), Texts(respond, rs[i..]));
  }

  lemma FromIs(respond: Responder, rs: seq<Request>, tail: string, i: nat)
    requires i <= |rs|
    ensures From(respond, rs, Concat(Texts(respond, rs)) + tail, i) == Concat(Texts(respond, rs[i..])) + tail
  {
    TextsSplit(respond, rs, i);
    CutInFront(Concat(Texts(respond, rs[..i])), Concat(Texts(respond, rs[i..])), tail);
  }

  lemma CutInFront(a: string, b: string, c: string)
    ensures |a| <= |a + b + c| && (a + b + c)[|a|..] == b + c
  {
  }

  lemma NextText(respond: Responder, rs: seq<Request>, i: nat, tail: string)
    requires i < |rs|
    ensures Concat(Texts(respond, rs[i..])) + tail == Answered(respond(rs[i])).text + (Concat(Texts(respond, rs[i + 1..])) + tail)
  {
    TextsTail(respond, rs, i);
    FirstText(Texts(respond, rs[i..]), tail);
  }

  lemma TextsTail(respond: Responder, rs: seq<Request>, i: nat)
    requires i < |rs|
    ensures var texts := Texts(respond, rs[i..]);
      texts != [] && texts[0] == Answered(respond(rs[i])).text && texts[1..] == Texts(respond, rs[i + 1..])
  {
    EachTail(TextOf(respond), rs, i);
  }

  lemma FirstText(texts: seq<string>, tail: string)
    requires texts != []
    ensures Concat(texts) + tail == texts[0] + (Concat(texts[1..]) + tail)
  {
  }

  lemma InStepAtIff(respond: Responder, rs: seq<Request>, tail: string, i: nat)
    requires i < |rs| && Printable(respond(rs[i]))
    ensures InStepAt(respond, rs, Concat(Texts(respond, rs)) + tail, i) <==> Delimited(rs[i].verb, respond(rs[i]))
  {
    FromIs(respond, rs, tail, i);
    FromIs(respond, rs, tail, i + 1);
    NextText(respond, rs, i, tail);
    ResponseIsReadIff(rs[i].verb, respond(rs[i]), Concat(Texts(respond, rs[i + 1..])) + tail);
  }

  /** The client stays in step over the whole wire if and only if every reply on it is delimited for its request. */
  lemma InStepIff(respond: Responder, rs: seq<Request>, tail: string)
    requires forall r :: r in rs ==> Printable(respond(r))
    ensures InStep(respond, rs, Concat(Texts(respond, rs)) + tail) <==> AllDelimited(respond, rs)
  {
    forall i | 0 <= i < |rs|
      ensures InStepAt(respond, rs, Concat(Texts(respond, rs)) + tail, i) <==> Delimited(rs[i].verb, respond(rs[i]))
    {
      InStepAtIff(respond, rs, tail, i);
    }
  }

  lemma {:induction false} InStepReadsAll(respond: Responder, rs: seq<Request>, wire: string, i: nat)
    requires i <= |rs| && InStep(respond, rs, wire)
    ensures ReadAll(Verbs(rs)[i..], From(respond, rs, wire, i)) == SeenAll(respond, rs)[i..]
    decreases |rs| - i
  {
    if i < |rs| {
      InStepReadsAll(respond, rs, wire, i + 1);
      assert InStepAt(respond, rs, wire, i);
      OneMoreRead(Verbs(rs), i, From(respond, rs, wire, i), SeenAll(respond, rs), From(respond, rs, wire, i + 1));
    }
  }

  lemma OneMoreRead(ms: seq<Method>, i: nat, s: string, seen: seq<Received>, rest: string)
    requires i < |ms| == |seen| && ReadResponse(ms[i], s) == Some((seen[i], rest)) && ReadAll(ms[i + 1..], rest) == seen[i + 1..]
    ensures ReadAll(ms[i..], s) == seen[i..]
  {
    SliceStep(ms, i);
    SliceStep(seen, i);
    FirstIsRead(ms[i..], s, seen[i], rest);
  }

  lemma FirstIsRead(ms: seq<Method>, s: string, one: Received, rest: string)
    requires ms != [] && ReadResponse(ms[0], s) == Some((one, rest))
    ensures ReadAll(ms, s) == [one] + ReadAll(ms[1..], rest)
  {
  }

  lemma WholeWire(respond: Responder, rs: seq<Request>, wire: string)
    requires InStep(respond, rs, wire)
    ensures ReadAll(Verbs(rs), wire) == SeenAll(respond, rs)
  {
    InStepReadsAll(respond, rs, wire, 0);
    assert rs[..0] == [] && Texts(respond, []) == [];
    assert Verbs(rs)[0..] == Verbs(rs) && SeenAll(respond, rs)[0..] == SeenAll(respond, rs);
  }

  /** The dispatched requests whose replies were not lost. */
  function KeptRequests(c: Wire.Conn): seq<Request>
    requires |c.session.dispatched| <= |c.lost|
  {
    Surviving(c.session.dispatched, c.lost[..|c.session.dispatched|])
  }

  lemma WireOfRun(respond: Responder, config: Output.Config, evs: seq<Wire.Event>) returns (tail: string)
    ensures var c := Wire.Run(HandlerOf(respond), config, evs);
      && |c.lost| == |c.session.dispatched| + c.session.rejected
      && c.out.kernel + c.out.buffer == Concat(Texts(respond, KeptRequests(c))) + tail
  {
    var c := Wire.Run(HandlerOf(respond), config, evs);
    var rs, rejected := c.session.dispatched, c.session.rejected;
    Wire.WireCarriesReplies(HandlerOf(respond), config, evs);
    RepliesAre(respond, rs, rejected);
    WireIs(respond, rs, rejected, c.lost);
    tail := Concat(Surviving(Refusals(rejected), c.lost[|rs|..]));
  }

  /**
   From end to end, for every cutting of the client's bytes, every callback and every kernel: the
   client reads exactly the replies that were not lost, each from its first byte to its last, if
   and only if each of them is delimited for the request it answers. It then reads them all in
   order, and from a part of the wire the first of them. No reply is lost unless write() reports a
   broken connection.
   */
  lemma ClientReadsResponses(respond: Responder, config: Output.Config, evs: seq<Wire.Event>)
    requires forall r :: r in Session.Run(Wire.Arrived(evs)).dispatched ==> Printable(respond(r))
    ensures var c := Wire.Run(HandlerOf(respond), config, evs);
      && c.session == Session.Run(Wire.Arrived(evs)) && |c.session.dispatched| <= |c.lost|
      && var kept, wire := KeptRequests(c), c.out.kernel + c.out.buffer;
      && (InStep(respond, kept, wire) <==> AllDelimited(respond, kept))
      && (AllDelimited(respond, kept) ==>
            && ReadAll(Verbs(kept), wire) == SeenAll(respond, kept)
            && ReadAll(Verbs(kept), c.out.kernel) <= SeenAll(respond, kept))
      && ((forall ev :: ev in evs ==> !ev.result.Broken?) ==> kept == c.session.dispatched)
  {
    var c := Wire.Run(HandlerOf(respond), config, evs);
    var tail := WireOfRun(respond, config, evs);
    Wire.RunFollowsSession(HandlerOf(respond), config, evs);
    var kept, wire := KeptRequests(c), c.out.kernel + c.out.buffer;
    InStepIff(respond, kept, tail);
    if AllDelimited(respond, kept) {
      WholeWire(respond, kept, wire);
      PrefixReadsPrefix(Verbs(kept), c.out.kernel, c.out.buffer);
    }
    if forall ev :: ev in evs ==> !ev.result.Broken? {
      Wire.NothingLostUnbroken(HandlerOf(respond), config, evs);
      NoneLostAllSurvive(c.session.dispatched, c.lost[..|c.session.dispatched|]);
    }
  }
}
