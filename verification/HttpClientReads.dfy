/** What a client reads from the responses that appendToBuffer prints, one by one and over a whole connection. */
module HttpClientReads {
  import opened Wrappers
  import opened Seqs
  import opened Bytes
  import opened HttpParse
  import opened HttpRoundTrip
  import opened HttpResponsePrint
  import opened HttpPersistence
  import opened HttpClient

  // ---- field lines

  lemma SpaceIsTrimmed(v: string)
    requires Trimmed(v)
    ensures Trim(" " + v) == v
  {
    assert (" " + v)[1..] == v;
    assert TrimLeft(" " + v) == TrimLeft(v);
    TrimCutsExactlyTheSpace(v);
  }

  lemma FieldLineIsRead(f: Field)
    requires FieldWellFormed(f)
    ensures FieldLine(f) != "" && !HasCrlf(FieldLine(f)) && FieldOf(FieldLine(f)) == Some(f)
  {
    var line := FieldLine(f);
    NoCrlfAcross(f.name, ": ");
    NoCrlfAcross(f.name + ": ", f.value);
    assert line[..|f.name|] == f.name;
    FindIs(line, ':', |f.name|);
    assert line[|f.name| + 1..] == " " + f.value;
    SpaceIsTrimmed(f.value);
  }

  lemma OneFieldMore(line: string, f: Field, tail: string, fs: seq<Field>, rest: string)
    requires line != "" && !HasCrlf(line) && FieldOf(line) == Some(f) && ReadFields(tail) == Some((fs, rest))
    ensures ReadFields(line + CRLF + tail) == Some(([f] + fs, rest))
  {
    LineIsFound(line, tail);
  }

  /** Printed field lines are read back, all of them and in order. */
  lemma {:induction false} FieldsAreRead(fs: seq<Field>, rest: string)
    requires FieldsWellFormed(fs)
    ensures ReadFields(PrintFields(fs) + CRLF + rest) == Some((fs, rest))
    decreases |fs|
  {
    if fs == [] {
      NoFieldIsRead(rest);
    } else {
      FieldsAreRead(fs[1..], rest);
      FieldLineIsRead(fs[0]);
      PrintedTail(fs, rest);
      OneFieldMore(FieldLine(fs[0]), fs[0], PrintFields(fs[1..]) + CRLF + rest, fs[1..], rest);
      FirstAndRest(fs);
    }
  }

  lemma NoFieldIsRead(rest: string)
    ensures ReadFields(PrintFields([]) + CRLF + rest) == Some(([], rest))
  {
    LineIsFound("", rest);
  }

  lemma PrintedTail(fs: seq<Field>, rest: string)
    requires fs != []
    ensures PrintFields(fs) + CRLF + rest == FieldLine(fs[0]) + CRLF + (PrintFields(fs[1..]) + CRLF + rest)
  {
  }

  // ---- the status line

  lemma DigitCount(n: nat)
    ensures |Decimal(n)| == 3 <==> 100 <= n <= 999
    ensures |Decimal(n)| < 3 <==> n < 100
  {
    assert Power10(3) == 1000 && Power10(2) == 100;
    DecimalLength(n, 3, Power10(3));
    DecimalLength(n, 2, Power10(2));
  }

  /** The status line of a code with digits d. */
  function Status(d: string, message: string): string { Snprintf32(VERSION_SP + d + " ") + message }

  lemma StatusOfThree(d: string, message: string)
    requires |d| == 3 && forall i :: 0 <= i < |d| ==> IsDigit(d[i])
    ensures StatusCode(Status(d, message)) == Some(NumberOf(d))
    ensures Status(d, message)[..13] == VERSION_SP + d + " " && Status(d, message)[13..] == message
  {
    var line := Status(d, message);
    assert |VERSION_SP + d + " "| == 13;
    assert line[..9] == VERSION_SP && line[9..12] == d && line[12] == ' ';
    assert line[9] == d[0] && line[10] == d[1] && line[11] == d[2];
  }

  lemma StatusOfFewer(d: string, message: string)
    requires |d| < 3
    ensures StatusCode(Status(d, message)).None?
  {
    var line := Status(d, message);
    assert line[9 + |d|] == ' ';
  }

  lemma StatusOfMore(d: string, message: string)
    requires |d| > 3 && forall i :: 0 <= i < |d| ==> IsDigit(d[i])
    ensures StatusCode(Status(d, message)).None?
  {
    var line := Status(d, message);
    assert line[12] == d[3];
  }

  /** The printed status code is read back exactly when it has three digits, with the message behind it as the reason phrase. */
  lemma StatusIsRead(r: Response)
    ensures 100 <= r.statusCode <= 999 ==>
      |StatusLine(r)| >= 13 && StatusLine(r)[..13] == VERSION_SP + Decimal(r.statusCode) + " " && StatusLine(r)[13..] == r.statusMessage
    ensures StatusCode(StatusLine(r)) == if 100 <= r.statusCode <= 999 then Some(r.statusCode) else None
  {
    var d := Decimal(r.statusCode);
    DigitCount(r.statusCode);
    DecimalReadsBack(r.statusCode);
    assert StatusLine(r) == Status(d, r.statusMessage);
    if |d| == 3 {
      StatusOfThree(d, r.statusMessage);
    } else if |d| < 3 {
      StatusOfFewer(d, r.statusMessage);
    } else {
      StatusOfMore(d, r.statusMessage);
    }
  }

  // ---- the head

  /** The response's own fields as they arrive: a length line that is cut takes the next one with it. */
  function OwnList(r: Response): seq<Field> {
    if r.closeConnection then [CLOSE]
    else if LengthFits(|r.body|) then [LengthField(|r.body|), KEEP_ALIVE]
    else [Field(CONTENT_LENGTH, GarbledLength(|r.body|))]
  }

  lemma OwnListIsPrinted(r: Response)
    ensures PrintFields(OwnList(r)) == OwnFields(r) && FieldsWellFormed(OwnList(r))
  {
    ConnectionFieldsAreWellFormed();
    if !r.closeConnection {
      if LengthFits(|r.body|) {
        OwnFieldsPrinted(|r.body|);
      } else {
        GarbledFieldIsPrinted(|r.body|);
        GarbledFieldIsWellFormed(|r.body|);
      }
    }
  }

  lemma FieldPartIsRead(r: Response, fs: seq<Field>, rest: string)
    requires FieldsWellFormed(fs)
    ensures ReadFields(OwnFields(r) + PrintFields(fs) + CRLF + rest) == Some((OwnList(r) + fs, rest))
  {
    OwnListIsPrinted(r);
    PrintAppend(OwnList(r), fs);
    assert forall f :: f in OwnList(r) + fs ==> f in OwnList(r) || f in fs;
    FieldsAreRead(OwnList(r) + fs, rest);
  }

  lemma PrintInParts(r: Response, fs: seq<Field>, rest: string)
    requires !HasCrlf(r.statusMessage)
    ensures var s, i := Print(r, fs) + rest, |StatusLine(r)|;
      && FindCrlf(s) == Some(i) && s[..i] == StatusLine(r)
      && s[i + 2..] == OwnFields(r) + PrintFields(fs) + CRLF + (r.body + rest)
  {
    StatusLineHasNoCrlf(r);
    TextInParts(StatusLine(r), OwnFields(r) + PrintFields(fs) + CRLF, r.body, rest);
  }

  lemma TextInParts(line: string, head: string, body: string, rest: string)
    requires !HasCrlf(line)
    ensures var s := line + CRLF + (head + body) + rest;
      FindCrlf(s) == Some(|line|) && s[..|line|] == line && s[|line| + 2..] == head + (body + rest)
  {
    assert line + CRLF + (head + body) + rest == line + CRLF + (head + (body + rest));
    LineIsFound(line, head + (body + rest));
  }

  lemma HeadIsRead(r: Response, fs: seq<Field>, rest: string)
    requires FieldsWellFormed(fs) && !HasCrlf(r.statusMessage)
    ensures ReadHead(Print(r, fs) + rest) ==
      if 100 <= r.statusCode <= 999 then Some(ResponseHead(StatusLine(r), r.statusCode, OwnList(r) + fs, r.body + rest)) else None
  {
    PrintInParts(r, fs, rest);
    FieldPartIsRead(r, fs, r.body + rest);
    HeadInParts(Print(r, fs) + rest, |StatusLine(r)|, StatusLine(r), OwnList(r) + fs, r.body + rest);
    StatusIsRead(r);
  }

  // ---- the body

  lemma {:induction false} ValuesAppend(a: seq<Field>, b: seq<Field>, name: string)
    ensures ValuesOf(a + b, name) == ValuesOf(a, name) + ValuesOf(b, name)
  {
    if a == [] {
      assert a + b == b;
    } else {
      assert (a + b)[1..] == a[1..] + b;
      ValuesAppend(a[1..], b, name);
    }
  }

  lemma AllSayAppend(a: seq<string>, b: seq<string>, n: int)
    ensures AllSay(a + b, n) <==> AllSay(a, n) && AllSay(b, n)
  {
    assert forall i :: 0 <= i < |a| ==> (a + b)[i] == a[i];
    assert forall i :: 0 <= i < |b| ==> (a + b)[|a| + i] == b[i];
    if AllSay(a + b, n) {
      forall i | 0 <= i < |b| ensures IsNumber(b[i]) && NumberOf(b[i]) == n { assert b[i] == (a + b)[|a| + i]; }
    }
  }

  lemma OneValue(f: Field, name: string)
    requires Elements(f.value) == [f.value]
    ensures ValuesOf([f], name) == if Lower(f.name) == name then [f.value] else []
  {
    assert [f][1..] == [];
  }

  lemma OtherValue(f: Field, name: string)
    requires Lower(f.name) != name
    ensures ValuesOf([f], name) == []
  {
    assert [f][1..] == [];
  }

  lemma FramingWords()
    ensures Lower(CONTENT_LENGTH) == LENGTH_NAME && Lower(CONNECTION) != LENGTH_NAME && Lower(CONNECTION) != ENCODING_NAME
    ensures Lower(CONTENT_LENGTH) != ENCODING_NAME
  {
    assert |CONTENT_LENGTH| == 14 && |CONNECTION| == 10 && |LENGTH_NAME| == 14 && |ENCODING_NAME| == 17;
  }

  lemma NumeralIsOneElement(n: nat)
    ensures Elements(Decimal(n)) == [Decimal(n)] && IsNumber(Decimal(n)) && NumberOf(Decimal(n)) == n
  {
    WordIsOneElement(Decimal(n));
    DecimalReadsBack(n);
  }

  /** What the response's own fields say of the length; nothing of the encoding. */
  lemma OwnFraming(r: Response)
    ensures ValuesOf(OwnList(r), ENCODING_NAME) == []
    ensures var own := ValuesOf(OwnList(r), LENGTH_NAME);
      if r.closeConnection then own == []
      else if LengthFits(|r.body|) then own == [Decimal(|r.body|)]
      else own != [] && !AllSay(own, |r.body|)
  {
    FramingWords();
    NumeralIsOneElement(|r.body|);
    OtherValue(CLOSE, LENGTH_NAME);
    OtherValue(CLOSE, ENCODING_NAME);
    if !r.closeConnection {
      if LengthFits(|r.body|) {
        LengthAndKeepAlive(|r.body|);
      } else {
        GarbledValue(|r.body|);
        assert ValuesOf(OwnList(r), LENGTH_NAME)[0] == GarbledLength(|r.body|);
      }
    }
  }

  lemma LengthAndKeepAlive(n: nat)
    ensures var own := [LengthField(n), KEEP_ALIVE];
      ValuesOf(own, ENCODING_NAME) == [] && ValuesOf(own, LENGTH_NAME) == [Decimal(n)]
  {
    var f := LengthField(n);
    FramingWords();
    NumeralIsOneElement(n);
    OneValue(f, LENGTH_NAME);
    OtherValue(f, ENCODING_NAME);
    OtherValue(KEEP_ALIVE, LENGTH_NAME);
    OtherValue(KEEP_ALIVE, ENCODING_NAME);
    ValuesAppend([f], [KEEP_ALIVE], LENGTH_NAME);
    ValuesAppend([f], [KEEP_ALIVE], ENCODING_NAME);
    assert [f] + [KEEP_ALIVE] == [f, KEEP_ALIVE];
  }

  lemma NoCommaIsOneElement(v: string)
    requires Trimmed(v) && forall i :: 0 <= i < |v| ==> v[i] != ','
    ensures Elements(v) == [v]
  {
    assert v[..|v|] == v;
    FindIs(v, ',', |v|);
    TrimCutsExactlyTheSpace(v);
  }

  lemma GarbledText(n: nat)
    requires !LengthFits(n)
    ensures var g := GarbledLength(n); Trimmed(g) && !IsNumber(g) && forall i :: 0 <= i < |g| ==> g[i] != ','
  {
    GarbledFieldIsWellFormed(n);
    var d, tail, g := Decimal(n), "Connection: Keep-Alive", GarbledLength(n);
    var cut := (d + "\r\n")[..15];
    assert forall i :: 0 <= i < |tail| ==> tail[i] != ',';
    assert forall i :: 0 <= i < |cut| ==> cut[i] != ',';
    assert g == cut + tail && g[15] == 'C';
  }

  lemma GarbledValue(n: nat)
    requires !LengthFits(n)
    ensures var own := [Field(CONTENT_LENGTH, GarbledLength(n))];
      ValuesOf(own, ENCODING_NAME) == [] && ValuesOf(own, LENGTH_NAME) == [GarbledLength(n)] && !IsNumber(GarbledLength(n))
  {
    var f := Field(CONTENT_LENGTH, GarbledLength(n));
    FramingWords();
    GarbledText(n);
    NoCommaIsOneElement(f.value);
    OneValue(f, LENGTH_NAME);
    OtherValue(f, ENCODING_NAME);
  }

  // ---- when a response is read back

  /** A response and the order in which headers_ is iterated. */
  datatype Printed = Printed(response: Response, order: seq<Field>)

  /** What the response means to say, and says unless its length line is cut. */
  function Seen(p: Printed): Received {
    var r := p.response;
    Received(StatusLine(r), (if r.closeConnection then [CLOSE] else [LengthField(|r.body|), KEEP_ALIVE]) + p.order, r.body)
  }

  /**
   What a sender can check of a reply to a request of method m: a final status code of three
   digits; no length that is cut; no body where none is allowed, and otherwise no transfer encoding
   and no length in headers_ but the true one, which a closing response has to state itself.
   */
  predicate Delimited(m: Method, p: Printed) {
    var r, lengths := p.response, ValuesOf(p.order, LENGTH_NAME);
    && 200 <= r.statusCode <= 999
    && (r.closeConnection || |r.body| < MAX_BODY)
    && if NoBody(m, r.statusCode) then r.body == ""
       else ValuesOf(p.order, ENCODING_NAME) == [] && AllSay(lengths, |r.body|) && (r.closeConnection ==> lengths != [])
  }

  lemma LengthIff(vs: seq<string>, n: int)
    ensures LengthOf(vs) == Some(n) <==> vs != [] && AllSay(vs, n)
  {
    if vs != [] && AllSay(vs, n) {
      assert NumberOf(vs[0]) == n;
    }
  }

  /** The lengths the client sees agree on the body's size exactly when the sender's check holds. */
  lemma LengthsAgreeIff(p: Printed)
    ensures var r := p.response;
      LengthOf(ValuesOf(OwnList(r) + p.order, LENGTH_NAME)) == Some(|r.body|) <==>
        && (r.closeConnection || LengthFits(|r.body|))
        && AllSay(ValuesOf(p.order, LENGTH_NAME), |r.body|)
        && (r.closeConnection ==> ValuesOf(p.order, LENGTH_NAME) != [])
  {
    var r := p.response;
    var own, others := ValuesOf(OwnList(r), LENGTH_NAME), ValuesOf(p.order, LENGTH_NAME);
    ValuesAppend(OwnList(r), p.order, LENGTH_NAME);
    OwnFraming(r);
    NumeralIsOneElement(|r.body|);
    AllSayAppend(own, others, |r.body|);
    LengthIff(own + others, |r.body|);
  }

  lemma FrontIsTaken(body: string, rest: string, n: int)
    requires 0 <= n <= |body + rest|
    ensures ((body + rest)[..n], (body + rest)[n..]) == (body, rest) <==> n == |body|
  {
    if n == |body| {
      assert (body + rest)[..n] == body && (body + rest)[n..] == rest;
    }
  }

  /** The body is taken exactly when the framing the client sees is the true one. */
  lemma BodyIsTakenIff(m: Method, code: int, fs: seq<Field>, body: string, rest: string)
    ensures TakeBody(m, code, fs, body + rest) == Some((body, rest)) <==>
      if NoBody(m, code) then body == ""
      else ValuesOf(fs, ENCODING_NAME) == [] && LengthOf(ValuesOf(fs, LENGTH_NAME)) == Some(|body|)
  {
    if NoBody(m, code) {
      assert body == "" ==> body + rest == rest;
    } else if ValuesOf(fs, ENCODING_NAME) == [] {
      var length := LengthOf(ValuesOf(fs, LENGTH_NAME));
      if length.Some? && 0 <= length.value <= |body + rest| {
        FrontIsTaken(body, rest, length.value);
      }
    }
  }

  /** What is returned is a final response. */
  lemma {:induction false} ReadIsFinal(m: Method, s: string)
    ensures ReadResponse(m, s).Some? ==> IsFinal(ReadResponse(m, s).value.0.status)
    decreases |s|
  {
    if ReadHead(s).Some? {
      var head := ReadHead(s).value;
      if head.code < 200 {
        ReadIsFinal(m, head.rest);
      } else {
        var i, line, fs, rest := HeadParts(s);
      }
    }
  }

  predicate IsFinal(status: string) { StatusCode(status).Some? && StatusCode(status).value >= 200 }

  lemma FinalHeadIsRead(m: Method, s: string, h: ResponseHead)
    requires ReadHead(s) == Some(h) && h.code >= 200
    ensures ReadResponse(m, s) ==
      match TakeBody(m, h.code, h.fields, h.rest)
      case None => None
      case Some((body, rest)) => Some((Received(h.status, h.fields, body), rest))
  {
  }

  lemma InterimIsSkipped(m: Method, p: Printed, rest: string)
    requires FieldsWellFormed(p.order) && !HasCrlf(p.response.statusMessage) && 100 <= p.response.statusCode < 200
    ensures ReadResponse(m, Print(p.response, p.order) + rest) == ReadResponse(m, p.response.body + rest)
    ensures ReadResponse(m, Print(p.response, p.order) + rest) != Some((Seen(p), rest))
  {
    HeadIsRead(p.response, p.order, rest);
    StatusIsRead(p.response);
    ReadIsFinal(m, p.response.body + rest);
  }

  /** The fields that arrive are those meant exactly when the length line is not cut. */
  lemma OwnListIsMeantIff(p: Printed)
    ensures OwnList(p.response) + p.order == Seen(p).fields <==> p.response.closeConnection || LengthFits(|p.response.body|)
  {
    if !p.response.closeConnection && !LengthFits(|p.response.body|) {
      assert |OwnList(p.response) + p.order| != |Seen(p).fields|;
    }
  }

  lemma FinalIsReadIff(m: Method, p: Printed, rest: string)
    requires FieldsWellFormed(p.order) && !HasCrlf(p.response.statusMessage) && 200 <= p.response.statusCode <= 999
    ensures ReadResponse(m, Print(p.response, p.order) + rest) == Some((Seen(p), rest)) <==> Delimited(m, p)
  {
    var r := p.response;
    HeadIsRead(r, p.order, rest);
    FinalHeadIsRead(m, Print(r, p.order) + rest, ResponseHead(StatusLine(r), r.statusCode, OwnList(r) + p.order, r.body + rest));
    BodyIsTakenIff(m, r.statusCode, OwnList(r) + p.order, r.body, rest);
    OwnListIsMeantIff(p);
    LengthsAgreeIff(p);
    LengthFitsBelow(|r.body|);
    OwnFraming(r);
    ValuesAppend(OwnList(r), p.order, ENCODING_NAME);
  }

  /**
   For every text behind it, a printed response is read back by the client, status line, fields,
   body and not a byte more, if and only if it is delimited for the method it answers.
   */
  lemma ResponseIsReadIff(m: Method, p: Printed, rest: string)
    requires FieldsWellFormed(p.order) && !HasCrlf(p.response.statusMessage)
    ensures ReadResponse(m, Print(p.response, p.order) + rest) == Some((Seen(p), rest)) <==> Delimited(m, p)
  {
    if 200 <= p.response.statusCode <= 999 {
      FinalIsReadIff(m, p, rest);
    } else if 100 <= p.response.statusCode < 200 {
      InterimIsSkipped(m, p, rest);
    } else {
      HeadIsRead(p.response, p.order, rest);
    }
  }

  // ---- responses that are not

  /** The body of a reply to HEAD is left on the wire: the client takes it for the next status line. */
  lemma HeadBodyIsLeft(p: Printed, rest: string)
    requires FieldsWellFormed(p.order) && !HasCrlf(p.response.statusMessage) && 200 <= p.response.statusCode <= 999
    ensures ReadResponse(Head, Print(p.response, p.order) + rest)
         == Some((Received(StatusLine(p.response), OwnList(p.response) + p.order, ""), p.response.body + rest))
  {
    var r := p.response;
    HeadIsRead(r, p.order, rest);
    FinalHeadIsRead(Head, Print(r, p.order) + rest, ResponseHead(StatusLine(r), r.statusCode, OwnList(r) + p.order, r.body + rest));
  }

  /** A length in headers_ that contradicts the printed one, in whatever letters, stops the client. */
  lemma OtherLengthStopsTheClient(m: Method, p: Printed, rest: string)
    requires FieldsWellFormed(p.order) && !HasCrlf(p.response.statusMessage) && 200 <= p.response.statusCode <= 999
    requires !NoBody(m, p.response.statusCode) && !p.response.closeConnection && |p.response.body| < MAX_BODY
    requires ValuesOf(p.order, ENCODING_NAME) == [] && !AllSay(ValuesOf(p.order, LENGTH_NAME), |p.response.body|)
    ensures ReadResponse(m, Print(p.response, p.order) + rest) == None
  {
    var r := p.response;
    HeadIsRead(r, p.order, rest);
    FinalHeadIsRead(m, Print(r, p.order) + rest, ResponseHead(StatusLine(r), r.statusCode, OwnList(r) + p.order, r.body + rest));
    LengthFitsBelow(|r.body|);
    OwnFraming(r);
    NumeralIsOneElement(|r.body|);
    ValuesAppend(OwnList(r), p.order, ENCODING_NAME);
    ValuesAppend(OwnList(r), p.order, LENGTH_NAME);
    AllSayAppend([Decimal(|r.body|)], ValuesOf(p.order, LENGTH_NAME), |r.body|);
    assert ValuesOf(OwnList(r) + p.order, LENGTH_NAME)[0] == Decimal(|r.body|);
  }

  /** Behind a closing response without a length everything that follows is read as more of its body. */
  lemma ClosingResponseSwallowsTheRest(r: Response, fs: seq<Field>, t: string)
    requires r.closeConnection
    ensures Print(r, fs) + t == Print(r.(body := r.body + t), fs)
  {
    var own, printed := OwnFields(r), PrintFields(fs);
    assert StatusLine(r) + CRLF + (own + printed + CRLF + r.body) + t == StatusLine(r) + CRLF + (own + printed + CRLF + (r.body + t));
  }
}
