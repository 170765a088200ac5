/**
 A client that reads responses as sections 4 to 7 of RFC 9112 ask: status line, field lines, and a
 body whose end depends on the method of the request, the status code and the framing fields.
 */
module HttpClient {
  import opened Wrappers
  import opened Bytes
  import opened HttpParse
  import opened HttpRoundTrip
  import opened HttpPersistence

  datatype Received = Received(status: string, fields: seq<Field>, body: string)

  // ---- the head

  function FieldOf(line: string): Option<Field> {
    var colon := Find(line, ':');
    if colon == |line| then None else Some(Field(line[..colon], Trim(line[colon + 1..])))
  }

  /** Field lines up to the empty line; a line without a colon is no field line. */
  function ReadFields(s: string): (r: Option<(seq<Field>, string)>)
    ensures r.Some? ==> |r.value.1| < |s|
    decreases |s|
  {
    match FindCrlf(s)
    case None => None
    case Some(i) =>
      if s[..i] == "" then Some(([], s[i + 2..]))
      else if FieldOf(s[..i]).None? then None
      else
        match ReadFields(s[i + 2..])
        case None => None
        case Some((fs, rest)) => Some(([FieldOf(s[..i]).value] + fs, rest))
  }

  const VERSION_SP := "HTTP/1.1 "

  predicate IsDigit(c: char) { '0' <= c <= '9' }

  /** A status code is three digits between single spaces. */
  function StatusCode(line: string): Option<int> {
    if |line| >= 13 && line[..9] == VERSION_SP && IsDigit(line[9]) && IsDigit(line[10]) && IsDigit(line[11]) && line[12] == ' '
    then Some(NumberOf(line[9..12]))
    else None
  }

  datatype ResponseHead = ResponseHead(status: string, code: int, fields: seq<Field>, rest: string)

  function HeadOf(line: string, fs: seq<Field>, rest: string): (r: Option<ResponseHead>)
    ensures r.Some? ==> r.value.rest == rest
  {
    match StatusCode(line)
    case None => None
    case Some(code) => Some(ResponseHead(line, code, fs, rest))
  }

  function ReadHead(s: string): (r: Option<ResponseHead>)
    ensures r.Some? ==> |r.value.rest| < |s|
  {
    match FindCrlf(s)
    case None => None
    case Some(i) =>
      match ReadFields(s[i + 2..])
      case None => None
      case Some((fs, rest)) => HeadOf(s[..i], fs, rest)
  }

  // ---- framing fields

  /** The elements of all fields of a name, whatever its letters; several lines make one list. */
  function ValuesOf(fs: seq<Field>, name: string): seq<string> {
    if fs == [] then []
    else (if Lower(fs[0].name) == name then Elements(fs[0].value) else []) + ValuesOf(fs[1..], name)
  }

  predicate IsNumber(s: string) { s != "" && forall i :: 0 <= i < |s| ==> IsDigit(s[i]) }

  /** All of them say n. */
  predicate AllSay(vs: seq<string>, n: int) { forall i :: 0 <= i < |vs| ==> IsNumber(vs[i]) && NumberOf(vs[i]) == n }

  /** The one length that all Content-Length values agree on, if they do. */
  function LengthOf(vs: seq<string>): Option<int> {
    if vs != [] && AllSay(vs, NumberOf(vs[0])) then Some(NumberOf(vs[0])) else None
  }

  const LENGTH_NAME := "content-length"
  const ENCODING_NAME := "transfer-encoding"

  // ---- chunked bodies

  function HexDigit(c: char): Option<nat> {
    if '0' <= c <= '9' then Some((c - '0') as nat)
    else if 'a' <= c <= 'f' then Some((c - 'a') as nat + 10)
    else if 'A' <= c <= 'F' then Some((c - 'A') as nat + 10)
    else None
  }

  /** The size in front of a chunk, after the digits already read. */
  function HexOf(s: string, sofar: nat): Option<nat>
    decreases |s|
  {
    if s == "" then Some(sofar)
    else
      match HexDigit(s[0])
      case None => None
      case Some(d) => HexOf(s[1..], 16 * sofar + d)
  }

  function ChunkSize(line: string): Option<nat> {
    var digits := Trim(line[..Find(line, ';')]);
    if digits == "" then None else HexOf(digits, 0)
  }

  /** The data of a chunk and what follows its CR LF. */
  function TakeChunk(text: string, n: nat): Option<(string, string)> {
    if n + 2 <= |text| && CrlfAt(text, n) then Some((text[..n], text[n + 2..])) else None
  }

  /** Chunks up to the last one, and the trailer behind it. */
  function Chunks(s: string): (r: Option<(string, string)>)
    ensures r.Some? ==> |r.value.0| + |r.value.1| < |s|
    decreases |s|
  {
    match FindCrlf(s)
    case None => None
    case Some(i) =>
      var text := s[i + 2..];
      match ChunkSize(s[..i])
      case None => None
      case Some(n) =>
        if n == 0 then
          match ReadFields(text)
          case None => None
          case Some((_, rest)) => Some(("", rest))
        else
          match TakeChunk(text, n)
          case None => None
          case Some((data, more)) =>
            match Chunks(more)
            case None => None
            case Some((body, rest)) => Some((data + body, rest))
  }

  // ---- the whole response

  /** A response to HEAD, and one with status 204 or 304, ends with its head. */
  predicate NoBody(m: Method, code: int) { m.Head? || code == 204 || code == 304 }

  /** A body without a length ends with the connection, so that its end is not seen while that is open. */
  function TakeBody(m: Method, code: int, fs: seq<Field>, text: string): (r: Option<(string, string)>)
    ensures r.Some? ==> |r.value.1| <= |text|
  {
    var encodings := ValuesOf(fs, ENCODING_NAME);
    if NoBody(m, code) then Some(("", text))
    else if encodings != [] then
      if Lower(encodings[|encodings| - 1]) == "chunked" then Chunks(text) else None
    else
      match LengthOf(ValuesOf(fs, LENGTH_NAME))
      case None => None
      case Some(n) => if 0 <= n <= |text| then Some((text[..n], text[n..])) else None
  }

  /** The response to a request of method m; interim responses in front of it are skipped. */
  function ReadResponse(m: Method, s: string): (r: Option<(Received, string)>)
    ensures r.Some? ==> |r.value.1| < |s|
    decreases |s|
  {
    match ReadHead(s)
    case None => None
    case Some(ResponseHead(status, code, fs, text)) =>
      if code < 200 then ReadResponse(m, text)
      else
        match TakeBody(m, code, fs, text)
        case None => None
        case Some((body, rest)) => Some((Received(status, fs, body), rest))
  }

  /** The responses to requests of the given methods, in order. */
  function ReadAll(ms: seq<Method>, s: string): seq<Received>
    decreases |ms|
  {
    if ms == [] then []
    else
      match ReadResponse(ms[0], s)
      case None => []
      case Some((r, rest)) => [r] + ReadAll(ms[1..], rest)
  }

  // ---- more bytes do not change what was read

  lemma LineExtends(a: string, b: string)
    requires FindCrlf(a).Some?
    ensures FindCrlf(a + b) == FindCrlf(a)
    ensures var i := FindCrlf(a).value; (a + b)[..i] == a[..i] && (a + b)[i + 2..] == a[i + 2..] + b
  {
    FindCrlfExtends(a, b);
  }

  lemma {:induction false} FieldsExtend(a: string, b: string)
    requires ReadFields(a).Some?
    ensures ReadFields(a + b) == Some((ReadFields(a).value.0, ReadFields(a).value.1 + b))
    decreases |a|
  {
    LineExtends(a, b);
    var i := FindCrlf(a).value;
    if a[..i] != "" {
      FieldsExtend(a[i + 2..], b);
    }
  }

  lemma TakeChunkExtends(text: string, n: nat, b: string)
    requires TakeChunk(text, n).Some?
    ensures TakeChunk(text + b, n) == Some((TakeChunk(text, n).value.0, TakeChunk(text, n).value.1 + b))
  {
    assert (text + b)[..n] == text[..n] && (text + b)[n + 2..] == text[n + 2..] + b;
  }

  lemma {:induction false} ChunksExtend(a: string, b: string)
    requires Chunks(a).Some?
    ensures Chunks(a + b) == Some((Chunks(a).value.0, Chunks(a).value.1 + b))
    decreases |a|
  {
    LineExtends(a, b);
    var i := FindCrlf(a).value;
    var text, n := a[i + 2..], ChunkSize(a[..i]).value;
    if n == 0 {
      FieldsExtend(text, b);
    } else {
      TakeChunkExtends(text, n, b);
      ChunksExtend(TakeChunk(text, n).value.1, b);
    }
  }

  lemma HeadOfExtends(line: string, fs: seq<Field>, rest: string, b: string)
    requires HeadOf(line, fs, rest).Some?
    ensures HeadOf(line, fs, rest + b) == Some(HeadOf(line, fs, rest).value.(rest := rest + b))
  {
  }

  lemma HeadInParts(s: string, i: nat, line: string, fs: seq<Field>, rest: string)
    requires FindCrlf(s) == Some(i) && s[..i] == line && ReadFields(s[i + 2..]) == Some((fs, rest))
    ensures ReadHead(s) == HeadOf(line, fs, rest)
  {
  }

  /** What a complete head consists of. */
  lemma HeadParts(s: string) returns (i: nat, line: string, fs: seq<Field>, rest: string)
    requires ReadHead(s).Some?
    ensures FindCrlf(s) == Some(i) && s[..i] == line && ReadFields(s[i + 2..]) == Some((fs, rest))
    ensures ReadHead(s) == HeadOf(line, fs, rest)
  {
    i := FindCrlf(s).value;
    line := s[..i];
    fs, rest := ReadFields(s[i + 2..]).value.0, ReadFields(s[i + 2..]).value.1;
    HeadInParts(s, i, line, fs, rest);
  }

  lemma HeadExtends(a: string, b: string)
    requires ReadHead(a).Some?
    ensures ReadHead(a + b) == Some(ReadHead(a).value.(rest := ReadHead(a).value.rest + b))
  {
    var i, line, fs, rest := HeadParts(a);
    LineExtends(a, b);
    FieldsExtend(a[i + 2..], b);
    HeadInParts(a + b, i, line, fs, rest + b);
    HeadOfExtends(line, fs, rest, b);
  }

  lemma BodyExtends(m: Method, code: int, fs: seq<Field>, a: string, b: string)
    requires TakeBody(m, code, fs, a).Some?
    ensures TakeBody(m, code, fs, a + b) == Some((TakeBody(m, code, fs, a).value.0, TakeBody(m, code, fs, a).value.1 + b))
  {
    if !NoBody(m, code) {
      if ValuesOf(fs, ENCODING_NAME) != [] {
        ChunksExtend(a, b);
      } else {
        var n := LengthOf(ValuesOf(fs, LENGTH_NAME)).value;
        assert (a + b)[..n] == a[..n] && (a + b)[n..] == a[n..] + b;
      }
    }
  }

  lemma {:induction false} ResponseExtends(m: Method, a: string, b: string)
    requires ReadResponse(m, a).Some?
    ensures ReadResponse(m, a + b) == Some((ReadResponse(m, a).value.0, ReadResponse(m, a).value.1 + b))
    decreases |a|
  {
    HeadExtends(a, b);
    var ResponseHead(status, code, fs, text) := ReadHead(a).value;
    if code < 200 {
      ResponseExtends(m, text, b);
    } else {
      BodyExtends(m, code, fs, text, b);
    }
  }

  /** A client that has received only part of a text has read the first of its responses. */
  lemma {:induction false} PrefixReadsPrefix(ms: seq<Method>, a: string, b: string)
    ensures ReadAll(ms, a) <= ReadAll(ms, a + b)
    decreases |ms|
  {
    if ms != [] && ReadResponse(ms[0], a).Some? {
      ResponseExtends(ms[0], a, b);
      PrefixReadsPrefix(ms[1..], ReadResponse(ms[0], a).value.1, b);
    }
  }
}
