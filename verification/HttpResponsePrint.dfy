/** What HttpResponse::appendToBuffer prints, and what the header parser makes of it. */
module HttpResponsePrint {
  import opened Wrappers
  import opened Bytes
  import opened HttpParse
  import opened HttpRoundTrip

  datatype Response = Response(statusCode: nat, statusMessage: string, closeConnection: bool,
                               headers: map<string, string>, body: string)

  /** snprintf into char[32]: at most 31 bytes survive. */
  function Snprintf32(s: string): string {
    if |s| < 32 then s else s[..31]
  }

  function StatusLine(r: Response): string {
    Snprintf32("HTTP/1.1 " + Decimal(r.statusCode) + " ") + r.statusMessage
  }

  const CONTENT_LENGTH := "Content-Length"
  const CONNECTION := "Connection"
  const CLOSE_LINE := "Connection: close\r\n"
  const KEEP_ALIVE_LINE := "Connection: Keep-Alive\r\n"

  function LengthLine(n: nat): string { "Content-Length: " + Decimal(n) + "\r\n" }

  function OwnFields(r: Response): string {
    if r.closeConnection then CLOSE_LINE
    else Snprintf32(LengthLine(|r.body|)) + KEEP_ALIVE_LINE
  }

  /** The headers in some order of iteration. */
  ghost predicate Enumerates(fs: seq<Field>, headers: map<string, string>) {
    && (forall i, j :: 0 <= i < j < |fs| ==> fs[i].name != fs[j].name)
    && (forall f :: f in fs ==> f.name in headers && headers[f.name] == f.value)
    && (forall k :: k in headers ==> Field(k, headers[k]) in fs)
  }

  function Print(r: Response, fs: seq<Field>): string {
    StatusLine(r) + CRLF + (OwnFields(r) + PrintFields(fs) + CRLF + r.body)
  }

  /** The fields the response means to announce: its own, overridden by headers_. */
  function Announced(r: Response): map<string, string> {
    (if r.closeConnection then map[CONNECTION := "close"]
     else map[CONTENT_LENGTH := Decimal(|r.body|), CONNECTION := "Keep-Alive"]) + r.headers
  }

  // ---- what the header state reads back

  lemma EnumeratesTail(fs: seq<Field>, headers: map<string, string>)
    requires fs != [] && Enumerates(fs, headers)
    ensures Enumerates(fs[1..], headers - {fs[0].name})
    ensures fs[0].name in headers && headers[fs[0].name] == fs[0].value
  {
    var tail, rest := fs[1..], headers - {fs[0].name};
    assert fs[0] in fs;
    forall f | f in tail ensures f.name in rest && rest[f.name] == f.value {
      var i :| 0 <= i < |tail| && tail[i] == f;
      assert f == fs[i + 1] && f in fs && fs[0].name != fs[i + 1].name;
    }
    forall k | k in rest ensures Field(k, rest[k]) in tail {
      assert Field(k, headers[k]) in fs;
    }
  }

  lemma {:induction false} StoreIsMerge(base: map<string, string>, fs: seq<Field>, headers: map<string, string>)
    requires Enumerates(fs, headers)
    ensures Store(base, fs) == base + headers
    decreases |fs|
  {
    if fs == [] {
      assert headers == map[];
    } else {
      EnumeratesTail(fs, headers);
      StoreIsMerge(base[fs[0].name := fs[0].value], fs[1..], headers - {fs[0].name});
      MergeOne(base, headers, fs[0].name);
    }
  }

  lemma MergeOne(base: map<string, string>, headers: map<string, string>, name: string)
    requires name in headers
    ensures base[name := headers[name]] + (headers - {name}) == base + headers
  {
  }

  lemma DigitsAreTrimmed(n: nat)
    ensures Trimmed(Decimal(n)) && !HasCrlf(Decimal(n))
  {
    var d := Decimal(n);
    assert forall i :: 0 <= i < |d| ==> '0' <= d[i] <= '9';
  }

  /** Well-formed own fields, then headers_, then the empty line, then the body. */
  lemma PrintedFieldsAreRead(own: seq<Field>, fs: seq<Field>, headers: map<string, string>, body: string, time: int)
    requires FieldsWellFormed(own) && FieldsWellFormed(fs) && Enumerates(fs, headers)
    ensures Parse(Context(ExpectHeaders, FRESH), PrintFields(own) + PrintFields(fs) + CRLF + body, time)
         == Outcome(true, Context(GotAll, FRESH.(headers := Store(map[], own) + headers)), body)
  {
    PrintAppend(own, fs);
    StoreAppend(map[], own, fs);
    StoreIsMerge(Store(map[], own), fs, headers);
    assert forall f :: f in own + fs ==> f in own || f in fs;
    FieldsRoundTrip(FRESH, own + fs, body, time);
  }

  lemma {:induction false} PrintAppend(a: seq<Field>, b: seq<Field>)
    ensures PrintFields(a + b) == PrintFields(a) + PrintFields(b)
  {
    if a == [] {
      assert a + b == b;
    } else {
      assert (a + b)[1..] == a[1..] + b;
      PrintAppend(a[1..], b);
    }
  }

  lemma {:induction false} StoreAppend(base: map<string, string>, a: seq<Field>, b: seq<Field>)
    ensures Store(base, a + b) == Store(Store(base, a), b)
    decreases |a|
  {
    if a == [] {
      assert a + b == b;
    } else {
      assert (a + b)[1..] == a[1..] + b;
      StoreAppend(base[a[0].name := a[0].value], a[1..], b);
    }
  }

  const CLOSE := Field(CONNECTION, "close")
  const KEEP_ALIVE := Field(CONNECTION, "Keep-Alive")

  lemma ConnectionFieldsAreWellFormed()
    ensures FieldWellFormed(CLOSE) && PrintFields([CLOSE]) == CLOSE_LINE
    ensures FieldWellFormed(KEEP_ALIVE)
  {
    var n, c, k := CLOSE.name, CLOSE.value, KEEP_ALIVE.value;
    assert forall i :: 0 <= i < |n| ==> n[i] != ':' && n[i] != '\r';
    assert forall i :: 0 <= i < |c| ==> c[i] != '\r';
    assert forall i :: 0 <= i < |k| ==> k[i] != '\r';
    assert [CLOSE][1..] == [];
  }

  function LengthField(n: nat): Field { Field(CONTENT_LENGTH, Decimal(n)) }

  lemma OwnFieldsPrinted(n: nat)
    ensures FieldWellFormed(LengthField(n))
    ensures PrintFields([LengthField(n), KEEP_ALIVE]) == LengthLine(n) + KEEP_ALIVE_LINE
  {
    DigitsAreTrimmed(n);
    var name := LengthField(n).name;
    assert forall i :: 0 <= i < |name| ==> name[i] != ':' && name[i] != '\r';
    assert [LengthField(n), KEEP_ALIVE][1..] == [KEEP_ALIVE] && [KEEP_ALIVE][1..] == [];
    assert PrintFields([KEEP_ALIVE]) == KEEP_ALIVE_LINE;
  }

  /** The length fits into the 32-byte scratch array. */
  predicate LengthFits(n: nat) { |Decimal(n)| <= 13 }

  const MAX_BODY: nat := 10_000_000_000_000

  /** The length line fits exactly for bodies below ten thousand billion bytes. */
  lemma LengthFitsBelow(n: nat)
    ensures LengthFits(n) <==> n < MAX_BODY
  {
    assert Power10(6) == 1_000_000;
    assert Power10(12) == 1_000_000 * Power10(6);
    DecimalLength(n, 13, Power10(13));
  }

  lemma StoreTwo(base: map<string, string>, f: Field, g: Field)
    ensures Store(base, [f]) == base[f.name := f.value]
    ensures Store(base, [f, g]) == base[f.name := f.value][g.name := g.value]
  {
    var base1 := base[f.name := f.value];
    assert [f][1..] == [] && [f, g][1..] == [g] && [g][1..] == [];
    assert Store(base1, [g]) == Store(base1[g.name := g.value], []);
  }

  lemma FittingFieldsRoundTrip(r: Response, fs: seq<Field>, time: int)
    requires Enumerates(fs, r.headers) && FieldsWellFormed(fs)
    requires r.closeConnection || LengthFits(|r.body|)
    ensures Parse(Context(ExpectHeaders, FRESH), OwnFields(r) + PrintFields(fs) + CRLF + r.body, time)
         == Outcome(true, Context(GotAll, FRESH.(headers := Announced(r))), r.body)
  {
    ConnectionFieldsAreWellFormed();
    var len := LengthField(|r.body|);
    StoreTwo(map[], CLOSE, CLOSE);
    StoreTwo(map[], len, KEEP_ALIVE);
    if r.closeConnection {
      PrintedFieldsAreRead([CLOSE], fs, r.headers, r.body, time);
    } else {
      OwnFieldsPrinted(|r.body|);
      PrintedFieldsAreRead([len, KEEP_ALIVE], fs, r.headers, r.body, time);
    }
  }

  /** What a body of at least 10^13 bytes leaves as the value of Content-Length. */
  function GarbledLength(n: nat): string
    requires !LengthFits(n)
  {
    (Decimal(n) + "\r\n")[..15] + "Connection: Keep-Alive"
  }

  lemma CutLength(n: nat)
    requires !LengthFits(n)
    ensures var cut := (Decimal(n) + "\r\n")[..15];
      && '0' <= cut[0] <= '9' && (forall i :: 0 <= i < 15 ==> cut[i] != '\n')
      && Snprintf32(LengthLine(n)) == "Content-Length: " + cut
  {
    var d := Decimal(n);
    var cut := (d + "\r\n")[..15];
    assert forall i :: 0 <= i < 14 ==> cut[i] == d[i];
    assert cut[14] == if |d| == 14 then '\r' else d[14];
  }

  lemma GarbledFieldIsWellFormed(n: nat)
    requires !LengthFits(n)
    ensures FieldWellFormed(Field(CONTENT_LENGTH, GarbledLength(n)))
    ensures GarbledLength(n) != Decimal(n)
  {
    CutLength(n);
    var cut, tail, name := (Decimal(n) + "\r\n")[..15], "Connection: Keep-Alive", CONTENT_LENGTH;
    assert forall i :: 0 <= i < |tail| ==> tail[i] != '\r';
    assert forall i :: 0 <= i < |cut| ==> !CrlfAt(cut, i);
    NoCrlfAcross(cut, tail);
    assert forall i :: 0 <= i < |name| ==> name[i] != ':' && name[i] != '\r';
    var g := GarbledLength(n);
    assert g == cut + tail && g[0] == cut[0] && g[15] == 'C' && |g| == 37 && g[36] == 'e';
  }

  lemma GarbledFieldIsPrinted(n: nat)
    requires !LengthFits(n)
    ensures PrintFields([Field(CONTENT_LENGTH, GarbledLength(n))]) == Snprintf32(LengthLine(n)) + KEEP_ALIVE_LINE
  {
    var f := Field(CONTENT_LENGTH, GarbledLength(n));
    var cut := (Decimal(n) + "\r\n")[..15];
    CutLength(n);
    assert [f][1..] == [];
    assert PrintFields([f]) == CONTENT_LENGTH + ": " + (cut + "Connection: Keep-Alive") + CRLF;
    assert "Content-Length: " == CONTENT_LENGTH + ": ";
    assert KEEP_ALIVE_LINE == "Connection: Keep-Alive" + CRLF;
  }

  /** The headers a cut length line leaves. */
  function Garbled(r: Response): map<string, string>
    requires !LengthFits(|r.body|)
  {
    map[CONTENT_LENGTH := GarbledLength(|r.body|)] + r.headers
  }

  lemma GarbledFieldsAreRead(r: Response, fs: seq<Field>, time: int)
    requires Enumerates(fs, r.headers) && FieldsWellFormed(fs)
    requires !r.closeConnection && !LengthFits(|r.body|)
    ensures Parse(Context(ExpectHeaders, FRESH), OwnFields(r) + PrintFields(fs) + CRLF + r.body, time)
         == Outcome(true, Context(GotAll, FRESH.(headers := Garbled(r))), r.body)
  {
    var f := Field(CONTENT_LENGTH, GarbledLength(|r.body|));
    GarbledFieldIsWellFormed(|r.body|);
    GarbledFieldIsPrinted(|r.body|);
    StoreTwo(map[], f, f);
    PrintedFieldsAreRead([f], fs, r.headers, r.body, time);
  }

  lemma GarbledIsAnnouncedIff(r: Response)
    requires !r.closeConnection && !LengthFits(|r.body|)
    ensures Garbled(r) == Announced(r) <==> CONTENT_LENGTH in r.headers && CONNECTION in r.headers
  {
    assert |CONTENT_LENGTH| == 14 && |CONNECTION| == 10;
    GarbledFieldIsWellFormed(|r.body|);
    if CONNECTION !in r.headers {
      assert CONNECTION !in Garbled(r) && CONNECTION in Announced(r);
    } else if CONTENT_LENGTH !in r.headers {
      assert Garbled(r)[CONTENT_LENGTH] != Announced(r)[CONTENT_LENGTH];
    }
  }

  /**
   The printed fields, parsed by the header state, are exactly the announced ones and leave
   exactly the body unread, if and only if the body is short enough for its length
   line to fit the 32-byte array, or headers_ overrides both fields a cut length line destroys.
   */
  lemma ResponseFieldsRoundTrip(r: Response, fs: seq<Field>, time: int)
    requires Enumerates(fs, r.headers) && FieldsWellFormed(fs)
    ensures Parse(Context(ExpectHeaders, FRESH), OwnFields(r) + PrintFields(fs) + CRLF + r.body, time)
              == Outcome(true, Context(GotAll, FRESH.(headers := Announced(r))), r.body)
       <==> r.closeConnection || |r.body| < MAX_BODY || (CONTENT_LENGTH in r.headers && CONNECTION in r.headers)
  {
    LengthFitsBelow(|r.body|);
    if r.closeConnection || LengthFits(|r.body|) {
      FittingFieldsRoundTrip(r, fs, time);
    } else {
      GarbledFieldsAreRead(r, fs, time);
      GarbledIsAnnouncedIff(r);
    }
  }

  /** A body on which the promise fails: the announced length is not what a client reads. */
  lemma HugeBodyGarblesItsLength(time: int)
    ensures var r := Response(200, "OK", false, map[], seq(MAX_BODY, _ => 'x'));
      Parse(Context(ExpectHeaders, FRESH), OwnFields(r) + PrintFields([]) + CRLF + r.body, time)
        != Outcome(true, Context(GotAll, FRESH.(headers := Announced(r))), r.body)
  {
    ResponseFieldsRoundTrip(Response(200, "OK", false, map[], seq(MAX_BODY, _ => 'x')), [], time);
  }

  lemma StatusLineHasNoCrlf(r: Response)
    requires !HasCrlf(r.statusMessage)
    ensures !HasCrlf(StatusLine(r))
  {
    var d := Decimal(r.statusCode);
    var scratch := "HTTP/1.1 " + d + " ";
    var h := "HTTP/1.1 ";
    assert forall i :: 0 <= i < |h| ==> h[i] != '\r';
    assert forall i :: 0 <= i < |scratch| ==> scratch[i] != '\r';
    var p := Snprintf32(scratch);
    assert forall i :: 0 <= i < |p| ==> p[i] == scratch[i];
    NoCrlfAcross(p, r.statusMessage);
  }

  /** The status line ends at the first CRLF, so the field lines are what follows it. */
  lemma StatusLineIsOneLine(r: Response, fs: seq<Field>)
    requires !HasCrlf(r.statusMessage)
    ensures FindCrlf(Print(r, fs)) == Some(|StatusLine(r)|)
    ensures Print(r, fs)[|StatusLine(r)| + 2..] == OwnFields(r) + PrintFields(fs) + CRLF + r.body
  {
    StatusLineHasNoCrlf(r);
    LineIsFound(StatusLine(r), OwnFields(r) + PrintFields(fs) + CRLF + r.body);
  }
}
