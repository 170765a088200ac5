/** What is printed as sections 3 and 5 of RFC 9112 ask is parsed back unchanged. */
module HttpRoundTrip {
  import opened Wrappers
  import opened Bytes
  import opened HttpParse

  datatype Field = Field(name: string, value: string)

  predicate FieldWellFormed(f: Field) {
    ':' !in f.name && !HasCrlf(f.name) && !HasCrlf(f.value) && Trimmed(f.value)
  }

  ghost predicate FieldsWellFormed(fs: seq<Field>) {
    forall f :: f in fs ==> FieldWellFormed(f)
  }

  function PrintFields(fs: seq<Field>): string {
    if fs == [] then "" else fs[0].name + ": " + fs[0].value + CRLF + PrintFields(fs[1..])
  }

  /** Stores the fields one after the other; a later one wins. */
  function Store(headers: map<string, string>, fs: seq<Field>): map<string, string>
    decreases |fs|
  {
    if fs == [] then headers else Store(headers[fs[0].name := fs[0].value], fs[1..])
  }

  function VersionString(v: Version): string {
    if v.Http11? then "HTTP/1.1" else "HTTP/1.0"
  }

  function RequestLine(r: Request): string {
    MethodString(r.verb) + " " + (r.path + r.query + " " + VersionString(r.version))
  }

  function PrintRequest(r: Request, fs: seq<Field>): string {
    RequestLine(r) + CRLF + PrintFields(fs) + CRLF
  }

  /** A request as RFC 9112 writes it; a path or query that holds a lone CR or LF is allowed too. */
  ghost predicate RequestWellFormed(r: Request, fs: seq<Field>) {
    && !r.verb.Invalid? && !r.version.Unknown?
    && ' ' !in r.path && '?' !in r.path && !HasCrlf(r.path)
    && (r.query == "" || r.query[0] == '?') && ' ' !in r.query && !HasCrlf(r.query)
    && FieldsWellFormed(fs) && r.headers == Store(map[], fs)
  }

  // ---- lines

  lemma NoCrlfAcross(a: string, b: string)
    requires !HasCrlf(a) && !HasCrlf(b)
    requires a == "" || b == "" || a[|a| - 1] != '\r' || b[0] != '\n'
    ensures !HasCrlf(a + b)
  {
    forall i | 0 <= i < |a + b| ensures !CrlfAt(a + b, i) {
      assert i + 1 < |a| ==> !CrlfAt(a, i);
      assert |a| <= i ==> !CrlfAt(b, i - |a|);
    }
  }

  lemma LineIsFound(line: string, rest: string)
    requires !HasCrlf(line)
    ensures var s := line + CRLF + rest;
      FindCrlf(s) == Some(|line|) && s[..|line|] == line && s[|line| + 2..] == rest
  {
    var s := line + CRLF + rest;
    forall k | 0 <= k < |line| ensures !CrlfAt(s, k) {
      assert !CrlfAt(line, k);
    }
    FindCrlfIs(s, |line|);
  }

  /** One complete line of input is one turn of the parser. */
  lemma ParseLine(ctx: Context, line: string, rest: string, time: int)
    requires ctx.Ready() && !HasCrlf(line)
    ensures var t := ReadLine(ctx, line, time);
      Parse(ctx, line + CRLF + rest, time) ==
        if t.More? then Parse(t.ctx, rest, time)
        else if t.Finished? then Outcome(true, t.ctx, rest)
        else Outcome(false, t.ctx, line + CRLF + rest)
  {
    LineIsFound(line, rest);
  }

  function FieldLine(f: Field): string { f.name + ": " + f.value }

  lemma FieldLineIsRead(r: Request, f: Field, time: int)
    requires FieldWellFormed(f)
    ensures !HasCrlf(FieldLine(f))
    ensures ReadLine(Context(ExpectHeaders, r), FieldLine(f), time)
         == More(Context(ExpectHeaders, r.(headers := r.headers[f.name := f.value])))
  {
    var line := FieldLine(f);
    NoCrlfAcross(f.name, ": ");
    NoCrlfAcross(f.name + ": ", f.value);
    assert line[..|f.name|] == f.name;
    FindIs(line, ':', |f.name|);
    assert line[|f.name| + 1..] == " " + f.value;
    assert (" " + f.value)[1..] == f.value;
    assert TrimLeft(" " + f.value) == TrimLeft(f.value);
    TrimCutsExactlyTheSpace(f.value);
  }

  /** The header state reads back every printed field and stops behind the empty line. */
  lemma {:induction false} FieldsRoundTrip(r: Request, fs: seq<Field>, rest: string, time: int)
    requires FieldsWellFormed(fs)
    ensures Parse(Context(ExpectHeaders, r), PrintFields(fs) + CRLF + rest, time)
         == Outcome(true, Context(GotAll, r.(headers := Store(r.headers, fs))), rest)
    decreases |fs|
  {
    var ctx := Context(ExpectHeaders, r);
    if fs == [] {
      assert PrintFields(fs) + CRLF + rest == "" + CRLF + rest;
      ParseLine(ctx, "", rest, time);
    } else {
      var tail := PrintFields(fs[1..]) + CRLF + rest;
      FieldLineIsRead(r, fs[0], time);
      assert PrintFields(fs) + CRLF + rest == FieldLine(fs[0]) + CRLF + tail;
      ParseLine(ctx, FieldLine(fs[0]), tail, time);
      FieldsRoundTrip(r.(headers := r.headers[fs[0].name := fs[0].value]), fs[1..], rest, time);
    }
  }

  lemma TargetRoundTrip(r: Request, path: string, query: string)
    requires '?' !in path && (query == "" || query[0] == '?') && r.query == ""
    ensures SetTarget(r, path + query) == r.(path := path, query := query)
  {
    var target := path + query;
    assert target[..|path|] == path && target[|path|..] == query;
    FindIs(target, '?', |path|);
  }

  lemma SplitsAtSpace(a: string, b: string)
    requires ' ' !in a
    ensures var s := a + " " + b; Find(s, ' ') == |a| && s[..|a|] == a && s[|a| + 1..] == b
  {
    var s := a + " " + b;
    assert s[..|a|] == a && s[|a| + 1..] == b;
    FindIs(s, ' ', |a|);
  }

  lemma MethodRoundTrip(m: Method)
    requires !m.Invalid?
    ensures MethodOf(MethodString(m)) == m && ' ' !in MethodString(m) && !HasCrlf(MethodString(m))
  {
    var s := MethodString(m);
    assert forall i :: 0 <= i < |s| ==> s[i] != ' ' && s[i] != '\r';
  }

  lemma RequestLineSplits(m: string, target: string, v: string)
    requires ' ' !in m && ' ' !in target && !MethodOf(m).Invalid?
    ensures ProcessRequestLine(FRESH, m + " " + (target + " " + v))
         == SetVersion(SetTarget(FRESH.(verb := MethodOf(m)), target), v)
  {
    SplitsAtSpace(m, target + " " + v);
    SplitsAtSpace(target, v);
  }

  lemma VersionRoundTrip(r: Request, version: Version)
    requires !version.Unknown?
    ensures SetVersion(r, VersionString(version)) == (true, r.(version := version)) && !HasCrlf(VersionString(version))
  {
    var v := VersionString(version);
    assert |v| == 8 && v[..7] == "HTTP/1.";
    assert forall i :: 0 <= i < |v| ==> v[i] != '\r';
  }

  lemma RequestLineRoundTrip(r: Request)
    requires !r.verb.Invalid? && !r.version.Unknown?
    requires ' ' !in r.path && '?' !in r.path && ' ' !in r.query && (r.query == "" || r.query[0] == '?')
    ensures ProcessRequestLine(FRESH, RequestLine(r)) == (true, FRESH.(verb := r.verb, version := r.version, path := r.path, query := r.query))
  {
    MethodRoundTrip(r.verb);
    var r1 := FRESH.(verb := r.verb);
    RequestLineSplits(MethodString(r.verb), r.path + r.query, VersionString(r.version));
    TargetRoundTrip(r1, r.path, r.query);
    VersionRoundTrip(SetTarget(r1, r.path + r.query), r.version);
  }

  lemma RequestLineHasNoCrlf(r: Request)
    requires !r.verb.Invalid? && !r.version.Unknown?
    requires !HasCrlf(r.path) && !HasCrlf(r.query)
    requires r.query == "" || r.query[0] == '?'
    ensures !HasCrlf(RequestLine(r))
  {
    var m, v := MethodString(r.verb), VersionString(r.version);
    MethodRoundTrip(r.verb);
    VersionRoundTrip(r, r.version);
    NoCrlfAcross(r.path, r.query);
    NoCrlfAcross(r.path + r.query, " ");
    NoCrlfAcross(r.path + r.query + " ", v);
    NoCrlfAcross(m, " ");
    NoCrlfAcross(m + " ", r.path + r.query + " " + v);
  }

  /** Printing a well-formed request and parsing it gives that request back, with all following bytes unread. */
  lemma RequestRoundTrip(r: Request, fs: seq<Field>, rest: string)
    requires RequestWellFormed(r, fs)
    ensures Parse(START, PrintRequest(r, fs) + rest, r.receiveTime) == Outcome(true, Context(GotAll, r), rest)
  {
    var tail := PrintFields(fs) + CRLF + rest;
    RequestLineHasNoCrlf(r);
    RequestLineRoundTrip(r);
    assert PrintRequest(r, fs) + rest == RequestLine(r) + CRLF + tail;
    ParseLine(START, RequestLine(r), tail, r.receiveTime);
    FieldsRoundTrip(r.(headers := map[]), fs, rest, r.receiveTime);
    assert ReadLine(START, RequestLine(r), r.receiveTime) == More(Context(ExpectHeaders, r.(headers := map[])));
  }
}
