/** Whether a connection persists: onRequest's decision against section 9.3 of RFC 9112. */
module HttpPersistence {
  import opened Bytes
  import opened HttpParse
  import opened HttpRoundTrip
  import opened HttpResponsePrint

  /** What getHeader("Connection") answers. */
  function ConnectionOf(headers: map<string, string>): string {
    if CONNECTION in headers then headers[CONNECTION] else ""
  }

  /** onRequest's decision to close. */
  predicate ShouldClose(r: Request) {
    var connection := ConnectionOf(r.headers);
    connection == "close" || (r.version.Http10? && connection != "Keep-Alive")
  }

  function Lower(s: string): string {
    seq(|s|, i requires 0 <= i < |s| => if 'A' <= s[i] <= 'Z' then s[i] - 'A' + 'a' else s[i])
  }

  /** The elements of a comma-separated list, without the white space around them. */
  function Elements(value: string): seq<string>
    decreases |value|
  {
    var n := Find(value, ',');
    if n == |value| then [Trim(value)] else [Trim(value[..n])] + Elements(value[n + 1..])
  }

  /**
   A connection option of the message: an element of any of its Connection field lines. Field names
   and options are case-insensitive, and several lines make one list.
   */
  ghost predicate HasOption(fs: seq<Field>, option: string) {
    exists f, e :: f in fs && e in Elements(f.value) && Lower(f.name) == "connection" && Lower(e) == option
  }

  /** "close" closes; otherwise version 1.1 persists, and version 1.0 only with "keep-alive". */
  ghost predicate StandardCloses(version: Version, fs: seq<Field>) {
    HasOption(fs, "close") || (version.Http10? && !HasOption(fs, "keep-alive"))
  }

  lemma {:induction false} StoredIsAField(headers: map<string, string>, fs: seq<Field>, name: string)
    requires name in Store(headers, fs)
    ensures Field(name, Store(headers, fs)[name]) in fs || (name in headers && Store(headers, fs)[name] == headers[name])
    decreases |fs|
  {
    if fs != [] {
      StoredIsAField(headers[fs[0].name := fs[0].value], fs[1..], name);
    }
  }

  lemma PlainOption(fs: seq<Field>, v: string)
    requires v == ConnectionOf(Store(map[], fs)) && (v == "close" || v == "Keep-Alive")
    ensures HasOption(fs, Lower(v))
  {
    StoredIsAField(map[], fs, CONNECTION);
    assert Lower(CONNECTION) == "connection";
    assert forall i :: 0 <= i < |v| ==> v[i] != ',' && !IsSpace(v[i]);
    assert v[..|v|] == v;
    FindIs(v, ',', |v|);
    TrimCutsExactlyTheSpace(v);
    assert v in Elements(Field(CONNECTION, v).value);
  }

  lemma OptionWords()
    ensures Lower("close") == "close" && Lower("Keep-Alive") == "keep-alive" && "close" != "Keep-Alive"
    ensures Lower(CONNECTION) == "connection"
  {
    assert |"close"| != |"Keep-Alive"|;
  }

  /**
   For the field lines fs of any message: the decision is the standard's if and only if no close
   option is missed (version 1.1), or (version 1.0) a plain Keep-Alive comes without a close option
   and a keep-alive option written in any other way comes with one.
   */
  lemma CloseDecisionIsStandardIff(r: Request, fs: seq<Field>)
    requires !r.version.Unknown? && r.headers == Store(map[], fs)
    ensures var v := ConnectionOf(r.headers);
      (ShouldClose(r) <==> StandardCloses(r.version, fs)) <==>
        if r.version.Http11? then HasOption(fs, "close") ==> v == "close"
        else if v == "Keep-Alive" then !HasOption(fs, "close")
        else HasOption(fs, "keep-alive") ==> HasOption(fs, "close")
  {
    OptionWords();
    var v := ConnectionOf(r.headers);
    if v == "close" || v == "Keep-Alive" {
      PlainOption(fs, v);
    }
  }

  // ---- requests on which the two differ

  function Plain(f: Field, g: Field, time: int): Request {
    Request(Get, Http11, "/", "", time, Store(map[], [f, g]))
  }

  /** A version 1.1 request whose close option the server does not see, as it is sent and read. */
  ghost predicate CloseIsMissed(f: Field, g: Field, time: int) {
    && var r := Plain(f, g, time);
    && Parse(START, PrintRequest(r, [f, g]), time) == Outcome(true, Context(GotAll, r), "")
    && !ShouldClose(r) && StandardCloses(Http11, [f, g])
  }

  lemma WordIsOneElement(v: string)
    requires v != "" && forall i :: 0 <= i < |v| ==> v[i] != ',' && !IsSpace(v[i])
    ensures Elements(v) == [v]
  {
    assert v[..|v|] == v;
    FindIs(v, ',', |v|);
    TrimCutsExactlyTheSpace(v);
  }

  lemma PlainIsRead(f: Field, g: Field, time: int)
    requires FieldWellFormed(f) && FieldWellFormed(g)
    ensures Parse(START, PrintRequest(Plain(f, g, time), [f, g]), time) == Outcome(true, Context(GotAll, Plain(f, g, time)), "")
  {
    assert ' ' !in "/" && '?' !in "/";
    assert !HasCrlf("/") && !HasCrlf("");
    RequestRoundTrip(Plain(f, g, time), [f, g], "");
    assert PrintRequest(Plain(f, g, time), [f, g]) + "" == PrintRequest(Plain(f, g, time), [f, g]);
  }

  /** Two field lines with a close option among them that the stored headers do not show plainly. */
  ghost predicate HidesClose(f: Field, g: Field) {
    && FieldWellFormed(f) && FieldWellFormed(g) && HasOption([f, g], "close")
    && ConnectionOf(map[f.name := f.value][g.name := g.value]) != "close"
  }

  lemma HiddenIsMissed(f: Field, g: Field, time: int)
    requires HidesClose(f, g)
    ensures CloseIsMissed(f, g, time)
  {
    PlainIsRead(f, g, time);
    StoreTwo(map[], f, g);
  }

  lemma WordsAreWellFormed(f: Field)
    requires forall i :: 0 <= i < |f.name| ==> f.name[i] != ':' && f.name[i] != '\r'
    requires forall i :: 0 <= i < |f.value| ==> f.value[i] != '\r'
    requires f.value != "" && !IsSpace(f.value[0]) && !IsSpace(f.value[|f.value| - 1])
    ensures FieldWellFormed(f)
  {
  }

  lemma FirstIsAnElement(v: string, n: nat)
    requires n < |v| && v[n] == ',' && forall i :: 0 <= i < n ==> v[i] != ',' && !IsSpace(v[i])
    ensures v[..n] in Elements(v)
  {
    FindIs(v, ',', n);
    TrimCutsExactlyTheSpace(v[..n]);
    assert Elements(v)[0] == v[..n];
  }

  lemma HostIsWellFormed(f: Field)
    requires f == Field("Host", "a")
    ensures FieldWellFormed(f) && f.name != CONNECTION
  {
    WordsAreWellFormed(f);
    assert |f.name| != |CONNECTION|;
  }

  lemma CloseIsAnOption(f: Field, g: Field, h: Field, e: string)
    requires h in [f, g] && Lower(h.name) == "connection" && e in Elements(h.value) && Lower(e) == "close"
    ensures HasOption([f, g], "close")
  {
  }

  /** connection: close */
  lemma LowerCaseNameHidesClose(f: Field, g: Field)
    requires f == Field("Host", "a") && g == Field("connection", "close")
    ensures HidesClose(f, g)
  {
    HostIsWellFormed(f);
    WordsAreWellFormed(g);
    WordIsOneElement(g.value);
    CloseIsAnOption(f, g, g, g.value);
    assert g.name[0] != CONNECTION[0];
  }

  /** Connection: Close */
  lemma CapitalLetterHidesClose(f: Field, g: Field)
    requires f == Field("Host", "a") && g == Field(CONNECTION, "Close")
    ensures HidesClose(f, g)
  {
    HostIsWellFormed(f);
    WordsAreWellFormed(g);
    WordIsOneElement(g.value);
    CloseIsAnOption(f, g, g, g.value);
    assert g.value[0] != "close"[0];
  }

  lemma ListStartsWithElement(e: string, more: string)
    requires e != "" && forall i :: 0 <= i < |e| ==> e[i] != ',' && !IsSpace(e[i])
    requires more != "" && '\r' !in more && !IsSpace(more[|more| - 1])
    ensures var v := e + "," + more;
      && e in Elements(v) && v != e && !IsSpace(v[0]) && !IsSpace(v[|v| - 1])
      && forall i :: 0 <= i < |v| ==> v[i] != '\r'
  {
    var v := e + "," + more;
    assert v[..|e|] == e;
    FirstIsAnElement(v, |e|);
    assert '\r' !in e by { assert IsSpace('\r'); }
  }

  /** Connection: close,TE or any other list that begins with close */
  lemma OptionListHidesClose(f: Field, g: Field, e: string, more: string)
    requires f == Field("Host", "a") && g == Field(CONNECTION, e + "," + more) && e == "close"
    requires more != "" && '\r' !in more && !IsSpace(more[|more| - 1])
    ensures HidesClose(f, g)
  {
    ListStartsWithElement(e, more);
    OptionWords();
    HostIsWellFormed(f);
    WordsAreWellFormed(g);
    CloseIsAnOption(f, g, g, e);
  }

  /** Connection: close, and then Connection: TE, which overwrites it */
  lemma RepeatedLineHidesClose(f: Field, g: Field)
    requires f == Field(CONNECTION, "close") && g == Field(CONNECTION, "TE")
    ensures HidesClose(f, g)
  {
    WordsAreWellFormed(f);
    WordsAreWellFormed(g);
    WordIsOneElement(f.value);
    CloseIsAnOption(f, g, f, f.value);
    assert |g.value| != |"close"|;
  }
}
