/** Which lines the request parser accepts, and what it takes from them, in terms of the text alone. */
module HttpLines {
  import opened Bytes
  import opened HttpParse
  import opened HttpRoundTrip

  predicate IsMethodName(m: string) {
    m == "GET" || m == "POST" || m == "HEAD" || m == "PUT" || m == "DELETE"
  }

  predicate IsVersionName(v: string) { v == "HTTP/1.0" || v == "HTTP/1.1" }

  /** Each method is taken from its own name, in capitals, and from no other text. */
  lemma MethodIsItsName(m: string)
    ensures MethodOf(m) == Get <==> m == "GET"
    ensures MethodOf(m) == Post <==> m == "POST"
    ensures MethodOf(m) == Head <==> m == "HEAD"
    ensures MethodOf(m) == Put <==> m == "PUT"
    ensures MethodOf(m) == Delete <==> m == "DELETE"
    ensures MethodOf(m) == Invalid <==> !IsMethodName(m)
  {
    assert |"GET"| == 3 && |"POST"| == 4 && |"HEAD"| == 4 && |"PUT"| == 3 && |"DELETE"| == 6;
    assert "POST"[0] != "HEAD"[0] && "GET"[0] != "PUT"[0];
  }

  lemma VersionIsItsName(r: Request, v: string)
    ensures SetVersion(r, v) ==
      if v == "HTTP/1.1" then (true, r.(version := Http11))
      else if v == "HTTP/1.0" then (true, r.(version := Http10))
      else (false, r)
  {
    if |v| == 8 && v[..7] == "HTTP/1." {
      assert v == v[..7] + [v[7]];
      assert "HTTP/1.1" == "HTTP/1." + ['1'] && "HTTP/1.0" == "HTTP/1." + ['0'];
    } else {
      assert "HTTP/1.1"[..7] == "HTTP/1." && "HTTP/1.0"[..7] == "HTTP/1.";
    }
  }

  /** A request line of section 3 of RFC 9112 with single spaces: method, target, version. */
  predicate IsRequestLine(line: string, m: string, target: string, v: string) {
    line == m + " " + (target + " " + v) && IsMethodName(m) && ' ' !in target && IsVersionName(v)
  }

  lemma NamesHaveNoSpace(m: string)
    requires IsMethodName(m)
    ensures ' ' !in m
  {
    assert forall i :: 0 <= i < |m| ==> m[i] != ' ';
  }

  /** What an accepted line says: the method and the version by name, the target cut in front of its first question mark. */
  lemma RequestLineMeans(line: string, m: string, target: string, v: string)
    requires IsRequestLine(line, m, target, v)
    ensures var (ok, r) := ProcessRequestLine(FRESH, line);
      && ok && r == FRESH.(verb := MethodOf(m), version := if v == "HTTP/1.1" then Http11 else Http10, path := r.path, query := r.query)
      && r.path + r.query == target && '?' !in r.path && (r.query == "" || r.query[0] == '?')
  {
    NamesHaveNoSpace(m);
    MethodIsItsName(m);
    RequestLineSplits(m, target, v);
    var r1 := FRESH.(verb := MethodOf(m));
    TargetIsCut(r1, target);
    VersionIsItsName(SetTarget(r1, target), v);
  }

  lemma TargetIsCut(r: Request, target: string)
    requires r.path == "" && r.query == ""
    ensures var t := SetTarget(r, target);
      && t == r.(path := t.path, query := t.query)
      && t.path + t.query == target && '?' !in t.path && (t.query == "" || t.query[0] == '?')
  {
    var question := Find(target, '?');
    assert target[..question] + target[question..] == target;
    assert question == |target| ==> target[..question] == target && target + "" == target;
  }

  lemma CutAtSpace(s: string, n: nat)
    requires n < |s| && s[n] == ' '
    ensures s == s[..n] + " " + s[n + 1..]
  {
  }

  /** The parts of an accepted line: in front of its first space, up to its second, and behind that. */
  lemma PartsOf(line: string) returns (m: string, target: string, v: string)
    requires ProcessRequestLine(FRESH, line).0
    ensures line == m + " " + (target + " " + v) && ' ' !in target && !MethodOf(m).Invalid?
    ensures SetVersion(SetTarget(FRESH.(verb := MethodOf(m)), target), v).0
  {
    var space := Find(line, ' ');
    CutAtSpace(line, space);
    var rest := line[space + 1..];
    var end := Find(rest, ' ');
    CutAtSpace(rest, end);
    m, target, v := line[..space], rest[..end], rest[end + 1..];
  }

  lemma LineInParts(line: string)
    requires ProcessRequestLine(FRESH, line).0
    ensures exists m, target, v :: IsRequestLine(line, m, target, v)
  {
    var m, target, v := PartsOf(line);
    MethodIsItsName(m);
    VersionIsItsName(SetTarget(FRESH.(verb := MethodOf(m)), target), v);
    assert IsRequestLine(line, m, target, v);
  }

  /** A line is accepted if and only if it is one of the five methods, a target without a space, and one of the two versions. */
  lemma RequestLineIff(line: string)
    ensures ProcessRequestLine(FRESH, line).0 <==> exists m, target, v :: IsRequestLine(line, m, target, v)
  {
    if m, target, v :| IsRequestLine(line, m, target, v) {
      RequestLineMeans(line, m, target, v);
    }
    if ProcessRequestLine(FRESH, line).0 {
      LineInParts(line);
    }
  }

  /** A field line ends the head if and only if it has no colon; one that has stores what is behind the first, without the space around it. */
  lemma FieldLineMeans(r: Request, line: string, time: int)
    ensures var turn := ReadLine(Context(ExpectHeaders, r), line, time);
      && (turn.Finished? <==> ':' !in line) && !turn.Rejected?
      && (turn.Finished? ==> turn.ctx.request == r)
      && (turn.More? ==> exists name, text ::
            && line == name + ":" + text && ':' !in name
            && turn.ctx == Context(ExpectHeaders, r.(headers := r.headers[name := Trim(text)])))
  {
    var colon := Find(line, ':');
    if colon < |line| {
      var name, text := line[..colon], line[colon + 1..];
      assert line == name + ":" + text && line[colon] == ':';
    } else {
      assert line[..colon] == line;
    }
  }
}
