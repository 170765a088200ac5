/** HttpRequest and HttpContext as objects reading from a Buffer, proved against the parser functions. */
module HttpContextObject {
  import opened Wrappers
  import opened Bytes
  import opened BufferObject
  import opened HttpParse

  class HttpRequest {
    var verb: Method
    var version: Version
    var path: string
    var query: string
    var receiveTime: int
    var headers: map<string, string>

    ghost function Value(): Request
      reads this
    {
      Request(verb, version, path, query, receiveTime, headers)
    }

    constructor ()
      ensures Value() == FRESH
    {
      verb, version, path, query, receiveTime, headers := Invalid, Unknown, "", "", 0, map[];
    }

    method SetMethod(m: string) returns (known: bool)
      requires verb.Invalid?
      modifies this`verb
      ensures verb == MethodOf(m) && known == !verb.Invalid?
    {
      if m == "GET" {
        verb := Get;
      } else if m == "POST" {
        verb := Post;
      } else if m == "HEAD" {
        verb := Head;
      } else if m == "PUT" {
        verb := Put;
      } else if m == "DELETE" {
        verb := Delete;
      } else {
        verb := Invalid;
      }
      known := !verb.Invalid?;
    }

    /** line[..colon] is the name; the value is what follows the colon without the space around it. */
    method AddHeader(line: string, colon: nat)
      requires colon < |line|
      modifies this`headers
      ensures Value() == HttpParse.AddHeader(old(Value()), line, colon)
    {
      var text := line[colon + 1..];
      var start := 0;
      while start < |text| && IsSpace(text[start])
        invariant 0 <= start <= |text| && TrimLeft(text) == TrimLeft(text[start..])
      {
        assert text[start..][1..] == text[start + 1..];
        start := start + 1;
      }
      var value := text[start..];
      while value != "" && IsSpace(value[|value| - 1])
        invariant TrimRight(value) == Trim(text)
        decreases |value|
      {
        value := value[..|value| - 1];
      }
      headers := headers[line[..colon] := value];
    }

    method GetHeader(field: string) returns (result: string)
      ensures result == if field in headers then headers[field] else ""
    {
      result := "";
      if field in headers {
        result := headers[field];
      }
    }

    method Swap(that: HttpRequest)
      modifies this, that
      ensures Value() == old(that.Value()) && that.Value() == old(Value())
    {
      verb, that.verb := that.verb, verb;
      version, that.version := that.version, version;
      path, that.path := that.path, path;
      query, that.query := that.query, query;
      receiveTime, that.receiveTime := that.receiveTime, receiveTime;
      headers, that.headers := that.headers, headers;
    }
  }

  /** What taking one complete line does to the context and the unread bytes. */
  ghost predicate LineTaken(c: Context, s: string, crlf: nat, time: int, ok: bool, hasMore: bool, c': Context, s': string) {
    && crlf + 2 <= |s| && c.Accepts(s[..crlf])
    && var turn := ReadLine(c, s[..crlf], time);
    && c' == turn.ctx && hasMore == turn.More? && ok == !turn.Rejected?
    && s' == if turn.Rejected? then s else s[crlf + 2..]
  }

  /** What one turn of the loop leaves to do. */
  ghost predicate OneTurn(c: Context, s: string, time: int, ok: bool, hasMore: bool, c': Context, s': string) {
    && !c.state.GotAll?
    && if hasMore then c'.Ready() && |s'| < |s| && Parse(c, s, time) == Parse(c', s', time)
       else Parse(c, s, time) == Outcome(ok, c', s')
  }

  /** The context and the text when setMethod's assertion fails: as they were. */
  ghost predicate Dies(c: Context, s: string, time: int, c': Context, s': string) {
    !c.state.GotAll? && Parse(c, s, time) == Aborted && c' == c && s' == s
  }

  lemma LineTakenIsOneTurn(c: Context, s: string, crlf: nat, time: int, ok: bool, hasMore: bool, c': Context, s': string)
    requires LineTaken(c, s, crlf, time, ok, hasMore, c', s') && FindCrlf(s) == Some(crlf)
    ensures OneTurn(c, s, time, ok, hasMore, c', s')
  {
  }

  class HttpContext {
    var state: State
    const request: HttpRequest

    ghost function Value(): Context
      reads this, request
    {
      Context(state, request.Value())
    }

    constructor ()
      ensures fresh(request) && Value() == START
    {
      state := ExpectRequestLine;
      request := new HttpRequest();
    }

    method Reset()
      modifies this, request
      ensures Value() == START
    {
      state := ExpectRequestLine;
      var dummy := new HttpRequest();
      request.Swap(dummy);
    }

    method ProcessRequestLine(line: string) returns (succeed: bool)
      requires request.verb.Invalid? || Find(line, ' ') == |line|
      modifies request
      ensures (succeed, request.Value()) == HttpParse.ProcessRequestLine(old(request.Value()), line)
    {
      succeed := false;
      var space := Find(line, ' ');
      if space != |line| {
        var known := request.SetMethod(line[..space]);
        if known {
          var rest := line[space + 1..];
          var end := Find(rest, ' ');
          if end != |rest| {
            var target, v := rest[..end], rest[end + 1..];
            var question := Find(target, '?');
            if question != |target| {
              request.path, request.query := target[..question], target[question..];
            } else {
              request.path := target;
            }
            succeed := |v| == 8 && v[..7] == "HTTP/1.";
            if succeed {
              if v[7] == '1' {
                request.version := Http11;
              } else if v[7] == '0' {
                request.version := Http10;
              } else {
                succeed := false;
              }
            }
          }
        }
      }
    }

    /** parseRequest's first branch, for a complete line that is still in the buffer. */
    method TakeRequestLine(buf: Buffer, crlf: nat, time: int) returns (ok: bool, hasMore: bool)
      requires buf.Valid() && crlf + 2 <= |buf.Contents()| && state.ExpectRequestLine?
      requires Value().Accepts(buf.Contents()[..crlf])
      modifies this, request, buf
      ensures buf.Valid() && buf.buffer == old(buf.buffer)
      ensures LineTaken(old(Value()), old(buf.Contents()), crlf, time, ok, hasMore, Value(), buf.Contents())
    {
      hasMore := true;
      var line := buf.Front(crlf);
      ok := ProcessRequestLine(line);
      if ok {
        request.receiveTime := time;
        buf.RetrieveUntil(crlf + 2);
        state := ExpectHeaders;
      } else {
        hasMore := false;
      }
    }

    /** Its second branch. */
    method TakeHeaderLine(buf: Buffer, crlf: nat, time: int) returns (ok: bool, hasMore: bool)
      requires buf.Valid() && crlf + 2 <= |buf.Contents()| && state.ExpectHeaders?
      modifies this, request, buf
      ensures buf.Valid() && buf.buffer == old(buf.buffer)
      ensures LineTaken(old(Value()), old(buf.Contents()), crlf, time, ok, hasMore, Value(), buf.Contents())
    {
      ok, hasMore := true, true;
      var line := buf.Front(crlf);
      var colon := Find(line, ':');
      if colon != |line| {
        request.AddHeader(line, colon);
      } else {
        state := GotAll;
        hasMore := false;
      }
      buf.RetrieveUntil(crlf + 2);
    }

    /** assert(method_ == kInvalid), for a line that gets as far as setMethod. */
    method AssertionHolds(buf: Buffer, crlf: nat) returns (holds: bool)
      requires buf.Valid() && crlf <= |buf.Contents()| && !state.GotAll?
      ensures holds == Value().Accepts(buf.Contents()[..crlf])
    {
      var line := buf.Front(crlf);
      var space := Find(line, ' ');
      return state != ExpectRequestLine || request.verb == Invalid || space == |line|;
    }

    /** One turn of parseRequest's loop. */
    method ParseOnce(buf: Buffer, time: int) returns (ok: bool, hasMore: bool, aborted: bool)
      requires !state.GotAll? && buf.Valid()
      modifies this, request, buf
      ensures buf.Valid() && buf.buffer == old(buf.buffer)
      ensures !aborted ==> OneTurn(old(Value()), old(buf.Contents()), time, ok, hasMore, Value(), buf.Contents())
      ensures aborted ==> !hasMore && Dies(old(Value()), old(buf.Contents()), time, Value(), buf.Contents())
    {
      ghost var c, s := Value(), buf.Contents();
      ok, hasMore, aborted := true, false, false;
      var crlf := buf.FindCRLF();
      if crlf.Some? {
        var holds := AssertionHolds(buf, crlf.value);
        if !holds {
          aborted := true;
          return;
        }
        if state == ExpectRequestLine {
          ok, hasMore := TakeRequestLine(buf, crlf.value, time);
        } else {
          ok, hasMore := TakeHeaderLine(buf, crlf.value, time);
        }
        LineTakenIsOneTurn(c, s, crlf.value, time, ok, hasMore, Value(), buf.Contents());
      }
    }

    /**
     Terminates from every request-line or header state, whatever the buffer holds. aborted tells
     that setMethod's assertion failed, which leaves the context and the buffer as they were.
     */
    method ParseRequest(buf: Buffer, time: int) returns (ok: bool, aborted: bool)
      requires !state.GotAll? && buf.Valid()
      modifies this, request, buf
      ensures buf.Valid() && buf.buffer == old(buf.buffer)
      ensures !aborted ==> Parse(old(Value()), old(buf.Contents()), time) == Outcome(ok, Value(), buf.Contents())
      ensures aborted ==> Dies(old(Value()), old(buf.Contents()), time, Value(), buf.Contents())
    {
      ghost var c, s := Value(), buf.Contents();
      ghost var goal := Parse(c, s, time);
      ok, aborted := true, false;
      var hasMore := true;
      while hasMore
        invariant buf.Valid() && buf.buffer == old(buf.buffer)
        invariant hasMore ==> !aborted && !state.GotAll? && goal == Parse(Value(), buf.Contents(), time)
        invariant hasMore ==> Value().Ready() || (Value() == c && buf.Contents() == s)
        invariant aborted ==> Dies(c, s, time, Value(), buf.Contents())
        invariant !hasMore && !aborted ==> goal == Outcome(ok, Value(), buf.Contents())
        decreases hasMore, |buf.Contents()|
      {
        ok, hasMore, aborted := ParseOnce(buf, time);
      }
    }
  }
}
