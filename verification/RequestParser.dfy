/** The incremental request parser (src/http.cpp:113-270, include/http.h:38-68). */
module RequestParsing {
  import opened Text
  import opened Http

  const MAX_REQUEST_LINE: nat := 8 * 1024
  const MAX_HEADER_BLOCK: nat := 16 * 1024
  const MAX_BODY: nat := 1024 * 1024

  datatype State = RequestLine | Headers | Body | Done
  datatype Result = NeedMore | Complete | Error

  /** The parser's fields as a value. */
  datatype Parser = Parser(
    state: State, req: HttpRequest, contentLength: nat, headerBytes: nat, error: nat)

  const FRESH_PARSER := Parser(RequestLine, BLANK_REQUEST, 0, 0, 400)

  /** A helper's verdict together with the fields it leaves behind. */
  datatype Verdict = Verdict(ok: bool, p: Parser)

  function ParseRequestLine(p: Parser, line: string): Verdict {
    match IndexOf(line, ' ')
    case None => Verdict(false, p.(error := 400))
    case Some(first) =>
      match IndexOf(line[first + 1..], ' ')
      case None => Verdict(false, p.(error := 400))
      case Some(second) =>
        var target := line[first + 1..][..second];
        var req := p.req.(verb := line[..first], target := target,
                          version := line[first + 1..][second + 1..]);
        if req.verb == "" || target == "" || target[0] != '/' then
          Verdict(false, p.(req := req, error := 400))
        else if req.version != "HTTP/1.1" && req.version != "HTTP/1.0" then
          Verdict(false, p.(req := req, error := 505))
        else
          Verdict(true, p.(req := SplitTarget(req).(keepAlive := req.version == "HTTP/1.1")))
  }

  function SplitTarget(req: HttpRequest): HttpRequest {
    match IndexOf(req.target, '?')
    case None => req.(path := req.target)
    case Some(q) => req.(path := req.target[..q], query := req.target[q + 1..])
  }

  function FinishHeaders(p: Parser): Verdict {
    if p.req.Header("transfer-encoding") != "" then
      Verdict(false, p.(error := 501))
    else
      var length := p.req.Header("content-length");
      if length == "" then Verdict(true, ApplyConnection(p))
      else match StrToLL(length)
        case NoNumber => Verdict(false, p.(error := 400))
        case Number(value, rest) =>
          if (rest != "" && rest[0] != '\0') || value < 0 then Verdict(false, p.(error := 400))
          else if value > MAX_BODY then Verdict(false, p.(error := 413))
          else Verdict(true, ApplyConnection(p.(contentLength := value)))
  }

  function ApplyConnection(p: Parser): Parser {
    var connection := ToLower(p.req.Header("connection"));
    if Contains(connection, "close") then p.(req := p.req.(keepAlive := false))
    else if Contains(connection, "keep-alive") then p.(req := p.req.(keepAlive := true))
    else p
  }

  /** Store one field; a repeated name joins its values with ", ". */
  function AddField(headers: map<string, string>, name: string, value: string): map<string, string> {
    headers[name := if name in headers then headers[name] + ", " + value else value]
  }

  function ParseHeaderLine(p: Parser, line: string): Verdict {
    match IndexOf(line, ':')
    case None => Verdict(false, p.(error := 400))
    case Some(colon) =>
      if colon == 0 then Verdict(false, p.(error := 400))
      else
        var name := ToLower(Trim(line[..colon]));
        var value := Trim(line[colon + 1..]);
        Verdict(true, p.(req := p.req.(headers := AddField(p.req.headers, name, value))))
  }

  /** One turn of the parser's loop. */
  datatype Turn =
    | Continue(p: Parser, rest: string)
    | Stop(result: Result, p: Parser, rest: string)

  function Step(p: Parser, b: string): (t: Turn)
    ensures t.Continue? ==> |t.rest| <= |b| && (p.state in {RequestLine, Headers} ==> |t.rest| < |b|)
    ensures t.Continue? && |t.rest| == |b| ==> Rank(t.p.state) < Rank(p.state)
    ensures |t.rest| <= |b|
  {
    match p.state
    case RequestLine => StepRequestLine(p, b)
    case Headers => StepHeaders(p, b)
    case Body =>
      if |b| < p.contentLength then Stop(NeedMore, p, b)
      else Continue(p.(req := p.req.(body := b[..p.contentLength]), state := Done), b[p.contentLength..])
    case Done => Stop(Complete, p, b)
  }

  function StepRequestLine(p: Parser, b: string): Turn {
    match FindLineEnd(b)
    case None =>
      if |b| > MAX_REQUEST_LINE then Stop(Error, p.(error := 414), b) else Stop(NeedMore, p, b)
    case Some(end) =>
      if end > MAX_REQUEST_LINE then Stop(Error, p.(error := 414), b)
      else
        var v := ParseRequestLine(p, b[..end]);
        if !v.ok then Stop(Error, v.p, b[end + 2..])
        else Continue(v.p.(state := Headers), b[end + 2..])
  }

  function StepHeaders(p: Parser, b: string): Turn {
    match FindLineEnd(b)
    case None =>
      if |b| + p.headerBytes > MAX_HEADER_BLOCK then Stop(Error, p.(error := 431), b)
      else Stop(NeedMore, p, b)
    case Some(end) =>
      var rest := b[end + 2..];
      var q := p.(headerBytes := p.headerBytes + end + 2);
      if q.headerBytes > MAX_HEADER_BLOCK then Stop(Error, q.(error := 431), rest)
      else if end == 0 then
        var v := FinishHeaders(q);
        if !v.ok then Stop(Error, v.p, rest)
        else Continue(v.p.(state := if v.p.contentLength > 0 then Body else Done), rest)
      else
        var v := ParseHeaderLine(q, b[..end]);
        if !v.ok then Stop(Error, v.p, rest) else Continue(v.p, rest)
  }

  function Rank(s: State): nat {
    match s case RequestLine => 3 case Headers => 2 case Body => 1 case Done => 0
  }

  datatype Outcome = Outcome(result: Result, p: Parser, rest: string)

  /** What one call of `parse` does: turns of the loop until it returns. */
  function ParseAll(p: Parser, b: string): (o: Outcome)
    ensures |o.rest| <= |b|
    ensures o.result == Complete ==> o.p.state == Done
    ensures o.result == Complete && p.state in {RequestLine, Headers} ==> |o.rest| < |b|
    decreases |b|, Rank(p.state)
  {
    match Step(p, b)
    case Stop(result, p', rest) => Outcome(result, p', rest)
    case Continue(p', rest) => ParseAll(p', rest)
  }

  /** The parser object. The buffer it consumes belongs to the caller, so it is
      taken as an argument and its remainder handed back. */
  class RequestParser {
    var state: State
    var req: HttpRequest
    var contentLength: nat
    var headerBytes: nat
    var error: nat

    function View(): Parser
      reads this
    {
      Parser(state, req, contentLength, headerBytes, error)
    }

    constructor ()
      ensures View() == FRESH_PARSER
    {
      state, req, contentLength, headerBytes, error := RequestLine, BLANK_REQUEST, 0, 0, 400;
    }

    method Reset()
      modifies this
      ensures View() == FRESH_PARSER
    {
      state, req, contentLength, headerBytes, error := RequestLine, BLANK_REQUEST, 0, 0, 400;
    }

    method Assign(p: Parser)
      modifies this
      ensures View() == p
    {
      state, req, contentLength, headerBytes, error :=
        p.state, p.req, p.contentLength, p.headerBytes, p.error;
    }

    /** The `RequestLine` case of the switch: `stop` is Some when `parse` returns. */
    method OnRequestLine(buffer: string) returns (stop: Option<Result>, rest: string)
      requires state == RequestLine
      modifies this
      ensures old(Step(View(), buffer)) == TurnOf(stop, View(), rest)
    {
      rest := buffer;
      var lineEnd := FindLineEnd(rest);
      if lineEnd.None? {
        if |rest| > MAX_REQUEST_LINE {
          error := 414;
          return Some(Error), rest;
        }
        return Some(NeedMore), rest;
      }
      if lineEnd.value > MAX_REQUEST_LINE {
        error := 414;
        return Some(Error), rest;
      }
      var line := rest[..lineEnd.value];
      rest := rest[lineEnd.value + 2..];
      var v := ParseRequestLine(View(), line);
      Assign(v.p);
      if !v.ok {
        return Some(Error), rest;
      }
      state := Headers;
      stop := None;
    }

    /** The `Headers` case. */
    method OnHeaders(buffer: string) returns (stop: Option<Result>, rest: string)
      requires state == Headers
      modifies this
      ensures old(Step(View(), buffer)) == TurnOf(stop, View(), rest)
    {
      rest := buffer;
      var lineEnd := FindLineEnd(rest);
      if lineEnd.None? {
        if |rest| + headerBytes > MAX_HEADER_BLOCK {
          error := 431;
          return Some(Error), rest;
        }
        return Some(NeedMore), rest;
      }
      var line := rest[..lineEnd.value];
      rest := rest[lineEnd.value + 2..];
      headerBytes := headerBytes + lineEnd.value + 2;
      if headerBytes > MAX_HEADER_BLOCK {
        error := 431;
        return Some(Error), rest;
      }
      var v := if line == "" then FinishHeaders(View()) else ParseHeaderLine(View(), line);
      Assign(v.p);
      if !v.ok {
        return Some(Error), rest;
      }
      if line == "" {
        state := if contentLength > 0 then Body else Done;
      }
      stop := None;
    }

    method Parse(buffer: string) returns (result: Result, rest: string)
      modifies this
      ensures Outcome(result, View(), rest) == ParseAll(old(View()), buffer)
    {
      rest := buffer;
      while true
        invariant ParseAll(View(), rest) == ParseAll(old(View()), buffer)
        decreases |rest|, Rank(state)
      {
        var stop: Option<Result> := None;
        match state {
          case RequestLine =>
            stop, rest := OnRequestLine(rest);
          case Headers =>
            stop, rest := OnHeaders(rest);
          case Body =>
            if |rest| < contentLength {
              return NeedMore, rest;
            }
            req := req.(body := rest[..contentLength]);
            rest := rest[contentLength..];
            state := Done;
          case Done =>
            return Complete, rest;
        }
        if stop.Some? {
          return stop.value, rest;
        }
      }
    }
  }

  function TurnOf(stop: Option<Result>, p: Parser, rest: string): Turn {
    if stop.None? then Continue(p, rest) else Stop(stop.value, p, rest)
  }
}
