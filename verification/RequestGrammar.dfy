/** What a request is, said without the parser, and the parser's agreement with it on every
    input (src/http.cpp:121-270). */
module RequestGrammar {
  import opened Text
  import opened Http
  import opened RequestParsing

  // ---- lines -------------------------------------------------------------------------

  /** A line holds no CRLF; a lone CR or LF may occur in it. */
  predicate IsLine(s: string) { FindLineEnd(s).None? }

  lemma LineDelimited(line: string, rest: string)
    requires IsLine(line)
    ensures FindLineEnd(line + ("\r\n" + rest)) == Some(|line|)
    ensures (line + ("\r\n" + rest))[..|line|] == line && (line + ("\r\n" + rest))[|line| + 2..] == rest
  {
    var s := line + ("\r\n" + rest);
    assert LineEndAt(s, |line|);
    forall i: nat | i < |line| ensures !LineEndAt(s, i) {
      assert !LineEndAt(line, i);
    }
  }

  lemma LineTaken(b: string)
    requires FindLineEnd(b).Some?
    ensures var end := FindLineEnd(b).value;
            IsLine(b[..end]) && b == b[..end] + ("\r\n" + b[end + 2..])
  {
    hide FindLineEnd;
    var end := FindLineEnd(b).value;
    assert forall i: nat :: LineEndAt(b[..end], i) ==> LineEndAt(b, i);
    AroundLineEnd(b, end);
  }

  lemma AroundLineEnd(b: string, end: nat)
    requires LineEndAt(b, end)
    ensures b == b[..end] + ("\r\n" + b[end + 2..])
  {
    assert b[end..] == "\r\n" + b[end + 2..];
  }

  // ---- the start line ------------------------------------------------------------------

  function StartLine(r: HttpRequest): string {
    r.verb + [' '] + (r.target + [' '] + r.version)
  }

  /** The line splits at its first two spaces. */
  predicate StartParts(line: string, verb: string, target: string, version: string) {
    line == verb + [' '] + (target + [' '] + version) && ' ' !in verb && ' ' !in target
  }

  predicate Addressed(verb: string, target: string) { verb != "" && target != "" && target[0] == '/' }

  predicate Supported(version: string) { version == "HTTP/1.1" || version == "HTTP/1.0" }

  predicate TargetSplit(r: HttpRequest) {
    '?' !in r.path && ((r.target == r.path && r.query == "") || r.target == r.path + ['?'] + r.query)
  }

  predicate StartOk(r: HttpRequest) {
    && ' ' !in r.verb && ' ' !in r.target
    && Addressed(r.verb, r.target) && Supported(r.version) && TargetSplit(r)
  }

  /** The request before any header line has been seen. */
  function Started(r: HttpRequest): HttpRequest {
    HttpRequest(r.verb, r.target, r.path, r.query, r.version, map[], "", r.version == "HTTP/1.1")
  }

  lemma PartsFound(line: string, verb: string, target: string, version: string)
    requires StartParts(line, verb, target, version)
    ensures IndexOf(line, ' ') == Some(|verb|) && line[..|verb|] == verb
    ensures IndexOf(line[|verb| + 1..], ' ') == Some(|target|)
    ensures line[|verb| + 1..][..|target|] == target && line[|verb| + 1..][|target| + 1..] == version
  {
    var tail := target + [' '] + version;
    IndexOfAt(verb, ' ', tail);
    assert line[..|verb|] == verb && line[|verb| + 1..] == tail;
    IndexOfAt(target, ' ', version);
    assert tail[..|target|] == target && tail[|target| + 1..] == version;
  }

  lemma TargetSplits(r: HttpRequest)
    requires TargetSplit(r)
    ensures SplitTarget(Started(r).(path := "", query := "")) == Started(r)
  {
    if r.target == r.path && r.query == "" {
      IndexOfAbsent(r.target, '?');
    } else {
      IndexOfAt(r.path, '?', r.query);
      assert r.target[..|r.path|] == r.path && r.target[|r.path| + 1..] == r.query;
    }
  }

  lemma StartLineParses(r: HttpRequest)
    requires StartOk(r)
    ensures ParseRequestLine(FRESH_PARSER, StartLine(r)) == Verdict(true, FRESH_PARSER.(req := Started(r)))
  {
    PartsFound(StartLine(r), r.verb, r.target, r.version);
    TargetSplits(r);
    SplitKeeps(Started(r).(path := "", query := "", keepAlive := true), r.version == "HTTP/1.1");
  }

  /** Splitting the target does not look at `keepAlive`. */
  lemma SplitKeeps(req: HttpRequest, keepAlive: bool)
    ensures SplitTarget(req).(keepAlive := keepAlive) == SplitTarget(req.(keepAlive := keepAlive))
  {
  }

  /** A line that splits at two spaces is what its parts make up. */
  lemma PartsMade(line: string) returns (verb: string, target: string, version: string)
    requires IndexOf(line, ' ').Some? && IndexOf(line[IndexOf(line, ' ').value + 1..], ' ').Some?
    ensures StartParts(line, verb, target, version)
  {
    hide IndexOf;
    var tail;
    verb, tail := CutAtSpace(line);
    target, version := CutAtSpace(tail);
  }

  lemma CutAtSpace(s: string) returns (before: string, after: string)
    requires IndexOf(s, ' ').Some?
    ensures s == before + [' '] + after && ' ' !in before
    ensures after == s[IndexOf(s, ' ').value + 1..]
  {
    hide IndexOf;
    before, after := s[..IndexOf(s, ' ').value], s[IndexOf(s, ' ').value + 1..];
    IndexOfSplits(s, ' ');
  }

  /** What the parser makes of a line with those parts. */
  lemma PartsParse(line: string, verb: string, target: string, version: string)
    requires StartParts(line, verb, target, version)
    ensures var v := ParseRequestLine(FRESH_PARSER, line);
            && (v.ok <==> Addressed(verb, target) && Supported(version))
            && (v.ok ==> v.p == FRESH_PARSER.(req := SplitTarget(BLANK_REQUEST.(verb := verb, target := target,
                                   version := version, keepAlive := version == "HTTP/1.1"))))
            && (!v.ok ==> v.p.error == if Addressed(verb, target) then 505 else 400)
  {
    PartsFound(line, verb, target, version);
  }

  lemma SplitIsTargetSplit(req: HttpRequest)
    requires req.path == "" && req.query == ""
    ensures TargetSplit(SplitTarget(req)) && SplitTarget(req).target == req.target
  {
    match IndexOf(req.target, '?')
    case None =>
    case Some(_) => IndexOfSplits(req.target, '?');
  }

  /** The start line is accepted exactly when it is that of some request, which is then the
      one read; 505 is kept for a version not supported behind a proper method and target,
      and everything else is 400. */
  lemma StartLineExact(line: string)
    ensures var v := ParseRequestLine(FRESH_PARSER, line);
            && (v.ok ==> StartOk(v.p.req) && line == StartLine(v.p.req)
                         && v.p == FRESH_PARSER.(req := Started(v.p.req)))
            && (forall r :: StartOk(r) && line == StartLine(r) ==> v.ok && v.p.req == Started(r))
            && (!v.ok ==> v.p.error == if Unsupported(line) then 505 else 400)
  {
    forall r | StartOk(r) && line == StartLine(r)
      ensures ParseRequestLine(FRESH_PARSER, line) == Verdict(true, FRESH_PARSER.(req := Started(r)))
    {
      StartLineParses(r);
    }
    if ParseRequestLine(FRESH_PARSER, line).ok {
      AcceptedStart(line);
    } else {
      RejectedStart(line);
    }
  }

  lemma AcceptedStart(line: string)
    requires ParseRequestLine(FRESH_PARSER, line).ok
    ensures var v := ParseRequestLine(FRESH_PARSER, line);
            StartOk(v.p.req) && line == StartLine(v.p.req) && v.p == FRESH_PARSER.(req := Started(v.p.req))
  {
    var verb, target, version := PartsMade(line);
    PartsParse(line, verb, target, version);
    SplitIsTargetSplit(BLANK_REQUEST.(verb := verb, target := target, version := version,
                                      keepAlive := version == "HTTP/1.1"));
  }

  lemma RejectedStart(line: string)
    requires !ParseRequestLine(FRESH_PARSER, line).ok
    ensures ParseRequestLine(FRESH_PARSER, line).p.error == if Unsupported(line) then 505 else 400
  {
    forall verb, target, version | StartParts(line, verb, target, version)
      ensures IndexOf(line, ' ').Some? && IndexOf(line[IndexOf(line, ' ').value + 1..], ' ').Some?
      ensures ParseRequestLine(FRESH_PARSER, line).p.error == if Addressed(verb, target) then 505 else 400
      ensures Addressed(verb, target) ==> !Supported(version)
    {
      PartsFound(line, verb, target, version);
      PartsParse(line, verb, target, version);
    }
    if IndexOf(line, ' ').Some? && IndexOf(line[IndexOf(line, ' ').value + 1..], ' ').Some? {
      var verb, target, version := PartsMade(line);
      assert Addressed(verb, target) ==> Unsupported(line);
    }
  }

  /** A proper method and target, but another version. */
  ghost predicate Unsupported(line: string) {
    exists verb, target, version ::
      StartParts(line, verb, target, version) && Addressed(verb, target) && !Supported(version)
  }

  // ---- header fields ----------------------------------------------------------------------

  predicate FieldLine(line: string) { line != "" && line[0] != ':' && ':' in line }

  function NameIn(line: string): string
    requires ':' in line
  {
    ToLower(Trim(line[..IndexOf(line, ':').value]))
  }

  function ValueIn(line: string): string
    requires ':' in line
  {
    Trim(line[IndexOf(line, ':').value + 1..])
  }

  predicate FieldLines(lines: seq<string>) {
    forall i :: 0 <= i < |lines| ==> FieldLine(lines[i]) && IsLine(lines[i])
  }

  /** The values given under a name, in order. */
  function ValuesNamed(lines: seq<string>, name: string): seq<string>
    requires FieldLines(lines)
  {
    if lines == [] then []
    else
      var front, last := lines[..|lines| - 1], lines[|lines| - 1];
      ValuesNamed(front, name) + if NameIn(last) == name then [ValueIn(last)] else []
  }

  /** A field is stored exactly when some line has its name, and its value is the list of the
      values given (section 5.2 of RFC 9110). */
  ghost predicate HeadersMean(headers: map<string, string>, lines: seq<string>)
    requires FieldLines(lines)
  {
    forall name ::
      && (name in headers <==> ValuesNamed(lines, name) != [])
      && (name in headers ==> headers[name] == Joined(ValuesNamed(lines, name)))
  }

  lemma HeadersUnique(one: map<string, string>, two: map<string, string>, lines: seq<string>)
    requires FieldLines(lines) && HeadersMean(one, lines) && HeadersMean(two, lines)
    ensures one == two
  {
    assert forall name :: name in one <==> name in two;
  }

  lemma FieldAdds(headers: map<string, string>, lines: seq<string>, line: string)
    requires FieldLines(lines) && FieldLine(line) && IsLine(line) && HeadersMean(headers, lines)
    ensures FieldLines(lines + [line])
    ensures HeadersMean(AddField(headers, NameIn(line), ValueIn(line)), lines + [line])
  {
    hide NameIn, ValueIn, Joined, IsLine;
    var all, added := lines + [line], AddField(headers, NameIn(line), ValueIn(line));
    assert all[..|all| - 1] == lines;
    forall name
      ensures (name in added <==> ValuesNamed(all, name) != [])
      ensures name in added ==> added[name] == Joined(ValuesNamed(all, name))
    {
      var before := ValuesNamed(lines, name);
      assert ValuesNamed(all, name) == before + if NameIn(line) == name then [ValueIn(line)] else [];
      assert before + [] == before;
      JoinedAppend(before, ValueIn(line));
    }
  }

  function AddAll(headers: map<string, string>, lines: seq<string>): map<string, string>
    requires FieldLines(lines)
    decreases |lines|
  {
    if lines == [] then headers
    else AddAll(AddField(headers, NameIn(lines[0]), ValueIn(lines[0])), lines[1..])
  }

  lemma {:induction false} AllAdded(headers: map<string, string>, done: seq<string>, lines: seq<string>)
    requires FieldLines(done) && FieldLines(lines) && HeadersMean(headers, done)
    ensures FieldLines(done + lines) && HeadersMean(AddAll(headers, lines), done + lines)
    decreases |lines|
  {
    hide NameIn, ValueIn, IsLine, HeadersMean, AddField;
    if lines == [] {
      assert done + lines == done;
    } else {
      FieldAdds(headers, done, lines[0]);
      AllAdded(AddField(headers, NameIn(lines[0]), ValueIn(lines[0])), done + [lines[0]], lines[1..]);
      assert done + [lines[0]] + lines[1..] == done + lines;
    }
  }

  lemma HeaderLineExact(p: Parser, line: string)
    requires line != ""
    ensures var v := ParseHeaderLine(p, line);
            && (v.ok <==> FieldLine(line))
            && (v.ok ==> v.p == p.(req := p.req.(headers := AddField(p.req.headers, NameIn(line), ValueIn(line)))))
            && (!v.ok ==> v.p == p.(error := 400))
  {
    hide ToLower, Trim;
  }

  // ---- Content-Length ----------------------------------------------------------------------

  /** White space, a sign, digits, and an end or a NUL. */
  predicate LengthParts(text: string, ws: string, sign: string, digits: string, tail: string) {
    && text == ws + (sign + (digits + tail))
    && AllSpace(ws)
    && sign in {"", "+", "-"}
    && digits != "" && AllDigits(digits)
    && (tail == "" || tail[0] == '\0')
  }

  /** The text stands for this length; minus nothing is nothing. */
  ghost predicate LengthIs(text: string, n: nat) {
    exists ws, sign, digits, tail ::
      LengthParts(text, ws, sign, digits, tail) && n == DigitsValue(digits) && (sign == "-" ==> n == 0)
  }

  lemma DigitsRun(digits: string, tail: string)
    requires AllDigits(digits) && (tail == "" || !IsDigit(tail[0]))
    ensures DigitRun(digits + tail) == |digits|
    ensures (digits + tail)[..|digits|] == digits && (digits + tail)[|digits|..] == tail
  {
    var s, n := digits + tail, DigitRun(digits + tail);
    assert forall i :: 0 <= i < |digits| ==> s[i] == digits[i];
    assert forall k :: |digits| < k <= |s| ==> s[..k][|digits|] == tail[0];
  }

  function Signed(sign: string, n: int): int { if sign == "-" then -n else n }

  function Clamped(w: int): int { if w > LLONG_MAX then LLONG_MAX else if w < LLONG_MIN then LLONG_MIN else w }

  lemma LengthReads(text: string, ws: string, sign: string, digits: string, tail: string)
    requires LengthParts(text, ws, sign, digits, tail)
    ensures StrToLL(text) == Number(Clamped(Signed(sign, DigitsValue(digits))), tail)
  {
    hide DigitsValue;
    var u := digits + tail;
    assert (sign + u)[0] == if sign == "" then digits[0] else sign[0];
    SpaceDropped(ws, sign + u);
    assert sign != "" ==> (sign + u)[1..] == u;
    assert sign == "" ==> sign + u == u;
    DigitsRun(digits, tail);
  }

  lemma LengthFound(text: string) returns (ws: string, sign: string, digits: string, tail: string)
    requires StrToLL(text).Number? && (StrToLL(text).rest == "" || StrToLL(text).rest[0] == '\0')
    ensures LengthParts(text, ws, sign, digits, tail)
  {
    hide DropSpace;
    ws := SpaceSplits(text);
    sign, digits, tail := NumberSplits(DropSpace(text));
    assert NumberEndsAt(text, DropSpace(text));
  }

  /** The number after the white space. */
  predicate NumberEndsAt(text: string, t: string) {
    var u := if t != "" && (t[0] == '-' || t[0] == '+') then t[1..] else t;
    StrToLL(text).Number? ==> DigitRun(u) > 0 && StrToLL(text).rest == u[DigitRun(u)..]
  }

  lemma NumberSplits(t: string) returns (sign: string, digits: string, tail: string)
    ensures t == sign + (digits + tail) && sign in {"", "+", "-"} && AllDigits(digits)
    ensures var u := if t != "" && (t[0] == '-' || t[0] == '+') then t[1..] else t;
            digits == u[..DigitRun(u)] && tail == u[DigitRun(u)..]
  {
    var signed := t != "" && (t[0] == '-' || t[0] == '+');
    sign := if signed then [t[0]] else "";
    var u := if signed then t[1..] else t;
    assert t == sign + u;
    digits, tail := u[..DigitRun(u)], u[DigitRun(u)..];
    assert u == digits + tail;
  }

  /** `strtoll` and the checks after it accept exactly the lengths, and saturation cannot turn
      a length past the limit into one within it. */
  lemma LengthExact(text: string)
    ensures var number := StrToLL(text);
            var ok := number.Number? && (number.rest == "" || number.rest[0] == '\0') && number.value >= 0;
            && (ok <==> exists n: nat :: LengthIs(text, n))
            && (forall n: nat :: LengthIs(text, n) ==> ok && number.value == if n > LLONG_MAX then LLONG_MAX else n)
  {
    var number := StrToLL(text);
    forall n: nat | LengthIs(text, n)
      ensures number.Number? && (number.rest == "" || number.rest[0] == '\0')
      ensures number.value == if n > LLONG_MAX then LLONG_MAX else n
    {
      var ws, sign, digits, tail :|
        LengthParts(text, ws, sign, digits, tail) && n == DigitsValue(digits) && (sign == "-" ==> n == 0);
      LengthReads(text, ws, sign, digits, tail);
    }
    if number.Number? && (number.rest == "" || number.rest[0] == '\0') && number.value >= 0 {
      var ws, sign, digits, tail := LengthFound(text);
      LengthReads(text, ws, sign, digits, tail);
      assert LengthIs(text, DigitsValue(digits));
    }
  }

  // ---- the end of the header block ------------------------------------------------------------

  /** The persistence the Connection field and the version's default ask for. */
  predicate Persists(r: HttpRequest, byDefault: bool) {
    var connection := ToLower(r.Header("connection"));
    !Contains(connection, "close") && (Contains(connection, "keep-alive") || byDefault)
  }

  ghost predicate LengthWithin(text: string) { exists n: nat :: n <= 1048576 && LengthIs(text, n) }

  /** The header block is accepted exactly when it announces no transfer coding and no length,
      or a length within the limit; 501, 413 and 400 tell the refusals apart. */
  lemma FinishExact(p: Parser)
    ensures var v := FinishHeaders(p);
            var coding, length := p.req.Header("transfer-encoding"), p.req.Header("content-length");
            && (v.ok <==> coding == "" && (length == "" || LengthWithin(length)))
            && (v.ok ==> v.p == p.(contentLength := v.p.contentLength,
                                   req := p.req.(keepAlive := Persists(p.req, p.req.keepAlive))))
            && (v.ok ==> if length == "" then v.p.contentLength == p.contentLength
                         else LengthIs(length, v.p.contentLength) && v.p.contentLength <= MAX_BODY)
            && (!v.ok ==> v.p.error == if coding != "" then 501
                                       else if exists n: nat :: LengthIs(length, n) then 413 else 400)
  {
    hide StrToLL, LengthIs, ToLower, Contains;
    LengthExact(p.req.Header("content-length"));
  }

  // ---- whole requests ---------------------------------------------------------------------------

  function LinesText(lines: seq<string>): string {
    if lines == [] then "" else lines[0] + ("\r\n" + LinesText(lines[1..]))
  }

  datatype Wire = Wire(start: string, lines: seq<string>, body: string)

  function WireText(w: Wire): string {
    w.start + ("\r\n" + (LinesText(w.lines) + ("\r\n" + w.body)))
  }

  /** These bytes are this request. */
  ghost predicate Means(w: Wire, r: HttpRequest) {
    && IsLine(w.start) && |w.start| <= MAX_REQUEST_LINE && StartOk(r) && w.start == StartLine(r)
    && FieldLines(w.lines) && |LinesText(w.lines)| + 2 <= MAX_HEADER_BLOCK && HeadersMean(r.headers, w.lines)
    && r.Header("transfer-encoding") == ""
    && r.body == w.body && |w.body| <= MAX_BODY
    && (if r.Header("content-length") == "" then w.body == "" else LengthIs(r.Header("content-length"), |w.body|))
    && r.keepAlive == Persists(r, r.version == "HTTP/1.1")
  }

  function AfterLines(p: Parser, lines: seq<string>): Parser
    requires FieldLines(lines)
  {
    p.(req := p.req.(headers := AddAll(p.req.headers, lines)), headerBytes := p.headerBytes + |LinesText(lines)|)
  }

  lemma LineStep(p: Parser, line: string, rest: string)
    requires p.state == Headers && line != "" && IsLine(line)
    ensures var q := p.(headerBytes := p.headerBytes + |line| + 2);
            StepHeaders(p, line + ("\r\n" + rest)) ==
              if q.headerBytes > 16384 then Stop(Error, q.(error := 431), rest)
              else if FieldLine(line)
              then Continue(q.(req := p.req.(headers := AddField(p.req.headers, NameIn(line), ValueIn(line)))), rest)
              else Stop(Error, q.(error := 400), rest)
  {
    hide ParseHeaderLine, FinishHeaders, AddField, IsLine, NameIn, ValueIn;
    LineDelimited(line, rest);
    HeaderLineExact(p.(headerBytes := p.headerBytes + |line| + 2), line);
  }

  lemma ConsLine(p: Parser, line: string, more: seq<string>, rest: string)
    requires FieldLine(line) && IsLine(line) && FieldLines(more)
    ensures FieldLines([line] + more)
    ensures LinesText([line] + more) + rest == line + ("\r\n" + (LinesText(more) + rest))
    ensures AfterLines(p, [line] + more) ==
            AfterLines(p.(req := p.req.(headers := AddField(p.req.headers, NameIn(line), ValueIn(line))),
                          headerBytes := p.headerBytes + |line| + 2), more)
  {
    hide NameIn, ValueIn, IsLine, FieldLine, AddField;
    var lines := [line] + more;
    assert lines[0] == line && lines[1..] == more;
    assert forall i :: 0 < i < |lines| ==> lines[i] == more[i - 1];
    assert (line + ("\r\n" + LinesText(more))) + rest == line + ("\r\n" + (LinesText(more) + rest));
  }

  lemma {:induction false} LinesParse(p: Parser, lines: seq<string>, rest: string)
    requires p.state == Headers && FieldLines(lines)
    requires p.headerBytes + |LinesText(lines)| <= MAX_HEADER_BLOCK
    ensures ParseAll(p, LinesText(lines) + rest) == ParseAll(AfterLines(p, lines), rest)
    decreases |lines|
  {
    hide StepHeaders, StepRequestLine, NameIn, ValueIn, IsLine, AddField;
    if lines == [] {
      assert LinesText(lines) + rest == rest;
    } else {
      var line, more := lines[0], lines[1..];
      assert lines == [line] + more;
      ConsLine(p, line, more, rest);
      LineStep(p, line, LinesText(more) + rest);
      var q := p.(req := p.req.(headers := AddField(p.req.headers, NameIn(line), ValueIn(line))),
                  headerBytes := p.headerBytes + |line| + 2);
      assert Step(p, LinesText(lines) + rest) == Continue(q, LinesText(more) + rest);
      LinesParse(q, more, rest);
    }
  }

  /** Every header block the parser gets through is made of field lines. */
  lemma {:induction false} LinesAccepted(p: Parser, b: string) returns (lines: seq<string>, tail: string)
    requires p.state == Headers && ParseAll(p, b).result == Complete
    ensures FieldLines(lines) && b == LinesText(lines) + ("\r\n" + tail)
    ensures p.headerBytes + |LinesText(lines)| <= MAX_HEADER_BLOCK || lines == []
    ensures ParseAll(p, b) == ParseAll(AfterLines(p, lines), "\r\n" + tail)
    decreases |b|
  {
    hide NameIn, ValueIn, IsLine, AddField, ParseHeaderLine, FinishHeaders;
    var end := FindLineEnd(b).value;
    var line, rest := b[..end], b[end + 2..];
    LineTaken(b);
    if end == 0 {
      lines, tail := [], rest;
      assert b == "\r\n" + tail;
    } else {
      LineStep(p, line, rest);
      var q := p.(req := p.req.(headers := AddField(p.req.headers, NameIn(line), ValueIn(line))),
                  headerBytes := p.headerBytes + |line| + 2);
      assert Step(p, b) == Continue(q, rest);
      var more;
      more, tail := LinesAccepted(q, rest);
      lines := [line] + more;
      ConsLine(p, line, more, "\r\n" + tail);
      ConsLine(p, line, more, "");
    }
  }

  lemma BodyTaken(q: Parser, tail: string)
    requires q.state == (if q.contentLength > 0 then Body else Done) && q.req.body == ""
    ensures var o, n := ParseAll(q, tail), q.contentLength;
            && (o.result == Complete <==> n <= |tail|)
            && (o.result == Complete ==> o.p.req == q.req.(body := tail[..n]) && o.rest == tail[n..])
  {
    var n := q.contentLength;
    if 0 < n <= |tail| {
      var done := q.(req := q.req.(body := tail[..n]), state := Done);
      assert ParseAll(q, tail) == ParseAll(done, tail[n..]);
    }
  }

  /** The blank line, the checks behind it, and the body. */
  lemma HeadEnds(p: Parser, tail: string)
    requires p.state == Headers && p.contentLength == 0 && p.req.body == ""
    ensures var o, v := ParseAll(p, "\r\n" + tail), FinishHeaders(p.(headerBytes := p.headerBytes + 2));
            var n := v.p.contentLength;
            && (o.result == Complete <==> p.headerBytes + 2 <= MAX_HEADER_BLOCK && v.ok && n <= |tail|)
            && (o.result == Complete ==> o.p.req == v.p.req.(body := tail[..n]) && o.rest == tail[n..])
  {
    hide FinishHeaders, ParseHeaderLine, StepRequestLine;
    LineDelimited("", tail);
    assert "" + ("\r\n" + tail) == "\r\n" + tail;
    var v := FinishHeaders(p.(headerBytes := p.headerBytes + 2));
    if p.headerBytes + 2 <= MAX_HEADER_BLOCK && v.ok {
      FinishExact(p.(headerBytes := p.headerBytes + 2));
      var q := v.p.(state := if v.p.contentLength > 0 then Body else Done);
      assert Step(p, "\r\n" + tail) == Continue(q, tail);
      BodyTaken(q, tail);
    }
  }

  lemma StartStep(start: string, rest: string)
    requires IsLine(start)
    ensures var v := ParseRequestLine(FRESH_PARSER, start);
            StepRequestLine(FRESH_PARSER, start + ("\r\n" + rest)) ==
              if |start| > 8192 then Stop(Error, FRESH_PARSER.(error := 414), start + ("\r\n" + rest))
              else if v.ok then Continue(v.p.(state := Headers), rest) else Stop(Error, v.p, rest)
  {
    hide ParseRequestLine, IsLine;
    LineDelimited(start, rest);
  }

  lemma WireBytes(w: Wire, suffix: string)
    ensures WireText(w) + suffix ==
            w.start + ("\r\n" + (LinesText(w.lines) + ("\r\n" + (w.body + suffix))))
  {
    hide LinesText;
    var a := "\r\n" + w.body;
    var c := LinesText(w.lines) + a;
    assert a + suffix == "\r\n" + (w.body + suffix);
    assert c + suffix == LinesText(w.lines) + (a + suffix);
    assert ("\r\n" + c) + suffix == "\r\n" + (c + suffix);
    assert (w.start + ("\r\n" + c)) + suffix == w.start + (("\r\n" + c) + suffix);
  }

  /** The parser once the header lines are read. */
  function HeadRead(r: HttpRequest, lines: seq<string>): Parser
    requires FieldLines(lines)
  {
    AfterLines(FRESH_PARSER.(req := Started(r), state := Headers), lines)
  }

  /** What means a request is accepted as that request, whatever follows it. */
  lemma AcceptsMeant(w: Wire, r: HttpRequest, suffix: string)
    requires Means(w, r)
    ensures var o := ParseAll(FRESH_PARSER, WireText(w) + suffix);
            o.result == Complete && o.p.req == r && o.rest == suffix
  {
    hide StepRequestLine, StepHeaders, ParseRequestLine, FinishHeaders, IsLine, HeadersMean, LengthIs;
    hide LinesText, ToLower, Contains, StartOk;
    var tail := w.body + suffix;
    var head := LinesText(w.lines) + ("\r\n" + tail);
    WireBytes(w, suffix);
    StartStep(w.start, head);
    StartLineParses(r);
    var p := FRESH_PARSER.(req := Started(r), state := Headers);
    assert ParseAll(FRESH_PARSER, WireText(w) + suffix) == ParseAll(p, head);
    LinesParse(p, w.lines, "\r\n" + tail);
    NoLinesMean();
    AllAdded(map[], [], w.lines);
    assert [] + w.lines == w.lines;
    HeadersUnique(AddAll(map[], w.lines), r.headers, w.lines);
    HeadFinishes(w, r, HeadRead(r, w.lines), suffix);
  }

  lemma NoLinesMean()
    ensures FieldLines([]) && HeadersMean(map[], [])
  {
  }

  lemma HeadFinishes(w: Wire, r: HttpRequest, p: Parser, suffix: string)
    requires Means(w, r) && p.state == Headers && p.contentLength == 0
    requires p.req == r.(body := "", keepAlive := r.version == "HTTP/1.1")
    requires p.headerBytes + 2 <= MAX_HEADER_BLOCK
    ensures var o := ParseAll(p, "\r\n" + (w.body + suffix));
            o.result == Complete && o.p.req == r && o.rest == suffix
  {
    hide FinishHeaders, LengthIs, ToLower, Contains, IsLine, HeadersMean, StartOk;
    var q := p.(headerBytes := p.headerBytes + 2);
    assert forall name :: q.req.Header(name) == r.Header(name);
    FinishExact(q);
    HeadEnds(p, w.body + suffix);
    if r.Header("content-length") != "" {
      FinishLength(q, |w.body|);
    }
    assert (w.body + suffix)[..|w.body|] == w.body && (w.body + suffix)[|w.body|..] == suffix;
  }

  lemma FinishLength(p: Parser, n: nat)
    requires p.req.Header("transfer-encoding") == "" && p.req.Header("content-length") != ""
    requires n <= MAX_BODY && LengthIs(p.req.Header("content-length"), n)
    ensures FinishHeaders(p).ok && FinishHeaders(p).p.contentLength == n
  {
    hide StrToLL, LengthIs, ToLower, Contains;
    LengthExact(p.req.Header("content-length"));
  }

  lemma StartAccepted(b: string) returns (start: string, rest: string, r: HttpRequest)
    requires ParseAll(FRESH_PARSER, b).result == Complete
    ensures IsLine(start) && |start| <= MAX_REQUEST_LINE && b == start + ("\r\n" + rest)
    ensures StartOk(r) && start == StartLine(r)
    ensures ParseAll(FRESH_PARSER, b) == ParseAll(FRESH_PARSER.(req := Started(r), state := Headers), rest)
  {
    hide StepHeaders, ParseRequestLine, IsLine, StartOk, StartLine;
    start, rest := b[..FindLineEnd(b).value], b[FindLineEnd(b).value + 2..];
    LineTaken(b);
    StartStep(start, rest);
    StartLineExact(start);
    r := ParseRequestLine(FRESH_PARSER, start).p.req;
  }

  /** Whatever is accepted is the wire form of the request it is accepted as. */
  lemma AcceptedIsMeant(b: string) returns (w: Wire)
    requires ParseAll(FRESH_PARSER, b).result == Complete
    ensures var o := ParseAll(FRESH_PARSER, b);
            Means(w, o.p.req) && b == WireText(w) + o.rest
  {
    hide ParseAll, IsLine, HeadersMean, LengthIs, LinesText, StartOk, StartLine, ToLower, Contains, Persists;
    var start, rest, r := StartAccepted(b);
    var p := FRESH_PARSER.(req := Started(r), state := Headers);
    var lines, tail := LinesAccepted(p, rest);
    NoLinesMean();
    AllAdded(map[], [], lines);
    assert [] + lines == lines;
    var q := HeadRead(r, lines);
    var n := HeadAccepted(q, tail);
    w := Wire(start, lines, tail[..n]);
    WireBytes(w, tail[n..]);
    assert tail == tail[..n] + tail[n..];
    var made := ParseAll(FRESH_PARSER, b).p.req;
    StartKept(r, made);
    SameFields(q.req, made);
  }

  lemma SameFields(r: HttpRequest, q: HttpRequest)
    requires q.headers == r.headers
    ensures forall name :: q.Header(name) == r.Header(name)
    ensures forall byDefault :: Persists(q, byDefault) == Persists(r, byDefault)
  {
    hide ToLower, Contains;
  }

  lemma StartKept(r: HttpRequest, q: HttpRequest)
    requires StartOk(r) && q.verb == r.verb && q.target == r.target && q.version == r.version
    requires q.path == r.path && q.query == r.query
    ensures StartOk(q) && StartLine(q) == StartLine(r)
  {
  }

  lemma HeadAccepted(p: Parser, tail: string) returns (n: nat)
    requires p.state == Headers && p.contentLength == 0 && p.req.body == ""
    requires ParseAll(p, "\r\n" + tail).result == Complete
    ensures p.headerBytes + 2 <= MAX_HEADER_BLOCK && n <= |tail| && n <= MAX_BODY
    ensures var o, length := ParseAll(p, "\r\n" + tail), p.req.Header("content-length");
            && o.p.req == p.req.(keepAlive := Persists(p.req, p.req.keepAlive), body := tail[..n])
            && o.rest == tail[n..]
            && p.req.Header("transfer-encoding") == ""
            && (if length == "" then n == 0 else LengthIs(length, n))
  {
    hide FinishHeaders, LengthIs, ToLower, Contains;
    var q := p.(headerBytes := p.headerBytes + 2);
    HeadEnds(p, tail);
    FinishExact(q);
    n := FinishHeaders(q).p.contentLength;
  }

  /** The parser accepts exactly the requests: a new parser completes on a buffer, with this
      request and this remainder, if and only if the buffer is the wire form of that request
      followed by that remainder. */
  lemma ParserIsExact(b: string, r: HttpRequest, rest: string)
    ensures var o := ParseAll(FRESH_PARSER, b);
            (o.result == Complete && o.p.req == r && o.rest == rest) <==>
            exists w :: Means(w, r) && b == WireText(w) + rest
  {
    hide ParseAll, Means, WireText;
    var o := ParseAll(FRESH_PARSER, b);
    if o.result == Complete && o.p.req == r && o.rest == rest {
      var w := AcceptedIsMeant(b);
    }
    if w :| Means(w, r) && b == WireText(w) + rest {
      AcceptsMeant(w, r, rest);
    }
  }
}
