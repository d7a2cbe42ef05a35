/** What later bytes can and cannot change about a parse, and what a parser at
    rest may hold (src/http.cpp:191-270). */
module ParserStability {
  import opened Text
  import opened RequestParsing

  /** The one cut that later bytes can undo: a 414 raised on an unfinished line of
      MAX_REQUEST_LINE bytes plus a CR, when the next byte is the LF that would have
      ended the line within the limit. */
  predicate LongLineCut(p: Parser, b: string, more: string) {
    && p.state == RequestLine
    && |b| == MAX_REQUEST_LINE + 1 && FindLineEnd(b).None?
    && b[MAX_REQUEST_LINE] == '\r'
    && more != "" && more[0] == '\n'
  }

  /** A turn that consumed input consumes the same input when more follows. */
  lemma StepExtends(p: Parser, b: string, more: string)
    requires Step(p, b).Continue?
    ensures Step(p, b + more) == Continue(Step(p, b).p, Step(p, b).rest + more)
  {
    match p.state
    case RequestLine =>
      RequestLineExtends(p, b, more);
    case Headers =>
      HeadersExtend(p, b, more);
    case Body =>
      assert (b + more)[..p.contentLength] == b[..p.contentLength];
      assert (b + more)[p.contentLength..] == b[p.contentLength..] + more;
    case Done =>
  }

  lemma RequestLineExtends(p: Parser, b: string, more: string)
    requires StepRequestLine(p, b).Continue?
    ensures var t := StepRequestLine(p, b);
            StepRequestLine(p, b + more) == Continue(t.p, t.rest + more)
  {
    LineExtends(b, more);
  }

  lemma HeadersExtend(p: Parser, b: string, more: string)
    requires StepHeaders(p, b).Continue?
    ensures var t := StepHeaders(p, b);
            StepHeaders(p, b + more) == Continue(t.p, t.rest + more)
  {
    LineExtends(b, more);
  }

  lemma LineExtends(b: string, more: string)
    requires FindLineEnd(b).Some?
    ensures var end := FindLineEnd(b).value;
            && FindLineEnd(b + more) == Some(end)
            && (b + more)[..end] == b[..end]
            && (b + more)[end + 2..] == b[end + 2..] + more
  {
    FindLineEndExtends(b, more);
  }

  predicate SameRejection(o: Outcome, w: Outcome) {
    w.result == Error && w.p.error == o.p.error && w.p.req == o.p.req
  }

  predicate SameStop(t: Turn, u: Turn) {
    u.Stop? && t.Stop? && u.result == t.result && u.p.error == t.p.error && u.p.req == t.p.req
  }

  /** A rejecting turn rejects the same way when more follows, except at a LongLineCut. */
  lemma RequestLineRejects(p: Parser, b: string, more: string)
    requires p.state == RequestLine && StepRequestLine(p, b).Stop? && StepRequestLine(p, b).result == Error
    requires !LongLineCut(p, b, more)
    ensures SameStop(StepRequestLine(p, b), StepRequestLine(p, b + more))
  {
    if FindLineEnd(b).Some? {
      LineExtends(b, more);
    } else {
      FindLineEndExtends(b, more);
    }
  }

  lemma HeadersReject(p: Parser, b: string, more: string)
    requires StepHeaders(p, b).Stop? && StepHeaders(p, b).result == Error
    ensures SameStop(StepHeaders(p, b), StepHeaders(p, b + more))
  {
    if FindLineEnd(b).Some? {
      LineExtends(b, more);
    } else {
      FindLineEndExtends(b, more);
    }
  }

  /** Nothing past the request line is ever rejected with 414. */
  lemma {:induction false} HeadersNeverTooLong(p: Parser, b: string)
    requires p.state != RequestLine
    ensures ParseAll(p, b).result == Error ==> ParseAll(p, b).p.error != 414
    decreases |b|, Rank(p.state)
  {
    match Step(p, b)
    case Stop(_, _, _) =>
    case Continue(p', rest) => HeadersNeverTooLong(p', rest);
  }

  /** Parser stability under extension. Parsing `b + more` in one go is the same as
      parsing `b` and going on with the leftover once `more` arrives; a finished request
      is unchanged and `more` is left over; a rejection is unchanged exactly when the
      bytes were not cut at a LongLineCut. */
  lemma {:induction false} ParseExtends(p: Parser, b: string, more: string)
    ensures var o, w := ParseAll(p, b), ParseAll(p, b + more);
            && (o.result == NeedMore ==> w == ParseAll(o.p, o.rest + more))
            && (o.result == Complete ==> w == Outcome(Complete, o.p, o.rest + more))
            && (o.result == Error ==> (SameRejection(o, w) <==> !LongLineCut(p, b, more)))
    decreases |b|, Rank(p.state)
  {
    hide StepRequestLine, StepHeaders, LongLineCut, SameRejection;
    match Step(p, b)
    case Continue(p', rest) =>
      StepExtends(p, b, more);
      ParseExtends(p', rest, more);
      NoCutPastLine(p, b, more);
    case Stop(result, _, _) =>
      if result == Error {
        RejectionExtends(p, b, more);
      } else {
        StopsUnchanged(p, b);
      }
  }

  /** A turn that asks for more, or finds the request finished, changes nothing. */
  lemma StopsUnchanged(p: Parser, b: string)
    requires Step(p, b).Stop? && Step(p, b).result != Error
    ensures Step(p, b) == Stop(Step(p, b).result, p, b)
    ensures Step(p, b).result == Complete <==> p.state == Done
  {
  }

  /** A turn that consumed input was not on an unfinished request line, nor is the next. */
  lemma NoCutPastLine(p: Parser, b: string, more: string)
    requires Step(p, b).Continue?
    ensures !LongLineCut(p, b, more) && !LongLineCut(Step(p, b).p, Step(p, b).rest, more)
  {
  }

  lemma RejectionExtends(p: Parser, b: string, more: string)
    requires Step(p, b).Stop? && Step(p, b).result == Error
    ensures SameRejection(ParseAll(p, b), ParseAll(p, b + more)) <==> !LongLineCut(p, b, more)
  {
    if LongLineCut(p, b, more) {
      LongLineParses(p, b, more);
    } else if p.state == RequestLine {
      RequestLineRejects(p, b, more);
    } else {
      HeadersReject(p, b, more);
    }
  }

  lemma LongLineParses(p: Parser, b: string, more: string)
    requires LongLineCut(p, b, more)
    ensures ParseAll(p, b).result == Error && ParseAll(p, b).p.error == 414
    ensures ParseAll(p, b + more).result == Error ==> ParseAll(p, b + more).p.error != 414
  {
    FindLineEndExtends(b, more);
    assert LineEndAt(b + more, MAX_REQUEST_LINE);
    match Step(p, b + more)
    case Continue(p', rest) => HeadersNeverTooLong(p', rest);
    case Stop(_, _, _) =>
  }

  // ---- at rest -------------------------------------------------------------

  /** Parsing again without new bytes changes nothing. */
  predicate Resting(p: Parser, b: string) {
    ParseAll(p, b) == Outcome(NeedMore, p, b)
  }

  /** Names and values stored in a header map, in bytes. */
  ghost function FieldBytes(m: map<string, string>): nat {
    if m == map[] then 0
    else
      var k :| k in m;
      |k| + |m[k]| + FieldBytes(m - {k})
  }

  lemma {:induction false} FieldBytesWithout(m: map<string, string>, k: string)
    requires k in m
    ensures FieldBytes(m) == |k| + |m[k]| + FieldBytes(m - {k})
    decreases |m|
  {
    var j :| j in m && FieldBytes(m) == |j| + |m[j]| + FieldBytes(m - {j});
    if j != k {
      FieldBytesWithout(m - {j}, k);
      FieldBytesWithout(m - {k}, j);
      assert m - {j} - {k} == m - {k} - {j};
    }
  }

  lemma AddFieldBytes(m: map<string, string>, name: string, value: string)
    ensures FieldBytes(AddField(m, name, value)) <= FieldBytes(m) + |name| + |value| + 2
  {
    var added := AddField(m, name, value);
    FieldBytesWithout(added, name);
    assert added - {name} == m - {name};
    if name in m {
      FieldBytesWithout(m, name);
    } else {
      assert m - {name} == m;
    }
  }

  /** The limits a parser respects between calls that did not reject. */
  ghost predicate WithinLimits(p: Parser) {
    && p.contentLength <= MAX_BODY
    && p.headerBytes <= MAX_HEADER_BLOCK
    && FieldBytes(p.req.headers) <= p.headerBytes
    && (p.state == Body ==> p.contentLength > 0)
  }

  lemma HeaderLineWithinLimits(p: Parser, line: string)
    requires FieldBytes(p.req.headers) + |line| + 2 <= p.headerBytes
    requires ParseHeaderLine(p, line).ok
    ensures FieldBytes(ParseHeaderLine(p, line).p.req.headers) <= p.headerBytes
  {
    var colon := IndexOf(line, ':').value;
    AddFieldBytes(p.req.headers, ToLower(Trim(line[..colon])), Trim(line[colon + 1..]));
  }

  lemma HeadersWithinLimits(p: Parser, b: string)
    requires WithinLimits(p) && p.state == Headers
    requires StepHeaders(p, b).Continue?
    ensures WithinLimits(StepHeaders(p, b).p)
  {
    var end := FindLineEnd(b).value;
    if end != 0 {
      HeaderLineWithinLimits(p.(headerBytes := p.headerBytes + end + 2), b[..end]);
    }
  }

  lemma RequestLineWithinLimits(p: Parser, b: string)
    requires WithinLimits(p)
    requires StepRequestLine(p, b).Continue?
    ensures WithinLimits(StepRequestLine(p, b).p)
  {
    var v := ParseRequestLine(p, b[..FindLineEnd(b).value]);
    assert v.p.req.headers == p.req.headers;
  }

  lemma StepWithinLimits(p: Parser, b: string)
    requires WithinLimits(p)
    requires Step(p, b).Continue?
    ensures WithinLimits(Step(p, b).p)
  {
    match p.state
    case RequestLine => RequestLineWithinLimits(p, b);
    case Headers => HeadersWithinLimits(p, b);
    case _ =>
  }

  /** A call that asks for more leaves the parser resting, within its limits, and holding
      fewer than MAX_BODY unparsed bytes. */
  lemma {:induction false} RestsWithinLimits(p: Parser, b: string)
    requires WithinLimits(p)
    ensures var o := ParseAll(p, b);
            && (o.result != Error ==> WithinLimits(o.p))
            && (o.result == NeedMore ==> Resting(o.p, o.rest) && |o.rest| < MAX_BODY)
    decreases |b|, Rank(p.state)
  {
    match Step(p, b)
    case Stop(_, _, _) =>
    case Continue(p', rest) =>
      StepWithinLimits(p, b);
      RestsWithinLimits(p', rest);
  }
}
