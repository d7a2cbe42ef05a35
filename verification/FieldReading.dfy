/** What the header block decides, said of the bytes: field names are compared letter by letter,
    whatever their case (src/http.cpp:9-13, 160-189, 242-253). */
module FieldReading {
  import opened Text
  import opened Http
  import opened RequestParsing
  import opened RequestGrammar

  // ---- case ----------------------------------------------------------------------------

  /** The same letter, or the same character: `A` to `Z` are 32 below `a` to `z`. */
  predicate SameLetter(a: char, b: char) {
    || a == b
    || (65 <= a as int <= 90 && b as int == a as int + 32)
    || (65 <= b as int <= 90 && a as int == b as int + 32)
  }

  predicate SameName(a: string, b: string) {
    |a| == |b| && forall i :: 0 <= i < |a| ==> SameLetter(a[i], b[i])
  }

  predicate NoCapitals(s: string) { forall i :: 0 <= i < |s| ==> !(65 <= s[i] as int <= 90) }

  /** Lower case is what makes names that differ in case alone equal, and no others. */
  lemma LowerIsSameName(a: string, b: string)
    ensures ToLower(a) == ToLower(b) <==> SameName(a, b)
  {
    if SameName(a, b) {
      assert forall i :: 0 <= i < |a| ==> ToLower(a)[i] == ToLower(b)[i];
    }
    if ToLower(a) == ToLower(b) {
      assert |a| == |ToLower(a)| == |ToLower(b)| == |b|;
      assert forall i :: 0 <= i < |a| ==> LowerChar(a[i]) == ToLower(a)[i] == ToLower(b)[i] == LowerChar(b[i]);
    }
  }

  lemma LowerStays(s: string)
    requires NoCapitals(s)
    ensures ToLower(s) == s
  {
  }

  lemma LowerIs(a: string, name: string)
    requires NoCapitals(name)
    ensures ToLower(a) == name <==> SameName(a, name)
  {
    LowerStays(name);
    LowerIsSameName(a, name);
  }

  /** The word occurs in the text, in whatever case. */
  predicate Mentions(text: string, word: string) { exists i :: 0 <= i <= |text| && MentionedAt(text, word, i) }

  predicate MentionedAt(text: string, word: string, i: nat) {
    i + |word| <= |text| && SameName(text[i..i + |word|], word)
  }

  lemma ContainsIsMentions(text: string, word: string)
    requires NoCapitals(word)
    ensures Contains(ToLower(text), word) <==> Mentions(text, word)
  {
    hide SameName;
    forall i: nat | i <= |text|
      ensures OccursAt(ToLower(text), word, i) <==> MentionedAt(text, word, i)
    {
      if i + |word| <= |text| {
        assert ToLower(text)[i..i + |word|] == ToLower(text[i..i + |word|]);
        LowerIs(text[i..i + |word|], word);
      }
    }
    if Contains(ToLower(text), word) {
      var i :| 0 <= i <= |text| && OccursAt(ToLower(text), word, i);
      assert MentionedAt(text, word, i);
    }
    if Mentions(text, word) {
      var i :| 0 <= i <= |text| && MentionedAt(text, word, i);
      assert OccursAt(ToLower(text), word, i);
    }
  }

  // ---- fields by name ----------------------------------------------------------------------

  /** The name on a field line, as sent. */
  function NameOn(line: string): string
    requires ':' in line
  {
    Trim(line[..IndexOf(line, ':').value])
  }

  /** The values given under a name in any case, in order. */
  function Given(lines: seq<string>, name: string): seq<string>
    requires FieldLines(lines)
  {
    if lines == [] then []
    else
      var front, last := lines[..|lines| - 1], lines[|lines| - 1];
      Given(front, name) + if SameName(NameOn(last), name) then [ValueIn(last)] else []
  }

  lemma {:induction false} GivenIsNamed(lines: seq<string>, name: string)
    requires FieldLines(lines) && NoCapitals(name)
    ensures Given(lines, name) == ValuesNamed(lines, name)
  {
    hide ValueIn, SameName, IsLine;
    if lines != [] {
      GivenIsNamed(lines[..|lines| - 1], name);
      LowerIs(NameOn(lines[|lines| - 1]), name);
    }
  }

  /** What `header` returns for any spelling of a name: the list of the values given. */
  lemma HeaderReads(r: HttpRequest, lines: seq<string>, spelling: string, name: string)
    requires FieldLines(lines) && HeadersMean(r.headers, lines)
    requires NoCapitals(name) && SameName(spelling, name)
    ensures r.Header(spelling) == Joined(Given(lines, name))
  {
    hide IsLine;
    GivenIsNamed(lines, name);
    LowerIs(spelling, name);
    assert name in r.headers <==> ValuesNamed(lines, name) != [];
  }

  lemma NamesAreLower()
    ensures NoCapitals("transfer-encoding") && NoCapitals("content-length") && NoCapitals("connection")
    ensures NoCapitals("close") && NoCapitals("keep-alive")
    ensures forall name :: SameName(name, name)
  {
  }

  // ---- what a head decides -------------------------------------------------------------------

  /** The persistence a request asks for. */
  predicate AsksToPersist(lines: seq<string>, version: string)
    requires FieldLines(lines)
  {
    var connection := Joined(Given(lines, "connection"));
    !Mentions(connection, "close") && (Mentions(connection, "keep-alive") || version == "HTTP/1.1")
  }

  datatype Fate = Refused(status: nat) | Waits | Finished(body: string, rest: string, persists: bool)

  /** What becomes of a request whose start line and fields are within the limits, with these
      bytes behind its head. */
  ghost function FateOf(lines: seq<string>, version: string, tail: string): Fate
    requires FieldLines(lines)
  {
    var coding, length := Joined(Given(lines, "transfer-encoding")), Joined(Given(lines, "content-length"));
    if coding != "" then Refused(501)
    else if length == "" then Finished("", tail, AsksToPersist(lines, version))
    else if n: nat :| LengthIs(length, n) then
      if n > MAX_BODY then Refused(413)
      else if n > |tail| then Waits
      else Finished(tail[..n], tail[n..], AsksToPersist(lines, version))
    else Refused(400)
  }

  /** The bytes of a head, and what follows it. */
  function HeadText(start: string, lines: seq<string>, tail: string): string {
    start + ("\r\n" + (LinesText(lines) + ("\r\n" + tail)))
  }

  predicate HeadWithin(r: HttpRequest, lines: seq<string>) {
    && StartOk(r) && IsLine(StartLine(r)) && |StartLine(r)| <= MAX_REQUEST_LINE
    && FieldLines(lines) && |LinesText(lines)| + 2 <= MAX_HEADER_BLOCK
  }

  /** The parser does what the head decides. In particular a Transfer-Encoding in any case is
      refused with 501 and never accepted. */
  lemma HeadDecides(r: HttpRequest, lines: seq<string>, tail: string)
    requires HeadWithin(r, lines)
    ensures var o := ParseAll(FRESH_PARSER, HeadText(StartLine(r), lines, tail));
            match FateOf(lines, r.version, tail)
            case Refused(status) => o.result == Error && o.p.error == status
            case Waits => o.result == NeedMore
            case Finished(body, rest, persists) =>
              o.result == Complete && o.rest == rest && o.p.req.body == body && o.p.req.keepAlive == persists
  {
    hide StepRequestLine, StepHeaders, ParseRequestLine, IsLine, HeadersMean, LinesText, StartOk, StartLine;
    hide FateOf, FinishHeaders;
    var rest := LinesText(lines) + ("\r\n" + tail);
    StartStep(StartLine(r), rest);
    StartLineParses(r);
    var p := FRESH_PARSER.(req := Started(r), state := Headers);
    assert ParseAll(FRESH_PARSER, HeadText(StartLine(r), lines, tail)) == ParseAll(p, rest);
    LinesParse(p, lines, "\r\n" + tail);
    NoLinesMean();
    AllAdded(map[], [], lines);
    assert [] + lines == lines;
    FinishDecides(HeadRead(r, lines), lines, r.version, tail);
  }

  lemma FinishDecides(p: Parser, lines: seq<string>, version: string, tail: string)
    requires p.state == Headers && p.contentLength == 0 && p.req.body == "" && p.headerBytes + 2 <= MAX_HEADER_BLOCK
    requires FieldLines(lines) && HeadersMean(p.req.headers, lines) && p.req.keepAlive == (version == "HTTP/1.1")
    ensures var o := ParseAll(p, "\r\n" + tail);
            match FateOf(lines, version, tail)
            case Refused(status) => o.result == Error && o.p.error == status
            case Waits => o.result == NeedMore
            case Finished(body, rest, persists) =>
              o.result == Complete && o.rest == rest && o.p.req.body == body && o.p.req.keepAlive == persists
  {
    hide FinishHeaders, LengthIs, Mentions, Contains, ToLower, HeadersMean, SameName, ParseAll, NoCapitals, IsLine;
    NamesAreLower();
    var q := p.(headerBytes := p.headerBytes + 2);
    HeaderReads(q.req, lines, "transfer-encoding", "transfer-encoding");
    HeaderReads(q.req, lines, "content-length", "content-length");
    HeaderReads(q.req, lines, "connection", "connection");
    ContainsIsMentions(q.req.Header("connection"), "close");
    ContainsIsMentions(q.req.Header("connection"), "keep-alive");
    FinishExact(q);
    HeadEnds(p, tail);
    HeadStops(p, tail);
    LengthIsOne(q.req.Header("content-length"));
    assert tail[..0] == "" && tail[0..] == tail;
  }

  lemma LengthIsOne(text: string)
    ensures forall m: nat, n: nat :: LengthIs(text, m) && LengthIs(text, n) && m <= MAX_BODY ==> m == n
  {
    hide StrToLL, LengthIs;
    LengthExact(text);
  }

  /** When the head does not lead to a finished request. */
  lemma HeadStops(p: Parser, tail: string)
    requires p.state == Headers && p.contentLength == 0 && p.headerBytes + 2 <= MAX_HEADER_BLOCK
    ensures var o, v := ParseAll(p, "\r\n" + tail), FinishHeaders(p.(headerBytes := p.headerBytes + 2));
            && (!v.ok ==> o.result == Error && o.p.error == v.p.error)
            && (v.ok && v.p.contentLength > |tail| ==> o.result == NeedMore)
  {
    hide FinishHeaders, ParseHeaderLine, StepRequestLine;
    LineDelimited("", tail);
    assert "" + ("\r\n" + tail) == "\r\n" + tail;
    var v := FinishHeaders(p.(headerBytes := p.headerBytes + 2));
    if v.ok {
      FinishExact(p.(headerBytes := p.headerBytes + 2));
      var q := v.p.(state := if v.p.contentLength > 0 then Body else Done);
      assert Step(p, "\r\n" + tail) == Continue(q, tail);
    }
  }
}
