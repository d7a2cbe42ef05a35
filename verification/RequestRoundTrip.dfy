/** Printing a well-formed request and parsing it again (src/http.cpp:121-270). */
module RequestRoundTrip {
  import opened Text
  import opened Http
  import opened RequestParsing
  import opened RequestGrammar

  type Fields = seq<(string, string)>

  /** The wire form of a request whose fields are printed in the given order. */
  function Printed(r: HttpRequest, fields: Fields): string {
    StartLine(r) + ("\r\n" + (HeaderLines(fields) + ("\r\n" + r.body)))
  }

  predicate FieldOk(f: (string, string)) {
    && f.0 != "" && Trimmed(f.0) && ToLower(f.0) == f.0 && ':' !in f.0 && '\n' !in f.0
    && Trimmed(f.1) && '\n' !in f.1
  }

  predicate FieldsOk(fields: Fields) {
    && (forall i :: 0 <= i < |fields| ==> FieldOk(fields[i]))
    && (forall i, j :: 0 <= i < j < |fields| ==> fields[i].0 != fields[j].0)
  }

  function FieldMap(fields: Fields): map<string, string> {
    if fields == [] then map[] else map[fields[0].0 := fields[0].1] + FieldMap(fields[1..])
  }

  predicate BodyOk(r: HttpRequest) {
    && |r.body| <= MAX_BODY
    && r.Header("transfer-encoding") == ""
    && (r.Header("content-length") == Decimal(|r.body|) || (r.body == "" && r.Header("content-length") == ""))
  }

  predicate WellFormed(r: HttpRequest, fields: Fields) {
    && StartOk(r) && '\n' !in StartLine(r) && |StartLine(r)| <= MAX_REQUEST_LINE
    && FieldsOk(fields) && r.headers == FieldMap(fields)
    && |HeaderLines(fields)| + 2 <= MAX_HEADER_BLOCK
    && BodyOk(r) && r.keepAlive == Persists(r, r.version == "HTTP/1.1")
  }

  lemma TrimTrimmed(s: string)
    requires Trimmed(s)
    ensures Trim(s) == s
    ensures Trim([' '] + s) == s
  {
    assert ([' '] + s)[1..] == s;
    assert TrimLeft(s) == s;
    assert TrimLeft([' '] + s) == s;
    assert TrimRight(s) == s;
  }

  function LineOf(f: (string, string)): string { f.0 + ": " + f.1 }

  function LinesOf(fields: Fields): seq<string> {
    if fields == [] then [] else [LineOf(fields[0])] + LinesOf(fields[1..])
  }

  lemma LineReads(f: (string, string))
    requires FieldOk(f)
    ensures var line := LineOf(f);
            FieldLine(line) && IsLine(line) && NameIn(line) == f.0 && ValueIn(line) == f.1
  {
    var line := LineOf(f);
    assert line == f.0 + [':'] + ([' '] + f.1);
    IndexOfAt(f.0, ':', [' '] + f.1);
    assert line[..|f.0|] == f.0 && line[|f.0| + 1..] == [' '] + f.1;
    TrimTrimmed(f.0);
    TrimTrimmed(f.1);
    assert '\n' !in line;
  }

  /** The lines printed are field lines. */
  lemma {:induction false} LinesPrinted(fields: Fields)
    requires FieldsOk(fields)
    ensures FieldLines(LinesOf(fields)) && LinesText(LinesOf(fields)) == HeaderLines(fields)
  {
    hide FieldOk, FieldLine, IsLine, LineOf, HeaderLine;
    if fields != [] {
      var f, more := fields[0], fields[1..];
      LineReads(f);
      LinesPrinted(more);
      LineThenLines(f, LinesOf(more));
    }
  }

  /** Adding them one by one gives the fields. */
  lemma {:induction false} LinesRead(headers: map<string, string>, fields: Fields)
    requires FieldsOk(fields) && forall i :: 0 <= i < |fields| ==> fields[i].0 !in headers
    ensures FieldLines(LinesOf(fields)) && AddAll(headers, LinesOf(fields)) == headers + FieldMap(fields)
    decreases |fields|
  {
    hide FieldOk, FieldLine, IsLine, NameIn, ValueIn, LineOf;
    LinesPrinted(fields);
    if fields == [] {
      assert headers + map[] == headers;
    } else {
      var f, more := fields[0], fields[1..];
      LineReads(f);
      LinesRead(headers[f.0 := f.1], more);
      assert LinesOf(fields)[1..] == LinesOf(more);
      assert headers[f.0 := f.1] + FieldMap(more) == headers + FieldMap(fields);
    }
  }

  lemma LineThenLines(f: (string, string), more: seq<string>)
    ensures LinesText([LineOf(f)] + more) == HeaderLine(f.0, f.1) + LinesText(more)
    ensures ([LineOf(f)] + more)[1..] == more
  {
    hide LineOf;
    assert ([LineOf(f)] + more)[1..] == more;
    LineIsPrinted(f, LinesText(more));
  }

  lemma LineIsPrinted(f: (string, string), rest: string)
    ensures LineOf(f) + ("\r\n" + rest) == HeaderLine(f.0, f.1) + rest
  {
    var line := LineOf(f);
    assert HeaderLine(f.0, f.1) == line + "\r\n";
    assert line + ("\r\n" + rest) == (line + "\r\n") + rest;
  }

  lemma DecimalIsLength(n: nat)
    ensures LengthIs(Decimal(n), n)
  {
    var d := Decimal(n);
    assert d == "" + ("" + (d + ""));
    assert LengthParts(d, "", "", d, "");
  }

  lemma NoLineFeed(line: string)
    requires '\n' !in line
    ensures IsLine(line)
  {
  }

  /** The header block printed means the fields. */
  lemma HeadersPrinted(fields: Fields)
    requires FieldsOk(fields)
    ensures FieldLines(LinesOf(fields)) && LinesText(LinesOf(fields)) == HeaderLines(fields)
    ensures HeadersMean(FieldMap(fields), LinesOf(fields))
  {
    hide FieldsOk, HeadersMean, FieldLines, LinesText, HeaderLines;
    LinesPrinted(fields);
    NoLinesMean();
    AllAdded(map[], [], LinesOf(fields));
    assert [] + LinesOf(fields) == LinesOf(fields);
    assert map[] + FieldMap(fields) == FieldMap(fields);
    LinesRead(map[], fields);
  }

  lemma WellFormedMeans(r: HttpRequest, fields: Fields)
    requires WellFormed(r, fields)
    ensures Means(Wire(StartLine(r), LinesOf(fields), r.body), r)
    ensures WireText(Wire(StartLine(r), LinesOf(fields), r.body)) == Printed(r, fields)
  {
    hide StartOk, StartLine, HeaderLines, LinesText, LengthIs, Persists, Decimal, FieldsOk, HeadersMean;
    hide FieldLines, IsLine, FieldMap, LinesOf;
    NoLineFeed(StartLine(r));
    HeadersPrinted(fields);
    DecimalIsLength(|r.body|);
  }

  /** Request round trip: parsing the wire form of a well-formed request, whatever follows
      it, yields exactly that request and leaves exactly what follows. */
  lemma ParsesWhatIsPrinted(r: HttpRequest, fields: Fields, suffix: string)
    requires WellFormed(r, fields)
    ensures var o := ParseAll(FRESH_PARSER, Printed(r, fields) + suffix);
            o.result == Complete && o.p.req == r && o.rest == suffix
  {
    hide WellFormed, Printed, ParseAll, Means, WireText;
    WellFormedMeans(r, fields);
    AcceptsMeant(Wire(StartLine(r), LinesOf(fields), r.body), r, suffix);
  }
}
