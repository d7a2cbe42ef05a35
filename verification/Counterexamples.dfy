/** Concrete inputs on which the code does not keep the general promise; the exact conditions
    are proved beside each promise. */
module Counterexamples {
  import opened Text
  import opened Http
  import opened RequestParsing
  import opened RequestGrammar
  import opened RequestRoundTrip
  import opened ConnectionHandling
  import opened ConnectionRuns
  import opened Fragmentation
  import opened ResponseStream
  import opened ClientFlags
  import FormCoding
  import FlatJson
  import KvStore
  import Metrics
  import Routing

  // ---- a request line cut inside its CRLF (src/http.cpp:194-206) -----------------------

  /** One wakeup that brings these bytes. */
  ghost function Wakeup(bytes: string, router: Router): seq<Call> {
    [Readable([Data(bytes)], Drained, [], router)]
  }

  lemma WakeupRuns(bytes: string, router: Router)
    ensures var calls := Wakeup(bytes, router);
            && Legal(calls) && Uses(calls, router) && OnlyDrained(calls) && StreamOf(calls) == bytes
            && Run(calls).conn.core == AtOnce(bytes, router)
  {
    hide Serve, Bytes, Perform;
    var calls := Wakeup(bytes, router);
    assert calls[..0] == [];
    assert [Data(bytes)][1..] == [];
    assert Received([Data(bytes)]) == bytes + Received([]);
    RunFollowsStream(calls, router);
  }

  /** The bad cut does happen: any request with a start line of exactly MAX_REQUEST_LINE bytes
      is routed when it arrives at once, and refused with 414 when the first wakeup ends
      between the CR and the LF of that line. */
  lemma LongLineCutHappens(r: HttpRequest, fields: Fields, router: Router)
    requires WellFormed(r, fields) && |StartLine(r)| == MAX_REQUEST_LINE
    ensures var stream, cut := Printed(r, fields), StartLine(r) + "\r";
            var whole, part := Wakeup(stream, router), Wakeup(cut, router);
            && Exhausted(whole, stream) && Exhausted(part, stream)
            && Requests(Run(whole).conn.core.log) == [r]
            && |Run(part).conn.core.log| == 1 && Run(part).conn.core.log[0].response.status == 414
            && Run(whole).conn.core.log != Run(part).conn.core.log
  {
    hide Run, Legal, WellFormed, Printed, StartLine, Step;
    var stream, cut := Printed(r, fields), StartLine(r) + "\r";
    WakeupRuns(stream, router);
    WakeupRuns(cut, router);
    CutRefused(r, fields, router);
    ParsesWhatIsPrinted(r, fields, "");
    PrintedNonempty(r, fields);
    assert stream + "" == stream;
    var first := Feed(NEW_CORE, stream);
    assert first.readBuffer == stream;
    SecondRequestIsLast(first, r, router);
    assert Requests(first.log) + [r] == [r];
    assert ServeTurn(first, router).log[0].routed;
    assert ServeTurn(first, router).log <= Serve(first, router).log;
  }

  lemma CutRefused(r: HttpRequest, fields: Fields, router: Router)
    requires WellFormed(r, fields) && |StartLine(r)| == MAX_REQUEST_LINE
    ensures var cut := StartLine(r) + "\r";
            && cut <= Printed(r, fields)
            && var c := AtOnce(cut, router);
               c.closing && |c.log| == 1 && c.log[0].response.status == 414 && !c.log[0].routed
  {
    hide StartLine, HeaderLines, StartOk, FieldsOk, BodyOk, Persists;
    var line := StartLine(r);
    var cut := line + "\r";
    CutIsPrefix(line, HeaderLines(fields) + ("\r\n" + r.body));
    assert '\n' !in cut;
    assert FindLineEnd(cut).None?;
    assert "" + cut == cut;
    assert Step(FRESH_PARSER, cut) == Stop(Error, FRESH_PARSER.(error := 414), cut);
  }

  lemma CutIsPrefix(line: string, tail: string)
    ensures line + "\r" <= line + ("\r\n" + tail)
  {
    assert line + ("\r\n" + tail) == (line + "\r") + ("\n" + tail);
  }

  /** There is such a request. */
  lemma LimitRequestFits()
    ensures WellFormed(LimitRequest(), []) && |StartLine(LimitRequest())| == MAX_REQUEST_LINE
  {
    hide Decimal, StartOk, Persists, StartLine;
    NoConnectionField(LimitRequest());
    LimitStartLine();
  }

  function LimitTarget(): string { ['/'] + seq(MAX_REQUEST_LINE - 14, i => 'a') }

  function LimitRequest(): HttpRequest {
    HttpRequest("GET", LimitTarget(), LimitTarget(), "", "HTTP/1.1", map[], "", true)
  }

  lemma LimitStartLine()
    ensures var r := LimitRequest();
            StartOk(r) && |StartLine(r)| == MAX_REQUEST_LINE && '\n' !in StartLine(r)
  {
    var r, target := LimitRequest(), LimitTarget();
    assert forall c :: c in target ==> c == '/' || c == 'a';
    assert '\n' !in target + [' '] + "HTTP/1.1";
    assert '\n' !in "GET" + [' '];
  }

  lemma NoConnectionField(r: HttpRequest)
    requires r.headers == map[]
    ensures Persists(r, true)
  {
  }

  // ---- a HEAD refused before its line is split (src/http.cpp:121-131, 196-206) ------------

  const HEAD_LINE := "HEAD /x"

  lemma HeadLineUnsplit()
    ensures IsLine(HEAD_LINE) && SentHead(HEAD_LINE) && !TwoSpaces(HEAD_LINE)
  {
    assert '\n' !in HEAD_LINE;
    assert HEAD_LINE[..5] == "HEAD ";
    assert HEAD_LINE == "HEAD" + [' '] + "/x";
    IndexOfAt("HEAD", ' ', "/x");
    assert HEAD_LINE[5..] == "/x";
    IndexOfAbsent("/x", ' ');
  }

  /** No second space: a 400 with a body for what the client knows to be a HEAD. */
  lemma HeadWithoutVersion(router: Router)
    ensures EndsInRefusedHead(Feed(NEW_CORE, HEAD_LINE + ("\r\n" + "")), router)
  {
    hide TwoSpaces, IsLine, HEAD_LINE, ParseRequestLine;
    var b := HEAD_LINE + ("\r\n" + "");
    HeadLineUnsplit();
    SplitToGoOn(HEAD_LINE);
    StartStep(HEAD_LINE, "");
    LineDelimited(HEAD_LINE, "");
    LineBegins(b);
    assert "" + b == b;
    assert ParseAll(FRESH_PARSER, b).result == Error by { HeadLineShort(); }
  }

  lemma HeadLineShort()
    ensures |HEAD_LINE| <= MAX_REQUEST_LINE
  {
  }

  /** And any unfinished line over the limit. */
  lemma HeadTooLong(line: string, router: Router)
    requires |line| > MAX_REQUEST_LINE && IsLine(line) && SentHead(line)
    ensures EndsInRefusedHead(Feed(NEW_CORE, line), router)
  {
    assert "" + line == line;
    assert Step(FRESH_PARSER, line) == Stop(Error, FRESH_PARSER.(error := 414), line);
  }

  // ---- a body where none is allowed (src/http.cpp:97-111) ------------------------------------

  /** The reader stops before the body of a 204 and takes it for the next response. */
  lemma BodyOn204(suffix: string)
    ensures var r := JsonResponse("{}", 204);
            ReadMessage(Serialize(r, false) + suffix, false) == Read(MessageOf(r, true), "{}" + suffix)
  {
    hide ReadMessage, Serialize, AllFields;
    var r := JsonResponse("{}", 204);
    ReadsAs(r, false, false, suffix);
    assert ("{}" + suffix)[..0] == "" && ("{}" + suffix)[0..] == "{}" + suffix;
  }

  // ---- a control character through the store (src/api.cpp:5-24, 159-205) ----------------------

  const CONTROL_BODY := "key=k&value=%01"
  const CONTROL: string := [1 as char]

  /** The body asks for the character 1 under the key "k". */
  lemma ControlWanted()
    ensures KvStore.WantedBy(BLANK_REQUEST.(body := CONTROL_BODY)) == KvStore.Wanted("k", CONTROL)
  {
    FormDecodes();
  }

  lemma PieceAdds(fields: FormCoding.Fields, name: string, value: string)
    requires '=' !in name
    ensures FormCoding.AddPiece(fields, name + ['='] + value) ==
              fields[FormCoding.UrlDecoded(name) := FormCoding.UrlDecoded(value)]
  {
    hide FormCoding.UrlDecoded;
    var piece := name + ['='] + value;
    IndexOfAt(name, '=', value);
    assert piece[..|name|] == name && piece[|name| + 1..] == value;
  }

  lemma TripletDecodes()
    ensures FormCoding.UrlDecoded("%01") == CONTROL
  {
    assert FormCoding.StartsTriplet("%01");
    assert "%01"[3..] == "";
    assert FormCoding.UrlDecoded("") == "";
  }

  lemma FormDecodes()
    ensures FormCoding.FormParsed(CONTROL_BODY, map[]) == map["key" := "k", "value" := CONTROL]
  {
    hide FormCoding.UrlDecoded, FormCoding.AddPiece;
    var first, second := "key" + ['='] + "k", "value" + ['='] + "%01";
    PieceAdds(map[], "key", "k");
    PieceAdds(map["key" := "k"], "value", "%01");
    FormCoding.SimpleDecodes("key");
    FormCoding.SimpleDecodes("k");
    FormCoding.SimpleDecodes("value");
    TripletDecodes();
    assert CONTROL_BODY == first + ['&'] + second;
    TwoPieces(first, second);
  }

  lemma TwoPieces(first: string, second: string)
    requires '&' !in first && '&' !in second && second != ""
    ensures FormCoding.FormParsed(first + ['&'] + second, map[]) ==
              FormCoding.AddPiece(FormCoding.AddPiece(map[], first), second)
  {
    hide FormCoding.AddPiece;
    var text := first + ['&'] + second;
    IndexOfAt(first, '&', second);
    IndexOfAbsent(second, '&');
    assert text[..|first|] == first && text[|first| + 1..] == second;
  }

  /** It is accepted, and what a get then sends back parses to something else. */
  lemma ControlCharacterIsLost()
    ensures var ops := [KvStore.PutOp(BLANK_REQUEST.(body := CONTROL_BODY))];
            && KvStore.LastStored(ops, "k") == Some(CONTROL)
            && var r := KvStore.GetResponse(KvStore.StoreAfter(ops), "k");
               r.status == 200 && FlatJson.ScanObject(r.body) != Some(map["key" := "k", "value" := CONTROL])
  {
    hide KvStore.WantedBy, FlatJson.ScanObject, KvStore.PairBody;
    var ops := [KvStore.PutOp(BLANK_REQUEST.(body := CONTROL_BODY))];
    ControlWanted();
    assert ops[..0] == [];
    assert KvStore.StoreAfter([]) == map[];
    assert KvStore.LastStored(ops, "k") == Some(CONTROL);
    assert !FlatJson.Clean(CONTROL) by { assert CONTROL[0] == 1 as char; }
    KvStore.GetReturnsLastStored(ops, "k");
  }

  // ---- a target of 0 (src/metrics.cpp:42-56) ---------------------------------------------------

  /** One request of 1000 microseconds: its median is reported as 50. */
  lemma MedianOfOne()
    ensures Metrics.Target(0.5, 1) == 0
    ensures Metrics.Upper(Metrics.Chosen(Metrics.Histogram([1000]), 0)) == 50
    ensures Metrics.Upper(Metrics.BucketOf(1000)) == 1000
  {
    Metrics.TargetZeroReportsFirstBound([1000]);
    assert Metrics.BOUNDS[4] == 1000;
  }

  // ---- HEAD without GET (src/router.cpp:12-43) ---------------------------------------------------

  /** The list names HEAD, and HEAD is answered with 405. */
  lemma HeadWithoutGet()
    ensures var keys: set<Routing.Key> := {("HEAD", "/x")};
            && Routing.Lists(keys, "/x", "HEAD")
            && "HEAD" in Routing.SplitList("HEAD") && !Routing.Dispatches(keys, "HEAD", "/x")
  {
    var keys: set<Routing.Key> := {("HEAD", "/x")};
    var order: seq<Routing.Key> := [("HEAD", "/x")];
    assert Routing.Enumerates(order, keys);
    assert order[1..] == [];
    assert Routing.AllowFrom("", order, "/x") == "HEAD";
    IndexOfAbsent("HEAD", ',');
  }
}
