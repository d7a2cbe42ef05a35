/** Fragmentation does not matter: how a byte stream is cut into wakeups decides neither
    which requests are routed nor what is queued (README.md:113-117,
    src/connection_handler.cpp:21-108). */
module Fragmentation {
  import opened Text
  import opened Http
  import opened RequestParsing
  import opened ParserStability
  import opened RequestRoundTrip
  import opened ConnectionHandling
  import opened ConnectionRuns

  /** The reference: the whole stream arrives at once on a new connection. */
  function AtOnce(stream: string, router: Router): Core {
    Serve(Feed(NEW_CORE, stream), router)
  }

  /** Serving this buffer ends in a 414 that `more` would have averted (see LongLineCut). */
  predicate EndsInLongLineCut(c: Core, more: string, router: Router)
    decreases |c.readBuffer|, ServeRank(c.parser.state)
  {
    c.readBuffer != "" &&
    if GoesOn(c, router) then EndsInLongLineCut(ServeTurn(c, router), more, router)
    else
      ParseAll(c.parser, c.readBuffer).result == Error && LongLineCut(c.parser, c.readBuffer, more)
  }

  /** One turn of the loop is unaffected by bytes behind the request it finishes. */
  lemma TurnExtends(c: Core, more: string, router: Router)
    requires c.readBuffer != "" && GoesOn(c, router)
    ensures GoesOn(Feed(c, more), router)
    ensures ServeTurn(Feed(c, more), router) == Feed(ServeTurn(c, router), more)
  {
    hide Step;
    ParseExtends(c.parser, c.readBuffer, more);
  }

  /** Serving now and going on later equals serving everything later, as long as the
      connection stays open. */
  lemma {:induction false} ServeResumes(c: Core, more: string, router: Router)
    requires !Serve(c, router).closing
    ensures Serve(Feed(c, more), router) == Serve(Feed(Serve(c, router), more), router)
    decreases |c.readBuffer|, ServeRank(c.parser.state)
  {
    hide Step;
    if c.readBuffer != "" {
      if GoesOn(c, router) {
        TurnExtends(c, more, router);
        ServeResumes(ServeTurn(c, router), more, router);
      } else {
        ParseExtends(c.parser, c.readBuffer, more);
        assert more == "" ==> c.readBuffer + more == c.readBuffer;
      }
    }
  }

  /** Once serving has closed the connection, later bytes make no difference to what was
      answered, exactly unless the buffer ended in a LongLineCut. */
  lemma {:induction false} ServeClosed(c: Core, more: string, router: Router)
    requires !c.closing && Serve(c, router).closing
    ensures Serve(Feed(c, more), router).log == Serve(c, router).log <==> !EndsInLongLineCut(c, more, router)
    decreases |c.readBuffer|, ServeRank(c.parser.state)
  {
    hide Step;
    if GoesOn(c, router) {
      TurnExtends(c, more, router);
      ServeClosed(ServeTurn(c, router), more, router);
    } else {
      LastTurnClosed(c, more, router);
    }
  }

  lemma LastTurnClosed(c: Core, more: string, router: Router)
    requires c.readBuffer != "" && !c.closing && !GoesOn(c, router) && ServeTurn(c, router).closing
    ensures Serve(Feed(c, more), router).log == ServeTurn(c, router).log <==> !EndsInLongLineCut(c, more, router)
  {
    hide Step;
    ParseExtends(c.parser, c.readBuffer, more);
    if EndsInLongLineCut(c, more, router) {
      LongLineParses(c.parser, c.readBuffer, more);
      var w := ParseAll(c.parser, c.readBuffer + more);
      var turn := ServeTurn(Feed(c, more), router);
      assert turn.log <= Serve(Feed(c, more), router).log;
      assert w.result != NeedMore ==> turn.log[|c.log|] != ServeTurn(c, router).log[|c.log|];
    }
  }

  /** What is buffered answers at most one request: there is nothing to parse, or it is not a
      finished request, or its answer closes the connection, or what follows it is nothing or
      an unfinished request. */
  predicate AsksForOne(c: Core, router: Router) {
    c.readBuffer == "" ||
    var o := ParseAll(c.parser, c.readBuffer);
    || o.result != Complete
    || !Answered(o.p.req, router(Requests(c.log) + [o.p.req]), true).response.keepAlive
    || o.rest == ""
    || ParseAll(FRESH_PARSER, o.rest).result == NeedMore
  }

  /** A drain that ends in the peer's FIN answers what it would have answered, cut off after
      the first answer; it loses nothing exactly when what is buffered asks for one at most. */
  lemma FinAnswersOne(c: Core, router: Router)
    requires !c.closing
    ensures var all, fin := Serve(c, router).log, Serve(c.(closing := true), router).log;
            && fin == all[..if |all| > |c.log| + 1 then |c.log| + 1 else |all|]
            && (fin == all <==> AsksForOne(c, router))
  {
    hide Step;
    if c.readBuffer != "" {
      var fin := c.(closing := true);
      assert !GoesOn(fin, router);
      assert ServeTurn(fin, router).log == ServeTurn(c, router).log;
      if GoesOn(c, router) {
        SecondAnswer(ServeTurn(c, router), router);
      }
    }
  }

  /** On a new request the loop answers nothing exactly when it has nothing finished. */
  lemma SecondAnswer(c: Core, router: Router)
    requires c.parser == FRESH_PARSER
    ensures Serve(c, router).log == c.log <==>
              c.readBuffer == "" || ParseAll(FRESH_PARSER, c.readBuffer).result == NeedMore
  {
    hide Step;
    if c.readBuffer != "" {
      assert ServeTurn(c, router).log <= Serve(c, router).log;
    }
  }

  /** A drain that ends in an error answers nothing; it loses nothing exactly when what is
      buffered finishes nothing. */
  predicate AsksForNothing(c: Core) {
    c.readBuffer == "" || ParseAll(c.parser, c.readBuffer).result == NeedMore
  }

  lemma FailureAnswersNothing(c: Core, router: Router)
    ensures c.log == Serve(c, router).log <==> AsksForNothing(c)
  {
    hide Step;
    if c.readBuffer != "" {
      assert ServeTurn(c, router).log <= Serve(c, router).log;
    }
  }

  /** The FIN case does happen: two pipelined requests and a FIN in one drain. */
  lemma PipelinedRequestsAndFin(r: HttpRequest, fields: Fields, s: HttpRequest, more: Fields, router: Router)
    requires WellFormed(r, fields) && WellFormed(s, more)
    requires r.keepAlive && router([r]).keepAlive
    ensures var c := Feed(NEW_CORE, Printed(r, fields) + Printed(s, more));
            && Requests(Serve(c, router).log) == [r, s]
            && Requests(Serve(c.(closing := true), router).log) == [r]
  {
    hide Step, WellFormed, Printed;
    var c := Feed(NEW_CORE, Printed(r, fields) + Printed(s, more));
    ParsesWhatIsPrinted(r, fields, Printed(s, more));
    PrintedNonempty(r, fields);
    PrintedNonempty(s, more);
    assert c.readBuffer == Printed(r, fields) + Printed(s, more);
    assert Requests([]) + [r] == [r];
    var d := ServeTurn(c, router);
    assert GoesOn(c, router) && d.readBuffer == Printed(s, more) && d.parser == FRESH_PARSER;
    ParsesWhatIsPrinted(s, more, "");
    assert Printed(s, more) + "" == Printed(s, more);
    assert Requests(d.log) == [r];
    SecondRequestIsLast(d, s, router);
    FinAnswersOne(c, router);
  }

  lemma SecondRequestIsLast(d: Core, s: HttpRequest, router: Router)
    requires d.readBuffer != ""
    requires ParseAll(d.parser, d.readBuffer).result == Complete
    requires ParseAll(d.parser, d.readBuffer).p.req == s && ParseAll(d.parser, d.readBuffer).rest == ""
    ensures Requests(Serve(d, router).log) == Requests(d.log) + [s]
  {
    hide Step;
  }

  lemma PrintedNonempty(r: HttpRequest, fields: Fields)
    ensures Printed(r, fields) != ""
  {
  }

  // ---- runs ----------------------------------------------------------------

  ghost function StreamOf(calls: seq<Call>): string {
    if calls == [] then ""
    else
      var last := calls[|calls| - 1];
      StreamOf(calls[..|calls| - 1]) + if last.Readable? then Received(last.items) else ""
  }

  /** The router's answers depend only on the requests of this connection. */
  ghost predicate Uses(calls: seq<Call>, router: Router) {
    forall i :: 0 <= i < |calls| && calls[i].Readable? ==> calls[i].router == router
  }

  /** No drain that brought data ended in FIN or in an error. */
  ghost predicate Clean(calls: seq<Call>) {
    forall i :: 0 <= i < |calls| && calls[i].Readable? && Received(calls[i].items) != "" ==>
      calls[i].end == Drained
  }

  ghost predicate OnlyDrained(calls: seq<Call>) {
    forall i :: 0 <= i < |calls| && calls[i].Readable? ==> calls[i].end == Drained
  }

  /** A drain that leaves this behind loses no answer by the way it ended. */
  predicate DrainSpares(c: Core, end: DrainEnd, router: Router) {
    match end
    case Drained => true
    case PeerClosed => AsksForOne(c, router)
    case Failed => AsksForNothing(c)
  }

  /** Nor does the last drain of a run. What it finds buffered is what the stream so far
      leaves when it arrives at once, and the bytes it brings. */
  ghost predicate EndSpares(calls: seq<Call>, router: Router) {
    calls == [] ||
    var front, last := calls[..|calls| - 1], calls[|calls| - 1];
    match last
    case Writable(_) => EndSpares(front, router)
    case Readable(items, end, _, _) =>
      DrainSpares(Feed(AtOnce(StreamOf(front), router), Received(items)), end, router)
  }

  /** One read on a connection that is where the stream puts it. */
  lemma ReadFollows(stream: string, call: Call, router: Router)
    requires !AtOnce(stream, router).closing
    requires call.Readable? && call.router == router
    ensures var c, d := AtOnce(stream, router), AtOnce(stream + Received(call.items), router);
            var after := CoreAfter(c, call);
            && (call.end == Drained ==> after == d)
            && (after.log == d.log <==> DrainSpares(Feed(c, Received(call.items)), call.end, router))
            && (Received(call.items) == "" ==> after.log == d.log)
            && after.log <= d.log
            && (call.end != Failed && !after.closing ==> after == d)
  {
    hide ServeTurn, GoesOn, Received, AsksForOne, AsksForNothing;
    var c, data := AtOnce(stream, router), Received(call.items);
    var first := Feed(NEW_CORE, stream);
    assert Feed(first, data) == Feed(NEW_CORE, stream + data);
    ServeResumes(first, data, router);
    ServeResumes(first, "", router);
    assert Feed(first, "") == first && Feed(c, "") == c;
    assert Serve(c, router) == c;
    FinAnswersOne(Feed(c, data), router);
    FailureAnswersNothing(Feed(c, data), router);
  }

  /** Every legal run answers what the stream answers when it arrives at once: always a
      prefix of it, all of it exactly when the way the last drain ended lost nothing, and with
      the very same parser and buffer while the connection is open. */
  lemma {:induction false} RunFollowsStream(calls: seq<Call>, router: Router)
    requires Legal(calls) && Uses(calls, router)
    ensures var h, d := Run(calls), AtOnce(StreamOf(calls), router);
            && h.conn.core.log <= d.log
            && (h.conn.core.log == d.log <==> EndSpares(calls, router))
            && (Clean(calls) ==> EndSpares(calls, router))
            && (OnlyDrained(calls) ==> h.conn.core == d)
            && (h.action != Close && !h.conn.core.closing ==> h.conn.core == d)
  {
    hide Bytes, Serve, Received, DrainSpares;
    if calls == [] {
      EmptyStream(router);
    } else {
      var front, last := calls[..|calls| - 1], calls[|calls| - 1];
      assert forall i :: 0 <= i < |front| ==> front[i] == calls[i];
      RunFollowsStream(front, router);
      OutputIntegrity(front);
      PerformCore(Run(front).conn, last);
      assert calls[|calls| - 1] == last;
      if last.Readable? {
        ReadFollows(StreamOf(front), last, router);
      } else {
        WriteFollows(calls);
      }
    }
  }

  lemma EmptyStream(router: Router)
    ensures AtOnce("", router) == NEW_CORE
  {
    assert Feed(NEW_CORE, "") == NEW_CORE;
  }

  lemma WriteFollows(calls: seq<Call>)
    requires Legal(calls) && calls != [] && calls[|calls| - 1].Writable?
    ensures var front := calls[..|calls| - 1];
            StreamOf(calls) == StreamOf(front) && Run(front).action == WaitWrite
  {
    assert StreamOf(calls) == StreamOf(calls[..|calls| - 1]) + "";
  }

  /** A run is over for `stream` when it has read all of it, or the server has closed the
      connection on what it had read. */
  ghost predicate Exhausted(calls: seq<Call>, stream: string) {
    && StreamOf(calls) <= stream
    && (StreamOf(calls) == stream || (OnlyDrained(calls) && Run(calls).conn.core.closing))
  }

  /** Exactly when a run that is over for a stream has answered what the stream asks for:
      unless its last drain mixed data and an end that cut answers off, or its last cut fell
      between the CR and the LF of a request line of exactly MAX_REQUEST_LINE bytes. */
  lemma RunDecidedByStream(calls: seq<Call>, stream: string, router: Router)
    requires Legal(calls) && Uses(calls, router) && Exhausted(calls, stream)
    ensures var seen := StreamOf(calls);
            Run(calls).conn.core.log == AtOnce(stream, router).log <==>
            EndSpares(calls, router) && !EndsInLongLineCut(Feed(NEW_CORE, seen), stream[|seen|..], router)
  {
    hide Bytes, Serve, Run, Received, Legal, EndSpares;
    RunFollowsStream(calls, router);
    var seen := StreamOf(calls);
    var first := Feed(NEW_CORE, seen);
    if seen == stream {
      NoCutWithoutMore(first, router);
    } else {
      assert Feed(first, stream[|seen|..]) == Feed(NEW_CORE, stream);
      ServeClosed(first, stream[|seen|..], router);
    }
  }

  lemma {:induction false} NoCutWithoutMore(c: Core, router: Router)
    ensures !EndsInLongLineCut(c, "", router)
    decreases |c.readBuffer|, ServeRank(c.parser.state)
  {
    hide Step;
    if c.readBuffer != "" && GoesOn(c, router) {
      NoCutWithoutMore(ServeTurn(c, router), router);
    }
  }

  /** Fragmentation invariance. Two legal runs over one stream, cut into wakeups in any two
      ways and flushed through any two patterns of partial sends, route the same requests in
      the same order and queue the same bytes. */
  lemma FragmentationInvariance(one: seq<Call>, two: seq<Call>, stream: string, router: Router)
    requires Legal(one) && Uses(one, router) && Exhausted(one, stream) && EndSpares(one, router)
    requires Legal(two) && Uses(two, router) && Exhausted(two, stream) && EndSpares(two, router)
    requires !EndsInLongLineCut(Feed(NEW_CORE, StreamOf(one)), stream[|StreamOf(one)|..], router)
    requires !EndsInLongLineCut(Feed(NEW_CORE, StreamOf(two)), stream[|StreamOf(two)|..], router)
    ensures var c, d := Run(one).conn, Run(two).conn;
            && Requests(c.core.log) == Requests(d.core.log)
            && c.core.log == d.core.log
            && c.sent + c.writeBuffer[c.writeOffset..] == d.sent + d.writeBuffer[d.writeOffset..]
  {
    hide Bytes, Serve, Run, Received, Legal, EndSpares;
    RunDecidedByStream(one, stream, router);
    RunDecidedByStream(two, stream, router);
    OutputIntegrity(one);
    OutputIntegrity(two);
  }

  /** Some request line of the stream is of exactly MAX_REQUEST_LINE bytes. */
  predicate HasLimitLine(stream: string)
    decreases |stream|
  {
    FindLineEnd(stream) == Some(MAX_REQUEST_LINE) ||
    var o := ParseAll(FRESH_PARSER, stream);
    o.result == Complete && HasLimitLine(o.rest)
  }

  /** Only such a line can be cut badly. */
  lemma {:induction false} CutNeedsLimitLine(c: Core, more: string, router: Router)
    requires c.parser == FRESH_PARSER && EndsInLongLineCut(c, more, router)
    ensures HasLimitLine(c.readBuffer + more)
    decreases |c.readBuffer|
  {
    hide Step;
    ParseExtends(FRESH_PARSER, c.readBuffer, more);
    if GoesOn(c, router) {
      CutNeedsLimitLine(ServeTurn(c, router), more, router);
    } else {
      FindLineEndExtends(c.readBuffer, more);
      assert LineEndAt(c.readBuffer + more, MAX_REQUEST_LINE);
    }
  }

  /** On a stream none of whose request lines is of exactly MAX_REQUEST_LINE bytes, no two
      clean runs differ. */
  lemma CutsDoNotMatter(one: seq<Call>, two: seq<Call>, stream: string, router: Router)
    requires !HasLimitLine(stream)
    requires Legal(one) && Uses(one, router) && Exhausted(one, stream) && Clean(one)
    requires Legal(two) && Uses(two, router) && Exhausted(two, stream) && Clean(two)
    ensures var c, d := Run(one).conn, Run(two).conn;
            && c.core.log == d.core.log
            && c.sent + c.writeBuffer[c.writeOffset..] == d.sent + d.writeBuffer[d.writeOffset..]
  {
    hide Bytes, Serve, Run, Received, Legal, EndSpares, EndsInLongLineCut, HasLimitLine, Clean;
    forall calls | calls == one || calls == two
      ensures EndSpares(calls, router)
      ensures !EndsInLongLineCut(Feed(NEW_CORE, StreamOf(calls)), stream[|StreamOf(calls)|..], router)
    {
      RunFollowsStream(calls, router);
      var seen := Feed(NEW_CORE, StreamOf(calls));
      assert seen.readBuffer + stream[|StreamOf(calls)|..] == stream;
      if EndsInLongLineCut(seen, stream[|StreamOf(calls)|..], router) {
        CutNeedsLimitLine(seen, stream[|StreamOf(calls)|..], router);
      }
    }
    FragmentationInvariance(one, two, stream, router);
  }
}
