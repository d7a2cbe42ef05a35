/** Which requests a client knows to be HEAD, and which of them the server takes for HEAD
    (src/http.cpp:121-139, 194-211, src/connection_handler.cpp:9-11, 52-61). */
module ClientFlags {
  import opened Text
  import opened Http
  import opened RequestParsing
  import opened ConnectionHandling
  import opened ConnectionRuns
  import opened Fragmentation
  import opened ResponseStream

  /** The client began its request with this method. */
  predicate SentHead(b: string) { "HEAD " <= b }

  predicate TwoSpaces(line: string) {
    IndexOf(line, ' ').Some? && IndexOf(line[IndexOf(line, ' ').value + 1..], ' ').Some?
  }

  /** The server got as far as splitting the request line. */
  predicate LineSplit(b: string) {
    match FindLineEnd(b)
    case None => false
    case Some(end) => end <= MAX_REQUEST_LINE && TwoSpaces(b[..end])
  }

  lemma FirstWord(line: string)
    requires IndexOf(line, ' ').Some?
    ensures line[..IndexOf(line, ' ').value] == "HEAD" <==> SentHead(line)
  {
    var i := IndexOf(line, ' ').value;
    IndexOfSplits(line, ' ');
    if SentHead(line) {
      IndexOfAt("HEAD", ' ', line[5..]);
      assert line == "HEAD" + [' '] + line[5..];
    }
    if line[..i] == "HEAD" {
      assert line[..5] == line[..4] + [line[4]];
      assert "HEAD" + [' '] == "HEAD ";
    }
  }

  lemma LineBegins(b: string)
    requires FindLineEnd(b).Some?
    ensures SentHead(b) <==> SentHead(b[..FindLineEnd(b).value])
  {
    var end := FindLineEnd(b).value;
    assert b[end] == '\r';
    if SentHead(b) {
      assert forall i :: 0 <= i < 5 ==> b[i] == "HEAD "[i];
      assert end >= 5;
      assert b[..end][..5] == b[..5];
    }
  }

  lemma {:induction false} VerbKept(p: Parser, b: string)
    requires p.state != RequestLine
    ensures ParseAll(p, b).p.req.verb == p.req.verb
    decreases |b|, Rank(p.state)
  {
    hide StepRequestLine, StepHeaders;
    HeadersKeepVerb(p, b);
    match Step(p, b)
    case Stop(_, _, _) =>
    case Continue(p', rest) => VerbKept(p', rest);
  }

  lemma HeadersKeepVerb(p: Parser, b: string)
    ensures StepHeaders(p, b).p.req.verb == p.req.verb
    ensures StepHeaders(p, b).Continue? ==> StepHeaders(p, b).p.state != RequestLine || p.state == RequestLine
  {
    hide FinishHeaders, ParseHeaderLine;
    if FindLineEnd(b).Some? {
      var q := p.(headerBytes := p.headerBytes + FindLineEnd(b).value + 2);
      FinishKeepsVerb(q);
      LineKeepsVerb(q, b[..FindLineEnd(b).value]);
    }
  }

  lemma FinishKeepsVerb(p: Parser)
    ensures FinishHeaders(p).p.req.verb == p.req.verb && FinishHeaders(p).p.state == p.state
  {
    hide StrToLL, ToLower, Contains;
  }

  lemma LineKeepsVerb(p: Parser, line: string)
    ensures ParseHeaderLine(p, line).p.req.verb == p.req.verb && ParseHeaderLine(p, line).p.state == p.state
  {
    hide ToLower, Trim, IndexOf;
  }

  lemma StartVerb(line: string)
    ensures ParseRequestLine(FRESH_PARSER, line).p.req.verb ==
              if TwoSpaces(line) then line[..IndexOf(line, ' ').value] else ""
  {
    hide IndexOf;
  }

  /** The server takes a request for HEAD exactly when the client sent HEAD and the line got
      split; a finished request always was. */
  lemma VerbSeen(b: string)
    ensures var o := ParseAll(FRESH_PARSER, b);
            && (o.result != NeedMore ==> (o.p.req.verb == "HEAD" <==> SentHead(b) && LineSplit(b)))
            && (o.result == Complete ==> LineSplit(b))
  {
    hide ParseRequestLine, TwoSpaces, SentHead;
    var end := FindLineEnd(b);
    if end.Some? && end.value <= MAX_REQUEST_LINE {
      var line := b[..end.value];
      StartVerb(line);
      LineBegins(b);
      if TwoSpaces(line) {
        SpacesFirst(line);
        FirstWord(line);
      }
      match Step(FRESH_PARSER, b)
      case Stop(_, _, _) =>
      case Continue(p, rest) =>
        VerbKept(p, rest);
        SplitToGoOn(line);
    }
  }

  lemma SpacesFirst(line: string)
    requires TwoSpaces(line)
    ensures IndexOf(line, ' ').Some?
  {
  }

  lemma SplitToGoOn(line: string)
    ensures ParseRequestLine(FRESH_PARSER, line).ok ==> TwoSpaces(line)
  {
  }

  // ---- a whole stream -----------------------------------------------------------------

  /** The flags of the requests answered, as the client knows them from what it sent. */
  function ClientHeads(c: Core, router: Router): seq<bool>
    decreases |c.readBuffer|, ServeRank(c.parser.state)
  {
    if c.readBuffer == "" || ParseAll(c.parser, c.readBuffer).result == NeedMore then []
    else [SentHead(c.readBuffer)] + if GoesOn(c, router) then ClientHeads(ServeTurn(c, router), router) else []
  }

  /** The stream ends in a HEAD refused before its line was split. */
  predicate EndsInRefusedHead(c: Core, router: Router)
    decreases |c.readBuffer|, ServeRank(c.parser.state)
  {
    c.readBuffer != "" &&
    if GoesOn(c, router) then EndsInRefusedHead(ServeTurn(c, router), router)
    else
      ParseAll(c.parser, c.readBuffer).result == Error && SentHead(c.readBuffer) && !LineSplit(c.readBuffer)
  }

  ghost function Added(c: Core, router: Router): seq<Answer> { Serve(c, router).log[|c.log|..] }

  /** One turn from a new parser, with the flag of the answer it adds. */
  lemma TurnFlag(c: Core, router: Router)
    requires c.parser == FRESH_PARSER && ParseAll(c.parser, c.readBuffer).result != NeedMore
    ensures var d := ServeTurn(c, router);
            && |d.log| == |c.log| + 1 && d.log == c.log + [d.log[|c.log|]]
            && var a := d.log[|c.log|];
               && (a.request.verb == "HEAD" <==> SentHead(c.readBuffer) && LineSplit(c.readBuffer))
               && (!LineSplit(c.readBuffer) ==>
                     ParseAll(c.parser, c.readBuffer).result == Error && a.response.body != "")
  {
    hide Step, LineSplit, SentHead;
    VerbSeen(c.readBuffer);
    BodyOfRefusal(ParseAll(c.parser, c.readBuffer).p);
  }

  lemma BodyOfRefusal(p: Parser)
    ensures Rejection(p).response.body != ""
  {
    hide Decimal, StatusMessage;
  }

  /** The client's flags are the server's, but perhaps for the last answer: the client may have
      flagged one that carries a body. */
  predicate FlagsFit(log: seq<Answer>, flags: seq<bool>) {
    && |flags| == |log|
    && (forall i :: 0 <= i < |log| && flags[i] != Heads(log)[i] ==>
          i == |log| - 1 && flags[i] && log[i].response.body != "")
  }

  /** Such flags frame answers that can be decoded at all exactly when they are the server's. */
  lemma FittingFrames(log: seq<Answer>, flags: seq<bool>)
    requires FlagsFit(log, flags) && forall i :: 0 <= i < |log| ==> Framed(log[i], Heads(log)[i])
    ensures |flags| == |log| && (AllFramed(log, flags) <==> flags == Heads(log))
  {
    forall i | 0 <= i < |log| ensures Framed(log[i], flags[i]) <==> flags[i] == Heads(log)[i] {
    }
  }

  /** The client's flags are the server's, exactly unless the stream ends in a HEAD refused
      before its line was split; and then the last flag alone is wrong, on an answer with a body. */
  lemma {:induction false} FlagsFollow(c: Core, router: Router)
    requires c.parser == FRESH_PARSER
    ensures FlagsFit(Added(c, router), ClientHeads(c, router))
    ensures ClientHeads(c, router) == Heads(Added(c, router)) <==> !EndsInRefusedHead(c, router)
    decreases |c.readBuffer|, ServeRank(c.parser.state)
  {
    hide Step, ParseAll, LineSplit, SentHead, FlagsFit, Heads;
    if c.readBuffer == "" || ParseAll(c.parser, c.readBuffer).result == NeedMore {
      assert Added(c, router) == [];
      NoFlags();
    } else {
      TurnFlag(c, router);
      var d := ServeTurn(c, router);
      var a := d.log[|c.log|];
      if GoesOn(c, router) {
        FlagsFollow(d, router);
        assert Added(c, router) == [a] + Added(d, router);
        FlagsCons(a, Added(d, router), SentHead(c.readBuffer), ClientHeads(d, router));
      } else {
        assert Added(c, router) == [a] + [];
        NoFlags();
        FlagsCons(a, [], SentHead(c.readBuffer), []);
      }
    }
  }

  lemma NoFlags()
    ensures FlagsFit([], []) && Heads([]) == []
  {
  }

  lemma FlagsCons(a: Answer, more: seq<Answer>, flag: bool, flags: seq<bool>)
    requires FlagsFit(more, flags)
    requires flag != (a.request.verb == "HEAD") ==> more == [] && flag && a.response.body != ""
    ensures FlagsFit([a] + more, [flag] + flags)
    ensures [flag] + flags == Heads([a] + more) <==> flags == Heads(more) && flag == (a.request.verb == "HEAD")
  {
    hide Heads, Messages;
    LogCons(a, more);
    HeadsSize(more);
    SameCons(flag, flags, a.request.verb == "HEAD", Heads(more));
    var log, all := [a] + more, [flag] + flags;
    forall i | 0 <= i < |log| && all[i] != Heads(log)[i]
      ensures i == |log| - 1 && all[i] && log[i].response.body != ""
    {
      if i > 0 {
        assert all[i] == flags[i - 1] && Heads(log)[i] == Heads(more)[i - 1] && log[i] == more[i - 1];
      }
    }
  }

  lemma HeadsSize(log: seq<Answer>)
    ensures |Heads(log)| == |log|
  {
  }

  lemma FramedEach(log: seq<Answer>)
    requires |Heads(log)| == |log| && AllFramed(log, Heads(log))
    ensures forall i :: 0 <= i < |log| ==> Framed(log[i], Heads(log)[i])
  {
    hide Framed, Heads;
  }

  /** A client decodes the answers to its stream with the flags it knows exactly unless the
      stream ends in a HEAD refused before its line was split. */
  lemma ClientDecodes(stream: string, router: Router, suffix: string)
    requires forall a :: a in AtOnce(stream, router).log ==> Decodable(a)
    ensures var c, log := Feed(NEW_CORE, stream), AtOnce(stream, router).log;
            ReadStream(AllBytes(log) + suffix, ClientHeads(c, router)) == Read(Messages(log), suffix)
            <==> !EndsInRefusedHead(c, router)
  {
    hide Serve, ClientHeads, EndsInRefusedHead, Decodable, FlagsFit, Heads, ReadStream, AllBytes, Messages, AllFramed;
    var c, log := Feed(NEW_CORE, stream), AtOnce(stream, router).log;
    FlagsFollow(c, router);
    assert Added(c, router) == log;
    HeadsAre(log);
    assert forall i :: 0 <= i < |log| ==> Framed(log[i], Heads(log)[i]) by { FramedEach(log); }
    FittingFrames(log, ClientHeads(c, router));
    ReadsByFlags(log, ClientHeads(c, router), suffix);
  }

  /** And so in every legal run that lost no answer, however its stream was cut. */
  lemma RunDecodes(calls: seq<Call>, router: Router, suffix: string)
    requires Legal(calls) && Uses(calls, router) && EndSpares(calls, router)
    requires forall a :: a in Run(calls).conn.core.log ==> Decodable(a)
    ensures var c, log := Feed(NEW_CORE, StreamOf(calls)), Run(calls).conn.core.log;
            ReadStream(AllBytes(log) + suffix, ClientHeads(c, router)) == Read(Messages(log), suffix)
            <==> !EndsInRefusedHead(c, router)
  {
    hide Legal, EndSpares, Run, AtOnce, Decodable, ReadStream, AllBytes, Messages, ClientHeads, EndsInRefusedHead;
    RunFollowsStream(calls, router);
    ClientDecodes(StreamOf(calls), router, suffix);
  }
}
