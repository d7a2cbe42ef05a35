/** What each answer is, and when a connection persists (src/connection_handler.cpp:9-14, 52-75,
    src/http.cpp:84-104, sections 9.3 and 9.6 of RFC 9112). */
module Persistence {
  import opened Text
  import opened Http
  import opened RequestParsing
  import opened ConnectionHandling
  import opened ConnectionRuns
  import opened Fragmentation
  import opened ResponseStream

  /** The i-th answer is the router's to the requests so far, persistent only if the request
      is; or it refuses a malformed request and never persists. */
  predicate AnsweredAsRouted(log: seq<Answer>, i: nat, router: Router)
    requires i < |log|
  {
    if log[i].routed then
      var w := router(Requests(log)[..i + 1]);
      log[i].response == w.(keepAlive := w.keepAlive && log[i].request.keepAlive)
    else
      !log[i].response.keepAlive && !log[i].request.keepAlive && log[i].response.extraHeaders == []
      && log[i].response.status in {400, 413, 414, 431, 501, 505}
  }

  /** An answer that does not persist is the last one, and leaves the connection closing. */
  predicate EndsThere(c: Core, i: nat)
    requires i < |c.log|
  {
    !(c.log[i].response.keepAlive && c.log[i].request.keepAlive) ==> i == |c.log| - 1 && c.closing
  }

  predicate AsRouted(c: Core, router: Router) {
    forall i :: 0 <= i < |c.log| ==> AnsweredAsRouted(c.log, i, router) && EndsThere(c, i)
  }

  /** Every status the parser can refuse with. */
  predicate Refuses(p: Parser) { p.error in {400, 413, 414, 431, 501, 505} }

  lemma {:induction false} ParserRefuses(p: Parser, b: string)
    requires Refuses(p)
    ensures Refuses(ParseAll(p, b).p)
    decreases |b|, Rank(p.state)
  {
    hide StepRequestLine, StepHeaders;
    StepRefuses(p, b);
    match Step(p, b)
    case Stop(_, _, _) =>
    case Continue(p', rest) => ParserRefuses(p', rest);
  }

  lemma StepRefuses(p: Parser, b: string)
    requires Refuses(p)
    ensures Refuses(StepRequestLine(p, b).p) && Refuses(StepHeaders(p, b).p)
  {
    hide ParseRequestLine, ParseHeaderLine, FinishHeaders;
    if FindLineEnd(b).Some? {
      var line := b[..FindLineEnd(b).value];
      var q := p.(headerBytes := p.headerBytes + |line| + 2);
      PiecesRefuse(p, line);
      PiecesRefuse(q, line);
    }
  }

  lemma PiecesRefuse(p: Parser, line: string)
    requires Refuses(p)
    ensures Refuses(ParseRequestLine(p, line).p) && Refuses(ParseHeaderLine(p, line).p)
    ensures Refuses(FinishHeaders(p).p)
  {
    hide Contains, ToLower, StrToLL, IndexOf, Trim;
  }

  lemma RejectionIs(p: Parser)
    ensures var a := Rejection(p);
            && !a.routed && !a.response.keepAlive && !a.request.keepAlive
            && a.response.status == p.error && a.response.extraHeaders == []
  {
    hide Decimal, StatusMessage;
  }

  /** One turn of the loop. */
  lemma TurnAsRouted(c: Core, router: Router)
    requires AsRouted(c, router) && Refuses(c.parser) && c.readBuffer != ""
    requires forall i :: 0 <= i < |c.log| ==> c.log[i].response.keepAlive && c.log[i].request.keepAlive
    ensures var d := ServeTurn(c, router);
            && AsRouted(d, router) && Refuses(d.parser)
            && (!d.closing ==>
                  forall i :: 0 <= i < |d.log| ==> d.log[i].response.keepAlive && d.log[i].request.keepAlive)
  {
    hide Step, ErrorResponse;
    var d, o := ServeTurn(c, router), ParseAll(c.parser, c.readBuffer);
    ParserRefuses(c.parser, c.readBuffer);
    RejectionIs(o.p);
    forall i | 0 <= i < |d.log| ensures AnsweredAsRouted(d.log, i, router) && EndsThere(d, i) {
      if i < |c.log| {
        assert AnsweredAsRouted(c.log, i, router) && EndsThere(c, i);
        assert Requests(d.log)[..i + 1] == Requests(c.log)[..i + 1];
      } else if o.result == Complete {
        assert Requests(d.log)[..i + 1] == Requests(c.log) + [o.p.req];
      }
    }
  }

  lemma {:induction false} ServeAsRouted(c: Core, router: Router)
    requires AsRouted(c, router) && Refuses(c.parser)
    requires forall i :: 0 <= i < |c.log| ==> c.log[i].response.keepAlive && c.log[i].request.keepAlive
    ensures AsRouted(Serve(c, router), router) && Refuses(Serve(c, router).parser)
    ensures !Serve(c, router).closing ==>
              forall i :: 0 <= i < |Serve(c, router).log| ==>
                Serve(c, router).log[i].response.keepAlive && Serve(c, router).log[i].request.keepAlive
    decreases |c.readBuffer|, ServeRank(c.parser.state)
  {
    hide Step, ServeTurn, GoesOn, AsRouted, Refuses;
    if c.readBuffer != "" {
      TurnAsRouted(c, router);
      if GoesOn(c, router) {
        GoesOnOpen(c, router);
        ServeAsRouted(ServeTurn(c, router), router);
      }
    }
  }

  lemma GoesOnOpen(c: Core, router: Router)
    requires GoesOn(c, router)
    ensures var d := ServeTurn(c, router);
            && !d.closing
            && |d.readBuffer| <= |c.readBuffer|
            && (|d.readBuffer| == |c.readBuffer| ==> ServeRank(d.parser.state) < ServeRank(c.parser.state))
  {
    hide Step;
  }

  lemma AllPersist(c: Core)
    requires c.log == []
    ensures forall i :: 0 <= i < |c.log| ==> c.log[i].response.keepAlive && c.log[i].request.keepAlive
  {
  }

  /** In every legal run each answer is the router's to the requests so far, persistent only if
      both sides agree, or a refusal; and the first that does not persist, or answers a request
      that does not, is the last one and leaves the connection closing. */
  lemma {:induction false} RunAsRouted(calls: seq<Call>, router: Router)
    requires Legal(calls) && Uses(calls, router)
    ensures var c := Run(calls).conn.core;
            && AsRouted(c, router) && Refuses(c.parser)
            && (!c.closing ==>
                  forall i :: 0 <= i < |c.log| ==> c.log[i].response.keepAlive && c.log[i].request.keepAlive)
  {
    hide Bytes, Serve, AnsweredAsRouted, Refuses;
    if calls == [] {
      assert Refuses(FRESH_PARSER) by { FreshRefuses(); }
    } else {
      var front, last := calls[..|calls| - 1], calls[|calls| - 1];
      assert forall i :: 0 <= i < |front| ==> front[i] == calls[i];
      RunAsRouted(front, router);
      OutputIntegrity(front);
      PerformCore(Run(front).conn, last);
      assert calls[|calls| - 1] == last;
      if last.Readable? && last.end != Failed {
        var fed := Feed(Run(front).conn.core, Received(last.items));
        ServeAsRouted(fed.(closing := fed.closing || last.end == PeerClosed), router);
      }
    }
  }

  lemma FreshRefuses()
    ensures Refuses(FRESH_PARSER)
  {
  }

  /** Without a FIN the server closes only behind an answer that says so. */
  lemma {:induction false} ServeClosesBehind(c: Core, router: Router)
    requires !c.closing && Serve(c, router).closing
    ensures var log := Serve(c, router).log; |log| > |c.log| && !log[|log| - 1].response.keepAlive
    decreases |c.readBuffer|, ServeRank(c.parser.state)
  {
    hide Step, ServeTurn, GoesOn, ParseAll;
    TurnClosesBehind(c, router);
    if GoesOn(c, router) {
      GoesOnOpen(c, router);
      ServeClosesBehind(ServeTurn(c, router), router);
    }
  }

  lemma TurnClosesBehind(c: Core, router: Router)
    requires !c.closing
    ensures var d := ServeTurn(c, router);
            d.closing ==> |d.log| > |c.log| && !d.log[|d.log| - 1].response.keepAlive
  {
    hide ParseAll, ErrorResponse;
    RejectionIs(ParseAll(c.parser, c.readBuffer).p);
  }

  /** And then it does close. */
  lemma {:induction false} ClosesBehindAnswer(calls: seq<Call>, router: Router)
    requires Legal(calls) && Uses(calls, router) && OnlyDrained(calls)
    ensures var c := Run(calls).conn.core;
            c.closing <==> |c.log| > 0 && !c.log[|c.log| - 1].response.keepAlive
  {
    hide Serve, Legal, Run;
    RunFollowsStream(calls, router);
    RunAsRouted(calls, router);
    var c := Run(calls).conn.core;
    assert c == AtOnce(StreamOf(calls), router);
    if c.closing {
      ServeClosesBehind(Feed(NEW_CORE, StreamOf(calls)), router);
    }
  }

  // ---- what the client is told -------------------------------------------------------------

  predicate SaysClose(m: Message) { ValuesOf(m.fields, "connection") == ["close"] }

  predicate SaysKeepAlive(m: Message) { ValuesOf(m.fields, "connection") == ["keep-alive"] }

  lemma MessageSays(r: HttpResponse, head: bool)
    requires NoneNamed(r.extraHeaders, "connection")
    ensures if r.keepAlive then SaysKeepAlive(MessageOf(r, head)) else SaysClose(MessageOf(r, head))
  {
    hide AllFields, ValuesOf, NoneNamed;
    BuiltInValues(r, "connection");
  }

  /** The client is told the truth: every answer it decodes but the last says keep-alive, and the
      last says close exactly when the server closes behind it. */
  lemma ToldWhenClosed(calls: seq<Call>, router: Router)
    requires Legal(calls) && Uses(calls, router) && OnlyDrained(calls)
    requires forall a :: a in Run(calls).conn.core.log ==>
               Decodable(a) && NoneNamed(a.response.extraHeaders, "connection")
    ensures var c := Run(calls).conn.core;
            var read := ReadStream(AllBytes(c.log), Heads(c.log));
            && read.Read? && read.rest == "" && |read.value| == |c.log|
            && (forall i :: 0 <= i < |read.value| - 1 ==> SaysKeepAlive(read.value[i]))
            && (c.closing <==> |read.value| > 0 && SaysClose(read.value[|read.value| - 1]))
  {
    hide Serve, Legal, Run, ReadStream, AllBytes, Decodable, NoneNamed, SaysClose, SaysKeepAlive, MessageOf;
    hide AnsweredAsRouted, Refuses;
    var c := Run(calls).conn.core;
    DecodesWhole(c.log);
    RunAsRouted(calls, router);
    ClosesBehindAnswer(calls, router);
    forall i | 0 <= i < |c.log|
      ensures var m := Messages(c.log)[i];
              && (i < |c.log| - 1 ==> SaysKeepAlive(m))
              && (SaysClose(m) <==> !c.log[i].response.keepAlive)
    {
      assert c.log[i] in c.log && EndsThere(c, i);
      MessageSays(c.log[i].response, c.log[i].request.verb == "HEAD");
      assert Messages(c.log)[i] == MessageOf(c.log[i].response, c.log[i].request.verb == "HEAD");
      NotBoth(Messages(c.log)[i]);
    }
  }

  lemma NotBoth(m: Message)
    ensures !(SaysClose(m) && SaysKeepAlive(m))
  {
  }
}
