/** From the client's side: any requests it prints, however they are cut, are answered in order
    and the answers decode (src/http.cpp:97-111, 191-270, src/connection_handler.cpp:21-108). */
module Pipelines {
  import opened Http
  import opened RequestParsing
  import opened RequestRoundTrip
  import opened ConnectionHandling
  import opened ConnectionRuns
  import opened Fragmentation
  import opened ResponseStream

  /** The requests, each with its fields in some order, one after another. */
  function PrintedAll(rs: seq<HttpRequest>, fs: seq<Fields>): string
    requires |rs| == |fs|
    decreases |rs|
  {
    if |rs| == 0 then "" else Printed(rs[0], fs[0]) + PrintedAll(rs[1..], fs[1..])
  }

  predicate AllWellFormed(rs: seq<HttpRequest>, fs: seq<Fields>)
    requires |rs| == |fs|
  {
    forall i :: 0 <= i < |rs| ==> WellFormed(rs[i], fs[i])
  }

  /** What the router makes of them in order, up to the first answer that closes. */
  function Answers(before: seq<HttpRequest>, rs: seq<HttpRequest>, router: Router): (answers: seq<Answer>)
    ensures |answers| <= |rs|
    decreases |rs|
  {
    if |rs| == 0 then []
    else
      var seen := before + [rs[0]];
      var a := Answered(rs[0], router(seen), true);
      [a] + if a.response.keepAlive then Answers(seen, rs[1..], router) else []
  }

  lemma {:induction false} AnswersInOrder(before: seq<HttpRequest>, rs: seq<HttpRequest>, router: Router)
    ensures var answers := Answers(before, rs, router);
            Requests(answers) == rs[..|answers|]
    decreases |rs|
  {
    if |rs| > 0 {
      AnswersInOrder(before + [rs[0]], rs[1..], router);
      var answers := Answers(before, rs, router);
      assert forall i :: 0 < i < |answers| ==> answers[i].request == rs[1..][i - 1];
    }
  }

  /** The loop serves a pipeline of any length. */
  lemma {:induction false} ServesPrinted(c: Core, rs: seq<HttpRequest>, fs: seq<Fields>, router: Router)
    requires |rs| == |fs| && AllWellFormed(rs, fs)
    requires c.parser == FRESH_PARSER && !c.closing && c.readBuffer == PrintedAll(rs, fs)
    ensures Serve(c, router).log == c.log + Answers(Requests(c.log), rs, router)
    decreases |rs|
  {
    hide Step, WellFormed, Printed, ParseAll;
    if |rs| > 0 {
      ParsesWhatIsPrinted(rs[0], fs[0], PrintedAll(rs[1..], fs[1..]));
      PrintedNonempty(rs[0], fs[0]);
      var d := ServeTurn(c, router);
      var a := Answered(rs[0], router(Requests(c.log) + [rs[0]]), true);
      assert d.log == c.log + [a];
      if a.response.keepAlive {
        assert Requests(d.log) == Requests(c.log) + [rs[0]];
        assert AllWellFormed(rs[1..], fs[1..]);
        ServesPrinted(d, rs[1..], fs[1..], router);
        assert Answers(Requests(c.log), rs, router) == [a] + Answers(Requests(d.log), rs[1..], router);
      }
    }
  }

  lemma PrintedAtOnce(rs: seq<HttpRequest>, fs: seq<Fields>, router: Router)
    requires |rs| == |fs| && AllWellFormed(rs, fs)
    ensures AtOnce(PrintedAll(rs, fs), router).log == Answers([], rs, router)
  {
    hide Serve, PrintedAll, AllWellFormed;
    var c := Feed(NEW_CORE, PrintedAll(rs, fs));
    assert c.readBuffer == PrintedAll(rs, fs);
    ServesPrinted(c, rs, fs, router);
    assert Requests(c.log) == [];
  }

  /** The run's last cut fell inside the CRLF of a start line of MAX_REQUEST_LINE bytes. */
  ghost predicate CutBadly(calls: seq<Call>, stream: string, router: Router) {
    var seen := StreamOf(calls);
    seen <= stream && EndsInLongLineCut(Feed(NEW_CORE, seen), stream[|seen|..], router)
  }

  /** Whatever a client prints, in a legal run that is over for it, it is answered in order as
      the router answers, exactly unless the run lost something to the way its last drain ended
      or to a cut inside the CRLF of a start line of MAX_REQUEST_LINE bytes. */
  lemma PrintedIsAnswered(calls: seq<Call>, rs: seq<HttpRequest>, fs: seq<Fields>, router: Router)
    requires |rs| == |fs| && AllWellFormed(rs, fs)
    requires Legal(calls) && Uses(calls, router) && Exhausted(calls, PrintedAll(rs, fs))
    ensures var answers := Answers([], rs, router);
            && Requests(answers) == rs[..|answers|]
            && (Run(calls).conn.core.log == answers <==>
                  EndSpares(calls, router) && !CutBadly(calls, PrintedAll(rs, fs), router))
  {
    hide PrintedAll, AllWellFormed, Legal, Run, EndSpares, EndsInLongLineCut, AtOnce, Answers, OnlyDrained;
    PrintedAtOnce(rs, fs, router);
    AnswersInOrder([], rs, router);
    RunDecidedByStream(calls, PrintedAll(rs, fs), router);
  }

  /** The flags a client knows from the methods it sent. */
  function SentHeads(rs: seq<HttpRequest>): seq<bool> {
    seq(|rs|, i requires 0 <= i < |rs| => rs[i].verb == "HEAD")
  }

  lemma HeadsSent(log: seq<Answer>)
    ensures Heads(log) == SentHeads(Requests(log))
  {
  }

  /** And when nothing was lost and the connection waits for more, the client has all of it,
      and decodes it with the methods it sent. */
  lemma ClientGetsAnswers(calls: seq<Call>, rs: seq<HttpRequest>, fs: seq<Fields>, router: Router)
    requires |rs| == |fs| && AllWellFormed(rs, fs)
    requires Legal(calls) && Uses(calls, router) && StreamOf(calls) == PrintedAll(rs, fs)
    requires EndSpares(calls, router) && Run(calls).action == WaitRead
    requires forall a :: a in Answers([], rs, router) ==> Decodable(a)
    ensures var answers := Answers([], rs, router);
            && Requests(answers) == rs[..|answers|]
            && ReadStream(Run(calls).conn.sent, SentHeads(rs[..|answers|])) == Read(Messages(answers), "")
  {
    hide PrintedAll, AllWellFormed, Legal, Run, EndSpares, AtOnce, Answers, ReadStream, AllBytes, Messages, Decodable;
    var answers := Answers([], rs, router);
    PrintedAtOnce(rs, fs, router);
    AnswersInOrder([], rs, router);
    RunFollowsStream(calls, router);
    OutputIntegrity(calls);
    DecodesWhole(answers);
    assert Heads(answers) == SentHeads(rs[..|answers|]) by { HeadsSent(answers); }
  }
}
