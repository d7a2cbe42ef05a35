/** One connection and the protocol logic that drives it
    (src/connection_handler.cpp, include/connection.h). */
module ConnectionHandling {
  import opened Http
  import opened RequestParsing

  /** What `recv` and `send` may return. A drain is a list of chunks and interrupted calls
      followed by what ended it; an exhausted list of sends means a full kernel buffer. */
  datatype Recv = Data(bytes: string) | Interrupted
  datatype DrainEnd = Drained | PeerClosed | Failed
  datatype Send = Sent(n: nat) | SendInterrupted | SendFull | SendFailed

  datatype Action = WaitRead | WaitWrite | Close

  /** The router seen from one connection: the answer to the last of the requests
      routed so far. */
  type Router = seq<HttpRequest> -> HttpResponse

  /** One queued response with the request it answers; `routed` is false for the
      rejection of a malformed request. */
  datatype Answer = Answer(request: HttpRequest, response: HttpResponse, routed: bool)

  /** `appendResponse`: the connection persists only if both sides agree. */
  function Answered(request: HttpRequest, response: HttpResponse, routed: bool): Answer {
    Answer(request, response.(keepAlive := response.keepAlive && request.keepAlive), routed)
  }

  function Rejection(p: Parser): Answer {
    Answered(p.req.(keepAlive := false), ErrorResponse(p.error), false)
  }

  function Bytes(a: Answer): string {
    Serialize(a.response, a.request.verb == "HEAD")
  }

  function AllBytes(log: seq<Answer>): string {
    if log == [] then "" else AllBytes(log[..|log| - 1]) + Bytes(log[|log| - 1])
  }

  lemma {:induction false} AllBytesJoin(log: seq<Answer>, more: seq<Answer>)
    ensures AllBytes(log + more) == AllBytes(log) + AllBytes(more)
  {
    hide Bytes;
    if more == [] {
      assert log + more == log;
    } else {
      var front, last := more[..|more| - 1], more[|more| - 1];
      AllBytesJoin(log, front);
      assert (log + more)[..|log + more| - 1] == log + front;
    }
  }

  function Requests(log: seq<Answer>): seq<HttpRequest> {
    seq(|log|, i requires 0 <= i < |log| => log[i].request)
  }

  /** The part of a connection that parsing and routing touch; `log` is its history. */
  datatype Core = Core(readBuffer: string, parser: Parser, closing: bool, log: seq<Answer>)

  /** A connection; `sent` is every byte `send` has accepted. */
  datatype Conn = Conn(core: Core, writeBuffer: string, writeOffset: nat, sent: string)

  const NEW_CORE := Core("", FRESH_PARSER, false, [])
  const NEW_CONN := Conn(NEW_CORE, "", 0, "")

  predicate Valid(c: Conn) { c.writeOffset <= |c.writeBuffer| }

  datatype Handled = Handled(conn: Conn, action: Action)

  /** The parse loop of `onReadable`. */
  function Serve(c: Core, router: Router): (d: Core)
    ensures c.log <= d.log
    ensures c.closing ==> d.closing
    decreases |c.readBuffer|, ServeRank(c.parser.state)
  {
    if c.readBuffer == "" then c
    else
      var next := ServeTurn(c, router);
      if GoesOn(c, router) then Serve(next, router) else next
  }

  function ServeRank(s: State): nat { if s == Body || s == Done then 1 else 0 }

  /** One turn of that loop, on a nonempty buffer. */
  function ServeTurn(c: Core, router: Router): (d: Core)
    ensures c.log <= d.log
    ensures c.closing ==> d.closing
  {
    var o := ParseAll(c.parser, c.readBuffer);
    match o.result
    case NeedMore => c.(parser := o.p, readBuffer := o.rest)
    case Error => Core("", o.p, true, c.log + [Rejection(o.p)])
    case Complete => Routed(c, o, router)
  }

  /** Only a finished request on a connection that stays open keeps the loop going. */
  predicate GoesOn(c: Core, router: Router) {
    ParseAll(c.parser, c.readBuffer).result == Complete && !ServeTurn(c, router).closing
  }

  /** A finished request is routed, answered, and the parser reset. */
  function Routed(c: Core, o: Outcome, router: Router): Core {
    var a := Answered(o.p.req, router(Requests(c.log) + [o.p.req]), true);
    var closing := c.closing || !a.response.keepAlive;
    Core(if closing then "" else o.rest, FRESH_PARSER, closing, c.log + [a])
  }

  function Received(items: seq<Recv>): string {
    if items == [] then ""
    else (if items[0].Data? then items[0].bytes else "") + Received(items[1..])
  }

  function Feed(c: Core, bytes: string): Core {
    c.(readBuffer := c.readBuffer + bytes)
  }

  /** What `onReadable` does. The peer's FIN marks the connection before anything is parsed. */
  function AfterReadable(c: Conn, items: seq<Recv>, end: DrainEnd, sends: seq<Send>, router: Router): (h: Handled)
    requires Valid(c)
    ensures Valid(h.conn)
  {
    var fed := Feed(c.core, Received(items));
    if end == Failed then Handled(c.(core := fed), Close)
    else
      var served := Serve(fed.(closing := fed.closing || end == PeerClosed), router);
      Flushed(c.(core := served,
                 writeBuffer := c.writeBuffer + AllBytes(served.log[|c.core.log|..])), sends)
  }

  /** What `flush` does. */
  function Flushed(c: Conn, sends: seq<Send>): (h: Handled)
    requires Valid(c)
    ensures Valid(h.conn) && h.conn.core == c.core
    decreases sends
  {
    var left := |c.writeBuffer| - c.writeOffset;
    if left == 0 then
      Handled(c.(writeBuffer := "", writeOffset := 0), if c.core.closing then Close else WaitRead)
    else if sends == [] || sends[0].SendFull? then Handled(c, WaitWrite)
    else match sends[0]
      case SendInterrupted => Flushed(c, sends[1..])
      case SendFailed => Handled(c, Close)
      case Sent(n) =>
        if n == 0 then Handled(c, Close)
        else
          var end := c.writeOffset + if n < left then n else left;
          Flushed(c.(writeOffset := end, sent := c.sent + c.writeBuffer[c.writeOffset..end]), sends[1..])
  }

  /** The connection object. `log` stands for what `appendResponse` hands to the logger;
      `sent` records what the peer has been given. */
  class Connection {
    var readBuffer: string
    var writeBuffer: string
    var writeOffset: nat
    const parser: RequestParser
    var closeAfterWrite: bool
    var log: seq<Answer>
    ghost var sent: string

    constructor ()
      ensures View() == NEW_CONN
      ensures fresh(parser)
    {
      readBuffer, writeBuffer, writeOffset, closeAfterWrite := "", "", 0, false;
      parser := new RequestParser();
      log, sent := [], "";
    }

    ghost function CoreView(): Core
      reads this, parser
    {
      Core(readBuffer, parser.View(), closeAfterWrite, log)
    }

    ghost function View(): Conn
      reads this, parser
    {
      Conn(CoreView(), writeBuffer, writeOffset, sent)
    }

    method AppendResponse(request: HttpRequest, response: HttpResponse, routed: bool)
      modifies this
      ensures var a := Answered(request, response, routed);
              && log == old(log) + [a]
              && writeBuffer == old(writeBuffer) + Bytes(a)
              && closeAfterWrite == (old(closeAfterWrite) || !a.response.keepAlive)
      ensures unchanged(this`readBuffer, this`writeOffset, this`sent)
    {
      var keepAlive := response.keepAlive && request.keepAlive;
      writeBuffer := writeBuffer + Serialize(response.(keepAlive := keepAlive), request.verb == "HEAD");
      if !keepAlive {
        closeAfterWrite := true;
      }
      log := log + [Answer(request, response.(keepAlive := keepAlive), routed)];
    }

    /** One turn of the parse loop of `onReadable`. */
    method ServeOne(router: Router) returns (goOn: bool, ghost added: seq<Answer>)
      modifies this, parser
      ensures CoreView() == ServeTurn(old(CoreView()), router)
      ensures goOn == old(GoesOn(CoreView(), router))
      ensures goOn ==> |readBuffer| < |old(readBuffer)| ||
                       (|readBuffer| == |old(readBuffer)| && ServeRank(old(parser.state)) > ServeRank(parser.state))
      ensures log == old(log) + added && |added| <= 1
      ensures writeBuffer == old(writeBuffer) + AllBytes(added)
      ensures unchanged(this`writeOffset, this`sent)
    {
      hide Bytes, Step, ErrorResponse, Serialize;
      var result, rest := parser.Parse(readBuffer);
      readBuffer := rest;
      goOn, added := false, [];
      match result {
        case NeedMore =>
        case Error =>
          AppendResponse(parser.req.(keepAlive := false), ErrorResponse(parser.error), false);
          closeAfterWrite := true;
          readBuffer := "";
          added := [log[|log| - 1]];
        case Complete =>
          AppendResponse(parser.req, router(Requests(log) + [parser.req]), true);
          parser.Reset();
          if closeAfterWrite {
            readBuffer := "";
          }
          goOn := !closeAfterWrite;
          added := [log[|log| - 1]];
      }
      assert added != [] ==> AllBytes(added) == Bytes(added[0]);
    }

    /** The parse loop of `onReadable`. */
    method ServeBuffered(router: Router)
      modifies this, parser
      ensures CoreView() == Serve(old(CoreView()), router)
      ensures writeBuffer == old(writeBuffer) + AllBytes(log[|old(log)|..])
      ensures unchanged(this`writeOffset, this`sent)
    {
      hide Bytes, ServeTurn, GoesOn;
      var goOn := true;
      ghost var start := CoreView();
      ghost var all: seq<Answer> := [];
      while goOn && readBuffer != ""
        invariant (if goOn then Serve(CoreView(), router) else CoreView()) == Serve(start, router)
        invariant log == old(log) + all
        invariant writeBuffer == old(writeBuffer) + AllBytes(all)
        invariant unchanged(this`writeOffset, this`sent)
        decreases goOn, |readBuffer|, ServeRank(parser.state)
      {
        ghost var added;
        goOn, added := ServeOne(router);
        AllBytesJoin(all, added);
        all := all + added;
      }
      assert log[|old(log)|..] == all;
    }

    method Flush(sends: seq<Send>) returns (action: Action)
      requires writeOffset <= |writeBuffer|
      modifies this
      ensures Handled(View(), action) == old(Flushed(View(), sends))
      ensures unchanged(this`readBuffer, this`closeAfterWrite, this`log)
    {
      var i := 0;
      while writeOffset < |writeBuffer|
        invariant 0 <= i <= |sends| && writeOffset <= |writeBuffer|
        invariant Flushed(View(), sends[i..]) == old(Flushed(View(), sends))
        invariant unchanged(this`readBuffer, this`closeAfterWrite, this`log)
        decreases |sends| - i
      {
        if i == |sends| || sends[i].SendFull? {
          return WaitWrite;
        }
        if sends[i].SendFailed? || (sends[i].Sent? && sends[i].n == 0) {
          return Close;
        }
        if sends[i].Sent? {
          var left := |writeBuffer| - writeOffset;
          var end := writeOffset + if sends[i].n < left then sends[i].n else left;
          sent := sent + writeBuffer[writeOffset..end];
          writeOffset := end;
        }
        i := i + 1;
      }
      writeBuffer := "";
      writeOffset := 0;
      return if closeAfterWrite then Close else WaitRead;
    }

    /** The `recv` loop of `onReadable`. */
    method Drain(items: seq<Recv>)
      modifies this`readBuffer
      ensures readBuffer == old(readBuffer) + Received(items)
    {
      var i := 0;
      while i < |items|
        invariant 0 <= i <= |items|
        invariant readBuffer + Received(items[i..]) == old(readBuffer) + Received(items)
      {
        if items[i].Data? {
          readBuffer := readBuffer + items[i].bytes;
        }
        i := i + 1;
      }
    }

    method OnReadable(items: seq<Recv>, end: DrainEnd, sends: seq<Send>, router: Router) returns (action: Action)
      requires writeOffset <= |writeBuffer|
      modifies this, parser
      ensures Handled(View(), action) == old(AfterReadable(View(), items, end, sends, router))
    {
      Drain(items);
      if end == Failed {
        return Close;
      }
      if end == PeerClosed {
        closeAfterWrite := true;
      }
      ServeBuffered(router);
      action := Flush(sends);
    }

    method OnWritable(sends: seq<Send>) returns (action: Action)
      requires writeOffset <= |writeBuffer|
      modifies this
      ensures Handled(View(), action) == old(Flushed(View(), sends))
    {
      action := Flush(sends);
    }
  }
}
