/** Whole runs of one connection under arbitrary cuts of the byte stream and
    arbitrary partial sends (src/connection_handler.cpp:21-108). */
module ConnectionRuns {
  import opened RequestParsing
  import opened ParserStability
  import opened ConnectionHandling

  /** One call of the handler with everything the kernel and the router told it. */
  datatype Call =
    | Readable(items: seq<Recv>, end: DrainEnd, sends: seq<Send>, router: Router)
    | Writable(sends: seq<Send>)

  ghost function Perform(c: Conn, call: Call): (h: Handled)
    requires Valid(c)
    ensures Valid(h.conn)
  {
    match call
    case Readable(items, end, sends, router) => AfterReadable(c, items, end, sends, router)
    case Writable(sends) => Flushed(c, sends)
  }

  /** A new connection after the given calls, with the last action returned. */
  ghost function Run(calls: seq<Call>): (h: Handled)
    ensures Valid(h.conn)
  {
    if calls == [] then Handled(NEW_CONN, WaitRead)
    else Perform(Run(calls[..|calls| - 1]).conn, calls[|calls| - 1])
  }

  /** Sending never touches what was parsed, so the parsed part follows on its own. */
  ghost function CoreAfter(c: Core, call: Call): Core {
    match call
    case Writable(_) => c
    case Readable(items, end, _, router) =>
      var fed := Feed(c, Received(items));
      if end == Failed then fed else Serve(fed.(closing := fed.closing || end == PeerClosed), router)
  }

  lemma PerformCore(c: Conn, call: Call)
    requires Valid(c)
    ensures Perform(c, call).conn.core == CoreAfter(c.core, call)
    ensures call.Readable? && call.end == Failed ==> Perform(c, call).action == Close
  {
    hide Bytes, Serve;
  }

  ghost predicate Asked(action: Action, call: Call) {
    match action
    case WaitRead => call.Readable?
    case WaitWrite => call.Writable?
    case Close => false
  }

  /** Every call is the one the previous action asked for. */
  ghost predicate Legal(calls: seq<Call>) {
    calls == [] ||
    (Legal(calls[..|calls| - 1]) && Asked(Run(calls[..|calls| - 1]).action, calls[|calls| - 1]))
  }

  // ---- output --------------------------------------------------------------

  predicate Accounted(c: Conn) {
    c.writeOffset <= |c.writeBuffer| && c.sent + c.writeBuffer[c.writeOffset..] == AllBytes(c.core.log)
  }

  lemma {:induction false} FlushAccounts(c: Conn, sends: seq<Send>)
    requires Accounted(c)
    ensures var h := Flushed(c, sends);
            && Accounted(h.conn) && h.conn.core == c.core
            && (h.action == WaitRead ==> h.conn.sent == AllBytes(c.core.log) && !c.core.closing
                                         && h.conn.writeBuffer == "" && h.conn.writeOffset == 0)
            && (h.action == WaitWrite ==> h.conn.sent != AllBytes(c.core.log))
    decreases sends
  {
    hide Bytes;
    var left := |c.writeBuffer| - c.writeOffset;
    if left != 0 && sends != [] {
      match sends[0]
      case SendInterrupted => FlushAccounts(c, sends[1..]);
      case Sent(n) =>
        if n > 0 {
          var end := c.writeOffset + if n < left then n else left;
          var d := c.(writeOffset := end, sent := c.sent + c.writeBuffer[c.writeOffset..end]);
          assert c.writeBuffer[c.writeOffset..] == c.writeBuffer[c.writeOffset..end] + c.writeBuffer[end..];
          FlushAccounts(d, sends[1..]);
        }
      case _ =>
    }
  }

  /** The connection when a read starts to flush. */
  function Queued(c: Conn, items: seq<Recv>, end: DrainEnd, router: Router): Conn {
    var fed := Feed(c.core, Received(items));
    var served := Serve(fed.(closing := fed.closing || end == PeerClosed), router);
    c.(core := served, writeBuffer := c.writeBuffer + AllBytes(served.log[|c.core.log|..]))
  }

  lemma QueuedAccounts(c: Conn, items: seq<Recv>, end: DrainEnd, sends: seq<Send>, router: Router)
    requires Accounted(c) && end != Failed
    ensures var queued := Queued(c, items, end, router);
            && Accounted(queued) && queued.sent == c.sent
            && AfterReadable(c, items, end, sends, router) == Flushed(queued, sends)
  {
    hide Bytes, Serve, AllBytes;
    var queued := Queued(c, items, end, router);
    var added := queued.core.log[|c.core.log|..];
    assert queued.core.log == c.core.log + added;
    AllBytesJoin(c.core.log, added);
    PendingGrows(c.sent, c.writeBuffer, c.writeOffset, AllBytes(added));
  }

  lemma PendingGrows(sent: string, buffer: string, offset: nat, more: string)
    requires offset <= |buffer|
    ensures sent + (buffer + more)[offset..] == (sent + buffer[offset..]) + more
  {
    assert (buffer + more)[offset..] == buffer[offset..] + more;
  }

  lemma PerformAccounts(c: Conn, call: Call)
    requires Accounted(c)
    ensures var h := Perform(c, call);
            && Accounted(h.conn)
            && (h.action == WaitRead ==> h.conn.sent == AllBytes(h.conn.core.log) && !h.conn.core.closing
                                         && h.conn.writeBuffer == "")
            && (h.action == WaitWrite ==> h.conn.sent != AllBytes(h.conn.core.log))
  {
    hide Bytes, Serve, Queued;
    match call
    case Writable(sends) => FlushAccounts(c, sends);
    case Readable(items, end, sends, router) =>
      if end != Failed {
        QueuedAccounts(c, items, end, sends, router);
        FlushAccounts(Queued(c, items, end, router), sends);
      }
  }

  /** Output integrity. After any calls whatever, what the peer has been given followed by
      what is still buffered is the concatenation of the responses in request order; the
      handler waits for input only when all of it has been sent, and for room to write only
      when some of it has not. */
  lemma {:induction false} OutputIntegrity(calls: seq<Call>)
    ensures var h := Run(calls);
            && h.conn.sent + h.conn.writeBuffer[h.conn.writeOffset..] == AllBytes(h.conn.core.log)
            && h.conn.sent <= AllBytes(h.conn.core.log)
            && (h.action == WaitRead ==> h.conn.sent == AllBytes(h.conn.core.log) && !h.conn.core.closing)
            && (h.action == WaitWrite ==> h.conn.sent != AllBytes(h.conn.core.log))
            && Accounted(h.conn)
  {
    if calls != [] {
      var front := calls[..|calls| - 1];
      OutputIntegrity(front);
      PerformAccounts(Run(front).conn, calls[|calls| - 1]);
    }
  }

  // ---- what Close leaves undelivered --------------------------------------

  /** With this many bytes pending, a send fails or takes nothing before they are gone. */
  predicate MeetsFailure(pending: nat, sends: seq<Send>)
    decreases |sends|
  {
    pending > 0 && sends != [] &&
    match sends[0]
    case SendFull => false
    case SendFailed => true
    case SendInterrupted => MeetsFailure(pending, sends[1..])
    case Sent(n) => n == 0 || MeetsFailure(if n < pending then pending - n else 0, sends[1..])
  }

  /** Which action a call ends in: Close behind a failure, which leaves something unsent, or when
      everything is sent on a connection that is closing; otherwise it waits, to write when
      something is left and to read when nothing is. */
  predicate Decides(h: Handled, fails: bool, done: bool) {
    && (fails ==> !done)
    && (h.action == Close <==> fails || (done && h.conn.core.closing))
    && (h.action == WaitRead <==> !fails && done && !h.conn.core.closing)
    && (h.action == WaitWrite <==> !fails && !done)
  }

  lemma {:induction false} FlushDecides(c: Conn, sends: seq<Send>)
    requires Accounted(c)
    ensures var h := Flushed(c, sends);
            Decides(h, MeetsFailure(|c.writeBuffer| - c.writeOffset, sends), h.conn.sent == AllBytes(c.core.log))
    decreases |sends|
  {
    hide Bytes;
    var left := |c.writeBuffer| - c.writeOffset;
    if left != 0 && sends != [] {
      match sends[0]
      case SendInterrupted => FlushDecides(c, sends[1..]);
      case Sent(n) =>
        if n > 0 {
          var end := c.writeOffset + if n < left then n else left;
          var d := c.(writeOffset := end, sent := c.sent + c.writeBuffer[c.writeOffset..end]);
          assert c.writeBuffer[c.writeOffset..] == c.writeBuffer[c.writeOffset..end] + c.writeBuffer[end..];
          FlushDecides(d, sends[1..]);
        }
      case _ =>
    }
    assert |c.sent| + left == |AllBytes(c.core.log)|;
  }

  lemma CallDecides(c: Conn, call: Call)
    requires Accounted(c) && !(call.Readable? && call.end == Failed)
    ensures var h := Perform(c, call);
            var pending := |AllBytes(h.conn.core.log)| - |c.sent|;
            pending >= 0 && Decides(h, MeetsFailure(pending, call.sends), h.conn.sent == AllBytes(h.conn.core.log))
  {
    hide Bytes, Serve, Queued, MeetsFailure, AllBytes, Decides;
    assert |c.sent| + (|c.writeBuffer| - c.writeOffset) == |AllBytes(c.core.log)|;
    match call
    case Writable(sends) => FlushDecides(c, sends);
    case Readable(items, end, sends, router) =>
      QueuedAccounts(c, items, end, sends, router);
      FlushDecides(Queued(c, items, end, router), sends);
  }

  /** In a legal run every call ends as that says, the bytes pending being those of all answers
      less those sent before it; and a drain that fails ends in Close with nothing unsent, because
      a legal read finds nothing pending. */
  lemma ActionsDecided(calls: seq<Call>)
    requires Legal(calls) && calls != []
    ensures var front, last, h := calls[..|calls| - 1], calls[|calls| - 1], Run(calls);
            var pending := |AllBytes(h.conn.core.log)| - |Run(front).conn.sent|;
            var done := h.conn.sent == AllBytes(h.conn.core.log);
            if last.Readable? && last.end == Failed then h.action == Close && done
            else pending >= 0 && Decides(h, MeetsFailure(pending, last.sends), done)
  {
    hide Bytes, Serve, MeetsFailure, Decides, Run, Perform, AllBytes;
    var front, last := calls[..|calls| - 1], calls[|calls| - 1];
    OutputIntegrity(front);
    assert Run(calls) == Perform(Run(front).conn, last) by { RunLast(calls); }
    if last.Readable? && last.end == Failed {
      assert Run(front).action == WaitRead by { ReadAsked(calls); }
      FailedRead(Run(front).conn, last);
    } else {
      CallDecides(Run(front).conn, last);
    }
  }

  lemma RunLast(calls: seq<Call>)
    requires calls != []
    ensures Run(calls) == Perform(Run(calls[..|calls| - 1]).conn, calls[|calls| - 1])
  {
    hide Perform;
  }

  lemma ReadAsked(calls: seq<Call>)
    requires Legal(calls) && calls != [] && calls[|calls| - 1].Readable?
    ensures Run(calls[..|calls| - 1]).action == WaitRead
  {
    hide Run;
  }

  lemma FailedRead(c: Conn, call: Call)
    requires Valid(c) && call.Readable? && call.end == Failed
    ensures var h := Perform(c, call); h.action == Close && h.conn.sent == c.sent && h.conn.core.log == c.core.log
  {
    hide Serve, Flushed;
  }

  /** So a legal run that ends in Close has sent everything queued exactly unless a send of its
      last flush failed or took nothing while bytes were pending. */
  lemma CloseDelivers(calls: seq<Call>)
    requires Legal(calls) && calls != [] && Run(calls).action == Close
    ensures var front, last, conn := calls[..|calls| - 1], calls[|calls| - 1], Run(calls).conn;
            var pending := |AllBytes(conn.core.log)| - |Run(front).conn.sent|;
            var done := conn.sent == AllBytes(conn.core.log);
            if last.Readable? && last.end == Failed then done
            else pending >= 0 && (done <==> !MeetsFailure(pending, last.sends))
  {
    hide Bytes, Run, MeetsFailure, AllBytes, Legal;
    ActionsDecided(calls);
  }

  // ---- nothing stranded ----------------------------------------------------

  /** What a connection left waiting may hold. */
  ghost predicate Settled(c: Core) {
    && |c.readBuffer| < MAX_BODY
    && (c.readBuffer == "" || Resting(c.parser, c.readBuffer))
    && (!c.closing ==> Resting(c.parser, c.readBuffer) && WithinLimits(c.parser))
  }

  lemma {:induction false} ServeSettles(c: Core, router: Router)
    requires WithinLimits(c.parser)
    requires c.readBuffer == "" ==> Resting(c.parser, "")
    ensures Settled(Serve(c, router))
    decreases |c.readBuffer|, ServeRank(c.parser.state)
  {
    hide Step;
    if c.readBuffer != "" {
      RestsWithinLimits(c.parser, c.readBuffer);
      if GoesOn(c, router) {
        NewParserRests();
        ServeSettles(ServeTurn(c, router), router);
      }
    }
  }

  lemma NewParserRests()
    ensures Resting(FRESH_PARSER, "") && WithinLimits(FRESH_PARSER)
  {
  }

  /** Nothing stranded, and bounded at rest. Whenever a legal run leaves the connection
      waiting, parsing its buffer again would change nothing, fewer than MAX_BODY unparsed
      bytes are held, and the stored fields fit in the header block counted so far. Once the
      connection is closing its buffer is empty or equally inert. */
  lemma {:induction false} LegalRunsSettle(calls: seq<Call>)
    requires Legal(calls)
    ensures Run(calls).action != Close ==> Settled(Run(calls).conn.core)
  {
    hide Bytes, Serve, Step, WithinLimits;
    if calls == [] {
      NewParserRests();
    } else {
      var front, last := calls[..|calls| - 1], calls[|calls| - 1];
      LegalRunsSettle(front);
      OutputIntegrity(front);
      PerformCore(Run(front).conn, last);
      if last.Readable? && last.end != Failed {
        var fed := Feed(Run(front).conn.core, Received(last.items));
        ServeSettles(fed.(closing := fed.closing || last.end == PeerClosed), last.router);
      }
    }
  }

  // ---- persistence ---------------------------------------------------------

  predicate CloseOnlyLast(c: Core) {
    && (forall i :: 0 <= i < |c.log| - 1 ==> c.log[i].response.keepAlive)
    && (!c.closing && |c.log| > 0 ==> c.log[|c.log| - 1].response.keepAlive)
  }

  lemma {:induction false} ServeClosesLast(c: Core, router: Router)
    requires CloseOnlyLast(c)
    requires |c.log| > 0 ==> c.log[|c.log| - 1].response.keepAlive
    ensures CloseOnlyLast(Serve(c, router))
    decreases |c.readBuffer|, ServeRank(c.parser.state)
  {
    hide Step;
    if c.readBuffer != "" && GoesOn(c, router) {
      ServeClosesLast(ServeTurn(c, router), router);
    }
  }

  /** In every legal run a response that says `Connection: close` is the last one queued
      (section 9.6 of RFC 9112), and no read is attempted once the connection is closing. */
  lemma {:induction false} CloseIsLast(calls: seq<Call>)
    requires Legal(calls)
    ensures CloseOnlyLast(Run(calls).conn.core)
    ensures forall i :: 0 <= i < |calls| && calls[i].Readable? ==> !Run(calls[..i]).conn.core.closing
  {
    hide Bytes, Serve, Step;
    if calls != [] {
      var front, last := calls[..|calls| - 1], calls[|calls| - 1];
      CloseIsLast(front);
      OutputIntegrity(front);
      PerformCore(Run(front).conn, last);
      if last.Readable? && last.end != Failed {
        var fed := Feed(Run(front).conn.core, Received(last.items));
        ServeClosesLast(fed.(closing := fed.closing || last.end == PeerClosed), last.router);
      }
      forall i | 0 <= i < |calls| && calls[i].Readable?
        ensures !Run(calls[..i]).conn.core.closing
      {
        assert i < |front| ==> calls[..i] == front[..i];
      }
    }
  }
}
