/** The response stream is uniquely decodable (src/http.cpp:97-111,
    src/connection_handler.cpp:9-11). */
module ResponseStream {
  import opened Text
  import opened Http
  import opened ConnectionHandling

  datatype Message = Message(status: nat, fields: seq<(string, string)>, body: string)
  datatype ReadResult<+T> = Bad | Read(value: T, rest: string)

  // ---- a client's reader, after sections 3, 4, 5 and 6.3 of RFC 9112 --------

  function ReadField(line: string): Option<(string, string)> {
    match IndexOf(line, ':')
    case None => None
    case Some(colon) => Some((line[..colon], DropOneSpace(line[colon + 1..])))
  }

  function ReadFields(s: string): (r: ReadResult<seq<(string, string)>>)
    decreases |s|
  {
    match FindLineEnd(s)
    case None => Bad
    case Some(end) =>
      if end == 0 then Read([], s[2..])
      else
        match ReadField(s[..end])
        case None => Bad
        case Some(f) =>
          match ReadFields(s[end + 2..])
          case Bad => Bad
          case Read(fields, rest) => Read([f] + fields, rest)
  }

  function ReadStatusLine(s: string): ReadResult<nat> {
    match FindLineEnd(s)
    case None => Bad
    case Some(end) =>
      match ReadStatus(s[..end])
      case None => Bad
      case Some(status) => Read(status, s[end + 2..])
  }

  function ReadStatus(line: string): Option<nat> {
    if !("HTTP/1.1 " <= line) then None
    else
      var tail := line[9..];
      var n := DigitRun(tail);
      if n == 0 || n == |tail| || tail[n] != ' ' then None else Some(DigitsValue(tail[..n]))
  }

  /** The values of the fields with this name, matched without regard to case. */
  function ValuesOf(fields: seq<(string, string)>, name: string): seq<string> {
    if fields == [] then []
    else (if ToLower(fields[0].0) == name then [fields[0].1] else []) + ValuesOf(fields[1..], name)
  }

  /** Statuses whose responses have no body whatever their fields say. */
  predicate Bodyless(status: nat) { 100 <= status < 200 || status == 204 || status == 304 }

  /** The reader refuses a stream that is not framed by exactly one Content-Length. */
  function ReadMessage(s: string, head: bool): ReadResult<Message> {
    match ReadStatusLine(s)
    case Bad => Bad
    case Read(status, tail) =>
      match ReadFields(tail)
      case Bad => Bad
      case Read(fields, rest) =>
        var lengths := ValuesOf(fields, "content-length");
        if ValuesOf(fields, "transfer-encoding") != [] || |lengths| != 1 then Bad
        else if lengths[0] == "" || !AllDigits(lengths[0]) then Bad
        else
          var n := if head || Bodyless(status) then 0 else DigitsValue(lengths[0]);
          if n > |rest| then Bad else Read(Message(status, fields, rest[..n]), rest[n..])
  }

  /** `heads` says which requests were HEAD, as the client knows. */
  function ReadStream(s: string, heads: seq<bool>): ReadResult<seq<Message>>
    decreases |heads|
  {
    if |heads| == 0 then Read([], s)
    else match ReadMessage(s, heads[0])
      case Bad => Bad
      case Read(m, tail) =>
        match ReadStream(tail, heads[1..])
        case Bad => Bad
        case Read(ms, rest) => Read([m] + ms, rest)
  }

  // ---- what the server prints ------------------------------------------------

  predicate FieldPrintable(f: (string, string)) { ':' !in f.0 && '\n' !in f.0 && '\n' !in f.1 }

  predicate NoFraming(fields: seq<(string, string)>) {
    forall i :: 0 <= i < |fields| ==> ToLower(fields[i].0) !in {"content-length", "transfer-encoding"}
  }

  /** Header text free of LF, and no extra field that would change the framing. */
  predicate Printable(r: HttpResponse) {
    && '\n' !in r.contentType
    && (forall i :: 0 <= i < |r.extraHeaders| ==> FieldPrintable(r.extraHeaders[i]))
    && NoFraming(r.extraHeaders)
  }

  lemma {:induction false} ReadsHeaderLines(fields: seq<(string, string)>, rest: string)
    requires forall i :: 0 <= i < |fields| ==> FieldPrintable(fields[i])
    ensures ReadFields(HeaderLines(fields) + "\r\n" + rest) == Read(fields, rest)
  {
    if fields == [] {
      assert HeaderLines(fields) + "\r\n" + rest == "" + "\r\n" + rest;
      FindLineEndAfter("", rest);
    } else {
      var f, more := fields[0], fields[1..];
      var tail := HeaderLines(more) + "\r\n" + rest;
      ReadsHeaderLines(more, rest);
      ReadsOneLine(f, tail);
      assert HeaderLines(fields) + "\r\n" + rest == HeaderLine(f.0, f.1) + tail;
      assert [f] + more == fields;
    }
  }

  lemma ReadsOneLine(f: (string, string), tail: string)
    requires FieldPrintable(f) && ReadFields(tail).Read?
    ensures ReadFields(HeaderLine(f.0, f.1) + tail) ==
              Read([f] + ReadFields(tail).value, ReadFields(tail).rest)
  {
    hide ReadField;
    var line := f.0 + ": " + f.1;
    var s := HeaderLine(f.0, f.1) + tail;
    assert s == line + "\r\n" + tail;
    FindLineEndAfter(line, tail);
    assert s[..|line|] == line && s[|line| + 2..] == tail;
    ReadsField(f);
  }

  lemma ReadsField(f: (string, string))
    requires FieldPrintable(f)
    ensures ReadField(f.0 + ": " + f.1) == Some(f)
  {
    var line := f.0 + [':'] + ([' '] + f.1);
    assert line == f.0 + ": " + f.1;
    IndexOfAt(f.0, ':', [' '] + f.1);
    assert line[..|f.0|] == f.0 && line[|f.0| + 1..] == [' '] + f.1;
    assert ([' '] + f.1)[1..] == f.1;
  }

  function StatusLine(status: nat): string {
    "HTTP/1.1 " + Decimal(status) + " " + StatusMessage(status)
  }

  lemma ReadsStatus(status: nat)
    ensures ReadStatus(StatusLine(status)) == Some(status)
  {
    hide StatusMessage, Decimal;
    var tail := Decimal(status) + (" " + StatusMessage(status));
    var line := StatusLine(status);
    assert line == "HTTP/1.1 " + tail;
    assert line[..9] == "HTTP/1.1 " && line[9..] == tail;
    ReadsPrinted(status, " " + StatusMessage(status));
  }

  lemma StatusLineIsALine(status: nat)
    ensures '\n' !in StatusLine(status)
  {
    hide StatusMessage, Decimal;
    assert '\n' !in Decimal(status);
    var tail := " " + StatusMessage(status);
    assert StatusLine(status) == "HTTP/1.1 " + (Decimal(status) + tail);
    assert '\n' !in tail;
    assert '\n' !in Decimal(status) + tail;
    assert '\n' !in "HTTP/1.1 ";
  }

  lemma ReadsStatusLine(status: nat, rest: string)
    ensures ReadStatusLine(StatusLine(status) + "\r\n" + rest) == Read(status, rest)
  {
    hide StatusLine, ReadStatus;
    var line := StatusLine(status);
    StatusLineIsALine(status);
    FindLineEndAfter(line, rest);
    var s := line + "\r\n" + rest;
    assert s[..|line|] == line && s[|line| + 2..] == rest;
    ReadsStatus(status);
  }

  lemma BuiltInNames()
    ensures ToLower("Content-Length") == "content-length"
    ensures ToLower("Content-Type") == "content-type"
    ensures ToLower("Connection") == "connection"
  {
  }

  lemma FramedOnce(r: HttpResponse)
    requires NoFraming(r.extraHeaders)
    ensures ValuesOf(AllFields(r), "content-length") == [Decimal(|r.body|)]
    ensures ValuesOf(AllFields(r), "transfer-encoding") == []
  {
    hide ValuesOf, ToLower, Decimal, AllFields;
    BuiltInValues(r, "content-length");
    BuiltInValues(r, "transfer-encoding");
  }

  lemma ValuesCons(f: (string, string), fields: seq<(string, string)>, name: string)
    ensures ValuesOf([f] + fields, name) ==
              (if ToLower(f.0) == name then [f.1] else []) + ValuesOf(fields, name)
  {
    assert ([f] + fields)[1..] == fields;
  }

  lemma FieldsPrintable(r: HttpResponse)
    requires Printable(r)
    ensures forall i :: 0 <= i < |AllFields(r)| ==> FieldPrintable(AllFields(r)[i])
  {
    var all := AllFields(r);
    assert '\n' !in Decimal(|r.body|);
    assert FieldPrintable(all[0]) && FieldPrintable(all[1]) && FieldPrintable(all[2]);
    assert forall i :: 3 <= i < |all| ==> all[i] == r.extraHeaders[i - 3];
  }

  function MessageOf(r: HttpResponse, head: bool): Message {
    Message(r.status, AllFields(r), if head then "" else r.body)
  }

  /** What a client makes of a response, whatever follows it, the flag it reads with being
      its own: the status and fields always, and as many bytes of body as they announce to it. */
  lemma ReadsAs(r: HttpResponse, omitBody: bool, head: bool, suffix: string)
    requires Printable(r)
    ensures var left := (if omitBody then "" else r.body) + suffix;
            var n := if head || Bodyless(r.status) then 0 else |r.body|;
            ReadMessage(Serialize(r, omitBody) + suffix, head) ==
              if n > |left| then Bad else Read(Message(r.status, AllFields(r), left[..n]), left[n..])
  {
    hide Decimal, ReadFields, ReadStatusLine, AllFields, HeaderLines, StatusMessage, Printable, ValuesOf;
    var body := if omitBody then "" else r.body;
    var fields := HeaderLines(AllFields(r)) + "\r\n" + (body + suffix);
    var s := StatusLine(r.status) + "\r\n" + fields;
    assert Serialize(r, omitBody) + suffix == s;
    ReadsStatusLine(r.status, fields);
    FieldsPrintable(r);
    ReadsHeaderLines(AllFields(r), body + suffix);
    FramedOnce(r) by { assert NoFraming(r.extraHeaders) by { PrintableFrames(r); } }
  }

  /** One response, whatever follows it, is read back whole exactly when its status allows
      the body it carries. The body may contain anything, CRLFCRLF included. */
  lemma ReadsWhatIsSerialized(r: HttpResponse, head: bool, suffix: string)
    requires Printable(r)
    ensures ReadMessage(Serialize(r, head) + suffix, head) == Read(MessageOf(r, head), suffix)
            <==> (head || r.body == "" || !Bodyless(r.status))
  {
    hide ReadMessage, Serialize, Printable, AllFields;
    ReadsAs(r, head, head, suffix);
    var body := if head then "" else r.body;
    assert (body + suffix)[..|body|] == body && (body + suffix)[|body|..] == suffix;
    assert (body + suffix)[..0] == "";
  }

  lemma PrintableFrames(r: HttpResponse)
    requires Printable(r)
    ensures NoFraming(r.extraHeaders)
  {
  }

  function Heads(log: seq<Answer>): seq<bool> {
    seq(|log|, i requires 0 <= i < |log| => log[i].request.verb == "HEAD")
  }

  function Messages(log: seq<Answer>): seq<Message> {
    seq(|log|, i requires 0 <= i < |log| => MessageOf(log[i].response, log[i].request.verb == "HEAD"))
  }

  /** A reader with this flag takes as many bytes of body as were sent. */
  predicate Framed(a: Answer, flag: bool) {
    (if flag || Bodyless(a.response.status) then 0 else |a.response.body|) ==
    (if a.request.verb == "HEAD" then 0 else |a.response.body|)
  }

  predicate Decodable(a: Answer) { Printable(a.response) && Framed(a, a.request.verb == "HEAD") }

  /** So it reads the answer whole and leaves what follows, and otherwise cannot have read it. */
  lemma ReadsOne(a: Answer, flag: bool, tail: string)
    requires Printable(a.response)
    ensures var read, head := ReadMessage(Bytes(a) + tail, flag), a.request.verb == "HEAD";
            && (Framed(a, flag) ==> read == Read(MessageOf(a.response, head), tail))
            && (!Framed(a, flag) ==> read.Bad? || read.value != MessageOf(a.response, head))
  {
    hide ReadMessage, Serialize, Printable, AllFields;
    var head := a.request.verb == "HEAD";
    ReadsAs(a.response, head, flag, tail);
    var body := if head then "" else a.response.body;
    assert (body + tail)[..|body|] == body && (body + tail)[|body|..] == tail;
  }

  // ---- what the reader learns ---------------------------------------------------

  predicate NoneNamed(fields: seq<(string, string)>, name: string) {
    forall i :: 0 <= i < |fields| ==> ToLower(fields[i].0) != name
  }

  lemma {:induction false} NoneNamedValues(fields: seq<(string, string)>, name: string)
    requires NoneNamed(fields, name)
    ensures ValuesOf(fields, name) == []
  {
    if fields != [] {
      NoneNamedValues(fields[1..], name);
    }
  }

  /** The values of the fields the server adds itself. */
  lemma BuiltInValues(r: HttpResponse, name: string)
    requires NoneNamed(r.extraHeaders, name)
    ensures ValuesOf(AllFields(r), name) ==
              if name == "content-length" then [Decimal(|r.body|)]
              else if name == "content-type" then [r.contentType]
              else if name == "connection" then [if r.keepAlive then "keep-alive" else "close"]
              else []
  {
    hide ValuesOf, ToLower, Decimal;
    BuiltInNames();
    var extra := r.extraHeaders;
    var length := ("Content-Length", Decimal(|r.body|));
    var kind := ("Content-Type", r.contentType);
    var connection := ("Connection", if r.keepAlive then "keep-alive" else "close");
    assert AllFields(r) == [length] + ([kind] + ([connection] + extra));
    NoneNamedValues(extra, name);
    ValuesCons(connection, extra, name);
    ValuesCons(kind, [connection] + extra, name);
    ValuesCons(length, [kind] + ([connection] + extra), name);
  }

  lemma ExtraEndsFields(r: HttpResponse)
    ensures var n := |AllFields(r)| - |r.extraHeaders|; n == 3 && AllFields(r)[n..] == r.extraHeaders
  {
  }

  /** Whatever flag it reads with, a client that makes anything of a response learns its status,
      its type, whether the connection persists, and the fields the handler added, in order. */
  lemma ReaderLearns(r: HttpResponse, omitBody: bool, flag: bool, suffix: string)
    requires Printable(r)
    ensures var read := ReadMessage(Serialize(r, omitBody) + suffix, flag);
            read.Read? ==>
              var fields := read.value.fields;
              && read.value.status == r.status
              && |fields| == |r.extraHeaders| + 3 && fields[3..] == r.extraHeaders
              && (NoneNamed(r.extraHeaders, "connection") ==>
                    ValuesOf(fields, "connection") == [if r.keepAlive then "keep-alive" else "close"])
              && (NoneNamed(r.extraHeaders, "content-type") ==> ValuesOf(fields, "content-type") == [r.contentType])
  {
    hide ReadMessage, Serialize, Printable, AllFields, ValuesOf, NoneNamed;
    ReadsAs(r, omitBody, flag, suffix);
    ExtraEndsFields(r);
    if NoneNamed(r.extraHeaders, "connection") {
      BuiltInValues(r, "connection");
    }
    if NoneNamed(r.extraHeaders, "content-type") {
      BuiltInValues(r, "content-type");
    }
  }

  predicate AllFramed(log: seq<Answer>, flags: seq<bool>)
    requires |flags| == |log|
  {
    forall i :: 0 <= i < |log| ==> Framed(log[i], flags[i])
  }

  /** A client with these flags recovers the answers, whatever follows them, exactly when it
      takes as many bytes of each as were sent. */
  lemma {:induction false} ReadsByFlags(log: seq<Answer>, flags: seq<bool>, suffix: string)
    requires (forall i :: 0 <= i < |log| ==> Printable(log[i].response)) && |flags| == |log|
    ensures ReadStream(AllBytes(log) + suffix, flags) == Read(Messages(log), suffix) <==> AllFramed(log, flags)
  {
    hide ReadMessage, Serialize, MessageOf, Printable, AllBytes, Heads, Messages, ReadStream, Bytes, Framed;
    if log == [] {
      NothingReads(suffix);
    } else {
      var a, more := log[0], log[1..];
      var tail, head := AllBytes(more) + suffix, a.request.verb == "HEAD";
      assert log == [a] + more && flags == [flags[0]] + flags[1..];
      ReadsByFlags(more, flags[1..], suffix);
      FirstBytes(a, more, suffix);
      LogCons(a, more);
      ReadsOne(a, flags[0], tail);
      StreamCons(Bytes(a) + tail, flags[0], flags[1..], MessageOf(a.response, head), tail, Messages(more), suffix);
      FramedCons(log, flags);
    }
  }

  lemma FramedCons(log: seq<Answer>, flags: seq<bool>)
    requires |flags| == |log| && log != []
    ensures AllFramed(log, flags) <==> Framed(log[0], flags[0]) && AllFramed(log[1..], flags[1..])
  {
    hide Framed;
    assert forall i :: 1 <= i < |log| ==> log[i] == log[1..][i - 1] && flags[i] == flags[1..][i - 1];
  }

  /** Reading `m` first and then `ms` is reading both. */
  lemma StreamCons(s: string, flag: bool, flags: seq<bool>, m: Message, tail: string, ms: seq<Message>, suffix: string)
    requires ReadMessage(s, flag) == Read(m, tail) || ReadMessage(s, flag).Bad? || ReadMessage(s, flag).value != m
    ensures ReadStream(s, [flag] + flags) == Read([m] + ms, suffix) <==>
              ReadMessage(s, flag) == Read(m, tail) && ReadStream(tail, flags) == Read(ms, suffix)
  {
    hide ReadMessage;
    assert ([flag] + flags)[1..] == flags;
    if ReadMessage(s, flag).Read? && ReadStream(ReadMessage(s, flag).rest, flags).Read? {
      SameCons(ReadMessage(s, flag).value, ReadStream(ReadMessage(s, flag).rest, flags).value, m, ms);
    }
  }

  lemma SameCons<T>(x: T, xs: seq<T>, y: T, ys: seq<T>)
    ensures [x] + xs == [y] + ys <==> x == y && xs == ys
  {
    assert ([x] + xs)[0] == x && ([y] + ys)[0] == y;
    assert ([x] + xs)[1..] == xs && ([y] + ys)[1..] == ys;
  }

  lemma NothingReads(suffix: string)
    ensures ReadStream(AllBytes([]) + suffix, []) == Read(Messages([]), suffix)
  {
    assert AllBytes([]) + suffix == suffix;
    assert Messages([]) == [];
  }

  lemma LogCons(a: Answer, more: seq<Answer>)
    ensures Heads([a] + more) == [a.request.verb == "HEAD"] + Heads(more)
    ensures Messages([a] + more) == [MessageOf(a.response, a.request.verb == "HEAD")] + Messages(more)
  {
    hide MessageOf;
  }

  lemma FirstBytes(a: Answer, more: seq<Answer>, suffix: string)
    ensures AllBytes([a] + more) + suffix == Bytes(a) + (AllBytes(more) + suffix)
  {
    hide Serialize;
    AllBytesJoin([a], more);
    assert AllBytes([a]) == "" + Bytes(a);
  }

  /** Everything a connection queues can be taken apart again: a client that flags the
      requests the server took for HEAD recovers each status, field list and body in order,
      and is left with exactly what follows, precisely when no answer to another request has a
      body its status does not allow. */
  lemma ResponsesAreDecodable(log: seq<Answer>, suffix: string)
    requires forall i :: 0 <= i < |log| ==> Printable(log[i].response)
    ensures ReadStream(AllBytes(log) + suffix, Heads(log)) == Read(Messages(log), suffix) <==>
              forall i :: 0 <= i < |log| ==>
                log[i].request.verb == "HEAD" || log[i].response.body == "" || !Bodyless(log[i].response.status)
  {
    hide ReadStream, AllBytes, Messages, Printable;
    ReadsByFlags(log, Heads(log), suffix);
    assert forall i :: 0 <= i < |log| ==> (Framed(log[i], Heads(log)[i]) <==>
        log[i].request.verb == "HEAD" || log[i].response.body == "" || !Bodyless(log[i].response.status));
  }

  lemma DecodesWhole(log: seq<Answer>)
    requires forall a :: a in log ==> Decodable(a)
    ensures ReadStream(AllBytes(log), Heads(log)) == Read(Messages(log), "")
  {
    hide ReadStream, AllBytes, Messages, Heads, Framed, Printable;
    HeadsAre(log);
    ReadsByFlags(log, Heads(log), "");
    assert AllBytes(log) + "" == AllBytes(log);
  }

  lemma HeadsAre(log: seq<Answer>)
    requires forall a :: a in log ==> Decodable(a)
    ensures |Heads(log)| == |log| && AllFramed(log, Heads(log))
    ensures forall i :: 0 <= i < |log| ==> Printable(log[i].response)
  {
    hide Framed, Printable;
    forall i | 0 <= i < |log| ensures Framed(log[i], Heads(log)[i]) && Printable(log[i].response) {
      assert Decodable(log[i]);
    }
  }
}
