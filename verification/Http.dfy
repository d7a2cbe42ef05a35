/** Requests, responses and response serialisation (src/http.cpp, include/http.h). */
module Http {
  import opened Text

  datatype HttpRequest = HttpRequest(
    verb: string, target: string, path: string, query: string, version: string,
    headers: map<string, string>, body: string, keepAlive: bool)
  {
    /** The value of a field, "" when absent; names are matched in lower case. */
    function Header(name: string): string {
      var key := ToLower(name);
      if key in headers then headers[key] else ""
    }
  }

  const BLANK_REQUEST := HttpRequest("", "", "", "", "", map[], "", true)

  datatype HttpResponse = HttpResponse(
    status: nat, contentType: string, body: string,
    extraHeaders: seq<(string, string)>, keepAlive: bool)

  /** `statusMessage`, by status class. No message can break the line it is printed on. */
  function StatusMessage(status: nat): (r: string)
    ensures '\n' !in r
  {
    if status < 400 then SuccessMessage(status)
    else if status < 410 then RequestMessage(status)
    else if status < 500 then SizeMessage(status)
    else ServerMessage(status)
  }

  function SuccessMessage(status: nat): (r: string)
    ensures '\n' !in r
  {
    match status
    case 200 => "OK"
    case 201 => "Created"
    case 204 => "No Content"
    case _ => "Unknown"
  }

  function RequestMessage(status: nat): (r: string)
    ensures '\n' !in r
  {
    match status
    case 400 => "Bad Request"
    case 403 => "Forbidden"
    case 404 => "Not Found"
    case 405 => "Method Not Allowed"
    case 408 => "Request Timeout"
    case _ => "Unknown"
  }

  function SizeMessage(status: nat): (r: string)
    ensures '\n' !in r
  {
    match status
    case 413 => "Payload Too Large"
    case 414 => "URI Too Long"
    case 431 => "Request Header Fields Too Large"
    case _ => "Unknown"
  }

  function ServerMessage(status: nat): (r: string)
    ensures '\n' !in r
  {
    match status
    case 500 => "Internal Server Error"
    case 501 => "Not Implemented"
    case 505 => "HTTP Version Not Supported"
    case 507 => "Insufficient Storage"
    case _ => "Unknown"
  }

  function JsonResponse(payload: string, status: nat): HttpResponse {
    HttpResponse(status, "application/json", payload, [], true)
  }

  function ErrorResponse(status: nat): HttpResponse {
    HttpResponse(status, "text/html",
                 "<html><body><h1>" + Decimal(status) + " " + StatusMessage(status) + "</h1></body></html>",
                 [], status !in {400, 408, 413, 431, 505})
  }

  function HeaderLine(name: string, value: string): string {
    name + ": " + value + "\r\n"
  }

  function HeaderLines(fields: seq<(string, string)>): string {
    if fields == [] then "" else HeaderLine(fields[0].0, fields[0].1) + HeaderLines(fields[1..])
  }

  /** Every field of a serialised response, in the order printed. */
  function AllFields(r: HttpResponse): seq<(string, string)> {
    [("Content-Length", Decimal(|r.body|)),
     ("Content-Type", r.contentType),
     ("Connection", if r.keepAlive then "keep-alive" else "close")] + r.extraHeaders
  }

  /** `HttpResponse::serialize`: for HEAD the header block is unchanged and the body dropped. */
  function Serialize(r: HttpResponse, omitBody: bool): string {
    "HTTP/1.1 " + Decimal(r.status) + " " + StatusMessage(r.status) + "\r\n"
    + HeaderLines(AllFields(r)) + "\r\n"
    + (if omitBody then "" else r.body)
  }

  /** The reason phrases of RFC 9110 (section 15), 431 from RFC 6585 and 507 from RFC 4918, for
      the statuses the server knows; the shorter 413 and 414 are those of earlier editions. */
  const REASONS: seq<(nat, string)> := [
    (200, "OK"), (201, "Created"), (204, "No Content"), (400, "Bad Request"), (403, "Forbidden"),
    (404, "Not Found"), (405, "Method Not Allowed"), (408, "Request Timeout"), (413, "Payload Too Large"),
    (414, "URI Too Long"), (431, "Request Header Fields Too Large"), (500, "Internal Server Error"),
    (501, "Not Implemented"), (505, "HTTP Version Not Supported"), (507, "Insufficient Storage")]

  lemma ReasonsAreStandard(status: nat)
    ensures forall i :: 0 <= i < |REASONS| && REASONS[i].0 == status ==> StatusMessage(status) == REASONS[i].1
    ensures status !in {200, 201, 204, 400, 403, 404, 405, 408, 413, 414, 431, 500, 501, 505, 507} ==>
              StatusMessage(status) == "Unknown"
  {
  }

  /** An error answers with its own status, says so in its body, adds no field, and leaves the
      connection open unless the stream can no longer be trusted. */
  lemma ErrorIs(status: nat)
    ensures var r := ErrorResponse(status);
            && r.status == status && r.contentType == "text/html" && r.extraHeaders == []
            && (r.keepAlive <==> status != 400 && status != 408 && status != 413 && status != 431 && status != 505)
            && exists before, after :: r.body == before + (Decimal(status) + (" " + StatusMessage(status) + after))
  {
    hide StatusMessage, Decimal;
    var open, close := "<html><body><h1>", "</h1></body></html>";
    var middle := Decimal(status) + (" " + StatusMessage(status) + close);
    assert ErrorResponse(status).body == open + middle;
  }

  lemma JsonIs(payload: string, status: nat)
    ensures var r := JsonResponse(payload, status);
            r.status == status && r.body == payload && r.contentType == "application/json" && r.keepAlive
            && r.extraHeaders == []
  {
  }
}
