/** The bounded key/value store (src/api.cpp:159-216, include/api.h:13-15). */
module KvStore {
  import opened Text
  import opened Http
  import opened FlatJson
  import FormCoding

  const MAX_ENTRIES: nat := 50
  const MAX_KEY_LENGTH: nat := 64
  const MAX_VALUE_LENGTH: nat := 256

  type Entries = map<string, string>

  function PairBody(key: string, value: string): string {
    "{\"key\":\"" + Escaped(key) + "\",\"value\":\"" + Escaped(value) + "\"}"
  }

  /** What a put asks to store, read from its body. */
  datatype Wanted = Malformed | Wanted(key: string, value: string)

  function FieldOr(fields: Entries, name: string): string {
    if name in fields then fields[name] else ""
  }

  function WantedBy(request: HttpRequest): Wanted {
    if Contains(request.Header("content-type"), "application/json") then
      match ScanObject(request.body)
      case None => Malformed
      case Some(fields) => Wanted(FieldOr(fields, "key"), FieldOr(fields, "value"))
    else
      var fields := FormCoding.FormParsed(request.body, map[]);
      Wanted(FieldOr(fields, "key"), FieldOr(fields, "value"))
  }

  /** Why a put is turned down, or nothing. */
  function Refusal(entries: Entries, w: Wanted): (r: Option<HttpResponse>)
    ensures r.None? ==> w.Wanted?
  {
    if w.Malformed? then Some(JsonResponse("{\"error\":\"malformed JSON body\"}", 400))
    else if w.key == "" then Some(JsonResponse("{\"error\":\"key is required\"}", 400))
    else if |w.key| > MAX_KEY_LENGTH || |w.value| > MAX_VALUE_LENGTH then
      Some(JsonResponse("{\"error\":\"key or value too long\"}", 413))
    else if w.key !in entries && |entries| >= MAX_ENTRIES then
      Some(JsonResponse("{\"error\":\"store is full\"}", 507))
    else None
  }

  function PutResponse(entries: Entries, w: Wanted): HttpResponse {
    match Refusal(entries, w)
    case Some(r) => r
    case None => JsonResponse(PairBody(w.key, w.value), if w.key in entries then 200 else 201)
  }

  function GetResponse(entries: Entries, key: string): HttpResponse {
    if key == "" then JsonResponse("{\"error\":\"missing key parameter\"}", 400)
    else if key !in entries then JsonResponse("{\"error\":\"not found\"}", 404)
    else JsonResponse(PairBody(key, entries[key]), 200)
  }

  function RemoveResponse(entries: Entries, key: string): HttpResponse {
    if key == "" then JsonResponse("{\"error\":\"missing key parameter\"}", 400)
    else if key !in entries then JsonResponse("{\"error\":\"not found\"}", 404)
    else JsonResponse("{\"deleted\":true}", 200)
  }

  function AfterPut(entries: Entries, w: Wanted): Entries {
    if Refusal(entries, w).None? then entries[w.key := w.value] else entries
  }

  function AfterRemove(entries: Entries, key: string): Entries {
    if key == "" then entries else entries - {key}
  }

  class Store {
    var entries: Entries

    constructor ()
      ensures entries == map[]
    {
      entries := map[];
    }

    method Get(key: string) returns (response: HttpResponse)
      ensures response == GetResponse(entries, key)
    {
      if key == "" {
        return JsonResponse("{\"error\":\"missing key parameter\"}", 400);
      }
      if key !in entries {
        return JsonResponse("{\"error\":\"not found\"}", 404);
      }
      var k := JsonEscape(key);
      var v := JsonEscape(entries[key]);
      return JsonResponse("{\"key\":\"" + k + "\",\"value\":\"" + v + "\"}", 200);
    }

    method Put(request: HttpRequest) returns (response: HttpResponse)
      modifies this
      ensures entries == AfterPut(old(entries), WantedBy(request))
      ensures response == PutResponse(old(entries), WantedBy(request))
    {
      hide ScanObject, FormCoding.FormParsed, Escaped, Contains;
      var fields: Entries;
      if Contains(request.Header("content-type"), "application/json") {
        var ok;
        fields, ok := ParseFlatJson(request.body);
        if !ok {
          return JsonResponse("{\"error\":\"malformed JSON body\"}", 400);
        }
      } else {
        fields := FormCoding.ParseFormEncoded(request.body);
      }
      var key, value := FieldOr(fields, "key"), FieldOr(fields, "value");
      assert WantedBy(request) == Wanted(key, value);
      response := Commit(key, value);
    }

    /** The rest of `put`, once the body has been read. */
    method Commit(key: string, value: string) returns (response: HttpResponse)
      modifies this
      ensures entries == AfterPut(old(entries), Wanted(key, value))
      ensures response == PutResponse(old(entries), Wanted(key, value))
    {
      hide Escaped;
      if key == "" {
        return JsonResponse("{\"error\":\"key is required\"}", 400);
      }
      if |key| > MAX_KEY_LENGTH || |value| > MAX_VALUE_LENGTH {
        return JsonResponse("{\"error\":\"key or value too long\"}", 413);
      }
      var replacing := key in entries;
      if !replacing && |entries| >= MAX_ENTRIES {
        return JsonResponse("{\"error\":\"store is full\"}", 507);
      }
      entries := entries[key := value];
      var k := JsonEscape(key);
      var v := JsonEscape(value);
      return JsonResponse("{\"key\":\"" + k + "\",\"value\":\"" + v + "\"}", if replacing then 200 else 201);
    }

    method Remove(key: string) returns (response: HttpResponse)
      modifies this
      ensures entries == AfterRemove(old(entries), key)
      ensures response == RemoveResponse(old(entries), key)
    {
      if key == "" {
        return JsonResponse("{\"error\":\"missing key parameter\"}", 400);
      }
      if key !in entries {
        return JsonResponse("{\"error\":\"not found\"}", 404);
      }
      entries := entries - {key};
      return JsonResponse("{\"deleted\":true}", 200);
    }
  }

  // ---- sequences of operations ------------------------------------------------------------

  datatype Op = PutOp(request: HttpRequest) | GetOp(key: string) | RemoveOp(key: string)

  /** What a whole operation does to the map, and what it answers. */
  function Effect(entries: Entries, op: Op): Entries {
    match op
    case PutOp(request) => AfterPut(entries, WantedBy(request))
    case GetOp(_) => entries
    case RemoveOp(key) => AfterRemove(entries, key)
  }

  function ResponseTo(entries: Entries, op: Op): HttpResponse {
    match op
    case PutOp(request) => PutResponse(entries, WantedBy(request))
    case GetOp(key) => GetResponse(entries, key)
    case RemoveOp(key) => RemoveResponse(entries, key)
  }

  function StoreAfter(ops: seq<Op>): Entries {
    if ops == [] then map[] else Effect(StoreAfter(ops[..|ops| - 1]), ops[|ops| - 1])
  }

  predicate Bounded(entries: Entries) {
    && |entries| <= MAX_ENTRIES
    && forall k :: k in entries ==> 1 <= |k| <= MAX_KEY_LENGTH && |entries[k]| <= MAX_VALUE_LENGTH
  }

  lemma {:induction false} StoreStaysBounded(ops: seq<Op>)
    ensures Bounded(StoreAfter(ops))
  {
    hide WantedBy;
    if ops != [] {
      StoreStaysBounded(ops[..|ops| - 1]);
      var entries := StoreAfter(ops[..|ops| - 1]);
      match ops[|ops| - 1]
      case PutOp(request) =>
        var w := WantedBy(request);
        if Refusal(entries, w).None? && w.key !in entries {
          assert |entries[w.key := w.value]| == |entries| + 1;
        }
      case GetOp(_) =>
      case RemoveOp(key) =>
        assert (entries - {key}).Keys <= entries.Keys;
        SubsetSize((entries - {key}).Keys, entries.Keys);
    }
  }

  lemma {:induction false} SubsetSize(a: set<string>, b: set<string>)
    requires a <= b
    ensures |a| <= |b|
  {
    if a != {} {
      var x :| x in a;
      SubsetSize(a - {x}, b - {x});
    }
  }

  /** The last value put for a key and not removed since, told from the responses alone. */
  function LastStored(ops: seq<Op>, key: string): Option<string> {
    if ops == [] then None
    else
      var front := ops[..|ops| - 1];
      match ops[|ops| - 1]
      case PutOp(request) =>
        var w := WantedBy(request);
        if w.Wanted? && w.key == key && PutResponse(StoreAfter(front), w).status in {200, 201}
        then Some(w.value) else LastStored(front, key)
      case GetOp(_) => LastStored(front, key)
      case RemoveOp(k) => if k == key then None else LastStored(front, key)
  }

  lemma {:induction false} StoreHoldsLastStored(ops: seq<Op>, key: string)
    ensures LastStored(ops, key) == if key in StoreAfter(ops) then Some(StoreAfter(ops)[key]) else None
  {
    hide WantedBy, PairBody;
    if ops != [] {
      StoreHoldsLastStored(ops[..|ops| - 1], key);
      StoreStaysBounded(ops[..|ops| - 1]);
    }
  }

  /** 507 answers exactly a well-formed new key on a store that holds 50 entries. */
  lemma FullOnlyForNewKey(ops: seq<Op>, w: Wanted)
    ensures PutResponse(StoreAfter(ops), w).status == 507 <==>
              && w.Wanted? && 1 <= |w.key| <= MAX_KEY_LENGTH && |w.value| <= MAX_VALUE_LENGTH
              && w.key !in StoreAfter(ops) && |StoreAfter(ops)| == MAX_ENTRIES
  {
    hide PairBody, StoreAfter;
    StoreStaysBounded(ops);
  }

  // ---- what a get returns ------------------------------------------------------------------

  function BodyMember(name: string, text: string): Member {
    Member("", Plains(name), "", "", TextItems(text), "")
  }

  lemma BareMember(key: seq<Item>, value: seq<Item>)
    ensures MemberText(Member("", key, "", "", value, "")) == Quoted(key) + ":" + Quoted(value)
  {
    hide Quoted;
    var q := Quoted(value);
    assert q + "" == q && "" + (q + "") == q;
    assert "" + ":" + q == ":" + q;
    assert "" + (Quoted(key) + (":" + q)) == Quoted(key) + ":" + q;
  }

  lemma BodyMemberText(name: string, text: string)
    requires forall i :: 0 <= i < |name| ==> name[i] != '"' && name[i] != '\\'
    ensures MemberOk(BodyMember(name, text))
    ensures MemberText(BodyMember(name, text)) == "\"" + name + "\":\"" + Escaped(text) + "\""
  {
    hide Escaped, TextItems, ItemsText;
    PlainsText(name);
    EscapedIsItems(text);
    BareMember(Plains(name), TextItems(text));
    var t := Escaped(text);
    assert "\"" + name + "\"" + ":" + ("\"" + t + "\"") == "\"" + name + "\":\"" + t + "\"";
  }

  function BodyObject(key: string, value: string): Object {
    Object("", "", [BodyMember("key", key), BodyMember("value", value)])
  }

  lemma BodyIsAnObject(key: string, value: string)
    ensures ObjectOk(BodyObject(key, value))
    ensures ObjectText(BodyObject(key, value)) == PairBody(key, value)
  {
    hide MemberText, MembersText, Escaped, BodyMember;
    var m, n := BodyMember("key", key), BodyMember("value", value);
    BodyMemberText("key", key);
    BodyMemberText("value", value);
    MembersTokens(m, [n], "");
    MembersTokens(n, [], "");
    assert [m] + [n] == [m, n] && [n] + [] == [n];
    assert "}" + "" == "}" && MembersText([n]) + "" == MembersText([n]);
    assert MembersText([m, n]) + "" == MembersText([m, n]);
    assert MembersText([n]) == MemberText(n) + "}";
    assert MembersText([m, n]) == MemberText(m) + ("," + MembersText([n]));
    BodyTokens(Escaped(key), Escaped(value));
    assert "" + "{" == "{";
  }

  lemma BodyTokens(k: string, v: string)
    ensures var first, second := "\"" + "key" + "\":\"" + k + "\"", "\"" + "value" + "\":\"" + v + "\"";
            "{" + (first + ("," + (second + "}"))) == "{\"key\":\"" + k + "\",\"value\":\"" + v + "\"}"
  {
  }

  /** The body that `get` and `put` send back always parses, and to the very pair exactly
      when both strings are clean. */
  lemma BodyParses(key: string, value: string)
    ensures ScanObject(PairBody(key, value)).Some?
    ensures ScanObject(PairBody(key, value)) == Some(map["key" := key, "value" := value])
            <==> Clean(key) && Clean(value)
  {
    hide ScanObject, ObjectText, PairBody;
    var o := BodyObject(key, value);
    BodyIsAnObject(key, value);
    ScansDerived(o, "");
    assert ObjectText(o) + "" == PairBody(key, value);
    EscapedIsItems(key);
    EscapedIsItems(value);
    BodyMeans(key, value);
    var k, v := Meaning(TextItems(key)), Meaning(TextItems(value));
    var m := map["key" := k, "value" := v];
    assert m["key"] == k && m["value"] == v;
  }

  lemma BodyMeans(key: string, value: string)
    ensures LastWins(BodyObject(key, value).members) ==
              map["key" := Meaning(TextItems(key)), "value" := Meaning(TextItems(value))]
  {
    var ms := BodyObject(key, value).members;
    PlainsText("key");
    PlainsText("value");
    assert ms[..1] == [ms[0]] && ms[..1][..0] == [];
  }

  /** After any operations, a get answers 200 exactly for a key whose last
      put was not removed, and its body then parses to that key and that last value, exactly
      when both are clean. */
  lemma GetReturnsLastStored(ops: seq<Op>, key: string)
    ensures var r := GetResponse(StoreAfter(ops), key);
            && (r.status == 200 <==> LastStored(ops, key).Some?)
            && (r.status == 200 ==>
                  (ScanObject(r.body) == Some(map["key" := key, "value" := LastStored(ops, key).value])
                   <==> Clean(key) && Clean(LastStored(ops, key).value)))
  {
    hide ScanObject, StoreAfter, LastStored, PairBody;
    StoreHoldsLastStored(ops, key);
    StoreStaysBounded(ops);
    if LastStored(ops, key).Some? {
      BodyParses(key, LastStored(ops, key).value);
    }
  }

  // ---- which answer, when ------------------------------------------------------------------

  lemma GetDecides(ops: seq<Op>, key: string)
    ensures var status, last := ResponseTo(StoreAfter(ops), GetOp(key)).status, LastStored(ops, key);
            && (status == 400 <==> key == "")
            && (status == 200 <==> key != "" && last.Some?)
            && (status == 404 <==> key != "" && last.None?)
  {
    hide StoreAfter, LastStored, PairBody;
    StoreHoldsLastStored(ops, key);
    StoreStaysBounded(ops);
  }

  /** A remove says whether there was anything to remove, and a get right after finds nothing. */
  lemma RemoveDecides(ops: seq<Op>, key: string)
    ensures var status, last := ResponseTo(StoreAfter(ops), RemoveOp(key)).status, LastStored(ops, key);
            && (status == 400 <==> key == "")
            && (status == 200 <==> key != "" && last.Some?)
            && (status == 404 <==> key != "" && last.None?)
    ensures key != "" ==> ResponseTo(StoreAfter(ops + [RemoveOp(key)]), GetOp(key)).status == 404
  {
    StoreHoldsLastStored(ops, key);
    StoreStaysBounded(ops);
    assert (ops + [RemoveOp(key)])[..|ops|] == ops;
    GetDecides(ops + [RemoveOp(key)], key);
  }

  /** A put is told apart as malformed, too long, refused for want of room, created or replaced;
      and a get right after an accepted one sends the same body. */
  lemma PutDecides(ops: seq<Op>, request: HttpRequest)
    ensures var w, r := WantedBy(request), ResponseTo(StoreAfter(ops), PutOp(request));
            var nonempty := w.Wanted? && |w.key| > 0;
            var fits := nonempty && |w.key| <= 64 && |w.value| <= 256;
            && (r.status == 400 <==> !nonempty)
            && (r.status == 413 <==> nonempty && !fits)
            && (r.status == 507 <==> fits && LastStored(ops, w.key).None? && |StoreAfter(ops)| == 50)
            && (r.status == 201 <==> fits && LastStored(ops, w.key).None? && |StoreAfter(ops)| < 50)
            && (r.status == 200 <==> fits && LastStored(ops, w.key).Some?)
            && (r.status in {200, 201} ==>
                  var after := ResponseTo(StoreAfter(ops + [PutOp(request)]), GetOp(w.key));
                  after.status == 200 && after.body == r.body)
  {
    hide WantedBy, PairBody;
    StoreStaysBounded(ops);
    assert (ops + [PutOp(request)])[..|ops|] == ops;
    if WantedBy(request).Wanted? {
      StoreHoldsLastStored(ops, WantedBy(request).key);
    }
  }

  /** A JSON body asks for the last "key" and "value" of the object it begins with, "" for one
      that is missing; without such an object it is malformed. */
  lemma WantsJson(request: HttpRequest)
    requires Contains(request.Header("content-type"), "application/json")
    ensures WantedBy(request).Malformed? <==> !exists o :: ObjectOk(o) && ObjectText(o) <= request.body
    ensures forall o :: ObjectOk(o) && ObjectText(o) <= request.body ==>
              var fields := FlatJson.LastWins(o.members);
              WantedBy(request) == Wanted(if "key" in fields then fields["key"] else "",
                                          if "value" in fields then fields["value"] else "")
  {
    hide ObjectOk, ObjectText, ScanObject, Contains, FlatJson.LastWins;
    ParserIsExact(request.body);
  }

  /** Any other body is a form, and never malformed. */
  lemma WantsForm(request: HttpRequest, ps: seq<FormCoding.Encoded>)
    requires !Contains(request.Header("content-type"), "application/json")
    requires FormCoding.EncodedOk(ps) && request.body == FormCoding.FormText(ps)
    ensures var fields := FormCoding.LastWins(ps);
            WantedBy(request) == Wanted(if "key" in fields then fields["key"] else "",
                                        if "value" in fields then fields["value"] else "")
  {
    hide FormCoding.EncodedOk, FormCoding.FormText, FormCoding.LastWins, Contains;
    FormCoding.FormRoundTrip(ps);
  }

  /** What a get sends back can be put again. */
  lemma PutsWhatGetSends(request: HttpRequest, key: string, value: string)
    requires Contains(request.Header("content-type"), "application/json") && request.body == PairBody(key, value)
    requires Clean(key) && Clean(value)
    ensures WantedBy(request) == Wanted(key, value)
  {
    hide ScanObject, PairBody, Contains;
    BodyParses(key, value);
  }
}
