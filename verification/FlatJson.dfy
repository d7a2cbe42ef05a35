/** JSON escaping and the flat-object parser (src/api.cpp:5-24, 61-141). */
module FlatJson {
  import opened Text

  type Fields = map<string, string>

  // ---- what the code computes, over the text still to be read -----------------------

  function Unescape(c: char): char {
    if c == 'n' then '\n' else if c == 't' then '\t' else if c == 'r' then '\r' else c
  }

  datatype Scanned = Nothing | Scanned(value: string, rest: string)

  function Prepend(c: char, s: Scanned): Scanned {
    if s.Nothing? then Nothing else Scanned([c] + s.value, s.rest)
  }

  /** The inside of a string, up to and including its closing quote. */
  function ScanChars(s: string): (r: Scanned)
    ensures r.Scanned? ==> |r.rest| < |s|
  {
    if s == "" then Nothing
    else if s[0] == '"' then Scanned("", s[1..])
    else if s[0] == '\\' && |s| > 1 then Prepend(Unescape(s[1]), ScanChars(s[2..]))
    else Prepend(s[0], ScanChars(s[1..]))
  }

  function ScanString(s: string): (r: Scanned)
    ensures r.Scanned? ==> |r.rest| < |s|
  {
    if s == "" || s[0] != '"' then Nothing else ScanChars(s[1..])
  }

  datatype Pair = NoPair | Pair(key: string, value: string, rest: string)

  function ScanPair(s: string): (r: Pair)
    ensures r.Pair? ==> |r.rest| < |s|
  {
    match ScanString(DropSpace(s))
    case Nothing => NoPair
    case Scanned(key, afterKey) =>
      var colon := DropSpace(afterKey);
      if colon == "" || colon[0] != ':' then NoPair
      else match ScanString(DropSpace(colon[1..]))
        case Nothing => NoPair
        case Scanned(value, rest) => Pair(key, value, DropSpace(rest))
  }

  function ScanMembers(s: string, fields: Fields): Option<Fields>
    decreases |s|
  {
    match ScanPair(s)
    case NoPair => None
    case Pair(key, value, rest) =>
      var more := fields[key := value];
      if rest != "" && rest[0] == ',' then ScanMembers(rest[1..], more)
      else if rest != "" && rest[0] == '}' then Some(more)
      else None
  }

  function ScanObject(text: string): Option<Fields> {
    var s := DropSpace(text);
    if s == "" || s[0] != '{' then None
    else
      var inner := DropSpace(s[1..]);
      if inner != "" && inner[0] == '}' then Some(map[]) else ScanMembers(inner, map[])
  }

  function HexDigit(n: nat): char
    requires n < 16
  {
    "0123456789abcdef"[n]
  }

  /** `std::hex << n`, which does not pad. */
  function Hex(n: nat): (r: string)
    ensures r != "" && forall i :: 0 <= i < |r| ==> r[i] != '"' && r[i] != '\\'
  {
    if n < 16 then [HexDigit(n)] else Hex(n / 16) + [HexDigit(n % 16)]
  }

  function EscapeChar(c: char): string {
    if c == '"' then "\\\""
    else if c == '\\' then "\\\\"
    else if c == '\n' then "\\n"
    else if c == '\r' then "\\r"
    else if c == '\t' then "\\t"
    else if c < ' ' then "\\u00" + Hex(c as nat)
    else [c]
  }

  function Escaped(text: string): string {
    if text == "" then "" else EscapeChar(text[0]) + Escaped(text[1..])
  }

  // ---- the loops ------------------------------------------------------------------------

  method JsonEscape(text: string) returns (out: string)
    ensures out == Escaped(text)
  {
    out := "";
    for i := 0 to |text|
      invariant out + Escaped(text[i..]) == Escaped(text)
    {
      out := out + EscapeChar(text[i]);
    }
  }

  method SkipSpace(text: string, start: nat) returns (i: nat)
    requires start <= |text|
    ensures start <= i <= |text| && text[i..] == DropSpace(text[start..])
  {
    i := start;
    while i < |text| && IsSpace(text[i])
      invariant start <= i <= |text| && DropSpace(text[i..]) == DropSpace(text[start..])
    {
      i := i + 1;
    }
  }

  /** One turn of the string loop: an escape and its character, or a character. */
  lemma ScansTurn(s: string)
    requires s != "" && s[0] != '"'
    ensures ScanChars(s) == if s[0] == '\\' && |s| > 1 then Prepend(Unescape(s[1]), ScanChars(s[2..]))
                            else Prepend(s[0], ScanChars(s[1..]))
  {
  }

  lemma ScansEnd(s: string)
    requires s == "" || s[0] == '"'
    ensures ScanChars(s) == if s == "" then Nothing else Scanned("", s[1..])
  {
  }

  method ReadString(text: string, start: nat) returns (ok: bool, i: nat, out: string)
    requires start <= |text|
    ensures start <= i <= |text|
    ensures ok == ScanString(text[start..]).Scanned?
    ensures ok ==> ScanString(text[start..]) == Scanned(out, text[i..]) && start < i
  {
    hide ScanChars, Unescape, Prepend;
    i, out := start, "";
    if i >= |text| || text[i] != '"' {
      return false, i, out;
    }
    i := i + 1;
    assert text[start..][1..] == text[i..];
    PrependNothing(ScanChars(text[i..]));
    while i < |text| && text[i] != '"'
      invariant start < i <= |text|
      invariant ScanString(text[start..]) == PrependAll(out, ScanChars(text[i..]))
    {
      ghost var before, left := out, text[i..];
      ScansTurn(left);
      if text[i] == '\\' && i + 1 < |text| {
        assert left[2..] == text[i + 2..];
        i := i + 1;
        out := out + [Unescape(text[i])];
      } else {
        assert left[1..] == text[i + 1..];
        out := out + [text[i]];
      }
      i := i + 1;
      PrependMore(before, out[|before|], ScanChars(text[i..]));
    }
    ScansEnd(text[i..]);
    if i >= |text| {
      return false, i, out;
    }
    assert text[i..][1..] == text[i + 1..] && out + "" == out;
    i := i + 1;
    ok := true;
  }

  lemma PrependNothing(s: Scanned)
    ensures PrependAll("", s) == s
  {
  }

  function PrependAll(out: string, s: Scanned): Scanned {
    if s.Nothing? then Nothing else Scanned(out + s.value, s.rest)
  }

  lemma PrependMore(out: string, c: char, s: Scanned)
    ensures PrependAll(out, Prepend(c, s)) == PrependAll(out + [c], s)
  {
    if s.Scanned? {
      assert out + ([c] + s.value) == out + [c] + s.value;
    }
  }

  /** One turn of the member loop. */
  method ReadPair(text: string, start: nat) returns (ok: bool, i: nat, key: string, value: string)
    requires start <= |text|
    ensures start <= i <= |text|
    ensures ok == ScanPair(text[start..]).Pair?
    ensures ok ==> ScanPair(text[start..]) == Pair(key, value, text[i..]) && start < i
  {
    hide ScanString, DropSpace;
    value := "";
    i := SkipSpace(text, start);
    ok, i, key := ReadString(text, i);
    if !ok {
      return;
    }
    i := SkipSpace(text, i);
    if i >= |text| || text[i] != ':' {
      ok := false;
      return;
    }
    assert text[i..][1..] == text[i + 1..];
    i := SkipSpace(text, i + 1);
    ok, i, value := ReadString(text, i);
    if ok {
      i := SkipSpace(text, i);
    }
  }

  method ParseFlatJson(text: string) returns (fields: Fields, ok: bool)
    ensures ok == ScanObject(text).Some?
    ensures fields == if ok then ScanObject(text).value else map[]
  {
    hide ScanPair, DropSpace;
    fields, ok := map[], false;
    assert text[0..] == text;
    var i := SkipSpace(text, 0);
    if i >= |text| || text[i] != '{' {
      return;
    }
    assert text[i..][1..] == text[i + 1..];
    i := SkipSpace(text, i + 1);
    if i < |text| && text[i] == '}' {
      ok := true;
      return;
    }
    while i < |text|
      invariant i <= |text| && !ok
      invariant ScanMembers(text[i..], fields) == ScanObject(text)
      decreases |text| - i
    {
      var read, key, value;
      read, i, key, value := ReadPair(text, i);
      if !read {
        return map[], false;
      }
      fields := fields[key := value];
      if i < |text| && text[i] == ',' {
        assert text[i..][1..] == text[i + 1..];
        i := i + 1;
      } else if i < |text| && text[i] == '}' {
        ok := true;
        return;
      } else {
        return map[], false;
      }
    }
    NoMembers(fields);
    return map[], false;
  }

  lemma NoMembers(fields: Fields)
    ensures ScanMembers("", fields) == None
  {
    assert DropSpace("") == "";
  }

  // ---- the grammar, said without the parser ------------------------------------------------

  /** A string is a list of plain characters and escapes. */
  datatype Item = Plain(c: char) | Escape(c: char)

  predicate ItemsOk(items: seq<Item>) {
    forall i :: 0 <= i < |items| && items[i].Plain? ==> items[i].c != '"' && items[i].c != '\\'
  }

  function ItemText(item: Item): string {
    if item.Plain? then [item.c] else ['\\', item.c]
  }

  /** Three letters have a meaning of their own behind a backslash; the rest stand for themselves. */
  const LETTERS: map<char, char> := map['n' := 10 as char, 't' := 9 as char, 'r' := 13 as char]

  function ItemMeaning(item: Item): char {
    if item.Escape? && item.c in LETTERS then LETTERS[item.c] else item.c
  }

  function ItemsText(items: seq<Item>): string {
    if items == [] then "" else ItemText(items[0]) + ItemsText(items[1..])
  }

  function Meaning(items: seq<Item>): string {
    if items == [] then "" else [ItemMeaning(items[0])] + Meaning(items[1..])
  }

  function Quoted(items: seq<Item>): string { "\"" + ItemsText(items) + "\"" }

  /** ws string ws ':' ws string ws */
  datatype Member = Member(ws0: string, key: seq<Item>, ws1: string, ws2: string, value: seq<Item>, ws3: string)

  predicate MemberOk(m: Member) {
    AllSpace(m.ws0) && AllSpace(m.ws1) && AllSpace(m.ws2) && AllSpace(m.ws3) && ItemsOk(m.key) && ItemsOk(m.value)
  }

  function MemberText(m: Member): string {
    m.ws0 + (Quoted(m.key) + (m.ws1 + ":" + (m.ws2 + (Quoted(m.value) + m.ws3))))
  }

  /** ws '{' ws '}' or ws '{' member (',' member)* '}' */
  datatype Object = Object(lead: string, inner: string, members: seq<Member>)

  predicate ObjectOk(o: Object) {
    AllSpace(o.lead) && AllSpace(o.inner) && forall i :: 0 <= i < |o.members| ==> MemberOk(o.members[i])
  }

  /** Nonempty members separated by commas, then the closing brace. */
  function MembersText(ms: seq<Member>): string
    requires ms != []
  {
    MemberText(ms[0]) + if |ms| == 1 then "}" else "," + MembersText(ms[1..])
  }

  function ObjectText(o: Object): string {
    o.lead + "{" + if o.members == [] then o.inner + "}" else MembersText(o.members)
  }

  /** Of members with the same name, the last one counts. */
  function LastWins(ms: seq<Member>): Fields {
    if ms == [] then map[]
    else LastWins(ms[..|ms| - 1])[Meaning(ms[|ms| - 1].key) := Meaning(ms[|ms| - 1].value)]
  }

  // ---- the parser accepts what the grammar derives ---------------------------------------

  predicate ItemOk(item: Item) { item.Plain? ==> item.c != '"' && item.c != '\\' }

  lemma ScansItem(item: Item, tail: string)
    requires ItemOk(item)
    ensures ScanChars(ItemText(item) + tail) == Prepend(ItemMeaning(item), ScanChars(tail))
  {
    assert (ItemText(item) + tail)[|ItemText(item)|..] == tail;
  }

  lemma ItemsCons(item: Item, more: seq<Item>, tail: string)
    ensures ItemsText([item] + more) + tail == ItemText(item) + (ItemsText(more) + tail)
    ensures Meaning([item] + more) == [ItemMeaning(item)] + Meaning(more)
  {
    hide ItemText, ItemMeaning;
    assert ([item] + more)[1..] == more;
    assert (ItemText(item) + ItemsText(more)) + tail == ItemText(item) + (ItemsText(more) + tail);
  }

  lemma {:induction false} ScansItems(items: seq<Item>, rest: string)
    requires ItemsOk(items)
    ensures ScanChars(ItemsText(items) + ("\"" + rest)) == Scanned(Meaning(items), rest)
  {
    hide ScanChars, ItemText, ItemMeaning;
    if items == [] {
      ScansClose(rest);
    } else {
      ScansItems(items[1..], rest);
      assert items == [items[0]] + items[1..];
      ItemsCons(items[0], items[1..], "\"" + rest);
      ScansItem(items[0], ItemsText(items[1..]) + ("\"" + rest));
    }
  }

  lemma ScansClose(rest: string)
    ensures ScanChars("" + ("\"" + rest)) == Scanned("", rest)
  {
    assert "" + ("\"" + rest) == "\"" + rest;
  }

  lemma ScansQuoted(items: seq<Item>, rest: string)
    requires ItemsOk(items)
    ensures ScanString(Quoted(items) + rest) == Scanned(Meaning(items), rest)
    ensures DropSpace(Quoted(items) + rest) == Quoted(items) + rest
  {
    ScansItems(items, rest);
    var s := Quoted(items) + rest;
    assert s[1..] == ItemsText(items) + ("\"" + rest);
    assert s[0] == '"';
  }

  /** The text of a member and what follows, regrouped token by token. */
  lemma MemberTokens(m: Member, rest: string)
    ensures MemberText(m) + rest ==
              m.ws0 + (Quoted(m.key) + (m.ws1 + (":" + (m.ws2 + (Quoted(m.value) + (m.ws3 + rest))))))
  {
    hide Quoted;
    var t := Quoted(m.value) + m.ws3;
    assert t + rest == Quoted(m.value) + (m.ws3 + rest);
    var u := m.ws2 + t;
    assert u + rest == m.ws2 + (t + rest);
    var v := m.ws1 + ":" + u;
    assert v + rest == m.ws1 + (":" + (u + rest));
    var w := Quoted(m.key) + v;
    assert w + rest == Quoted(m.key) + (v + rest);
    assert (m.ws0 + w) + rest == m.ws0 + (w + rest);
  }

  lemma ScansMember(m: Member, rest: string)
    requires MemberOk(m)
    ensures ScanPair(MemberText(m) + rest) == Pair(Meaning(m.key), Meaning(m.value), DropSpace(rest))
  {
    hide ScanString, Quoted, AllSpace, Meaning, MemberText;
    var t3 := m.ws3 + rest;
    var t2 := m.ws2 + (Quoted(m.value) + t3);
    var t1 := m.ws1 + (":" + t2);
    MemberTokens(m, rest);
    SpaceDropped(m.ws0, Quoted(m.key) + t1);
    ScansQuoted(m.key, t1);
    SpaceDropped(m.ws1, ":" + t2);
    assert DropSpace(":" + t2) == ":" + t2;
    assert (":" + t2)[1..] == t2;
    SpaceDropped(m.ws2, Quoted(m.value) + t3);
    ScansQuoted(m.value, t3);
    SpaceDropped(m.ws3, rest);
  }

  lemma MembersTokens(m: Member, more: seq<Member>, rest: string)
    ensures MembersText([m] + more) + rest ==
              MemberText(m) + (if more == [] then "}" + rest else "," + (MembersText(more) + rest))
  {
    hide MemberText;
    assert ([m] + more)[1..] == more;
  }

  lemma {:induction false} ScansMembers(ms: seq<Member>, rest: string, fields: Fields)
    requires ms != [] && forall i :: 0 <= i < |ms| ==> MemberOk(ms[i])
    ensures ScanMembers(MembersText(ms) + rest, fields) == Some(fields + LastWins(ms))
    decreases |ms|
  {
    hide ScanPair, MemberText, MembersText, Meaning, MemberOk;
    var m := ms[0];
    var more := fields[Meaning(m.key) := Meaning(m.value)];
    FirstThenRest(ms);
    assert ms == [m] + ms[1..];
    MembersTokens(m, ms[1..], rest);
    if |ms| == 1 {
      ScansMember(m, "}" + rest);
      assert DropSpace("}" + rest) == "}" + rest;
      assert ms[1..] == [];
      assert more == fields + LastWins(ms);
    } else {
      var tail := MembersText(ms[1..]) + rest;
      ScansMember(m, "," + tail);
      assert DropSpace("," + tail) == "," + tail;
      assert ("," + tail)[1..] == tail;
      ScansMembers(ms[1..], rest, more);
      assert more + LastWins(ms[1..]) == fields + LastWins(ms);
    }
  }

  lemma {:induction false} FirstThenRest(ms: seq<Member>)
    requires ms != []
    ensures LastWins(ms) == map[Meaning(ms[0].key) := Meaning(ms[0].value)] + LastWins(ms[1..])
    decreases |ms|
  {
    hide Meaning;
    if |ms| == 1 {
      assert ms[..0] == [] && ms[1..] == [];
    } else {
      var front := ms[..|ms| - 1];
      FirstThenRest(front);
      assert front[1..] == ms[1..][..|ms[1..]| - 1];
      assert ms[1..][|ms[1..]| - 1] == ms[|ms| - 1];
    }
  }

  lemma ScansDerived(o: Object, rest: string)
    requires ObjectOk(o)
    ensures ScanObject(ObjectText(o) + rest) == Some(LastWins(o.members))
  {
    hide ScanMembers, MembersText, AllSpace, MemberOk, ScanObject, DropSpace;
    var tail := InnerText(o.inner, o.members) + rest;
    BraceText(o, rest);
    BraceScans(o.lead, tail);
    if o.members == [] {
      CloseScans(o.inner, rest);
    } else {
      ScansMembers(o.members, rest, map[]);
      assert map[] + LastWins(o.members) == LastWins(o.members);
      MembersAfterSpace(tail, o.members, rest);
    }
  }

  lemma BraceText(o: Object, rest: string)
    ensures ObjectText(o) + rest == o.lead + ("{" + (InnerText(o.inner, o.members) + rest))
  {
    hide MembersText;
    var inner := InnerText(o.inner, o.members);
    assert ObjectText(o) == o.lead + ("{" + inner);
    assert ("{" + inner) + rest == "{" + (inner + rest);
    assert (o.lead + ("{" + inner)) + rest == o.lead + (("{" + inner) + rest);
  }

  /** White space and the opening brace. */
  lemma BraceScans(lead: string, tail: string)
    requires AllSpace(lead)
    ensures var inner := DropSpace(tail);
            ScanObject(lead + ("{" + tail)) ==
              if inner != "" && inner[0] == '}' then Some(map[]) else ScanMembers(inner, map[])
  {
    hide ScanMembers, AllSpace;
    SpaceDropped(lead, "{" + tail);
    assert DropSpace("{" + tail) == "{" + tail;
    assert ("{" + tail)[1..] == tail;
  }

  lemma CloseScans(inner: string, rest: string)
    requires AllSpace(inner)
    ensures var s := DropSpace((inner + "}") + rest); s != "" && s[0] == '}'
  {
    hide AllSpace;
    assert (inner + "}") + rest == inner + ("}" + rest);
    SpaceDropped(inner, "}" + rest);
  }

  lemma {:induction false} DropTwice(s: string)
    ensures DropSpace(DropSpace(s)) == DropSpace(s)
  {
    if s != "" && IsSpace(s[0]) {
      DropTwice(s[1..]);
    }
  }

  lemma MemberStarts(m: Member, rest: string)
    requires MemberOk(m)
    ensures var s := DropSpace(MemberText(m) + rest); s != "" && s[0] == '"'
  {
    hide MemberText, AllSpace;
    MemberTokens(m, rest);
    var tail := m.ws1 + (":" + (m.ws2 + (Quoted(m.value) + (m.ws3 + rest))));
    SpaceDropped(m.ws0, Quoted(m.key) + tail);
    ScansQuoted(m.key, tail);
  }

  /** Skipping white space before the first member changes nothing, and it is not a brace. */
  lemma MembersAfterSpace(s: string, ms: seq<Member>, rest: string)
    requires ms != [] && s == MembersText(ms) + rest && MemberOk(ms[0])
    ensures DropSpace(s) != "" && DropSpace(s)[0] == '"'
    ensures ScanMembers(DropSpace(s), map[]) == ScanMembers(s, map[])
  {
    hide AllSpace, MemberText, MembersText, ScanString;
    assert ms == [ms[0]] + ms[1..];
    MembersTokens(ms[0], ms[1..], rest);
    MemberStarts(ms[0], if ms[1..] == [] then "}" + rest else "," + (MembersText(ms[1..]) + rest));
    DropTwice(s);
    assert ScanPair(DropSpace(s)) == ScanPair(s);
  }

  // ---- and nothing else ---------------------------------------------------------------------

  /** The first item of what the scan accepts. */
  lemma FirstItem(s: string) returns (item: Item, next: string)
    requires ScanChars(s).Scanned? && s[0] != '"'
    ensures ItemOk(item) && s == ItemText(item) + next
  {
    var escaped := s[0] == '\\' && |s| > 1;
    item := if escaped then Escape(s[1]) else Plain(s[0]);
    next := if escaped then s[2..] else s[1..];
    assert |s| == 1 ==> s[1..] == "";
  }

  lemma {:induction false} DerivesItems(s: string) returns (items: seq<Item>)
    requires ScanChars(s).Scanned?
    ensures ItemsOk(items) && Meaning(items) == ScanChars(s).value
    ensures s == ItemsText(items) + ("\"" + ScanChars(s).rest)
    decreases |s|
  {
    if s[0] == '"' {
      items := [];
    } else {
      hide ItemMeaning;
      var item, next := FirstItem(s);
      ScansItem(item, next);
      var more := DerivesItems(next);
      items := [item] + more;
      ItemsCons(item, more, "\"" + ScanChars(next).rest);
    }
  }

  lemma DerivesQuoted(s: string) returns (items: seq<Item>)
    requires ScanString(s).Scanned?
    ensures ItemsOk(items) && Meaning(items) == ScanString(s).value
    ensures s == Quoted(items) + ScanString(s).rest
  {
    items := DerivesItems(s[1..]);
  }

  lemma DerivesMember(s: string) returns (m: Member)
    requires ScanPair(s).Pair?
    ensures MemberOk(m) && Meaning(m.key) == ScanPair(s).key && Meaning(m.value) == ScanPair(s).value
    ensures s == MemberText(m) + ScanPair(s).rest
  {
    hide ScanString, AllSpace, Meaning, Quoted, MemberText;
    var ws0 := SpaceSplits(s);
    var t0 := DropSpace(s);
    var key := DerivesQuoted(t0);
    var t1 := ScanString(t0).rest;
    var ws1 := SpaceSplits(t1);
    var t2 := DropSpace(t1)[1..];
    var ws2 := SpaceSplits(t2);
    var t3 := DropSpace(t2);
    var value := DerivesQuoted(t3);
    var t4 := ScanString(t3).rest;
    var ws3 := SpaceSplits(t4);
    m := Member(ws0, key, ws1, ws2, value, ws3);
    assert DropSpace(t1) == ":" + t2;
    MemberTokens(m, ScanPair(s).rest);
  }

  lemma {:induction false} DerivesMembers(s: string, fields: Fields) returns (ms: seq<Member>, rest: string)
    requires ScanMembers(s, fields).Some?
    ensures ms != [] && forall i :: 0 <= i < |ms| ==> MemberOk(ms[i])
    ensures s == MembersText(ms) + rest
    decreases |s|
  {
    hide MemberOk, MemberText, MembersText, ScanPair;
    var m := DerivesMember(s);
    var after := ScanPair(s).rest;
    var more: seq<Member> := [];
    if after[0] == ',' {
      more, rest := DerivesMembers(after[1..], fields[ScanPair(s).key := ScanPair(s).value]);
      assert after == "," + after[1..];
    } else {
      rest := after[1..];
      assert after == "}" + rest;
    }
    ms := [m] + more;
    MembersTokens(m, more, rest);
  }

  /** What follows the opening brace. */
  function InnerText(ws: string, ms: seq<Member>): string { if ms == [] then ws + "}" else MembersText(ms) }

  lemma DerivesInner(t: string) returns (ws: string, ms: seq<Member>, rest: string)
    requires var inner := DropSpace(t);
             (inner != "" && inner[0] == '}') || ScanMembers(inner, map[]).Some?
    ensures AllSpace(ws) && (forall i :: 0 <= i < |ms| ==> MemberOk(ms[i])) && t == InnerText(ws, ms) + rest
  {
    hide MemberOk, ScanMembers, AllSpace, MembersText;
    var inner := DropSpace(t);
    ws := SpaceSplits(t);
    if inner != "" && inner[0] == '}' {
      ms, rest := [], inner[1..];
      assert inner == "}" + rest;
      assert ws + ("}" + rest) == (ws + "}") + rest;
    } else {
      ms, rest := DerivesMembers(inner, map[]);
      var first;
      first, ms := PadFirst(ws, ms, rest);
      ws := "";
      EmptyIsSpace();
    }
  }

  lemma DerivesObject(text: string) returns (o: Object, rest: string)
    requires ScanObject(text).Some?
    ensures ObjectOk(o) && text == ObjectText(o) + rest
  {
    hide MemberOk, ScanMembers, AllSpace, MembersText, DropSpace;
    var lead := SpaceSplits(text);
    var s := DropSpace(text);
    var ws, ms;
    ws, ms, rest := DerivesInner(s[1..]);
    o := Object(lead, ws, ms);
    Braced(lead, s, InnerText(ws, ms), rest);
  }

  lemma EmptyIsSpace()
    ensures AllSpace("")
  {
  }

  lemma Braced(lead: string, s: string, tail: string, rest: string)
    requires s != "" && s[0] == '{' && s[1..] == tail + rest
    ensures lead + s == lead + "{" + tail + rest
  {
    assert s == "{" + (tail + rest);
  }

  /** White space between the brace and the first member belongs to that member. */
  lemma PadFirst(ws: string, ms: seq<Member>, rest: string) returns (first: Member, padded: seq<Member>)
    requires AllSpace(ws) && ms != [] && forall i :: 0 <= i < |ms| ==> MemberOk(ms[i])
    ensures padded == [first] + ms[1..] && forall i :: 0 <= i < |padded| ==> MemberOk(padded[i])
    ensures MembersText(padded) + rest == ws + (MembersText(ms) + rest)
  {
    hide Quoted, MembersText;
    first := ms[0].(ws0 := ws + ms[0].ws0);
    padded := [first] + ms[1..];
    assert MemberText(first) == ws + MemberText(ms[0]);
    assert ms == [ms[0]] + ms[1..];
    MembersTokens(first, ms[1..], rest);
    MembersTokens(ms[0], ms[1..], rest);
  }

  /** The flat parser is exact: it accepts a text exactly when some prefix of it derives from
      the grammar, and then every such derivation means the map it returns. */
  lemma ParserIsExact(text: string)
    ensures ScanObject(text).Some? <==> exists o :: ObjectOk(o) && ObjectText(o) <= text
    ensures forall o :: ObjectOk(o) && ObjectText(o) <= text ==> ScanObject(text) == Some(LastWins(o.members))
  {
    hide ObjectOk, ObjectText, ScanObject;
    forall o | ObjectOk(o) && ObjectText(o) <= text
      ensures ScanObject(text) == Some(LastWins(o.members))
    {
      var rest := text[|ObjectText(o)|..];
      assert text == ObjectText(o) + rest;
      ScansDerived(o, rest);
    }
    if ScanObject(text).Some? {
      var o, rest := DerivesObject(text);
      assert ObjectText(o) <= text;
    }
  }

  // ---- the escaper --------------------------------------------------------------------------

  /** What the parser makes of an escaped character. */
  function CharItems(c: char): seq<Item> {
    if c == '"' || c == '\\' then [Escape(c)]
    else if c == '\n' then [Escape('n')]
    else if c == '\r' then [Escape('r')]
    else if c == '\t' then [Escape('t')]
    else if c < ' ' then [Escape('u'), Plain('0'), Plain('0')] + Plains(Hex(c as nat))
    else [Plain(c)]
  }

  function Plains(s: string): seq<Item> { seq(|s|, i requires 0 <= i < |s| => Plain(s[i])) }

  function TextItems(text: string): seq<Item> {
    if text == "" then [] else CharItems(text[0]) + TextItems(text[1..])
  }

  /** No control character but the three that have an escape of their own. */
  predicate Clean(text: string) {
    forall i :: 0 <= i < |text| ==> text[i] >= ' ' || text[i] in {'\n', '\r', '\t'}
  }

  lemma {:induction false} JoinText(a: seq<Item>, b: seq<Item>)
    ensures ItemsText(a + b) == ItemsText(a) + ItemsText(b)
  {
    hide ItemText;
    if a == [] {
      assert a + b == b;
    } else {
      JoinText(a[1..], b);
      assert (a + b)[1..] == a[1..] + b && (a + b)[0] == a[0];
      var first, tail, last := ItemText(a[0]), ItemsText(a[1..]), ItemsText(b);
      assert first + (tail + last) == (first + tail) + last;
    }
  }

  lemma {:induction false} JoinMeaning(a: seq<Item>, b: seq<Item>)
    ensures Meaning(a + b) == Meaning(a) + Meaning(b)
  {
    hide ItemMeaning;
    if a == [] {
      assert a + b == b;
    } else {
      JoinMeaning(a[1..], b);
      assert (a + b)[1..] == a[1..] + b && (a + b)[0] == a[0];
      var first, tail, last := [ItemMeaning(a[0])], Meaning(a[1..]), Meaning(b);
      assert Meaning(a + b) == first + (tail + last);
      assert first + (tail + last) == (first + tail) + last;
    }
  }

  lemma JoinItems(a: seq<Item>, b: seq<Item>)
    ensures ItemsText(a + b) == ItemsText(a) + ItemsText(b)
    ensures Meaning(a + b) == Meaning(a) + Meaning(b)
  {
    JoinText(a, b);
    JoinMeaning(a, b);
  }

  lemma {:induction false} PlainsText(s: string)
    ensures ItemsText(Plains(s)) == s && Meaning(Plains(s)) == s
  {
    if s != "" {
      PlainsText(s[1..]);
      assert Plains(s)[1..] == Plains(s[1..]);
    }
  }

  lemma CharItemsText(c: char)
    ensures ItemsOk(CharItems(c)) && ItemsText(CharItems(c)) == EscapeChar(c)
    ensures Clean([c]) ==> Meaning(CharItems(c)) == [c]
    ensures !Clean([c]) ==> |Meaning(CharItems(c))| > 1
  {
    assert [c][0] == c;
    if c == '"' || c == '\\' || c in {'\n', '\r', '\t'} || c >= ' ' {
      OneItem(CharItems(c)[0]);
    } else {
      ControlItems(Hex(c as nat));
    }
  }

  lemma ControlItems(digits: string)
    requires digits != "" && forall i :: 0 <= i < |digits| ==> digits[i] != '"' && digits[i] != '\\'
    ensures var items := [Escape('u'), Plain('0'), Plain('0')] + Plains(digits);
            ItemsOk(items) && ItemsText(items) == "\\u00" + digits && |Meaning(items)| > 1
  {
    hide ItemText, ItemMeaning;
    var prefix := [Escape('u'), Plain('0'), Plain('0')];
    JoinItems(prefix, Plains(digits));
    PlainsText(digits);
    JoinItems([Escape('u')], Plains("00"));
    PlainsText("00");
    OneItem(Escape('u'));
    assert prefix == [Escape('u')] + Plains("00");
    assert "\\u" + "00" == "\\u00";
    assert ItemText(Escape('u')) == "\\u" by { EscapedU(); }
  }

  lemma EscapedU()
    ensures ItemText(Escape('u')) == "\\u"
  {
  }

  lemma OneItem(item: Item)
    ensures ItemsText([item]) == ItemText(item)
    ensures Meaning([item]) == [ItemMeaning(item)]
  {
    assert [item][1..] == [];
  }

  /** Escaping is printing items, and their meaning is the text exactly when it is clean. */
  lemma {:induction false} EscapedIsItems(text: string)
    ensures ItemsOk(TextItems(text)) && ItemsText(TextItems(text)) == Escaped(text)
    ensures |Meaning(TextItems(text))| >= |text|
    ensures Meaning(TextItems(text)) == text <==> Clean(text)
    ensures !Clean(text) ==> |Meaning(TextItems(text))| > |text|
  {
    hide EscapeChar, ItemText, ItemMeaning, CharItems, Hex;
    if text != "" {
      var c, tail := text[0], text[1..];
      EscapedIsItems(tail);
      CharItemsText(c);
      JoinItems(CharItems(c), TextItems(tail));
      CleanCons(c, tail);
      MeaningCons(c, tail, Meaning(CharItems(c)), Meaning(TextItems(tail)));
      assert text == [c] + tail;
    }
  }

  lemma CleanCons(c: char, tail: string)
    ensures Clean([c] + tail) <==> Clean([c]) && Clean(tail)
  {
    assert ([c] + tail)[0] == c && ([c] + tail)[1..] == tail;
  }

  lemma MeaningCons(c: char, tail: string, one: string, more: string)
    requires one == [c] || |one| > 1
    requires |more| >= |tail|
    ensures one + more == [c] + tail <==> one == [c] && more == tail
  {
    if one == [c] {
      assert ([c] + more)[1..] == more && ([c] + tail)[1..] == tail;
    } else {
      assert |one + more| > |[c] + tail|;
    }
  }

  /** Round trip: a quoted escaped text reads back as itself exactly when it is clean. */
  lemma EscapeRoundTrip(text: string, rest: string)
    ensures ScanString("\"" + Escaped(text) + "\"" + rest).Scanned?
    ensures ScanString("\"" + Escaped(text) + "\"" + rest).rest == rest
    ensures ScanString("\"" + Escaped(text) + "\"" + rest).value == text <==> Clean(text)
  {
    EscapedIsItems(text);
    ScansQuoted(TextItems(text), rest);
    assert Quoted(TextItems(text)) + rest == "\"" + Escaped(text) + "\"" + rest;
  }

  /** What a reader of hexadecimal makes of the digits. */
  function ReadHex(s: string): nat
    requires forall i :: 0 <= i < |s| ==> IsHex(s[i])
  {
    if s == "" then 0 else ReadHex(s[..|s| - 1]) * 16 + HexValue(s[|s| - 1])
  }

  /** The digits `std::hex` prints are those of the number, without padding. */
  lemma {:induction false} HexReads(n: nat)
    ensures (forall i :: 0 <= i < |Hex(n)| ==> IsHex(Hex(n)[i])) && ReadHex(Hex(n)) == n
    ensures (forall i :: 0 <= i < |Hex(n)| ==> Hex(n)[i] !in "ABCDEF") && (n > 0 ==> Hex(n)[0] != '0')
  {
    HexDigitsRead();
    if n >= 16 {
      HexReads(n / 16);
      assert Hex(n)[..|Hex(n)| - 1] == Hex(n / 16);
    } else {
      assert Hex(n)[..0] == "";
    }
  }

  /** What the escaper prints for each character. */
  lemma EscapesAs(c: char)
    ensures c == '"' || c == '\\' ==> EscapeChar(c) == ['\\', c]
    ensures c in {'\n', '\r', '\t'} ==>
              EscapeChar(c) == ['\\', if c == '\n' then 'n' else if c == '\r' then 'r' else 't']
    ensures c < ' ' && c !in {'\n', '\r', '\t'} ==>
              |EscapeChar(c)| > 4 && EscapeChar(c)[..4] == ['\\', 'u', '0', '0']
              && (forall i :: 4 <= i < |EscapeChar(c)| ==> IsHex(EscapeChar(c)[i]) && EscapeChar(c)[i] !in "ABCDEF")
              && ReadHex(EscapeChar(c)[4..]) == c as nat
    ensures c >= ' ' && c != '"' && c != '\\' ==> EscapeChar(c) == [c]
  {
    HexReads(c as nat);
    assert c < ' ' && c !in {'\n', '\r', '\t'} ==> EscapeChar(c)[4..] == Hex(c as nat);
  }

  /** Members that print the given pairs through the escaper, with any white space. */
  predicate Prints(ms: seq<Member>, pairs: seq<(string, string)>) {
    |ms| == |pairs| &&
    forall i :: 0 <= i < |ms| ==> ms[i].key == TextItems(pairs[i].0) && ms[i].value == TextItems(pairs[i].1)
  }

  function LastOf(pairs: seq<(string, string)>): Fields {
    if pairs == [] then map[] else LastOf(pairs[..|pairs| - 1])[pairs[|pairs| - 1].0 := pairs[|pairs| - 1].1]
  }

  lemma {:induction false} PrintedMembersMean(ms: seq<Member>, pairs: seq<(string, string)>)
    requires Prints(ms, pairs)
    requires forall i :: 0 <= i < |pairs| ==> Clean(pairs[i].0) && Clean(pairs[i].1)
    ensures LastWins(ms) == LastOf(pairs)
  {
    if ms != [] {
      var n := |ms| - 1;
      PrintedMembersMean(ms[..n], pairs[..n]);
      EscapedIsItems(pairs[n].0);
      EscapedIsItems(pairs[n].1);
    }
  }

  /** Any pairs of clean strings, printed through the escaper with any white space between
      tokens and followed by anything, parse back to those pairs. */
  lemma PrintedObjectParses(o: Object, pairs: seq<(string, string)>, rest: string)
    requires ObjectOk(o) && Prints(o.members, pairs)
    requires forall i :: 0 <= i < |pairs| ==> Clean(pairs[i].0) && Clean(pairs[i].1)
    ensures ScanObject(ObjectText(o) + rest) == Some(LastOf(pairs))
  {
    ScansDerived(o, rest);
    PrintedMembersMean(o.members, pairs);
  }
}
