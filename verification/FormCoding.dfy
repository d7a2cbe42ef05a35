/** Percent and form decoding, and query parameters (src/api.cpp:26-58, src/http.cpp:46-61). */
module FormCoding {
  import opened Text

  type Fields = map<string, string>

  function HexChar(hi: char, lo: char): char
    requires IsHex(hi) && IsHex(lo)
  {
    (HexValue(hi) * 16 + HexValue(lo)) as char
  }

  // ---- what the code computes ---------------------------------------------------------

  predicate StartsTriplet(s: string) { |s| > 2 && s[0] == '%' && IsHex(s[1]) && IsHex(s[2]) }

  function UrlDecoded(s: string): string {
    if s == "" then ""
    else if s[0] == '+' then " " + UrlDecoded(s[1..])
    else if StartsTriplet(s) then [HexChar(s[1], s[2])] + UrlDecoded(s[3..])
    else [s[0]] + UrlDecoded(s[1..])
  }

  /** One piece between ampersands; without '=' it is ignored. */
  function AddPiece(fields: Fields, piece: string): Fields {
    match IndexOf(piece, '=')
    case None => fields
    case Some(e) => fields[UrlDecoded(piece[..e]) := UrlDecoded(piece[e + 1..])]
  }

  function FormParsed(text: string, fields: Fields): Fields
    decreases |text|
  {
    if text == "" then fields
    else match IndexOf(text, '&')
      case None => AddPiece(fields, text)
      case Some(a) => FormParsed(text[a + 1..], AddPiece(fields, text[..a]))
  }

  /** The value of a piece whose raw name is the one wanted. */
  function Matched(piece: string, name: string): Option<string> {
    match IndexOf(piece, '=')
    case None => None
    case Some(e) => if piece[..e] == name then Some(UrlDecoded(piece[e + 1..])) else None
  }

  function QueryFound(query: string, name: string): string
    decreases |query|
  {
    if query == "" then ""
    else match IndexOf(query, '&')
      case None => (match Matched(query, name) case None => "" case Some(v) => v)
      case Some(a) =>
        match Matched(query[..a], name)
        case Some(v) => v
        case None => QueryFound(query[a + 1..], name)
  }

  /** What the first character, or the first triplet, decodes to. */
  function FirstDecoded(s: string): char
    requires s != ""
  {
    if s[0] == '+' then ' ' else if StartsTriplet(s) then HexChar(s[1], s[2]) else s[0]
  }

  lemma DecodesFirst(s: string)
    requires s != ""
    ensures UrlDecoded(s) == [FirstDecoded(s)] + UrlDecoded(s[if StartsTriplet(s) then 3 else 1..])
  {
  }

  method UrlDecode(text: string) returns (out: string)
    ensures out == UrlDecoded(text)
  {
    hide HexChar, UrlDecoded;
    out := "";
    var i := 0;
    assert text[0..] == text && "" + UrlDecoded(text) == UrlDecoded(text);
    while i < |text|
      invariant 0 <= i <= |text| && out + UrlDecoded(text[i..]) == UrlDecoded(text)
    {
      ghost var rest, done := text[i..], out;
      DecodesFirst(rest);
      var c := text[i];
      if text[i] == '+' {
        c := ' ';
      } else if text[i] == '%' && i + 2 < |text| && IsHex(text[i + 1]) && IsHex(text[i + 2]) {
        c := HexChar(text[i + 1], text[i + 2]);
        i := i + 2;
      }
      i := i + 1;
      assert rest[|rest| - (|text| - i)..] == text[i..];
      out := out + [c];
      assert done + ([c] + UrlDecoded(text[i..])) == out + UrlDecoded(text[i..]);
    }
    assert text[|text|..] == "" && UrlDecoded("") == "" by { DecodesNothing(); }
  }

  lemma DecodesNothing()
    ensures UrlDecoded("") == ""
  {
  }

  method ParseFormEncoded(text: string) returns (fields: Fields)
    ensures fields == FormParsed(text, map[])
  {
    hide AddPiece, IndexOf;
    fields := map[];
    var position := 0;
    assert text[0..] == text;
    while position < |text|
      invariant 0 <= position <= |text|
      invariant FormParsed(text[position..], fields) == FormParsed(text, map[])
    {
      var rest := text[position..];
      var amp := IndexOf(rest, '&');
      var piece := if amp.None? then rest else rest[..amp.value];
      fields := AddPiece(fields, piece);
      if amp.None? {
        position := |text|;
      } else {
        assert rest[amp.value + 1..] == text[position + amp.value + 1..];
        position := position + amp.value + 1;
      }
    }
  }

  method QueryParam(query: string, name: string) returns (value: string)
    ensures value == QueryFound(query, name)
  {
    hide Matched;
    var rest := query;                   // from the current position on
    while rest != ""
      invariant QueryFound(rest, name) == QueryFound(query, name)
      decreases |rest|
    {
      var amp := IndexOf(rest, '&');
      var found := Matched(if amp.None? then rest else rest[..amp.value], name);
      if found.Some? {
        return found.value;
      }
      if amp.None? {
        return "";
      }
      rest := rest[amp.value + 1..];
    }
    return "";
  }

  // ---- any text between ampersands -----------------------------------------------------------

  /** A piece has a name and a value, or no equals sign. */
  datatype Piece = Pair(name: string, value: string) | Bare(text: string)

  predicate PieceOk(p: Piece) {
    match p
    case Pair(name, value) => '=' !in name && '&' !in name && '&' !in value
    case Bare(text) => '=' !in text && '&' !in text
  }

  predicate PiecesOk(ps: seq<Piece>) { forall i :: 0 <= i < |ps| ==> PieceOk(ps[i]) }

  function PieceText(p: Piece): string {
    match p case Pair(name, value) => name + ['='] + value case Bare(text) => text
  }

  function PiecesText(ps: seq<Piece>): string {
    if |ps| == 0 then ""
    else if |ps| == 1 then PieceText(ps[0])
    else PieceText(ps[0]) + ['&'] + PiecesText(ps[1..])
  }

  /** Bare pieces count for nothing; of pairs whose names decode alike the last one counts. */
  function LastOfPieces(ps: seq<Piece>): Fields {
    if |ps| == 0 then map[]
    else
      var front, last := LastOfPieces(ps[..|ps| - 1]), ps[|ps| - 1];
      if last.Pair? then front[UrlDecoded(last.name) := UrlDecoded(last.value)] else front
  }

  /** For a query, the first pair with this very name, undecoded. */
  function FirstOfPieces(ps: seq<Piece>, name: string): string {
    if |ps| == 0 then ""
    else if ps[0].Pair? && ps[0].name == name then UrlDecoded(ps[0].value)
    else FirstOfPieces(ps[1..], name)
  }

  lemma PieceAdds(fields: Fields, p: Piece)
    requires PieceOk(p)
    ensures '&' !in PieceText(p)
    ensures AddPiece(fields, PieceText(p)) ==
              if p.Pair? then fields[UrlDecoded(p.name) := UrlDecoded(p.value)] else fields
    ensures forall name :: Matched(PieceText(p), name) ==
                           if p.Pair? && p.name == name then Some(UrlDecoded(p.value)) else None
  {
    hide UrlDecoded;
    var text := PieceText(p);
    if p.Pair? {
      IndexOfAt(p.name, '=', p.value);
      assert text[..|p.name|] == p.name && text[|p.name| + 1..] == p.value;
    } else {
      IndexOfAbsent(text, '=');
    }
  }

  lemma PiecesSplit(ps: seq<Piece>)
    requires |ps| > 1 && PiecesOk(ps)
    ensures var text, n := PiecesText(ps), |PieceText(ps[0])|;
            && text != "" && IndexOf(text, '&') == Some(n)
            && text[..n] == PieceText(ps[0]) && text[n + 1..] == PiecesText(ps[1..])
  {
    PieceAdds(map[], ps[0]);
    hide PieceText;
    IndexOfAt(PieceText(ps[0]), '&', PiecesText(ps[1..]));
  }

  lemma {:induction false} FirstPieceThenRest(ps: seq<Piece>)
    requires |ps| > 0
    ensures LastOfPieces(ps) ==
              (if ps[0].Pair? then map[UrlDecoded(ps[0].name) := UrlDecoded(ps[0].value)] else map[])
              + LastOfPieces(ps[1..])
    decreases |ps|
  {
    hide UrlDecoded;
    if |ps| == 1 {
      assert ps[..0] == [] && ps[1..] == [];
    } else {
      var front := ps[..|ps| - 1];
      FirstPieceThenRest(front);
      assert front[1..] == ps[1..][..|ps[1..]| - 1];
      assert ps[1..][|ps[1..]| - 1] == ps[|ps| - 1];
    }
  }

  lemma {:induction false} PiecesParse(ps: seq<Piece>, fields: Fields)
    requires PiecesOk(ps)
    ensures FormParsed(PiecesText(ps), fields) == fields + LastOfPieces(ps)
    decreases |ps|
  {
    hide PieceText, AddPiece, UrlDecoded, Matched;
    if |ps| == 0 {
      assert fields + map[] == fields;
    } else {
      var p := ps[0];
      FirstPieceThenRest(ps);
      PieceAdds(fields, p);
      var more := AddPiece(fields, PieceText(p));
      assert more + LastOfPieces(ps[1..]) == fields + LastOfPieces(ps);
      if |ps| == 1 {
        IndexOfAbsent(PieceText(p), '&');
        assert ps[1..] == [];
        if PieceText(p) == "" {
          EmptyPiece(fields, p);
        }
      } else {
        PiecesSplit(ps);
        PiecesParse(ps[1..], more);
      }
    }
  }

  lemma EmptyPiece(fields: Fields, p: Piece)
    requires PieceOk(p) && PieceText(p) == ""
    ensures AddPiece(fields, "") == fields && !p.Pair?
  {
  }

  lemma {:induction false} PiecesFind(ps: seq<Piece>, name: string)
    requires PiecesOk(ps)
    ensures QueryFound(PiecesText(ps), name) == FirstOfPieces(ps, name)
    decreases |ps|
  {
    hide PieceText, UrlDecoded, Matched;
    if |ps| > 0 {
      PieceAdds(map[], ps[0]);
      if |ps| == 1 {
        IndexOfAbsent(PieceText(ps[0]), '&');
        assert ps[1..] == [];
        if PieceText(ps[0]) == "" {
          EmptyPiece(map[], ps[0]);
        }
      } else {
        PiecesSplit(ps);
        PiecesFind(ps[1..], name);
      }
    }
  }

  lemma {:induction false} SplitsInPieces(text: string) returns (ps: seq<Piece>)
    ensures PiecesOk(ps) && PiecesText(ps) == text
    decreases |text|
  {
    match IndexOf(text, '&') {
      case None => ps := [PieceOf(text)];
      case Some(a) =>
        var more := SplitsInPieces(text[a + 1..]);
        IndexOfSplits(text, '&');
        if more == [] {
          more := [Bare("")];
        }
        ps := [PieceOf(text[..a])] + more;
        assert ps[1..] == more;
    }
  }

  function PieceOf(text: string): (p: Piece)
    requires '&' !in text
    ensures PieceOk(p) && PieceText(p) == text
  {
    match IndexOf(text, '=')
    case None => Bare(text)
    case Some(e) =>
      assert text == text[..e] + ['='] + text[e + 1..];
      Pair(text[..e], text[e + 1..])
  }

  /** Forms and queries, on every text: it splits into pieces, the form is the last-wins map of
      those with an equals sign, and a query parameter is the first with that very name. */
  lemma AnyTextParses(text: string) returns (ps: seq<Piece>)
    ensures PiecesOk(ps) && PiecesText(ps) == text
    ensures FormParsed(text, map[]) == LastOfPieces(ps)
    ensures forall name :: QueryFound(text, name) == FirstOfPieces(ps, name)
  {
    hide PieceText, UrlDecoded, FormParsed, QueryFound;
    ps := SplitsInPieces(text);
    PiecesParse(ps, map[]);
    assert map[] + LastOfPieces(ps) == LastOfPieces(ps);
    forall name ensures QueryFound(text, name) == FirstOfPieces(ps, name) {
      PiecesFind(ps, name);
    }
  }

  // ---- any encoder (section 2.1 of RFC 3986, and '+' for a space) -----------------------

  /** How an encoder may write one character. */
  datatype Unit = Raw(c: char) | Plus | Triplet(hi: char, lo: char)

  predicate UnitOk(u: Unit) {
    match u
    case Raw(c) => c !in {'+', '%', '&', '='}
    case Plus => true
    case Triplet(hi, lo) => IsHex(hi) && IsHex(lo)
  }

  predicate UnitsOk(us: seq<Unit>) { forall i :: 0 <= i < |us| ==> UnitOk(us[i]) }

  function UnitText(u: Unit): string {
    match u case Raw(c) => [c] case Plus => "+" case Triplet(hi, lo) => ['%', hi, lo]
  }

  function UnitMeaning(u: Unit): char
    requires UnitOk(u)
  {
    match u case Raw(c) => c case Plus => ' ' case Triplet(hi, lo) => HexChar(hi, lo)
  }

  function TextOf(us: seq<Unit>): string { if us == [] then "" else UnitText(us[0]) + TextOf(us[1..]) }

  function MeaningOf(us: seq<Unit>): string
    requires UnitsOk(us)
  {
    if us == [] then "" else [UnitMeaning(us[0])] + MeaningOf(us[1..])
  }

  lemma {:induction false} DecodesUnits(us: seq<Unit>)
    requires UnitsOk(us)
    ensures UrlDecoded(TextOf(us)) == MeaningOf(us)
    ensures '&' !in TextOf(us) && '=' !in TextOf(us)
  {
    if us != [] {
      DecodesUnits(us[1..]);
      var head, tail := UnitText(us[0]), TextOf(us[1..]);
      assert (head + tail)[|head|..] == tail;
    }
  }

  type Encoded = (seq<Unit>, seq<Unit>)

  predicate EncodedOk(ps: seq<Encoded>) { forall i :: 0 <= i < |ps| ==> UnitsOk(ps[i].0) && UnitsOk(ps[i].1) }

  function PairText(p: Encoded): string { TextOf(p.0) + ['='] + TextOf(p.1) }

  /** Pairs joined by '&' and '='. */
  function FormText(ps: seq<Encoded>): string {
    if ps == [] then ""
    else if |ps| == 1 then PairText(ps[0])
    else PairText(ps[0]) + ['&'] + FormText(ps[1..])
  }

  /** Of pairs with the same name, the last one counts. */
  function LastWins(ps: seq<Encoded>): Fields
    requires EncodedOk(ps)
  {
    if ps == [] then map[]
    else LastWins(ps[..|ps| - 1])[MeaningOf(ps[|ps| - 1].0) := MeaningOf(ps[|ps| - 1].1)]
  }

  lemma {:induction false} FirstThenRest(ps: seq<Encoded>)
    requires ps != [] && EncodedOk(ps)
    ensures LastWins(ps) == map[MeaningOf(ps[0].0) := MeaningOf(ps[0].1)] + LastWins(ps[1..])
    decreases |ps|
  {
    hide MeaningOf, UnitsOk;
    if |ps| == 1 {
      assert ps[..0] == [] && ps[1..] == [];
    } else {
      var front := ps[..|ps| - 1];
      FirstThenRest(front);
      assert front[1..] == ps[1..][..|ps[1..]| - 1];
      assert ps[1..][|ps[1..]| - 1] == ps[|ps| - 1];
    }
  }

  /** An encoded list is a list of pieces. */
  function PiecesOf(ps: seq<Encoded>): seq<Piece> {
    seq(|ps|, i requires 0 <= i < |ps| => Pair(TextOf(ps[i].0), TextOf(ps[i].1)))
  }

  lemma {:induction false} EncodedArePieces(ps: seq<Encoded>)
    requires EncodedOk(ps)
    ensures PiecesOk(PiecesOf(ps)) && FormText(ps) == PiecesText(PiecesOf(ps))
    decreases |ps|
  {
    hide TextOf, UnitsOk;
    if ps != [] {
      EncodedArePieces(ps[1..]);
      DecodesUnits(ps[0].0);
      DecodesUnits(ps[0].1);
      assert PiecesOf(ps) == [Pair(TextOf(ps[0].0), TextOf(ps[0].1))] + PiecesOf(ps[1..]);
      assert PiecesOf(ps)[1..] == PiecesOf(ps[1..]);
    }
  }

  lemma {:induction false} LastOfEncoded(ps: seq<Encoded>)
    requires EncodedOk(ps)
    ensures LastOfPieces(PiecesOf(ps)) == LastWins(ps)
    decreases |ps|
  {
    hide TextOf, UnitsOk, MeaningOf, UrlDecoded;
    if ps != [] {
      var front, last := ps[..|ps| - 1], ps[|ps| - 1];
      LastOfEncoded(front);
      DecodesUnits(last.0);
      DecodesUnits(last.1);
      assert PiecesOf(ps)[..|ps| - 1] == PiecesOf(front);
    }
  }

  /** Form decoding inverts every valid encoder. */
  lemma FormRoundTrip(ps: seq<Encoded>)
    requires EncodedOk(ps)
    ensures FormParsed(FormText(ps), map[]) == LastWins(ps)
  {
    hide FormParsed, EncodedOk, LastWins, LastOfPieces, PiecesOf, FormText, PiecesOk;
    EncodedArePieces(ps);
    LastOfEncoded(ps);
    PiecesParse(PiecesOf(ps), map[]);
    assert map[] + LastWins(ps) == LastWins(ps);
  }

  // ---- a printer of triplets ---------------------------------------------------------------

  /** A byte as `%XX`, in either case of letters. */
  function Percent(b: nat, upper: bool): string
    requires b < 256
  {
    var digits := if upper then "0123456789ABCDEF" else "0123456789abcdef";
    ['%', digits[b / 16], digits[b % 16]]
  }

  /** Every byte written as a triplet is read back. */
  lemma PercentDecodes(b: nat, upper: bool, rest: string)
    requires b < 256
    ensures UrlDecoded(Percent(b, upper) + rest) == [b as char] + UrlDecoded(rest)
  {
    var s := Percent(b, upper) + rest;
    HexDigitsRead();
    assert s[0] == '%' && s[3..] == rest;
    assert b / 16 < 16 && b % 16 < 16 && b == b / 16 * 16 + b % 16;
    assert StartsTriplet(s) && HexChar(s[1], s[2]) == b as char;
  }

  predicate Bytes(text: string) { forall i :: 0 <= i < |text| ==> text[i] as int < 256 }

  function PercentAll(text: string, upper: bool): string
    requires Bytes(text)
  {
    if text == "" then "" else Percent(text[0] as nat, upper) + PercentAll(text[1..], upper)
  }

  /** So any bytes written as triplets are decoded to themselves. */
  lemma {:induction false} PercentRoundTrip(text: string, upper: bool)
    requires Bytes(text)
    ensures UrlDecoded(PercentAll(text, upper)) == text
  {
    if text != "" {
      PercentRoundTrip(text[1..], upper);
      PercentDecodes(text[0] as nat, upper, PercentAll(text[1..], upper));
    }
  }

  // ---- malformed triplets --------------------------------------------------------------------

  predicate HexPair(s: string) { |s| >= 2 && IsHex(s[0]) && IsHex(s[1]) }

  /** Characters as an encoder may leave them or not: a percent sign stands for itself unless two
      hexadecimal digits follow, and only a plus never stands for itself. */
  predicate LooseOk(us: seq<Unit>) {
    forall i :: 0 <= i < |us| ==>
      match us[i]
      case Raw(c) => c != '+' && (c == '%' ==> !HexPair(TextOf(us[i + 1..])))
      case Plus => true
      case Triplet(hi, lo) => IsHex(hi) && IsHex(lo)
  }

  function LooseMeaning(us: seq<Unit>): string
    requires LooseOk(us)
  {
    if us == [] then ""
    else
      assert LooseOk(us[1..]) by { LooseRest(us); }
      [match us[0]
       case Raw(c) => c
       case Plus => ' '
       case Triplet(hi, lo) => (HexValue(hi) * 16 + HexValue(lo)) as char] + LooseMeaning(us[1..])
  }

  lemma LooseRest(us: seq<Unit>)
    requires LooseOk(us) && us != []
    ensures LooseOk(us[1..])
  {
    hide TextOf, HexPair;
    var rest := us[1..];
    forall i | 0 <= i < |rest|
      ensures match rest[i]
              case Raw(c) => c != '+' && (c == '%' ==> !HexPair(TextOf(rest[i + 1..])))
              case Plus => true
              case Triplet(hi, lo) => IsHex(hi) && IsHex(lo)
    {
      assert rest[i] == us[i + 1] && rest[i + 1..] == us[i + 2..];
    }
  }

  /** Decoding takes what is well formed and leaves the rest as it is. */
  lemma {:induction false} DecodesLoosely(us: seq<Unit>)
    requires LooseOk(us)
    ensures UrlDecoded(TextOf(us)) == LooseMeaning(us)
  {
    if us != [] {
      LooseRest(us);
      DecodesLoosely(us[1..]);
      UnitDecodes(us[0], TextOf(us[1..]));
    }
  }

  lemma UnitDecodes(u: Unit, tail: string)
    requires match u
             case Raw(c) => c != '+' && (c == '%' ==> !HexPair(tail))
             case Plus => true
             case Triplet(hi, lo) => IsHex(hi) && IsHex(lo)
    ensures UrlDecoded(UnitText(u) + tail) ==
              [match u
               case Raw(c) => c
               case Plus => ' '
               case Triplet(hi, lo) => (HexValue(hi) * 16 + HexValue(lo)) as char] + UrlDecoded(tail)
  {
    var s := UnitText(u) + tail;
    assert s[|UnitText(u)|..] == tail;
    assert u.Raw? ==> (s[0] == '%' && |s| > 2 ==> tail[0] == s[1] && tail[1] == s[2]);
  }

  /** And every text is written so. */
  lemma {:induction false} WritesLoosely(s: string) returns (us: seq<Unit>)
    ensures LooseOk(us) && TextOf(us) == s
    decreases |s|
  {
    if s == "" {
      us := [];
    } else {
      var u := if s[0] == '+' then Plus else if StartsTriplet(s) then Triplet(s[1], s[2]) else Raw(s[0]);
      var more := WritesLoosely(s[|UnitText(u)|..]);
      us := [u] + more;
      assert us[1..] == more;
      assert s == UnitText(u) + s[|UnitText(u)|..];
      LooseCons(u, more);
    }
  }

  lemma LooseCons(u: Unit, more: seq<Unit>)
    requires LooseOk(more)
    requires match u
             case Raw(c) => c != '+' && (c == '%' ==> !HexPair(TextOf(more)))
             case Plus => true
             case Triplet(hi, lo) => IsHex(hi) && IsHex(lo)
    ensures LooseOk([u] + more)
  {
    hide TextOf, HexPair;
    var us := [u] + more;
    forall i | 0 <= i < |us|
      ensures match us[i]
              case Raw(c) => c != '+' && (c == '%' ==> !HexPair(TextOf(us[i + 1..])))
              case Plus => true
              case Triplet(hi, lo) => IsHex(hi) && IsHex(lo)
    {
      if i > 0 {
        assert us[i] == more[i - 1] && us[i + 1..] == more[i..];
      } else {
        assert us[1..] == more;
      }
    }
  }

  // ---- query parameters ------------------------------------------------------------------

  /** The first pair whose name is written this way. */
  function FirstNamed(ps: seq<Encoded>, name: string): string
    requires EncodedOk(ps)
  {
    if ps == [] then "" else if TextOf(ps[0].0) == name then MeaningOf(ps[0].1) else FirstNamed(ps[1..], name)
  }

  lemma {:induction false} FirstOfEncoded(ps: seq<Encoded>, name: string)
    requires EncodedOk(ps)
    ensures FirstOfPieces(PiecesOf(ps), name) == FirstNamed(ps, name)
    decreases |ps|
  {
    hide TextOf, UnitsOk, MeaningOf, UrlDecoded;
    if ps != [] {
      FirstOfEncoded(ps[1..], name);
      DecodesUnits(ps[0].1);
      assert PiecesOf(ps)[1..] == PiecesOf(ps[1..]);
    }
  }

  lemma QueryFindsFirst(ps: seq<Encoded>, name: string)
    requires EncodedOk(ps)
    ensures QueryFound(FormText(ps), name) == FirstNamed(ps, name)
  {
    hide QueryFound, EncodedOk, FirstNamed, FirstOfPieces, PiecesOf, FormText, PiecesOk;
    EncodedArePieces(ps);
    FirstOfEncoded(ps, name);
    PiecesFind(PiecesOf(ps), name);
  }

  /** Characters that need no encoding. */
  predicate Unreserved(c: char) {
    'a' <= c <= 'z' || 'A' <= c <= 'Z' || '0' <= c <= '9' || c in {'-', '.', '_', '~'}
  }

  predicate Simple(name: string) { forall i :: 0 <= i < |name| ==> Unreserved(name[i]) }

  /** An encoder that writes unreserved characters as themselves. */
  predicate Canonical(us: seq<Unit>)
    requires UnitsOk(us)
  {
    forall i :: 0 <= i < |us| && Unreserved(UnitMeaning(us[i])) ==> us[i].Raw?
  }

  lemma {:induction false} SimpleDecodes(name: string)
    requires Simple(name)
    ensures UrlDecoded(name) == name
  {
    if name != "" {
      SimpleDecodes(name[1..]);
    }
  }

  lemma {:induction false} CanonicalText(us: seq<Unit>, name: string)
    requires UnitsOk(us) && Canonical(us) && Simple(name)
    ensures TextOf(us) == name <==> MeaningOf(us) == name
  {
    if TextOf(us) == name {
      SimpleDecodes(name);
      DecodesUnits(us);
    } else if us != [] && name != "" && MeaningOf(us) == name {
      assert MeaningOf(us)[1..] == MeaningOf(us[1..]);
      assert name[0] == UnitMeaning(us[0]);
      assert us[0].Raw?;
      CanonicalText(us[1..], name[1..]);
    }
  }

  predicate DistinctNames(ps: seq<Encoded>)
    requires EncodedOk(ps)
  {
    forall i, j :: 0 <= i < j < |ps| ==> MeaningOf(ps[i].0) != MeaningOf(ps[j].0)
  }

  lemma {:induction false} WinsIff(ps: seq<Encoded>, name: string)
    requires EncodedOk(ps)
    ensures name in LastWins(ps) <==> exists i :: 0 <= i < |ps| && MeaningOf(ps[i].0) == name
  {
    hide MeaningOf, UnitsOk;
    if ps != [] {
      var front := ps[..|ps| - 1];
      WinsIff(front, name);
      assert forall i :: 0 <= i < |front| ==> front[i] == ps[i];
    }
  }

  /** For names that need no encoding and are not repeated, a query parameter and the parsed
      form say the same. */
  lemma {:induction false} QueryAgreesWithForm(ps: seq<Encoded>, name: string)
    requires EncodedOk(ps) && DistinctNames(ps) && Simple(name)
    requires forall i :: 0 <= i < |ps| ==> Canonical(ps[i].0)
    ensures var fields := FormParsed(FormText(ps), map[]);
            QueryFound(FormText(ps), name) == if name in fields then fields[name] else ""
    decreases |ps|
  {
    hide MeaningOf, UnitsOk, Canonical, UnitMeaning;
    FormRoundTrip(ps);
    QueryFindsFirst(ps, name);
    FirstIsLast(ps, name);
  }

  lemma {:induction false} FirstIsLast(ps: seq<Encoded>, name: string)
    requires EncodedOk(ps) && DistinctNames(ps) && Simple(name)
    requires forall i :: 0 <= i < |ps| ==> Canonical(ps[i].0)
    ensures FirstNamed(ps, name) == if name in LastWins(ps) then LastWins(ps)[name] else ""
    decreases |ps|
  {
    hide MeaningOf, UnitsOk, Canonical, UnitMeaning, Simple;
    if ps != [] {
      FirstThenRest(ps);
      CanonicalText(ps[0].0, name);
      FirstIsLast(ps[1..], name);
      WinsIff(ps[1..], name);
    }
  }
}
