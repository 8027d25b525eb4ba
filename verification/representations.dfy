/** The seven texts a secret may leak in, as tools/m4-bootstrap/secret_scan.go makes them, and what each of them means:
every text is read back by a reader of its own, and stays inside the grammar its encoder promises. */
module Representations {
  import opened Common
  import opened Text
  import Base64

  datatype Representation = Raw | JsonGo | JsonAscii | UserInfo | UrlQuery | Base64Padded | Base64Url

  const ALL := {Raw, JsonGo, JsonAscii, UserInfo, UrlQuery, Base64Padded, Base64Url}

  function NameOf(r: Representation): string {
    match r
    case Raw => "raw"
    case JsonGo => "json-go"
    case JsonAscii => "json-ascii"
    case UserInfo => "userinfo"
    case UrlQuery => "url-query"
    case Base64Padded => "base64"
    case Base64Url => "base64url"
  }

  lemma NamesDiffer(r: Representation, s: Representation)
    ensures NameOf(r) == NameOf(s) ==> r == s
  {
    assert "url-query"[0] != "base64url"[0];
  }

  // The seven texts

  predicate Unreserved(c: Byte) {
    48 <= c <= 57 || 65 <= c <= 90 || 97 <= c <= 122 || c == 45 || c == 95 || c == 46 || c == 126
  }

  function UpperHex(n: nat): Byte
    requires n < 16
  {
    if n < 10 then 48 + n else 55 + n
  }

  /** One byte percent-encoded: $ & + , ; = stand for themselves only in a password, and a space is a plus only in a
  query. */
  function PercentByte(c: Byte, query: bool): (r: Bytes)
    ensures 1 <= |r| <= 3
  {
    if query && c == 32 then [43]
    else if Unreserved(c) || (!query && c in [36, 38, 43, 44, 59, 61]) then [c]
    else [37, UpperHex(c / 16), UpperHex(c % 16)]
  }

  function Percent(b: Bytes, query: bool): (r: Bytes)
    ensures |b| <= |r| <= 3 * |b|
  {
    if b == [] then [] else PercentByte(b[0], query) + Percent(b[1..], query)
  }

  /** The code point of the rune in front, which is not ASCII. */
  function RunePoint(b: Bytes): (u: nat)
    requires b != [] && Width(b) >= 2
    ensures u < 0x110000 && (Width(b) < 4 ==> u < 0x10000) && (Width(b) == 4 ==> u >= 0x10000)
  {
    var lead: int := b[0];
    var second: int := b[1] % 64;
    if Width(b) == 2 then lead % 32 * 64 + second
    else
      var third: int := b[2] % 64;
      if Width(b) == 3 then lead % 16 * 4096 + second * 64 + third
      else lead % 8 * 262144 + second * 4096 + third * 64 + b[3] % 64
  }

  function AsciiRune(b: Bytes): (r: Bytes)
    requires b != []
    ensures Advance(b) <= |r| <= 6 * Advance(b)
  {
    if Width(b) == 0 then UnicodeEscape(0xfffd)
    else if b[0] < 127 then EscapeAscii(b[0], false)
    else if Width(b) == 1 then UnicodeEscape(b[0])
    else
      var u := RunePoint(b);
      if Width(b) < 4 then UnicodeEscape(u)
      else UnicodeEscape(0xd800 + (u - 0x10000) / 1024) + UnicodeEscape(0xdc00 + (u - 0x10000) % 1024)
  }

  /** JSON text with every character from 127 on escaped, as Python writes it. */
  function AsciiText(b: Bytes): (r: Bytes)
    ensures |b| <= |r| <= 6 * |b|
  {
    if b == [] then [] else AsciiRune(b) + AsciiText(b[Advance(b)..])
  }

  function TextOf(r: Representation, value: Bytes): Bytes {
    match r
    case Raw => value
    case JsonGo => Escape(value)
    case JsonAscii => AsciiText(value)
    case UserInfo => Percent(value, false)
    case UrlQuery => Percent(value, true)
    case Base64Padded => Base64.Standard(value)
    case Base64Url => Base64.Encode(value, true, false)
  }

  /** The writer's bounds on a value keep all seven texts inside the reader's bounds. */
  lemma TextsFit(r: Representation, value: Bytes)
    requires 16 <= |value| <= 4096
    ensures 16 <= |TextOf(r, value)| <= 24576
  {
  }

  // Percent-encoding, read back

  predicate UpperHexDigit(c: Byte) { '0' as int <= c <= '9' as int || 'A' as int <= c <= 'F' as int }

  /** The bytes that stand for themselves: letters, digits and marks, and the delimiters a password may hold. */
  predicate Bare(c: Byte, query: bool) {
    || 'A' as int <= c <= 'Z' as int || 'a' as int <= c <= 'z' as int || '0' as int <= c <= '9' as int
    || c == '-' as int || c == '_' as int || c == '.' as int || c == '~' as int
    || (!query && (c == '$' as int || c == '&' as int || c == '+' as int || c == ',' as int || c == ';' as int
                   || c == '=' as int))
  }

  /** What two hexadecimal digits stand for. */
  function TwoHex(high: Byte, low: Byte): Option<Byte> {
    match (Unhex(high), Unhex(low))
    case (Some(h), Some(l)) => if h < 16 && l < 16 then Some(16 * h + l) else None
    case _ => None
  }

  /** Undoes percent-encoding; a plus is a space in a query only. */
  function Unpercent(t: Bytes, query: bool): Option<Bytes> {
    if t == [] then Some([])
    else if t[0] == '%' as int then
      if |t| < 3 then None
      else
        match (TwoHex(t[1], t[2]), Unpercent(t[3..], query))
        case (Some(c), Some(rest)) => Some([c] + rest)
        case _ => None
    else
      match Unpercent(t[1..], query)
      case Some(rest) => Some([if query && t[0] == '+' as int then ' ' as int else t[0]] + rest)
      case None => None
  }

  /** Bare bytes, a plus for a space in a query, and for every other byte a percent sign and two upper-case digits. */
  predicate PercentText(t: Bytes, query: bool) {
    || t == []
    || (t[0] != '%' as int && (Bare(t[0], query) || (query && t[0] == '+' as int)) && PercentText(t[1..], query))
    || (t[0] == '%' as int && |t| >= 3 && UpperHexDigit(t[1]) && UpperHexDigit(t[2]) && PercentText(t[3..], query)
        && TwoHex(t[1], t[2]).Some? && var c := TwoHex(t[1], t[2]).value;
                                       !Bare(c, query) && !(query && c == ' ' as int))
  }

  lemma PercentByteReads(c: Byte, query: bool, rest: Bytes)
    requires Unpercent(rest, query).Some? && PercentText(rest, query)
    ensures Unpercent(PercentByte(c, query) + rest, query) == Some([c] + Unpercent(rest, query).value)
    ensures PercentText(PercentByte(c, query) + rest, query)
  {
    var t := PercentByte(c, query) + rest;
    if |PercentByte(c, query)| == 1 {
      assert t[1..] == rest;
    } else {
      assert t[3..] == rest;
      TwoHexReads(c);
    }
  }

  lemma TwoHexReads(c: Byte)
    ensures TwoHex(UpperHex(c / 16), UpperHex(c % 16)) == Some(c)
    ensures UpperHexDigit(UpperHex(c / 16)) && UpperHexDigit(UpperHex(c % 16))
  {
    var n: int := c;
    assert 16 * (n / 16) + n % 16 == n;
  }

  /** A percent-encoded text decodes to its bytes and encodes no byte it does not have to. */
  lemma {:induction false} PercentReads(b: Bytes, query: bool)
    ensures Unpercent(Percent(b, query), query) == Some(b) && PercentText(Percent(b, query), query)
  {
    if b == [] {
    } else {
      PercentReads(b[1..], query);
      PercentByteReads(b[0], query, Percent(b[1..], query));
      assert b == [b[0]] + b[1..];
    }
  }

  /** There is only one such text of the bytes. */
  lemma {:induction false} PercentIsTheText(t: Bytes, b: Bytes, query: bool)
    ensures PercentText(t, query) && Unpercent(t, query) == Some(b) <==> t == Percent(b, query)
  {
    PercentReads(b, query);
    if PercentText(t, query) && Unpercent(t, query) == Some(b) {
      OnlyPercent(t, b, query);
    }
  }

  lemma {:induction false} OnlyPercent(t: Bytes, b: Bytes, query: bool)
    requires PercentText(t, query) && Unpercent(t, query) == Some(b)
    ensures t == Percent(b, query)
  {
    if t == [] {
    } else {
      var n := if t[0] == '%' as int then 3 else 1;
      var rest := Unpercent(t[n..], query).value;
      assert b == [b[0]] + rest;
      OnlyPercent(t[n..], rest, query);
      FrontIsByte(t, b[0], query);
      assert t == PercentByte(b[0], query) + Percent(rest, query);
      assert b[1..] == rest;
    }
  }

  lemma FrontIsByte(t: Bytes, c: Byte, query: bool)
    requires t != [] && PercentText(t, query) && Unpercent(t, query).Some? && Unpercent(t, query).value != []
    requires Unpercent(t, query).value[0] == c
    ensures PercentByte(c, query) == t[..if t[0] == '%' as int then 3 else 1]
  {
    if t[0] == '%' as int {
      UpperHexIsTheDigit(t[1], t[2]);
      assert t[..3] == [t[0], t[1], t[2]];
    } else {
      assert t[..1] == [t[0]];
    }
  }

  lemma UpperHexIsTheDigit(high: Byte, low: Byte)
    requires UpperHexDigit(high) && UpperHexDigit(low) && TwoHex(high, low).Some?
    ensures var c := TwoHex(high, low).value; UpperHex(c / 16) == high && UpperHex(c % 16) == low
  {
    var h, l := Unhex(high).value, Unhex(low).value;
    assert (16 * h + l) / 16 == h && (16 * h + l) % 16 == l;
  }

  // JSON texts, read back

  predicate LowerHexDigit(c: Byte) { '0' as int <= c <= '9' as int || 'a' as int <= c <= 'f' as int }

  predicate ShortEscape(c: Byte) {
    || c == '"' as int || c == '\\' as int || c == 'b' as int || c == 'f' as int || c == 'n' as int
    || c == 'r' as int || c == 't' as int
  }

  /** A control character that has no short form. */
  predicate LongControl(u: nat) { u < 0x20 && u !in {8, 9, 10, 12, 13} }

  /** What Go's encoder writes with a \u escape. */
  predicate GoEscapes(u: nat) {
    LongControl(u) || u == '<' as int || u == '>' as int || u == '&' as int || u in {0x2028, 0x2029, 0xfffd}
  }

  /** The same for text that is to be ASCII. */
  predicate AsciiEscapes(u: nat) { LongControl(u) || u >= 127 }

  /** The bytes Go leaves alone: no control character, no quote, backslash, <, > or &, and no line separator. */
  predicate GoRaw(t: Bytes)
    requires t != []
  {
    && t[0] >= 0x20 && t[0] != '"' as int && t[0] != '\\' as int
    && t[0] != '<' as int && t[0] != '>' as int && t[0] != '&' as int && !LineSeparator(t)
  }

  /** The bytes ASCII text leaves alone, <, > and & among them. */
  predicate AsciiRaw(t: Bytes)
    requires t != []
  {
    0x20 <= t[0] < 127 && t[0] != '"' as int && t[0] != '\\' as int
  }

  /** Raw bytes, short escapes, and \u with four lower-case digits for what has no other form. */
  predicate JsonText(t: Bytes, ascii: bool) {
    || t == []
    || (t[0] != '\\' as int && (if ascii then AsciiRaw(t) else GoRaw(t)) && JsonText(t[1..], ascii))
    || (t[0] == '\\' as int && |t| >= 2 && ShortEscape(t[1]) && JsonText(t[2..], ascii))
    || (t[0] == '\\' as int && |t| >= 6 && t[1] == 'u' as int && JsonText(t[6..], ascii)
        && LowerHexDigit(t[2]) && LowerHexDigit(t[3]) && LowerHexDigit(t[4]) && LowerHexDigit(t[5])
        && FourHex(t[2..]).Some? && var u := FourHex(t[2..]).value; if ascii then AsciiEscapes(u) else GoEscapes(u))
  }

  lemma EscapeIsJsonText(u: nat, rest: Bytes, ascii: bool)
    requires u < 0x10000 && JsonText(rest, ascii) && if ascii then AsciiEscapes(u) else GoEscapes(u)
    ensures JsonText(UnicodeEscape(u) + rest, ascii)
  {
    var t := UnicodeEscape(u) + rest;
    assert t[6..] == rest && t[2] == Hex(u / 4096) && t[3] == Hex(u / 256 % 16);
    assert t[4] == Hex(u / 16 % 16) && t[5] == Hex(u % 16);
    FourHexReads(u, t[2..]);
  }

  lemma AsciiIsJsonText(c: Byte, rest: Bytes, ascii: bool)
    requires c < 0x80 && JsonText(rest, ascii) && (ascii ==> c < 127)
    ensures JsonText(EscapeAscii(c, !ascii) + rest, ascii)
  {
    var e := EscapeAscii(c, !ascii);
    var t := e + rest;
    assert t[|e|..] == rest;
    if e == UnicodeEscape(c) {
      EscapeIsJsonText(c, rest, ascii);
    } else if |e| == 2 {
      assert t[0] == 92;
    }
  }

  /** The bytes of a character beyond ASCII are left alone, unless it is a line separator. */
  lemma RuneIsGoText(b: Bytes, rest: Bytes)
    requires b != [] && Width(b) > 1 && !LineSeparator(b) && JsonText(rest, false)
    ensures JsonText(b[..Width(b)] + rest, false)
  {
    var w := Width(b);
    var t := b[..w] + rest;
    assert t[w..] == rest;
    if w == 4 {
      assert t[3..][1..] == t[4..] && JsonText(t[3..], false);
    }
    if w >= 3 {
      assert t[2..][1..] == t[3..] && JsonText(t[2..], false);
    }
    assert t[1..][1..] == t[2..] && JsonText(t[1..], false);
  }

  lemma RuneIsJsonText(b: Bytes, rest: Bytes)
    requires b != [] && JsonText(rest, false)
    ensures JsonText(EscapeRune(b) + rest, false)
  {
    if b[0] < 0x80 {
      AsciiIsJsonText(b[0], rest, false);
    } else if Width(b) == 0 {
      EscapeIsJsonText(0xfffd, rest, false);
    } else if LineSeparator(b) {
      EscapeIsJsonText(SeparatorPoint(b), rest, false);
    } else {
      RuneIsGoText(b, rest);
    }
  }

  /** Go's JSON text of a value reads back as the value with invalid bytes replaced, and is written as Go promises. */
  lemma JsonGoReads(b: Bytes, rest: Bytes)
    ensures ReadString(TextOf(JsonGo, b) + [34] + rest) == Some(Read(ToValid(b, REPLACEMENT), rest))
    ensures JsonText(TextOf(JsonGo, b), false)
  {
    EscapeReads(b, rest);
    GoTextHolds(b);
  }

  lemma {:induction false} GoTextHolds(b: Bytes)
    ensures JsonText(Escape(b), false)
  {
    if b == [] {
    } else {
      GoTextHolds(b[Advance(b)..]);
      RuneIsJsonText(b, Escape(b[Advance(b)..]));
    }
  }

  // The ASCII text

  lemma TwoParts(lead: int, second: int)
    requires 0xc0 <= lead < 0xe0 && 0x80 <= second < 0xc0
    ensures var u := lead % 32 * 64 + second % 64; 0xc0 + u / 64 == lead && 0x80 + u % 64 == second
  {
    assert lead % 32 == lead - 0xc0 && second % 64 == second - 0x80;
  }

  lemma ThreeParts(lead: int, second: int, third: int)
    requires 0xe0 <= lead < 0xf0 && 0x80 <= second < 0xc0 && 0x80 <= third < 0xc0
    ensures var u := lead % 16 * 4096 + second % 64 * 64 + third % 64;
            && u == (lead - 0xe0) * 4096 + (second - 0x80) * 64 + (third - 0x80)
            && 0xe0 + u / 4096 == lead && 0x80 + u / 64 % 64 == second && 0x80 + u % 64 == third
  {
    var a, c, d := lead - 0xe0, second - 0x80, third - 0x80;
    assert lead % 16 == a && second % 64 == c && third % 64 == d;
    var u := a * 4096 + c * 64 + d;
    assert u / 64 == a * 64 + c && u % 64 == d;
  }

  lemma FourParts(lead: int, second: int, third: int, fourth: int)
    requires 0xf0 <= lead < 0xf8 && 0x80 <= second < 0xc0 && 0x80 <= third < 0xc0 && 0x80 <= fourth < 0xc0
    ensures var u := lead % 8 * 262144 + second % 64 * 4096 + third % 64 * 64 + fourth % 64;
            && 0xf0 + u / 262144 == lead && 0x80 + u / 4096 % 64 == second && 0x80 + u / 64 % 64 == third
            && 0x80 + u % 64 == fourth
  {
    LowBits(lead, second);
    LowBits(0xf0, third);
    LowBits(0xf0, fourth);
    FourDigits(lead - 0xf0, second - 0x80, third - 0x80, fourth - 0x80);
  }

  lemma LowBits(lead: int, later: int)
    requires 0xf0 <= lead < 0xf8 && 0x80 <= later < 0xc0
    ensures lead % 8 == lead - 0xf0 && later % 64 == later - 0x80
  {
  }

  /** Four digits to the base of 64. */
  lemma FourDigits(a: nat, c: nat, d: nat, e: nat)
    requires c < 64 && d < 64 && e < 64
    ensures var u := a * 262144 + c * 4096 + d * 64 + e;
            u / 262144 == a && u / 4096 % 64 == c && u / 64 % 64 == d && u % 64 == e
  {
    var u := a * 262144 + c * 4096 + d * 64 + e;
    assert u / 4096 == a * 64 + c;
    Splits(a, c);
    assert u / 64 == (a * 64 + c) * 64 + d;
    Splits(a * 64 + c, d);
  }

  lemma Splits(high: nat, low: nat)
    requires low < 64
    ensures (high * 64 + low) / 64 == high && (high * 64 + low) % 64 == low
  {
  }

  lemma PointOfTwo(b: Bytes)
    requires b != [] && Width(b) == 2
    ensures EncodePoint(RunePoint(b)) == b[..2] && 0x80 <= RunePoint(b) < 0x800
  {
    TwoParts(b[0], b[1]);
    assert b[..2] == [b[0], b[1]];
  }

  lemma PointOfThree(b: Bytes)
    requires b != [] && Width(b) == 3
    ensures EncodePoint(RunePoint(b)) == b[..3] && 0x800 <= RunePoint(b) < 0x10000
    ensures !(0xd800 <= RunePoint(b) < 0xe000)
  {
    ThreeParts(b[0], b[1], b[2]);
    assert b[..3] == [b[0], b[1], b[2]];
  }

  lemma PointOfFour(b: Bytes)
    requires b != [] && Width(b) == 4
    ensures EncodePoint(RunePoint(b)) == b[..4]
  {
    FourParts(b[0], b[1], b[2], b[3]);
    assert b[..4] == [b[0], b[1], b[2], b[3]];
  }

  /** A code point of the basic plane beyond ASCII and its bytes. */
  lemma PointOfBytes(b: Bytes)
    requires b != [] && 2 <= Width(b) <= 3
    ensures EncodePoint(RunePoint(b)) == b[..Width(b)] && 0x80 <= RunePoint(b) < 0x10000
    ensures !(0xd800 <= RunePoint(b) < 0xe000)
  {
    if Width(b) == 2 {
      PointOfTwo(b);
    } else {
      PointOfThree(b);
    }
  }

  function Pair(u: nat): Bytes
    requires 0x10000 <= u < 0x110000
  {
    UnicodeEscape(0xd800 + (u - 0x10000) / 1024) + UnicodeEscape(0xdc00 + (u - 0x10000) % 1024)
  }

  /** A surrogate pair reads as one code point. */
  /** The two halves of a code point beyond the basic plane. */
  lemma HalvesOf(u: nat) returns (high: nat, low: nat)
    requires 0x10000 <= u < 0x110000
    ensures 0xd800 <= high < 0xdc00 <= low < 0xe000 && 0x10000 + (high - 0xd800) * 1024 + (low - 0xdc00) == u
    ensures Pair(u) == UnicodeEscape(high) + UnicodeEscape(low)
  {
    high, low := 0xd800 + (u - 0x10000) / 1024, 0xdc00 + (u - 0x10000) % 1024;
  }

  lemma HalvesRead(high: nat, low: nat, body: Bytes)
    requires 0xd800 <= high < 0xdc00 <= low < 0xe000
    ensures var t := UnicodeEscape(high) + UnicodeEscape(low) + body;
            && t[0] == 92
            && NextPiece(t) == Some(Piece(EncodePoint(0x10000 + (high - 0xd800) * 1024 + (low - 0xdc00)), 12))
  {
    var t := UnicodeEscape(high) + UnicodeEscape(low) + body;
    assert t[0] == 92 && t[1] == 117 && t[6] == 92 && t[7] == 117;
    FourHexReads(high, t[2..]);
    FourHexReads(low, t[8..]);
  }

  lemma PairReads(u: nat, body: Bytes, r: Read)
    requires 0x10000 <= u < 0x110000 && ReadString(body) == Some(r)
    ensures ReadString(Pair(u) + body) == Some(Read(EncodePoint(u) + r.value, r.rest))
  {
    var high, low := HalvesOf(u);
    HalvesRead(high, low, body);
    PieceReads(Pair(u), body, EncodePoint(u), r);
  }

  lemma AsciiByteReadsPlain(c: Byte, body: Bytes, r: Read)
    requires c < 127 && ReadString(body) == Some(r)
    ensures ReadString(EscapeAscii(c, false) + body) == Some(Read([c] + r.value, r.rest))
  {
    if EscapeAscii(c, false) == EscapeAscii(c, true) {
      AsciiByteReads(c, body, r);
    } else {
      assert EscapeAscii(c, false) == [c];
      PlainByteReads(c, body, r);
    }
  }

  /** What is written for each kind of character. */
  lemma AsciiRuneCases(b: Bytes)
    requires b != []
    ensures Width(b) == 0 ==> AsciiRune(b) == UnicodeEscape(0xfffd) && Kept(b) == EncodePoint(0xfffd)
    ensures b[0] < 127 ==> AsciiRune(b) == EscapeAscii(b[0], false) && Kept(b) == [b[0]]
    ensures b[0] == 127 ==> AsciiRune(b) == UnicodeEscape(127) && Kept(b) == EncodePoint(127)
    ensures 2 <= Width(b) <= 3 ==> AsciiRune(b) == UnicodeEscape(RunePoint(b)) && Kept(b) == b[..Width(b)]
    ensures Width(b) == 4 ==> AsciiRune(b) == Pair(RunePoint(b)) && Kept(b) == b[..4]
  {
    EncodedPoints();
    if Width(b) == 1 {
      assert b[..1] == [b[0]];
    }
  }

  lemma AsciiRuneReads(b: Bytes, body: Bytes, r: Read)
    requires b != [] && ReadString(body) == Some(r)
    ensures ReadString(AsciiRune(b) + body) == Some(Read(Kept(b) + r.value, r.rest))
  {
    AsciiRuneCases(b);
    if Width(b) == 0 {
      UnicodeReads(0xfffd, body, r);
    } else if b[0] < 127 {
      AsciiByteReadsPlain(b[0], body, r);
    } else if Width(b) == 1 {
      UnicodeReads(127, body, r);
    } else if Width(b) < 4 {
      PointOfBytes(b);
      UnicodeReads(RunePoint(b), body, r);
    } else {
      PointOfFour(b);
      PairReads(RunePoint(b), body, r);
    }
  }

  lemma Joins(a: Bytes, b: Bytes, c: Bytes)
    ensures a + b + c == a + (b + c)
  {
  }

  lemma PairIsText(u: nat, rest: Bytes)
    requires 0x10000 <= u < 0x110000 && JsonText(rest, true)
    ensures JsonText(Pair(u) + rest, true)
  {
    var high, low := HalvesOf(u);
    EscapeIsJsonText(low, rest, true);
    EscapeIsJsonText(high, UnicodeEscape(low) + rest, true);
    Joins(UnicodeEscape(high), UnicodeEscape(low), rest);
  }

  lemma AsciiRuneIsText(b: Bytes, rest: Bytes)
    requires b != [] && JsonText(rest, true)
    ensures JsonText(AsciiRune(b) + rest, true)
  {
    AsciiRuneCases(b);
    if Width(b) == 0 {
      EscapeIsJsonText(0xfffd, rest, true);
    } else if b[0] < 127 {
      AsciiIsJsonText(b[0], rest, true);
    } else if Width(b) == 1 {
      EscapeIsJsonText(127, rest, true);
    } else if Width(b) < 4 {
      PointOfBytes(b);
      EscapeIsJsonText(RunePoint(b), rest, true);
    } else {
      PairIsText(RunePoint(b), rest);
    }
  }

  lemma AsciiJoins(b: Bytes, rest: Bytes)
    requires b != []
    ensures AsciiText(b) + [34] + rest == AsciiRune(b) + (AsciiText(b[Advance(b)..]) + [34] + rest)
    ensures ToValid(b, REPLACEMENT) == Kept(b) + ToValid(b[Advance(b)..], REPLACEMENT)
  {
  }

  /** The ASCII text reads back the same, with every byte below 127 and <, > and & as they are. */
  lemma {:induction false} JsonAsciiReads(b: Bytes, rest: Bytes)
    ensures ReadString(TextOf(JsonAscii, b) + [34] + rest) == Some(Read(ToValid(b, REPLACEMENT), rest))
    ensures JsonText(TextOf(JsonAscii, b), true)
  {
    if b == [] {
      ClosingReads(rest);
      assert AsciiText(b) + [34] + rest == [34] + rest;
    } else {
      var later := b[Advance(b)..];
      JsonAsciiReads(later, rest);
      AsciiJoins(b, rest);
      AsciiRuneReads(b, AsciiText(later) + [34] + rest, Read(ToValid(later, REPLACEMENT), rest));
      AsciiRuneIsText(b, AsciiText(later));
    }
  }

  /** Nothing in it is beyond 126. */
  lemma {:induction false} AsciiTextIsAscii(t: Bytes)
    requires JsonText(t, true)
    ensures forall i :: 0 <= i < |t| ==> t[i] < 127
  {
    if t == [] {
    } else if t[0] != '\\' as int {
      AsciiTextIsAscii(t[1..]);
    } else if ShortEscape(t[1]) {
      AsciiTextIsAscii(t[2..]);
    } else {
      AsciiTextIsAscii(t[6..]);
    }
  }

  // All seven

  lemma JsonTextsRead(value: Bytes)
    ensures ReadString(TextOf(JsonGo, value) + [34]) == Some(Read(ToValid(value, REPLACEMENT), []))
    ensures ReadString(TextOf(JsonAscii, value) + [34]) == Some(Read(ToValid(value, REPLACEMENT), []))
  {
    JsonGoReads(value, []);
    JsonAsciiReads(value, []);
    assert TextOf(JsonGo, value) + [34] + [] == TextOf(JsonGo, value) + [34];
    assert TextOf(JsonAscii, value) + [34] + [] == TextOf(JsonAscii, value) + [34];
  }

  /** What a text stands for, by a reader that shares nothing with its writer; invalid bytes of a value are replaced in
  its JSON texts. */
  function ReadBack(r: Representation, text: Bytes): Option<Bytes> {
    match r
    case Raw => Some(text)
    case UserInfo => Unpercent(text, false)
    case UrlQuery => Unpercent(text, true)
    case Base64Padded => Base64.Decode(text)
    case Base64Url => Base64.Decode(Base64.FromUrl(text))
    case _ =>
      var read := ReadString(text + ['"' as int]);
      if read.Some? && read.value.rest == [] then Some(read.value.value) else None
  }

  /** Every text of a value reads back as the value. */
  lemma TextsReadBack(r: Representation, value: Bytes)
    ensures ReadBack(r, TextOf(r, value)) ==
            Some(if r.JsonGo? || r.JsonAscii? then ToValid(value, REPLACEMENT) else value)
  {
    match r {
      case Raw =>
      case JsonGo => JsonTextsRead(value);
      case JsonAscii => JsonTextsRead(value);
      case UserInfo => PercentReads(value, false);
      case UrlQuery => PercentReads(value, true);
      case Base64Padded => Base64.RoundTrip(value);
      case Base64Url => Base64.UrlReads(value);
    }
  }

  /** The characters each text may hold. */
  predicate Written(r: Representation, text: Bytes) {
    match r
    case Raw => true
    case JsonGo => JsonText(text, false)
    case JsonAscii => JsonText(text, true) && forall i :: 0 <= i < |text| ==> text[i] < 127
    case UserInfo => PercentText(text, false)
    case UrlQuery => PercentText(text, true)
    case Base64Padded => forall i :: 0 <= i < |text| ==> Base64.TextByte(text[i])
    case Base64Url => forall i :: 0 <= i < |text| ==> Base64.UrlByte(text[i])
  }

  /** Every text keeps to the form of its encoder. */
  lemma TextIsWritten(r: Representation, value: Bytes)
    ensures Written(r, TextOf(r, value))
  {
    match r {
      case Raw =>
      case JsonGo => JsonGoReads(value, []);
      case JsonAscii =>
        JsonAsciiReads(value, []);
        AsciiTextIsAscii(TextOf(r, value));
      case UserInfo => PercentReads(value, false);
      case UrlQuery => PercentReads(value, true);
      case Base64Padded => Base64.Alphabet(value, false, true);
      case Base64Url => Base64.UrlAlphabet(value);
    }
  }
}
