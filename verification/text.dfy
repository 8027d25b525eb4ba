/** UTF-8 (RFC 3629), JSON strings (section 7 of RFC 8259) and base64 (section 4 of RFC 4648) on bytes,
as Go's standard library writes them. */
module Text {
  import opened Common

  predicate IsAscii(s: string) {
    forall i :: 0 <= i < |s| ==> s[i] < '\U{80}'
  }

  /** The bytes of a literal. */
  function Ascii(s: string): (b: Bytes)
    requires IsAscii(s)
    ensures |b| == |s| && forall i :: 0 <= i < |s| ==> b[i] == s[i] as int
  {
    seq(|s|, i requires 0 <= i < |s| => s[i] as int)
  }

  // UTF-8

  predicate Continues(b: Byte) { 0x80 <= b < 0xc0 }

  predicate SecondOfThree(b0: Byte, b1: Byte) {
    if b0 == 0xe0 then 0xa0 <= b1 < 0xc0 else if b0 == 0xed then 0x80 <= b1 < 0xa0 else Continues(b1)
  }

  predicate SecondOfFour(b0: Byte, b1: Byte) {
    if b0 == 0xf0 then 0x90 <= b1 < 0xc0 else if b0 == 0xf4 then 0x80 <= b1 < 0x90 else Continues(b1)
  }

  /** The length of the encoded rune in front; 0 if the first byte starts none. */
  function Width(b: Bytes): (w: nat)
    requires b != []
    ensures w <= 4 && w <= |b|
  {
    if b[0] < 0x80 then 1
    else if 0xc2 <= b[0] <= 0xdf then (if |b| >= 2 && Continues(b[1]) then 2 else 0)
    else if 0xe0 <= b[0] <= 0xef then
      (if |b| >= 3 && SecondOfThree(b[0], b[1]) && Continues(b[2]) then 3 else 0)
    else if 0xf0 <= b[0] <= 0xf4 then
      (if |b| >= 4 && SecondOfFour(b[0], b[1]) && Continues(b[2]) && Continues(b[3]) then 4 else 0)
    else 0
  }

  /** How far Go moves on: an invalid byte is skipped alone. */
  function Advance(b: Bytes): (w: nat)
    requires b != []
    ensures 1 <= w <= |b|
  {
    if Width(b) == 0 then 1 else Width(b)
  }

  predicate ValidUtf8(b: Bytes) {
    b == [] || (Width(b) > 0 && ValidUtf8(b[Width(b)..]))
  }

  const REPLACEMENT: Bytes := [0xef, 0xbf, 0xbd]

  /** Every invalid byte replaced. */
  function ToValid(b: Bytes, replacement: Bytes): Bytes {
    if b == [] then []
    else (if Width(b) == 0 then replacement else b[..Width(b)]) + ToValid(b[Advance(b)..], replacement)
  }

  lemma WidthOfPrefix(a: Bytes, b: Bytes)
    requires a != [] && Width(a) > 0
    ensures Width(a + b) == Width(a)
  {
  }

  lemma {:induction false} ValidAppends(a: Bytes, b: Bytes)
    requires ValidUtf8(a) && ValidUtf8(b)
    ensures ValidUtf8(a + b)
  {
    if a == [] {
      assert a + b == b;
    } else {
      WidthOfPrefix(a, b);
      assert (a + b)[Width(a)..] == a[Width(a)..] + b;
      ValidAppends(a[Width(a)..], b);
    }
  }

  lemma OneRuneIsValid(b: Bytes)
    requires b != [] && Width(b) > 0
    ensures ValidUtf8(b[..Width(b)])
  {
    var w := Width(b);
    assert Width(b[..w]) == w;
    assert b[..w][w..] == [];
  }

  lemma {:induction false} ToValidIsValid(b: Bytes, replacement: Bytes)
    requires ValidUtf8(replacement)
    ensures ValidUtf8(ToValid(b, replacement))
  {
    if b == [] {
    } else {
      ToValidIsValid(b[Advance(b)..], replacement);
      if Width(b) > 0 {
        OneRuneIsValid(b);
        ValidAppends(b[..Width(b)], ToValid(b[Advance(b)..], replacement));
      } else {
        ValidAppends(replacement, ToValid(b[Advance(b)..], replacement));
      }
    }
  }

  lemma {:induction false} ToValidKeepsValid(b: Bytes, replacement: Bytes)
    requires ValidUtf8(b)
    ensures ToValid(b, replacement) == b
  {
    if b == [] {
    } else {
      ToValidKeepsValid(b[Width(b)..], replacement);
      assert b[..Width(b)] + b[Width(b)..] == b;
    }
  }

  lemma {:induction false} AsciiIsValid(b: Bytes)
    requires forall i :: 0 <= i < |b| ==> b[i] < 0x80
    ensures ValidUtf8(b)
  {
    if b == [] {
    } else {
      AsciiIsValid(b[1..]);
    }
  }

  lemma ReplacementIsValid()
    ensures ValidUtf8(REPLACEMENT)
  {
    assert Width(REPLACEMENT) == 3 && REPLACEMENT[3..] == [];
  }

  lemma ToValidIff(b: Bytes)
    ensures ToValid(b, REPLACEMENT) == b <==> ValidUtf8(b)
    ensures ValidUtf8(ToValid(b, REPLACEMENT))
  {
    ReplacementIsValid();
    ToValidIsValid(b, REPLACEMENT);
    if ValidUtf8(b) {
      ToValidKeepsValid(b, REPLACEMENT);
    }
  }

  // White space

  /** The length of the white-space character (unicode.IsSpace) in front, or 0. */
  function SpaceWidth(b: Bytes): nat
    requires b != []
    ensures SpaceWidth(b) <= |b|
  {
    if 9 <= b[0] <= 13 || b[0] == 32 then 1
    else if |b| >= 2 && b[0] == 0xc2 && (b[1] == 0x85 || b[1] == 0xa0) then 2
    else if |b| < 3 then 0
    else if b[0] == 0xe1 && b[1] == 0x9a && b[2] == 0x80 then 3
    else if b[0] == 0xe2 && b[1] == 0x80 &&
            (0x80 <= b[2] <= 0x8a || b[2] == 0xa8 || b[2] == 0xa9 || b[2] == 0xaf) then 3
    else if b[0] == 0xe2 && b[1] == 0x81 && b[2] == 0x9f then 3
    else if b[0] == 0xe3 && b[1] == 0x80 && b[2] == 0x80 then 3
    else 0
  }

  predicate Blank(b: Bytes) {
    b == [] || (SpaceWidth(b) > 0 && Blank(b[SpaceWidth(b)..]))
  }

  // JSON strings

  function Hex(n: nat): Byte
    requires n < 16
  {
    if n < 10 then 48 + n else 87 + n
  }

  /** Backslash, u and four lower-case digits. */
  function UnicodeEscape(u: nat): (r: Bytes)
    requires u < 0x10000
    ensures |r| == 6
  {
    [92, 117, Hex(u / 4096), Hex(u / 256 % 16), Hex(u / 16 % 16), Hex(u % 16)]
  }

  /** One ASCII byte inside a string; `html` also escapes <, > and &. */
  function EscapeAscii(b: Byte, html: bool): (r: Bytes)
    requires b < 0x80
    ensures 1 <= |r| <= 6
  {
    if b == 34 || b == 92 then [92, b]
    else if b == 8 then [92, 98]
    else if b == 12 then [92, 102]
    else if b == 10 then [92, 110]
    else if b == 13 then [92, 114]
    else if b == 9 then [92, 116]
    else if b < 0x20 || (html && (b == 60 || b == 62 || b == 38)) then UnicodeEscape(b)
    else [b]
  }

  predicate LineSeparator(b: Bytes) {
    |b| >= 3 && b[0] == 0xe2 && b[1] == 0x80 && (b[2] == 0xa8 || b[2] == 0xa9)
  }

  function SeparatorPoint(b: Bytes): nat
    requires LineSeparator(b)
  {
    if b[2] == 0xa8 then 0x2028 else 0x2029
  }

  /** The rune in front as encoding/json writes it. */
  function EscapeRune(b: Bytes): (r: Bytes)
    requires b != []
    ensures Advance(b) <= |r| <= 6 * Advance(b)
  {
    if b[0] < 0x80 then EscapeAscii(b[0], true)
    else if Width(b) == 0 then UnicodeEscape(0xfffd)
    else if LineSeparator(b) then UnicodeEscape(SeparatorPoint(b))
    else b[..Width(b)]
  }

  /** The text between the quotes of a marshalled Go string. */
  function Escape(b: Bytes): (r: Bytes)
    ensures |b| <= |r| <= 6 * |b|
  {
    if b == [] then [] else EscapeRune(b) + Escape(b[Advance(b)..])
  }

  function Quote(b: Bytes): Bytes {
    [34] + Escape(b) + [34]
  }

  /** The escapes by name, and no other name. */
  lemma ShortEscapesAre(b: Byte)
    requires b < 0x80
    ensures EscapeAscii(34, true) == Ascii("\\\"") && EscapeAscii(92, true) == Ascii("\\\\")
    ensures EscapeAscii(8, true) == Ascii("\\b") && EscapeAscii(12, true) == Ascii("\\f")
    ensures EscapeAscii(10, true) == Ascii("\\n") && EscapeAscii(13, true) == Ascii("\\r")
    ensures EscapeAscii(9, true) == Ascii("\\t")
    ensures |EscapeAscii(b, true)| == 2 ==> b in {34, 92, 8, 12, 10, 13, 9}
  {
  }

  /** What is unsafe inside HTML or a script, and what is no character, goes by its code point. */
  lemma UnicodeEscapesAre()
    ensures EscapeAscii(60, true) == Ascii("\\u003c") && EscapeAscii(62, true) == Ascii("\\u003e")
    ensures EscapeAscii(38, true) == Ascii("\\u0026")
    ensures EscapeRune([0xe2, 0x80, 0xa8]) == Ascii("\\u2028") && EscapeRune([0xe2, 0x80, 0xa9]) == Ascii("\\u2029")
    ensures EscapeRune([0xff]) == Ascii("\\ufffd")
  {
  }

  /** Every other byte below 128 stands for itself, unless it is a control character. */
  lemma OthersAreBare(b: Byte)
    requires b < 0x80 && b !in {34, 92, 60, 62, 38}
    ensures b >= 0x20 ==> EscapeAscii(b, true) == [b]
    ensures b < 0x20 && b !in {8, 9, 10, 12, 13} ==>
              EscapeAscii(b, true) == Ascii("\\u00") + [if b < 16 then 48 else 49, Hex(b % 16)]
  {
  }

  // Reading strings back

  function Unhex(b: Byte): Option<nat> {
    if 48 <= b <= 57 then Some(b - 48)
    else if 97 <= b <= 102 then Some(b - 87)
    else if 65 <= b <= 70 then Some(b - 55)
    else None
  }

  function FourHex(t: Bytes): (r: Option<nat>)
    ensures r.Some? ==> |t| >= 4 && r.value < 0x10000
  {
    if |t| < 4 then None
    else
      match (Unhex(t[0]), Unhex(t[1]), Unhex(t[2]), Unhex(t[3]))
      case (Some(a), Some(b), Some(c), Some(d)) =>
        if a < 16 && b < 16 && c < 16 && d < 16 then Some(4096 * a + 256 * b + 16 * c + d) else None
      case _ => None
  }

  /** The UTF-8 form of a code point. */
  function EncodePoint(u: nat): Bytes
    requires u < 0x110000
  {
    if u < 0x80 then [u]
    else if u < 0x800 then [0xc0 + u / 64, 0x80 + u % 64]
    else if u < 0x10000 then [0xe0 + u / 4096, 0x80 + u / 64 % 64, 0x80 + u % 64]
    else [0xf0 + u / 262144, 0x80 + u / 4096 % 64, 0x80 + u / 64 % 64, 0x80 + u % 64]
  }

  datatype Piece = Piece(bytes: Bytes, used: nat)

  /** What one \u escape stands for, with a surrogate pair read as one and a lone surrogate replaced. */
  function UnicodePiece(t: Bytes): (p: Option<Piece>)
    requires |t| >= 2
    ensures p.Some? ==> 0 < p.value.used <= |t|
  {
    match FourHex(t[2..])
    case None => None
    case Some(u) =>
      if 0xd800 <= u < 0xdc00 then
        (if |t| >= 12 && t[6] == 92 && t[7] == 117 then
           match FourHex(t[8..])
           case Some(v) =>
             if 0xdc00 <= v < 0xe000 then Some(Piece(EncodePoint(0x10000 + (u - 0xd800) * 1024 + (v - 0xdc00)), 12))
             else Some(Piece(REPLACEMENT, 6))
           case None => Some(Piece(REPLACEMENT, 6))
         else Some(Piece(REPLACEMENT, 6)))
      else if 0xdc00 <= u < 0xe000 then Some(Piece(REPLACEMENT, 6))
      else Some(Piece(EncodePoint(u), 6))
  }

  /** The byte a two-character escape stands for. */
  function Unescaped(b: Byte): Option<Byte> {
    if b == 34 || b == 92 || b == 47 then Some(b)
    else if b == 98 then Some(8)
    else if b == 102 then Some(12)
    else if b == 110 then Some(10)
    else if b == 114 then Some(13)
    else if b == 116 then Some(9)
    else None
  }

  /** The next piece of a string body that is not its closing quote. */
  function NextPiece(t: Bytes): (p: Option<Piece>)
    requires t != []
    ensures p.Some? ==> 0 < p.value.used <= |t|
  {
    if t[0] < 0x20 then None
    else if t[0] != 92 then Some(Piece([t[0]], 1))
    else if |t| < 2 then None
    else if t[1] == 117 then UnicodePiece(t)
    else
      match Unescaped(t[1])
      case Some(b) => Some(Piece([b], 2))
      case None => None
  }

  datatype Read = Read(value: Bytes, rest: Bytes)

  /** Reads a string body up to and with its closing quote. */
  function ReadString(t: Bytes): (r: Option<Read>)
    ensures r.Some? ==> |r.value.rest| < |t| && r.value.rest == t[|t| - |r.value.rest|..]
  {
    if t == [] then None
    else if t[0] == 34 then Some(Read([], t[1..]))
    else
      match NextPiece(t)
      case None => None
      case Some(p) =>
        match ReadString(t[p.used..])
        case None => None
        case Some(r) => Some(Read(p.bytes + r.value, r.rest))
  }

  lemma HexRoundTrip(n: nat)
    requires n < 16
    ensures Unhex(Hex(n)) == Some(n)
  {
  }

  lemma UnicodeEscapeReads(u: nat, rest: Bytes)
    requires u < 0x10000 && !(0xd800 <= u < 0xe000)
    ensures NextPiece(UnicodeEscape(u) + rest) == Some(Piece(EncodePoint(u), 6))
  {
    var t := UnicodeEscape(u) + rest;
    FourHexReads(u, t[2..]);
    assert t[0] == 92 && t[1] == 117;
  }

  lemma FourHexReads(u: nat, t: Bytes)
    requires u < 0x10000 && |t| >= 4
    requires t[0] == Hex(u / 4096) && t[1] == Hex(u / 256 % 16) && t[2] == Hex(u / 16 % 16) && t[3] == Hex(u % 16)
    ensures FourHex(t) == Some(u)
  {
    var a, b, c, d := u / 4096, u / 256 % 16, u / 16 % 16, u % 16;
    HexRoundTrip(a);
    HexRoundTrip(b);
    HexRoundTrip(c);
    HexRoundTrip(d);
    HexDigits(u);
  }

  lemma HexDigits(u: nat)
    ensures u == 4096 * (u / 4096) + 256 * (u / 256 % 16) + 16 * (u / 16 % 16) + u % 16
  {
    var q := u / 16;
    var p := q / 16;
    assert u / 256 == p && u / 4096 == p / 16;
  }

  lemma AsciiReads(b: Byte, rest: Bytes)
    requires b < 0x80
    ensures EscapeAscii(b, true)[0] != 34
    ensures NextPiece(EscapeAscii(b, true) + rest) == Some(Piece([b], |EscapeAscii(b, true)|))
  {
    if EscapeAscii(b, true) == UnicodeEscape(b) {
      UnicodeEscapeReads(b, rest);
    }
  }

  /** Bytes that stand for themselves inside a string. */
  predicate Plain(b: Bytes) {
    forall i :: 0 <= i < |b| ==> PlainByte(b[i])
  }

  predicate PlainByte(b: Byte) { b >= 0x20 && b != 34 && b != 92 }

  /** One piece in front of a body that reads. */
  lemma PieceReads(front: Bytes, body: Bytes, bytes: Bytes, r: Read)
    requires front != [] && front[0] != 34 && ReadString(body) == Some(r)
    requires NextPiece(front + body) == Some(Piece(bytes, |front|))
    ensures ReadString(front + body) == Some(Read(bytes + r.value, r.rest))
  {
    assert (front + body)[|front|..] == body;
    assert (front + body)[0] == front[0];
  }

  lemma PlainByteReads(b: Byte, body: Bytes, r: Read)
    requires PlainByte(b) && ReadString(body) == Some(r)
    ensures ReadString([b] + body) == Some(Read([b] + r.value, r.rest))
  {
    PieceReads([b], body, [b], r);
  }

  lemma PlainJoins(b: Bytes, body: Bytes, value: Bytes)
    requires b != []
    ensures b[..1] + (b[1..] + body) == b + body
    ensures b[..1] + (b[1..] + value) == b + value
    ensures [b[0]] == b[..1]
  {
  }

  /** Plain bytes are read as they are, whatever string body follows. */
  lemma {:induction false} PlainPrefixReads(b: Bytes, body: Bytes, r: Read)
    requires Plain(b) && ReadString(body) == Some(r)
    ensures ReadString(b + body) == Some(Read(b + r.value, r.rest))
  {
    if b == [] {
      assert b + body == body && b + r.value == r.value;
    } else {
      PlainPrefixReads(b[1..], body, r);
      PlainJoins(b, body, r.value);
      PlainByteReads(b[0], b[1..] + body, Read(b[1..] + r.value, r.rest));
    }
  }

  lemma ClosingReads(rest: Bytes)
    ensures ReadString([34] + rest) == Some(Read([], rest))
  {
    assert ([34] + rest)[1..] == rest;
  }

  lemma PlainReads(b: Bytes, rest: Bytes)
    requires Plain(b)
    ensures ReadString(b + [34] + rest) == Some(Read(b, rest))
  {
    ClosingReads(rest);
    PlainCloses(b, rest);
    PlainPrefixReads(b, [34] + rest, Read([], rest));
  }

  lemma PlainCloses(b: Bytes, rest: Bytes)
    ensures b + ([34] + rest) == b + [34] + rest && b + [] == b
  {
  }

  lemma EscapeJoins(b: Bytes, rest: Bytes)
    requires b != []
    ensures Escape(b) + [34] + rest == EscapeRune(b) + (Escape(b[Advance(b)..]) + [34] + rest)
    ensures ToValid(b, REPLACEMENT) == Kept(b) + ToValid(b[Advance(b)..], REPLACEMENT)
  {
  }

  /** Reading a marshalled string gives its bytes back, with exactly the invalid ones replaced. */
  lemma {:induction false} EscapeReads(b: Bytes, rest: Bytes)
    ensures ReadString(Escape(b) + [34] + rest) == Some(Read(ToValid(b, REPLACEMENT), rest))
  {
    if b == [] {
      ClosingReads(rest);
      assert Escape(b) + [34] + rest == [34] + rest;
    } else {
      var later := b[Advance(b)..];
      EscapeReads(later, rest);
      EscapeJoins(b, rest);
      EscapeRuneReads(b, Escape(later) + [34] + rest, Read(ToValid(later, REPLACEMENT), rest));
    }
  }

  function Kept(b: Bytes): Bytes
    requires b != []
  {
    if Width(b) == 0 then REPLACEMENT else b[..Width(b)]
  }

  lemma EscapeRuneReads(b: Bytes, body: Bytes, r: Read)
    requires b != [] && ReadString(body) == Some(r)
    ensures ReadString(EscapeRune(b) + body) == Some(Read(Kept(b) + r.value, r.rest))
  {
    EscapeRuneCases(b);
    if b[0] < 0x80 {
      AsciiByteReads(b[0], body, r);
    } else if Width(b) == 0 {
      UnicodeReads(0xfffd, body, r);
    } else if LineSeparator(b) {
      UnicodeReads(SeparatorPoint(b), body, r);
    } else {
      PlainPrefixReads(b[..Width(b)], body, r);
    }
  }

  lemma EscapeRuneCases(b: Bytes)
    requires b != []
    ensures b[0] < 0x80 ==> EscapeRune(b) == EscapeAscii(b[0], true) && Kept(b) == [b[0]]
    ensures b[0] >= 0x80 && Width(b) == 0 ==> EscapeRune(b) == UnicodeEscape(0xfffd) && Kept(b) == EncodePoint(0xfffd)
    ensures LineSeparator(b) ==>
            EscapeRune(b) == UnicodeEscape(SeparatorPoint(b)) && Kept(b) == EncodePoint(SeparatorPoint(b))
    ensures b[0] >= 0x80 && Width(b) > 0 && !LineSeparator(b) ==>
            EscapeRune(b) == b[..Width(b)] && Kept(b) == b[..Width(b)] && Plain(b[..Width(b)])
  {
    EncodedPoints();
    if b[0] < 0x80 {
      assert b[..1] == [b[0]];
    } else if LineSeparator(b) {
      assert b[..3] == [b[0], b[1], b[2]];
    }
  }

  lemma AsciiByteReads(b: Byte, body: Bytes, r: Read)
    requires b < 0x80 && ReadString(body) == Some(r)
    ensures ReadString(EscapeAscii(b, true) + body) == Some(Read([b] + r.value, r.rest))
  {
    AsciiReads(b, body);
    PieceReads(EscapeAscii(b, true), body, [b], r);
  }

  lemma UnicodeReads(u: nat, body: Bytes, r: Read)
    requires u < 0x10000 && !(0xd800 <= u < 0xe000) && ReadString(body) == Some(r)
    ensures ReadString(UnicodeEscape(u) + body) == Some(Read(EncodePoint(u) + r.value, r.rest))
  {
    UnicodeEscapeReads(u, body);
    PieceReads(UnicodeEscape(u), body, EncodePoint(u), r);
  }

  lemma EncodedPoints()
    ensures EncodePoint(0xfffd) == REPLACEMENT
    ensures EncodePoint(0x2028) == [0xe2, 0x80, 0xa8] && EncodePoint(0x2029) == [0xe2, 0x80, 0xa9]
  {
  }

  lemma QuoteReads(b: Bytes, rest: Bytes)
    ensures Quote(b)[0] == 34
    ensures ReadString((Quote(b) + rest)[1..]) == Some(Read(ToValid(b, REPLACEMENT), rest))
  {
    assert (Quote(b) + rest)[1..] == Escape(b) + [34] + rest;
    EscapeReads(b, rest);
  }
}
