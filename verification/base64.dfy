/** Base64 (section 4 and section 5 of RFC 4648), with and without padding. */
module Base64 {
  import opened Common

  const PAD: Byte := 61

  type Sextet = n: nat | n < 64

  /** The character of a sextet; the URL alphabet differs in the last two. */
  function Character(n: Sextet, url: bool): Byte {
    if n < 26 then 65 + n
    else if n < 52 then 71 + n
    else if n < 62 then n - 4
    else if n == 62 then (if url then 45 else 43)
    else if url then 95 else 47
  }

  function SextetOf(c: Byte): Option<Sextet> {
    if 65 <= c <= 90 then Some(c - 65)
    else if 97 <= c <= 122 then Some(c - 71)
    else if 48 <= c <= 57 then Some(c + 4)
    else if c == 43 then Some(62)
    else if c == 47 then Some(63)
    else None
  }

  function Padding(n: nat, pad: bool): (p: Bytes)
    ensures |p| == if pad then n else 0
  {
    if pad then seq(n, _ => PAD) else []
  }

  /** The four characters of three bytes. */
  function Group(x: Byte, y: Byte, z: Byte, url: bool): (t: Bytes)
    ensures |t| == 4
  {
    [Character(x / 4, url), Character(x % 4 * 16 + y / 16, url), Character(y % 16 * 4 + z / 64, url),
     Character(z % 64, url)]
  }

  function Encode(b: Bytes, url: bool, pad: bool): (t: Bytes)
    ensures |t| == if pad then (|b| + 2) / 3 * 4 else (|b| * 8 + 5) / 6
  {
    if |b| == 0 then []
    else if |b| == 1 then [Character(b[0] / 4, url), Character(b[0] % 4 * 16, url)] + Padding(2, pad)
    else if |b| == 2 then
      [Character(b[0] / 4, url), Character(b[0] % 4 * 16 + b[1] / 16, url), Character(b[1] % 16 * 4, url)]
      + Padding(1, pad)
    else
      Group(b[0], b[1], b[2], url) + Encode(b[3..], url, pad)
  }

  /** Padded text in the standard alphabet. */
  function Standard(b: Bytes): Bytes { Encode(b, false, true) }

  function FirstByte(a: Sextet, b: Sextet): Byte {
    var x: int := a;
    x * 4 + b / 16
  }

  function SecondByte(b: Sextet, c: Sextet): Byte {
    var x: int := b % 16;
    x * 16 + c / 4
  }

  function ThirdByte(c: Sextet, d: Sextet): Byte {
    var x: int := c % 4;
    x * 64 + d
  }

  function Decode(t: Bytes): Option<Bytes> {
    if t == [] then Some([])
    else if |t| < 4 then None
    else if |t| == 4 && t[3] == PAD then
      match (SextetOf(t[0]), SextetOf(t[1]), SextetOf(t[2]))
      case (Some(a), Some(b), Some(c)) => Some([FirstByte(a, b), SecondByte(b, c)])
      case (Some(a), Some(b), None) => if t[2] == PAD then Some([FirstByte(a, b)]) else None
      case _ => None
    else
      match (SextetOf(t[0]), SextetOf(t[1]), SextetOf(t[2]), SextetOf(t[3]), Decode(t[4..]))
      case (Some(a), Some(b), Some(c), Some(d), Some(rest)) =>
        Some([FirstByte(a, b), SecondByte(b, c), ThirdByte(c, d)] + rest)
      case _ => None
  }

  lemma CharacterDecodes(n: Sextet)
    ensures SextetOf(Character(n, false)) == Some(n) && Character(n, false) != PAD
  {
  }

  /** Splitting a byte and putting its parts together. */
  lemma PartsJoin(x: Byte, y: Byte, z: Byte)
    ensures FirstByte(x / 4, x % 4 * 16 + y / 16) == x
    ensures SecondByte(x % 4 * 16 + y / 16, y % 16 * 4 + z / 64) == y
    ensures ThirdByte(y % 16 * 4 + z / 64, z % 64) == z
  {
  }

  lemma {:induction false} RoundTrip(b: Bytes)
    ensures Decode(Standard(b)) == Some(b)
  {
    if |b| == 1 {
      OneDecodes(b);
    } else if |b| == 2 {
      TwoDecode(b);
    } else if |b| > 2 {
      RoundTrip(b[3..]);
      ThreeDecode(b);
    }
  }

  lemma OneDecodes(b: Bytes)
    requires |b| == 1
    ensures Decode(Standard(b)) == Some(b)
  {
    var p, q: Sextet := b[0] / 4, b[0] % 4 * 16;
    PartsJoin(b[0], 0, 0);
    ShortestDecodes(p, q);
    assert Standard(b) == [Character(p, false), Character(q, false), PAD, PAD];
    assert b == [b[0]];
  }

  lemma ShortestDecodes(p: Sextet, q: Sextet)
    ensures Decode([Character(p, false), Character(q, false), PAD, PAD]) == Some([FirstByte(p, q)])
  {
    CharacterDecodes(p);
    CharacterDecodes(q);
  }

  lemma TwoDecode(b: Bytes)
    requires |b| == 2
    ensures Decode(Standard(b)) == Some(b)
  {
    var p, q, r: Sextet := b[0] / 4, b[0] % 4 * 16 + b[1] / 16, b[1] % 16 * 4;
    PartsJoin(b[0], b[1], 0);
    ShortDecodes(p, q, r);
    assert Standard(b) == [Character(p, false), Character(q, false), Character(r, false), PAD];
    assert b == [b[0], b[1]];
  }

  lemma ShortDecodes(p: Sextet, q: Sextet, r: Sextet)
    ensures Decode([Character(p, false), Character(q, false), Character(r, false), PAD]) ==
            Some([FirstByte(p, q), SecondByte(q, r)])
  {
    CharacterDecodes(p);
    CharacterDecodes(q);
    CharacterDecodes(r);
  }

  lemma ThreeDecode(b: Bytes)
    requires |b| > 2 && Decode(Standard(b[3..])) == Some(b[3..])
    ensures Decode(Standard(b)) == Some(b)
  {
    GroupDecodes(b[0], b[1], b[2], Standard(b[3..]));
    assert b == [b[0], b[1], b[2]] + b[3..];
  }

  lemma GroupDecodes(x: Byte, y: Byte, z: Byte, t: Bytes)
    requires Decode(t).Some?
    ensures Decode(Group(x, y, z, false) + t) == Some([x, y, z] + Decode(t).value)
  {
    PartsJoin(x, y, z);
    QuadDecodes(x / 4, x % 4 * 16 + y / 16, y % 16 * 4 + z / 64, z % 64, t);
  }

  lemma QuadDecodes(p: Sextet, q: Sextet, r: Sextet, s: Sextet, t: Bytes)
    requires Decode(t).Some?
    ensures Decode([Character(p, false), Character(q, false), Character(r, false), Character(s, false)] + t) ==
            Some([FirstByte(p, q), SecondByte(q, r), ThirdByte(r, s)] + Decode(t).value)
  {
    var x := [Character(p, false), Character(q, false), Character(r, false), Character(s, false)] + t;
    CharacterDecodes(p);
    CharacterDecodes(q);
    CharacterDecodes(r);
    CharacterDecodes(s);
    assert x[4..] == t;
  }

  /** No two values share a text. */
  lemma StandardTells(a: Bytes, b: Bytes)
    requires Standard(a) == Standard(b)
    ensures a == b
  {
    RoundTrip(a);
    RoundTrip(b);
  }

  predicate TextByte(c: Byte) { SextetOf(c).Some? || c == PAD || c == 45 || c == 95 }

  lemma {:induction false} Alphabet(b: Bytes, url: bool, pad: bool)
    ensures forall i :: 0 <= i < |Encode(b, url, pad)| ==> TextByte(Encode(b, url, pad)[i])
  {
    if |b| <= 2 {
    } else {
      Alphabet(b[3..], url, pad);
    }
  }

  // The URL alphabet

  /** The character of the standard alphabet that stands for the same sextet. */
  function Standardized(c: Byte): Byte {
    if c == '-' as int then '+' as int else if c == '_' as int then '/' as int else c
  }

  function AllStandardized(t: Bytes): (r: Bytes)
    ensures |r| == |t|
  {
    seq(|t|, i requires 0 <= i < |t| => Standardized(t[i]))
  }

  /** Unpadded text in the URL alphabet, rewritten in the standard one and padded to a multiple of four. */
  function FromUrl(t: Bytes): Bytes {
    if t == [] then []
    else if |t| < 4 then AllStandardized(t) + seq(4 - |t|, _ => PAD)
    else AllStandardized(t[..4]) + FromUrl(t[4..])
  }

  lemma SameSextet(n: Sextet)
    ensures Standardized(Character(n, true)) == Character(n, false)
  {
  }

  lemma {:induction false} UrlIsStandard(b: Bytes)
    ensures FromUrl(Encode(b, true, false)) == Standard(b)
  {
    var t := Encode(b, true, false);
    forall n: Sextet ensures Standardized(Character(n, true)) == Character(n, false) {
      SameSextet(n);
    }
    if |b| == 0 {
    } else if |b| == 1 {
      assert t == [Character(b[0] / 4, true), Character(b[0] % 4 * 16, true)];
      assert AllStandardized(t) == [Character(b[0] / 4, false), Character(b[0] % 4 * 16, false)];
    } else if |b| == 2 {
      var x, y, z := b[0] / 4, b[0] % 4 * 16 + b[1] / 16, b[1] % 16 * 4;
      assert t == [Character(x, true), Character(y, true), Character(z, true)];
      assert AllStandardized(t) == [Character(x, false), Character(y, false), Character(z, false)];
    } else {
      UrlIsStandard(b[3..]);
      assert t[..4] == Group(b[0], b[1], b[2], true) && t[4..] == Encode(b[3..], true, false);
      assert AllStandardized(t[..4]) == Group(b[0], b[1], b[2], false);
    }
  }

  /** Text in the URL alphabet decodes to its bytes. */
  lemma UrlReads(b: Bytes)
    ensures Decode(FromUrl(Encode(b, true, false))) == Some(b)
  {
    UrlIsStandard(b);
    RoundTrip(b);
  }

  predicate UrlByte(c: Byte) {
    || 'A' as int <= c <= 'Z' as int || 'a' as int <= c <= 'z' as int || '0' as int <= c <= '9' as int
    || c == '-' as int || c == '_' as int
  }

  /** It needs no escaping in a URL. */
  lemma {:induction false} UrlAlphabet(b: Bytes)
    ensures forall i :: 0 <= i < |Encode(b, true, false)| ==> UrlByte(Encode(b, true, false)[i])
  {
    if |b| <= 2 {
    } else {
      UrlAlphabet(b[3..]);
    }
  }

  /** Table 1 of RFC 4648, and table 2 where it differs. */
  lemma CharactersAre(n: Sextet, url: bool)
    ensures n < 26 ==> Character(n, url) == 'A' as int + n
    ensures 26 <= n < 52 ==> Character(n, url) == 'a' as int + (n - 26)
    ensures 52 <= n < 62 ==> Character(n, url) == '0' as int + (n - 52)
    ensures n == 62 ==> Character(n, url) == if url then '-' as int else '+' as int
    ensures n == 63 ==> Character(n, url) == if url then '_' as int else '/' as int
  {
  }
}
