/** Decimal integers as strconv writes and reads them. */
module Decimal {
  import opened Common

  function Digits(n: nat): (d: Bytes)
    ensures d != []
  {
    if n < 10 then [48 + n] else Digits(n / 10) + [48 + n % 10]
  }

  predicate DigitByte(b: Byte) { 48 <= b <= 57 }

  function DigitsValue(d: Bytes): Option<nat>
    requires d != []
  {
    var last := d[|d| - 1];
    if !DigitByte(last) then None
    else if |d| == 1 then Some(last - 48)
    else
      match DigitsValue(d[..|d| - 1])
      case None => None
      case Some(v) => Some(v * 10 + (last - 48))
  }

  lemma {:induction false} DigitsRead(n: nat)
    ensures DigitsValue(Digits(n)) == Some(n) && forall i :: 0 <= i < |Digits(n)| ==> DigitByte(Digits(n)[i])
  {
    if n < 10 {
    } else {
      DigitsRead(n / 10);
      assert Digits(n)[..|Digits(n)| - 1] == Digits(n / 10);
    }
  }

  lemma {:induction false} ReadIsDigits(d: Bytes)
    requires d != [] && DigitsValue(d).Some?
    ensures forall i :: 0 <= i < |d| ==> DigitByte(d[i])
  {
    if |d| <= 1 {
    } else {
      ReadIsDigits(d[..|d| - 1]);
      assert d == d[..|d| - 1] + [d[|d| - 1]];
    }
  }

  const MIN_INT64: int := -0x8000_0000_0000_0000
  const MAX_INT64: int := 0x7fff_ffff_ffff_ffff

  predicate Int64(n: int) { MIN_INT64 <= n <= MAX_INT64 }

  function FormatInt(n: int): Bytes {
    if n < 0 then [45] + Digits(-n) else Digits(n)
  }

  function ParseInt(s: Bytes): Option<int> {
    var signed := s != [] && (s[0] == 43 || s[0] == 45);
    var d := if signed then s[1..] else s;
    if d == [] then None
    else
      match DigitsValue(d)
      case None => None
      case Some(v) =>
        var n: int := v;
        var m := if signed && s[0] == 45 then -n else n;
        if Int64(m) then Some(m) else None
  }

  lemma FormatParses(n: int)
    requires Int64(n)
    ensures ParseInt(FormatInt(n)) == Some(n)
  {
    var m: nat := if n < 0 then -n else n;
    DigitsRead(m);
    if n < 0 {
      assert FormatInt(n)[1..] == Digits(m);
    } else {
      assert DigitByte(Digits(m)[0]);
    }
  }

  /** A number starts with zero only if it is one digit. */
  lemma {:induction false} NoLeadingZero(n: nat)
    ensures n >= 10 ==> Digits(n)[0] != 48
  {
    if n < 10 {
    } else {
      NoLeadingZero(n / 10);
    }
  }

  lemma {:induction false} DigitsShort(n: nat, limit: nat)
    requires limit > 0 && n < Power10(limit)
    ensures |Digits(n)| <= limit
  {
    if n < 10 {
    } else {
      DigitsShort(n / 10, limit - 1);
    }
  }

  function Power10(k: nat): nat {
    if k == 0 then 1 else 10 * Power10(k - 1)
  }

  lemma Int64IsShort(n: int)
    requires Int64(n)
    ensures 0 < |FormatInt(n)| <= 20
  {
    Power19();
    DigitsShort(if n < 0 then -n else n, 19);
  }

  lemma Power19()
    ensures Power10(19) == 10_000_000_000_000_000_000
  {
    assert Power10(6) == 1_000_000;
    assert Power10(12) == 1_000_000_000_000;
    assert Power10(18) == 1_000_000_000_000_000_000;
  }
}
