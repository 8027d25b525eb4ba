/** The webhook signature as the relay writes it and as the sink, written independently, checks it. */
module Signing {
  import opened Common
  import opened Text
  import opened Decimal
  import Base64

  const DOT: Byte := 46

  predicate DotFree(b: Bytes) {
    DOT !in b
  }

  lemma ParsedIsDotFree(s: Bytes)
    requires ParseInt(s).Some?
    ensures s != [] && DotFree(s)
  {
    if s[0] == 43 || s[0] == 45 {
      ReadIsDigits(s[1..]);
      assert s == [s[0]] + s[1..];
    } else {
      ReadIsDigits(s);
    }
  }

  // Header fields

  /** How many bytes come before the next white space. */
  function FieldLength(s: Bytes): (n: nat)
    ensures n <= |s|
    ensures s != [] && SpaceWidth(s) == 0 ==> n > 0
  {
    if s == [] || SpaceWidth(s) > 0 then 0 else Advance(s) + FieldLength(s[Advance(s)..])
  }

  /** strings.Fields. */
  function Fields(s: Bytes): seq<Bytes> {
    if s == [] then []
    else if SpaceWidth(s) > 0 then Fields(s[SpaceWidth(s)..])
    else [s[..FieldLength(s)]] + Fields(s[FieldLength(s)..])
  }

  predicate Printable(s: Bytes) {
    forall i :: 0 <= i < |s| ==> 33 <= s[i] <= 126
  }

  lemma {:induction false} PrintableField(s: Bytes, tail: Bytes)
    requires Printable(s) && (tail == [] || tail[0] == 32)
    ensures FieldLength(s + tail) == |s|
  {
    if s == [] {
      assert s + tail == tail;
    } else {
      PrintableField(s[1..], tail);
      assert (s + tail)[0] == s[0] && (s + tail)[1..] == s[1..] + tail;
    }
  }

  function Spaced(entries: seq<Bytes>): Bytes {
    if entries == [] then [] else if |entries| == 1 then entries[0] else entries[0] + [32] + Spaced(entries[1..])
  }

  lemma {:induction false} FieldsOfSpaced(entries: seq<Bytes>)
    requires forall i :: 0 <= i < |entries| ==> entries[i] != [] && Printable(entries[i])
    ensures Fields(Spaced(entries)) == entries
  {
    if |entries| == 1 {
      OneField(entries[0], []);
      assert entries[0] + [] == entries[0];
    } else if entries != [] {
      var later := Spaced(entries[1..]);
      FieldsOfSpaced(entries[1..]);
      OneField(entries[0], [32] + later);
      assert ([32] + later)[1..] == later;
      assert Spaced(entries) == entries[0] + ([32] + later);
    }
  }

  lemma OneField(s: Bytes, tail: Bytes)
    requires s != [] && Printable(s) && (tail == [] || tail[0] == 32)
    ensures Fields(s + tail) == [s] + Fields(tail)
  {
    PrintableField(s, tail);
    assert (s + tail)[0] == s[0];
    assert (s + tail)[..|s|] == s && (s + tail)[|s|..] == tail;
  }

  datatype Split = Split(before: Bytes, after: Bytes, found: bool)

  /** strings.Cut at a separator of one byte. */
  function Cut(s: Bytes, separator: Byte): Split {
    if s == [] then Split([], [], false)
    else if s[0] == separator then Split([], s[1..], true)
    else
      var later := Cut(s[1..], separator);
      Split([s[0]] + later.before, later.after, later.found)
  }

  lemma {:induction false} CutFinds(a: Bytes, x: Bytes, separator: Byte)
    requires separator !in a
    ensures Cut(a + [separator] + x, separator) == Split(a, x, true)
  {
    var s := a + [separator] + x;
    if a == [] {
      assert s[1..] == x;
    } else {
      CutFinds(a[1..], x, separator);
      assert s[1..] == a[1..] + [separator] + x;
    }
  }

  lemma {:induction false} CutSplits(s: Bytes, separator: Byte)
    ensures Cut(s, separator).found ==> s == Cut(s, separator).before + [separator] + Cut(s, separator).after
  {
    if s == [] || s[0] == separator {
    } else {
      CutSplits(s[1..], separator);
    }
  }

  const COMMA: Byte := 44
  const V1: Bytes := [118, 49]

  function Entry(code: Bytes): Bytes { V1 + [COMMA] + Base64.Standard(code) }

  lemma CutIsV1(entry: Bytes, want: Bytes)
    ensures Cut(entry, COMMA) == Split(V1, want, true) <==> entry == V1 + [COMMA] + want
  {
    CutSplits(entry, COMMA);
    CutFinds(V1, want, COMMA);
  }

  // Sender and receiver

  /** HMAC-SHA256 of a secret and a content. */
  type Mac = (Bytes, Bytes) -> Bytes

  const SECOND := 1_000_000_000
  const TOLERANCE := 300 * SECOND

  /** Unix seconds of a time given in nanoseconds since the epoch, rounded down. */
  function Seconds(time: int): int { time / SECOND }

  function Timestamp(time: int): Bytes { FormatInt(Seconds(time)) }

  function Content(id: Bytes, ts: Bytes, body: Bytes): Bytes { id + [DOT] + ts + [DOT] + body }

  function Sign(mac: Mac, secret: Bytes, id: Bytes, time: int, body: Bytes): Bytes {
    Entry(mac(secret, Content(id, Timestamp(time), body)))
  }

  datatype Check = Accepted | Missing | NotATimestamp | OutsideWindow | NoSignature

  /** The receiver's answer, stated on whole signature entries. */
  function Checked(mac: Mac, secret: Bytes, id: Bytes, ts: Bytes, sig: Bytes, body: Bytes, now: int): Check {
    if id == [] || ts == [] || sig == [] then Missing
    else
      match ParseInt(ts)
      case None => NotATimestamp
      case Some(secs) =>
        if !(-TOLERANCE <= now - secs * SECOND <= TOLERANCE) then OutsideWindow
        else if Entry(mac(secret, Content(id, ts, body))) in Fields(sig) then Accepted
        else NoSignature
  }

  method Verify(mac: Mac, secret: Bytes, id: Bytes, ts: Bytes, sig: Bytes, body: Bytes, now: int) returns (c: Check)
    ensures c == Checked(mac, secret, id, ts, sig, body, now)
    ensures c.Missing? <==> id == [] || ts == [] || sig == []
    ensures !c.Missing? ==> (c.NotATimestamp? <==> ParseInt(ts).None?)
    ensures !c.Missing? && !c.NotATimestamp? ==>
              var late := now - ParseInt(ts).value * 1_000_000_000;
              (c.OutsideWindow? <==> late < -300_000_000_000 || 300_000_000_000 < late)
    ensures c.Accepted? || c.NoSignature? ==>
              var signed := id + Ascii(".") + ts + Ascii(".") + body;
              (c.Accepted? <==> Ascii("v1,") + Base64.Standard(mac(secret, signed)) in Fields(sig))
  {
    assert Ascii(".") == [DOT] && Ascii("v1,") == V1 + [COMMA];
    if id == [] || ts == [] || sig == [] {
      return Missing;
    }
    var secs := ParseInt(ts);
    if secs.None? {
      return NotATimestamp;
    }
    var delta := now - secs.value * SECOND;
    if delta > TOLERANCE || delta < -TOLERANCE {
      return OutsideWindow;
    }
    var want := Base64.Standard(mac(secret, Content(id, ts, body)));
    var entries := Fields(sig);
    for i := 0 to |entries|
      invariant V1 + [COMMA] + want !in entries[..i]
    {
      var cut := Cut(entries[i], COMMA);
      CutIsV1(entries[i], want);
      if cut.found && cut.before == V1 && cut.after == want {
        return Accepted;
      }
      assert entries[..i + 1] == entries[..i] + [entries[i]];
    }
    assert entries[..|entries|] == entries;
    return NoSignature;
  }

  lemma SignatureIsPrintable(mac: Mac, secret: Bytes, id: Bytes, time: int, body: Bytes)
    ensures Sign(mac, secret, id, time, body) != [] && Printable(Sign(mac, secret, id, time, body))
  {
    Base64.Alphabet(mac(secret, Content(id, Timestamp(time), body)), false, true);
  }

  /** Whether a time, truncated to seconds, is within five minutes of the receiver's clock. */
  predicate InWindow(time: int, now: int) {
    -TOLERANCE <= now - Seconds(time) * SECOND <= TOLERANCE
  }

  function Signatures(mac: Mac, secrets: seq<Bytes>, id: Bytes, time: int, body: Bytes): seq<Bytes> {
    seq(|secrets|, i requires 0 <= i < |secrets| => Sign(mac, secrets[i], id, time, body))
  }

  /** During a rotation a receiver holding any one of the secrets accepts, exactly in the window. */
  lemma RotationAccepted(mac: Mac, secrets: seq<Bytes>, k: nat, id: Bytes, time: int, body: Bytes, now: int)
    requires k < |secrets| && Int64(Seconds(time))
    ensures var sig := Spaced(Signatures(mac, secrets, id, time, body));
            var late := now - time / 1_000_000_000 * 1_000_000_000;
            Checked(mac, secrets[k], id, Timestamp(time), sig, body, now) ==
            if id == [] then Missing
            else if -300_000_000_000 <= late <= 300_000_000_000 then Accepted
            else OutsideWindow
  {
    var entries := Signatures(mac, secrets, id, time, body);
    forall i | 0 <= i < |entries| ensures entries[i] != [] && Printable(entries[i]) {
      SignatureIsPrintable(mac, secrets[i], id, time, body);
    }
    FieldsOfSpaced(entries);
    FormatParses(Seconds(time));
    assert entries[k] in Fields(Spaced(entries));
  }

  /** What the relay sends is accepted exactly in the window. */
  lemma SenderAccepted(mac: Mac, secret: Bytes, id: Bytes, time: int, body: Bytes, now: int)
    requires Int64(Seconds(time))
    ensures var late := now - time / 1_000_000_000 * 1_000_000_000;
            Checked(mac, secret, id, Timestamp(time), Sign(mac, secret, id, time, body), body, now) ==
            if id == [] then Missing
            else if -300_000_000_000 <= late <= 300_000_000_000 then Accepted
            else OutsideWindow
  {
    RotationAccepted(mac, [secret], 0, id, time, body, now);
    assert Signatures(mac, [secret], id, time, body) == [Sign(mac, secret, id, time, body)];
  }

  // What a signature stands for

  lemma FirstDotSplits(a: Bytes, x: Bytes, b: Bytes, y: Bytes)
    requires DotFree(a) && DotFree(b) && a + [DOT] + x == b + [DOT] + y
    ensures a == b && x == y
  {
    CutFinds(a, x, DOT);
    CutFinds(b, y, DOT);
  }

  /** For dot-free ids the signed content determines id, timestamp and body. */
  lemma ContentTells(id: Bytes, ts: Bytes, body: Bytes, id': Bytes, ts': Bytes, body': Bytes)
    requires DotFree(id) && DotFree(id') && ParseInt(ts).Some? && ParseInt(ts').Some?
    requires Content(id, ts, body) == Content(id', ts', body')
    ensures id == id' && ts == ts' && body == body'
  {
    ParsedIsDotFree(ts);
    ParsedIsDotFree(ts');
    var x, y := ts + [DOT] + body, ts' + [DOT] + body';
    assert Content(id, ts, body) == id + [DOT] + x && Content(id', ts', body') == id' + [DOT] + y;
    FirstDotSplits(id, x, id', y);
    FirstDotSplits(ts, body, ts', body');
  }

  /** A dot in an id makes two messages share their content. */
  lemma DottedIdCollides()
    ensures exists id, id', ts, ts', body, body' ::
              && ParseInt(ts).Some? && ParseInt(ts').Some? && id != id'
              && Content(id, ts, body) == Content(id', ts', body')
  {
    var a, ab: Bytes := [97], [97, DOT, 49];
    FormatParses(1);
    FormatParses(2);
    assert Content(a, [49], [50, DOT, 120]) == Content(ab, [50], [120]);
  }

  /** A signature made for one message is accepted for another exactly when that one is complete and in time and HMAC
  gives both contents the same code. */
  lemma AcceptedIffSameCode(mac: Mac, secret: Bytes, id: Bytes, time: int, body: Bytes,
                            id': Bytes, ts': Bytes, body': Bytes, now: int)
    ensures Checked(mac, secret, id', ts', Sign(mac, secret, id, time, body), body', now) == Accepted <==>
            && id' != [] && ParseInt(ts').Some? && -TOLERANCE <= now - ParseInt(ts').value * SECOND <= TOLERANCE
            && mac(secret, Content(id', ts', body')) == mac(secret, Content(id, Timestamp(time), body))
  {
    var sig := Sign(mac, secret, id, time, body);
    SignatureIsPrintable(mac, secret, id, time, body);
    OneField(sig, []);
    assert sig + [] == sig;
    var code, code' := mac(secret, Content(id, Timestamp(time), body)), mac(secret, Content(id', ts', body'));
    assert Entry(code)[3..] == Base64.Standard(code) && Entry(code')[3..] == Base64.Standard(code');
    if Entry(code) == Entry(code') {
      Base64.StandardTells(code, code');
    }
  }

  /** With dot-free ids a signature is accepted for no other id, second or body, unless HMAC gives the two contents at
  hand the same code. */
  lemma AcceptedIsWhatWasSigned(mac: Mac, secret: Bytes, id: Bytes, time: int, body: Bytes,
                                id': Bytes, ts': Bytes, body': Bytes, now: int)
    requires DotFree(id) && DotFree(id') && Int64(Seconds(time))
    requires Checked(mac, secret, id', ts', Sign(mac, secret, id, time, body), body', now) == Accepted
    requires var x, y := Content(id, Timestamp(time), body), Content(id', ts', body');
             mac(secret, x) == mac(secret, y) ==> x == y
    ensures id' == id && ts' == Timestamp(time) && body' == body && InWindow(time, now)
  {
    AcceptedIffSameCode(mac, secret, id, time, body, id', ts', body', now);
    FormatParses(Seconds(time));
    ContentTells(id, Timestamp(time), body, id', ts', body');
  }
}
