/** A JSON value reads the same whatever follows it, as long as a number cannot go on. */
module JsonLemmas {
  import opened Common
  import opened Text
  import opened Json

  // Strings

  lemma DropJoins(t: Bytes, tail: Bytes, n: nat)
    requires n <= |t|
    ensures (t + tail)[n..] == t[n..] + tail
  {
  }

  lemma FourHexExtends(t: Bytes, tail: Bytes)
    requires |t| >= 4
    ensures FourHex(t + tail) == FourHex(t)
  {
  }

  lemma CutEscapeFails(t: Bytes)
    requires 2 <= |t| < 6 && t[0] == 92 && t[1] == 117
    ensures ReadString(t) == None
  {
    assert FourHex(t[2..]) == None;
    assert UnicodePiece(t) == None;
    assert NextPiece(t) == None;
  }

  /** A string that reads has no cut-off surrogate escape, so the reader looks at nothing behind it. */
  lemma NoCutEscape(t: Bytes)
    requires 6 <= |t| < 12 && ReadString(t[6..]).Some?
    ensures |t| >= 8 ==> !(t[6] == 92 && t[7] == 117)
    ensures |t| == 7 ==> t[6] != 92
    ensures |t| > 6
  {
    var u := t[6..];
    assert u != [];
    if |t| >= 8 && t[6] == 92 && t[7] == 117 {
      CutEscapeFails(u);
    }
  }

  lemma UnicodePieceExtends(t: Bytes, tail: Bytes)
    requires |t| >= 2 && t[0] == 92 && t[1] == 117 && UnicodePiece(t).Some?
    requires ReadString(t[UnicodePiece(t).value.used..]).Some?
    ensures UnicodePiece(t + tail) == UnicodePiece(t)
  {
    DropJoins(t, tail, 2);
    FourHexExtends(t[2..], tail);
    if |t| < 12 {
      NoCutEscape(t);
      SecondEscapeAbsent(t, tail);
    } else {
      DropJoins(t, tail, 8);
      FourHexExtends(t[8..], tail);
    }
  }

  lemma SecondEscapeAbsent(t: Bytes, tail: Bytes)
    requires 6 < |t| < 12 && (|t| >= 8 ==> !(t[6] == 92 && t[7] == 117)) && (|t| == 7 ==> t[6] != 92)
    ensures var x := t + tail; !(|x| >= 12 && x[6] == 92 && x[7] == 117)
  {
  }

  lemma PieceExtends(t: Bytes, tail: Bytes)
    requires t != [] && NextPiece(t).Some? && ReadString(t[NextPiece(t).value.used..]).Some?
    ensures NextPiece(t + tail) == NextPiece(t)
  {
    assert (t + tail)[0] == t[0];
    if t[0] == 92 {
      assert (t + tail)[1] == t[1];
      if t[1] == 117 {
        UnicodePieceExtends(t, tail);
      }
    }
  }

  lemma {:induction false} StringExtends(t: Bytes, tail: Bytes)
    requires ReadString(t).Some?
    ensures ReadString(t + tail) == Some(Read(ReadString(t).value.value, ReadString(t).value.rest + tail))
  {
    if t[0] == 34 {
      DropJoins(t, tail, 1);
    } else {
      PieceExtends(t, tail);
      var n := NextPiece(t).value.used;
      DropJoins(t, tail, n);
      StringExtends(t[n..], tail);
    }
  }

  // Numbers and whitespace

  /** Nothing a number could go on with. */
  predicate Delimits(tail: Bytes) {
    tail == [] || tail[0] == COMMA || tail[0] == COLON || tail[0] == CLOSE_LIST || tail[0] == CLOSE_OBJECT
        || Ws(tail[0])
  }

  lemma {:induction false} WsExtends(t: Bytes, tail: Bytes)
    requires SkipWs(t) != [] || SkipWs(tail) == tail
    ensures SkipWs(t + tail) == SkipWs(t) + tail
  {
    if t == [] {
      assert t + tail == tail;
    } else if Ws(t[0]) {
      DropJoins(t, tail, 1);
      WsExtends(t[1..], tail);
    }
  }

  lemma NoDigitAhead(tail: Bytes)
    requires Delimits(tail)
    ensures (tail == [] || !Digit(tail[0])) && SkipDigits(tail) == tail
  {
  }

  lemma {:induction false} DigitsExtend(t: Bytes, tail: Bytes)
    requires Delimits(tail)
    ensures SkipDigits(t + tail) == SkipDigits(t) + tail
  {
    if t == [] {
      NoDigitAhead(tail);
      assert t + tail == tail;
    } else if Digit(t[0]) {
      DropJoins(t, tail, 1);
      DigitsExtend(t[1..], tail);
    }
  }

  lemma WholeExtends(t: Bytes, tail: Bytes)
    requires Delimits(tail) && Whole(t).Some?
    ensures Whole(t + tail) == Some(Whole(t).value + tail)
  {
    DropJoins(t, tail, 1);
    DigitsExtend(t[1..], tail);
  }

  lemma FractionExtends(t: Bytes, tail: Bytes)
    requires Delimits(tail) && Fraction(t).Some?
    ensures Fraction(t + tail) == Some(Fraction(t).value + tail)
  {
    if t != [] && t[0] == 46 {
      DropJoins(t, tail, 2);
      DigitsExtend(t[2..], tail);
    }
  }

  lemma ExponentExtends(t: Bytes, tail: Bytes)
    requires Delimits(tail) && Exponent(t).Some?
    ensures Exponent(t + tail) == Some(Exponent(t).value + tail)
  {
    if t != [] && (t[0] == 101 || t[0] == 69) {
      var n := if |t| >= 2 && (t[1] == 43 || t[1] == 45) then 2 else 1;
      DropJoins(t, tail, n);
      DropJoins(t[n..], tail, 1);
      DigitsExtend(t[n..][1..], tail);
    }
  }

  lemma NumberExtends(t: Bytes, tail: Bytes)
    requires Delimits(tail) && Number(t).Some?
    ensures Number(t + tail) == Some(Number(t).value + tail)
  {
    var n := if t != [] && t[0] == 45 then 1 else 0;
    DropJoins(t, tail, n);
    WholeExtends(t[n..], tail);
    var v := Whole(t[n..]).value;
    FractionExtends(v, tail);
    ExponentExtends(Fraction(v).value, tail);
  }

  lemma LiteralExtends(t: Bytes, tail: Bytes)
    requires Literal(t).Some?
    ensures Literal(t + tail) == Some(Literal(t).value + tail)
  {
    var x := t + tail;
    if Starts(t, TRUE) || Starts(t, NULL) {
      assert x[..4] == t[..4];
      DropJoins(t, tail, 4);
    } else {
      assert x[..5] == t[..5] && x[..4] == t[..4];
      DropJoins(t, tail, 5);
    }
  }

  // Values

  function Behind(s: Span, tail: Bytes): Span { Span(s.rest + tail, s.depth) }

  lemma {:induction false} ValueExtends(t: Bytes, tail: Bytes)
    requires Delimits(tail) && Value(t).Some?
    ensures Value(t + tail) == Some(Behind(Value(t).value, tail))
    decreases |t|, 1
  {
    DropJoins(t, tail, 1);
    if t[0] == QUOTE {
      StringExtends(t[1..], tail);
    } else if t[0] == OPEN_OBJECT {
      ObjectExtends(t[1..], tail);
    } else if t[0] == OPEN_LIST {
      ListExtends(t[1..], tail);
    } else {
      ScalarExtends(t, tail);
    }
  }

  lemma {:induction false} ListExtends(t: Bytes, tail: Bytes)
    requires Delimits(tail) && List(t).Some?
    ensures List(t + tail) == Some(Behind(List(t).value, tail))
    decreases |t|, 3
  {
    var u := SkipWs(t);
    WsExtends(t, tail);
    DropJoins(u, tail, 1);
    if u[0] != CLOSE_LIST {
      ElementsExtend(u, tail);
    }
  }

  function BodyBehind(b: Body, tail: Bytes): Body { b.(rest := b.rest + tail) }

  lemma {:induction false} ObjectExtends(t: Bytes, tail: Bytes)
    requires Delimits(tail) && Object(t).Some?
    ensures Object(t + tail) == Some(BodyBehind(Object(t).value, tail))
    decreases |t|, 3
  {
    var u := SkipWs(t);
    WsExtends(t, tail);
    DropJoins(u, tail, 1);
    if u[0] != CLOSE_OBJECT {
      MembersExtend(u, tail);
    }
  }

  lemma ScalarExtends(t: Bytes, tail: Bytes)
    requires Delimits(tail) && t != [] && t[0] != QUOTE && t[0] != OPEN_OBJECT && t[0] != OPEN_LIST && Value(t).Some?
    ensures Value(t + tail) == Some(Behind(Value(t).value, tail))
  {
    if Literal(t).Some? {
      LiteralExtends(t, tail);
    } else {
      NumberExtends(t, tail);
      NoLiteral(t, tail);
    }
  }

  lemma NoLiteral(t: Bytes, tail: Bytes)
    requires Number(t).Some?
    ensures Literal(t + tail) == None
  {
    var x := t + tail;
    assert x[0] == t[0] && (t[0] == 45 || Digit(t[0]));
    StartsAlike(x, TRUE);
    StartsAlike(x, FALSE);
    StartsAlike(x, NULL);
  }

  lemma StartsAlike(t: Bytes, word: Bytes)
    requires t != [] && word != []
    ensures Starts(t, word) ==> t[0] == word[0]
  {
    if Starts(t, word) {
      assert t[..|word|][0] == t[0];
    }
  }

  lemma {:induction false} ElementsExtend(t: Bytes, tail: Bytes)
    requires Delimits(tail) && Elements(t).Some?
    ensures Elements(t + tail) == Some(Behind(Elements(t).value, tail))
    decreases |t|, 2
  {
    ValueExtends(t, tail);
    var v := Value(t).value;
    var u := SkipWs(v.rest);
    WsExtends(v.rest, tail);
    DropJoins(u, tail, 1);
    if u[0] != COMMA {
    } else {
      NextExtends(u[1..], tail);
      ElementsExtend(SkipWs(u[1..]), tail);
    }
  }

  lemma NextExtends(t: Bytes, tail: Bytes)
    requires SkipWs(t) != []
    ensures SkipWs(t + tail) == SkipWs(t) + tail
  {
    WsExtends(t, tail);
  }

  lemma {:induction false} MembersExtend(t: Bytes, tail: Bytes)
    requires Delimits(tail) && Members(t).Some?
    ensures Members(t + tail) == Some(BodyBehind(Members(t).value, tail))
    decreases |t|, 2
  {
    var f := First(t).value;
    FirstExtends(t, tail);
    DropJoins(f.rest, tail, 1);
    if f.rest[0] != COMMA {
    } else {
      NextExtends(f.rest[1..], tail);
      MembersExtend(SkipWs(f.rest[1..]), tail);
    }
  }

  lemma KeyExtends(t: Bytes, tail: Bytes)
    requires Key(t).Some? && Key(t).value.rest != []
    ensures Key(t + tail) == Some(Read(Key(t).value.value, Key(t).value.rest + tail))
  {
    DropJoins(t, tail, 1);
    StringExtends(t[1..], tail);
    var k := ReadString(t[1..]).value;
    WsExtends(k.rest, tail);
    var u := SkipWs(k.rest);
    DropJoins(u, tail, 1);
    WsExtends(u[1..], tail);
  }

  lemma {:induction false} FirstExtends(t: Bytes, tail: Bytes)
    requires Delimits(tail) && First(t).Some? && First(t).value.rest != []
    ensures First(t + tail) == Some(First(t).value.(rest := First(t).value.rest + tail))
    decreases |t|, 1
  {
    ValueExtends(Key(t).value.rest, tail);
    FirstBehind(t, tail);
  }

  /** The same once it is known for the member's value. */
  lemma FirstBehind(t: Bytes, tail: Bytes)
    requires First(t).Some? && First(t).value.rest != []
    requires var v := Key(t).value.rest; Value(v + tail) == Some(Span(Value(v).value.rest + tail, Value(v).value.depth))
    ensures First(t + tail) == Some(First(t).value.(rest := First(t).value.rest + tail))
  {
    KeyExtends(t, tail);
    var k := Key(t).value;
    var v := k.rest;
    var s := Value(v).value;
    WsExtends(s.rest, tail);
    var m := Member(k.value, v[..|v| - |s.rest|]);
    assert (v + tail)[..|v| - |s.rest|] == m.raw;
    assert First(t) == Some(Front(m, SkipWs(s.rest), s.depth));
    FirstFrom(t + tail, m, v + tail, s.rest + tail, SkipWs(s.rest) + tail, s.depth);
  }

  lemma FirstFrom(t: Bytes, m: Member, v: Bytes, r: Bytes, rest: Bytes, depth: nat)
    requires Key(t) == Some(Read(m.key, v)) && Value(v) == Some(Span(r, depth))
    requires v[..|v| - |r|] == m.raw && SkipWs(r) == rest
    ensures First(t) == Some(Front(m, rest, depth))
  {
  }

  // Where a value ends

  predicate Suffix(t: Bytes, u: Bytes) { |u| <= |t| && t[|t| - |u|..] == u }

  /** `rest` is what follows a front of `t` that does not end in whitespace. */
  predicate Ends(t: Bytes, rest: Bytes) {
    Suffix(t, rest) && |rest| < |t| && !Ws(t[|t| - |rest| - 1])
  }

  lemma SuffixThrough(t: Bytes, u: Bytes, rest: Bytes)
    requires Suffix(t, u)
    ensures Suffix(u, rest) ==> Suffix(t, rest)
    ensures Ends(u, rest) ==> Ends(t, rest)
  {
  }

  lemma {:induction false} WsIsSuffix(t: Bytes)
    ensures Suffix(t, SkipWs(t))
  {
    if t == [] || !Ws(t[0]) {
    } else {
      WsIsSuffix(t[1..]);
      SuffixThrough(t, t[1..], SkipWs(t));
    }
  }

  lemma {:induction false} DigitsEnd(t: Bytes)
    ensures SkipDigits(t) == t || Ends(t, SkipDigits(t))
  {
    if t == [] || !Digit(t[0]) {
    } else {
      DigitsEnd(t[1..]);
      SuffixThrough(t, t[1..], SkipDigits(t));
    }
  }

  /** One byte that is no whitespace, then digits. */
  lemma DigitThenEnds(t: Bytes, u: Bytes)
    requires Suffix(t, u) && u != [] && Digit(u[0])
    ensures Ends(t, SkipDigits(u[1..]))
  {
    DigitsEnd(u[1..]);
    SuffixThrough(u, u[1..], SkipDigits(u[1..]));
    SuffixThrough(t, u, SkipDigits(u[1..]));
  }

  lemma FractionEnds(t: Bytes)
    requires Fraction(t).Some?
    ensures Fraction(t).value == t || Ends(t, Fraction(t).value)
  {
    if t != [] && t[0] == 46 {
      DigitThenEnds(t, t[1..]);
      assert t[1..][1..] == t[2..];
    }
  }

  lemma ExponentEnds(t: Bytes)
    requires Exponent(t).Some?
    ensures Exponent(t).value == t || Ends(t, Exponent(t).value)
  {
    if t != [] && (t[0] == 101 || t[0] == 69) {
      DigitThenEnds(t, if |t| >= 2 && (t[1] == 43 || t[1] == 45) then t[2..] else t[1..]);
    }
  }

  lemma WholeEnds(t: Bytes)
    requires Whole(t).Some?
    ensures Ends(t, Whole(t).value)
  {
    if t[0] != 48 {
      DigitThenEnds(t, t);
    }
  }

  lemma NumberEnds(t: Bytes)
    requires Number(t).Some?
    ensures Ends(t, Number(t).value)
  {
    var u := if t != [] && t[0] == 45 then t[1..] else t;
    WholeEnds(u);
    var v := Whole(u).value;
    SuffixThrough(t, u, v);
    FractionEnds(v);
    var w := Fraction(v).value;
    SuffixThrough(t, v, w);
    ExponentEnds(w);
    SuffixThrough(t, w, Number(t).value);
  }

  lemma LiteralEnds(t: Bytes)
    requires Literal(t).Some?
    ensures Ends(t, Literal(t).value)
  {
    if Starts(t, TRUE) {
      assert t[3] == t[..4][3];
    } else if Starts(t, FALSE) {
      assert t[4] == t[..5][4];
    } else {
      assert t[3] == t[..4][3];
    }
  }

  lemma {:induction false} StringEnds(t: Bytes)
    requires ReadString(t).Some?
    ensures Ends(t, ReadString(t).value.rest)
  {
    if t[0] == 34 {
    } else {
      var u := t[NextPiece(t).value.used..];
      StringEnds(u);
      SuffixThrough(t, u, ReadString(t).value.rest);
    }
  }

  lemma {:induction false} ValueEnds(t: Bytes)
    requires Value(t).Some?
    ensures Ends(t, Value(t).value.rest)
    decreases |t|, 1
  {
    SuffixThrough(t, t[1..], Value(t).value.rest);
    if t[0] == QUOTE {
      StringEnds(t[1..]);
    } else if t[0] == OPEN_OBJECT {
      ObjectEnds(t[1..]);
    } else if t[0] == OPEN_LIST {
      ListEnds(t[1..]);
    } else if Literal(t).Some? {
      LiteralEnds(t);
    } else {
      NumberEnds(t);
    }
  }

  lemma {:induction false} ListEnds(t: Bytes)
    requires List(t).Some?
    ensures Ends(t, List(t).value.rest)
    decreases |t|, 3
  {
    var u := SkipWs(t);
    WsIsSuffix(t);
    if u[0] != CLOSE_LIST {
      ElementsEnd(u);
    }
    SuffixThrough(t, u, List(t).value.rest);
  }

  lemma {:induction false} ObjectEnds(t: Bytes)
    requires Object(t).Some?
    ensures Ends(t, Object(t).value.rest)
    decreases |t|, 3
  {
    var u := SkipWs(t);
    WsIsSuffix(t);
    if u[0] != CLOSE_OBJECT {
      MembersEnd(u);
    }
    SuffixThrough(t, u, Object(t).value.rest);
  }

  lemma {:induction false} ElementsEnd(t: Bytes)
    requires Elements(t).Some?
    ensures Ends(t, Elements(t).value.rest)
    decreases |t|, 2
  {
    ValueEnds(t);
    NextEnds(t, Value(t).value.rest);
    var u := SkipWs(Value(t).value.rest);
    if u[0] != COMMA {
    } else {
      var next := SkipWs(u[1..]);
      ElementsEnd(next);
      SuffixThrough(t, next, Elements(t).value.rest);
    }
  }

  /** Behind a value come whitespace, one separator and whitespace. */
  lemma NextEnds(t: Bytes, rest: Bytes)
    requires Suffix(t, rest) && SkipWs(rest) != []
    ensures Ends(t, SkipWs(rest)[1..]) && Suffix(t, SkipWs(SkipWs(rest)[1..]))
  {
    var u := SkipWs(rest);
    WsIsSuffix(rest);
    SuffixThrough(t, rest, u);
    SuffixThrough(t, u, u[1..]);
    WsIsSuffix(u[1..]);
    SuffixThrough(t, u[1..], SkipWs(u[1..]));
  }

  lemma {:induction false} MembersEnd(t: Bytes)
    requires Members(t).Some?
    ensures Ends(t, Members(t).value.rest)
    decreases |t|, 2
  {
    var k := Key(t).value.rest;
    KeyEnds(t);
    ValueEnds(k);
    SuffixThrough(t, k, Value(k).value.rest);
    NextEnds(t, Value(k).value.rest);
    var u := SkipWs(Value(k).value.rest);
    assert u == First(t).value.rest;
    if u[0] != COMMA {
    } else {
      var next := SkipWs(u[1..]);
      MembersEnd(next);
      SuffixThrough(t, next, Members(t).value.rest);
    }
  }

  lemma KeyEnds(t: Bytes)
    requires Key(t).Some?
    ensures Suffix(t, Key(t).value.rest)
  {
    var k := ReadString(t[1..]).value.rest;
    StringEnds(t[1..]);
    SuffixThrough(t, t[1..], k);
    NextEnds(t, k);
  }

  /** A text is its own value exactly when neither end is whitespace. */
  lemma TrimmedIsWhole(t: Bytes)
    requires Document(t).Some?
    ensures Trimmed(t) == t <==> !Ws(t[0]) && !Ws(t[|t| - 1])
  {
    var u, rest := SkipWs(t), Document(t).value.rest;
    WsIsSuffix(t);
    ValueEnds(u);
    SuffixThrough(t, u, rest);
    AllWs(rest);
    if !Ws(t[0]) {
      assert u == t;
      if rest == [] {
        assert u[..|u|] == u;
      } else {
        assert t[|t| - 1] == rest[|rest| - 1];
      }
    }
  }

  lemma {:induction false} AllWs(t: Bytes)
    requires SkipWs(t) == []
    ensures forall i :: 0 <= i < |t| ==> Ws(t[i])
  {
    if t == [] {
    } else {
      AllWs(t[1..]);
      assert t == [t[0]] + t[1..];
    }
  }

  // The other way: what is not consumed does not matter

  /** An escape that lies inside `u` means the same without what follows. */
  lemma UnicodePieceRetracts(u: Bytes, tail: Bytes)
    requires |u| >= 6 && u[0] == 92 && u[1] == 117 && UnicodePiece(u + tail).Some?
             && UnicodePiece(u + tail).value.used <= |u|
    ensures UnicodePiece(u) == UnicodePiece(u + tail)
  {
    DropJoins(u, tail, 2);
    FourHexExtends(u[2..], tail);
    if |u| >= 12 {
      DropJoins(u, tail, 8);
      FourHexExtends(u[8..], tail);
    }
  }

  lemma PieceRetracts(u: Bytes, tail: Bytes)
    requires u != [] && NextPiece(u + tail).Some? && NextPiece(u + tail).value.used <= |u|
    ensures NextPiece(u) == NextPiece(u + tail)
  {
    var x := u + tail;
    assert x[0] == u[0] && (|u| >= 2 ==> x[1] == u[1]);
    if x[0] == 92 && |x| >= 2 && x[1] == 117 {
      UnicodeUses(x);
      UnicodePieceRetracts(u, tail);
    }
  }

  lemma UnicodeUses(t: Bytes)
    requires |t| >= 2 && UnicodePiece(t).Some?
    ensures UnicodePiece(t).value.used >= 6
  {
  }

  lemma {:induction false} StringRetracts(u: Bytes, tail: Bytes, rest: Bytes)
    requires ReadString(u + tail).Some? && ReadString(u + tail).value.rest == rest + tail
    ensures ReadString(u) == Some(Read(ReadString(u + tail).value.value, rest))
  {
    var x := u + tail;
    assert x[0] == u[0];
    if u[0] == 34 {
      DropJoins(u, tail, 1);
      SameFront(u[1..], rest, tail);
    } else {
      var n := NextPiece(x).value.used;
      assert |ReadString(x[n..]).value.rest| < |x[n..]|;
      DropJoins(u, tail, n);
      PieceRetracts(u, tail);
      StringRetracts(u[n..], tail, rest);
    }
  }

  lemma SameFront(a: Bytes, b: Bytes, tail: Bytes)
    requires a + tail == b + tail
    ensures a == b
  {
    assert |a| == |b|;
    assert (a + tail)[..|a|] == a && (b + tail)[..|b|] == b;
  }

  lemma {:induction false} WsRetracts(u: Bytes, tail: Bytes, rest: Bytes)
    requires SkipWs(u + tail) == rest + tail
    ensures SkipWs(u) == rest
  {
    if u == [] {
      assert u + tail == tail;
    } else {
      assert (u + tail)[0] == u[0];
      if Ws(u[0]) {
        DropJoins(u, tail, 1);
        WsRetracts(u[1..], tail, rest);
      } else {
        SameFront(u, rest, tail);
      }
    }
  }

  lemma {:induction false} DigitsRetract(u: Bytes, tail: Bytes, rest: Bytes)
    requires SkipDigits(u + tail) == rest + tail
    ensures SkipDigits(u) == rest
  {
    if u == [] {
      assert u + tail == tail;
    } else {
      assert (u + tail)[0] == u[0];
      if Digit(u[0]) {
        DropJoins(u, tail, 1);
        DigitsRetract(u[1..], tail, rest);
      } else {
        SameFront(u, rest, tail);
      }
    }
  }

  /** A suffix that is long enough is a shorter one with the tail behind it. */
  lemma SuffixSplits(u: Bytes, tail: Bytes, v: Bytes) returns (front: Bytes)
    requires Suffix(u + tail, v) && |v| >= |tail|
    ensures v == front + tail && |front| <= |u|
  {
    front := v[..|v| - |tail|];
    var n := |u + tail| - |v|;
    assert v == (u + tail)[n..] == u[n..] + tail;
  }

  lemma WholeRetracts(u: Bytes, tail: Bytes, rest: Bytes)
    requires Whole(u + tail) == Some(rest + tail)
    ensures Whole(u) == Some(rest)
  {
    assert u != [] && (u + tail)[0] == u[0];
    DropJoins(u, tail, 1);
    if u[0] == 48 {
      SameFront(u[1..], rest, tail);
    } else {
      DigitsRetract(u[1..], tail, rest);
    }
  }

  lemma FractionRetracts(u: Bytes, tail: Bytes, rest: Bytes)
    requires Fraction(u + tail) == Some(rest + tail)
    ensures Fraction(u) == Some(rest)
  {
    var t := u + tail;
    if u == [] {
      assert t == tail;
      assert rest == [];
    } else if u[0] != 46 {
      assert t[0] == u[0];
      SameFront(u, rest, tail);
    } else {
      assert t[0] == u[0] && |SkipDigits(t[2..])| <= |t| - 2;
      assert |u| >= 2 && t[1] == u[1];
      DropJoins(u, tail, 2);
      DigitsRetract(u[2..], tail, rest);
    }
  }

  lemma ExponentRetracts(u: Bytes, tail: Bytes, rest: Bytes)
    requires Exponent(u + tail) == Some(rest + tail)
    ensures Exponent(u) == Some(rest)
  {
    var t := u + tail;
    if u == [] {
      assert t == tail;
      assert rest == [];
    } else if u[0] != 101 && u[0] != 69 {
      assert t[0] == u[0];
      SameFront(u, rest, tail);
    } else {
      ExponentDigits(u, tail, rest);
    }
  }

  lemma ExponentDigits(u: Bytes, tail: Bytes, rest: Bytes)
    requires Exponent(u + tail) == Some(rest + tail) && u != [] && (u[0] == 101 || u[0] == 69)
    ensures Exponent(u) == Some(rest)
  {
    var t := u + tail;
    assert t[0] == u[0];
    var n := if |t| >= 2 && (t[1] == 43 || t[1] == 45) then 2 else 1;
    var x := t[n..];
    assert |SkipDigits(x[1..])| < |x|;
    assert |u| > n;
    assert t[1] == u[1];
    DropJoins(u, tail, n);
    DropJoins(u[n..], tail, 1);
    assert x[0] == u[n..][0];
    DigitsRetract(u[n..][1..], tail, rest);
  }

  lemma NumberRetracts(u: Bytes, tail: Bytes, rest: Bytes)
    requires Number(u + tail) == Some(rest + tail)
    ensures Number(u) == Some(rest)
  {
    var t := u + tail;
    assert u != [] && t[0] == u[0];
    var n := if t[0] == 45 then 1 else 0;
    DropJoins(u, tail, n);
    var a := u[n..];
    assert t[n..] == a + tail;
    WholeEnds(t[n..]);
    var v := SuffixSplits(a, tail, Whole(t[n..]).value);
    WholeRetracts(a, tail, v);
    FractionEnds(v + tail);
    SuffixOfSelf(v + tail);
    var w := SuffixSplits(v, tail, Fraction(v + tail).value);
    FractionRetracts(v, tail, w);
    ExponentRetracts(w, tail, rest);
  }

  lemma SuffixOfSelf(t: Bytes)
    ensures Suffix(t, t)
  {
    assert t[0..] == t;
  }

  lemma LiteralRetracts(u: Bytes, tail: Bytes, rest: Bytes)
    requires Literal(u + tail) == Some(rest + tail)
    ensures Literal(u) == Some(rest)
  {
    var t := u + tail;
    if Starts(t, TRUE) {
      assert |u| >= 4 && u[..4] == t[..4];
      DropJoins(u, tail, 4);
      SameFront(u[4..], rest, tail);
    } else if Starts(t, FALSE) {
      assert |u| >= 5 && u[..5] == t[..5] && u[..4] == t[..4];
      DropJoins(u, tail, 5);
      SameFront(u[5..], rest, tail);
    } else {
      assert |u| >= 4 && u[..4] == t[..4];
      StartsAlike(u, TRUE);
      StartsAlike(u, FALSE);
      DropJoins(u, tail, 4);
      SameFront(u[4..], rest, tail);
    }
  }

  lemma ScalarRetracts(u: Bytes, tail: Bytes, rest: Bytes, depth: nat)
    requires Value(u + tail) == Some(Span(rest + tail, depth))
    requires u != [] && u[0] != QUOTE && u[0] != OPEN_OBJECT && u[0] != OPEN_LIST
    ensures Value(u) == Some(Span(rest, depth))
  {
    assert (u + tail)[0] == u[0];
    if Literal(u + tail).Some? {
      LiteralRetracts(u, tail, rest);
    } else {
      NumberRetracts(u, tail, rest);
      NoLiteral(u, []);
      assert u + [] == u;
    }
  }

  lemma {:induction false} ValueRetracts(u: Bytes, tail: Bytes, rest: Bytes, depth: nat)
    requires Value(u + tail) == Some(Span(rest + tail, depth))
    ensures Value(u) == Some(Span(rest, depth))
    decreases |u|, 1
  {
    assert u != [] && (u + tail)[0] == u[0];
    DropJoins(u, tail, 1);
    if u[0] == QUOTE {
      StringRetracts(u[1..], tail, rest);
    } else if u[0] == OPEN_OBJECT {
      ObjectRetracts(u[1..], tail, rest);
    } else if u[0] == OPEN_LIST {
      ListRetracts(u[1..], tail, rest);
    } else {
      ScalarRetracts(u, tail, rest, depth);
    }
  }

  lemma {:induction false} ListRetracts(u: Bytes, tail: Bytes, rest: Bytes)
    requires List(u + tail).Some? && List(u + tail).value.rest == rest + tail
    ensures List(u) == Some(Span(rest, List(u + tail).value.depth))
    decreases |u|, 3
  {
    WsIsSuffix(u + tail);
    var v := SuffixSplits(u, tail, SkipWs(u + tail));
    WsRetracts(u, tail, v);
    assert v != [] && (v + tail)[0] == v[0];
    if v[0] == CLOSE_LIST {
      DropJoins(v, tail, 1);
      SameFront(v[1..], rest, tail);
    } else {
      ElementsRetract(v, tail, rest);
    }
  }

  lemma {:induction false} ObjectRetracts(u: Bytes, tail: Bytes, rest: Bytes)
    requires Object(u + tail).Some? && Object(u + tail).value.rest == rest + tail
    ensures Object(u) == Some(Object(u + tail).value.(rest := rest))
    decreases |u|, 3
  {
    WsIsSuffix(u + tail);
    var v := SuffixSplits(u, tail, SkipWs(u + tail));
    WsRetracts(u, tail, v);
    assert v != [] && (v + tail)[0] == v[0];
    if v[0] == CLOSE_OBJECT {
      DropJoins(v, tail, 1);
      SameFront(v[1..], rest, tail);
    } else {
      MembersRetract(v, tail, rest);
    }
  }

  /** One separator and the whitespace behind it. */
  lemma SeparatorRetracts(w: Bytes, tail: Bytes) returns (next: Bytes)
    requires w != [] && |SkipWs((w + tail)[1..])| >= |tail|
    ensures SkipWs((w + tail)[1..]) == next + tail && next == SkipWs(w[1..]) && |next| < |w|
  {
    DropJoins(w, tail, 1);
    WsIsSuffix(w[1..] + tail);
    next := SuffixSplits(w[1..], tail, SkipWs(w[1..] + tail));
    WsRetracts(w[1..], tail, next);
  }

  /** The element in front, without what follows it and the whitespace behind. */
  lemma ElementRetracts(u: Bytes, tail: Bytes) returns (v: Bytes, w: Bytes)
    requires Value(u + tail).Some? && |SkipWs(Value(u + tail).value.rest)| >= |tail|
    requires forall v, depth :: Value(u + tail) == Some(Span(v + tail, depth)) ==> Value(u) == Some(Span(v, depth))
    ensures Value(u) == Some(Span(v, Value(u + tail).value.depth)) && SkipWs(v) == w
    ensures SkipWs(Value(u + tail).value.rest) == w + tail
  {
    var s := Value(u + tail).value;
    ValueEnds(u + tail);
    v := SuffixSplits(u, tail, s.rest);
    assert Value(u + tail) == Some(Span(v + tail, s.depth));
    WsIsSuffix(v + tail);
    w := SuffixSplits(v, tail, SkipWs(v + tail));
    WsRetracts(v, tail, w);
  }

  lemma {:induction false} ElementsRetract(u: Bytes, tail: Bytes, rest: Bytes)
    requires Elements(u + tail).Some? && Elements(u + tail).value.rest == rest + tail
    ensures Elements(u) == Some(Span(rest, Elements(u + tail).value.depth))
    decreases |u|, 2
  {
    forall v, depth | Value(u + tail) == Some(Span(v + tail, depth)) ensures Value(u) == Some(Span(v, depth)) {
      ValueRetracts(u, tail, v, depth);
    }
    var v, w := ElementRetracts(u, tail);
    assert w != [] && (w + tail)[0] == w[0];
    if w[0] == CLOSE_LIST {
      DropJoins(w, tail, 1);
      SameFront(w[1..], rest, tail);
    } else {
      var next := SeparatorRetracts(w, tail);
      ElementsRetract(next, tail, rest);
    }
  }

  lemma KeyRetracts(u: Bytes, tail: Bytes, rest: Bytes)
    requires Key(u + tail).Some? && Key(u + tail).value.rest == rest + tail
    ensures Key(u) == Some(Read(Key(u + tail).value.value, rest))
  {
    assert u != [] && (u + tail)[0] == u[0];
    DropJoins(u, tail, 1);
    var k := ReadString(u[1..] + tail).value;
    StringEnds(u[1..] + tail);
    var v := SuffixSplits(u[1..], tail, k.rest);
    StringRetracts(u[1..], tail, v);
    WsIsSuffix(v + tail);
    var w := SuffixSplits(v, tail, SkipWs(v + tail));
    WsRetracts(v, tail, w);
    assert w != [] && (w + tail)[0] == w[0];
    var next := SeparatorRetracts(w, tail);
    SameFront(next, rest, tail);
  }

  lemma {:induction false} FirstRetracts(u: Bytes, tail: Bytes, rest: Bytes)
    requires First(u + tail).Some? && First(u + tail).value.rest == rest + tail
    ensures First(u) == Some(First(u + tail).value.(rest := rest))
    decreases |u|, 1
  {
    var k := Key(u + tail).value;
    KeyEnds(u + tail);
    var v := SuffixSplits(u, tail, k.rest);
    KeyRetracts(u, tail, v);
    var s := Value(v + tail).value;
    ValueEnds(v + tail);
    var w := SuffixSplits(v, tail, s.rest);
    ValueRetracts(v, tail, w, s.depth);
    WsRetracts(w, tail, rest);
    var m := Member(k.value, v[..|v| - |w|]);
    assert (v + tail)[..|v + tail| - |s.rest|] == m.raw;
    FirstFrom(u, m, v, w, rest, s.depth);
  }

  lemma {:induction false} MembersRetract(u: Bytes, tail: Bytes, rest: Bytes)
    requires Members(u + tail).Some? && Members(u + tail).value.rest == rest + tail
    ensures Members(u) == Some(Members(u + tail).value.(rest := rest))
    decreases |u|, 2
  {
    var f := First(u + tail).value;
    FirstEnds(u + tail);
    var w := SuffixSplits(u, tail, f.rest);
    FirstRetracts(u, tail, w);
    assert w != [] && (w + tail)[0] == w[0];
    if w[0] == CLOSE_OBJECT {
      DropJoins(w, tail, 1);
      SameFront(w[1..], rest, tail);
    } else {
      var next := SeparatorRetracts(w, tail);
      MembersRetract(next, tail, rest);
    }
  }

  lemma FirstEnds(t: Bytes)
    requires First(t).Some?
    ensures Suffix(t, First(t).value.rest)
  {
    var k := Key(t).value.rest;
    KeyEnds(t);
    ValueEnds(k);
    SuffixThrough(t, k, Value(k).value.rest);
    WsIsSuffix(Value(k).value.rest);
    SuffixThrough(t, Value(k).value.rest, First(t).value.rest);
  }

  /** A value on its own reads as itself. */
  lemma ValueAlone(t: Bytes)
    requires Value(t).Some?
    ensures var s := Value(t).value; Value(t[..|t| - |s.rest|]) == Some(Span([], s.depth))
  {
    var s := Value(t).value;
    var u := t[..|t| - |s.rest|];
    ValueEnds(t);
    assert u + s.rest == t && [] + s.rest == s.rest;
    ValueRetracts(u, s.rest, [], s.depth);
  }
}
