/** The texts the JSON reader accepts, against the grammar of RFC 8259 written from the other side: as everything that
a tree can be spelled as. */
module JsonGrammar {
  import opened Common
  import opened Text
  import opened Json
  import opened JsonLemmas

  // The grammar

  predicate Space(ws: Bytes) {
    forall i :: 0 <= i < |ws| ==> ws[i] in {' ' as int, '\t' as int, '\n' as int, '\r' as int}
  }

  predicate Numeral(b: Byte) { '0' as int <= b <= '9' as int }

  predicate Numerals(s: Bytes) {
    forall i :: 0 <= i < |s| ==> Numeral(s[i])
  }

  predicate HexNumeral(b: Byte) {
    Numeral(b) || 'a' as int <= b <= 'f' as int || 'A' as int <= b <= 'F' as int
  }

  /** What stands between the quotes of a string (section 7). */
  predicate Chars(s: Bytes) {
    s == []
    || (s[0] >= 0x20 && s[0] != '\"' as int && s[0] != '\\' as int && Chars(s[1..]))
    || (s[0] == '\\' as int && |s| >= 2 && ShortEscape(s[1]) && Chars(s[2..]))
    || (s[0] == '\\' as int && |s| >= 6 && s[1] == 'u' as int && Chars(s[6..])
        && HexNumeral(s[2]) && HexNumeral(s[3]) && HexNumeral(s[4]) && HexNumeral(s[5]))
  }

  predicate ShortEscape(b: Byte) {
    b in {'\"' as int, '\\' as int, '/' as int, 'b' as int, 'f' as int, 'n' as int, 'r' as int, 't' as int}
  }

  datatype Power = NoPower | Power(e: Byte, sign: Bytes, digits: Bytes)

  /** A number (section 6). */
  datatype Figure = Figure(minus: bool, whole: Bytes, fraction: Bytes, power: Power) {
    predicate Wf() {
      && Numerals(whole) && (|whole| == 1 || (|whole| > 1 && whole[0] != '0' as int))
      && Numerals(fraction)
      && (power.Power? ==>
            && (power.e == 'e' as int || power.e == 'E' as int)
            && (power.sign == [] || power.sign == ['+' as int] || power.sign == ['-' as int])
            && power.digits != [] && Numerals(power.digits))
    }

    function Spelled(): Bytes { (if minus then ['-' as int] else []) + whole + Behind() }

    function Behind(): Bytes { (if fraction == [] then [] else ['.' as int] + fraction) + Exp() }

    function Exp(): Bytes { if power.NoPower? then [] else [power.e] + power.sign + power.digits }
  }

  datatype Node =
    | Word(word: string)
    | Text(chars: Bytes)
    | Number(figure: Figure)
    | Array(blank: Bytes, items: Items)
    | Object(blank: Bytes, pairs: Pairs)

  datatype Items = NoItems | Item(before: Bytes, value: Node, after: Bytes, later: Items)

  datatype Pairs = NoPairs | Pair(before: Bytes, name: Bytes, gap: Bytes, front: Bytes, value: Node, after: Bytes,
                                  later: Pairs)

  predicate Wf(n: Node) {
    match n
    case Word(word) => word in {"true", "false", "null"}
    case Text(chars) => Chars(chars)
    case Number(figure) => figure.Wf()
    case Array(blank, items) => Space(blank) && WfItems(items)
    case Object(blank, pairs) => Space(blank) && WfPairs(pairs)
  }

  predicate WfItems(items: Items) {
    items.Item? ==> Space(items.before) && Wf(items.value) && Space(items.after) && WfItems(items.later)
  }

  predicate WfPairs(pairs: Pairs) {
    pairs.Pair? ==>
      && Space(pairs.before) && Chars(pairs.name) && Space(pairs.gap) && Space(pairs.front)
      && Wf(pairs.value) && Space(pairs.after) && WfPairs(pairs.later)
  }

  function Quoted(chars: Bytes): Bytes { ['\"' as int] + chars + ['\"' as int] }

  function Spelled(n: Node): Bytes
    requires Wf(n)
  {
    match n
    case Word(word) => Ascii(word)
    case Text(chars) => Quoted(chars)
    case Number(figure) => figure.Spelled()
    case Array(blank, items) => ['[' as int] + (if items.NoItems? then blank else SpelledItems(items)) + [']' as int]
    case Object(blank, pairs) => ['{' as int] + (if pairs.NoPairs? then blank else SpelledPairs(pairs)) + ['}' as int]
  }

  function SpelledItems(items: Items): Bytes
    requires items.Item? && WfItems(items)
  {
    items.before + Spelled(items.value) + items.after
    + if items.later.NoItems? then [] else [',' as int] + SpelledItems(items.later)
  }

  function SpelledPairs(pairs: Pairs): Bytes
    requires pairs.Pair? && WfPairs(pairs)
  {
    pairs.before + Quoted(pairs.name) + pairs.gap + [':' as int] + pairs.front + Spelled(pairs.value) + pairs.after
    + if pairs.later.NoPairs? then [] else [',' as int] + SpelledPairs(pairs.later)
  }

  /** How deep brackets and braces nest. */
  function Nesting(n: Node): nat {
    match n
    case Array(_, items) => 1 + ItemsNesting(items)
    case Object(_, pairs) => 1 + PairsNesting(pairs)
    case _ => 0
  }

  function ItemsNesting(items: Items): nat {
    if items.NoItems? then 0 else Max(Nesting(items.value), ItemsNesting(items.later))
  }

  function PairsNesting(pairs: Pairs): nat {
    if pairs.NoPairs? then 0 else Max(Nesting(pairs.value), PairsNesting(pairs.later))
  }

  /** A text that is one value with white space around it. */
  ghost predicate Spells(t: Bytes, before: Bytes, n: Node, after: Bytes) {
    Space(before) && Wf(n) && Space(after) && t == before + Spelled(n) + after
  }

  // What the grammar allows is accepted

  lemma {:induction false} SkipsSpace(ws: Bytes, t: Bytes)
    requires Space(ws) && (t == [] || !Ws(t[0]))
    ensures SkipWs(ws + t) == t
  {
    if ws == [] {
      assert ws + t == t;
    } else {
      DropJoins(ws, t, 1);
      SkipsSpace(ws[1..], t);
    }
  }

  lemma {:induction false} SkipsNumerals(s: Bytes, t: Bytes)
    requires Numerals(s) && (t == [] || !Digit(t[0]))
    ensures SkipDigits(s + t) == t
  {
    if s == [] {
      assert s + t == t;
    } else {
      DropJoins(s, t, 1);
      SkipsNumerals(s[1..], t);
    }
  }

  lemma FourHexReads(s: Bytes)
    requires |s| >= 4 && HexNumeral(s[0]) && HexNumeral(s[1]) && HexNumeral(s[2]) && HexNumeral(s[3])
    ensures FourHex(s).Some?
  {
  }

  lemma {:induction false} CharsRead(s: Bytes)
    requires Chars(s)
    ensures ReadString(s + [34]).Some? && ReadString(s + [34]).value.rest == []
    decreases |s|
  {
    var t := s + [34];
    if s == [] {
    } else if s[0] != 92 {
      DropJoins(s, [34], 1);
      CharsRead(s[1..]);
    } else if s[1] != 117 {
      DropJoins(s, [34], 2);
      CharsRead(s[2..]);
    } else {
      UnicodeReads(s);
      var n := NextPiece(t).value.used;
      DropJoins(s, [34], n);
      CharsRead(s[n..]);
    }
  }

  /** A \u escape is read alone or with the one behind it. */
  lemma UnicodeReads(s: Bytes)
    requires |s| >= 6 && s[0] == 92 && s[1] == 117 && Chars(s)
    ensures var p := NextPiece(s + [34]); p.Some? && p.value.used <= |s| && Chars(s[p.value.used..])
  {
    var t := s + [34];
    DropJoins(s, [34], 2);
    FourHexReads(t[2..]);
    if |t| >= 12 && t[6] == 92 && t[7] == 117 {
      var u := s[6..];
      assert |s| >= 11;
      assert u[0] == 92 && u[1] == 117 && Chars(u);
      assert |u| >= 6 && u[6..] == s[12..];
    }
  }

  lemma WholeReads(f: Figure)
    requires f.Wf()
    ensures Whole(f.whole + f.Behind()) == Some(f.Behind())
  {
    var t := f.whole + f.Behind();
    DropJoins(f.whole, f.Behind(), 1);
    if f.whole[0] == 48 {
      assert f.whole[1..] == [];
    } else {
      SkipsNumerals(f.whole[1..], f.Behind());
    }
  }

  lemma FractionReads(f: Figure)
    requires f.Wf()
    ensures Fraction(f.Behind()) == Some(f.Exp())
  {
    if f.fraction != [] {
      var t := f.Behind();
      assert t[2..] == f.fraction[1..] + f.Exp();
      SkipsNumerals(f.fraction[1..], f.Exp());
    } else {
      assert [] + f.Exp() == f.Exp();
    }
  }

  lemma ExponentReads(f: Figure)
    requires f.Wf()
    ensures Exponent(f.Exp()) == Some([])
  {
    if f.power.Power? {
      var t, digits := f.Exp(), f.power.digits;
      if f.power.sign == [] {
        assert t[1..] == digits;
      } else {
        assert t[2..] == digits;
      }
      SkipsNumerals(digits[1..], []);
      assert digits[1..] + [] == digits[1..];
    }
  }

  lemma FigureReads(f: Figure)
    requires f.Wf()
    ensures var t := f.Spelled(); Json.Number(t) == Some([]) && t != [] && (t[0] == 45 || Digit(t[0]))
  {
    var t := f.Spelled();
    if f.minus {
      assert t[1..] == f.whole + f.Behind();
    } else {
      assert t == f.whole + f.Behind();
    }
    WholeReads(f);
    FractionReads(f);
    ExponentReads(f);
  }

  lemma WordReads(word: string)
    requires word in {"true", "false", "null"}
    ensures Value(Ascii(word)) == Some(Span([], 0))
  {
    if word == "true" {
      assert Ascii(word) == TRUE;
    } else if word == "false" {
      assert Ascii(word) == FALSE;
      StartsAlike(FALSE, TRUE);
    } else {
      assert Ascii(word) == NULL;
      StartsAlike(NULL, TRUE);
      StartsAlike(NULL, FALSE);
    }
  }

  lemma TextReads(chars: Bytes)
    requires Chars(chars)
    ensures Value(Quoted(chars)) == Some(Span([], 0))
  {
    CharsRead(chars);
    assert Quoted(chars)[1..] == chars + [34];
  }

  lemma NumberReads(f: Figure)
    requires f.Wf()
    ensures Value(f.Spelled()) == Some(Span([], 0)) && !Ws(f.Spelled()[0])
  {
    FigureReads(f);
    NoLiteral(f.Spelled(), []);
    assert f.Spelled() + [] == f.Spelled();
  }

  /** A pair of brackets around what reads behind the opening one. */
  lemma ListReads(inner: Bytes, depth: nat)
    requires List(inner + [93]) == Some(Span([], depth))
    ensures Value([91] + inner + [93]) == Some(Span([], 1 + depth))
  {
    assert ([91] + inner + [93])[1..] == inner + [93];
  }

  lemma ObjectReads(inner: Bytes, b: Body)
    requires Json.Object(inner + [125]) == Some(b) && b.rest == []
    ensures Value([123] + inner + [125]) == Some(Span([], 1 + b.depth))
  {
    assert ([123] + inner + [125])[1..] == inner + [125];
  }

  /** Every spelling of a node reads as one value, as deep as the node. */
  lemma {:induction false} NodeReads(n: Node)
    requires Wf(n)
    ensures Value(Spelled(n)) == Some(Span([], Nesting(n))) && !Ws(Spelled(n)[0])
  {
    match n
    case Word(word) => WordReads(word);
    case Text(chars) => TextReads(chars);
    case Number(figure) => NumberReads(figure);
    case Array(blank, items) =>
      ListInside(blank, items);
      ListReads(if items.NoItems? then blank else SpelledItems(items), ItemsNesting(items));
    case Object(blank, pairs) =>
      ObjectInside(blank, pairs);
      ObjectReads(if pairs.NoPairs? then blank else SpelledPairs(pairs), Body(Kept(pairs), [], PairsNesting(pairs)));
  }

  lemma {:induction false} ListInside(blank: Bytes, items: Items)
    requires Space(blank) && WfItems(items)
    ensures List((if items.NoItems? then blank else SpelledItems(items)) + [93]) == Some(Span([], ItemsNesting(items)))
    decreases items, 1
  {
    if items.NoItems? {
      SkipsSpace(blank, [93]);
    } else {
      ItemsRead(items);
    }
  }

  lemma {:induction false} ObjectInside(blank: Bytes, pairs: Pairs)
    requires Space(blank) && WfPairs(pairs)
    ensures Json.Object((if pairs.NoPairs? then blank else SpelledPairs(pairs)) + [125])
         == Some(Body(Kept(pairs), [], PairsNesting(pairs)))
    decreases pairs, 1
  {
    if pairs.NoPairs? {
      SkipsSpace(blank, [125]);
    } else {
      PairsRead(pairs);
    }
  }

  lemma ElementsRead(v: Bytes, depth: nat, after: Bytes, back: Bytes)
    requires Value(v) == Some(Span([], depth)) && Space(after) && back != []
    requires back[0] == CLOSE_LIST || (back[0] == COMMA && Elements(SkipWs(back[1..])).Some?)
    ensures Elements(v + (after + back)) ==
            if back[0] == CLOSE_LIST then Some(Span(back[1..], depth))
            else
              var s := Elements(SkipWs(back[1..])).value;
              Some(Span(s.rest, Max(depth, s.depth)))
  {
    ValueExtends(v, after + back);
    assert [] + (after + back) == after + back;
    SkipsSpace(after, back);
  }

  lemma {:induction false} ItemsRead(items: Items)
    requires items.Item? && WfItems(items)
    ensures var u := SkipWs(SpelledItems(items) + [93]);
            u != [] && u[0] != CLOSE_LIST && Elements(u) == Some(Span([], ItemsNesting(items)))
    decreases items, 0
  {
    var v := Spelled(items.value);
    var more := if items.later.NoItems? then [] else [44] + SpelledItems(items.later);
    var back := more + [93];
    NodeReads(items.value);
    ValueStarts(v);
    ItemAssociates(items.before, v, items.after, more);
    SkipsSpace(items.before, v + (items.after + back));
    if items.later.Item? {
      ItemsRead(items.later);
      assert back[1..] == SpelledItems(items.later) + [93];
    }
    ElementsRead(v, Nesting(items.value), items.after, back);
  }

  lemma ValueStarts(v: Bytes)
    requires Value(v).Some?
    ensures v != [] && v[0] != CLOSE_LIST && v[0] != CLOSE_OBJECT && v[0] != COMMA && v[0] != COLON
  {
    StartsAlike(v, TRUE);
    StartsAlike(v, FALSE);
    StartsAlike(v, NULL);
  }

  lemma ItemAssociates(a: Bytes, b: Bytes, c: Bytes, d: Bytes)
    ensures a + b + c + d + [93] == a + (b + (c + (d + [93])))
  {
  }

  /** What the characters of a string stand for. */
  function Meaning(chars: Bytes): Bytes {
    match ReadString(chars + [34])
    case Some(r) => r.value
    case None => []
  }

  /** The members as a reader keeps them: the name read, the value as it is spelled. */
  function Kept(pairs: Pairs): seq<Member>
    requires WfPairs(pairs)
  {
    if pairs.NoPairs? then [] else [Member(Meaning(pairs.name), Spelled(pairs.value))] + Kept(pairs.later)
  }

  lemma Cuts(open: Byte, inner: Bytes, close: Byte, rest: Bytes)
    ensures var t := [open] + inner + [close] + rest; t[0] == open && t[1..] == inner + [close] + rest
    ensures [open] + inner + [close] + rest == [open] + (inner + ([close] + rest))
  {
  }

  lemma NameReads(name: Bytes, behind: Bytes)
    requires Chars(name)
    ensures Quoted(name) + behind != [] && (Quoted(name) + behind)[0] == QUOTE
    ensures ReadString((Quoted(name) + behind)[1..]) == Some(Read(Meaning(name), behind))
  {
    CharsRead(name);
    Cuts(34, name, 34, behind);
    StringExtends(name + [34], behind);
    NothingInFront(behind);
  }

  lemma KeyReads(name: Bytes, gap: Bytes, front: Bytes, rest: Bytes)
    requires Chars(name) && Space(gap) && Space(front) && rest != [] && !Ws(rest[0])
    ensures Key(Quoted(name) + (gap + ([COLON] + (front + rest)))) == Some(Read(Meaning(name), rest))
  {
    var colon := [COLON] + (front + rest);
    NameReads(name, gap + colon);
    SkipsSpace(gap, colon);
    assert colon[1..] == front + rest;
    SkipsSpace(front, rest);
  }

  lemma FirstReads(name: Bytes, gap: Bytes, front: Bytes, v: Bytes, depth: nat, after: Bytes, back: Bytes)
    requires Chars(name) && Space(gap) && Space(front) && Space(after)
    requires Value(v) == Some(Span([], depth)) && !Ws(v[0]) && back != [] && back[0] in {COMMA, CLOSE_OBJECT}
    ensures First(Quoted(name) + (gap + ([COLON] + (front + (v + (after + back))))))
         == Some(Front(Member(Meaning(name), v), back, depth))
  {
    var rest := v + (after + back);
    KeyReads(name, gap, front, rest);
    ValueExtends(v, after + back);
    assert [] + (after + back) == after + back;
    SkipsSpace(after, back);
    assert rest[..|rest| - |after + back|] == v;
  }

  lemma MembersRead(u: Bytes, m: Member, back: Bytes, depth: nat)
    requires First(u) == Some(Front(m, back, depth)) && back != []
    requires back[0] == CLOSE_OBJECT || (back[0] == COMMA && Members(SkipWs(back[1..])).Some?)
    ensures Members(u) ==
            if back[0] == CLOSE_OBJECT then Some(Body([m], back[1..], depth))
            else
              var b := Members(SkipWs(back[1..])).value;
              Some(Body([m] + b.members, b.rest, Max(depth, b.depth)))
  {
  }

  /** What is left of the pairs and their brace once the space in front is skipped. */
  function FromName(pairs: Pairs): Bytes
    requires pairs.Pair? && WfPairs(pairs)
  {
    Quoted(pairs.name)
    + (pairs.gap + ([COLON] + (pairs.front + (Spelled(pairs.value) + (pairs.after + Later(pairs.later))))))
  }

  /** What follows a member. */
  function Later(pairs: Pairs): Bytes
    requires WfPairs(pairs)
  {
    (if pairs.NoPairs? then [] else [44] + SpelledPairs(pairs)) + [125]
  }

  lemma PairsSkip(pairs: Pairs)
    requires pairs.Pair? && WfPairs(pairs)
    ensures SkipWs(SpelledPairs(pairs) + [125]) == FromName(pairs)
  {
    var more := if pairs.later.NoPairs? then [] else [44] + SpelledPairs(pairs.later);
    PairAssociates(pairs.before, Quoted(pairs.name), pairs.gap, pairs.front, Spelled(pairs.value), pairs.after, more);
    SkipsSpace(pairs.before, FromName(pairs));
  }

  lemma LaterStarts(pairs: Pairs)
    requires WfPairs(pairs)
    ensures var back := Later(pairs);
            && back != []
            && if pairs.NoPairs? then back[0] == CLOSE_OBJECT && back[1..] == []
               else back[0] == COMMA && back[1..] == SpelledPairs(pairs) + [125]
  {
  }

  lemma FirstIs(pairs: Pairs)
    requires pairs.Pair? && WfPairs(pairs)
    requires Value(Spelled(pairs.value)) == Some(Span([], Nesting(pairs.value))) && !Ws(Spelled(pairs.value)[0])
    ensures First(FromName(pairs))
         == Some(Front(Member(Meaning(pairs.name), Spelled(pairs.value)), Later(pairs.later), Nesting(pairs.value)))
  {
    LaterStarts(pairs.later);
    FirstReads(pairs.name, pairs.gap, pairs.front, Spelled(pairs.value), Nesting(pairs.value), pairs.after,
               Later(pairs.later));
  }

  lemma KeptGrows(pairs: Pairs)
    requires pairs.Pair? && WfPairs(pairs)
    ensures Kept(pairs) == [Member(Meaning(pairs.name), Spelled(pairs.value))] + Kept(pairs.later)
    ensures pairs.later.NoPairs? ==> Kept(pairs) == [Member(Meaning(pairs.name), Spelled(pairs.value))]
  {
  }

  lemma {:induction false} PairsRead(pairs: Pairs)
    requires pairs.Pair? && WfPairs(pairs)
    ensures var u := SkipWs(SpelledPairs(pairs) + [125]);
            u != [] && u[0] == QUOTE && Members(u) == Some(Body(Kept(pairs), [], PairsNesting(pairs)))
    decreases pairs, 0
  {
    NodeReads(pairs.value);
    PairsSkip(pairs);
    FirstIs(pairs);
    LaterStarts(pairs.later);
    KeptGrows(pairs);
    if pairs.later.Pair? {
      PairsRead(pairs.later);
    }
    MembersRead(FromName(pairs), Kept(pairs)[0], Later(pairs.later), Nesting(pairs.value));
  }

  lemma PairAssociates(a: Bytes, b: Bytes, c: Bytes, d: Bytes, e: Bytes, f: Bytes, g: Bytes)
    ensures a + b + c + [COLON] + d + e + f + g + [125] == a + (b + (c + ([COLON] + (d + (e + (f + (g + [125])))))))
  {
  }

  // What is accepted is in the grammar

  lemma {:induction false} SpaceSplits(t: Bytes) returns (ws: Bytes)
    ensures Space(ws) && t == ws + SkipWs(t)
  {
    if t != [] && Ws(t[0]) {
      var more := SpaceSplits(t[1..]);
      ws := [t[0]] + more;
      assert t == [t[0]] + t[1..];
    } else {
      ws := [];
      assert t == [] + t;
    }
  }

  lemma {:induction false} NumeralsSplit(t: Bytes) returns (digits: Bytes)
    ensures Numerals(digits) && t == digits + SkipDigits(t)
  {
    if t != [] && Digit(t[0]) {
      var more := NumeralsSplit(t[1..]);
      digits := [t[0]] + more;
      assert t == [t[0]] + t[1..];
    } else {
      digits := [];
      assert t == [] + t;
    }
  }

  lemma {:induction false} CharsSplit(t: Bytes) returns (chars: Bytes)
    requires ReadString(t).Some?
    ensures Chars(chars) && t == chars + ([34] + ReadString(t).value.rest)
    decreases |t|
  {
    if t[0] == 34 {
      chars := [];
    } else {
      var n := NextPiece(t).value.used;
      var more := CharsSplit(t[n..]);
      PieceIsChars(t, more);
      chars := t[..n] + more;
      Puts(t, n, more, [34] + ReadString(t).value.rest);
    }
  }

  lemma Puts(t: Bytes, n: nat, more: Bytes, behind: Bytes)
    requires n <= |t| && t[n..] == more + behind
    ensures t == t[..n] + more + behind
  {
    assert t == t[..n] + t[n..];
  }

  lemma PieceIsChars(t: Bytes, more: Bytes)
    requires t != [] && t[0] != 34 && NextPiece(t).Some? && Chars(more)
    ensures Chars(t[..NextPiece(t).value.used] + more)
  {
    var n := NextPiece(t).value.used;
    FrontStays(t, n, more);
    if t[0] == 92 && t[1] == 117 {
      UnicodeIsChars(t, more);
    }
  }

  lemma FrontStays(t: Bytes, n: nat, more: Bytes)
    requires n <= |t|
    ensures |t[..n] + more| == n + |more| && (t[..n] + more)[n..] == more
    ensures forall i :: 0 <= i < n ==> (t[..n] + more)[i] == t[i]
  {
  }

  lemma UnicodeIsChars(t: Bytes, more: Bytes)
    requires |t| >= 2 && t[0] == 92 && t[1] == 117 && NextPiece(t).Some? && Chars(more)
    ensures Chars(t[..NextPiece(t).value.used] + more)
  {
    var n := NextPiece(t).value.used;
    var s := t[..n] + more;
    FrontStays(t, n, more);
    if n == 12 {
      assert s[6..][6..] == more;
      assert Chars(s[6..]);
    }
  }

  lemma NameReadsOn(chars: Bytes, rest: Bytes)
    requires Chars(chars)
    ensures ReadString(chars + ([34] + rest)) == Some(Read(Meaning(chars), rest))
  {
    NameReads(chars, rest);
    QuotedBehind(chars, rest);
  }

  lemma QuotedBehind(chars: Bytes, rest: Bytes)
    ensures (Quoted(chars) + rest)[1..] == chars + ([34] + rest)
  {
  }

  lemma NameSplits(t: Bytes) returns (chars: Bytes)
    requires ReadString(t).Some?
    ensures Chars(chars) && ReadString(t).value.value == Meaning(chars)
    ensures t == chars + ([34] + ReadString(t).value.rest)
  {
    chars := CharsSplit(t);
    NameReadsOn(chars, ReadString(t).value.rest);
  }

  lemma WholeSplits(t: Bytes) returns (whole: Bytes)
    requires Whole(t).Some?
    ensures Numerals(whole) && (|whole| == 1 || (|whole| > 1 && whole[0] != '0' as int)) && t == whole + Whole(t).value
  {
    HeadAndTail(t);
    if t[0] == 48 {
      whole := [48];
    } else {
      var more := NumeralsSplit(t[1..]);
      TwoJoin([t[0]], more, Whole(t).value);
      whole := [t[0]] + more;
    }
  }

  lemma FractionSplits(t: Bytes) returns (fraction: Bytes)
    requires Fraction(t).Some?
    ensures Numerals(fraction) && t == (if fraction == [] then [] else ['.' as int] + fraction) + Fraction(t).value
  {
    fraction := [];
    if t != [] && t[0] == 46 {
      var more := NumeralsSplit(t[2..]);
      fraction := [t[1]] + more;
      assert t == [46] + [t[1]] + t[2..];
      assert t == [46] + fraction + Fraction(t).value;
    } else {
      assert [] + t == t;
    }
  }

  lemma ExponentSplits(t: Bytes) returns (power: Power)
    requires Exponent(t).Some?
    ensures Figure(false, ['0' as int], [], power).Wf()
    ensures t == Figure(false, ['0' as int], [], power).Exp() + Exponent(t).value
  {
    if t != [] && (t[0] == 101 || t[0] == 69) {
      var n := if |t| >= 2 && (t[1] == 43 || t[1] == 45) then 2 else 1;
      var u := t[n..];
      var more := NumeralsSplit(u[1..]);
      assert Exponent(t) == Some(SkipDigits(u[1..]));
      var sign: Bytes := if n == 2 then [t[1]] else [];
      power := Power(t[0], sign, [u[0]] + more);
      assert t == [t[0]] + sign + u && u == [u[0]] + u[1..];
      PowerJoins([t[0]], sign, [u[0]], more, Exponent(t).value);
    } else {
      power := NoPower;
      assert [] + t == t;
    }
  }

  lemma PowerJoins(a: Bytes, b: Bytes, c: Bytes, d: Bytes, e: Bytes)
    ensures a + b + (c + (d + e)) == a + b + (c + d) + e
  {
  }

  lemma FigureOf(t: Bytes) returns (f: Figure)
    requires Json.Number(t).Some?
    ensures f.Wf() && t == f.Spelled() + Json.Number(t).value
  {
    var minus := t != [] && t[0] == 45;
    var u := if minus then t[1..] else t;
    var whole := WholeSplits(u);
    var fraction := FractionSplits(Whole(u).value);
    var power := ExponentSplits(Fraction(Whole(u).value).value);
    f := Figure(minus, whole, fraction, power);
    FigureJoins(if minus then [45] else [], whole, if fraction == [] then [] else [46] + fraction, f.Exp(),
                Json.Number(t).value);
    assert t == (if minus then [45] else []) + u;
  }

  lemma FigureJoins(a: Bytes, b: Bytes, c: Bytes, d: Bytes, e: Bytes)
    ensures a + (b + (c + (d + e))) == a + b + (c + d) + e
  {
  }

  lemma WordOf(t: Bytes) returns (word: string)
    requires Literal(t).Some?
    ensures word in {"true", "false", "null"} && t == Ascii(word) + Literal(t).value
  {
    word := if Starts(t, TRUE) then "true" else if Starts(t, FALSE) then "false" else "null";
    assert Ascii(word) == if Starts(t, TRUE) then TRUE else if Starts(t, FALSE) then FALSE else NULL;
    assert t == t[..|word|] + t[|word|..];
  }

  /** A value that reads is the spelling of a node, as deep as it reads. */
  lemma {:induction false} NodeOf(t: Bytes) returns (n: Node)
    requires Value(t).Some?
    ensures Wf(n) && Nesting(n) == Value(t).value.depth && t == Spelled(n) + Value(t).value.rest
    decreases |t|, 1
  {
    HeadAndTail(t);
    if t[0] == QUOTE {
      var chars := NameSplits(t[1..]);
      n := Text(chars);
      Cuts(34, chars, 34, Value(t).value.rest);
    } else if t[0] == OPEN_OBJECT {
      n := ObjectOfText(t[1..]);
    } else if t[0] == OPEN_LIST {
      n := ListOfText(t[1..]);
    } else if Literal(t).Some? {
      var word := WordOf(t);
      n := Word(word);
    } else {
      var figure := FigureOf(t);
      n := Number(figure);
    }
  }

  lemma BeforeJoins(items: Items, before: Bytes)
    requires items.Item? && items.before == [] && WfItems(items) && Space(before)
    ensures var x := items.(before := before);
            && WfItems(x) && ItemsNesting(x) == ItemsNesting(items)
            && SpelledItems(x) == before + SpelledItems(items)
  {
    var back := if items.later.NoItems? then [] else [44] + SpelledItems(items.later);
    ThreeJoin(before, Spelled(items.value), items.after, back);
    ThreeJoin([], Spelled(items.value), items.after, back);
    NothingInFront(Spelled(items.value) + (items.after + back));
  }

  lemma ThreeJoin(a: Bytes, b: Bytes, c: Bytes, d: Bytes)
    ensures a + b + c + d == a + (b + (c + d))
  {
  }

  lemma NothingInFront(a: Bytes)
    ensures [] + a == a
  {
  }

  lemma ListWith(blank: Bytes, items: Items, rest: Bytes)
    requires Space(blank) && items.Item? && items.before == [] && WfItems(items)
    ensures var n := Array([], items.(before := blank));
            && Wf(n) && Nesting(n) == 1 + ItemsNesting(items)
            && [91] + (blank + (SpelledItems(items) + ([93] + rest))) == Spelled(n) + rest
  {
    BeforeJoins(items, blank);
    Cuts(91, blank + SpelledItems(items), 93, rest);
    TwoJoin(blank, SpelledItems(items), [93] + rest);
  }

  lemma {:induction false} ListOfText(t: Bytes) returns (n: Node)
    requires List(t).Some?
    ensures Wf(n) && Nesting(n) == 1 + List(t).value.depth && [91] + t == Spelled(n) + List(t).value.rest
    decreases |t|, 3
  {
    var u, rest := SkipWs(t), List(t).value.rest;
    var blank := SpaceSplits(t);
    if u[0] == CLOSE_LIST {
      n := Array(blank, NoItems);
      HeadAndTail(u);
      Cuts(91, blank, 93, rest);
    } else {
      var items := ItemsOf(u);
      ListWith(blank, items, rest);
      n := Array([], items.(before := blank));
    }
  }

  lemma {:induction false} ItemsOf(t: Bytes) returns (items: Items)
    requires Elements(t).Some?
    ensures items.Item? && items.before == [] && WfItems(items) && ItemsNesting(items) == Elements(t).value.depth
    ensures t == SpelledItems(items) + ([93] + Elements(t).value.rest)
    decreases |t|, 2
  {
    var value := NodeOf(t);
    var v := Value(t).value;
    var u, rest := SkipWs(v.rest), Elements(t).value.rest;
    var after := SpaceSplits(v.rest);
    if u[0] == CLOSE_LIST {
      items := Item([], value, after, NoItems);
      HeadAndTail(u);
      ItemEnds(Spelled(value), after, [93] + rest);
    } else {
      var before := SpaceSplits(u[1..]);
      var later := ItemsOf(SkipWs(u[1..]));
      BeforeJoins(later, before);
      items := Item([], value, after, later.(before := before));
      HeadAndTail(u);
      ItemGoesOn(Spelled(value), after, before, SpelledItems(later), [93] + rest);
    }
  }

  lemma ItemEnds(v: Bytes, after: Bytes, end: Bytes)
    ensures v + (after + end) == [] + v + after + [] + end
  {
  }

  lemma ItemGoesOn(v: Bytes, after: Bytes, before: Bytes, later: Bytes, end: Bytes)
    ensures v + (after + ([44] + (before + (later + end)))) == [] + v + after + ([44] + (before + later)) + end
  {
  }

  lemma BeforeMembers(pairs: Pairs, before: Bytes)
    requires pairs.Pair? && pairs.before == [] && WfPairs(pairs) && Space(before)
    ensures var x := pairs.(before := before);
            && WfPairs(x) && PairsNesting(x) == PairsNesting(pairs) && Kept(x) == Kept(pairs)
            && SpelledPairs(x) == before + SpelledPairs(pairs)
  {
    var back := if pairs.later.NoPairs? then [] else [44] + SpelledPairs(pairs.later);
    MemberFront(before, Quoted(pairs.name), pairs.gap, pairs.front, Spelled(pairs.value), pairs.after, back);
    KeptGrows(pairs);
    KeptGrows(pairs.(before := before));
  }

  lemma MemberFront(a: Bytes, b: Bytes, c: Bytes, d: Bytes, e: Bytes, f: Bytes, g: Bytes)
    ensures a + b + c + [COLON] + d + e + f + g == a + ([] + b + c + [COLON] + d + e + f + g)
  {
  }

  lemma ObjectWith(blank: Bytes, pairs: Pairs, rest: Bytes)
    requires Space(blank) && pairs.Pair? && pairs.before == [] && WfPairs(pairs)
    ensures var n := Object([], pairs.(before := blank));
            && Wf(n) && Nesting(n) == 1 + PairsNesting(pairs) && Kept(n.pairs) == Kept(pairs)
            && [123] + (blank + (SpelledPairs(pairs) + ([125] + rest))) == Spelled(n) + rest
  {
    BeforeMembers(pairs, blank);
    Cuts(123, blank + SpelledPairs(pairs), 125, rest);
    TwoJoin(blank, SpelledPairs(pairs), [125] + rest);
  }

  lemma TwoJoin(a: Bytes, b: Bytes, c: Bytes)
    ensures a + (b + c) == a + b + c
  {
  }

  lemma {:induction false} ObjectOfText(t: Bytes) returns (n: Node)
    requires Json.Object(t).Some?
    ensures Wf(n) && n.Object? && Kept(n.pairs) == Json.Object(t).value.members
    ensures Nesting(n) == 1 + Json.Object(t).value.depth && [123] + t == Spelled(n) + Json.Object(t).value.rest
    decreases |t|, 3
  {
    var u, rest := SkipWs(t), Json.Object(t).value.rest;
    var blank := SpaceSplits(t);
    if u[0] == CLOSE_OBJECT {
      n := Object(blank, NoPairs);
      HeadAndTail(u);
      Cuts(123, blank, 125, rest);
    } else {
      var pairs := PairsOf(u);
      ObjectWith(blank, pairs, rest);
      n := Object([], pairs.(before := blank));
    }
  }

  /** The member in front, split up. */
  lemma {:induction false} PairOf(t: Bytes) returns (pair: Pairs)
    requires First(t).Some?
    ensures pair.Pair? && pair.before == [] && WfPairs(pair) && pair.later.NoPairs?
    ensures Nesting(pair.value) == First(t).value.depth && Kept(pair) == [First(t).value.member]
    ensures t == SpelledPairs(pair) + First(t).value.rest
    decreases |t|, 1
  {
    var k := Key(t).value;
    var name, gap, front := KeySplits(t);
    var value := NodeOf(k.rest);
    var rest := Value(k.rest).value.rest;
    var after := SpaceSplits(rest);
    pair := Pair([], name, gap, front, value, after, NoPairs);
    assert k.rest[..|k.rest| - |rest|] == Spelled(value);
    KeptGrows(pair);
    MemberSplits(Quoted(name), gap, front, Spelled(value), after, SkipWs(rest));
  }

  lemma MemberSplits(b: Bytes, c: Bytes, d: Bytes, e: Bytes, f: Bytes, g: Bytes)
    ensures b + (c + ([COLON] + (d + (e + (f + g))))) == [] + b + c + [COLON] + d + e + f + [] + g
  {
  }

  lemma KeySplits(t: Bytes) returns (name: Bytes, gap: Bytes, front: Bytes)
    requires Key(t).Some?
    ensures Chars(name) && Space(gap) && Space(front) && Key(t).value.value == Meaning(name)
    ensures t == Quoted(name) + (gap + ([COLON] + (front + Key(t).value.rest)))
  {
    name := NameSplits(t[1..]);
    var r := ReadString(t[1..]).value.rest;
    gap := SpaceSplits(r);
    var u := SkipWs(r);
    front := SpaceSplits(u[1..]);
    HeadAndTail(u);
    HeadAndTail(t);
    Cuts(34, name, 34, r);
  }

  lemma HeadAndTail(t: Bytes)
    requires t != []
    ensures t == [t[0]] + t[1..]
  {
  }

  lemma MembersSplit(t: Bytes)
    requires Members(t).Some?
    ensures First(t).Some? && First(t).value.rest != []
    ensures var f, b := First(t).value, Members(t).value;
            var u := f.rest[1..];
            if f.rest[0] == CLOSE_OBJECT then b == Body([f.member], u, f.depth) && f.rest == [125] + u
            else
              && f.rest == [44] + u && Members(SkipWs(u)).Some?
              && var s := Members(SkipWs(u)).value;
                 b == Body([f.member] + s.members, s.rest, Max(f.depth, s.depth))
  {
  }

  lemma {:induction false} PairsOf(t: Bytes) returns (pairs: Pairs)
    requires Members(t).Some?
    ensures pairs.Pair? && pairs.before == [] && WfPairs(pairs) && PairsNesting(pairs) == Members(t).value.depth
    ensures Kept(pairs) == Members(t).value.members
    ensures t == SpelledPairs(pairs) + ([125] + Members(t).value.rest)
    decreases |t|, 2
  {
    MembersSplit(t);
    var f := First(t).value;
    var pair := PairOf(t);
    if f.rest[0] == CLOSE_OBJECT {
      pairs := pair;
    } else {
      var u := f.rest[1..];
      var before := SpaceSplits(u);
      var later := PairsOf(SkipWs(u));
      MorePairs(pair, before, later, Members(t).value.rest);
      pairs := pair.(later := later.(before := before));
    }
  }

  /** A member, a comma and more members. */
  lemma MorePairs(pair: Pairs, before: Bytes, later: Pairs, rest: Bytes)
    requires pair.Pair? && pair.later.NoPairs? && WfPairs(pair) && Space(before)
    requires later.Pair? && later.before == [] && WfPairs(later)
    ensures var x := pair.(later := later.(before := before));
            && WfPairs(x) && PairsNesting(x) == Max(Nesting(pair.value), PairsNesting(later))
            && Kept(x) == Kept(pair) + Kept(later)
            && SpelledPairs(pair) + ([44] + (before + (SpelledPairs(later) + ([125] + rest))))
               == SpelledPairs(x) + ([125] + rest)
  {
    BeforeMembers(later, before);
    KeptGrows(pair);
    KeptGrows(pair.(later := later.(before := before)));
    SpelledGoesOn(pair, later.(before := before));
    GoesOn(SpelledPairs(pair), before, SpelledPairs(later), [125] + rest);
  }

  lemma GoesOn(a: Bytes, b: Bytes, c: Bytes, d: Bytes)
    ensures a + ([44] + (b + (c + d))) == a + ([44] + (b + c)) + d
  {
  }

  lemma SpelledGoesOn(pair: Pairs, later: Pairs)
    requires pair.Pair? && pair.later.NoPairs? && WfPairs(pair) && later.Pair? && WfPairs(later)
    ensures SpelledPairs(pair.(later := later)) == SpelledPairs(pair) + ([44] + SpelledPairs(later))
  {
  }

  // The main results

  /** A text is accepted with this nesting exactly when it spells a value nested so deep. */
  lemma DocumentIff(t: Bytes, depth: nat)
    ensures (Document(t).Some? && Document(t).value.depth == depth)
            <==> exists before, n, after :: Spells(t, before, n, after) && Nesting(n) == depth
  {
    if Document(t).Some? {
      var before, n, after := DocumentSplits(t);
      assert Spells(t, before, n, after);
    }
    forall before, n, after | Spells(t, before, n, after)
      ensures Document(t).Some? && Document(t).value.depth == Nesting(n)
    {
      SpelledReads(t, before, n, after);
    }
  }

  lemma DocumentSplits(t: Bytes) returns (before: Bytes, n: Node, after: Bytes)
    requires Document(t).Some?
    ensures Spells(t, before, n, after) && Nesting(n) == Document(t).value.depth
  {
    before := SpaceSplits(t);
    n := NodeOf(SkipWs(t));
    after := SpaceSplits(Document(t).value.rest);
    assert after + [] == after;
    TwoJoin(before, Spelled(n), after);
  }

  lemma SpelledReads(t: Bytes, before: Bytes, n: Node, after: Bytes)
    requires Spells(t, before, n, after)
    ensures Document(t) == Some(Span(after, Nesting(n))) && SkipWs(t) == Spelled(n) + after
  {
    NodeReads(n);
    ValueExtends(Spelled(n), after);
    assert [] + after == after && after + [] == after;
    SkipsSpace(before, Spelled(n) + after);
    SkipsSpace(after, []);
    TwoJoin(before, Spelled(n), after);
  }

  /** What json.Valid accepts: the grammar, no deeper than ten thousand. */
  lemma ValidIff(t: Bytes)
    ensures ValidText(t) <==> exists before, n, after :: Spells(t, before, n, after) && Nesting(n) <= 10_000
  {
    if ValidText(t) {
      var before, n, after := DocumentSplits(t);
      assert Spells(t, before, n, after);
    }
    forall before, n, after | Spells(t, before, n, after)
      ensures Document(t).Some? && Document(t).value.depth == Nesting(n)
    {
      SpelledReads(t, before, n, after);
    }
  }

  /** The members read from an object are the ones it spells, in that order and each value as it stands. */
  lemma ObjectKeeps(t: Bytes, before: Bytes, n: Node, after: Bytes)
    requires Spells(t, before, n, after) && Nesting(n) <= 10_000
    ensures ObjectOf(t) == if n.Object? then Some(Kept(n.pairs)) else None
    ensures Document(t).Some? && Trimmed(t) == Spelled(n)
  {
    SpelledReads(t, before, n, after);
    assert (Spelled(n) + after)[..|Spelled(n)|] == Spelled(n);
    if n.Object? {
      MembersKept(n, after);
    } else {
      OtherStarts(n);
    }
  }

  lemma MembersKept(n: Node, after: Bytes)
    requires Wf(n) && n.Object? && Space(after)
    ensures (Spelled(n) + after)[0] == OPEN_OBJECT
    ensures Json.Object((Spelled(n) + after)[1..]) == Some(Body(Kept(n.pairs), after, PairsNesting(n.pairs)))
  {
    ObjectInside(n.blank, n.pairs);
    BraceExtends(if n.pairs.NoPairs? then n.blank else SpelledPairs(n.pairs), after);
  }

  lemma BraceExtends(inner: Bytes, after: Bytes)
    requires Json.Object(inner + [125]).Some? && Json.Object(inner + [125]).value.rest == [] && Space(after)
    ensures var t := [123] + inner + [125] + after;
            t[0] == OPEN_OBJECT && Json.Object(t[1..]) == Some(Json.Object(inner + [125]).value.(rest := after))
  {
    Cuts(123, inner, 125, after);
    ObjectExtends(inner + [125], after);
    NothingInFront(after);
  }

  lemma OtherStarts(n: Node)
    requires Wf(n) && !n.Object?
    ensures Spelled(n) != [] && Spelled(n)[0] != OPEN_OBJECT
  {
    if n.Number? {
      FigureReads(n.figure);
    }
  }
}
