/** JSON values (RFC 8259) as encoding/json accepts them. */
module Json {
  import opened Common
  import opened Text

  const QUOTE: Byte := 34
  const COMMA: Byte := 44
  const COLON: Byte := 58
  const OPEN_LIST: Byte := 91
  const CLOSE_LIST: Byte := 93
  const OPEN_OBJECT: Byte := 123
  const CLOSE_OBJECT: Byte := 125

  /** encoding/json refuses a text nested deeper than this. */
  const MAX_DEPTH := 10000

  predicate Ws(b: Byte) { b == 32 || b == 9 || b == 10 || b == 13 }

  function SkipWs(t: Bytes): (r: Bytes)
    ensures |r| <= |t| && (r != [] ==> !Ws(r[0]))
  {
    if t != [] && Ws(t[0]) then SkipWs(t[1..]) else t
  }

  predicate Digit(b: Byte) { 48 <= b <= 57 }

  function SkipDigits(t: Bytes): (r: Bytes)
    ensures |r| <= |t| && (r != [] ==> !Digit(r[0]))
  {
    if t != [] && Digit(t[0]) then SkipDigits(t[1..]) else t
  }

  /** What follows a value, and how deep its brackets nest. */
  datatype Span = Span(rest: Bytes, depth: nat)

  datatype Member = Member(key: Bytes, raw: Bytes)

  datatype Body = Body(members: seq<Member>, rest: Bytes, depth: nat)

  function Max(a: nat, b: nat): nat { if a < b then b else a }

  predicate Starts(t: Bytes, word: Bytes) { |t| >= |word| && t[..|word|] == word }

  const TRUE: Bytes := [116, 114, 117, 101]
  const FALSE: Bytes := [102, 97, 108, 115, 101]
  const NULL: Bytes := [110, 117, 108, 108]

  // Numbers

  function Whole(t: Bytes): (r: Option<Bytes>)
    ensures r.Some? ==> |r.value| < |t|
  {
    if t == [] then None
    else if t[0] == 48 then Some(t[1..])
    else if Digit(t[0]) then Some(SkipDigits(t[1..]))
    else None
  }

  function Fraction(t: Bytes): (r: Option<Bytes>)
    ensures r.Some? ==> |r.value| <= |t|
  {
    if t == [] || t[0] != 46 then Some(t)
    else if |t| < 2 || !Digit(t[1]) then None
    else Some(SkipDigits(t[2..]))
  }

  function Exponent(t: Bytes): (r: Option<Bytes>)
    ensures r.Some? ==> |r.value| <= |t|
  {
    if t == [] || (t[0] != 101 && t[0] != 69) then Some(t)
    else
      var u := if |t| >= 2 && (t[1] == 43 || t[1] == 45) then t[2..] else t[1..];
      if u == [] || !Digit(u[0]) then None else Some(SkipDigits(u[1..]))
  }

  function Number(t: Bytes): (r: Option<Bytes>)
    ensures r.Some? ==> |r.value| < |t|
  {
    var u := if t != [] && t[0] == 45 then t[1..] else t;
    match Whole(u)
    case None => None
    case Some(v) =>
      match Fraction(v)
      case None => None
      case Some(w) => Exponent(w)
  }

  // Values

  function Literal(t: Bytes): (r: Option<Bytes>)
    ensures r.Some? ==> |r.value| < |t|
  {
    if Starts(t, TRUE) then Some(t[4..])
    else if Starts(t, FALSE) then Some(t[5..])
    else if Starts(t, NULL) then Some(t[4..])
    else None
  }

  /** The value in front of `t`, which starts with no whitespace. */
  function Value(t: Bytes): (s: Option<Span>)
    ensures s.Some? ==> |s.value.rest| < |t|
    decreases |t|, 1
  {
    if t == [] then None
    else if t[0] == QUOTE then
      match ReadString(t[1..])
      case None => None
      case Some(r) => Some(Span(r.rest, 0))
    else if t[0] == OPEN_OBJECT then
      match Object(t[1..])
      case None => None
      case Some(b) => Some(Span(b.rest, 1 + b.depth))
    else if t[0] == OPEN_LIST then
      match List(t[1..])
      case None => None
      case Some(s) => Some(Span(s.rest, 1 + s.depth))
    else if Literal(t).Some? then Some(Span(Literal(t).value, 0))
    else
      match Number(t)
      case None => None
      case Some(r) => Some(Span(r, 0))
  }

  /** A list behind its opening bracket. */
  function List(t: Bytes): (s: Option<Span>)
    ensures s.Some? ==> |s.value.rest| < |t|
    decreases |t|, 3
  {
    var u := SkipWs(t);
    if u != [] && u[0] == CLOSE_LIST then Some(Span(u[1..], 0)) else Elements(u)
  }

  /** An object behind its opening brace. */
  function Object(t: Bytes): (b: Option<Body>)
    ensures b.Some? ==> |b.value.rest| < |t|
    decreases |t|, 3
  {
    var u := SkipWs(t);
    if u != [] && u[0] == CLOSE_OBJECT then Some(Body([], u[1..], 0)) else Members(u)
  }

  /** The elements of a list that is not empty, up to and with its bracket. */
  function Elements(t: Bytes): (s: Option<Span>)
    ensures s.Some? ==> |s.value.rest| < |t|
    decreases |t|, 2
  {
    match Value(t)
    case None => None
    case Some(v) =>
      var u := SkipWs(v.rest);
      if u == [] then None
      else if u[0] == CLOSE_LIST then Some(Span(u[1..], v.depth))
      else if u[0] != COMMA then None
      else
        match Elements(SkipWs(u[1..]))
        case None => None
        case Some(s) => Some(Span(s.rest, Max(v.depth, s.depth)))
  }

  /** The members of an object that is not empty, up to and with its brace. */
  function Members(t: Bytes): (b: Option<Body>)
    ensures b.Some? ==> |b.value.rest| < |t|
    decreases |t|, 2
  {
    match First(t)
    case None => None
    case Some(f) =>
      if f.rest == [] then None
      else if f.rest[0] == CLOSE_OBJECT then Some(Body([f.member], f.rest[1..], f.depth))
      else if f.rest[0] != COMMA then None
      else
        match Members(SkipWs(f.rest[1..]))
        case None => None
        case Some(b) => Some(Body([f.member] + b.members, b.rest, Max(f.depth, b.depth)))
  }

  datatype Front = Front(member: Member, rest: Bytes, depth: nat)

  /** A member's key, and what follows its colon. */
  function Key(t: Bytes): (k: Option<Read>)
    ensures k.Some? ==> |k.value.rest| < |t|
  {
    if t == [] || t[0] != QUOTE then None
    else
      match ReadString(t[1..])
      case None => None
      case Some(k) =>
        var u := SkipWs(k.rest);
        if u == [] || u[0] != COLON then None else Some(Read(k.value, SkipWs(u[1..])))
  }

  /** The member in front, with the whitespace behind its value skipped. */
  function First(t: Bytes): (f: Option<Front>)
    ensures f.Some? ==> |f.value.rest| < |t|
    decreases |t|, 1
  {
    match Key(t)
    case None => None
    case Some(k) =>
      match Value(k.rest)
      case None => None
      case Some(s) => Some(Front(Member(k.value, k.rest[..|k.rest| - |s.rest|]), SkipWs(s.rest), s.depth))
  }

  /** A whole text: one value with whitespace around it. */
  function Document(t: Bytes): Option<Span> {
    match Value(SkipWs(t))
    case None => None
    case Some(s) => if SkipWs(s.rest) == [] then Some(s) else None
  }

  predicate ValidText(t: Bytes) {
    Document(t).Some? && Document(t).value.depth <= MAX_DEPTH
  }

  /** The value of a text without the whitespace around it. */
  function Trimmed(t: Bytes): (v: Bytes)
    requires Document(t).Some?
    ensures v != [] && |v| <= |t|
  {
    var u := SkipWs(t);
    u[..|u| - |Document(t).value.rest|]
  }

  /** The members of a text that is an object, as json.Unmarshal accepts it. */
  function ObjectOf(t: Bytes): Option<seq<Member>> {
    if !ValidText(t) || SkipWs(t)[0] != OPEN_OBJECT then None
    else Some(Object(SkipWs(t)[1..]).value.members)
  }
}
