/** The record on the log and the body a subscriber receives. */
module Event {
  import opened Common
  import opened Text
  import opened Json
  import opened JsonLemmas

  // Writing objects

  function MemberText(m: Member): Bytes {
    [QUOTE] + m.key + [QUOTE, COLON] + m.raw
  }

  function Joined(ms: seq<Member>): Bytes
    requires ms != []
  {
    if |ms| == 1 then MemberText(ms[0]) else MemberText(ms[0]) + [COMMA] + Joined(ms[1..])
  }

  function ObjectText(ms: seq<Member>): Bytes
    requires ms != []
  {
    [OPEN_OBJECT] + Joined(ms) + [CLOSE_OBJECT]
  }

  /** A member whose key needs no escape and whose raw text is one JSON value, perhaps in whitespace. */
  predicate Writable(m: Member) {
    Plain(m.key) && Document(m.raw).Some?
  }

  predicate AllWritable(ms: seq<Member>) {
    forall i :: 0 <= i < |ms| ==> Writable(ms[i])
  }

  function TrimmedMember(m: Member): Member
    requires Writable(m)
  {
    m.(raw := Trimmed(m.raw))
  }

  function TrimmedMembers(ms: seq<Member>): (r: seq<Member>)
    requires AllWritable(ms)
  {
    if ms == [] then [] else [TrimmedMember(ms[0])] + TrimmedMembers(ms[1..])
  }

  function Deepest(ms: seq<Member>): nat
    requires AllWritable(ms) && ms != []
  {
    var d := Document(ms[0].raw).value.depth;
    if |ms| == 1 then d else Max(d, Deepest(ms[1..]))
  }

  // Reading them back

  lemma KeyReads(m: Member, tail: Bytes)
    requires Plain(m.key) && SkipWs(m.raw) != []
    ensures Key(MemberText(m) + tail) == Some(Read(m.key, SkipWs(m.raw) + tail))
  {
    var t := MemberText(m) + tail;
    var rest := [COLON] + (m.raw + tail);
    KeyJoins(m, tail);
    PlainReads(m.key, rest);
    assert SkipWs(rest) == rest && rest[1..] == m.raw + tail;
    WsExtends(m.raw, tail);
  }

  lemma KeyJoins(m: Member, tail: Bytes)
    ensures (MemberText(m) + tail)[1..] == m.key + [QUOTE] + ([COLON] + (m.raw + tail))
    ensures (MemberText(m) + tail)[0] == QUOTE
  {
  }

  predicate Separates(tail: Bytes) { tail != [] && (tail[0] == COMMA || tail[0] == CLOSE_OBJECT) }

  lemma SpanReads(u: Bytes, s: Span, tail: Bytes)
    requires Value(u) == Some(s) && SkipWs(s.rest) == [] && Separates(tail)
    ensures Value(u + tail) == Some(Span(s.rest + tail, s.depth)) && SkipWs(s.rest + tail) == tail
    ensures (u + tail)[..|u| - |s.rest|] == u[..|u| - |s.rest|]
  {
    ValueExtends(u, tail);
    WsExtends(s.rest, tail);
    assert [] + tail == tail;
  }

  lemma FrontReads(m: Member, u: Bytes, s: Span, tail: Bytes)
    requires Plain(m.key) && SkipWs(m.raw) == u && Value(u) == Some(s) && SkipWs(s.rest) == [] && Separates(tail)
    ensures First(MemberText(m) + tail) == Some(Front(Member(m.key, u[..|u| - |s.rest|]), tail, s.depth))
  {
    var t := MemberText(m) + tail;
    KeyReads(m, tail);
    SpanReads(u, s, tail);
    FirstFrom(t, Member(m.key, u[..|u| - |s.rest|]), u + tail, s.rest + tail, tail, s.depth);
  }

  lemma FirstReads(m: Member, tail: Bytes)
    requires Writable(m) && Separates(tail)
    ensures First(MemberText(m) + tail) == Some(Front(TrimmedMember(m), tail, Document(m.raw).value.depth))
  {
    var u, s := SkipWs(m.raw), Document(m.raw).value;
    assert TrimmedMember(m) == Member(m.key, u[..|u| - |s.rest|]);
    FrontReads(m, u, s, tail);
  }

  lemma MembersFrom(t: Bytes, f: Front, later: Bytes)
    ensures && First(t) == Some(f) && f.rest == [COMMA] + later && later != [] && later[0] == QUOTE
            && Members(later).Some? ==>
              var b := Members(later).value;
              Members(t) == Some(Body([f.member] + b.members, b.rest, Max(f.depth, b.depth)))
  {
    if f.rest == [COMMA] + later && later != [] && later[0] == QUOTE {
      assert f.rest[1..] == later && SkipWs(later) == later;
    }
  }

  lemma {:induction false} MembersRead(ms: seq<Member>)
    requires ms != [] && AllWritable(ms)
    ensures Members(Joined(ms) + [CLOSE_OBJECT]) == Some(Body(TrimmedMembers(ms), [], Deepest(ms)))
  {
    if |ms| == 1 {
      FirstReads(ms[0], [CLOSE_OBJECT]);
      assert TrimmedMembers(ms) == [TrimmedMember(ms[0])];
    } else {
      var later := Joined(ms[1..]) + [CLOSE_OBJECT];
      MembersRead(ms[1..]);
      MembersJoin(ms);
      FirstReads(ms[0], [COMMA] + later);
      MembersFrom(Joined(ms) + [CLOSE_OBJECT],
                  Front(TrimmedMember(ms[0]), [COMMA] + later, Document(ms[0].raw).value.depth), later);
    }
  }

  lemma MembersJoin(ms: seq<Member>)
    requires |ms| > 1
    ensures Joined(ms) + [CLOSE_OBJECT] == MemberText(ms[0]) + ([COMMA] + (Joined(ms[1..]) + [CLOSE_OBJECT]))
  {
  }

  /** An object reads back member by member, unless it nests too deep for encoding/json. */
  lemma ObjectReads(ms: seq<Member>)
    requires ms != [] && AllWritable(ms)
    ensures ObjectOf(ObjectText(ms)) == if Deepest(ms) < MAX_DEPTH then Some(TrimmedMembers(ms)) else None
  {
    var t := ObjectText(ms);
    var body := Joined(ms) + [CLOSE_OBJECT];
    assert t == [OPEN_OBJECT] + body && t[1..] == body;
    BodyReads(ms);
    BracedReads(t, Body(TrimmedMembers(ms), [], Deepest(ms)));
  }

  lemma BodyReads(ms: seq<Member>)
    requires ms != [] && AllWritable(ms)
    ensures Object(Joined(ms) + [CLOSE_OBJECT]) == Some(Body(TrimmedMembers(ms), [], Deepest(ms)))
  {
    var body := Joined(ms) + [CLOSE_OBJECT];
    assert body[0] == QUOTE && SkipWs(body) == body;
    MembersRead(ms);
  }

  lemma BracedReads(t: Bytes, b: Body)
    requires t != [] && t[0] == OPEN_OBJECT && Object(t[1..]) == Some(b) && b.rest == []
    ensures ObjectOf(t) == if b.depth < MAX_DEPTH then Some(b.members) else None
  {
    assert SkipWs(t) == t && Value(t) == Some(Span([], 1 + b.depth));
  }

  /** One value and nothing around it. */
  lemma ValueIsText(t: Bytes, depth: nat)
    requires t != [] && !Ws(t[0]) && Value(t) == Some(Span([], depth))
    ensures Document(t) == Some(Span([], depth)) && Trimmed(t) == t
  {
    assert SkipWs(t) == t && t[..|t|] == t;
  }

  /** An object's text is one value, one bracket deeper than its deepest member. */
  lemma ObjectIsText(ms: seq<Member>)
    requires ms != [] && AllWritable(ms)
    ensures Document(ObjectText(ms)) == Some(Span([], 1 + Deepest(ms))) && Trimmed(ObjectText(ms)) == ObjectText(ms)
  {
    var t := ObjectText(ms);
    var body := Joined(ms) + [CLOSE_OBJECT];
    assert t == [OPEN_OBJECT] + body && t[1..] == body;
    BodyReads(ms);
    BraceOpens(t, Deepest(ms));
    ValueIsText(t, 1 + Deepest(ms));
  }

  lemma BraceOpens(t: Bytes, depth: nat)
    requires t != [] && t[0] == OPEN_OBJECT && Object(t[1..]).Some?
    requires Object(t[1..]).value.rest == [] && Object(t[1..]).value.depth == depth
    ensures Value(t) == Some(Span([], 1 + depth))
  {
  }

  lemma {:induction false} DeepestWithin(ms: seq<Member>, d: nat)
    requires ms != [] && AllWritable(ms) && forall i :: 0 <= i < |ms| ==> Document(ms[i].raw).value.depth <= d
    ensures Deepest(ms) <= d
  {
    if |ms| <= 1 {
    } else {
      DeepestWithin(ms[1..], d);
    }
  }

  lemma StringIsText(t: Bytes, value: Bytes)
    requires t != [] && t[0] == QUOTE && ReadString(t[1..]) == Some(Read(value, []))
    ensures Document(t) == Some(Span([], 0)) && Trimmed(t) == t
  {
    ValueIsText(t, 0);
  }

  lemma QuotedIsText(b: Bytes)
    ensures Document(Quote(b)) == Some(Span([], 0)) && Trimmed(Quote(b)) == Quote(b)
    ensures Quote(b)[0] == QUOTE && ReadString(Quote(b)[1..]) == Some(Read(ToValid(b, REPLACEMENT), []))
  {
    QuoteReads(b, []);
    assert Quote(b) + [] == Quote(b);
    StringIsText(Quote(b), ToValid(b, REPLACEMENT));
  }

  // Records

  /** A time as time.Time marshals it between its quotes. */
  predicate IsStamp(b: Bytes) {
    |b| <= 35 && forall i :: 0 <= i < |b| ==> Digit(b[i]) || b[i] in [43, 45, 46, 58, 84, 90]
  }

  type Stamp = b: Bytes | IsStamp(b)

  /** `when` is None for a time that encoding/json cannot write: a year past 9999, say. */
  datatype Record = Record(id: Bytes, tenant: Bytes, kind: Bytes, data: Bytes, when: Option<Stamp>, key: Bytes)

  datatype Encoded = Encoded(text: Bytes) | DataNotJson | TimeNotWritable

  const ID := Ascii("id")
  const TENANT := Ascii("tenant_id")
  const KIND := Ascii("type")
  const DATA := Ascii("data")
  const WHEN := Ascii("occurred_at")
  const IDEMPOTENCY := Ascii("idempotency_key")

  function QuotedStamp(s: Stamp): Bytes { [QUOTE] + s + [QUOTE] }

  function RecordMembers(r: Record): seq<Member>
    requires r.when.Some?
  {
    [Member(ID, Quote(r.id)), Member(TENANT, Quote(r.tenant)), Member(KIND, Quote(r.kind)), Member(DATA, r.data),
     Member(WHEN, QuotedStamp(r.when.value))] +
    if r.key == [] then [] else [Member(IDEMPOTENCY, Quote(r.key))]
  }

  /** The names as they stand on the log, in their order; the key only where there is one. */
  ghost function RecordText(r: Record): Bytes
    requires r.when.Some?
  {
    var front := Ascii("{\"id\":") + Quote(r.id) + Ascii(",\"tenant_id\":") + Quote(r.tenant)
                 + Ascii(",\"type\":") + Quote(r.kind) + Ascii(",\"data\":") + r.data
                 + Ascii(",\"occurred_at\":") + QuotedStamp(r.when.value);
    (if r.key == [] then front else front + Ascii(",\"idempotency_key\":") + Quote(r.key)) + [125]
  }

  /** The record's text is one object, whatever order its bytes were appended in. */
  method EncodeRecord(r: Record) returns (e: Encoded)
    ensures e == if !ValidText(r.data) then DataNotJson
                 else if r.when.None? then TimeNotWritable
                 else Encoded(ObjectText(RecordMembers(r)))
    ensures e.Encoded? ==> e.text == RecordText(r)
  {
    if !ValidText(r.data) {
      return DataNotJson;
    }
    if r.when.None? {
      return TimeNotWritable;
    }
    var out := OPEN_ID;
    out := out + Quote(r.id);
    out := out + LEAD_TENANT;
    out := out + Quote(r.tenant);
    out := out + LEAD_KIND;
    out := out + Quote(r.kind);
    out := out + LEAD_DATA;
    out := out + r.data;
    out := out + LEAD_WHEN;
    out := out + QuotedStamp(r.when.value);
    if r.key != [] {
      out := out + LEAD_IDEMPOTENCY;
      out := out + Quote(r.key);
    }
    out := out + [CLOSE_OBJECT];
    RecordIsText(r);
    return Encoded(out);
  }

  /** The object of the members, as it stands on the log. */
  lemma RecordIsText(r: Record)
    requires r.when.Some?
    ensures ObjectText(RecordMembers(r)) == RecordText(r)
  {
    OpensAre();
    var out := OPEN_ID + Quote(r.id);
    var ms := Started(Member(ID, Quote(r.id)), out);
    RoutingLeads();
    out := out + LEAD_TENANT + Quote(r.tenant);
    ms := Grown(ms, Member(TENANT, Quote(r.tenant)), out);
    out := out + LEAD_KIND + Quote(r.kind);
    ms := Grown(ms, Member(KIND, Quote(r.kind)), out);
    out := out + LEAD_DATA + r.data;
    ms := Grown(ms, Member(DATA, r.data), out);
    LaterLeads();
    out := out + LEAD_WHEN + QuotedStamp(r.when.value);
    ms := Grown(ms, Member(WHEN, QuotedStamp(r.when.value)), out);
    if r.key != [] {
      out := out + LEAD_IDEMPOTENCY + Quote(r.key);
      ms := Grown(ms, Member(IDEMPOTENCY, Quote(r.key)), out);
    }
    assert ms == RecordMembers(r);
  }

  const OPEN_ID := Ascii("{\"id\":")
  const OPEN_KIND := Ascii("{\"type\":")
  const LEAD_TENANT := Ascii(",\"tenant_id\":")
  const LEAD_KIND := Ascii(",\"type\":")
  const LEAD_DATA := Ascii(",\"data\":")
  const LEAD_WHEN := Ascii(",\"occurred_at\":")
  const LEAD_IDEMPOTENCY := Ascii(",\"idempotency_key\":")

  ghost function Started(m: Member, out: Bytes): (ms: seq<Member>)
    requires out == [OPEN_OBJECT, QUOTE] + m.key + [QUOTE, COLON] + m.raw
    ensures ms == [m] && out == Open(ms)
  {
    Opens(m);
    [m]
  }

  ghost function Grown(ms: seq<Member>, m: Member, out: Bytes): (ms': seq<Member>)
    requires ms != [] && out == Open(ms) + Lead(m.key) + m.raw
    ensures ms' == ms + [m] && out == Open(ms')
  {
    Grows(ms, m);
    ms + [m]
  }

  /** A comma, a quoted name and a colon. */
  function Lead(name: Bytes): Bytes { [COMMA, QUOTE] + name + [QUOTE, COLON] }

  lemma OpensAre()
    ensures OPEN_ID == [OPEN_OBJECT, QUOTE] + ID + [QUOTE, COLON]
    ensures OPEN_KIND == [OPEN_OBJECT, QUOTE] + KIND + [QUOTE, COLON]
  {
  }

  lemma RoutingLeads()
    ensures LEAD_TENANT == Lead(TENANT) && LEAD_KIND == Lead(KIND) && LEAD_DATA == Lead(DATA)
  {
  }

  lemma LaterLeads()
    ensures LEAD_WHEN == Lead(WHEN) && LEAD_IDEMPOTENCY == Lead(IDEMPOTENCY)
  {
  }

  /** An object under construction: its brace and the members so far. */
  function Open(ms: seq<Member>): Bytes
    requires ms != []
  {
    [OPEN_OBJECT] + Joined(ms)
  }

  lemma Opens(m: Member)
    ensures Open([m]) == [OPEN_OBJECT, QUOTE] + m.key + [QUOTE, COLON] + m.raw
  {
  }

  lemma Grows(ms: seq<Member>, m: Member)
    requires ms != []
    ensures Open(ms + [m]) == Open(ms) + Lead(m.key) + m.raw
  {
    JoinedGrows(ms, m);
  }

  lemma {:induction false} JoinedGrows(ms: seq<Member>, m: Member)
    requires ms != []
    ensures Joined(ms + [m]) == Joined(ms) + [COMMA] + MemberText(m)
  {
    var all := ms + [m];
    if |ms| == 1 {
      assert all[0] == ms[0] && all[1..] == [m];
    } else {
      JoinedGrows(ms[1..], m);
      assert all[0] == ms[0] && all[1..] == ms[1..] + [m];
      Regroup(MemberText(ms[0]), Joined(ms[1..]), MemberText(m));
    }
  }

  lemma Regroup(a: Bytes, b: Bytes, c: Bytes)
    ensures a + [COMMA] + (b + [COMMA] + c) == (a + [COMMA] + b) + [COMMA] + c
  {
  }

  datatype Payload = Payload(kind: Bytes, data: Bytes)

  function PayloadMembers(p: Payload): seq<Member> {
    [Member(KIND, Quote(p.kind)), Member(DATA, p.data)]
  }

  method EncodePayload(p: Payload) returns (e: Encoded)
    ensures e == if ValidText(p.data) then Encoded(ObjectText(PayloadMembers(p))) else DataNotJson
    ensures e.Encoded? ==> e.text == Ascii("{\"type\":") + Quote(p.kind) + Ascii(",\"data\":") + p.data + [125]
  {
    if !ValidText(p.data) {
      return DataNotJson;
    }
    OpensAre();
    RoutingLeads();
    var out := OPEN_KIND;
    out := out + Quote(p.kind);
    ghost var ms := Started(Member(KIND, Quote(p.kind)), out);
    out := out + LEAD_DATA;
    out := out + p.data;
    ms := Grown(ms, Member(DATA, p.data), out);
    assert ms == PayloadMembers(p);
    out := out + [CLOSE_OBJECT];
    return Encoded(out);
  }

  // Reading records

  /** The raw text of the last member with this name, as json.Unmarshal keeps it. */
  function Field(ms: seq<Member>, name: Bytes): Option<Bytes> {
    if ms == [] then None
    else if ms[|ms| - 1].key == name then Some(ms[|ms| - 1].raw)
    else Field(ms[..|ms| - 1], name)
  }

  /** A JSON string as Go decodes it, invalid bytes replaced; None for any other value. */
  function TextValue(raw: Bytes): Option<Bytes> {
    if raw == [] || raw[0] != QUOTE then None
    else
      match ReadString(raw[1..])
      case None => None
      case Some(r) => Some(ToValid(r.value, REPLACEMENT))
  }

  /** A field of type string: each member with its name sets it, except that null leaves it alone and a value of any
  other type fails the whole record.  Empty when nothing sets it. */
  function TextField(ms: seq<Member>, name: Bytes): Option<Bytes> {
    if ms == [] then Some([])
    else
      var earlier, last := TextField(ms[..|ms| - 1], name), ms[|ms| - 1];
      if last.key != name || last.raw == NULL || earlier.None? then earlier else TextValue(last.raw)
  }

  /** The members json.Unmarshal visits: an object's, or none when the value is null. */
  function MembersOf(value: Bytes): Option<seq<Member>> {
    if ValidText(value) && Trimmed(value) == NULL then Some([]) else ObjectOf(value)
  }

  /** `when` is the raw text of the time. */
  datatype Decoded = Decoded(id: Bytes, tenant: Bytes, kind: Bytes, data: Bytes, when: Bytes, key: Bytes)

  function Decode(value: Bytes): Option<Decoded> {
    match MembersOf(value)
    case None => None
    case Some(ms) =>
      match (TextField(ms, ID), TextField(ms, TENANT), TextField(ms, KIND), TextField(ms, WHEN),
             TextField(ms, IDEMPOTENCY))
      case (Some(id), Some(tenant), Some(kind), Some(when), Some(key)) =>
        Some(Decoded(id, tenant, kind, Field(ms, DATA).GetOr([]), when, key))
      case _ => None
  }

  // The round trip

  lemma QuotedStampIsText(s: Stamp)
    ensures Document(QuotedStamp(s)) == Some(Span([], 0)) && Trimmed(QuotedStamp(s)) == QuotedStamp(s)
    ensures ReadString(QuotedStamp(s)[1..]) == Some(Read(s, []))
  {
    var t := QuotedStamp(s);
    assert Plain(s);
    PlainReads(s, []);
    assert t[1..] == s + [34] + [];
    StringIsText(t, s);
  }

  lemma NamesArePlain()
    ensures Plain(ID) && Plain(TENANT) && Plain(KIND) && Plain(DATA) && Plain(WHEN) && Plain(IDEMPOTENCY)
  {
  }

  /** A value without whitespace around it. */
  predicate Tight(m: Member) {
    Writable(m) && Trimmed(m.raw) == m.raw
  }

  predicate AllTight(ms: seq<Member>) {
    forall i :: 0 <= i < |ms| ==> Tight(ms[i])
  }

  /** One scalar without whitespace around it. */
  predicate Scalar(m: Member) {
    Tight(m) && Document(m.raw).value.depth == 0
  }

  lemma QuotedIsScalar(name: Bytes, b: Bytes)
    requires Plain(name)
    ensures Scalar(Member(name, Quote(b)))
  {
    QuotedIsText(b);
  }

  lemma StampIsScalar(name: Bytes, s: Stamp)
    requires Plain(name)
    ensures Scalar(Member(name, QuotedStamp(s)))
  {
    QuotedStampIsText(s);
  }

  /** Every member but number `i` is a scalar. */
  ghost predicate OnlyAt(ms: seq<Member>, i: nat) {
    AllWritable(ms) && forall k :: 0 <= k < |ms| && k != i ==> Scalar(ms[k])
  }

  lemma OnlyTheData(r: Record)
    requires Document(r.data).Some? && r.when.Some?
    ensures OnlyAt(RecordMembers(r), 3)
  {
    var ms := RecordMembers(r);
    NamesArePlain();
    forall k | 0 <= k < |ms| ensures Writable(ms[k]) && (k != 3 ==> Scalar(ms[k])) {
      if k == 0 {
        QuotedIsScalar(ID, r.id);
      } else if k == 1 {
        QuotedIsScalar(TENANT, r.tenant);
      } else if k == 2 {
        QuotedIsScalar(KIND, r.kind);
      } else if k == 4 {
        StampIsScalar(WHEN, r.when.value);
      } else if k == 5 {
        QuotedIsScalar(IDEMPOTENCY, r.key);
      }
    }
  }

  lemma {:induction false} TrimsNothing(ms: seq<Member>)
    requires AllTight(ms)
    ensures AllWritable(ms) && TrimmedMembers(ms) == ms
  {
    if ms == [] {
    } else {
      TrimsNothing(ms[1..]);
    }
  }

  lemma {:induction false} TrimsOnly(ms: seq<Member>, i: nat)
    requires i < |ms| && OnlyAt(ms, i)
    ensures TrimmedMembers(ms) == ms[i := TrimmedMember(ms[i])]
  {
    var later := ms[1..];
    if i == 0 {
      assert AllTight(later);
      TrimsNothing(later);
      assert [TrimmedMember(ms[0])] + later == ms[0 := TrimmedMember(ms[0])];
    } else {
      assert OnlyAt(later, i - 1);
      TrimsOnly(later, i - 1);
      assert TrimmedMember(ms[0]) == ms[0] && later[i - 1] == ms[i];
      UpdateBehind(ms, i, TrimmedMember(ms[i]));
    }
  }

  lemma UpdateBehind(ms: seq<Member>, i: nat, m: Member)
    requires 0 < i < |ms|
    ensures [ms[0]] + ms[1..][i - 1 := m] == ms[i := m]
  {
  }

  lemma {:induction false} DeepestIs(ms: seq<Member>, i: nat)
    requires i < |ms| && OnlyAt(ms, i)
    ensures Deepest(ms) == Document(ms[i].raw).value.depth
  {
    if |ms| <= 1 {
    } else {
      DeepestIs(ms[1..], if i > 0 then i - 1 else 0);
    }
  }

  /** What a record's text holds once read, if it does not nest too deep. */
  lemma RecordReads(r: Record)
    requires Document(r.data).Some? && r.when.Some?
    ensures ObjectOf(ObjectText(RecordMembers(r))) ==
            if Document(r.data).value.depth < MAX_DEPTH then Some(RecordMembers(r.(data := Trimmed(r.data)))) else None
  {
    var ms := RecordMembers(r);
    OnlyTheData(r);
    TrimsOnly(ms, 3);
    DeepestIs(ms, 3);
    ObjectReads(ms);
    assert ms[3 := TrimmedMember(ms[3])] == RecordMembers(r.(data := Trimmed(r.data)));
  }

  lemma PayloadReads(p: Payload)
    requires Document(p.data).Some?
    ensures ObjectOf(ObjectText(PayloadMembers(p))) ==
            if Document(p.data).value.depth < MAX_DEPTH then Some(PayloadMembers(p.(data := Trimmed(p.data)))) else None
  {
    var ms := PayloadMembers(p);
    NamesArePlain();
    QuotedIsScalar(KIND, p.kind);
    assert OnlyAt(ms, 1);
    TrimsOnly(ms, 1);
    DeepestIs(ms, 1);
    ObjectReads(ms);
    assert ms[1 := TrimmedMember(ms[1])] == PayloadMembers(p.(data := Trimmed(p.data)));
  }

  /** The record a consumer decodes: invalid bytes replaced, whitespace around the data gone. */
  function Arrived(r: Record): Decoded
    requires Document(r.data).Some? && r.when.Some?
  {
    Decoded(ToValid(r.id, REPLACEMENT), ToValid(r.tenant, REPLACEMENT), ToValid(r.kind, REPLACEMENT), Trimmed(r.data),
            r.when.value, ToValid(r.key, REPLACEMENT))
  }

  lemma {:induction false} FieldAt(ms: seq<Member>, i: nat)
    requires i < |ms| && forall k :: i < k < |ms| ==> ms[k].key != ms[i].key
    ensures Field(ms, ms[i].key) == Some(ms[i].raw)
    decreases |ms|
  {
    if i == |ms| - 1 {
    } else {
      FieldAt(ms[..|ms| - 1], i);
    }
  }

  /** The one member with its name decides a text field. */
  lemma {:induction false} TextFieldAt(ms: seq<Member>, i: nat)
    requires i < |ms| && forall k :: 0 <= k < |ms| && k != i ==> ms[k].key != ms[i].key
    requires ms[i].raw != NULL
    ensures TextField(ms, ms[i].key) == TextValue(ms[i].raw)
    decreases |ms|
  {
    if i == |ms| - 1 {
      TextFieldAbsent(ms[..|ms| - 1], ms[i].key);
    } else {
      TextFieldAt(ms[..|ms| - 1], i);
    }
  }

  lemma {:induction false} TextFieldAbsent(ms: seq<Member>, name: Bytes)
    requires forall k :: 0 <= k < |ms| ==> ms[k].key != name
    ensures TextField(ms, name) == Some([])
  {
    if ms == [] {
    } else {
      TextFieldAbsent(ms[..|ms| - 1], name);
    }
  }

  lemma NamesDiffer()
    ensures |ID| == 2 && |TENANT| == 9 && |KIND| == 4 && |DATA| == 4 && |WHEN| == 11 && |IDEMPOTENCY| == 15
    ensures KIND != DATA
  {
    assert KIND[0] == 116 && DATA[0] == 100;
  }

  lemma QuotedField(ms: seq<Member>, i: nat, b: Bytes)
    requires i < |ms| && ms[i].raw == Quote(b) && forall k :: 0 <= k < |ms| && k != i ==> ms[k].key != ms[i].key
    ensures TextField(ms, ms[i].key) == Some(ToValid(b, REPLACEMENT))
  {
    QuotedIsText(b);
    TextFieldAt(ms, i);
    ToValidIff(b);
    ToValidIff(ToValid(b, REPLACEMENT));
  }

  lemma StampValue(s: Stamp)
    ensures QuotedStamp(s) != NULL && TextValue(QuotedStamp(s)) == Some(s)
  {
    QuotedStampIsText(s);
    AsciiIsValid(s);
    ToValidIff(s);
  }

  lemma StampField(ms: seq<Member>, i: nat, s: Stamp)
    requires i < |ms| && ms[i].raw == QuotedStamp(s) && forall k :: 0 <= k < |ms| && k != i ==> ms[k].key != ms[i].key
    ensures TextField(ms, ms[i].key) == Some(s)
  {
    StampValue(s);
    TextFieldAt(ms, i);
  }

  lemma RecordFields(r: Record)
    requires r.when.Some?
    ensures var ms := RecordMembers(r);
            TextField(ms, ID) == Some(ToValid(r.id, REPLACEMENT)) &&
            TextField(ms, TENANT) == Some(ToValid(r.tenant, REPLACEMENT)) &&
            TextField(ms, KIND) == Some(ToValid(r.kind, REPLACEMENT)) &&
            Field(ms, DATA) == Some(r.data)
  {
    var ms := RecordMembers(r);
    NamesDiffer();
    QuotedField(ms, 0, r.id);
    QuotedField(ms, 1, r.tenant);
    QuotedField(ms, 2, r.kind);
    FieldAt(ms, 3);
  }

  /** Whether a name stands at one place only. */
  predicate OnlyKeyAt(ms: seq<Member>, i: nat, name: Bytes) {
    i < |ms| && ms[i].key == name && forall k :: 0 <= k < |ms| && k != i ==> ms[k].key != name
  }

  lemma LaterKeys(r: Record)
    requires r.when.Some?
    ensures OnlyKeyAt(RecordMembers(r), 4, WHEN)
    ensures if r.key == [] then forall k :: 0 <= k < |RecordMembers(r)| ==> RecordMembers(r)[k].key != IDEMPOTENCY
            else OnlyKeyAt(RecordMembers(r), 5, IDEMPOTENCY)
  {
    NamesDiffer();
  }

  lemma LaterFields(r: Record)
    requires r.when.Some?
    ensures TextField(RecordMembers(r), WHEN) == Some(r.when.value)
    ensures TextField(RecordMembers(r), IDEMPOTENCY) == Some(ToValid(r.key, REPLACEMENT))
  {
    LaterKeys(r);
    StampField(RecordMembers(r), 4, r.when.value);
    if r.key == [] {
      TextFieldAbsent(RecordMembers(r), IDEMPOTENCY);
    } else {
      QuotedField(RecordMembers(r), 5, r.key);
    }
  }

  lemma NotNull(t: Bytes)
    requires t != [] && t[0] == OPEN_OBJECT
    ensures MembersOf(t) == ObjectOf(t)
  {
    assert SkipWs(t) == t;
    if ValidText(t) {
      assert Trimmed(t)[0] == t[0] && NULL[0] != OPEN_OBJECT;
    }
  }

  /** An encoded record decodes exactly when its data leaves room for one more bracket, and then to `Arrived`. */
  lemma RecordRoundTrip(r: Record)
    requires ValidText(r.data) && r.when.Some?
    ensures Decode(ObjectText(RecordMembers(r))) ==
            if Document(r.data).value.depth < MAX_DEPTH then Some(Arrived(r)) else None
  {
    RecordReads(r);
    NotNull(ObjectText(RecordMembers(r)));
    RecordFields(r.(data := Trimmed(r.data)));
    LaterFields(r.(data := Trimmed(r.data)));
  }

  /** The fields as they were given. */
  function AsGiven(r: Record): Decoded
    requires r.when.Some?
  {
    Decoded(r.id, r.tenant, r.kind, r.data, r.when.value, r.key)
  }

  /** Valid UTF-8 strings, and data that starts and ends in itself and leaves room for one more bracket. */
  predicate Faithful(r: Record)
    requires Document(r.data).Some?
  {
    && ValidUtf8(r.id) && ValidUtf8(r.tenant) && ValidUtf8(r.kind) && ValidUtf8(r.key)
    && !Ws(r.data[0]) && !Ws(r.data[|r.data| - 1])
    && Document(r.data).value.depth < MAX_DEPTH
  }

  /** A record crosses the log unchanged exactly when it is faithful. */
  lemma CrossesUnchangedIff(r: Record)
    requires ValidText(r.data) && r.when.Some?
    ensures Decode(ObjectText(RecordMembers(r))) == Some(AsGiven(r)) <==> Faithful(r)
  {
    RecordRoundTrip(r);
    ToValidIff(r.id);
    ToValidIff(r.tenant);
    ToValidIff(r.kind);
    ToValidIff(r.key);
    TrimmedIsWhole(r.data);
  }

  // What a consumer can send on

  /** The text of one value with no whitespace around it, nesting at most `depth` deep. */
  predicate Bare(raw: Bytes, depth: nat) {
    Document(raw).Some? && Trimmed(raw) == raw && Document(raw).value.depth <= depth
  }

  predicate AllBare(ms: seq<Member>, depth: nat) {
    forall i :: 0 <= i < |ms| ==> Bare(ms[i].raw, depth)
  }

  lemma FirstIsBare(t: Bytes)
    requires First(t).Some?
    ensures Bare(First(t).value.member.raw, First(t).value.depth)
  {
    var v := Key(t).value.rest;
    var s := Value(v).value;
    var raw := v[..|v| - |s.rest|];
    ValueAlone(v);
    ValueStarts(v);
    assert raw[0] == v[0];
    ValueIsText(raw, s.depth);
  }

  lemma ValueStarts(t: Bytes)
    requires Value(t).Some?
    ensures !Ws(t[0])
  {
    if Literal(t).Some? {
      StartsAlike(t, TRUE);
      StartsAlike(t, FALSE);
      StartsAlike(t, NULL);
    }
  }

  /** What is read as a member of an object is the text of one value. */
  lemma {:induction false} MembersAreBare(t: Bytes)
    requires Members(t).Some?
    ensures AllBare(Members(t).value.members, Members(t).value.depth)
    decreases |t|
  {
    var f, b := First(t).value, Members(t).value;
    FirstIsBare(t);
    if f.rest[0] != COMMA {
    } else {
      var later := SkipWs(f.rest[1..]);
      MembersAreBare(later);
      assert b.members == [f.member] + Members(later).value.members;
    }
  }

  lemma {:induction false} FieldIsMember(ms: seq<Member>, name: Bytes)
    requires Field(ms, name).Some?
    ensures exists i :: 0 <= i < |ms| && ms[i].raw == Field(ms, name).value
  {
    if ms[|ms| - 1].key == name {
    } else {
      FieldIsMember(ms[..|ms| - 1], name);
      var i :| 0 <= i < |ms| - 1 && ms[..|ms| - 1][i].raw == Field(ms, name).value;
      assert ms[i].raw == Field(ms, name).value;
    }
  }

  lemma FieldIsBare(value: Bytes, name: Bytes)
    requires ObjectOf(value).Some? && Field(ObjectOf(value).value, name).Some?
    ensures Bare(Field(ObjectOf(value).value, name).value, MAX_DEPTH - 1)
  {
    var t := SkipWs(value)[1..];
    var ms := Object(t).value.members;
    FieldIsMember(ms, name);
    var u := SkipWs(t);
    if u[0] != CLOSE_OBJECT {
      MembersAreBare(u);
    }
  }

  lemma {:induction false} TextFieldIsValid(ms: seq<Member>, name: Bytes)
    requires TextField(ms, name).Some?
    ensures ValidUtf8(TextField(ms, name).value)
  {
    if ms == [] {
    } else if ms[|ms| - 1].key != name || ms[|ms| - 1].raw == NULL {
      TextFieldIsValid(ms[..|ms| - 1], name);
    } else {
      ToValidIff(ReadString(ms[|ms| - 1].raw[1..]).value.value);
    }
  }

  /** Whatever a consumer decodes, it can encode the body of exactly when the record had data at all, and the body then
  parses back to the decoded type and the very bytes of the data. */
  lemma BodyCarriesData(value: Bytes)
    requires Decode(value).Some?
    ensures var p := Payload(Decode(value).value.kind, Decode(value).value.data);
            (ValidText(p.data) <==> Field(MembersOf(value).value, DATA).Some?) &&
            (ValidText(p.data) ==>
               ObjectOf(ObjectText(PayloadMembers(p))) == Some(PayloadMembers(p)) &&
               Field(PayloadMembers(p), DATA) == Some(p.data) &&
               TextField(PayloadMembers(p), KIND) == Some(p.kind))
  {
    var p := Payload(Decode(value).value.kind, Decode(value).value.data);
    if Field(MembersOf(value).value, DATA).Some? {
      FieldIsBare(value, DATA);
      PayloadReads(p);
      NamesDiffer();
      FieldAt(PayloadMembers(p), 1);
      QuotedField(PayloadMembers(p), 0, p.kind);
      TextFieldIsValid(MembersOf(value).value, KIND);
      ToValidIff(p.kind);
    } else {
      assert p.data == [];
    }
  }

  // Validation

  const MAX_DATA_BYTES := 256 * 1024

  datatype Fitness = Fit | NoTenant | NotUtf8 | NoType | NoData | DataTooBig | DataNotContainer | DataInvalid

  function Validate(r: Record): Fitness {
    if Blank(r.tenant) then NoTenant
    else if !ValidUtf8(r.tenant) || !ValidUtf8(r.kind) then NotUtf8
    else if Blank(r.kind) then NoType
    else if r.data == [] then NoData
    else if |r.data| > MAX_DATA_BYTES then DataTooBig
    else if r.data[0] != OPEN_OBJECT && r.data[0] != OPEN_LIST then DataNotContainer
    else if !ValidText(r.data) then DataInvalid
    else Fit
  }

  /** The partition key. */
  function PartitionKey(r: Record): Bytes { r.tenant }

  predicate IsWs(b: Bytes) {
    forall i :: 0 <= i < |b| ==> Ws(b[i])
  }

  lemma TrimmedIsFront(t: Bytes)
    requires Document(t).Some? && !Ws(t[0])
    ensures Trimmed(t) <= t && IsWs(t[|Trimmed(t)|..])
  {
    var rest := Document(t).value.rest;
    ValueEnds(t);
    AllWs(rest);
    assert t[|t| - |rest|..] == rest;
  }

  /** A validated record is encoded. Unless its data nests to the limit it decodes with its tenant, type and partition
  key intact, and its data loses no more than whitespace at its end. */
  lemma ValidatedArrives(r: Record)
    requires Validate(r) == Fit && r.when.Some?
    ensures ValidText(r.data)
    ensures var d := Decode(ObjectText(RecordMembers(r)));
            (d.Some? <==> Document(r.data).value.depth < MAX_DEPTH) &&
            (d.Some? ==> d.value.tenant == PartitionKey(r) && d.value.kind == r.kind && d.value.data <= r.data &&
                         IsWs(r.data[|d.value.data|..]))
  {
    RecordRoundTrip(r);
    ToValidIff(r.tenant);
    ToValidIff(r.kind);
    TrimmedIsFront(r.data);
  }

  // The limit itself

  /** `n` empty lists inside each other. */
  function Nest(n: nat): Bytes
    requires n > 0
  {
    if n == 1 then [OPEN_LIST, CLOSE_LIST] else [OPEN_LIST] + Nest(n - 1) + [CLOSE_LIST]
  }

  lemma {:induction false} NestReads(n: nat, tail: Bytes)
    requires n > 0 && Delimits(tail)
    ensures Value(Nest(n) + tail) == Some(Span(tail, n)) && |Nest(n)| == 2 * n && Nest(n)[0] == OPEN_LIST
  {
    var t := Nest(n) + tail;
    if n == 1 {
      assert t[1..] == [CLOSE_LIST] + tail && ([CLOSE_LIST] + tail)[1..] == tail;
    } else {
      NestReads(n - 1, [CLOSE_LIST] + tail);
      var inner := Nest(n - 1) + ([CLOSE_LIST] + tail);
      assert t[1..] == inner && ([CLOSE_LIST] + tail)[1..] == tail;
      assert SkipWs(inner) == inner && Elements(inner) == Some(Span(tail, n - 1));
      assert List(inner) == Some(Span(tail, n - 1));
    }
  }

  /** Data nested to the limit passes validation and is encoded, but no consumer can decode the record. */
  lemma DeepestDataIsLost(r: Record)
    requires r.data == Nest(MAX_DEPTH) && r.when.Some?
    requires !Blank(r.tenant) && !Blank(r.kind) && ValidUtf8(r.tenant) && ValidUtf8(r.kind)
    ensures Validate(r) == Fit && Decode(ObjectText(RecordMembers(r))) == None
  {
    NestReads(MAX_DEPTH, []);
    assert r.data + [] == r.data && SkipWs(r.data) == r.data;
    RecordRoundTrip(r);
  }

  // Event ids

  /** Sixteen random bytes in hexadecimal behind a prefix. */
  function NewId(random: Bytes): Bytes
    requires |random| == 16
  {
    Ascii("evt_") + HexText(random)
  }

  function HexText(b: Bytes): (h: Bytes)
    ensures |h| == 2 * |b|
  {
    if b == [] then [] else [Hex(b[0] / 16), Hex(b[0] % 16)] + HexText(b[1..])
  }

  predicate IdByte(b: Byte) { Digit(b) || 97 <= b <= 122 || b == 95 }

  lemma {:induction false} HexTextBytes(b: Bytes)
    ensures forall i :: 0 <= i < |HexText(b)| ==> IdByte(HexText(b)[i])
  {
    if b == [] {
    } else {
      HexTextBytes(b[1..]);
    }
  }

  lemma {:induction false} HexTextTells(a: Bytes, b: Bytes)
    requires HexText(a) == HexText(b)
    ensures a == b
  {
    if a != [] && b != [] {
      var x, y := HexText(a), HexText(b);
      assert x[0] == Hex(a[0] / 16) && x[1] == Hex(a[0] % 16) && x[2..] == HexText(a[1..]);
      assert y[0] == Hex(b[0] / 16) && y[1] == Hex(b[0] % 16) && y[2..] == HexText(b[1..]);
      HexRoundTrip(a[0] / 16);
      HexRoundTrip(a[0] % 16);
      HexRoundTrip(b[0] / 16);
      HexRoundTrip(b[0] % 16);
      HexTextTells(a[1..], b[1..]);
      assert a[0] == b[0];
    } else {
      assert |a| == |b|;
    }
  }

  /** Ids have no dot and are equal only for equal random bytes. */
  lemma NewIdIsDotFree(random: Bytes, other: Bytes)
    requires |random| == |other| == 16
    ensures |NewId(random)| == 36 && forall i :: 0 <= i < 36 ==> IdByte(NewId(random)[i]) && NewId(random)[i] != 46
    ensures NewId(random) == NewId(other) ==> random == other
  {
    HexTextBytes(random);
    assert NewId(random)[4..] == HexText(random) && NewId(other)[4..] == HexText(other);
    if NewId(random) == NewId(other) {
      HexTextTells(random, other);
    }
  }
}
