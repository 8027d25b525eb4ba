/** The dead letter of a record that could not be decoded: bounded copies, a bounded reason, one JSON object. */
module DeadLetter {
  import opened Common
  import opened Text
  import opened Decimal
  import opened Json
  import opened JsonLemmas
  import opened Event
  import Base64

  const MAX_COPY := 256 * 1024
  const MAX_REASON := 4 * 1024
  const MAX_BATCH := 1048576
  const SUFFIX := Ascii(" (reason truncated)")
  const REASON_LEAD := Ascii("undecodable Kafka record: ")

  // Bounded copies

  datatype Copy = Copy(bytes: Option<Bytes>, truncated: bool)

  function BoundedCopy(value: Option<Bytes>, limit: nat): (c: Copy)
    ensures c.bytes.None? <==> value.None?
    ensures value.Some? ==> c.bytes.value <= value.value && |c.bytes.value| <= limit
    ensures value.Some? ==>
            (c.truncated <==> c.bytes.value != value.value) && (c.truncated ==> |c.bytes.value| == limit)
    ensures value.None? ==> !c.truncated
  {
    match value
    case None => Copy(None, false)
    case Some(b) => if |b| > limit then Copy(Some(b[..limit]), true) else Copy(Some(b), false)
  }

  // The reason

  function BoundedReason(error: Bytes): Bytes {
    var reason := ToValid(REASON_LEAD + error, []);
    if |reason| <= MAX_REASON then reason
    else ToValid(reason[..MAX_REASON - |SUFFIX|], []) + SUFFIX
  }

  /** A character cut short leaves nothing valid. */
  lemma CutRuneVanishes(b: Bytes, k: nat)
    requires b != [] && Width(b) > 0 && k < Width(b)
    ensures ToValid(b[..k], []) == []
  {
    if k > 0 {
      assert Width(b[..k]) == 0;
      if k > 1 {
        ContinuationsVanish(b[..k][1..]);
      } else {
        assert b[..k][1..] == [];
      }
    }
  }

  lemma {:induction false} ContinuationsVanish(b: Bytes)
    requires forall i :: 0 <= i < |b| ==> Continues(b[i])
    ensures ToValid(b, []) == []
  {
    if b == [] {
    } else {
      ContinuationsVanish(b[1..]);
    }
  }

  /** Cutting valid text and removing what is invalid cuts it at a character, less than four bytes earlier. */
  lemma {:induction false} CutAtCharacter(b: Bytes, k: nat)
    requires ValidUtf8(b) && k <= |b|
    ensures ToValid(b[..k], []) <= b && k < |ToValid(b[..k], [])| + 4 && |ToValid(b[..k], [])| <= k
  {
    if b == [] || k == 0 {
      assert b[..k] == [];
    } else {
      var w := Width(b);
      if k < w {
        CutRuneVanishes(b, k);
      } else {
        CutAtCharacter(b[w..], k - w);
        FirstRuneKept(b, k);
        assert b == b[..w] + b[w..];
      }
    }
  }

  lemma FirstRuneKept(b: Bytes, k: nat)
    requires b != [] && 0 < Width(b) <= k <= |b|
    ensures ToValid(b[..k], []) == b[..Width(b)] + ToValid(b[Width(b)..][..k - Width(b)], [])
  {
    var w, c := Width(b), b[..k];
    assert Width(c) == w && c[..w] == b[..w] && c[w..] == b[w..][..k - w];
  }

  /** The reason is valid UTF-8 within its limit. A short one is whole; a long one keeps all but less than four bytes
  of the room in front of the suffix. */
  lemma ReasonIsBounded(error: Bytes)
    ensures ValidUtf8(BoundedReason(error)) && |BoundedReason(error)| <= MAX_REASON
    ensures var whole := ToValid(REASON_LEAD + error, []);
            if |whole| <= MAX_REASON then BoundedReason(error) == whole
            else |BoundedReason(error)| > MAX_REASON - 4 &&
                 exists front :: front <= whole && BoundedReason(error) == front + SUFFIX
  {
    var whole := ToValid(REASON_LEAD + error, []);
    ToValidIsValid(REASON_LEAD + error, []);
    if |whole| > MAX_REASON {
      var cut := whole[..MAX_REASON - |SUFFIX|];
      CutAtCharacter(whole, MAX_REASON - |SUFFIX|);
      ToValidIsValid(cut, []);
      AsciiIsValid(SUFFIX);
      ValidAppends(ToValid(cut, []), SUFFIX);
    }
  }

  // The envelope

  datatype Message =
      Message(topic: Bytes, partition: int, offset: int, time: Option<Stamp>, key: Option<Bytes>, value: Option<Bytes>)

  /** SHA-256. */
  type Hash = Bytes -> Bytes

  function BytesText(b: Option<Bytes>): Bytes {
    match b
    case None => NULL
    case Some(v) => [QUOTE] + Base64.Standard(v) + [QUOTE]
  }

  function BoolText(b: bool): Bytes { if b then TRUE else FALSE }

  function Size(b: Option<Bytes>): nat { if b.Some? then |b.value| else 0 }

  function SourceLight(m: Message): seq<Member>
    requires m.time.Some?
  {
    [Member(Ascii("topic"), Quote(m.topic)), Member(Ascii("partition"), FormatInt(m.partition)),
     Member(Ascii("offset"), FormatInt(m.offset)), Member(Ascii("timestamp"), QuotedStamp(m.time.value))]
  }

  function SourceKey(m: Message, sha: Hash): seq<Member> {
    [Member(Ascii("key"), BytesText(BoundedCopy(m.key, MAX_COPY).bytes)),
     Member(Ascii("key_sha256"), Quote(HexText(sha(m.key.GetOr([]))))),
     Member(Ascii("original_key_bytes"), FormatInt(Size(m.key))),
     Member(Ascii("key_truncated"), BoolText(BoundedCopy(m.key, MAX_COPY).truncated))]
  }

  function SourceValue(m: Message): seq<Member> {
    [Member(Ascii("raw_value"), BytesText(BoundedCopy(m.value, MAX_COPY).bytes)),
     Member(Ascii("original_value_bytes"), FormatInt(Size(m.value))),
     Member(Ascii("raw_value_truncated"), BoolText(BoundedCopy(m.value, MAX_COPY).truncated))]
  }

  function SourceMembers(m: Message, sha: Hash): seq<Member>
    requires m.time.Some?
  {
    SourceLight(m) + SourceKey(m, sha) + SourceValue(m)
  }

  /** The zero time, as it is marshalled. */
  const ZERO_TIME: Stamp := [48, 48, 48, 49, 45, 48, 49, 45, 48, 49, 84, 48, 48, 58, 48, 48, 58, 48, 48, 90]

  /** The record a poison dead letter carries: no field set. */
  const NO_RECORD := Record([], [], [], NULL, Some(ZERO_TIME), [])

  function PoisonMembers(m: Message, sha: Hash, error: Bytes, failedAt: Stamp): seq<Member>
    requires m.time.Some?
  {
    [Member(Ascii("record"), ObjectText(RecordMembers(NO_RECORD))),
     Member(Ascii("source"), ObjectText(SourceMembers(m, sha))),
     Member(Ascii("subscription_id"), FormatInt(0)), Member(Ascii("url"), Quote([])),
     Member(Ascii("attempts"), FormatInt(0)),
     Member(Ascii("reason"), Quote(BoundedReason(error))), Member(Ascii("failed_at"), QuotedStamp(failedAt))]
  }

  /** The text of the dead letter; None when the record's own timestamp cannot be marshalled. */
  function Poison(m: Message, sha: Hash, error: Bytes, failedAt: Stamp): Option<Bytes> {
    if m.time.None? then None else Some(ObjectText(PoisonMembers(m, sha, error, failedAt)))
  }

  function PoisonKey(m: Message): Bytes {
    Ascii("poison:") + m.topic + [58] + FormatInt(m.partition) + [58] + FormatInt(m.offset)
  }

  // Its parts are JSON

  lemma AllDigits(d: Bytes)
    requires d != [] && (forall i :: 0 <= i < |d| ==> Digit(d[i])) && (|d| > 1 ==> d[0] != 48)
    ensures Whole(d) == Some([])
  {
    SkipsAll(d[1..]);
  }

  lemma {:induction false} SkipsAll(d: Bytes)
    requires forall i :: 0 <= i < |d| ==> Digit(d[i])
    ensures SkipDigits(d) == []
  {
    if d == [] {
    } else {
      SkipsAll(d[1..]);
    }
  }

  lemma DigitsAreWhole(n: nat)
    ensures Whole(Digits(n)) == Some([])
  {
    DigitsRead(n);
    NoLeadingZero(n);
    AllDigits(Digits(n));
  }

  lemma NumberIsScalar(name: Bytes, n: int)
    requires Plain(name)
    ensures Scalar(Member(name, FormatInt(n)))
  {
    var t := FormatInt(n);
    var m: nat := if n < 0 then -n else n;
    DigitsAreWhole(m);
    DigitsRead(m);
    if n < 0 {
      assert t[1..] == Digits(m);
    }
    assert Number(t) == Some([]);
    assert t[0] == 45 || Digit(t[0]);
    StartsAlike(t, TRUE);
    StartsAlike(t, FALSE);
    StartsAlike(t, NULL);
    ScalarText(name, t);
  }

  lemma ScalarText(name: Bytes, t: Bytes)
    requires Plain(name) && t != [] && !Ws(t[0]) && Value(t) == Some(Span([], 0))
    ensures Scalar(Member(name, t))
  {
    ValueIsText(t, 0);
  }

  lemma WordIsScalar(name: Bytes, t: Bytes)
    requires Plain(name) && (t == TRUE || t == FALSE || t == NULL)
    ensures Scalar(Member(name, t))
  {
    assert t[|t|..] == [] && t[..|t|] == t;
    StartsAlike(t, TRUE);
    StartsAlike(t, FALSE);
    assert Literal(t) == Some([]);
    ScalarText(name, t);
  }

  lemma BytesAreScalar(name: Bytes, b: Option<Bytes>)
    requires Plain(name)
    ensures Scalar(Member(name, BytesText(b)))
    ensures b.Some? ==> ReadString(BytesText(b)[1..]) == Some(Read(Base64.Standard(b.value), []))
  {
    if b.None? {
      WordIsScalar(name, NULL);
    } else {
      var s := Base64.Standard(b.value);
      Base64.Alphabet(b.value, false, true);
      assert Plain(s);
      PlainReads(s, []);
      assert BytesText(b)[1..] == s + [34] + [];
      StringIsText(BytesText(b), s);
    }
  }

  lemma SourceNamesArePlain()
    ensures Plain(Ascii("topic")) && Plain(Ascii("partition")) && Plain(Ascii("offset")) && Plain(Ascii("timestamp"))
  {
  }

  lemma KeyNamesArePlain()
    ensures Plain(Ascii("key")) && Plain(Ascii("key_sha256")) && Plain(Ascii("original_key_bytes"))
            && Plain(Ascii("key_truncated"))
  {
  }

  lemma ValueNamesArePlain()
    ensures Plain(Ascii("raw_value")) && Plain(Ascii("original_value_bytes")) && Plain(Ascii("raw_value_truncated"))
  {
  }

  predicate AllScalar(ms: seq<Member>) {
    forall i :: 0 <= i < |ms| ==> Scalar(ms[i])
  }

  lemma SourceIsScalar(m: Message, sha: Hash)
    requires m.time.Some?
    ensures AllScalar(SourceMembers(m, sha))
  {
    SourceLightIsScalar(m);
    SourceKeyIsScalar(m, sha);
    SourceValueIsScalar(m);
  }

  lemma SourceLightIsScalar(m: Message)
    requires m.time.Some?
    ensures AllScalar(SourceLight(m))
  {
    var ms := SourceLight(m);
    SourceNamesArePlain();
    forall i | 0 <= i < |ms| ensures Scalar(ms[i]) {
      if i == 0 {
        QuotedIsScalar(ms[i].key, m.topic);
      } else if i == 1 {
        NumberIsScalar(ms[i].key, m.partition);
      } else if i == 2 {
        NumberIsScalar(ms[i].key, m.offset);
      } else {
        StampIsScalar(ms[i].key, m.time.value);
      }
    }
  }

  lemma SourceKeyIsScalar(m: Message, sha: Hash)
    ensures AllScalar(SourceKey(m, sha))
  {
    var ms := SourceKey(m, sha);
    KeyNamesArePlain();
    forall i | 0 <= i < |ms| ensures Scalar(ms[i]) {
      if i == 0 {
        BytesAreScalar(ms[i].key, BoundedCopy(m.key, MAX_COPY).bytes);
      } else if i == 1 {
        QuotedIsScalar(ms[i].key, HexText(sha(m.key.GetOr([]))));
      } else if i == 2 {
        NumberIsScalar(ms[i].key, Size(m.key));
      } else {
        WordIsScalar(ms[i].key, ms[i].raw);
      }
    }
  }

  lemma SourceValueIsScalar(m: Message)
    ensures AllScalar(SourceValue(m))
  {
    var ms := SourceValue(m);
    ValueNamesArePlain();
    forall i | 0 <= i < |ms| ensures Scalar(ms[i]) {
      if i == 0 {
        BytesAreScalar(ms[i].key, BoundedCopy(m.value, MAX_COPY).bytes);
      } else if i == 1 {
        NumberIsScalar(ms[i].key, Size(m.value));
      } else {
        WordIsScalar(ms[i].key, ms[i].raw);
      }
    }
  }

  lemma PoisonNamesArePlain()
    ensures Plain(Ascii("record")) && Plain(Ascii("source")) && Plain(Ascii("subscription_id")) && Plain(Ascii("url"))
    ensures Plain(Ascii("attempts")) && Plain(Ascii("reason")) && Plain(Ascii("failed_at"))
  {
  }

  /** An object of scalars inside an object. */
  lemma NestedIsTight(name: Bytes, ms: seq<Member>)
    requires Plain(name) && ms != [] && AllScalar(ms)
    ensures Tight(Member(name, ObjectText(ms))) && Document(ObjectText(ms)).value.depth == 1
  {
    DeepestWithin(ms, 0);
    ObjectIsText(ms);
  }

  lemma NoRecordIsScalar()
    ensures AllScalar(RecordMembers(NO_RECORD))
  {
    WordIsScalar(DATA, NULL);
    OnlyTheData(NO_RECORD);
    var ms := RecordMembers(NO_RECORD);
    assert ms[3] == Member(DATA, NULL);
    forall i | 0 <= i < |ms| ensures Scalar(ms[i]) {
      if i == 3 {
        NamesArePlain();
      }
    }
  }

  lemma PoisonIsTight(m: Message, sha: Hash, error: Bytes, failedAt: Stamp)
    requires m.time.Some?
    ensures var ms := PoisonMembers(m, sha, error, failedAt); AllTight(ms) && Deepest(ms) <= 1
  {
    var ms := PoisonMembers(m, sha, error, failedAt);
    PoisonNamesArePlain();
    forall i | 0 <= i < |ms| ensures Tight(ms[i]) && Document(ms[i].raw).value.depth <= 1 {
      if i == 0 {
        NoRecordIsScalar();
        NestedIsTight(ms[i].key, RecordMembers(NO_RECORD));
      } else if i == 1 {
        SourceIsScalar(m, sha);
        NestedIsTight(ms[i].key, SourceMembers(m, sha));
      } else {
        LaterIsScalar(ms[i], error, failedAt);
      }
    }
    DeepestWithin(ms, 1);
  }

  lemma LaterIsScalar(m: Member, error: Bytes, failedAt: Stamp)
    requires Plain(m.key)
    requires m.raw == FormatInt(0) || m.raw == Quote([]) || m.raw == Quote(BoundedReason(error))
             || m.raw == QuotedStamp(failedAt)
    ensures Scalar(m)
  {
    if m.raw == FormatInt(0) {
      NumberIsScalar(m.key, 0);
    } else if m.raw == Quote([]) {
      QuotedIsScalar(m.key, []);
    } else if m.raw == Quote(BoundedReason(error)) {
      QuotedIsScalar(m.key, BoundedReason(error));
    } else {
      StampIsScalar(m.key, failedAt);
    }
  }

  /** A dead letter parses back to its parts: the record's coordinates, sizes and flags, and its bytes up to the
  limits. */
  lemma PoisonReads(m: Message, sha: Hash, error: Bytes, failedAt: Stamp)
    requires m.time.Some?
    ensures ObjectOf(ObjectText(PoisonMembers(m, sha, error, failedAt))) == Some(PoisonMembers(m, sha, error, failedAt))
    ensures ObjectOf(ObjectText(SourceMembers(m, sha))) == Some(SourceMembers(m, sha))
  {
    var ms := PoisonMembers(m, sha, error, failedAt);
    PoisonIsTight(m, sha, error, failedAt);
    TrimsNothing(ms);
    ObjectReads(ms);
    var source := SourceMembers(m, sha);
    SourceIsScalar(m, sha);
    DeepestWithin(source, 0);
    TrimsNothing(source);
    ObjectReads(source);
  }

  /** The bytes kept of a key or value come back from their text, and show whether they are all there were. */
  lemma BytesComeBack(value: Option<Bytes>)
    requires value.Some?
    ensures var text := BytesText(BoundedCopy(value, MAX_COPY).bytes);
            var read := ReadString(text[1..]);
            read.Some? && read.value.rest == [] &&
            Base64.Decode(read.value.value) == BoundedCopy(value, MAX_COPY).bytes &&
            (!BoundedCopy(value, MAX_COPY).truncated ==> Base64.Decode(read.value.value) == value)
  {
    var kept := BoundedCopy(value, MAX_COPY).bytes;
    KeyNamesArePlain();
    BytesAreScalar(Ascii("key"), kept);
    Base64.RoundTrip(kept.value);
  }

  // Its size

  /** What the members take up, separators included. */
  function Weight(ms: seq<Member>): nat {
    if ms == [] then 0 else |ms[0].key| + |ms[0].raw| + 4 + Weight(ms[1..])
  }

  lemma {:induction false} JoinedWeighs(ms: seq<Member>)
    requires ms != []
    ensures |Joined(ms)| + 1 == Weight(ms)
  {
    if |ms| == 1 {
      assert ms[1..] == [] && Weight(ms[1..]) == 0;
    } else {
      JoinedWeighs(ms[1..]);
    }
  }

  lemma {:induction false} WeightsAdd(a: seq<Member>, b: seq<Member>)
    ensures Weight(a + b) == Weight(a) + Weight(b)
  {
    if a == [] {
      assert a + b == b;
    } else {
      WeightsAdd(a[1..], b);
      assert (a + b)[0] == a[0] && (a + b)[1..] == a[1..] + b;
    }
  }

  /** One heavy member, if any, among light ones. */
  lemma {:induction false} WeighsAtMost(ms: seq<Member>, light: nat)
    requires forall i :: 0 <= i < |ms| ==> |ms[i].key| + |ms[i].raw| + 4 <= light
    ensures Weight(ms) <= |ms| * light
  {
    if ms == [] {
    } else {
      WeighsAtMost(ms[1..], light);
      assert |ms| * light == light + (|ms| - 1) * light;
    }
  }

  lemma HeadWeighs(ms: seq<Member>, light: nat)
    requires ms != [] && forall i :: 1 <= i < |ms| ==> |ms[i].key| + |ms[i].raw| + 4 <= light
    ensures Weight(ms) <= |ms[0].key| + |ms[0].raw| + 4 + (|ms| - 1) * light
  {
    WeighsAtMost(ms[1..], light);
  }

  /** Kafka's limit on a topic's name. */
  const MAX_TOPIC := 249

  const LIGHT := 1600
  const HEAVY := 349600

  lemma BytesTextFits(b: Option<Bytes>)
    requires b.Some? ==> |b.value| <= MAX_COPY
    ensures |BytesText(b)| <= 349530
  {
  }

  /** The sizes are Go ints. */
  predicate Sized(m: Message) {
    |m.topic| <= MAX_TOPIC && Int64(m.partition) && Int64(m.offset) && Int64(Size(m.key)) && Int64(Size(m.value))
  }

  ghost predicate Sha256(sha: Hash) {
    forall x :: |sha(x)| == 32
  }

  lemma SourceFits(m: Message, sha: Hash)
    requires m.time.Some? && Sized(m) && Sha256(sha)
    ensures |ObjectText(SourceMembers(m, sha))| <= 2 * HEAVY + 9 * LIGHT + 1
  {
    LightFits(m);
    KeyFits(m, sha);
    ValueFits(m);
    WeightsAdd(SourceLight(m), SourceKey(m, sha));
    WeightsAdd(SourceLight(m) + SourceKey(m, sha), SourceValue(m));
    JoinedWeighs(SourceMembers(m, sha));
  }

  lemma LightFits(m: Message)
    requires m.time.Some? && Sized(m)
    ensures Weight(SourceLight(m)) <= 4 * LIGHT
  {
    Int64IsShort(m.partition);
    Int64IsShort(m.offset);
    WeighsAtMost(SourceLight(m), LIGHT);
  }

  lemma KeyFits(m: Message, sha: Hash)
    requires Sized(m) && Sha256(sha)
    ensures Weight(SourceKey(m, sha)) <= HEAVY + 3 * LIGHT
  {
    BytesTextFits(BoundedCopy(m.key, MAX_COPY).bytes);
    Int64IsShort(Size(m.key));
    HeadWeighs(SourceKey(m, sha), LIGHT);
  }

  lemma ValueFits(m: Message)
    requires Sized(m)
    ensures Weight(SourceValue(m)) <= HEAVY + 2 * LIGHT
  {
    BytesTextFits(BoundedCopy(m.value, MAX_COPY).bytes);
    Int64IsShort(Size(m.value));
    HeadWeighs(SourceValue(m), LIGHT);
  }

  lemma NoRecordFits()
    ensures |ObjectText(RecordMembers(NO_RECORD))| <= 200
  {
    var ms := RecordMembers(NO_RECORD);
    NamesDiffer();
    WeighsAtMost(ms, 39);
    JoinedWeighs(ms);
  }

  /** Every undecodable record has a dead letter under a mebibyte, key included, whatever its key, value and error, if
  its timestamp can be marshalled; otherwise it has none. */
  lemma PoisonFits(m: Message, sha: Hash, error: Bytes, failedAt: Stamp)
    requires Sized(m) && Sha256(sha)
    ensures Poison(m, sha, error, failedAt).Some? <==> m.time.Some?
    ensures m.time.Some? ==> |Poison(m, sha, error, failedAt).value| + |PoisonKey(m)| + 1024 < MAX_BATCH
  {
    if m.time.Some? {
      EnvelopeFits(m, sha, error, failedAt);
      Int64IsShort(m.partition);
      Int64IsShort(m.offset);
    }
  }

  /** The source is the one heavy member of the envelope. */
  lemma EnvelopeFits(m: Message, sha: Hash, error: Bytes, failedAt: Stamp)
    requires m.time.Some? && Sized(m) && Sha256(sha)
    ensures |ObjectText(PoisonMembers(m, sha, error, failedAt))| <= 2 * HEAVY + 9 * LIGHT + 6 * 24700 + 12
  {
    var ms := PoisonMembers(m, sha, error, failedAt);
    SourceFits(m, sha);
    NoRecordFits();
    ReasonIsBounded(error);
    Int64IsShort(0);
    SecondWeighs(ms, 24700, |ms[1].key| + |ms[1].raw| + 4);
  }

  /** One heavy member in second place. */
  lemma SecondWeighs(ms: seq<Member>, light: nat, heavy: nat)
    requires |ms| == 7 && |ms[1].key| + |ms[1].raw| + 4 <= heavy
    requires forall i :: 0 <= i < |ms| && i != 1 ==> |ms[i].key| + |ms[i].raw| + 4 <= light
    ensures |ObjectText(ms)| <= heavy + 6 * light + 1
  {
    WeighsAtMost(ms[..1], light);
    HeadWeighs(ms[1..], light);
    WeightsAdd(ms[..1], ms[1..]);
    assert ms[..1] + ms[1..] == ms;
    JoinedWeighs(ms);
  }
}
