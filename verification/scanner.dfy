/** The secret scanner of scripts/m4-evidence.py: a worklist over a file's bytes and everything carried
inside them as JSON strings or base64 record fields. */
module Scanner {
  import opened Common

  const CARRIER_KEYS := ["key", "value", "raw_value"]
  const MAX_FILE := 8 * 1024 * 1024
  const MAX_DECODED := 32 * 1024 * 1024
  const MAX_DEPTH := 4

  datatype Json = JNull | JBool(b: bool) | JNumber(text: string) | JString(s: string)
                | JArray(items: seq<Json>) | JObject(fields: seq<Field>)
  datatype Field = Field(key: string, value: Json)

  datatype Parsed = NotJson | RepeatedKey | Value(json: Json)

  /** One fingerprint of a secret's representation. */
  datatype Entry = Entry(name: string, length: nat, digest: string)

  /** The library calls: SHA-256, JSON, line splitting, the log-prefix pattern, UTF-8 and base64. */
  datatype Library = Library(
    sha: Bytes -> string, parse: Bytes -> Parsed, lines: Bytes -> seq<Bytes>, strip: Bytes -> Bytes,
    utf8: string -> Option<Bytes>, base64: string -> Option<Bytes>)

  datatype Outcome = Clean | CredentialMatch(name: string) | FileTooLarge | DecodedTooLarge | TooDeep
                   | InvalidCarrier | DuplicateKey | NotEncodable

  // What the scanner must cover

  ghost predicate Matches(lib: Library, entries: seq<Entry>, v: Bytes) {
    exists i, start :: MatchAt(lib, entries, v, i, start)
  }

  ghost predicate MatchesName(lib: Library, entries: seq<Entry>, v: Bytes, name: string) {
    exists i, start :: MatchAt(lib, entries, v, i, start) && entries[i].name == name
  }

  ghost predicate MatchAt(lib: Library, entries: seq<Entry>, v: Bytes, i: int, start: int) {
    && 0 <= i < |entries| && 0 <= start && start + entries[i].length <= |v|
    && lib.sha(v[start..start + entries[i].length]) == entries[i].digest
  }

  function Candidates(lib: Library, v: Bytes): seq<Bytes> {
    [v] + lib.lines(v)
  }

  /** `n` occurs in `j`: as an element, a field's value, or a field's key. */
  ghost predicate Occurs(j: Json, n: Json) {
    n == j || match j
              case JArray(items) => exists i :: 0 <= i < |items| && Occurs(items[i], n)
              case JObject(fields) =>
                exists i :: 0 <= i < |fields| && (n == JString(fields[i].key) || Occurs(fields[i].value, n))
              case _ => false
  }

  predicate HasKey(fields: seq<Field>, key: string) {
    exists i :: 0 <= i < |fields| && fields[i].key == key
  }

  predicate IsRecord(fields: seq<Field>) {
    HasKey(fields, "topic") && HasKey(fields, "partition") && HasKey(fields, "offset")
  }

  predicate IsCarrierKey(key: string) { key == "key" || key == "value" || key == "raw_value" }

  function Lookup(fields: seq<Field>, key: string): Option<Json> {
    if fields == [] then None
    else if fields[0].key == key then Some(fields[0].value)
    else Lookup(fields[1..], key)
  }

  /** The base64 text under one of the carrier keys. */
  ghost predicate FieldCarries(lib: Library, fields: seq<Field>, key: string, w: Bytes) {
    && IsCarrierKey(key)
    && var value := Lookup(fields, key);
       value.Some? && value.value.JString? && lib.base64(value.value.s) == Some(w)
  }

  /** A carrier key that holds neither null nor base64 text. */
  ghost predicate FieldBroken(lib: Library, fields: seq<Field>, key: string) {
    && IsCarrierKey(key)
    && var value := Lookup(fields, key);
       value.Some? && !value.value.JNull? && !(value.value.JString? && lib.base64(value.value.s).Some?)
  }

  /** The bytes one JSON node carries: a string's own, or a Kafka record's base64 fields. */
  ghost predicate Carries(lib: Library, n: Json, w: Bytes) {
    match n
    case JString(s) => lib.utf8(s) == Some(w)
    case JObject(fields) =>
      IsRecord(fields) && exists key :: FieldCarries(lib, fields, key, w)
    case _ => false
  }

  /** A record with a broken carrier. */
  ghost predicate BadCarrier(lib: Library, n: Json) {
    n.JObject? && IsRecord(n.fields) && exists key :: FieldBroken(lib, n.fields, key)
  }

  /** A string without UTF-8, such as a lone surrogate. */
  ghost predicate Unencodable(lib: Library, n: Json) { n.JString? && lib.utf8(n.s).None? }

  predicate Holder(j: Json) { j.JString? || j.JArray? || j.JObject? }

  /** The JSON value of the k-th candidate. */
  ghost predicate Decodes(lib: Library, v: Bytes, k: int, j: Json) {
    0 <= k < |Candidates(lib, v)| && lib.parse(lib.strip(Candidates(lib, v)[k])) == Value(j)
  }

  ghost predicate HasNode(lib: Library, v: Bytes, n: Json) {
    exists k, j :: Decodes(lib, v, k, j) && Occurs(j, n)
  }

  ghost predicate HasHolder(lib: Library, v: Bytes) {
    exists k, j :: Decodes(lib, v, k, j) && Holder(j)
  }

  ghost predicate RepeatsKey(lib: Library, v: Bytes, k: int) {
    0 <= k < |Candidates(lib, v)| && lib.parse(lib.strip(Candidates(lib, v)[k])).RepeatedKey?
  }

  ghost predicate HasRepeatedKey(lib: Library, v: Bytes) {
    exists k :: RepeatsKey(lib, v, k)
  }

  ghost predicate HasBadCarrier(lib: Library, v: Bytes) {
    exists n :: HasNode(lib, v, n) && BadCarrier(lib, n)
  }

  ghost predicate HasUnencodable(lib: Library, v: Bytes) {
    exists n :: HasNode(lib, v, n) && Unencodable(lib, n)
  }

  ghost predicate CarriedBy(lib: Library, line: Bytes, w: Bytes) {
    && lib.parse(lib.strip(line)).Value?
    && exists n :: Occurs(lib.parse(lib.strip(line)).json, n) && Carries(lib, n, w)
  }

  ghost predicate Child(lib: Library, v: Bytes, w: Bytes) {
    exists k :: 0 <= k < |Candidates(lib, v)| && CarriedBy(lib, Candidates(lib, v)[k], w)
  }

  ghost predicate IsPath(lib: Library, path: seq<Bytes>) {
    |path| > 0 && forall k :: 0 <= k < |path| - 1 ==> Child(lib, path[k], path[k + 1])
  }

  /** `v` is the content, or carried in something reachable. */
  ghost predicate Reachable(lib: Library, content: Bytes, v: Bytes) {
    exists path :: IsPath(lib, path) && path[0] == content && path[|path| - 1] == v
  }

  /** ... by that many carries. */
  ghost predicate ReachableIn(lib: Library, content: Bytes, v: Bytes, carries: int) {
    exists path :: IsPath(lib, path) && |path| == carries + 1 && path[0] == content && path[|path| - 1] == v
  }

  lemma ReachStep(lib: Library, content: Bytes, v: Bytes, w: Bytes, carries: int)
    requires ReachableIn(lib, content, v, carries) && Child(lib, v, w)
    ensures ReachableIn(lib, content, w, carries + 1)
  {
    var path :| IsPath(lib, path) && |path| == carries + 1 && path[0] == content && path[|path| - 1] == v;
    var longer := path + [w];
    forall k | 0 <= k < |longer| - 1
      ensures Child(lib, longer[k], longer[k + 1])
    {
      if k < |path| - 1 {
        assert Child(lib, path[k], path[k + 1]);
      }
    }
    assert IsPath(lib, longer);
  }

  lemma ReachSelf(lib: Library, content: Bytes)
    ensures ReachableIn(lib, content, content, 0)
  {
    assert IsPath(lib, [content]);
  }

  /** Different reachable values. */
  ghost predicate DistinctReachable(lib: Library, content: Bytes, vs: seq<Bytes>) {
    && (forall i, j :: 0 <= i < j < |vs| ==> vs[i] != vs[j])
    && forall i :: 0 <= i < |vs| ==> Reachable(lib, content, vs[i])
  }

  function Total(vs: seq<Bytes>): nat {
    if vs == [] then 0 else Total(vs[..|vs| - 1]) + |vs[|vs| - 1]|
  }

  /** Nothing in the value is a reason to refuse it, and JSON is read in it only within three carries. */
  ghost predicate Readable(lib: Library, content: Bytes, v: Bytes) {
    && !HasRepeatedKey(lib, v) && !HasBadCarrier(lib, v) && !HasUnencodable(lib, v)
    && (HasHolder(lib, v) ==> exists d :: 0 <= d <= 3 && ReachableIn(lib, content, v, d))
  }

  /** A set that holds the content and everything its members carry holds everything reachable. */
  lemma {:induction false} ClosedCovers(lib: Library, done: set<Bytes>, path: seq<Bytes>)
    requires IsPath(lib, path) && path[0] in done
    requires forall v, w :: v in done && Child(lib, v, w) ==> w in done
    ensures path[|path| - 1] in done
    decreases |path|
  {
    if |path| <= 1 {
    } else {
      assert Child(lib, path[0], path[1]);
      forall k | 0 <= k < |path[1..]| - 1
        ensures Child(lib, path[1..][k], path[1..][k + 1])
      {
        assert Child(lib, path[k + 1], path[k + 2]);
      }
      ClosedCovers(lib, done, path[1..]);
    }
  }

  // Sizes of JSON values, for the inner worklist

  function Size(j: Json): nat {
    match j
    case JArray(items) => 1 + SizeAll(items)
    case JObject(fields) => 1 + SizeFields(fields)
    case _ => 1
  }

  function SizeAll(items: seq<Json>): nat {
    if items == [] then 0 else SizeAll(items[..|items| - 1]) + Size(items[|items| - 1])
  }

  function SizeFields(fields: seq<Field>): nat {
    if fields == [] then 0
    else SizeFields(fields[..|fields| - 1]) + 1 + Size(fields[|fields| - 1].value)
  }

  lemma {:induction false} SizeAllAppends(a: seq<Json>, b: seq<Json>)
    ensures SizeAll(a + b) == SizeAll(a) + SizeAll(b)
  {
    if b == [] {
      assert a + b == a;
    } else {
      assert (a + b)[..|a + b| - 1] == a + b[..|b| - 1];
      SizeAllAppends(a, b[..|b| - 1]);
    }
  }

  function Keys(fields: seq<Field>): seq<Json> {
    seq(|fields|, i requires 0 <= i < |fields| => JString(fields[i].key))
  }

  function Values(fields: seq<Field>): seq<Json> {
    seq(|fields|, i requires 0 <= i < |fields| => fields[i].value)
  }

  lemma {:induction false} SizeOfParts(fields: seq<Field>)
    ensures SizeAll(Keys(fields)) + SizeAll(Values(fields)) == SizeFields(fields)
  {
    if fields == [] {
    } else {
      var most := fields[..|fields| - 1];
      SizeOfParts(most);
      assert Keys(fields)[..|fields| - 1] == Keys(most);
      assert Values(fields)[..|fields| - 1] == Values(most);
    }
  }

  // The scan

  /** A value waiting to be scanned. */
  datatype Item = Item(value: Bytes, depth: nat)

  ghost predicate Queued(pending: seq<Item>, w: Bytes) {
    exists k :: 0 <= k < |pending| && pending[k].value == w
  }

  /** Everything `n` carries is waiting. */
  ghost predicate Covered(lib: Library, pending: seq<Item>, n: Json) {
    forall w :: Carries(lib, n, w) ==> Queued(pending, w)
  }

  lemma QueuedGrows(pending: seq<Item>, more: seq<Item>, w: Bytes)
    requires pending <= more && Queued(pending, w)
    ensures Queued(more, w)
  {
    var k :| 0 <= k < |pending| && pending[k].value == w;
    assert more[k].value == w;
  }

  /** Looks for any window of the value with a known fingerprint. */
  method FindMatch(lib: Library, entries: seq<Entry>, v: Bytes) returns (found: Option<string>)
    ensures found.None? <==> !Matches(lib, entries, v)
    ensures found.Some? ==> MatchesName(lib, entries, v, found.value)
  {
    for i := 0 to |entries|
      invariant forall k, start :: 0 <= k < i ==> !MatchAt(lib, entries, v, k, start)
    {
      var length := entries[i].length;
      if length <= |v| {
        for start := 0 to |v| - length + 1
          invariant forall k, x :: 0 <= k < i ==> !MatchAt(lib, entries, v, k, x)
          invariant forall x :: 0 <= x < start ==> !MatchAt(lib, entries, v, i, x)
        {
          if lib.sha(v[start..start + length]) == entries[i].digest {
            assert MatchAt(lib, entries, v, i, start);
            return Some(entries[i].name);
          }
        }
      }
    }
    found := None;
  }

  /** What has been queued behind `pending` is one carry deeper. */
  ghost predicate Deeper(pending: seq<Item>, queue: seq<Item>, depth: nat) {
    pending <= queue && forall k :: |pending| <= k < |queue| ==> queue[k].depth == depth + 1
  }

  /** Queues the base64 fields of a Kafka record. */
  method QueueRecord(lib: Library, fields: seq<Field>, depth: nat, pending: seq<Item>)
      returns (queue: seq<Item>, problem: Outcome)
    requires IsRecord(fields)
    ensures Deeper(pending, queue, depth)
    ensures problem.Clean? ==> Covered(lib, queue, JObject(fields)) && !BadCarrier(lib, JObject(fields))
    ensures problem.InvalidCarrier? ==> BadCarrier(lib, JObject(fields))
    ensures problem.TooDeep? ==> depth >= 4
    ensures problem.Clean? || problem.InvalidCarrier? || problem.TooDeep?
    ensures forall k :: |pending| <= k < |queue| ==> Carries(lib, JObject(fields), queue[k].value)
  {
    queue := pending;
    for i := 0 to |CARRIER_KEYS|
      invariant Deeper(pending, queue, depth)
      invariant forall k :: |pending| <= k < |queue| ==> Carries(lib, JObject(fields), queue[k].value)
      invariant forall k, w :: 0 <= k < i && FieldCarries(lib, fields, CARRIER_KEYS[k], w) ==> Queued(queue, w)
      invariant forall k :: 0 <= k < i ==> !FieldBroken(lib, fields, CARRIER_KEYS[k])
    {
      var key := CARRIER_KEYS[i];
      assert IsCarrierKey(key);
      var encoded := Lookup(fields, key);
      if encoded.None? || encoded.value.JNull? {
        continue;
      }
      if !encoded.value.JString? {
        assert FieldBroken(lib, fields, key);
        return queue, InvalidCarrier;
      }
      if depth >= MAX_DEPTH {
        return queue, TooDeep;
      }
      var bytes := lib.base64(encoded.value.s);
      if bytes.None? {
        assert FieldBroken(lib, fields, key);
        return queue, InvalidCarrier;
      }
      ghost var before := queue;
      queue := queue + [Item(bytes.value, depth + 1)];
      assert queue[|before|].value == bytes.value;
      forall w | Queued(before, w)
        ensures Queued(queue, w)
      {
        QueuedGrows(before, queue, w);
      }
      assert FieldCarries(lib, fields, key, bytes.value);
    }
    AllCarrierKeys();
    problem := Clean;
  }

  lemma AllCarrierKeys()
    ensures forall key :: IsCarrierKey(key) ==> exists k :: 0 <= k < |CARRIER_KEYS| && CARRIER_KEYS[k] == key
  {
    assert CARRIER_KEYS[0] == "key" && CARRIER_KEYS[1] == "value" && CARRIER_KEYS[2] == "raw_value";
  }

  /** Every node of the decoded value is covered, or still below something on the stack. */
  ghost predicate WalkInv(lib: Library, json: Json, objects: seq<Json>, pending: seq<Item>) {
    forall n :: Occurs(json, n) ==>
      OnStack(objects, n) || (Covered(lib, pending, n) && !BadCarrier(lib, n) && !Unencodable(lib, n))
  }

  ghost predicate OnStack(objects: seq<Json>, n: Json) {
    exists k :: 0 <= k < |objects| && Occurs(objects[k], n)
  }

  lemma OnStackAppends(a: seq<Json>, b: seq<Json>, n: Json)
    ensures OnStack(a + b, n) <==> OnStack(a, n) || OnStack(b, n)
  {
    if OnStack(a, n) {
      var k :| 0 <= k < |a| && Occurs(a[k], n);
      assert (a + b)[k] == a[k];
    }
    if OnStack(b, n) {
      var k :| 0 <= k < |b| && Occurs(b[k], n);
      assert (a + b)[|a| + k] == b[k];
    }
  }

  /** What lies below a node is the node and what lies below its parts. */
  lemma Unfolds(item: Json, n: Json)
    requires Occurs(item, n)
    ensures n == item || OnStack(Parts(item), n)
  {
    match item {
      case JArray(items) =>
        if n != item {
          var i :| 0 <= i < |items| && Occurs(items[i], n);
          assert Parts(item)[i] == items[i];
        }
      case JObject(fields) =>
        if n != item {
          var i :| 0 <= i < |fields| && (n == JString(fields[i].key) || Occurs(fields[i].value, n));
          if n == JString(fields[i].key) {
            assert Parts(item)[i] == n && Occurs(n, n);
          } else {
            assert Parts(item)[|fields| + i] == fields[i].value;
          }
        }
      case _ =>
    }
  }

  function Parts(item: Json): seq<Json> {
    match item
    case JArray(items) => items
    case JObject(fields) => Keys(fields) + Values(fields)
    case _ => []
  }

  lemma PartsAreSmaller(item: Json)
    ensures SizeAll(Parts(item)) < Size(item)
  {
    if item.JObject? {
      SizeAllAppends(Keys(item.fields), Values(item.fields));
      SizeOfParts(item.fields);
    }
  }

  lemma {:induction false} PartsOccur(json: Json, item: Json, part: Json)
    requires Occurs(json, item) && part in Parts(item)
    ensures Occurs(json, part)
    decreases json
  {
    if item == json {
      match item {
        case JArray(items) =>
          var i :| 0 <= i < |items| && items[i] == part;
          assert Occurs(items[i], part);
        case JObject(fields) =>
          var i :| 0 <= i < |Parts(item)| && Parts(item)[i] == part;
          if i < |fields| {
            assert part == JString(fields[i].key);
          } else {
            assert part == fields[i - |fields|].value;
            assert Occurs(fields[i - |fields|].value, part);
          }
      }
    } else {
      match json {
        case JArray(items) =>
          var i :| 0 <= i < |items| && Occurs(items[i], item);
          PartsOccur(items[i], item, part);
        case JObject(fields) =>
          var i :| 0 <= i < |fields| && (item == JString(fields[i].key) || Occurs(fields[i].value, item));
          if Occurs(fields[i].value, item) {
            PartsOccur(fields[i].value, item, part);
          }
      }
    }
  }

  /** Walks one decoded value with its own stack and queues everything it carries. */
  method QueueCarried(lib: Library, json: Json, depth: nat, pending: seq<Item>)
      returns (queue: seq<Item>, problem: Outcome)
    ensures Deeper(pending, queue, depth)
    ensures problem.Clean? ==> forall n :: Occurs(json, n) ==> Covered(lib, queue, n)
    ensures problem.Clean? ==> forall n :: Occurs(json, n) ==> !BadCarrier(lib, n) && !Unencodable(lib, n)
    ensures problem.InvalidCarrier? ==> exists n :: Occurs(json, n) && BadCarrier(lib, n)
    ensures problem.NotEncodable? ==> exists n :: Occurs(json, n) && Unencodable(lib, n)
    ensures problem.TooDeep? ==> depth >= 4 && Holder(json)
    ensures forall k :: |pending| <= k < |queue| ==> exists n :: Occurs(json, n) && Carries(lib, n, queue[k].value)
    ensures problem.Clean? || problem.InvalidCarrier? || problem.TooDeep? || problem.NotEncodable?
  {
    queue := pending;
    var objects := [json];
    assert objects[0] == json;
    while objects != []
      invariant Deeper(pending, queue, depth) && WalkInv(lib, json, objects, queue)
      invariant forall k :: 0 <= k < |objects| ==> Occurs(json, objects[k])
      invariant forall k :: |pending| <= k < |queue| ==> exists n :: Occurs(json, n) && Carries(lib, n, queue[k].value)
      decreases SizeAll(objects)
    {
      var item := objects[|objects| - 1];
      ghost var stack, before := objects, queue;
      objects := objects[..|objects| - 1];
      queue, problem := QueueNode(lib, item, depth, queue);
      if !problem.Clean? {
        return;
      }
      WalkStep(lib, json, stack, before, queue);
      PartsAreSmaller(item);
      SizeAllAppends(objects, Parts(item));
      forall part | part in Parts(item)
        ensures Occurs(json, part)
      {
        PartsOccur(json, item, part);
      }
      objects := objects + Parts(item);
    }
    forall n | Occurs(json, n)
      ensures Covered(lib, queue, n) && !BadCarrier(lib, n) && !Unencodable(lib, n)
    {
      assert !OnStack([], n);
    }
    problem := Clean;
  }

  method QueueNode(lib: Library, item: Json, depth: nat, pending: seq<Item>)
      returns (queue: seq<Item>, problem: Outcome)
    ensures Deeper(pending, queue, depth)
    ensures problem.Clean? ==> Covered(lib, queue, item) && !BadCarrier(lib, item) && !Unencodable(lib, item)
    ensures problem.InvalidCarrier? ==> BadCarrier(lib, item)
    ensures problem.NotEncodable? ==> Unencodable(lib, item)
    ensures problem.TooDeep? ==> depth >= 4 && item.JObject?
    ensures forall k :: |pending| <= k < |queue| ==> Carries(lib, item, queue[k].value)
    ensures problem.Clean? || problem.InvalidCarrier? || problem.TooDeep? || problem.NotEncodable?
  {
    queue, problem := pending, Clean;
    match item {
      case JString(s) =>
        var bytes := lib.utf8(s);
        if bytes.None? {
          return queue, NotEncodable;
        }
        queue := queue + [Item(bytes.value, depth + 1)];
        assert queue[|pending|].value == bytes.value;
      case JObject(fields) =>
        if HasKey(fields, "topic") && HasKey(fields, "partition") && HasKey(fields, "offset") {
          queue, problem := QueueRecord(lib, fields, depth, queue);
        }
      case _ =>
    }
  }

  lemma WalkStep(lib: Library, json: Json, stack: seq<Json>, before: seq<Item>, queue: seq<Item>)
    requires stack != [] && WalkInv(lib, json, stack, before) && before <= queue
    requires var item := stack[|stack| - 1];
             Covered(lib, queue, item) && !BadCarrier(lib, item) && !Unencodable(lib, item)
    ensures WalkInv(lib, json, stack[..|stack| - 1] + Parts(stack[|stack| - 1]), queue)
  {
    var item, rest := stack[|stack| - 1], stack[..|stack| - 1];
    forall n | Occurs(json, n)
      ensures OnStack(rest + Parts(item), n)
              || (Covered(lib, queue, n) && !BadCarrier(lib, n) && !Unencodable(lib, n))
    {
      if !OnStack(stack, n) {
        forall w | Carries(lib, n, w)
          ensures Queued(queue, w)
        {
          QueuedGrows(before, queue, w);
        }
      } else {
        assert stack == rest + [item];
        OnStackAppends(rest, [item], n);
        OnStackAppends(rest, Parts(item), n);
        if OnStack([item], n) {
          Unfolds(item, n);
        }
      }
    }
  }

  /** Decodes the value and each of its lines and queues what they carry.  Each refusal names something in the
  value; without one everything carried is queued and nothing in it is a reason to refuse. */
  method QueueLines(lib: Library, v: Bytes, depth: nat, pending: seq<Item>) returns (queue: seq<Item>, problem: Outcome)
    ensures Deeper(pending, queue, depth)
    ensures problem.Clean? ==> forall w :: Child(lib, v, w) ==> Queued(queue, w)
    ensures problem.Clean? ==> !HasRepeatedKey(lib, v) && !HasBadCarrier(lib, v) && !HasUnencodable(lib, v)
    ensures problem.Clean? && depth >= 4 ==> !HasHolder(lib, v)
    ensures problem.DuplicateKey? ==> HasRepeatedKey(lib, v)
    ensures problem.InvalidCarrier? ==> HasBadCarrier(lib, v)
    ensures problem.NotEncodable? ==> HasUnencodable(lib, v)
    ensures problem.TooDeep? ==> depth >= 4 && HasHolder(lib, v)
    ensures forall k :: |pending| <= k < |queue| ==> Child(lib, v, queue[k].value)
    ensures !problem.CredentialMatch? && !problem.FileTooLarge? && !problem.DecodedTooLarge?
  {
    queue := pending;
    var lines := [v] + lib.lines(v);
    for i := 0 to |lines|
      invariant Deeper(pending, queue, depth)
      invariant forall k, w :: 0 <= k < i && CarriedBy(lib, lines[k], w) ==> Queued(queue, w)
      invariant forall k :: 0 <= k < i ==> LineReads(lib, v, k, depth)
      invariant forall k :: |pending| <= k < |queue| ==> Child(lib, v, queue[k].value)
    {
      var decoded := lib.parse(lib.strip(lines[i]));
      if decoded.NotJson? {
        continue;
      }
      if decoded.RepeatedKey? {
        assert RepeatsKey(lib, v, i);
        return queue, DuplicateKey;
      }
      var json := decoded.json;
      assert Decodes(lib, v, i, json);
      if depth >= MAX_DEPTH && (json.JString? || json.JArray? || json.JObject?) {
        return queue, TooDeep;
      }
      ghost var before := queue;
      queue, problem := QueueCarried(lib, json, depth, queue);
      forall k | |before| <= k < |queue|
        ensures Child(lib, v, queue[k].value)
      {
        assert CarriedBy(lib, lines[i], queue[k].value);
      }
      if !problem.Clean? {
        return;
      }
      forall k, w | 0 <= k < i + 1 && CarriedBy(lib, lines[k], w)
        ensures Queued(queue, w)
      {
        if k < i {
          QueuedGrows(before, queue, w);
        }
      }
    }
    LinesRead(lib, v, depth);
    problem := Clean;
  }

  /** Nothing in the k-th candidate is a reason to refuse it at this depth. */
  ghost predicate LineReads(lib: Library, v: Bytes, k: int, depth: nat) {
    && !RepeatsKey(lib, v, k)
    && forall j :: Decodes(lib, v, k, j) ==>
         && (depth >= 4 ==> !Holder(j))
         && forall n :: Occurs(j, n) ==> !BadCarrier(lib, n) && !Unencodable(lib, n)
  }

  lemma LinesRead(lib: Library, v: Bytes, depth: nat)
    requires forall k :: 0 <= k < |Candidates(lib, v)| ==> LineReads(lib, v, k, depth)
    ensures !HasRepeatedKey(lib, v) && !HasBadCarrier(lib, v) && !HasUnencodable(lib, v)
    ensures depth >= 4 ==> !HasHolder(lib, v)
  {
    forall k ensures !RepeatsKey(lib, v, k) {
      if 0 <= k < |Candidates(lib, v)| {
        assert LineReads(lib, v, k, depth);
      }
    }
    forall k, j | Decodes(lib, v, k, j)
      ensures depth >= 4 ==> !Holder(j)
      ensures forall n :: Occurs(j, n) ==> !BadCarrier(lib, n) && !Unencodable(lib, n)
    {
      assert LineReads(lib, v, k, depth);
    }
  }

  /** What has been scanned holds no secret and no reason to refuse it, and everything it carries is scanned or
  waiting.  `visited` is what has been scanned, in order. */
  ghost predicate ScanInv(lib: Library, entries: seq<Entry>, content: Bytes, scanned: set<Bytes>, visited: seq<Bytes>,
                          pending: seq<Item>) {
    && (content in scanned || Queued(pending, content))
    && (forall v :: v in scanned ==> !Matches(lib, entries, v) && Readable(lib, content, v))
    && (forall v, w :: v in scanned && Child(lib, v, w) ==> w in scanned || Queued(pending, w))
    && (forall k :: 0 <= k < |pending| ==> Waits(lib, content, pending[k]))
    && DistinctReachable(lib, content, visited) && forall v :: v in visited <==> v in scanned
  }

  /** An item's depth is a number of carries that leads to it, four at most. */
  ghost predicate Waits(lib: Library, content: Bytes, item: Item) {
    item.depth <= 4 && ReachableIn(lib, content, item.value, item.depth)
  }

  /** Some reachable value gives a reason to refuse the file. */
  ghost predicate Refusable(lib: Library, content: Bytes) {
    || |content| > 8_388_608
    || (exists v :: Reachable(lib, content, v) && HasRepeatedKey(lib, v))
    || (exists v :: Reachable(lib, content, v) && HasBadCarrier(lib, v))
    || (exists v :: Reachable(lib, content, v) && HasUnencodable(lib, v))
    || (exists v :: ReachableIn(lib, content, v, 4) && HasHolder(lib, v))
    || (exists vs :: DistinctReachable(lib, content, vs) && Total(vs) > 33_554_432)
  }

  /** Scans a file.  A clean answer covers everything reachable in it, at any depth, and a match is real; every other
  answer names what it is for, so a file without a match and without such a reason is clean.  It ends because every
  value scanned for the first time uses up decoded bytes, apart from the empty one, and any other turn only shortens
  the list. */
  method ScanSecretBytes(lib: Library, content: Bytes, entries: seq<Entry>) returns (r: Outcome)
    ensures r.Clean? ==> forall v :: Reachable(lib, content, v) ==>
                           !Matches(lib, entries, v) && Readable(lib, content, v)
    ensures r.Clean? ==> exists vs :: DistinctReachable(lib, content, vs) && Total(vs) <= 33_554_432
                                      && forall v :: Reachable(lib, content, v) ==> v in vs
    ensures r.CredentialMatch? ==> exists v :: Reachable(lib, content, v) && MatchesName(lib, entries, v, r.name)
    ensures r.FileTooLarge? <==> |content| > 8_388_608
    ensures r.DuplicateKey? ==> exists v :: Reachable(lib, content, v) && HasRepeatedKey(lib, v)
    ensures r.InvalidCarrier? ==> exists v :: Reachable(lib, content, v) && HasBadCarrier(lib, v)
    ensures r.NotEncodable? ==> exists v :: Reachable(lib, content, v) && HasUnencodable(lib, v)
    ensures r.TooDeep? ==> exists v :: ReachableIn(lib, content, v, 4) && HasHolder(lib, v)
    ensures r.DecodedTooLarge? ==> exists vs :: DistinctReachable(lib, content, vs) && Total(vs) > 33_554_432
    ensures !Refusable(lib, content) && (forall v :: Reachable(lib, content, v) ==> !Matches(lib, entries, v)) ==>
              r.Clean?
  {
    if |content| > MAX_FILE {
      return FileTooLarge;
    }
    var pending := [Item(content, 0)];
    var scanned: set<Bytes> := {};
    var total: nat := 0;
    ghost var visited: seq<Bytes> := [];
    ReachSelf(lib, content);
    assert pending[0].value == content;
    while pending != []
      invariant ScanInv(lib, entries, content, scanned, visited, pending)
      invariant total == Total(visited) <= MAX_DECODED
      decreases MAX_DECODED - total + (if [] in scanned then 0 else 1), |pending|
    {
      var item := pending[|pending| - 1];
      ghost var was, before := pending, scanned;
      assert Waits(lib, content, item);
      pending := pending[..|pending| - 1];
      if item.value in scanned {
        PopKeeps(lib, entries, content, scanned, visited, was);
        continue;
      }
      scanned := scanned + {item.value};
      total := total + |item.value|;
      ghost var seen := visited;
      visited := visited + [item.value];
      OneMoreVisited(lib, content, seen, item);
      if total > MAX_DECODED {
        return DecodedTooLarge;
      }
      var found := FindMatch(lib, entries, item.value);
      if found.Some? {
        return CredentialMatch(found.value);
      }
      var problem;
      ghost var popped := pending;
      pending, problem := QueueLines(lib, item.value, item.depth, pending);
      if !problem.Clean? {
        return problem;
      }
      ScanStep(lib, entries, content, before, seen, was, popped, pending);
    }
    ScanCovers(lib, entries, content, scanned, visited);
    r := Clean;
  }

  /** With nothing waiting, everything reachable has been scanned. */
  lemma ScanCovers(lib: Library, entries: seq<Entry>, content: Bytes, scanned: set<Bytes>, visited: seq<Bytes>)
    requires ScanInv(lib, entries, content, scanned, visited, [])
    ensures forall v :: Reachable(lib, content, v) ==> !Matches(lib, entries, v) && Readable(lib, content, v)
    ensures forall v :: Reachable(lib, content, v) ==> v in visited
  {
    forall v | Reachable(lib, content, v)
      ensures v in scanned
    {
      var path :| IsPath(lib, path) && path[0] == content && path[|path| - 1] == v;
      ClosedCovers(lib, scanned, path);
    }
  }

  lemma WaitsReachable(lib: Library, content: Bytes, item: Item)
    requires Waits(lib, content, item)
    ensures Reachable(lib, content, item.value)
  {
    var path :| IsPath(lib, path) && |path| == item.depth + 1 && path[0] == content && path[|path| - 1] == item.value;
  }

  lemma OneMoreVisited(lib: Library, content: Bytes, visited: seq<Bytes>, item: Item)
    requires DistinctReachable(lib, content, visited) && Waits(lib, content, item) && item.value !in visited
    ensures DistinctReachable(lib, content, visited + [item.value])
    ensures Total(visited + [item.value]) == Total(visited) + |item.value|
    ensures Reachable(lib, content, item.value)
  {
    WaitsReachable(lib, content, item);
    assert (visited + [item.value])[..|visited|] == visited;
  }

  lemma PopKeeps(lib: Library, entries: seq<Entry>, content: Bytes, scanned: set<Bytes>, visited: seq<Bytes>,
                 was: seq<Item>)
    requires was != [] && ScanInv(lib, entries, content, scanned, visited, was) && was[|was| - 1].value in scanned
    ensures ScanInv(lib, entries, content, scanned, visited, was[..|was| - 1])
  {
    var rest := was[..|was| - 1];
    forall w | Queued(was, w)
      ensures Queued(rest, w) || w in scanned
    {
      var k :| 0 <= k < |was| && was[k].value == w;
      if k < |rest| {
        assert rest[k].value == w;
      }
    }
  }

  /** Bytes are carried only in a string, an array or an object. */
  lemma ChildNeedsHolder(lib: Library, v: Bytes, w: Bytes)
    requires Child(lib, v, w)
    ensures HasHolder(lib, v)
  {
    var k :| 0 <= k < |Candidates(lib, v)| && CarriedBy(lib, Candidates(lib, v)[k], w);
    assert Decodes(lib, v, k, lib.parse(lib.strip(Candidates(lib, v)[k])).json);
  }

  lemma ScanStep(lib: Library, entries: seq<Entry>, content: Bytes, before: set<Bytes>, visited: seq<Bytes>,
                 was: seq<Item>, popped: seq<Item>, pending: seq<Item>)
    requires was != [] && ScanInv(lib, entries, content, before, visited, was)
    requires popped == was[..|was| - 1] && popped <= pending
    requires var item := was[|was| - 1];
             && item.value !in before && !Matches(lib, entries, item.value)
             && Readable(lib, content, item.value)
             && Deeper(popped, pending, item.depth) && (item.depth >= 4 ==> !HasHolder(lib, item.value))
    requires forall w :: Child(lib, was[|was| - 1].value, w) ==> Queued(pending, w)
    requires forall k :: |popped| <= k < |pending| ==> Child(lib, was[|was| - 1].value, pending[k].value)
    ensures var v := was[|was| - 1].value; ScanInv(lib, entries, content, before + {v}, visited + [v], pending)
  {
    var item := was[|was| - 1];
    var v := item.value;
    assert Waits(lib, content, item);
    OneMoreVisited(lib, content, visited, item);
    forall w | Queued(was, w)
      ensures Queued(pending, w) || w == v
    {
      var k :| 0 <= k < |was| && was[k].value == w;
      if k < |popped| {
        assert pending[k].value == w;
      }
    }
    forall k | 0 <= k < |pending|
      ensures Waits(lib, content, pending[k])
    {
      if k < |popped| {
        assert pending[k] == was[k];
      } else {
        ChildNeedsHolder(lib, v, pending[k].value);
        ReachStep(lib, content, v, pending[k].value, item.depth);
      }
    }
  }
}
