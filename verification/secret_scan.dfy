/** The private receipt of secret fingerprints: written by the bootstrap tool in Go, accepted by the evidence script
in Python. */
module SecretScan {
  import opened Common
  import opened Representations
  import Scanner

  // The receipt

  datatype Entry = Entry(name: string, representation: string, length: int, digest: string)

  datatype Status = NotStarted | Collecting | Complete

  datatype Binding = Binding(version: int, run: string, commit: string, session: string, profile: string)

  datatype Receipt = Receipt(binding: Binding, status: Status, entries: seq<Entry>)

  predicate HexDigit(c: char) { '0' <= c <= '9' || 'a' <= c <= 'f' }

  predicate IsDigest(s: string) {
    |s| == 64 && forall i :: 0 <= i < |s| ==> HexDigit(s[i])
  }

  /** SHA-256 in lower-case hexadecimal. */
  ghost predicate HexDigests(lib: Scanner.Library) {
    forall x: Bytes :: IsDigest(lib.sha(x))
  }

  function EntryOf(lib: Scanner.Library, name: string, r: Representation, value: Bytes): Entry {
    Entry(name, NameOf(r), |TextOf(r, value)|, lib.sha(TextOf(r, value)))
  }

  /** The representations, each once, in some order. */
  predicate IsOrder(order: seq<Representation>) { multiset(order) == multiset(ALL) }

  function EntriesOf(lib: Scanner.Library, name: string, value: Bytes, order: seq<Representation>): (e: seq<Entry>)
    ensures |e| == |order| && forall i :: 0 <= i < |e| ==> e[i] == EntryOf(lib, name, order[i], value)
  {
    seq(|order|, i requires 0 <= i < |order| => EntryOf(lib, name, order[i], value))
  }

  lemma OrderHasSeven(order: seq<Representation>)
    requires IsOrder(order)
    ensures |order| == 7 && forall r :: r in order
    ensures forall i, j :: 0 <= i < j < |order| ==> order[i] != order[j]
  {
    assert |multiset(order)| == |order| && |multiset(ALL)| == |ALL|;
    AllAreSeven();
    forall r ensures r in order {
      IsInAll(r);
      assert r in multiset(order);
    }
    forall i, j | 0 <= i < j < |order| ensures order[i] != order[j] {
      Counts(order, i, j);
      assert multiset(ALL)[order[i]] <= 1;
    }
  }

  lemma Counts(order: seq<Representation>, i: nat, j: nat)
    requires i < j < |order|
    ensures order[i] == order[j] ==> multiset(order)[order[i]] >= 2
  {
    var front, back := order[..j], order[j..];
    assert order == front + back && order[i] == front[i] && order[j] == back[0];
    assert order[i] in multiset(front) && order[j] in multiset(back);
  }

  lemma IsInAll(r: Representation)
    ensures r in ALL
  {
    match r {
      case Raw =>
      case JsonGo =>
      case JsonAscii =>
      case UserInfo =>
      case UrlQuery =>
      case Base64Padded =>
      case Base64Url =>
    }
  }

  lemma AllAreSeven()
    ensures |ALL| == 7
  {
    var three := {Raw} + {JsonGo} + {JsonAscii};
    var five := three + {UserInfo} + {UrlQuery};
    assert |three| == 3 && |five| == 5;
    assert ALL == five + {Base64Padded} + {Base64Url};
  }

  class Scan {
    const binding: Binding
    var status: Status
    var entries: seq<Entry>
    /** What the file holds. */
    var file: Receipt
    /** Every answer to an attempt at writing it. */
    ghost var saves: seq<bool>

    constructor (binding: Binding)
      ensures this.binding == binding && status == NotStarted && entries == []
              && file == Receipt(binding, NotStarted, []) && saves == []
    {
      this.binding, status, entries, saves := binding, NotStarted, [], [];
      file := Receipt(binding, NotStarted, []);
    }

    /** Writes a new file and renames it over the old one; a failure leaves the old one. */
    method Save() returns (ok: bool)
      modifies this`file, this`saves
      ensures saves == old(saves) + [ok] && file == if ok then Receipt(binding, status, entries) else old(file)
    {
      ok := *;
      if ok {
        file := Receipt(binding, status, entries);
      }
      saves := saves + [ok];
    }

    method Begin() returns (ok: bool)
      modifies this`status, this`file, this`saves
      ensures status == Collecting && saves == old(saves) + [ok]
      ensures file == if ok then Receipt(binding, status, entries) else old(file)
    {
      status := Collecting;
      ok := Save();
    }

    /** A value of an allowed size is fingerprinted while the scan is collecting, and the receipt is then written. */
    method Record(lib: Scanner.Library, name: string, value: Bytes) returns (ok: bool, ghost order: seq<Representation>)
      modifies this`entries, this`file, this`saves
      ensures if status == Collecting && 16 <= |value| <= 4096
              then IsOrder(order) && entries == old(entries) + EntriesOf(lib, name, value, order)
                   && saves == old(saves) + [ok]
              else !ok && entries == old(entries) && saves == old(saves)
      ensures file == if ok then Receipt(binding, status, entries) else old(file)
    {
      order := [];
      if status != Collecting || |value| < 16 || |value| > 4096 {
        return false, order;
      }
      var todo := ALL;
      while todo != {}
        invariant multiset(order) + multiset(todo) == multiset(ALL)
        invariant entries == old(entries) + EntriesOf(lib, name, value, order)
        invariant file == old(file) && status == Collecting && saves == old(saves)
        decreases |todo|
      {
        var r :| r in todo;
        entries := entries + [EntryOf(lib, name, r, value)];
        assert EntriesOf(lib, name, value, order + [r]) ==
               EntriesOf(lib, name, value, order) + [EntryOf(lib, name, r, value)];
        assert multiset(todo) == multiset(todo - {r}) + multiset{r};
        order := order + [r];
        todo := todo - {r};
      }
      ok := Save();
    }

    method Finish() returns (ok: bool)
      modifies this`status, this`file, this`saves
      ensures if |entries| == 21 then status == Complete && saves == old(saves) + [ok]
              else !ok && status == old(status) && saves == old(saves)
      ensures file == if ok then Receipt(binding, status, entries) else old(file)
    {
      if |entries| != 21 {
        return false;
      }
      status := Complete;
      ok := Save();
    }
  }

  // The reader

  const SECRET_NAMES := {"DATABASE_PASSWORD", "SIGNING_SECRET", "DATABASE_URL"}

  /** The reader's own list of the representations. */
  const REPRESENTATIONS := {"raw", "json-go", "json-ascii", "userinfo", "url-query", "base64", "base64url"}

  predicate EntryOk(e: Entry) {
    e.name in SECRET_NAMES && e.representation in REPRESENTATIONS && 16 <= e.length <= 24576 && IsDigest(e.digest)
  }

  /** The writer and the reader call the representations the same. */
  lemma NamesAgree(name: string)
    ensures name in REPRESENTATIONS <==> exists r :: NameOf(r) == name
  {
    if name in REPRESENTATIONS {
      var r := Named(name);
      assert NameOf(r) == name;
    }
  }

  /** The representation with this name. */
  function Named(name: string): (r: Representation)
    requires name in REPRESENTATIONS
    ensures NameOf(r) == name
  {
    if name == "raw" then Raw
    else if name == "json-go" then JsonGo
    else if name == "json-ascii" then JsonAscii
    else if name == "userinfo" then UserInfo
    else if name == "url-query" then UrlQuery
    else if name == "base64" then Base64Padded
    else Base64Url
  }

  predicate NoPairTwice(entries: seq<Entry>) {
    forall i, j :: 0 <= i < j < |entries| ==> Pair(entries[i]) != Pair(entries[j])
  }

  function Pair(e: Entry): (string, string) { (e.name, e.representation) }

  predicate Covers(entries: seq<Entry>) {
    forall n, r :: n in SECRET_NAMES && r in REPRESENTATIONS ==> HasPair(entries, (n, r))
  }

  predicate HasPair(entries: seq<Entry>, p: (string, string)) {
    exists i :: 0 <= i < |entries| && Pair(entries[i]) == p
  }

  datatype Loaded = Accepted | WrongBinding | TooManyEntries | BadEntry | NotStartedWithEntries | Incomplete

  function Load(receipt: Receipt, expected: Binding, complete: bool): Loaded {
    if receipt.binding != expected then WrongBinding
    else if |receipt.entries| > 21 then TooManyEntries
    else if !(NoPairTwice(receipt.entries) && forall i :: 0 <= i < |receipt.entries| ==> EntryOk(receipt.entries[i]))
        then BadEntry
    else if receipt.status == NotStarted && receipt.entries != [] then NotStartedWithEntries
    else if (complete || receipt.status == Complete)
        && !(receipt.status == Complete && Covers(receipt.entries)) then Incomplete
    else Accepted
  }

  function Pairs(): set<(string, string)> {
    set n, r | n in SECRET_NAMES && r in REPRESENTATIONS :: (n, r)
  }

  function PairsOf(entries: seq<Entry>): set<(string, string)> {
    set i | 0 <= i < |entries| :: Pair(entries[i])
  }

  lemma CoversIsAllPairs(entries: seq<Entry>)
    requires forall i :: 0 <= i < |entries| ==> EntryOk(entries[i])
    ensures PairsOf(entries) == Pairs() <==> Covers(entries)
  {
    forall i | 0 <= i < |entries| ensures Pair(entries[i]) in Pairs() {
      assert entries[i].name in SECRET_NAMES && entries[i].representation in REPRESENTATIONS;
    }
    if Covers(entries) {
      forall p | p in Pairs() ensures p in PairsOf(entries) {
        var n, r :| n in SECRET_NAMES && r in REPRESENTATIONS && p == (n, r);
        assert HasPair(entries, p);
      }
    }
    if PairsOf(entries) == Pairs() {
      forall n, r | n in SECRET_NAMES && r in REPRESENTATIONS ensures HasPair(entries, (n, r)) {
        assert (n, r) in PairsOf(entries);
      }
    }
  }

  // Counting to 21

  lemma {:induction false} RowHas(name: string, rs: set<string>)
    ensures |set r | r in rs :: (name, r)| == |rs|
    decreases |rs|
  {
    var row := set r | r in rs :: (name, r);
    if rs == {} {
      assert row == {};
    } else {
      var x :| x in rs;
      RowHas(name, rs - {x});
      assert row == (set r | r in rs - {x} :: (name, r)) + {(name, x)};
    }
  }

  lemma SevenNames()
    ensures |REPRESENTATIONS| == 7
  {
    var four := {"raw", "json-go"} + {"json-ascii", "userinfo"};
    assert |"raw"| == 3 && |"json-go"| == 7 && |"json-ascii"| == 10 && |"userinfo"| == 8 && |"base64"| == 6;
    assert |"url-query"| == 9 && |"base64url"| == 9 && "url-query"[0] != "base64url"[0];
    assert |{"raw", "json-go"}| == 2 && |{"json-ascii", "userinfo"}| == 2 && |four| == 4;
    assert |{"base64"} + {"url-query", "base64url"}| == 3;
    assert REPRESENTATIONS == four + ({"base64"} + {"url-query", "base64url"});
  }

  lemma PairsAre21()
    ensures |Pairs()| == 21
  {
    var a := set r | r in REPRESENTATIONS :: ("DATABASE_PASSWORD", r);
    var b := set r | r in REPRESENTATIONS :: ("SIGNING_SECRET", r);
    var c := set r | r in REPRESENTATIONS :: ("DATABASE_URL", r);
    RowHas("DATABASE_PASSWORD", REPRESENTATIONS);
    RowHas("SIGNING_SECRET", REPRESENTATIONS);
    RowHas("DATABASE_URL", REPRESENTATIONS);
    SevenNames();
    assert |"DATABASE_PASSWORD"| == 17 && |"SIGNING_SECRET"| == 14 && |"DATABASE_URL"| == 12;
    assert |a + b| == 14 && |a + b + c| == 21;
    forall p ensures p in Pairs() <==> p in a + b + c {
      assert p in Pairs() <==> p.0 in SECRET_NAMES && p.1 in REPRESENTATIONS;
    }
    assert Pairs() == a + b + c;
  }

  lemma {:induction false} PairsCounted(entries: seq<Entry>)
    requires NoPairTwice(entries)
    ensures |PairsOf(entries)| == |entries|
  {
    if entries == [] {
      assert PairsOf(entries) == {};
    } else {
      var i := |entries| - 1;
      PairsCounted(entries[..i]);
      forall k | 0 <= k < i ensures Pair(entries[..i][k]) != Pair(entries[i]) {
        assert entries[..i][k] == entries[k];
      }
      OneMorePair(entries, i);
      assert entries[..i + 1] == entries;
    }
  }

  /** The writer counts to 21 and the reader compares the pairs it has seen with all there are: for entries the reader
  accepts one by one, that is the same. */
  lemma CountIsCover(entries: seq<Entry>)
    requires NoPairTwice(entries) && forall i :: 0 <= i < |entries| ==> EntryOk(entries[i])
    ensures |entries| <= 21 && (Covers(entries) <==> |entries| == 21)
  {
    CoversIsAllPairs(entries);
    PairsAre21();
    PairsCounted(entries);
    forall p | p in PairsOf(entries) ensures p in Pairs() {
      var i :| 0 <= i < |entries| && Pair(entries[i]) == p;
      assert EntryOk(entries[i]);
    }
    SubsetCounts(PairsOf(entries), Pairs());
  }

  lemma CountIfOk(entries: seq<Entry>)
    ensures NoPairTwice(entries) && (forall i :: 0 <= i < |entries| ==> EntryOk(entries[i])) ==>
              |entries| <= 21 && (Covers(entries) <==> |entries| == 21)
  {
    if NoPairTwice(entries) && forall i :: 0 <= i < |entries| ==> EntryOk(entries[i]) {
      CountIsCover(entries);
    }
  }

  lemma {:induction false} SubsetCounts<T>(a: set<T>, b: set<T>)
    requires a <= b
    ensures |a| <= |b| && (|a| == |b| <==> a == b)
  {
    if a == {} {
      assert b != {} ==> |b| > 0;
    } else {
      var x :| x in a;
      SubsetCounts(a - {x}, b - {x});
      assert a == b <==> a - {x} == b - {x};
    }
  }

  ghost predicate Fits(e: Entry) {
    && e.name in {"DATABASE_PASSWORD", "SIGNING_SECRET", "DATABASE_URL"} && 16 <= e.length <= 24_576
    && e.representation in {"raw", "json-go", "json-ascii", "userinfo", "url-query", "base64", "base64url"}
    && |e.digest| == 64 && forall i :: 0 <= i < 64 ==> '0' <= e.digest[i] <= '9' || 'a' <= e.digest[i] <= 'f'
  }

  /** Accepted are exactly the receipts of this run whose entries fit, each pair of a name and a representation once,
  none before the start, and all 21 where completeness is asked for or claimed. */
  method LoadSecretScan(receipt: Receipt, expected: Binding, complete: bool) returns (l: Loaded)
    ensures l == Load(receipt, expected, complete)
    ensures l.Accepted? <==>
              && receipt.binding == expected
              && (forall i :: 0 <= i < |receipt.entries| ==> Fits(receipt.entries[i]))
              && (forall i, j :: 0 <= i < j < |receipt.entries| ==>
                    receipt.entries[i].name != receipt.entries[j].name
                    || receipt.entries[i].representation != receipt.entries[j].representation)
              && (receipt.status == NotStarted ==> receipt.entries == [])
              && (complete || receipt.status == Complete ==>
                    receipt.status == Complete && |receipt.entries| == 21)
  {
    CountIfOk(receipt.entries);
    if receipt.binding != expected {
      return WrongBinding;
    }
    var entries := receipt.entries;
    if |entries| > 21 {
      return TooManyEntries;
    }
    var seen: set<(string, string)> := {};
    for i := 0 to |entries|
      invariant seen == PairsOf(entries[..i])
      invariant NoPairTwice(entries[..i]) && forall k :: 0 <= k < i ==> EntryOk(entries[k])
    {
      var e := entries[i];
      if !EntryOk(e) || Pair(e) in seen {
        SeenTwice(entries, i);
        return BadEntry;
      }
      OneMorePair(entries, i);
      seen := seen + {Pair(e)};
    }
    assert entries[..|entries|] == entries;
    CoversIsAllPairs(entries);
    if receipt.status == NotStarted && entries != [] {
      return NotStartedWithEntries;
    }
    if complete || receipt.status == Complete {
      if receipt.status != Complete || seen != Pairs() {
        return Incomplete;
      }
    }
    return Accepted;
  }

  lemma SeenTwice(entries: seq<Entry>, i: nat)
    requires i < |entries| && (!EntryOk(entries[i]) || Pair(entries[i]) in PairsOf(entries[..i]))
    ensures !(NoPairTwice(entries) && forall k :: 0 <= k < |entries| ==> EntryOk(entries[k]))
  {
    if Pair(entries[i]) in PairsOf(entries[..i]) {
      var k :| 0 <= k < i && Pair(entries[..i][k]) == Pair(entries[i]);
      assert entries[..i][k] == entries[k];
    }
  }

  lemma OneMorePair(entries: seq<Entry>, i: nat)
    requires i < |entries| && NoPairTwice(entries[..i]) && Pair(entries[i]) !in PairsOf(entries[..i])
    ensures NoPairTwice(entries[..i + 1]) && PairsOf(entries[..i + 1]) == PairsOf(entries[..i]) + {Pair(entries[i])}
  {
    var front, longer := entries[..i], entries[..i + 1];
    assert longer == front + [entries[i]];
    forall k | 0 <= k < i ensures Pair(longer[k]) != Pair(entries[i]) {
      assert Pair(front[k]) in PairsOf(front);
    }
    forall p ensures p in PairsOf(longer) <==> p in PairsOf(front) + {Pair(entries[i])} {
      if p in PairsOf(front) {
        var k :| 0 <= k < i && Pair(front[k]) == p;
        assert longer[k] == front[k];
      }
      if p in PairsOf(longer) {
        var k :| 0 <= k < |longer| && Pair(longer[k]) == p;
        assert k < i ==> longer[k] == front[k];
      }
      assert longer[i] == entries[i];
    }
  }

  // The two sides together

  lemma BlockIsOk(lib: Scanner.Library, name: string, value: Bytes, order: seq<Representation>)
    requires name in SECRET_NAMES && 16 <= |value| <= 4096 && IsOrder(order) && HexDigests(lib)
    ensures var e := EntriesOf(lib, name, value, order);
            |e| == 7 && NoPairTwice(e) && forall i :: 0 <= i < |e| ==> EntryOk(e[i]) && e[i].name == name
  {
    var e := EntriesOf(lib, name, value, order);
    OrderHasSeven(order);
    forall i | 0 <= i < |e| ensures EntryOk(e[i]) {
      TextsFit(order[i], value);
      NamesAgree(NameOf(order[i]));
    }
    forall i, j | 0 <= i < j < |e| ensures Pair(e[i]) != Pair(e[j]) {
      NamesDiffer(order[i], order[j]);
    }
  }

  lemma BlockHasPair(lib: Scanner.Library, name: string, value: Bytes, order: seq<Representation>, r: Representation)
    requires IsOrder(order)
    ensures HasPair(EntriesOf(lib, name, value, order), (name, NameOf(r)))
  {
    OrderHasSeven(order);
    assert r in order;
    var i :| 0 <= i < |order| && order[i] == r;
    assert Pair(EntriesOf(lib, name, value, order)[i]) == (name, NameOf(r));
  }

  datatype Secret = Secret(name: string, value: Bytes, order: seq<Representation>)

  /** What three recorded secrets leave in the receipt. */
  function Recorded(lib: Scanner.Library, a: Secret, b: Secret, c: Secret): seq<Entry> {
    EntriesOf(lib, a.name, a.value, a.order) + EntriesOf(lib, b.name, b.value, b.order)
        + EntriesOf(lib, c.name, c.value, c.order)
  }

  predicate Sound(s: Secret) { 16 <= |s.value| <= 4096 && IsOrder(s.order) }

  lemma HasPairAppends(a: seq<Entry>, b: seq<Entry>, p: (string, string))
    ensures HasPair(a + b, p) <==> HasPair(a, p) || HasPair(b, p)
  {
    if HasPair(a, p) {
      var i :| 0 <= i < |a| && Pair(a[i]) == p;
      assert (a + b)[i] == a[i];
    }
    if HasPair(b, p) {
      var i :| 0 <= i < |b| && Pair(b[i]) == p;
      assert (a + b)[|a| + i] == b[i];
    }
    if HasPair(a + b, p) {
      var i :| 0 <= i < |a + b| && Pair((a + b)[i]) == p;
      assert i < |a| ==> (a + b)[i] == a[i];
      assert i >= |a| ==> (a + b)[i] == b[i - |a|];
    }
  }

  lemma RecordedHasPair(lib: Scanner.Library, a: Secret, b: Secret, c: Secret, r: Representation, n: string)
    requires Sound(a) && Sound(b) && Sound(c)
    ensures HasPair(Recorded(lib, a, b, c), (n, NameOf(r))) <==> n in {a.name, b.name, c.name}
  {
    var x, y := EntriesOf(lib, a.name, a.value, a.order), EntriesOf(lib, b.name, b.value, b.order);
    var z := EntriesOf(lib, c.name, c.value, c.order);
    var p := (n, NameOf(r));
    HasPairAppends(x + y, z, p);
    HasPairAppends(x, y, p);
    BlockHasPair(lib, a.name, a.value, a.order, r);
    BlockHasPair(lib, b.name, b.value, b.order, r);
    BlockHasPair(lib, c.name, c.value, c.order, r);
  }

  lemma RecordedIsOk(lib: Scanner.Library, a: Secret, b: Secret, c: Secret)
    requires Sound(a) && Sound(b) && Sound(c) && HexDigests(lib)
    requires {a.name, b.name, c.name} == SECRET_NAMES
    ensures var e := Recorded(lib, a, b, c);
            |e| == 21 && NoPairTwice(e) && forall i :: 0 <= i < |e| ==> EntryOk(e[i])
  {
    BlockIsOk(lib, a.name, a.value, a.order);
    BlockIsOk(lib, b.name, b.value, b.order);
    BlockIsOk(lib, c.name, c.value, c.order);
    ThreeNames(a.name, b.name, c.name);
    JoinsOk(EntriesOf(lib, a.name, a.value, a.order), EntriesOf(lib, b.name, b.value, b.order));
    JoinsOk(EntriesOf(lib, a.name, a.value, a.order) + EntriesOf(lib, b.name, b.value, b.order),
            EntriesOf(lib, c.name, c.value, c.order));
  }

  lemma JoinsOk(a: seq<Entry>, b: seq<Entry>)
    requires NoPairTwice(a) && NoPairTwice(b)
    requires forall i, j :: 0 <= i < |a| && 0 <= j < |b| ==> a[i].name != b[j].name
    ensures NoPairTwice(a + b)
  {
  }

  lemma ThreeNames(a: string, b: string, c: string)
    requires {a, b, c} == SECRET_NAMES
    ensures a != b && b != c && a != c
  {
    assert |"DATABASE_PASSWORD"| == 17 && |"SIGNING_SECRET"| == 14 && |"DATABASE_URL"| == 12;
    assert "DATABASE_PASSWORD" in {a, b, c} && "SIGNING_SECRET" in {a, b, c} && "DATABASE_URL" in {a, b, c};
  }

  /** Three recorded secrets complete the writer whatever they are called; the reader accepts exactly when their names
  are the three it knows. */
  lemma ReaderAcceptsIff(lib: Scanner.Library, binding: Binding, a: Secret, b: Secret, c: Secret)
    requires Sound(a) && Sound(b) && Sound(c) && HexDigests(lib)
    ensures |Recorded(lib, a, b, c)| == 21
    ensures Load(Receipt(binding, Complete, Recorded(lib, a, b, c)), binding, true) == Accepted <==>
            {a.name, b.name, c.name} == SECRET_NAMES
  {
    OrderHasSeven(a.order);
    OrderHasSeven(b.order);
    OrderHasSeven(c.order);
    var e := Recorded(lib, a, b, c);
    forall n, r | r in REPRESENTATIONS ensures HasPair(e, (n, r)) <==> n in {a.name, b.name, c.name} {
      RecordedHasPair(lib, a, b, c, Named(r), n);
    }
    if {a.name, b.name, c.name} == SECRET_NAMES {
      RecordedIsOk(lib, a, b, c);
    }
    if Load(Receipt(binding, Complete, e), binding, true) == Accepted {
      forall n ensures n in SECRET_NAMES <==> n in {a.name, b.name, c.name} {
        if n in SECRET_NAMES {
          assert "raw" in REPRESENTATIONS && HasPair(e, (n, "raw"));
        }
        if n in {a.name, b.name, c.name} {
          assert "raw" in REPRESENTATIONS && HasPair(e, (n, "raw"));
          var i :| 0 <= i < |e| && Pair(e[i]) == (n, "raw");
          assert EntryOk(e[i]);
        }
      }
    }
  }

  predicate Allowed(value: Bytes) { 16 <= |value| <= 4096 }

  /** A collection writes the receipt five times, and ends early only behind a failed write or at a value of another
  size. */
  ghost predicate Collects(ok: bool, saves: seq<bool>, signing: Bytes, password: Bytes, url: Bytes) {
    if ok then saves == [true, true, true, true, true]
    else
      || saves == [false] || (saves == [true] && !Allowed(signing))
      || saves == [true, false] || (saves == [true, true] && !Allowed(password))
      || saves == [true, true, false] || (saves == [true, true, true] && !Allowed(url))
      || saves == [true, true, true, false] || saves == [true, true, true, true, false]
  }

  /** The bootstrap's use of a receipt. */
  method Collect(lib: Scanner.Library, scan: Scan, signing: Bytes, password: Bytes, url: Bytes) returns (ok: bool)
    requires scan.status == NotStarted && scan.entries == [] && scan.saves == [] && HexDigests(lib)
    modifies scan
    ensures Collects(ok, scan.saves, signing, password, url)
    ensures ok ==> Load(scan.file, scan.binding, true) == Accepted
    ensures ok ==> AllFingerprinted(lib, scan.file.entries, "SIGNING_SECRET", signing)
    ensures ok ==> AllFingerprinted(lib, scan.file.entries, "DATABASE_PASSWORD", password)
    ensures ok ==> AllFingerprinted(lib, scan.file.entries, "DATABASE_URL", url)
  {
    ok := scan.Begin();
    assert scan.saves == [ok];
    if !ok {
      return;
    }
    ghost var a, b, c;
    ok, a, b, c := RecordAll(lib, scan, signing, password, url);
    if !ok {
      return;
    }
    HaveSevenEach(lib, a, b, c);
    ok := scan.Finish();
    assert scan.saves == [true, true, true, true] + [ok];
    CollectedIsAccepted(lib, scan.binding, a, b, c);
  }

  lemma HaveSevenEach(lib: Scanner.Library, a: Secret, b: Secret, c: Secret)
    requires Sound(a) && Sound(b) && Sound(c)
    ensures |Recorded(lib, a, b, c)| == 21
  {
    OrderHasSeven(a.order);
    OrderHasSeven(b.order);
    OrderHasSeven(c.order);
  }

  method RecordAll(lib: Scanner.Library, scan: Scan, signing: Bytes, password: Bytes, url: Bytes)
      returns (ok: bool, ghost a: Secret, ghost b: Secret, ghost c: Secret)
    requires scan.status == Collecting && scan.entries == [] && scan.saves == [true]
    modifies scan`entries, scan`file, scan`saves
    ensures ok ==> Sound(a) && Sound(b) && Sound(c) && scan.entries == Recorded(lib, a, b, c)
    ensures ok ==> a == Secret("SIGNING_SECRET", signing, a.order)
    ensures ok ==> b == Secret("DATABASE_PASSWORD", password, b.order)
    ensures ok ==> c == Secret("DATABASE_URL", url, c.order) && scan.saves == [true, true, true, true]
    ensures !ok ==> Collects(ok, scan.saves, signing, password, url)
  {
    a, b, c := Secret("", [], []), Secret("", [], []), Secret("", [], []);
    ghost var order;
    ok, order := scan.Record(lib, "SIGNING_SECRET", signing);
    assert Allowed(signing) ==> scan.saves == [true, ok];
    if !ok {
      return;
    }
    a := Secret("SIGNING_SECRET", signing, order);
    assert scan.entries == EntriesOf(lib, a.name, a.value, a.order);
    ok, order := scan.Record(lib, "DATABASE_PASSWORD", password);
    assert Allowed(password) ==> scan.saves == [true, true, ok];
    if !ok {
      return;
    }
    b := Secret("DATABASE_PASSWORD", password, order);
    ok, order := scan.Record(lib, "DATABASE_URL", url);
    assert Allowed(url) ==> scan.saves == [true, true, true, ok];
    c := Secret("DATABASE_URL", url, order);
  }

  lemma CollectedIsAccepted(lib: Scanner.Library, binding: Binding, a: Secret, b: Secret, c: Secret)
    requires Sound(a) && Sound(b) && Sound(c) && HexDigests(lib)
    requires a.name == "SIGNING_SECRET" && b.name == "DATABASE_PASSWORD" && c.name == "DATABASE_URL"
    ensures Load(Receipt(binding, Complete, Recorded(lib, a, b, c)), binding, true) == Accepted
    ensures AllFingerprinted(lib, Recorded(lib, a, b, c), a.name, a.value)
    ensures AllFingerprinted(lib, Recorded(lib, a, b, c), b.name, b.value)
    ensures AllFingerprinted(lib, Recorded(lib, a, b, c), c.name, c.value)
  {
    assert {a.name, b.name, c.name} == SECRET_NAMES;
    ReaderAcceptsIff(lib, binding, a, b, c);
    RecordedFingerprints(lib, a, b, c);
  }

  ghost predicate Fingerprinted(lib: Scanner.Library, entries: seq<Entry>, name: string, r: Representation,
                                value: Bytes)
  {
    EntryOf(lib, name, r, value) in entries
  }

  ghost predicate AllFingerprinted(lib: Scanner.Library, entries: seq<Entry>, name: string, value: Bytes) {
    forall r :: Fingerprinted(lib, entries, name, r, value)
  }

  lemma BlockFingerprints(lib: Scanner.Library, s: Secret, r: Representation)
    requires Sound(s)
    ensures EntryOf(lib, s.name, r, s.value) in EntriesOf(lib, s.name, s.value, s.order)
  {
    OrderHasSeven(s.order);
    assert r in s.order;
    var i :| 0 <= i < |s.order| && s.order[i] == r;
    assert EntriesOf(lib, s.name, s.value, s.order)[i] == EntryOf(lib, s.name, r, s.value);
  }

  lemma RecordedFingerprints(lib: Scanner.Library, a: Secret, b: Secret, c: Secret)
    requires Sound(a) && Sound(b) && Sound(c)
    ensures AllFingerprinted(lib, Recorded(lib, a, b, c), a.name, a.value)
    ensures AllFingerprinted(lib, Recorded(lib, a, b, c), b.name, b.value)
    ensures AllFingerprinted(lib, Recorded(lib, a, b, c), c.name, c.value)
  {
    forall r
      ensures Fingerprinted(lib, Recorded(lib, a, b, c), a.name, r, a.value)
      ensures Fingerprinted(lib, Recorded(lib, a, b, c), b.name, r, b.value)
      ensures Fingerprinted(lib, Recorded(lib, a, b, c), c.name, r, c.value)
    {
      BlockFingerprints(lib, a, r);
      BlockFingerprints(lib, b, r);
      BlockFingerprints(lib, c, r);
    }
  }

  // From the receipt to the scan

  /** The scanner's view of the entries. */
  function Fingerprints(entries: seq<Entry>): (f: seq<Scanner.Entry>)
    requires forall i :: 0 <= i < |entries| ==> entries[i].length >= 0
    ensures |f| == |entries|
  {
    seq(|entries|,
        i requires 0 <= i < |entries| => Scanner.Entry(entries[i].name, entries[i].length, entries[i].digest))
  }

  predicate StandsAt(v: Bytes, text: Bytes, at: int) {
    0 <= at && at + |text| <= |v| && v[at..at + |text|] == text
  }

  ghost predicate Contains(v: Bytes, text: Bytes) {
    exists at :: StandsAt(v, text, at)
  }

  /** A recorded secret, in any of its seven texts, anywhere in what a scan reaches, is a match. */
  lemma LeakMatches(lib: Scanner.Library, entries: seq<Entry>, name: string, r: Representation, secret: Bytes, v: Bytes)
    requires forall i :: 0 <= i < |entries| ==> entries[i].length >= 0
    requires Fingerprinted(lib, entries, name, r, secret) && Contains(v, TextOf(r, secret))
    ensures Scanner.Matches(lib, Fingerprints(entries), v)
  {
    var e := EntryOf(lib, name, r, secret);
    assert e in entries;
    var i :| 0 <= i < |entries| && entries[i] == e;
    var at :| StandsAt(v, TextOf(r, secret), at);
    assert Scanner.MatchAt(lib, Fingerprints(entries), v, i, at);
  }

  /** Some text of the secret is somewhere in a file: in its bytes, or in something carried in it at any depth. */
  ghost predicate Leaks(lib: Scanner.Library, content: Bytes, secret: Bytes) {
    exists v, r :: Scanner.Reachable(lib, content, v) && Contains(v, TextOf(r, secret))
  }

  /** A file that leaks a recorded secret holds a match the scanner can reach. */
  lemma LeakIsReached(lib: Scanner.Library, entries: seq<Entry>, name: string, secret: Bytes, content: Bytes)
    requires forall i :: 0 <= i < |entries| ==> entries[i].length >= 0
    requires AllFingerprinted(lib, entries, name, secret) && Leaks(lib, content, secret)
    ensures exists v :: Scanner.Reachable(lib, content, v) && Scanner.Matches(lib, Fingerprints(entries), v)
  {
    var v, r :| Scanner.Reachable(lib, content, v) && Contains(v, TextOf(r, secret));
    assert Fingerprinted(lib, entries, name, r, secret);
    LeakMatches(lib, entries, name, r, secret, v);
  }

  /** Scans a file with the fingerprints of a receipt; None when the receipt is refused. */
  method ScanFile(lib: Scanner.Library, receipt: Receipt, expected: Binding, content: Bytes)
      returns (answer: Option<Scanner.Outcome>)
    ensures answer.Some? <==> Load(receipt, expected, true) == Accepted
    ensures answer == Some(Scanner.Clean) ==>
              forall name, secret ::
                AllFingerprinted(lib, receipt.entries, name, secret) ==> !Leaks(lib, content, secret)
    ensures answer.Some? && answer.value.CredentialMatch? ==>
              exists v :: Scanner.Reachable(lib, content, v) && Scanner.Matches(lib, Fingerprints(receipt.entries), v)
    ensures answer.Some? && !Scanner.Refusable(lib, content)
            && (forall v :: Scanner.Reachable(lib, content, v) ==>
                  !Scanner.Matches(lib, Fingerprints(receipt.entries), v)) ==>
              answer == Some(Scanner.Clean)
  {
    var l := LoadSecretScan(receipt, expected, true);
    if l != Accepted {
      return None;
    }
    var r := Scanner.ScanSecretBytes(lib, content, Fingerprints(receipt.entries));
    forall name, secret | AllFingerprinted(lib, receipt.entries, name, secret) && Leaks(lib, content, secret)
      ensures !r.Clean?
    {
      LeakIsReached(lib, receipt.entries, name, secret, content);
    }
    answer := Some(r);
  }

  /** From the bootstrap to the evidence: once three secrets have been collected, no file in which any text of any of
  them can be reached is ever answered clean. */
  method CollectThenScan(lib: Scanner.Library, scan: Scan, signing: Bytes, password: Bytes, url: Bytes, content: Bytes)
      returns (ok: bool, answer: Option<Scanner.Outcome>)
    requires scan.status == NotStarted && scan.entries == [] && scan.saves == [] && HexDigests(lib)
    modifies scan
    ensures Collects(ok, scan.saves, signing, password, url) && (ok <==> answer.Some?)
    ensures answer == Some(Scanner.Clean) ==>
              !Leaks(lib, content, signing) && !Leaks(lib, content, password) && !Leaks(lib, content, url)
  {
    answer := None;
    ok := Collect(lib, scan, signing, password, url);
    if ok {
      answer := ScanFile(lib, scan.file, scan.binding, content);
    }
  }
}
