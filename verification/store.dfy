/** The durable tables of services/relay/internal/history/store.go, as the statements it runs change them.

`locks` holds one open transaction per locked event row, which is what FOR UPDATE gives: a second
transaction cannot take the row until the first is applied or dropped.  A transaction the client has
given up on stays until the database resolves it, and can still be applied if COMMIT had been sent. */
module EventDb {
  import opened Common
  import Worker

  type Id = string

  datatype Record = Record(id: Id, tenant: string, typ: string, data: string, occurredAt: int, key: string)

  /** `json` identifies the jsonb value of `data`, which is what the match compares. */
  datatype Row = Row(tenant: string, typ: string, data: string, json: nat, occurredAt: int,
                     key: string, claimed: bool, published: bool)

  datatype AttemptRow =
      AttemptRow(event: Id, sub: int, number: nat, outcome: Worker.AttemptOutcome, status: Option<int>)

  datatype Owner = IngestTx(r: nat) | DeliverTx(c: nat, i: nat)

  /** `unpublished`: published_at was read as NULL when the lock was granted.  `mark`: the UPDATE ran. */
  datatype Tx = Tx(owner: Owner, unpublished: bool, mark: bool, insert: Option<AttemptRow>, sent: bool)

  datatype Db = Db(rows: map<Id, Row>, locks: map<Id, Tx>, attempts: seq<AttemptRow>)

  function RecordOf(id: Id, row: Row): Record {
    Record(id, row.tenant, row.typ, row.data, row.occurredAt, row.key)
  }

  function RowOf(rec: Record, json: nat): Row {
    Row(rec.tenant, rec.typ, rec.data, json, rec.occurredAt, rec.key, rec.key != "", false)
  }

  /** The claimed row of a tenant and key; the unique index allows at most one. */
  predicate Claims(rows: map<Id, Row>, id: Id, tenant: string, key: string) {
    id in rows && rows[id].claimed && rows[id].tenant == tenant && rows[id].key == key
  }

  /** What ON CONFLICT DO NOTHING detects: the primary key or the partial unique index. */
  ghost predicate Conflicts(rows: map<Id, Row>, rec: Record) {
    rec.id in rows || (rec.key != "" && exists id :: Claims(rows, id, rec.tenant, rec.key))
  }

  ghost function Reserve(db: Db, rec: Record, json: nat): Db {
    if Conflicts(db.rows, rec) then db else db.(rows := db.rows[rec.id := RowOf(rec, json)])
  }

  function Lock(db: Db, id: Id, owner: Owner): Db
    requires id in db.rows && id !in db.locks
  {
    db.(locks := db.locks[id := Tx(owner, !db.rows[id].published, false, None, false)])
  }

  predicate Holds(db: Db, id: Id, owner: Owner) {
    id in db.locks && db.locks[id].owner == owner && !db.locks[id].sent
  }

  function Mark(db: Db, id: Id): Db
    requires id in db.locks
  {
    db.(locks := db.locks[id := db.locks[id].(mark := true)])
  }

  function Stage(db: Db, id: Id, row: AttemptRow): Db
    requires id in db.locks
  {
    db.(locks := db.locks[id := db.locks[id].(insert := Some(row))])
  }

  function Send(db: Db, id: Id): Db
    requires id in db.locks
  {
    db.(locks := db.locks[id := db.locks[id].(sent := true)])
  }

  function Drop(db: Db, id: Id): Db {
    db.(locks := db.locks - {id})
  }

  /** The transaction on `id` takes effect and releases its lock. */
  function Apply(db: Db, id: Id): Db
    requires id in db.locks && id in db.rows
  {
    var tx := db.locks[id];
    var row := db.rows[id];
    Db(db.rows[id := row.(published := row.published || tx.mark)],
       db.locks - {id},
       db.attempts + if tx.insert.Some? then [tx.insert.value] else [])
  }

  // The attempt sequence

  function Numbers(attempts: seq<AttemptRow>, event: Id, sub: int): seq<nat> {
    if attempts == [] then []
    else
      var last := attempts[|attempts| - 1];
      Numbers(attempts[..|attempts| - 1], event, sub) +
      if last.event == event && last.sub == sub then [last.number] else []
  }

  function Max(numbers: seq<nat>): (m: nat)
    ensures forall i :: 0 <= i < |numbers| ==> numbers[i] <= m
    ensures m == 0 || m in numbers
  {
    if numbers == [] then 0
    else
      var m := Max(numbers[..|numbers| - 1]);
      var last := numbers[|numbers| - 1];
      if last > m then last else m
  }

  /** COALESCE(MAX(attempt_number), 0) + 1 over the committed rows. */
  function Next(attempts: seq<AttemptRow>, event: Id, sub: int): nat {
    Max(Numbers(attempts, event, sub)) + 1
  }

  ghost predicate CountsUp(numbers: seq<nat>) {
    forall i :: 0 <= i < |numbers| ==> numbers[i] == i + 1
  }

  ghost predicate GapFree(attempts: seq<AttemptRow>) {
    forall event, sub :: CountsUp(Numbers(attempts, event, sub))
  }

  /** The tables are consistent: no gaps, and every open transaction is on an existing row, was
  opened on what that row still says, and numbers its insert from the rows already there. */
  ghost predicate DbInv(db: Db) {
    && GapFree(db.attempts)
    && (forall id :: id in db.locks ==> TxInv(db, id))
    && (forall k :: 0 <= k < |db.attempts| ==> db.attempts[k].event in db.rows)
    && Unique(db.rows)
  }

  ghost predicate TxInv(db: Db, id: Id)
    requires id in db.locks
  {
    var tx := db.locks[id];
    && id in db.rows
    && (tx.unpublished ==> !db.rows[id].published)
    && (tx.mark ==> tx.unpublished && tx.owner.IngestTx?)
    && (tx.insert.Some? ==> tx.owner.DeliverTx? && tx.insert.value.event == id
                            && tx.insert.value.number == Next(db.attempts, id, tx.insert.value.sub))
  }

  /** The partial unique index, and the code's rule that only a non-blank key claims. */
  ghost predicate Unique(rows: map<Id, Row>) {
    && (forall a, b, tenant, key :: Claims(rows, a, tenant, key) && Claims(rows, b, tenant, key) ==> a == b)
    && (forall id :: id in rows ==> (rows[id].claimed <==> rows[id].key != ""))
  }

  lemma NumbersExtend(attempts: seq<AttemptRow>, row: AttemptRow, event: Id, sub: int)
    ensures Numbers(attempts + [row], event, sub) == Numbers(attempts, event, sub)
            + if row.event == event && row.sub == sub then [row.number] else []
    ensures row.event != event || row.sub != sub ==>
              Numbers(attempts + [row], event, sub) == Numbers(attempts, event, sub)
  {
    assert (attempts + [row])[..|attempts|] == attempts;
  }

  lemma MaxOfCount(numbers: seq<nat>)
    requires CountsUp(numbers)
    ensures Max(numbers) == |numbers|
  {
    if numbers != [] {
      assert numbers[|numbers| - 1] == |numbers|;
    }
  }

  lemma ExtendKeepsGapFree(attempts: seq<AttemptRow>, row: AttemptRow)
    requires GapFree(attempts) && row.number == Next(attempts, row.event, row.sub)
    ensures GapFree(attempts + [row])
  {
    forall event, sub
      ensures CountsUp(Numbers(attempts + [row], event, sub))
    {
      NumbersExtend(attempts, row, event, sub);
      assert CountsUp(Numbers(attempts, event, sub));
      MaxOfCount(Numbers(attempts, event, sub));
    }
  }

  lemma ReserveKeeps(db: Db, rec: Record, json: nat)
    requires DbInv(db)
    ensures DbInv(Reserve(db, rec, json))
  {
    var after := Reserve(db, rec, json);
    if !Conflicts(db.rows, rec) {
      forall a, b, tenant, key | Claims(after.rows, a, tenant, key) && Claims(after.rows, b, tenant, key)
        ensures a == b
      {
        assert a != rec.id ==> Claims(db.rows, a, tenant, key);
        assert b != rec.id ==> Claims(db.rows, b, tenant, key);
      }
      forall id | id in after.locks
        ensures TxInv(after, id)
      {
        assert TxInv(db, id);
      }
    }
  }

  lemma LockKeeps(db: Db, id: Id, owner: Owner)
    requires DbInv(db) && id in db.rows && id !in db.locks
    ensures DbInv(Lock(db, id, owner))
  {
    var after := Lock(db, id, owner);
    forall other | other in after.locks
      ensures TxInv(after, other)
    {
      assert other != id ==> TxInv(db, other);
    }
  }

  lemma MarkKeeps(db: Db, id: Id)
    requires DbInv(db) && id in db.locks && db.locks[id].unpublished && db.locks[id].owner.IngestTx?
    ensures DbInv(Mark(db, id))
  {
    var after := Mark(db, id);
    forall other | other in after.locks
      ensures TxInv(after, other)
    {
      assert TxInv(db, other);
    }
  }

  lemma SendKeeps(db: Db, id: Id)
    requires DbInv(db) && id in db.locks
    ensures DbInv(Send(db, id))
  {
    var after := Send(db, id);
    forall other | other in after.locks
      ensures TxInv(after, other)
    {
      assert TxInv(db, other);
    }
  }

  lemma DropKeeps(db: Db, id: Id)
    requires DbInv(db)
    ensures DbInv(Drop(db, id))
  {
    var after := Drop(db, id);
    forall other | other in after.locks
      ensures TxInv(after, other)
    {
      assert TxInv(db, other);
    }
  }

  lemma StageKeeps(db: Db, id: Id, row: AttemptRow)
    requires DbInv(db) && id in db.locks && db.locks[id].owner.DeliverTx?
    requires row.event == id && row.number == Next(db.attempts, id, row.sub)
    ensures DbInv(Stage(db, id, row))
  {
    var after := Stage(db, id, row);
    forall other | other in after.locks
      ensures TxInv(after, other)
    {
      assert TxInv(db, other);
    }
  }

  lemma ApplyKeepsUnique(db: Db, id: Id)
    requires Unique(db.rows) && id in db.locks && id in db.rows
    ensures Unique(Apply(db, id).rows)
  {
    var after := Apply(db, id).rows;
    forall a, b, tenant, key | Claims(after, a, tenant, key) && Claims(after, b, tenant, key)
      ensures a == b
    {
      assert Claims(db.rows, a, tenant, key) && Claims(db.rows, b, tenant, key);
    }
  }

  lemma ApplyKeepsTx(db: Db, id: Id, other: Id)
    requires id in db.locks && id in db.rows && other in db.locks && other != id
    requires TxInv(db, id) && TxInv(db, other)
    ensures TxInv(Apply(db, id), other)
  {
    var mine, theirs := db.locks[id].insert, db.locks[other].insert;
    if theirs.Some? {
      if mine.Some? {
        NumbersExtend(db.attempts, mine.value, other, theirs.value.sub);
      } else {
        assert Apply(db, id).attempts == db.attempts;
      }
    }
  }

  lemma ApplyKeepsAttempts(db: Db, id: Id)
    requires GapFree(db.attempts) && id in db.locks && id in db.rows && TxInv(db, id)
    ensures GapFree(Apply(db, id).attempts)
  {
    var insert := db.locks[id].insert;
    if insert.Some? {
      ExtendKeepsGapFree(db.attempts, insert.value);
    } else {
      assert Apply(db, id).attempts == db.attempts;
    }
  }

  /** Applying one transaction leaves every other one consistent: it is on another row, so neither its
  publication mark nor its attempt numbers move. */
  lemma ApplyKeeps(db: Db, id: Id)
    requires DbInv(db) && id in db.locks
    ensures id in db.rows && DbInv(Apply(db, id))
  {
    assert TxInv(db, id);
    ApplyKeepsUnique(db, id);
    ApplyKeepsAttempts(db, id);
    forall other | other in db.locks && other != id
      ensures TxInv(Apply(db, id), other)
    {
      assert TxInv(db, other);
      ApplyKeepsTx(db, id, other);
    }
  }
}

/** One request's walk through `AcceptEvent`, as an automaton over what the database and the
publisher answer. */
module Acceptance {
  import opened Common
  import opened EventDb

  datatype Refusal = Conflict | PublishFailed | Unavailable

  datatype Phase =
    | Waiting(cand: Record)
    | Reserving(cand: Record)
    | Locking(cand: Record)
    | Deduplicating(cand: Record, rec: Record)
    | Publishing(cand: Record, rec: Record)
    | Marking(cand: Record, rec: Record)
    | Committing(cand: Record, rec: Record)
    | Accepted(cand: Record, rec: Record, deduplicated: bool)
    | Refused(cand: Record, why: Refusal)

  /** What SELECT ... FOR UPDATE returned. */
  datatype LockedRow = LockedRow(rec: Record, published: bool, matches: bool)

  datatype Event =
    | Slot(ok: bool)
    | Inserted(ok: bool, affected: bool)
    | Locked(row: Option<LockedRow>)      // None: no transaction, no row, or an error
    | Published(ok: bool)
    | Marked(ok: bool)
    | Committed(ok: bool)

  function Step(p: Phase, e: Event): Option<Phase> {
    match (p, e)
    case (Waiting(cand), Slot(ok)) => Some(if ok then Reserving(cand) else Refused(cand, Unavailable))
    case (Reserving(cand), Inserted(ok, affected)) =>
      Some(if !ok || (cand.key == "" && !affected) then Refused(cand, Unavailable) else Locking(cand))
    case (Locking(cand), Locked(None)) => Some(Refused(cand, Unavailable))
    case (Locking(cand), Locked(Some(row))) =>
      Some(if !row.matches then Refused(cand, if cand.key != "" then Conflict else Unavailable)
           else if row.published then Deduplicating(cand, row.rec)
           else Publishing(cand, row.rec))
    case (Deduplicating(cand, rec), Committed(ok)) =>
      Some(if ok then Accepted(cand, rec, true) else Refused(cand, Unavailable))
    case (Publishing(cand, rec), Published(ok)) =>
      Some(if ok then Marking(cand, rec) else Refused(cand, PublishFailed))
    case (Marking(cand, rec), Marked(ok)) =>
      Some(if ok then Committing(cand, rec) else Refused(cand, Unavailable))
    case (Committing(cand, rec), Committed(ok)) =>
      Some(if ok then Accepted(cand, rec, false) else Refused(cand, Unavailable))
    case _ => None
  }

  function Run(cand: Record, trace: seq<Event>): Option<Phase> {
    if trace == [] then Some(Waiting(cand))
    else
      match Run(cand, trace[..|trace| - 1])
      case None => None
      case Some(p) => Step(p, trace[|trace| - 1])
  }

  /** What a request asks of the database and the publisher, with the answer. */
  datatype Call =
    | Insert(rec: Record, ok: bool, affected: bool)
    | LockAccepted(cand: Record, row: Option<LockedRow>)
    | Publish(rec: Record, ok: bool)
    | MarkPublished(id: Id, ok: bool)
    | Commit(ok: bool)

  /** The calls whose answers a walk's events are. */
  function CallsOf(cand: Record, trace: seq<Event>): seq<Call> {
    if trace == [] then []
    else
      var before := Run(cand, trace[..|trace| - 1]);
      CallsOf(cand, trace[..|trace| - 1]) + if before.Some? then CallOf(before.value, trace[|trace| - 1]) else []
  }

  function CallOf(before: Phase, e: Event): seq<Call> {
    match (before, e)
    case (Reserving(cand), Inserted(ok, affected)) => [Insert(cand, ok, affected)]
    case (Locking(cand), Locked(row)) => [LockAccepted(cand, row)]
    case (Publishing(_, rec), Published(ok)) => [Publish(rec, ok)]
    case (Marking(_, rec), Marked(ok)) => [MarkPublished(rec.id, ok)]
    case (_, Committed(ok)) => [Commit(ok)]
    case _ => []
  }

  /** Appends an event to a walk that has reached `p`. */
  ghost function Emit(cand: Record, trace: seq<Event>, p: Phase, e: Event): (r: seq<Event>)
    ensures r == trace + [e]
    ensures Run(cand, trace) == Some(p) ==>
            Run(cand, r) == Step(p, e) && CallsOf(cand, r) == CallsOf(cand, trace) + CallOf(p, e)
  {
    assert (trace + [e])[..|trace|] == trace;
    trace + [e]
  }

  predicate IsSpace(c: char) {
    c in "\t\n\U{0b}\U{0c}\r \U{85}\U{a0}\U{1680}\U{2028}\U{2029}\U{202f}\U{205f}\U{3000}"
        || '\U{2000}' <= c <= '\U{200a}'
  }

  predicate Blank(s: string) {
    forall i :: 0 <= i < |s| ==> IsSpace(s[i])
  }

  /** A key of white space is no key. */
  function Normalize(rec: Record): (r: Record)
    ensures r.key == "" || !Blank(r.key)
    ensures r == rec.(key := r.key) && (!Blank(rec.key) ==> r == rec)
  {
    if Blank(rec.key) then rec.(key := "") else rec
  }

  /** The status and id the handler answers once a request has ended. */
  datatype Answer = Answer(status: int, id: Option<Id>)

  function Respond(p: Phase): Answer {
    match p
    case Accepted(_, rec, _) => Answer(202, Some(rec.id))
    case Refused(_, Conflict) => Answer(409, None)
    case _ => Answer(503, None)
  }
}

/** The imperative side of the store. */
module Store {
  import opened Common
  import opened EventDb
  import opened Acceptance
  import W = Worker

  /** One pool connection is left for reads; a pool of one still accepts. */
  function Slots(maxConns: int): (slots: nat)
    ensures slots >= 1 && (maxConns >= 2 ==> slots < maxConns)
  {
    if maxConns - 1 < 1 then 1 else maxConns - 1
  }

  lemma Regroup(a: seq<Call>, b: seq<Call>, c: seq<Call>)
    ensures a + b + c == a + (b + c)
  {
  }

  // What the answers mean, call by call

  /** The candidate's row is in the table: just inserted, or already there under its key. */
  predicate RowThere(cand: Record, c: Call) {
    c.Insert? && c.rec == cand && c.ok && (cand.key == "" ==> c.affected)
  }

  /** The row was there and was read under its lock. */
  predicate Read(cand: Record, made: seq<Call>, row: LockedRow) {
    |made| >= 2 && RowThere(cand, made[0]) && made[1] == LockAccepted(cand, Some(row))
  }

  /** The row holds the request's own event, already published, and the transaction ended well. */
  predicate FoundPublished(cand: Record, made: seq<Call>, rec: Record) {
    |made| == 3 && Read(cand, made, LockedRow(rec, true, true)) && made[2] == Commit(true)
  }

  /** The row was published by this request: record sent, row marked, transaction ended well. */
  predicate JustPublished(cand: Record, made: seq<Call>, rec: Record) {
    && |made| == 5 && Read(cand, made, LockedRow(rec, false, true))
    && made[2] == Publish(rec, true) && made[3] == MarkPublished(rec.id, true) && made[4] == Commit(true)
  }

  /** The key's row holds another event. */
  predicate KeyTaken(cand: Record, made: seq<Call>) {
    && |made| == 2 && cand.key != "" && made[1].LockAccepted? && made[1].row.Some?
    && !made[1].row.value.matches && Read(cand, made, made[1].row.value)
  }

  /** The publisher refused the record. */
  predicate PublishRefused(cand: Record, made: seq<Call>) {
    && |made| == 3 && made[2].Publish? && !made[2].ok && Read(cand, made, LockedRow(made[2].rec, false, true))
  }

  /** How each call may fail: the insert, the lock, an unkeyed row that is not the request's, the mark, the commit. */
  predicate Failed(cand: Record, made: seq<Call>) {
    || (|made| == 1 && made[0].Insert? && made[0].rec == cand && !RowThere(cand, made[0]))
    || (|made| == 2 && RowThere(cand, made[0]) && made[1] == LockAccepted(cand, None))
    || (|made| == 2 && cand.key == "" && made[1].LockAccepted? && made[1].row.Some? && !made[1].row.value.matches
        && Read(cand, made, made[1].row.value))
    || (|made| == 3 && made[2] == Commit(false) && made[1].LockAccepted? && made[1].row.Some?
        && made[1].row.value.published && made[1].row.value.matches && Read(cand, made, made[1].row.value))
    || (|made| >= 4 && made[2].Publish? && made[2].ok && Read(cand, made, LockedRow(made[2].rec, false, true))
        && ((|made| == 4 && made[3] == MarkPublished(made[2].rec.id, false))
            || (|made| == 5 && made[3] == MarkPublished(made[2].rec.id, true) && made[4] == Commit(false))))
  }

  /** The one end that the calls and their answers leave, for a request that got a slot. */
  ghost predicate EndsAs(cand: Record, made: seq<Call>, end: Phase) {
    && end.cand == cand && (end.Accepted? || end.Refused?)
    && (forall rec :: end == Accepted(cand, rec, true) <==> FoundPublished(cand, made, rec))
    && (forall rec :: end == Accepted(cand, rec, false) <==> JustPublished(cand, made, rec))
    && (end == Refused(cand, Conflict) <==> KeyTaken(cand, made))
    && (end == Refused(cand, PublishFailed) <==> PublishRefused(cand, made))
    && (end == Refused(cand, Unavailable) <==> Failed(cand, made))
  }

  /** The end of a walk whose publish succeeded. */
  lemma MarkEnds(cand: Record, made: seq<Call>, rec: Record, end: Phase)
    requires |made| >= 4 && Read(cand, made, LockedRow(rec, false, true)) && made[2] == Publish(rec, true)
    requires |made| == 4 ==> made[3] == MarkPublished(rec.id, false) && end == Refused(cand, Unavailable)
    requires |made| > 4 ==>
               && |made| == 5 && made[3] == MarkPublished(rec.id, true) && made[4].Commit?
               && end == if made[4].ok then Accepted(cand, rec, false) else Refused(cand, Unavailable)
    ensures EndsAs(cand, made, end)
  {
  }

  /** What the handler then tells its caller: 202 with the event's id, 409 for a key that is taken, 503 for the rest. */
  lemma Tells(cand: Record, made: seq<Call>, end: Phase)
    requires EndsAs(cand, made, end)
    ensures forall rec :: FoundPublished(cand, made, rec) || JustPublished(cand, made, rec) ==>
              Respond(end) == Answer(202, Some(rec.id))
    ensures Respond(end).status == 202 ==>
              FoundPublished(cand, made, end.rec) || JustPublished(cand, made, end.rec)
    ensures Respond(end) == Answer(409, None) <==> KeyTaken(cand, made)
    ensures Respond(end) == Answer(503, None) <==> PublishRefused(cand, made) || Failed(cand, made)
  {
    if end.Accepted? {
      assert end == Accepted(cand, end.rec, end.deduplicated);
    } else {
      assert end == Refused(cand, end.why);
    }
  }

  /** The database session and the publisher, with every call made. */
  class Backend {
    var calls: seq<Call>

    constructor ()
      ensures calls == []
    {
      calls := [];
    }

    method InsertEvent(rec: Record) returns (ok: bool, affected: bool)
      modifies this
      ensures calls == old(calls) + [Insert(rec, ok, affected)]
    {
      ok, affected := *, *;
      calls := calls + [Insert(rec, ok, affected)];
    }

    /** None: no transaction, no row, or an error. */
    method LockAcceptedEvent(cand: Record) returns (row: Option<LockedRow>)
      modifies this
      ensures calls == old(calls) + [LockAccepted(cand, row)]
    {
      row := *;
      calls := calls + [LockAccepted(cand, row)];
    }

    method PublishRecord(rec: Record) returns (ok: bool)
      modifies this
      ensures calls == old(calls) + [Publish(rec, ok)]
    {
      ok := *;
      calls := calls + [Publish(rec, ok)];
    }

    method MarkEventPublished(id: Id) returns (ok: bool)
      modifies this
      ensures calls == old(calls) + [MarkPublished(id, ok)]
    {
      ok := *;
      calls := calls + [MarkPublished(id, ok)];
    }

    method CommitTx() returns (ok: bool)
      modifies this
      ensures calls == old(calls) + [Commit(ok)]
    {
      ok := *;
      calls := calls + [Commit(ok)];
    }
  }

  class AcceptanceStore {
    const capacity: nat
    const backend: Backend
    var inUse: nat

    ghost predicate Valid() reads this { inUse <= capacity }

    constructor (maxConns: int, backend: Backend)
      ensures Valid() && inUse == 0 && capacity == Slots(maxConns) && this.backend == backend
    {
      capacity := Slots(maxConns);
      this.backend := backend;
      inUse := 0;
    }

    method AcquireSlot() returns (ok: bool)
      requires Valid()
      modifies this
      ensures Valid() && inUse == old(inUse) + (if ok then 1 else 0)
      ensures old(inUse) >= capacity ==> !ok
    {
      var deadlinePassed: bool := *;
      ok := inUse < capacity && !deadlinePassed;
      if ok {
        inUse := inUse + 1;
      }
    }

    method ReleaseSlot()
      requires Valid() && inUse > 0
      modifies this
      ensures Valid() && inUse == old(inUse) - 1
    {
      inUse := inUse - 1;
    }

    /** Whatever the database and the publisher answer, the call walks the automaton to the result it
    returns, having made exactly that walk's calls in its order, and gives back the slot it took on every
    path. */
    method AcceptEvent(rec: Record)
        returns (end: Phase, ghost trace: seq<Event>, ghost slot: bool, ghost made: seq<Call>)
      requires Valid()
      modifies this, backend
      ensures backend.calls == old(backend.calls) + made
      ensures if slot then EndsAs(Normalize(rec), made, end)
              else made == [] && end == Refused(Normalize(rec), Unavailable)
      ensures old(inUse) >= capacity ==> !slot
      ensures Valid() && inUse == old(inUse)
      ensures Run(Normalize(rec), trace) == Some(end)
      ensures end.Accepted? || end.Refused?
      ensures backend.calls == old(backend.calls) + CallsOf(Normalize(rec), trace)
    {
      var ok := AcquireSlot();
      slot, made := ok, [];
      var cand := Normalize(rec);
      trace := Emit(cand, [], Waiting(cand), Slot(ok));
      if !ok {
        end := Refused(cand, Unavailable);
        return;
      }
      assert CallsOf(cand, trace) == [];
      end, trace, made := AcceptWithSlot(cand, trace);
      assert CallsOf(cand, trace) == made;
      ReleaseSlot();
    }

    method AcceptWithSlot(cand: Record, ghost before: seq<Event>)
        returns (end: Phase, ghost trace: seq<Event>, ghost made: seq<Call>)
      requires Run(cand, before) == Some(Reserving(cand))
      modifies backend
      ensures EndsAs(cand, made, end)
      ensures Run(cand, trace) == Some(end)
      ensures end.Accepted? || end.Refused?
      ensures backend.calls == old(backend.calls) + made && CallsOf(cand, trace) == CallsOf(cand, before) + made
    {
      var ok, affected := backend.InsertEvent(cand);
      trace, made := Emit(cand, before, Reserving(cand), Inserted(ok, affected)), [Insert(cand, ok, affected)];
      if !ok {
        return Refused(cand, Unavailable), trace, made;
      }
      if cand.key == "" && !affected {
        return Refused(cand, Unavailable), trace, made;
      }
      ghost var later;
      end, trace, later := AcceptLocked(cand, trace, made);
      Regroup(old(backend.calls), made, later);
      Regroup(CallsOf(cand, before), made, later);
      made := made + later;
    }

    /** `front` is what has been called before. */
    method AcceptLocked(cand: Record, ghost before: seq<Event>, ghost front: seq<Call>)
        returns (end: Phase, ghost trace: seq<Event>, ghost made: seq<Call>)
      requires Run(cand, before) == Some(Locking(cand))
      requires |front| == 1 && RowThere(cand, front[0])
      modifies backend
      ensures EndsAs(cand, front + made, end)
      ensures Run(cand, trace) == Some(end)
      ensures end.Accepted? || end.Refused?
      ensures backend.calls == old(backend.calls) + made && CallsOf(cand, trace) == CallsOf(cand, before) + made
    {
      var row := backend.LockAcceptedEvent(cand);
      trace, made := Emit(cand, before, Locking(cand), Locked(row)), [LockAccepted(cand, row)];
      if row.None? {
        return Refused(cand, Unavailable), trace, made;
      }
      var accepted, published, matches := row.value.rec, row.value.published, row.value.matches;
      if !matches {
        if cand.key != "" {
          return Refused(cand, Conflict), trace, made;
        }
        return Refused(cand, Unavailable), trace, made;
      }
      if published {
        var ok := backend.CommitTx();
        trace, made := Emit(cand, trace, Deduplicating(cand, accepted), Committed(ok)), made + [Commit(ok)];
        if !ok {
          return Refused(cand, Unavailable), trace, made;
        }
        return Accepted(cand, accepted, true), trace, made;
      }
      ghost var later;
      end, trace, later := PublishAndMark(cand, accepted, trace, front + made);
      Regroup(front, made, later);
      Regroup(old(backend.calls), made, later);
      Regroup(CallsOf(cand, before), made, later);
      made := made + later;
    }

    method PublishAndMark(cand: Record, accepted: Record, ghost before: seq<Event>, ghost front: seq<Call>)
        returns (end: Phase, ghost trace: seq<Event>, ghost made: seq<Call>)
      requires Run(cand, before) == Some(Publishing(cand, accepted))
      requires |front| == 2 && Read(cand, front, LockedRow(accepted, false, true))
      modifies backend
      ensures EndsAs(cand, front + made, end)
      ensures Run(cand, trace) == Some(end)
      ensures end.Accepted? || end.Refused?
      ensures backend.calls == old(backend.calls) + made && CallsOf(cand, trace) == CallsOf(cand, before) + made
    {
      var ok := backend.PublishRecord(accepted);
      trace, made := Emit(cand, before, Publishing(cand, accepted), Published(ok)), [Publish(accepted, ok)];
      if !ok {
        return Refused(cand, PublishFailed), trace, made;
      }
      ghost var later;
      end, trace, later := MarkAndCommit(cand, accepted, trace, front + made);
      Regroup(front, made, later);
      Regroup(old(backend.calls), made, later);
      Regroup(CallsOf(cand, before), made, later);
      made := made + later;
    }

    method MarkAndCommit(cand: Record, accepted: Record, ghost before: seq<Event>, ghost front: seq<Call>)
        returns (end: Phase, ghost trace: seq<Event>, ghost made: seq<Call>)
      requires Run(cand, before) == Some(Marking(cand, accepted))
      requires |front| == 3 && Read(cand, front, LockedRow(accepted, false, true))
      requires front[2] == Publish(accepted, true)
      modifies backend
      ensures EndsAs(cand, front + made, end)
      ensures Run(cand, trace) == Some(end)
      ensures end.Accepted? || end.Refused?
      ensures backend.calls == old(backend.calls) + made && CallsOf(cand, trace) == CallsOf(cand, before) + made
    {
      var ok := backend.MarkEventPublished(accepted.id);
      trace, made := Emit(cand, before, Marking(cand, accepted), Marked(ok)), [MarkPublished(accepted.id, ok)];
      if !ok {
        MarkEnds(cand, front + made, accepted, Refused(cand, Unavailable));
        return Refused(cand, Unavailable), trace, made;
      }
      ok := backend.CommitTx();
      trace, made := Emit(cand, trace, Committing(cand, accepted), Committed(ok)), made + [Commit(ok)];
      end := if ok then Accepted(cand, accepted, false) else Refused(cand, Unavailable);
      MarkEnds(cand, front + made, accepted, end);
    }
  }

  /** An HTTP attempt on its way into the table. */
  datatype Attempt = Attempt(sub: int, url: string, startedAt: int, finishedAt: int,
                             status: Option<int>, transportError: string, outcome: W.AttemptOutcome)

  predicate ValidAttempt(event: Id, a: Attempt) {
    && !Blank(event) && a.sub > 0 && !Blank(a.url)
    && a.startedAt != 0 && a.finishedAt != 0 && a.finishedAt >= a.startedAt
    && (a.status.Some? <==> a.transportError == "")
  }

  /** The row a staged transaction adds is the last one and continues its sequence. */
  lemma AppliedRow(db: Db, id: Id)
    requires DbInv(db) && id in db.locks && db.locks[id].insert.Some?
    ensures id in db.rows
    ensures var row, attempts := db.locks[id].insert.value, Apply(db, id).attempts;
            && attempts == db.attempts + [row]
            && row.number == |Numbers(attempts, id, row.sub)|
            && CountsUp(Numbers(attempts, id, row.sub))
  {
    var row := db.locks[id].insert.value;
    assert TxInv(db, id);
    assert CountsUp(Numbers(db.attempts, id, row.sub));
    MaxOfCount(Numbers(db.attempts, id, row.sub));
    NumbersExtend(db.attempts, row, id, row.sub);
  }

  datatype Reply = LockRefused | NoRow | RowLocked | InsertRefused | RowInserted | CommitRefused | TxCommitted

  predicate Refuses(r: Reply) { r.LockRefused? || r.InsertRefused? || r.CommitRefused? }

  class AttemptStore {
    var db: Db
    /** The rows that transactions of this store, not of other clients, have committed, in order. */
    ghost var own: seq<AttemptRow>
    /** What its statements were answered, in order. */
    ghost var replies: seq<Reply>

    constructor ()
      ensures DbInv(db) && db.rows == map[] && db.attempts == [] && own == [] && replies == []
    {
      db, own, replies := Db(map[], map[], []), [], [];
    }

    /** What other clients may have done between two statements of the transaction `owner` holds on
    `id`: anything that keeps the tables consistent, except take that row.  The connection may have
    been lost, which drops the transaction. */
    ghost predicate Interference(before: Db, after: Db, id: Id, owner: Owner) {
      && DbInv(after)
      && before.attempts <= after.attempts
      && (forall e :: e in before.rows ==> e in after.rows)
      && (Holds(before, id, owner) ==>
            && (id in after.locks ==> after.locks[id] == before.locks[id])
            && (id in after.locks ==>
                  forall sub :: Numbers(after.attempts, id, sub) == Numbers(before.attempts, id, sub)))
      && (!Holds(before, id, owner) ==> !Holds(after, id, owner))
    }

    method Others(id: Id, owner: Owner)
      requires DbInv(db)
      modifies this`db
      ensures Interference(old(db), db, id, owner)
    {
      // Doing nothing is one such step; callers know only the contract.
    }

    /** SELECT ... FOR UPDATE of the event row; refused without a connection, or when the deadline passes first. */
    method LockEvent(event: Id, owner: Owner) returns (r: Reply)
      requires DbInv(db) && owner.DeliverTx? && !Holds(db, event, owner)
      modifies this`db, this`replies
      ensures replies == old(replies) + [r] && r in {LockRefused, NoRow, RowLocked}
      ensures DbInv(db) && old(db).attempts <= db.attempts && (r.RowLocked? ==> Holds(db, event, owner))
      ensures r.NoRow? ==> event !in old(db).rows
    {
      Others(event, owner);
      var failed: bool := *;
      if failed || event in db.locks {
        r := LockRefused;
      } else if event !in db.rows {
        r := NoRow;
      } else {
        LockKeeps(db, event, owner);
        db := Lock(db, event, owner);
        r := RowLocked;
      }
      replies := replies + [r];
    }

    /** INSERT ... SELECT of the next attempt number. */
    method InsertAttempt(event: Id, a: Attempt, owner: Owner) returns (r: Reply, row: AttemptRow)
      requires DbInv(db) && owner.DeliverTx? && Holds(db, event, owner)
      modifies this`db, this`replies
      ensures replies == old(replies) + [r] && r in {InsertRefused, RowInserted}
      ensures DbInv(db) && old(db).attempts <= db.attempts
      ensures r.RowInserted? ==> Holds(db, event, owner) && db.locks[event].insert == Some(row)
      ensures row.event == event && row.sub == a.sub && row.outcome == a.outcome && row.status == a.status
    {
      Others(event, owner);
      row := AttemptRow(event, a.sub, Next(db.attempts, event, a.sub), a.outcome, a.status);
      var failed: bool := *;
      if failed || !Holds(db, event, owner) {
        r := InsertRefused;
      } else {
        StageKeeps(db, event, row);
        db := Stage(db, event, row);
        r := RowInserted;
      }
      replies := replies + [r];
    }

    /** COMMIT of the transaction held on a row, which adds the row it has staged. */
    method CommitTx(event: Id, owner: Owner) returns (r: Reply)
      requires DbInv(db) && owner.DeliverTx? && Holds(db, event, owner) && db.locks[event].insert.Some?
      modifies this
      ensures replies == old(replies) + [r] && r in {CommitRefused, TxCommitted}
      ensures DbInv(db) && old(db).attempts <= db.attempts
      ensures var row := old(db).locks[event].insert.value;
              && own == old(own) + (if r.TxCommitted? then [row] else [])
              && (r.TxCommitted? ==> Continues(old(db).attempts, db.attempts, row))
    {
      ghost var row := db.locks[event].insert.value;
      Others(event, owner);
      var failed: bool := *;
      if failed || !Holds(db, event, owner) {
        r := CommitRefused;
      } else {
        ApplyKeeps(db, event);
        AppliedRow(db, event);
        own := own + [row];
        db := Apply(db, event);
        r := TxCommitted;
      }
      replies := replies + [r];
    }

    /** Runs the recording transaction against every other client.  Success means this call has committed exactly one
    row, the last one, numbered one past everything the event and subscription already had; any other answer means
    it committed none, and a missing event is reported only when its row is not there.  Which of them it is, its
    statements' replies decide. */
    method RecordAttempt(event: Id, a: Attempt, owner: Owner)
        returns (result: W.RecordResult, row: AttemptRow, ghost made: seq<Reply>)
      requires DbInv(db) && owner.DeliverTx? && !Holds(db, event, owner)
      modifies this
      ensures DbInv(db) && old(db).attempts <= db.attempts
      ensures result.RecordMissing? ==> event !in old(db).rows
      ensures own == old(own) + if result.RecordOk? then [row] else []
      ensures result.RecordOk? ==> ValidAttempt(event, a) && Recorded(old(db), db, event, a, row)
      ensures replies == old(replies) + made && (!ValidAttempt(event, a) ==> made == [] && result.RecordFailed?)
      ensures ValidAttempt(event, a) ==>
                && (result.RecordOk? <==>
                   |made| == 3 && made[0].RowLocked? && made[1].RowInserted? && made[2].TxCommitted?)
                && (result.RecordMissing? <==> |made| == 1 && made[0].NoRow?)
                && (result.RecordFailed? <==> made != [] && Refuses(made[|made| - 1]))
    {
      row, made := AttemptRow(event, a.sub, 1, a.outcome, a.status), [];
      if !ValidAttempt(event, a) {
        result := W.RecordFailed;
        return;
      }
      var locked := LockEvent(event, owner);
      made := made + [locked];
      if !locked.RowLocked? {
        result := if locked.NoRow? then W.RecordMissing else W.RecordFailed;
        return;
      }
      ghost var later;
      result, row, later := InsertAndCommit(event, a, owner);
      made := made + later;
    }

    method InsertAndCommit(event: Id, a: Attempt, owner: Owner)
        returns (result: W.RecordResult, row: AttemptRow, ghost made: seq<Reply>)
      requires DbInv(db) && owner.DeliverTx? && Holds(db, event, owner)
      modifies this
      ensures DbInv(db) && old(db).attempts <= db.attempts
      ensures own == old(own) + if result.RecordOk? then [row] else []
      ensures result.RecordOk? ==> Recorded(old(db), db, event, a, row)
      ensures replies == old(replies) + made
      ensures result.RecordOk? <==> |made| == 2 && made[0].RowInserted? && made[1].TxCommitted?
      ensures result.RecordFailed? <==> made != [] && Refuses(made[|made| - 1])
      ensures !result.RecordMissing? && made != []
    {
      var inserted, committed;
      inserted, row := InsertAttempt(event, a, owner);
      made := [inserted];
      if !inserted.RowInserted? {
        result := W.RecordFailed;
        return;
      }
      committed := CommitTx(event, owner);
      made := made + [committed];
      result := if committed.TxCommitted? then W.RecordOk else W.RecordFailed;
    }
  }

  /** The row is the last and continues its event's and subscription's sequence. */
  ghost predicate Continues(before: seq<AttemptRow>, after: seq<AttemptRow>, row: AttemptRow) {
    && |after| > |before| && after[|after| - 1] == row
    && row.number == |Numbers(after, row.event, row.sub)| && CountsUp(Numbers(after, row.event, row.sub))
  }

  ghost predicate Recorded(before: Db, after: Db, event: Id, a: Attempt, row: AttemptRow) {
    && Continues(before.attempts, after.attempts, row)
    && row.event == event && row.sub == a.sub && row.outcome == a.outcome && row.status == a.status
  }
}
