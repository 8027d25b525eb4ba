/** Runs the relay can make: that the theorems are about something, and where they stop. */
module RelayExamples {
  import opened Common
  import opened EventDb
  import opened Relay
  import opened RelayInvariant
  import opened RelayTheorems
  import A = Acceptance
  import C = ConsumerLoop
  import W = Worker

  ghost predicate Reachable(cfg: Config, s: State)
    requires cfg.Valid()
  {
    exists steps :: Exec(cfg, steps) == Some(s)
  }

  lemma OneMore(cfg: Config, s: State, step: Step)
    requires cfg.Valid() && Reachable(cfg, s) && |s.log| == cfg.parts && Enabled(cfg, s, step)
    ensures Reachable(cfg, Do(cfg, s, step)) && |Do(cfg, s, step).log| == cfg.parts
  {
    var steps :| Exec(cfg, steps) == Some(s);
    assert (steps + [step])[..|steps|] == steps;
    assert Exec(cfg, steps + [step]) == Some(Do(cfg, s, step));
  }

  // Accepting an event

  lemma TakesSlot(cfg: Config, s: State, r: nat, cand: Record)
    requires cfg.Valid() && Reachable(cfg, s) && |s.log| == cfg.parts && r !in s.requests && cand == A.Normalize(cand)
    ensures Reachable(cfg, SetRequest(s, r, A.Reserving(cand)))
  {
    var waiting := SetRequest(s, r, A.Waiting(cand));
    assert Do(cfg, s, Request(r, cand)) == waiting;
    OneMore(cfg, s, Request(r, cand));
    assert SetRequest(waiting, r, A.Reserving(cand)) == SetRequest(s, r, A.Reserving(cand));
    assert Do(cfg, waiting, TakeSlot(r, true)) == SetRequest(s, r, A.Reserving(cand));
    OneMore(cfg, waiting, TakeSlot(r, true));
  }

  lemma Inserts(cfg: Config, s: State, r: nat, cand: Record, db: Db)
    requires cfg.Valid() && |s.log| == cfg.parts && Reachable(cfg, SetRequest(s, r, A.Reserving(cand)))
    requires db == Reserve(s.db, cand, cfg.json(cand.data)) && (cand.key == "" ==> !Conflicts(s.db.rows, cand))
    ensures Reachable(cfg, SetRequest(s.(db := db), r, A.Locking(cand)))
  {
    var reserving, locking := SetRequest(s, r, A.Reserving(cand)), SetRequest(s.(db := db), r, A.Locking(cand));
    assert SetRequest(reserving.(db := db), r, A.Locking(cand)) == locking;
    assert DoInsert(cfg, reserving, r, true, true) == locking;
    OneMore(cfg, reserving, Insert(r, true, true));
  }

  /** A request that holds the lock of an unpublished row it may publish. */
  function Holding(s: State, db: Db, r: nat, cand: Record, rec: Record): State
    requires rec.id in db.rows && rec.id !in db.locks
  {
    SetRequest(s.(db := Lock(db, rec.id, IngestTx(r))), r, A.Publishing(cand, rec))
  }

  lemma LocksRow(cfg: Config, s: State, db: Db, r: nat, cand: Record, id: Id)
    requires cfg.Valid() && |s.log| == cfg.parts && Reachable(cfg, SetRequest(s.(db := db), r, A.Locking(cand)))
    requires id in db.rows && id !in db.locks && !db.rows[id].published
    requires var locking := SetRequest(s.(db := db), r, A.Locking(cand));
             Finds(locking, cand, id) && ReadRow(cfg, locking, cand, id).matches
    ensures Reachable(cfg, Holding(s, db, r, cand, RecordOf(id, db.rows[id])))
  {
    var locking, rec := SetRequest(s.(db := db), r, A.Locking(cand)), RecordOf(id, db.rows[id]);
    assert SetRequest(locking.(db := Lock(db, id, IngestTx(r))), r, A.Publishing(cand, rec)) ==
        Holding(s, db, r, cand, rec);
    assert DoLockRow(cfg, locking, r, id) == Holding(s, db, r, cand, rec);
    OneMore(cfg, locking, LockRow(r, id));
  }

  lemma NewEventIsHeld(cfg: Config, s: State, r: nat, cand: Record)
    requires cfg.Valid() && Reachable(cfg, s) && |s.log| == cfg.parts
    requires r !in s.requests && cand == A.Normalize(cand) && !Conflicts(s.db.rows, cand) && cand.id !in s.db.locks
    ensures Reachable(cfg, Holding(s, Reserve(s.db, cand, cfg.json(cand.data)), r, cand, cand))
  {
    var db := Reserve(s.db, cand, cfg.json(cand.data));
    TakesSlot(cfg, s, r, cand);
    Inserts(cfg, s, r, cand, db);
    LocksRow(cfg, s, db, r, cand, cand.id);
  }

  lemma RetryIsHeld(cfg: Config, s: State, r: nat, cand: Record, id: Id)
    requires cfg.Valid() && Reachable(cfg, s) && |s.log| == cfg.parts
    requires r !in s.requests && cand == A.Normalize(cand) && cand.key != ""
             && Claims(s.db.rows, id, cand.tenant, cand.key)
    requires s.db.rows[id].typ == cand.typ && s.db.rows[id].json == cfg.json(cand.data)
    requires !s.db.rows[id].published && id !in s.db.locks
    ensures Reachable(cfg, Holding(s, s.db, r, cand, RecordOf(id, s.db.rows[id])))
  {
    TakesSlot(cfg, s, r, cand);
    assert Conflicts(s.db.rows, cand);
    Inserts(cfg, s, r, cand, s.db);
    LocksRow(cfg, s, s.db, r, cand, id);
  }

  /** A held request with its record on the log. */
  ghost function Logging(cfg: Config, s: State, db: Db, r: nat, rec: Record, phase: A.Phase): State
    requires cfg.Valid() && |s.log| == cfg.parts
  {
    SetRequest(Append(s.(db := db), cfg.Partition(rec.tenant), Good(Some(r), rec)), r, phase)
  }

  lemma Publishes(cfg: Config, s: State, db: Db, r: nat, cand: Record, rec: Record, ok: bool)
    requires cfg.Valid() && |s.log| == cfg.parts && rec.id in db.rows && rec.id !in db.locks
    requires Reachable(cfg, Holding(s, db, r, cand, rec))
    ensures Reachable(cfg, Logging(cfg, s, Lock(db, rec.id, IngestTx(r)), r, rec,
                                   if ok then A.Marking(cand, rec) else A.Refused(cand, A.PublishFailed)))
  {
    var held := Holding(s, db, r, cand, rec);
    var phase := if ok then A.Marking(cand, rec) else A.Refused(cand, A.PublishFailed);
    var after := Logging(cfg, s, Lock(db, rec.id, IngestTx(r)), r, rec, phase);
    assert held.requests[r := phase] == after.requests;
    assert DoPublish(cfg, held, r, ok, true) == after;
    OneMore(cfg, held, Publish(r, ok, true));
  }

  /** A publish that reports failure after it appended, and the database rolling back. */
  lemma PublishFailsLate(cfg: Config, s: State, db: Db, r: nat, cand: Record, rec: Record)
    requires cfg.Valid() && |s.log| == cfg.parts && rec.id in db.rows && rec.id !in db.locks
    requires Reachable(cfg, Holding(s, db, r, cand, rec))
    ensures Reachable(cfg, Logging(cfg, s, db, r, rec, A.Refused(cand, A.PublishFailed)))
  {
    Publishes(cfg, s, db, r, cand, rec, false);
    var locked := Lock(db, rec.id, IngestTx(r));
    var failed := Logging(cfg, s, locked, r, rec, A.Refused(cand, A.PublishFailed));
    assert locked.locks - {rec.id} == db.locks;
    assert Drop(locked, rec.id) == db;
    assert DoResolve(failed, rec.id, false) == Logging(cfg, s, db, r, rec, A.Refused(cand, A.PublishFailed));
    OneMore(cfg, failed, Resolve(rec.id, false));
  }

  lemma Marks(cfg: Config, s: State, db: Db, r: nat, cand: Record, rec: Record)
    requires cfg.Valid() && |s.log| == cfg.parts && Holds(db, rec.id, IngestTx(r))
    requires Reachable(cfg, Logging(cfg, s, db, r, rec, A.Marking(cand, rec)))
    ensures Reachable(cfg, Logging(cfg, s, Mark(db, rec.id), r, rec, A.Committing(cand, rec)))
  {
    var marking := Logging(cfg, s, db, r, rec, A.Marking(cand, rec));
    var after := Logging(cfg, s, Mark(db, rec.id), r, rec, A.Committing(cand, rec));
    assert marking.requests[r := A.Committing(cand, rec)] == after.requests;
    assert DoMarkRow(marking, r, true) == after;
    OneMore(cfg, marking, MarkRow(r, true));
  }

  lemma Commits(cfg: Config, s: State, db: Db, r: nat, cand: Record, rec: Record)
    requires cfg.Valid() && |s.log| == cfg.parts && rec.id in db.rows && Holds(db, rec.id, IngestTx(r))
             && db.locks[rec.id].mark
    requires Reachable(cfg, Logging(cfg, s, db, r, rec, A.Committing(cand, rec)))
    ensures var logged := Logging(cfg, s, Apply(db, rec.id), r, rec, A.Accepted(cand, rec, false));
            Reachable(cfg, logged.(publisher := s.publisher[rec.id := r]))
  {
    var committing := Logging(cfg, s, db, r, rec, A.Committing(cand, rec));
    var logged := Logging(cfg, s, Apply(db, rec.id), r, rec, A.Accepted(cand, rec, false));
    var after := logged.(publisher := s.publisher[rec.id := r]);
    assert committing.requests[r := A.Accepted(cand, rec, false)] == after.requests;
    assert DoCommitRequest(committing, r, rec.id, true) == after;
    OneMore(cfg, committing, CommitRequest(r, rec.id, true));
  }

  lemma PublishSucceeds(cfg: Config, s: State, db: Db, r: nat, cand: Record, rec: Record)
    requires cfg.Valid() && |s.log| == cfg.parts && rec.id in db.rows && rec.id !in db.locks
    requires Reachable(cfg, Holding(s, db, r, cand, rec))
    ensures Reachable(cfg, Published(cfg, s, db, r, cand, rec))
  {
    var locked := Lock(db, rec.id, IngestTx(r));
    Publishes(cfg, s, db, r, cand, rec, true);
    Marks(cfg, s, locked, r, cand, rec);
    Commits(cfg, s, Mark(locked, rec.id), r, cand, rec);
    assert Mark(locked, rec.id).locks - {rec.id} == db.locks;
    assert Apply(Mark(locked, rec.id), rec.id) == db.(rows := db.rows[rec.id := db.rows[rec.id].(published := true)]);
  }

  /** The event accepted: its row marked, its record on the log, its request the publisher. */
  ghost function Published(cfg: Config, s: State, db: Db, r: nat, cand: Record, rec: Record): State
    requires cfg.Valid() && |s.log| == cfg.parts && rec.id in db.rows
  {
    Logging(cfg, s, db.(rows := db.rows[rec.id := db.rows[rec.id].(published := true)]), r, rec,
            A.Accepted(cand, rec, false))
      .(publisher := s.publisher[rec.id := r])
  }

  /** The state right after the first event was accepted. */
  ghost function FirstEvent(cfg: Config, cand: Record): (s: State)
    requires cfg.Valid()
    ensures |s.log| == |s.committed| == cfg.parts && s.log[cfg.Partition(cand.tenant)] == [Good(Some(0), cand)]
    ensures s.requests == map[0 := A.Accepted(cand, cand, false)] && s.committed == Init(cfg).committed
    ensures s.dlq == {} && s.fanned == {} && s.begun == {} && s.consumers == map[]
    ensures s.db.attempts == [] && s.db.locks == map[] && cand.id in s.db.rows
  {
    Published(cfg, Init(cfg), Reserve(Init(cfg).db, cand, cfg.json(cand.data)), 0, cand, cand)
  }

  lemma NewEventIsPublished(cfg: Config, cand: Record)
    requires cfg.Valid() && cand == A.Normalize(cand)
    ensures Reachable(cfg, FirstEvent(cfg, cand))
  {
    var start := Init(cfg);
    assert Exec(cfg, []) == Some(start);
    NewEventIsHeld(cfg, start, 0, cand);
    PublishSucceeds(cfg, start, Reserve(start.db, cand, cfg.json(cand.data)), 0, cand, cand);
  }

  /** A failed publish may have appended; when its caller retries with the same key the log holds the event twice,
  although only the retry was accepted. */
  lemma RetryCanDuplicate(cfg: Config, first: Record, retry: Record)
    requires cfg.Valid() && first == A.Normalize(first) && retry == A.Normalize(retry)
    requires first.key == retry.key != "" && first.tenant == retry.tenant && first.typ == retry.typ
    requires cfg.json(first.data) == cfg.json(retry.data)
    ensures exists s ::
              && Reachable(cfg, s) && s.requests.Keys == {0, 1}
              && s.requests[0] == A.Refused(first, A.PublishFailed) && s.requests[1] == A.Accepted(retry, first, false)
              && HoldsRecord(s, cfg.Partition(first.tenant), 0, first.id)
              && HoldsRecord(s, cfg.Partition(first.tenant), 1, first.id)
  {
    var start := Init(cfg);
    assert Exec(cfg, []) == Some(start);
    NewEventIsHeld(cfg, start, 0, first);
    var db := Reserve(start.db, first, cfg.json(first.data));
    PublishFailsLate(cfg, start, db, 0, first, first);
    var p := cfg.Partition(first.tenant);
    var failed := Logging(cfg, start, db, 0, first, A.Refused(first, A.PublishFailed));
    RetryIsHeld(cfg, failed, 1, retry, first.id);
    PublishSucceeds(cfg, failed, db, 1, retry, first);
    var s := Published(cfg, failed, db, 1, retry, first);
    assert s.log[p] == [Good(Some(0), first), Good(Some(1), first)];
    assert HoldsRecord(s, p, 0, first.id) && HoldsRecord(s, p, 1, first.id);
  }

  // The same request again

  /** The key's row is found published, so there is nothing left to publish. */
  lemma FindsPublished(cfg: Config, s: State, r: nat, cand: Record, id: Id)
    requires cfg.Valid() && |s.log| == cfg.parts && Reachable(cfg, SetRequest(s, r, A.Locking(cand)))
    requires id in s.db.rows && id !in s.db.locks && s.db.rows[id].published
    requires var locking := SetRequest(s, r, A.Locking(cand));
             Finds(locking, cand, id) && ReadRow(cfg, locking, cand, id).matches
    ensures var rec := RecordOf(id, s.db.rows[id]);
            Reachable(cfg, SetRequest(s.(db := Lock(s.db, id, IngestTx(r))), r, A.Deduplicating(cand, rec)))
  {
    var locking, rec := SetRequest(s, r, A.Locking(cand)), RecordOf(id, s.db.rows[id]);
    var found := SetRequest(s.(db := Lock(s.db, id, IngestTx(r))), r, A.Deduplicating(cand, rec));
    assert SetRequest(locking.(db := Lock(s.db, id, IngestTx(r))), r, A.Deduplicating(cand, rec)) == found;
    assert DoLockRow(cfg, locking, r, id) == found;
    OneMore(cfg, locking, LockRow(r, id));
  }

  lemma Deduplicates(cfg: Config, s: State, r: nat, cand: Record, rec: Record)
    requires cfg.Valid() && |s.log| == cfg.parts && rec.id in s.db.rows && rec.id !in s.db.locks
    requires var db := Lock(s.db, rec.id, IngestTx(r));
             Reachable(cfg, SetRequest(s.(db := db), r, A.Deduplicating(cand, rec)))
    ensures Reachable(cfg, SetRequest(s, r, A.Accepted(cand, rec, true)))
  {
    var db := Lock(s.db, rec.id, IngestTx(r));
    var found, after := SetRequest(s.(db := db), r, A.Deduplicating(cand, rec)),
        SetRequest(s, r, A.Accepted(cand, rec, true));
    assert db.locks - {rec.id} == s.db.locks && s.db.rows[rec.id := s.db.rows[rec.id]] == s.db.rows;
    assert Apply(db, rec.id) == s.db;
    assert found.requests[r := A.Accepted(cand, rec, true)] == after.requests;
    assert DoCommitRequest(found, r, rec.id, true) == after;
    OneMore(cfg, found, CommitRequest(r, rec.id, true));
  }

  /** Repeating an accepted request under its key is answered with the first event and adds no record. */
  lemma RepeatIsDeduplicated(cfg: Config, first: Record, retry: Record)
    requires cfg.Valid() && first == A.Normalize(first) && retry == A.Normalize(retry)
    requires first.key == retry.key != "" && first.tenant == retry.tenant && first.typ == retry.typ
    requires cfg.json(first.data) == cfg.json(retry.data)
    ensures Reachable(cfg, SetRequest(FirstEvent(cfg, first), 1, A.Accepted(retry, first, true)))
    ensures forall p :: 0 <= p < cfg.parts ==>
              FirstEvent(cfg, first).log[p] == if p == cfg.Partition(first.tenant) then [Good(Some(0), first)] else []
    ensures A.Respond(A.Accepted(retry, first, true)) == A.Answer(202, Some(first.id))
  {
    NewEventIsPublished(cfg, first);
    var s := FirstEvent(cfg, first);
    TakesSlot(cfg, s, 1, retry);
    assert Claims(s.db.rows, first.id, retry.tenant, retry.key);
    assert Conflicts(s.db.rows, retry);
    Inserts(cfg, s, 1, retry, s.db);
    assert s.(db := s.db) == s;
    FindsPublished(cfg, s, 1, retry, first.id);
    Deduplicates(cfg, s, 1, retry, first);
  }

  // A record in hand can be finished

  /** The consumer is free again and the record's offset is committed. */
  ghost function Finished(s: State, c: nat): State
    requires c in s.consumers && s.consumers[c].phase.Working() && s.consumers[c].phase.p < |s.committed|
  {
    var ph := s.consumers[c].phase;
    SetPhase(s, c, C.Idle).(committed := s.committed[ph.p := ph.o + 1])
  }

  lemma InHandIsLogged(cfg: Config, s: State, c: nat)
    requires cfg.Valid() && Reachable(cfg, s) && c in s.consumers && s.consumers[c].phase.Working()
    ensures |s.log| == |s.committed| == cfg.parts
    ensures var ph := s.consumers[c].phase; ph.p < cfg.parts && ph.o < |s.log[ph.p]|
  {
    var steps :| Exec(cfg, steps) == Some(s);
    RunsKeepInv(cfg, steps);
    assert ConsumerOk(s, s.consumers[c]);
  }

  lemma CanCommit(cfg: Config, s: State, c: nat)
    requires cfg.Valid() && Reachable(cfg, s) && c in s.consumers && s.consumers[c].phase.Committing?
    ensures s.consumers[c].phase.p < |s.committed| && Reachable(cfg, Finished(s, c))
  {
    InHandIsLogged(cfg, s, c);
    var end := CommitOffset(c, true, true);
    assert DoCommitOffset(cfg, s, c, true, true) == Finished(s, c);
    OneMore(cfg, s, end);
  }

  lemma CanDecode(cfg: Config, s: State, c: nat)
    requires cfg.Valid() && Reachable(cfg, s) && c in s.consumers && s.consumers[c].phase.Decoding?
    ensures var ph := s.consumers[c].phase;
            && ph.p < |s.log| && ph.o < |s.log[ph.p]|
            && Reachable(cfg, SetPhase(s, c, if s.log[ph.p][ph.o].Good? then C.LookingUp(ph.p, ph.o)
                                             else C.Parking(ph.p, ph.o)))
  {
    InHandIsLogged(cfg, s, c);
    OneMore(cfg, s, Decode(c));
  }

  lemma CanPark(cfg: Config, s: State, c: nat)
    requires cfg.Valid() && Reachable(cfg, s) && c in s.consumers && s.consumers[c].phase.Parking?
    ensures var p, o := s.consumers[c].phase.p, s.consumers[c].phase.o;
            Reachable(cfg, SetPhase(s, c, C.Committing(p, o, [], [])).(dlq := s.dlq + {Poison(p, o)}))
  {
    InHandIsLogged(cfg, s, c);
    OneMore(cfg, s, Park(c, true, true));
  }

  lemma CanFindNobody(cfg: Config, s: State, c: nat)
    requires cfg.Valid() && Reachable(cfg, s) && c in s.consumers && s.consumers[c].phase.LookingUp?
    ensures var p, o := s.consumers[c].phase.p, s.consumers[c].phase.o;
            Reachable(cfg, SetPhase(s, c, C.Committing(p, o, [], [])).(fanned := s.fanned + {FanOut(p, o, [])}))
  {
    InHandIsLogged(cfg, s, c);
    OneMore(cfg, s, FindSubs(c, []));
  }

  /** The record's offset is next to be committed. */
  ghost function Committable(s: State, c: nat): State
    requires c in s.consumers && s.consumers[c].phase.Working()
  {
    SetPhase(s, c, C.Committing(s.consumers[c].phase.p, s.consumers[c].phase.o, [], []))
  }

  lemma CommittableFinishes(s: State, c: nat)
    requires c in s.consumers && s.consumers[c].phase.Working() && s.consumers[c].phase.p < |s.committed|
    ensures Finished(Committable(s, c), c) == Finished(s, c)
  {
    Overwrites(s, c, C.Committing(s.consumers[c].phase.p, s.consumers[c].phase.o, [], []), C.Idle);
  }

  lemma CanBeParked(cfg: Config, s: State, c: nat)
    requires cfg.Valid() && Reachable(cfg, s) && c in s.consumers && s.consumers[c].phase.Decoding?
    requires var ph := s.consumers[c].phase; ph.p < |s.log| && ph.o < |s.log[ph.p]| && s.log[ph.p][ph.o].Bad?
    ensures var ph := s.consumers[c].phase;
            Reachable(cfg, Committable(s.(dlq := s.dlq + {Poison(ph.p, ph.o)}), c))
  {
    CanDecode(cfg, s, c);
    var p, o := s.consumers[c].phase.p, s.consumers[c].phase.o;
    CanPark(cfg, SetPhase(s, c, C.Parking(p, o)), c);
    Overwrites(s, c, C.Parking(p, o), C.Committing(p, o, [], []));
  }

  /** A record that cannot be decoded can always be parked and committed. */
  lemma BadCanBeParked(cfg: Config, s: State, c: nat)
    requires cfg.Valid() && Reachable(cfg, s) && c in s.consumers && s.consumers[c].phase.Decoding?
    requires var ph := s.consumers[c].phase; ph.p < |s.log| && ph.o < |s.log[ph.p]| && s.log[ph.p][ph.o].Bad?
    ensures s.consumers[c].phase.p < |s.committed|
    ensures var ph := s.consumers[c].phase; Reachable(cfg, Finished(s.(dlq := s.dlq + {Poison(ph.p, ph.o)}), c))
  {
    var parked := s.(dlq := s.dlq + {Poison(s.consumers[c].phase.p, s.consumers[c].phase.o)});
    CanBeParked(cfg, s, c);
    CanCommit(cfg, Committable(parked, c), c);
    CommittableFinishes(parked, c);
  }

  lemma CanBeUnwanted(cfg: Config, s: State, c: nat)
    requires cfg.Valid() && Reachable(cfg, s) && c in s.consumers && s.consumers[c].phase.Decoding?
    requires var ph := s.consumers[c].phase; ph.p < |s.log| && ph.o < |s.log[ph.p]| && s.log[ph.p][ph.o].Good?
    ensures var ph := s.consumers[c].phase;
            Reachable(cfg, Committable(s.(fanned := s.fanned + {FanOut(ph.p, ph.o, [])}), c))
  {
    CanDecode(cfg, s, c);
    var p, o := s.consumers[c].phase.p, s.consumers[c].phase.o;
    CanFindNobody(cfg, SetPhase(s, c, C.LookingUp(p, o)), c);
    Overwrites(s, c, C.LookingUp(p, o), C.Committing(p, o, [], []));
  }

  /** One whose tenant has no subscribers can always be committed. */
  lemma UnwantedCanBeCommitted(cfg: Config, s: State, c: nat)
    requires cfg.Valid() && Reachable(cfg, s) && c in s.consumers && s.consumers[c].phase.Decoding?
    requires var ph := s.consumers[c].phase; ph.p < |s.log| && ph.o < |s.log[ph.p]| && s.log[ph.p][ph.o].Good?
    ensures s.consumers[c].phase.p < |s.committed|
    ensures var ph := s.consumers[c].phase;
            Reachable(cfg, Finished(s.(fanned := s.fanned + {FanOut(ph.p, ph.o, [])}), c))
  {
    var found := s.(fanned := s.fanned + {FanOut(s.consumers[c].phase.p, s.consumers[c].phase.o, [])});
    CanBeUnwanted(cfg, s, c);
    CanCommit(cfg, Committable(found, c), c);
    CommittableFinishes(found, c);
  }

  lemma Overwrites(s: State, c: nat, a: C.Phase, b: C.Phase)
    requires c in s.consumers
    ensures SetPhase(SetPhase(s, c, a), c, b) == SetPhase(s, c, b)
  {
    assert SetPhase(SetPhase(s, c, a), c, b).consumers == SetPhase(s, c, b).consumers;
  }

  // Delivering it

  /** Consumer `c` in a phase, having fetched the first record of partition `p`. */
  ghost function InHand(s: State, c: nat, p: nat, phase: C.Phase): State {
    s.(consumers := s.consumers[c := Consumer(map[p := 1], phase)])
  }

  lemma FetchIs(cfg: Config, s: State, c: nat, p: nat)
    requires cfg.Valid() && |s.log| == cfg.parts && p < cfg.parts && s.log[p] != []
    ensures var owning := s.(consumers := s.consumers[c := Consumer(map[p := 0], C.Idle)]);
            Enabled(cfg, owning, Fetch(c, p)) &&
            Do(cfg, owning, Fetch(c, p)) == InHand(s.(begun := s.begun + {(p, 0)}), c, p, C.Decoding(p, 0))
  {
    var owning := s.(consumers := s.consumers[c := Consumer(map[p := 0], C.Idle)]);
    var after := InHand(s.(begun := s.begun + {(p, 0)}), c, p, C.Decoding(p, 0));
    assert map[p := 0][p := 1] == map[p := 1];
    assert owning.consumers[c := Consumer(map[p := 1], C.Decoding(p, 0))] == after.consumers;
  }

  /** A consumer joins, is given the partition and fetches its first record. */
  lemma Fetches(cfg: Config, s: State, c: nat, p: nat)
    requires cfg.Valid() && Reachable(cfg, s) && |s.log| == |s.committed| == cfg.parts
    requires c !in s.consumers && p < cfg.parts && s.committed[p] == 0 && s.log[p] != []
    ensures Reachable(cfg, InHand(s.(begun := s.begun + {(p, 0)}), c, p, C.Decoding(p, 0)))
  {
    var joined := s.(consumers := s.consumers[c := Consumer(map[], C.Idle)]);
    assert Do(cfg, s, Join(c)) == joined;
    OneMore(cfg, s, Join(c));
    var owning := s.(consumers := s.consumers[c := Consumer(map[p := 0], C.Idle)]);
    assert joined.consumers[c := Consumer(map[][p := 0], C.Idle)] == owning.consumers;
    assert Do(cfg, joined, Assign(c, p)) == owning;
    OneMore(cfg, joined, Assign(c, p));
    FetchIs(cfg, s, c, p);
    OneMore(cfg, owning, Fetch(c, p));
  }

  lemma Decodes(cfg: Config, s: State, c: nat, p: nat)
    requires cfg.Valid() && |s.log| == cfg.parts && Reachable(cfg, InHand(s, c, p, C.Decoding(p, 0)))
    requires p < cfg.parts && s.log[p] != [] && s.log[p][0].Good?
    ensures Reachable(cfg, InHand(s, c, p, C.LookingUp(p, 0)))
  {
    var before, after := InHand(s, c, p, C.Decoding(p, 0)), InHand(s, c, p, C.LookingUp(p, 0));
    assert SetPhase(before, c, C.LookingUp(p, 0)) == after;
    assert Do(cfg, before, Decode(c)) == after;
    OneMore(cfg, before, Decode(c));
  }

  lemma FindsOne(cfg: Config, s: State, c: nat, p: nat, sub: int)
    requires cfg.Valid() && |s.log| == cfg.parts && Reachable(cfg, InHand(s, c, p, C.LookingUp(p, 0)))
    ensures Reachable(cfg,
                      InHand(s.(fanned := s.fanned + {FanOut(p, 0, [sub])}), c, p, C.FanOut(p, 0, [sub], [W.Start])))
  {
    var before := InHand(s, c, p, C.LookingUp(p, 0));
    var after := InHand(s.(fanned := s.fanned + {FanOut(p, 0, [sub])}), c, p, C.FanOut(p, 0, [sub], [W.Start]));
    assert seq(1, _ => W.Start) == [W.Start];
    assert before.consumers[c := Consumer(map[p := 1], C.FanOut(p, 0, [sub], [W.Start]))] == after.consumers;
    assert Do(cfg, before, FindSubs(c, [sub])) == after;
    OneMore(cfg, before, FindSubs(c, [sub]));
  }

  /** The only delivery takes a step that is not its history write. */
  lemma Works(cfg: Config, s: State, c: nat, p: nat, sub: int, w: W.State, e: W.Event, w': W.State)
    requires cfg.Valid() && |s.log| == cfg.parts && Reachable(cfg, InHand(s, c, p, C.FanOut(p, 0, [sub], [w])))
    requires !e.Recorded? && W.Step(cfg.max, w, e) == Some(w')
    ensures Reachable(cfg, InHand(s, c, p, C.FanOut(p, 0, [sub], [w'])))
  {
    var before, after := InHand(s, c, p, C.FanOut(p, 0, [sub], [w])), InHand(s, c, p, C.FanOut(p, 0, [sub], [w']));
    assert [w][0 := w'] == [w'];
    assert SetPhase(before, c, C.FanOut(p, 0, [sub], [w'])) == after;
    assert Do(cfg, before, Deliver(c, 0, e)) == after;
    OneMore(cfg, before, Deliver(c, 0, e));
  }

  const OK := W.Recording(1, W.Status(200), W.Delivered, false)
  const DELIVERED := W.Done(1, true, 200, W.NoError)

  function FirstRow(id: Id, sub: int): AttemptRow { AttemptRow(id, sub, 1, W.Delivered, Some(200)) }

  /** The history transaction of the first attempt. */
  lemma Stages(cfg: Config, s: State, c: nat, p: nat, sub: int, id: Id)
    requires cfg.Valid() && |s.log| == cfg.parts && Reachable(cfg, InHand(s, c, p, C.FanOut(p, 0, [sub], [OK])))
    requires p < cfg.parts && s.log[p] != [] && s.log[p][0].Good? && s.log[p][0].rec.id == id
    requires id in s.db.rows && id !in s.db.locks && s.db.attempts == []
    ensures var staged := s.(db := Stage(Lock(s.db, id, DeliverTx(c, 0)), id, FirstRow(id, sub)));
            Reachable(cfg, InHand(staged, c, p, C.FanOut(p, 0, [sub], [OK])))
  {
    var phase := C.FanOut(p, 0, [sub], [OK]);
    var before, locked := InHand(s, c, p, phase), InHand(s.(db := Lock(s.db, id, DeliverTx(c, 0))), c, p, phase);
    assert IsRecording(before, c, 0) && RecordedEvent(before, c, 0) == id;
    assert Do(cfg, before, RecordLock(c, 0)) == locked;
    OneMore(cfg, before, RecordLock(c, 0));
    assert IsRecording(locked, c, 0) && RecordedEvent(locked, c, 0) == id;
    assert RowFor(locked, c, 0, Next([], id, sub)) == FirstRow(id, sub);
    assert DoRecordInsert(locked, c, 0) == InHand(s.(db := Stage(locked.db, id, FirstRow(id, sub))), c, p, phase);
    OneMore(cfg, locked, RecordInsert(c, 0));
  }

  lemma Records(cfg: Config, s: State, c: nat, p: nat, sub: int, id: Id)
    requires cfg.Valid() && |s.log| == cfg.parts && Reachable(cfg, InHand(s, c, p, C.FanOut(p, 0, [sub], [OK])))
    requires p < cfg.parts && s.log[p] != [] && s.log[p][0].Good? && s.log[p][0].rec.id == id
    requires id in s.db.rows && Holds(s.db, id, DeliverTx(c, 0)) && s.db.locks[id].insert == Some(FirstRow(id, sub))
    ensures Reachable(cfg, InHand(ApplyTx(s, id), c, p, C.FanOut(p, 0, [sub], [DELIVERED])))
  {
    RecordEnds(cfg, s, c, p, sub, id);
    OneMore(cfg, InHand(s, c, p, C.FanOut(p, 0, [sub], [OK])), RecordEnd(c, 0, W.RecordOk, false, false));
  }

  lemma RowEndsDelivery(max: nat, p: nat, sub: int)
    ensures C.Step(max, C.FanOut(p, 0, [sub], [OK]), C.Worked(0, W.Recorded(W.RecordOk, false))) ==
            Some(C.FanOut(p, 0, [sub], [DELIVERED]))
  {
    assert W.Step(max, OK, W.Recorded(W.RecordOk, false)) == Some(DELIVERED) && [OK][0 := DELIVERED] == [DELIVERED];
  }

  lemma RecordEnds(cfg: Config, s: State, c: nat, p: nat, sub: int, id: Id)
    requires cfg.Valid() && |s.log| == cfg.parts && p < cfg.parts && s.log[p] != [] && s.log[p][0].Good?
             && s.log[p][0].rec.id == id
    requires id in s.db.rows && Holds(s.db, id, DeliverTx(c, 0)) && s.db.locks[id].insert == Some(FirstRow(id, sub))
    ensures var before, end := InHand(s, c, p, C.FanOut(p, 0, [sub], [OK])), RecordEnd(c, 0, W.RecordOk, false, false);
            && Enabled(cfg, before, end)
            && Do(cfg, before, end) == InHand(ApplyTx(s, id), c, p, C.FanOut(p, 0, [sub], [DELIVERED]))
  {
    var before := InHand(s, c, p, C.FanOut(p, 0, [sub], [OK]));
    var after := InHand(ApplyTx(s, id), c, p, C.FanOut(p, 0, [sub], [DELIVERED]));
    assert && IsRecording(before, c, 0) && RecordedEvent(before, c, 0) == id
           && RowFor(before, c, 0, 1) == FirstRow(id, sub);
    RowEndsDelivery(cfg.max, p, sub);
    assert SetPhase(ApplyTx(before, id), c, C.FanOut(p, 0, [sub], [DELIVERED])) == after;
    assert DoRecordEnd(cfg, before, c, 0, W.RecordOk, false, false) == after;
  }

  lemma Joins(cfg: Config, s: State, c: nat, p: nat, sub: int)
    requires cfg.Valid() && |s.log| == cfg.parts && Reachable(cfg, InHand(s, c, p, C.FanOut(p, 0, [sub], [DELIVERED])))
    ensures Reachable(cfg, InHand(s, c, p, C.Committing(p, 0, [sub], [DELIVERED])))
  {
    var ws := [DELIVERED];
    var before, after := InHand(s, c, p, C.FanOut(p, 0, [sub], ws)), InHand(s, c, p, C.Committing(p, 0, [sub], ws));
    assert C.MissingFrom(ws, 1) == [] && C.FailedFrom(ws, 1) == [] && C.Plan(ws) == [];
    assert C.Step(cfg.max, C.FanOut(p, 0, [sub], ws), C.Joined) == Some(C.Committing(p, 0, [sub], ws));
    assert SetPhase(before, c, C.Committing(p, 0, [sub], ws)) == after;
    assert Do(cfg, before, JoinWorkers(c)) == after;
    OneMore(cfg, before, JoinWorkers(c));
  }

  lemma CommitsOffset(cfg: Config, s: State, c: nat, p: nat, sub: int)
    requires cfg.Valid() && |s.log| == |s.committed| == cfg.parts && p < cfg.parts
    requires Reachable(cfg, InHand(s, c, p, C.Committing(p, 0, [sub], [DELIVERED])))
    ensures Reachable(cfg, InHand(s.(committed := s.committed[p := 1]), c, p, C.Idle))
  {
    var before := InHand(s, c, p, C.Committing(p, 0, [sub], [DELIVERED]));
    var after := InHand(s.(committed := s.committed[p := 1]), c, p, C.Idle);
    assert SetPhase(before, c, C.Idle).(committed := after.committed) == after;
    assert DoCommitOffset(cfg, before, c, true, true) == after;
    OneMore(cfg, before, CommitOffset(c, true, true));
  }

  /** The whole way: an event is accepted, published, delivered to its subscriber, written to history and committed. */
  lemma AcceptedToCommitted(cfg: Config, cand: Record, sub: int)
    requires cfg.Valid() && cand == A.Normalize(cand)
    ensures exists s ::
              && Reachable(cfg, s) && s.requests == map[0 := A.Accepted(cand, cand, false)]
              && s.committed[cfg.Partition(cand.tenant)] == 1 && s.dlq == {}
              && s.db.attempts == [FirstRow(cand.id, sub)]
  {
    NewEventIsPublished(cfg, cand);
    var accepted, p := FirstEvent(cfg, cand), cfg.Partition(cand.tenant);
    Fetches(cfg, accepted, 0, p);
    var begun := accepted.(begun := accepted.begun + {(p, 0)});
    Decodes(cfg, begun, 0, p);
    FindsOne(cfg, begun, 0, p, sub);
    DeliveredToCommitted(cfg, begun.(fanned := begun.fanned + {FanOut(p, 0, [sub])}), p, sub, cand.id);
  }

  lemma DeliveredToCommitted(cfg: Config, s: State, p: nat, sub: int, id: Id)
    requires cfg.Valid() && |s.log| == |s.committed| == cfg.parts
             && Reachable(cfg, InHand(s, 0, p, C.FanOut(p, 0, [sub], [W.Start])))
    requires p < cfg.parts && s.log[p] != [] && s.log[p][0].Good? && s.log[p][0].rec.id == id
    requires id in s.db.rows && id !in s.db.locks && s.db.attempts == []
    ensures exists t ::
              && Reachable(cfg, t) && t.requests == s.requests && t.committed == s.committed[p := 1]
              && t.dlq == s.dlq && t.db.attempts == [FirstRow(id, sub)]
  {
    Works(cfg, s, 0, p, sub, W.Start, W.Begin(true, true), W.AtTop(1, 0));
    Works(cfg, s, 0, p, sub, W.AtTop(1, 0), W.Top(false), W.Awaiting(1));
    Works(cfg, s, 0, p, sub, W.Awaiting(1), W.Replied(W.Status(200), false, false), OK);
    Stages(cfg, s, 0, p, sub, id);
    var staged := s.(db := Stage(Lock(s.db, id, DeliverTx(0, 0)), id, FirstRow(id, sub)));
    Records(cfg, staged, 0, p, sub, id);
    Joins(cfg, ApplyTx(staged, id), 0, p, sub);
    CommitsOffset(cfg, ApplyTx(staged, id), 0, p, sub);
  }

  // What the machine leaves out

  /** Moving a committed offset forward, which no step does, would put an accepted event that was never handled below
  it. */
  lemma ForwardResetSkips(cfg: Config, cand: Record)
    requires cfg.Valid() && cand == A.Normalize(cand)
    ensures exists s ::
              Reachable(cfg, s) && SkippedBy(s.(committed := s.committed[cfg.Partition(cand.tenant) := 1]), cand)
  {
    NewEventIsPublished(cfg, cand);
    var s, p := FirstEvent(cfg, cand), cfg.Partition(cand.tenant);
    var t := s.(committed := s.committed[p := 1]);
    assert LoggedAt(t, p, 0, 0) && t.log[p][0].rec == cand && t.requests[0].Accepted?;
    assert !Settled(t, p, 0);
    assert SkippedBy(t, cand);
  }

  /** An event of an accepted request lies below a committed offset and has not settled. */
  ghost predicate SkippedBy(s: State, rec: Record) {
    exists p: nat, o: nat, r ::
      LoggedAt(s, p, o, r) && s.log[p][o].rec == rec && r in s.requests && s.requests[r].Accepted?
      && p < |s.committed| && o < s.committed[p] && !Settled(s, p, o)
  }
}
