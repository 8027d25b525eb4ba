/** Each step of the relay keeps the invariant. */
module RelaySteps {
  import opened Common
  import opened EventDb
  import opened Relay
  import opened RelayInvariant
  import A = Acceptance
  import C = ConsumerLoop
  import W = Worker

  /** Everything but the consumers' part. */
  ghost predicate Core(cfg: Config, s: State)
    requires cfg.Valid()
  {
    |s.log| == cfg.parts && DbInv(s.db) && AcceptInv(cfg, s)
  }

  ghost predicate SameConsumers(s: State, t: State) {
    && t.committed == s.committed && t.consumers == s.consumers && t.begun == s.begun && t.fanned == s.fanned
  }

  // Frames

  ghost predicate Inherits(s: State, t: State, id: Id) {
    && id in s.db.locks && id in t.db.locks
    && t.db.locks[id] == s.db.locks[id].(sent := t.db.locks[id].sent, insert := t.db.locks[id].insert)
    && (s.db.locks[id].owner.IngestTx? ==>
          var r := s.db.locks[id].owner.r;
          r in s.requests ==>
            r in t.requests
            && (InFlight(t.requests[r], id) ==>
                  InFlight(s.requests[r], id) && (t.requests[r].Committing? ==> s.requests[r].Committing?)))
  }

  lemma LocksFrame(s: State, t: State)
    requires LocksOk(s) && Grows(s, t)
    requires forall id :: id in t.db.locks ==> LockOk(t, id) || Inherits(s, t, id)
    ensures LocksOk(t)
  {
    forall id | id in t.db.locks
      ensures LockOk(t, id)
    {
      if !LockOk(t, id) {
        assert LockOk(s, id);
        var tx := s.db.locks[id];
        if tx.owner.IngestTx? && tx.mark {
          LoggedStable(s, t, id, tx.owner.r);
        }
      }
    }
  }

  lemma PublishedFrame(s: State, t: State)
    requires PublishedOk(s) && Grows(s, t) && t.publisher == s.publisher
    requires forall id :: id in t.db.rows ==>
               if id in s.db.rows then t.db.rows[id].published == s.db.rows[id].published
               else !t.db.rows[id].published
    ensures PublishedOk(t)
  {
    forall id | id in t.publisher
      ensures id in t.db.rows && Logged(t, id, t.publisher[id])
    {
      LoggedStable(s, t, id, s.publisher[id]);
    }
  }

  lemma UnusedKey<T>(m: map<nat, T>) returns (k: nat)
    ensures k !in m
  {
    var keys := m.Keys;
    k := UnusedIn(keys);
  }

  lemma UnusedIn(keys: set<nat>) returns (k: nat)
    ensures forall x :: x in keys ==> x < k
  {
    k := 0;
    var rest := keys;
    while rest != {}
      invariant rest <= keys
      invariant forall x :: x in keys && x !in rest ==> x < k
    {
      var x :| x in rest;
      k := if x < k then k else x + 1;
      rest := rest - {x};
    }
  }

  lemma NoConsumerMoved(s: State, t: State)
    requires DeliverInv(s) && Grows(s, t) && SameConsumers(s, t)
    ensures DeliverInv(t)
  {
    var c := UnusedKey(t.consumers);
    DeliverStep(s, t, c);
  }

  lemma NoRequestMoved(cfg: Config, s: State, t: State)
    requires cfg.Valid() && AcceptInv(cfg, s) && Grows(s, t) && t.requests == s.requests
    requires forall p, o :: 0 <= p < |t.log| && |s.log[p]| <= o < |t.log[p]| ==>
               t.log[p][o].Good? ==> t.log[p][o].source.None?
    requires LocksOk(t) && PublishedOk(t) && RowsOk(cfg, t)
    ensures AcceptInv(cfg, t)
  {
    var r := UnusedKey(t.requests);
    AcceptStep(cfg, s, t, r);
  }

  // Transactions taking effect

  lemma ApplyGrows(s: State, id: Id)
    requires id in s.db.locks && TxInv(s.db, id) && PublishedOk(s)
    ensures Grows(s, ApplyTx(s, id))
  {
  }

  lemma ApplyLocks(s: State, id: Id)
    requires id in s.db.locks && TxInv(s.db, id) && PublishedOk(s) && LocksOk(s)
    ensures LocksOk(ApplyTx(s, id))
  {
    ApplyGrows(s, id);
    var t := ApplyTx(s, id);
    forall other | other in t.db.locks
      ensures Inherits(s, t, other)
    {
      assert LockOk(s, other);
    }
    LocksFrame(s, t);
  }

  lemma ApplyPublished(s: State, id: Id)
    requires id in s.db.locks && TxInv(s.db, id) && PublishedOk(s) && LockOk(s, id)
    ensures PublishedOk(ApplyTx(s, id))
    ensures !s.db.locks[id].mark ==> ApplyTx(s, id).publisher == s.publisher && ApplyTx(s, id).db.rows == s.db.rows
    ensures s.db.locks[id].mark ==> id in ApplyTx(s, id).publisher
                                    && ApplyTx(s, id).publisher[id] == s.db.locks[id].owner.r
  {
    ApplyGrows(s, id);
    var t := ApplyTx(s, id);
    if !s.db.locks[id].mark {
      assert t.db.rows[id] == s.db.rows[id];
    }
    forall e | e in t.publisher
      ensures e in t.db.rows && Logged(t, e, t.publisher[e])
    {
      LoggedStable(s, t, e, t.publisher[e]);
    }
  }

  // Ingest steps: each keeps the core, grows the shared state and moves no consumer

  /** A request moves to a phase with nothing in flight that was not, touching no table. */
  lemma MoveKeeps(cfg: Config, s: State, t: State, r: nat, phase: A.Phase)
    requires cfg.Valid() && Core(cfg, s) && t == SetRequest(s, r, phase)
    requires RequestOk(cfg, t, r, phase)
    requires r in s.requests ==> forall rec :: HasPublished(s.requests[r], rec) ==> HasPublished(phase, rec)
    requires forall id :: InFlight(phase, id) ==>
               r in s.requests && InFlight(s.requests[r], id) && (phase.Committing? ==> s.requests[r].Committing?)
    ensures Core(cfg, t) && Grows(s, t) && SameConsumers(s, t)
  {
    forall id | id in t.db.locks
      ensures Inherits(s, t, id)
    {
    }
    LocksFrame(s, t);
    PublishedFrame(s, t);
    AcceptStep(cfg, s, t, r);
  }

  /** A request moves before it has anything in flight. */
  lemma FirstMoves(cfg: Config, s: State, t: State, r: nat, e: A.Event)
    requires cfg.Valid() && Core(cfg, s) && RequestMoves(s, r, e) && t == MoveRequest(s, r, e)
    requires e.Slot? || e == A.Locked(None)
    ensures Core(cfg, t) && Grows(s, t) && SameConsumers(s, t)
  {
    MoveKeeps(cfg, s, t, r, t.requests[r]);
  }

  lemma InsertKeeps(cfg: Config, s: State, r: nat, ok: bool, applied: bool)
    requires cfg.Valid() && Core(cfg, s) && r in s.requests && s.requests[r].Reserving? && (ok ==> applied)
    ensures var t := DoInsert(cfg, s, r, ok, applied); Core(cfg, t) && Grows(s, t) && SameConsumers(s, t)
  {
    var cand := s.requests[r].cand;
    var db := if applied then Reserve(s.db, cand, cfg.json(cand.data)) else s.db;
    ReserveKeeps(s.db, cand, cfg.json(cand.data));
    ReservedTables(cfg, s, s.(db := db), r, applied);
    var phase := A.Step(s.requests[r], A.Inserted(ok, !Conflicts(s.db.rows, cand))).value;
    var u := s.(db := db);
    MoveKeeps(cfg, u, SetRequest(u, r, phase), r, phase);
  }

  lemma ReservedTables(cfg: Config, s: State, u: State, r: nat, applied: bool)
    requires cfg.Valid() && Core(cfg, s) && r in s.requests && s.requests[r].Reserving?
    requires u ==
             s.(db := if applied then Reserve(s.db, s.requests[r].cand, cfg.json(s.requests[r].cand.data)) else s.db)
    requires DbInv(u.db)
    ensures Core(cfg, u) && Grows(s, u)
  {
    assert u.db.locks == s.db.locks && u.db.attempts == s.db.attempts;
    forall id | id in u.db.locks
      ensures Inherits(s, u, id)
    {
    }
    LocksFrame(s, u);
    PublishedFrame(s, u);
    NoRequestMoved(cfg, s, u);
  }

  lemma LockRowTables(cfg: Config, s: State, r: nat, id: Id)
    requires LocksOk(s) && PublishedOk(s) && r in s.requests && s.requests[r].Locking?
    requires Finds(s, s.requests[r].cand, id) && id !in s.db.locks
    ensures var t := DoLockRow(cfg, s, r, id); Grows(s, t) && LocksOk(t) && PublishedOk(t)
  {
    var t := DoLockRow(cfg, s, r, id);
    assert t.db == Lock(s.db, id, IngestTx(r));
    forall other | other in t.db.locks && other != id
      ensures Inherits(s, t, other)
    {
      assert LockOk(s, other);
    }
    assert LockOk(t, id);
    LocksFrame(s, t);
    PublishedFrame(s, t);
  }

  lemma LockRowRequest(cfg: Config, s: State, r: nat, id: Id)
    requires RowsOk(cfg, s) && r in s.requests && s.requests[r].Locking?
    requires Finds(s, s.requests[r].cand, id) && id !in s.db.locks
    ensures var t := DoLockRow(cfg, s, r, id); RequestOk(cfg, t, r, t.requests[r])
  {
  }

  lemma LockRowKeeps(cfg: Config, s: State, r: nat, id: Id)
    requires cfg.Valid() && Core(cfg, s) && r in s.requests && s.requests[r].Locking?
    requires Finds(s, s.requests[r].cand, id) && id !in s.db.locks
    ensures var t := DoLockRow(cfg, s, r, id); Core(cfg, t) && Grows(s, t) && SameConsumers(s, t)
  {
    LockKeeps(s.db, id, IngestTx(r));
    LockRowTables(cfg, s, r, id);
    LockRowRequest(cfg, s, r, id);
    AcceptStep(cfg, s, DoLockRow(cfg, s, r, id), r);
  }

  lemma MarkTables(s: State, id: Id, r: nat)
    requires LocksOk(s) && PublishedOk(s) && Holds(s.db, id, IngestTx(r)) && Logged(s, id, r)
    requires s.db.locks[id].unpublished
    ensures var u := s.(db := Mark(s.db, id)); Grows(s, u) && LocksOk(u) && PublishedOk(u) && u.db.locks[id].mark
  {
    var u := s.(db := Mark(s.db, id));
    LoggedStable(s, u, id, r);
    assert LockOk(s, id) && LockOk(u, id);
    forall other | other in u.db.locks && other != id
      ensures Inherits(s, u, other)
    {
    }
    LocksFrame(s, u);
    PublishedFrame(s, u);
  }

  lemma MarkRowTables(s: State, r: nat)
    requires LocksOk(s) && PublishedOk(s) && r in s.requests && s.requests[r].Marking?
    requires Holds(s.db, s.requests[r].rec.id, IngestTx(r)) && Logged(s, s.requests[r].rec.id, r)
    ensures var t := DoMarkRow(s, r, true); Grows(s, t) && LocksOk(t) && PublishedOk(t)
  {
    var id := s.requests[r].rec.id;
    var t := DoMarkRow(s, r, true);
    assert LockOk(s, id);
    MarkTables(s, id, r);
    var u := s.(db := Mark(s.db, id));
    forall other | other in t.db.locks
      ensures LockOk(t, other) || Inherits(u, t, other)
    {
      if other == id {
        LoggedStable(u, t, id, r);
        assert LockOk(t, id);
      }
    }
    LocksFrame(u, t);
    PublishedFrame(u, t);
  }

  lemma MarkRowKeeps(cfg: Config, s: State, r: nat, ok: bool)
    requires cfg.Valid() && Core(cfg, s) && r in s.requests && s.requests[r].Marking?
    requires ok ==> Holds(s.db, s.requests[r].rec.id, IngestTx(r))
    ensures var t := DoMarkRow(s, r, ok); Core(cfg, t) && Grows(s, t) && SameConsumers(s, t)
  {
    var t := DoMarkRow(s, r, ok);
    assert RequestOk(cfg, s, r, s.requests[r]);
    if ok {
      RowMarked(cfg, s, r);
    } else {
      MoveKeeps(cfg, s, t, r, t.requests[r]);
    }
  }

  lemma RowMarked(cfg: Config, s: State, r: nat)
    requires cfg.Valid() && Core(cfg, s) && r in s.requests && s.requests[r].Marking?
    requires Holds(s.db, s.requests[r].rec.id, IngestTx(r))
    ensures var t := DoMarkRow(s, r, true); Core(cfg, t) && Grows(s, t) && SameConsumers(s, t)
  {
    var t := DoMarkRow(s, r, true);
    assert RequestOk(cfg, s, r, s.requests[r]);
    assert LockOk(s, s.requests[r].rec.id);
    MarkKeeps(s.db, s.requests[r].rec.id);
    MarkRowTables(s, r);
    RequestOkStable(cfg, s, t, r, s.requests[r]);
    AcceptStep(cfg, s, t, r);
  }

  /** The one step that appends a record of a request's own: it repeats the row the request locked,
  and the request had appended nothing before. */
  lemma PublishKeeps(cfg: Config, s: State, r: nat, ok: bool, appended: bool)
    requires cfg.Valid() && Core(cfg, s) && r in s.requests && s.requests[r].Publishing? && (ok ==> appended)
    ensures var t := DoPublish(cfg, s, r, ok, appended); Core(cfg, t) && Grows(s, t) && SameConsumers(s, t)
  {
    var t := DoPublish(cfg, s, r, ok, appended);
    assert RequestOk(cfg, s, r, s.requests[r]);
    if appended {
      RecordAppended(cfg, s, r, ok);
    } else {
      MoveKeeps(cfg, s, t, r, t.requests[r]);
    }
  }

  lemma NothingLogged(cfg: Config, s: State, r: nat)
    requires cfg.Valid() && LogOk(cfg, s) && r in s.requests && s.requests[r].Publishing?
    ensures forall p: nat, o: nat :: !LoggedAt(s, p, o, r)
  {
    forall p: nat, o: nat
      ensures !LoggedAt(s, p, o, r)
    {
      if p < |s.log| && o < |s.log[p]| {
        assert EntryOk(cfg, s, p, o);
      }
    }
  }

  lemma RecordAppended(cfg: Config, s: State, r: nat, ok: bool)
    requires cfg.Valid() && Core(cfg, s) && r in s.requests && s.requests[r].Publishing?
    requires RequestOk(cfg, s, r, s.requests[r])
    ensures var t := DoPublish(cfg, s, r, ok, true); Core(cfg, t) && Grows(s, t) && SameConsumers(s, t)
  {
    var t := DoPublish(cfg, s, r, ok, true);
    var rec := s.requests[r].rec;
    var p := cfg.Partition(rec.tenant);
    NothingLogged(cfg, s, r);
    assert LoggedAt(t, p, |s.log[p]|, r) && t.log[p][|s.log[p]|].rec == rec;
    assert Logged(t, rec.id, r);
    PublishedLog(cfg, s, t, r, p, rec);
    PublishedTables(cfg, s, t, r, rec);
    RequestOkStable(cfg, s, t, r, s.requests[r]);
    forall q | q in t.requests
      ensures RequestOk(cfg, t, q, t.requests[q])
    {
      if q != r {
        RequestOkStable(cfg, s, t, q, s.requests[q]);
      }
    }
  }

  lemma PublishedTables(cfg: Config, s: State, t: State, r: nat, rec: Record)
    requires cfg.Valid() && Grows(s, t) && LocksOk(s) && PublishedOk(s)
    requires t.db == s.db && t.publisher == s.publisher
    requires r in s.requests && s.requests[r].Publishing? && s.requests[r].rec == rec
    requires r in t.requests && (t.requests[r].Refused? || (t.requests[r].Marking? && t.requests[r].rec == rec))
    requires forall q :: q in s.requests && q != r ==> q in t.requests && t.requests[q] == s.requests[q]
    ensures LocksOk(t) && PublishedOk(t)
  {
    forall id | id in t.db.locks
      ensures Inherits(s, t, id)
    {
      assert LockOk(s, id);
    }
    LocksFrame(s, t);
    PublishedFrame(s, t);
  }

  lemma PublishedLog(cfg: Config, s: State, t: State, r: nat, p: nat, rec: Record)
    requires cfg.Valid() && LogOk(cfg, s) && p < |s.log| && p == cfg.Partition(rec.tenant)
    requires forall q: nat, u: nat :: !LoggedAt(s, q, u, r)
    requires t.log == s.log[p := s.log[p] + [Good(Some(r), rec)]] && t.db == s.db
    requires rec.id in s.db.rows && rec == RecordOf(rec.id, s.db.rows[rec.id])
    requires r in t.requests && HasPublished(t.requests[r], rec)
    requires forall q :: q in s.requests && q != r ==> q in t.requests && t.requests[q] == s.requests[q]
    ensures LogOk(cfg, t)
  {
    var o := |s.log[p]|;
    forall q, u | 0 <= q < |t.log| && 0 <= u < |t.log[q]|
      ensures EntryOk(cfg, t, q, u)
    {
      if !(q == p && u == o) {
        assert t.log[q][u] == s.log[q][u];
        assert EntryOk(cfg, s, q, u);
        assert !LoggedAt(s, q, u, r);
      }
    }
    forall a: nat, b: nat, x | LoggedAt(t, a, b, x) && !(a == p && b == o)
      ensures x != r && LoggedAt(s, a, b, x)
    {
      assert t.log[a][b] == s.log[a][b];
      assert LoggedAt(s, a, b, x);
      assert !LoggedAt(s, a, b, r);
    }
    assert forall x :: LoggedAt(t, p, o, x) ==> x == r;
  }

  lemma CommitSucceeds(cfg: Config, s: State, r: nat, id: Id)
    requires cfg.Valid() && Core(cfg, s) && RequestMoves(s, r, A.Committed(true)) && id == s.requests[r].rec.id
    requires Holds(s.db, id, IngestTx(r)) && id in s.db.rows
    ensures var t := DoCommitRequest(s, r, id, true); Core(cfg, t) && Grows(s, t) && SameConsumers(s, t)
  {
    var phase := A.Step(s.requests[r], A.Committed(true)).value;
    assert DoCommitRequest(s, r, id, true) == SetRequest(ApplyTx(s, id), r, phase);
    assert forall rec :: HasPublished(s.requests[r], rec) ==> HasPublished(phase, rec);
    ApplyTxKeeps(cfg, s, id);
    CommittedRequest(cfg, s, r, id);
    RequestAnswered(cfg, s, ApplyTx(s, id), r, phase);
  }

  /** The answer after a transaction has taken effect. */
  lemma RequestAnswered(cfg: Config, s: State, u: State, r: nat, phase: A.Phase)
    requires cfg.Valid() && Core(cfg, u) && Grows(s, u) && SameConsumers(s, u) && phase.Accepted?
    requires r in u.requests && RequestOk(cfg, SetRequest(u, r, phase), r, phase)
    requires forall rec :: HasPublished(u.requests[r], rec) ==> HasPublished(phase, rec)
    ensures var t := SetRequest(u, r, phase); Core(cfg, t) && Grows(s, t) && SameConsumers(s, t)
  {
    MoveKeeps(cfg, u, SetRequest(u, r, phase), r, phase);
    GrowsTrans(s, u, SetRequest(u, r, phase));
  }

  lemma CommittedRequest(cfg: Config, s: State, r: nat, id: Id)
    requires cfg.Valid() && Core(cfg, s) && RequestMoves(s, r, A.Committed(true)) && id == s.requests[r].rec.id
    requires Holds(s.db, id, IngestTx(r)) && id in s.db.rows && Grows(s, ApplyTx(s, id))
    ensures var phase := A.Step(s.requests[r], A.Committed(true)).value;
            phase.Accepted? && RequestOk(cfg, SetRequest(ApplyTx(s, id), r, phase), r, phase)
  {
    assert RequestOk(cfg, s, r, s.requests[r]);
    assert LockOk(s, id);
    assert TxInv(s.db, id);
    ApplyPublished(s, id);
    RequestOkStable(cfg, s, ApplyTx(s, id), r, s.requests[r]);
  }

  lemma SendTables(cfg: Config, s: State, id: Id)
    requires cfg.Valid() && Core(cfg, s) && id in s.db.locks
    ensures var u := s.(db := Send(s.db, id)); Core(cfg, u) && Grows(s, u)
  {
    SendKeeps(s.db, id);
    var u := s.(db := Send(s.db, id));
    forall other | other in u.db.locks
      ensures Inherits(s, u, other)
    {
    }
    LocksFrame(s, u);
    PublishedFrame(s, u);
    NoRequestMoved(cfg, s, u);
  }

  lemma CommitRequestKeeps(cfg: Config, s: State, r: nat, id: Id, ok: bool)
    requires cfg.Valid() && Core(cfg, s) && RequestMoves(s, r, A.Committed(ok)) && id == s.requests[r].rec.id
    requires ok ==> Holds(s.db, id, IngestTx(r))
    ensures var t := DoCommitRequest(s, r, id, ok); Core(cfg, t) && Grows(s, t) && SameConsumers(s, t)
  {
    if ok {
      assert TxInv(s.db, id);
      CommitSucceeds(cfg, s, r, id);
      return;
    }
    var t := DoCommitRequest(s, r, id, ok);
    var u := s;
    if Holds(s.db, id, IngestTx(r)) {
      SendTables(cfg, s, id);
      u := s.(db := Send(s.db, id));
    }
    MoveKeeps(cfg, u, t, r, t.requests[r]);
  }

  lemma GrowsTrans(s: State, u: State, t: State)
    requires Grows(s, u) && Grows(u, t)
    ensures Grows(s, t)
  {
    forall p | 0 <= p < |s.log|
      ensures s.log[p] <= t.log[p]
    {
      assert u.log[p] <= t.log[p];
    }
  }

  /** The database settles a transaction, whoever its client was. */
  lemma ResolveKeeps(cfg: Config, s: State, id: Id, apply: bool)
    requires cfg.Valid() && Core(cfg, s) && id in s.db.locks
    ensures id in s.db.rows
    ensures var t := DoResolve(s, id, apply); Core(cfg, t) && Grows(s, t) && SameConsumers(s, t)
  {
    assert TxInv(s.db, id);
    if apply {
      ApplyTxKeeps(cfg, s, id);
    } else {
      DropTxKeeps(cfg, s, id);
    }
  }

  lemma ApplyTxKeeps(cfg: Config, s: State, id: Id)
    requires cfg.Valid() && Core(cfg, s) && id in s.db.locks && id in s.db.rows
    ensures var t := ApplyTx(s, id); Core(cfg, t) && Grows(s, t) && SameConsumers(s, t)
  {
    assert TxInv(s.db, id) && LockOk(s, id);
    ApplyKeeps(s.db, id);
    ApplyGrows(s, id);
    ApplyLocks(s, id);
    ApplyPublished(s, id);
    NoRequestMoved(cfg, s, ApplyTx(s, id));
  }

  lemma DropTxKeeps(cfg: Config, s: State, id: Id)
    requires cfg.Valid() && Core(cfg, s) && id in s.db.locks
    ensures var t := s.(db := Drop(s.db, id)); Core(cfg, t) && Grows(s, t) && SameConsumers(s, t)
  {
    var t := s.(db := Drop(s.db, id));
    DropKeeps(s.db, id);
    forall other | other in t.db.locks
      ensures Inherits(s, t, other)
    {
      assert LockOk(s, other);
    }
    LocksFrame(s, t);
    PublishedFrame(s, t);
    NoRequestMoved(cfg, s, t);
  }

  lemma ForeignKeeps(cfg: Config, s: State, p: nat, entry: Entry)
    requires cfg.Valid() && Core(cfg, s) && Enabled(cfg, s, Foreign(p, entry))
    ensures var t := Do(cfg, s, Foreign(p, entry)); Core(cfg, t) && Grows(s, t) && SameConsumers(s, t)
  {
    var t := Do(cfg, s, Foreign(p, entry));
    forall id | id in t.db.locks
      ensures Inherits(s, t, id)
    {
      assert LockOk(s, id);
    }
    LocksFrame(s, t);
    PublishedFrame(s, t);
    NoRequestMoved(cfg, s, t);
  }

  predicate IsIngest(step: Step) {
    step.Request? || step.TakeSlot? || step.Insert? || step.LockRow? || step.LockFails? || step.Publish?
    || step.MarkRow? || step.CommitRequest? || step.CrashRequest? || step.Resolve? || step.Foreign?
  }

  /** The steps of an acceptance that read or write a table or the log. */
  predicate IsTableStep(step: Step) {
    step.Insert? || step.LockRow? || step.Publish? || step.MarkRow? || step.CommitRequest? || step.Resolve?
  }

  lemma TableStepKeeps(cfg: Config, s: State, step: Step)
    requires cfg.Valid() && Core(cfg, s) && Enabled(cfg, s, step) && IsTableStep(step)
    ensures var t := Do(cfg, s, step); Core(cfg, t) && Grows(s, t) && SameConsumers(s, t)
  {
    match step {
      case Insert(r, ok, applied) => InsertKeeps(cfg, s, r, ok, applied);
      case LockRow(r, id) => LockRowKeeps(cfg, s, r, id);
      case Publish(r, ok, appended) => PublishKeeps(cfg, s, r, ok, appended);
      case MarkRow(r, ok) => MarkRowKeeps(cfg, s, r, ok);
      case CommitRequest(r, id, ok) => CommitRequestKeeps(cfg, s, r, id, ok);
      case Resolve(id, apply) => ResolveKeeps(cfg, s, id, apply);
      case _ =>
    }
  }

  lemma IngestKeepsCore(cfg: Config, s: State, step: Step)
    requires cfg.Valid() && Core(cfg, s) && Enabled(cfg, s, step) && IsIngest(step)
    ensures var t := Do(cfg, s, step); Core(cfg, t) && Grows(s, t) && SameConsumers(s, t)
  {
    if IsTableStep(step) {
      TableStepKeeps(cfg, s, step);
      return;
    }
    var t := Do(cfg, s, step);
    match step {
      case Request(r, cand) => MoveKeeps(cfg, s, t, r, A.Waiting(cand));
      case TakeSlot(r, ok) => FirstMoves(cfg, s, t, r, A.Slot(ok));
      case LockFails(r) => FirstMoves(cfg, s, t, r, A.Locked(None));
      case CrashRequest(r) => MoveKeeps(cfg, s, t, r, A.Refused(s.requests[r].cand, A.Unavailable));
      case Foreign(p, entry) => ForeignKeeps(cfg, s, p, entry);
      case _ =>
    }
  }

  // Consumer steps

  ghost predicate SameTables(s: State, t: State) {
    t.db == s.db && t.log == s.log && t.requests == s.requests && t.publisher == s.publisher
  }

  lemma SameTablesKeepCore(cfg: Config, s: State, t: State)
    requires cfg.Valid() && Core(cfg, s) && Grows(s, t) && SameTables(s, t)
    ensures Core(cfg, t)
  {
    forall id | id in t.db.locks
      ensures Inherits(s, t, id)
    {
    }
    LocksFrame(s, t);
    PublishedFrame(s, t);
    NoRequestMoved(cfg, s, t);
  }

  /** A consumer changes phase with the record in hand kept, settled, or given up by stopping. */
  lemma PhaseMoves(s: State, t: State, c: nat, ph: C.Phase)
    requires DeliverInv(s) && Grows(s, t) && c in s.consumers && !s.consumers[c].phase.Stopped?
    requires t.consumers == s.consumers[c := s.consumers[c].(phase := ph)]
    requires t.committed == s.committed && t.begun == s.begun
    requires forall f :: f in t.fanned && f !in s.fanned ==> (f.p, f.o) in t.begun
    requires PhaseOk(t, ph)
    requires var was := s.consumers[c].phase;
             ph.Stopped? || !was.Working()
             || (ph.Working() && ph.p == was.p && ph.o == was.o)
             || (ph.Idle? && Settled(t, was.p, was.o))
    ensures DeliverInv(t)
  {
    MovedConsumerOk(s, t, c, ph);
    DeliverStep(s, t, c);
  }

  lemma MovedConsumerOk(s: State, t: State, c: nat, ph: C.Phase)
    requires c in s.consumers && ConsumerOk(s, s.consumers[c]) && !s.consumers[c].phase.Stopped?
    requires Grows(s, t) && PhaseOk(t, ph)
    requires var was := s.consumers[c].phase;
             ph.Stopped? || !was.Working()
             || (ph.Working() && ph.p == was.p && ph.o == was.o)
             || (ph.Idle? && Settled(t, was.p, was.o))
    ensures ConsumerOk(t, s.consumers[c].(phase := ph))
  {
    var before, after := s.consumers[c], s.consumers[c].(phase := ph);
    if !ph.Stopped? {
      forall p | p in after.pos
        ensures PosOk(t, after, p)
      {
        assert PosOk(s, before, p);
        forall o | 0 <= o < before.pos[p] && Settled(s, p, o)
          ensures Settled(t, p, o)
        {
          SettledStable(s, t, p, o);
        }
      }
    }
  }

  lemma DecodeKeeps(cfg: Config, s: State, c: nat)
    requires cfg.Valid() && DeliverInv(s) && |s.log| == cfg.parts && Enabled(cfg, s, Decode(c))
    ensures DeliverInv(Do(cfg, s, Decode(c)))
  {
    var t := Do(cfg, s, Decode(c));
    assert ConsumerOk(s, s.consumers[c]);
    PhaseOkStable(s, t, s.consumers[c].phase);
    PhaseMoves(s, t, c, t.consumers[c].phase);
  }

  lemma ParkKeeps(cfg: Config, s: State, c: nat, ok: bool, stored: bool)
    requires cfg.Valid() && DeliverInv(s) && |s.log| == cfg.parts && Enabled(cfg, s, Park(c, ok, stored))
    ensures DeliverInv(DoPark(cfg, s, c, ok, stored))
  {
    var t := DoPark(cfg, s, c, ok, stored);
    assert ConsumerOk(s, s.consumers[c]);
    PhaseOkStable(s, t, s.consumers[c].phase);
    PhaseMoves(s, t, c, t.consumers[c].phase);
  }

  lemma FindSubsKeeps(cfg: Config, s: State, c: nat, subs: seq<int>)
    requires cfg.Valid() && DeliverInv(s) && |s.log| == cfg.parts && Enabled(cfg, s, FindSubs(c, subs))
    ensures DeliverInv(Do(cfg, s, FindSubs(c, subs)))
  {
    var t := Do(cfg, s, FindSubs(c, subs));
    var was := s.consumers[c].phase;
    assert ConsumerOk(s, s.consumers[c]);
    PhaseOkStable(s, t, was);
    if subs == [] {
      assert FanOutSettled(t, t.log[was.p][was.o].rec, Relay.FanOut(was.p, was.o, []));
    }
    PhaseMoves(s, t, c, t.consumers[c].phase);
  }

  lemma DeliverKeeps(cfg: Config, s: State, c: nat, i: nat, e: W.Event)
    requires cfg.Valid() && DeliverInv(s) && |s.log| == cfg.parts && Enabled(cfg, s, Deliver(c, i, e))
    ensures DeliverInv(Do(cfg, s, Deliver(c, i, e)))
  {
    var t := Do(cfg, s, Deliver(c, i, e));
    var was := s.consumers[c].phase;
    assert ConsumerOk(s, s.consumers[c]);
    PhaseOkStable(s, t, was);
    var w := W.Step(cfg.max, was.workers[i], e).value;
    if w.Done? && w.delivered && w.err.NoError? {
      W.DeliveredIsDurable(cfg.max, was.workers[i], e, w);
    }
    PhaseMoves(s, t, c, t.consumers[c].phase);
  }

  lemma JoinWorkersKeeps(cfg: Config, s: State, c: nat)
    requires cfg.Valid() && DeliverInv(s) && |s.log| == cfg.parts && Enabled(cfg, s, JoinWorkers(c))
    ensures DeliverInv(Do(cfg, s, JoinWorkers(c)))
  {
    var t := Do(cfg, s, JoinWorkers(c));
    var was := s.consumers[c].phase;
    assert ConsumerOk(s, s.consumers[c]);
    PhaseOkStable(s, t, was);
    if !C.MustRetry(was.workers) {
      JoinedPlan(t, was.p, was.o, was.subs, was.workers);
    }
    PhaseMoves(s, t, c, t.consumers[c].phase);
  }

  lemma JoinedPlan(t: State, p: nat, o: nat, subs: seq<int>, workers: seq<W.State>)
    requires PhaseOk(t, C.FanOut(p, o, subs, workers)) && C.AllDone(workers) && !C.MustRetry(workers)
    ensures PhaseOk(t, C.Settle(p, o, subs, workers, C.Plan(workers)))
  {
    var rec := t.log[p][o].rec;
    forall i | 0 <= i < |subs| && i !in C.Plan(workers)
      ensures SubSettled(t, rec, subs[i])
    {
      C.PlanIsExact(workers, i);
      assert WorkerOk(t, rec, subs[i], workers[i]);
    }
    forall k | k in C.Plan(workers)
      ensures k < |subs|
    {
      C.PlanInRange(workers, k);
    }
    SettleOk(t, p, o, subs, workers, C.Plan(workers));
  }

  lemma SettleOk(t: State, p: nat, o: nat, subs: seq<int>, workers: seq<W.State>, plan: seq<nat>)
    requires p < |t.log| && o < |t.log[p]| && (p, o) in t.begun && SettledBelow(t, p, o)
    requires t.log[p][o].Good? && Relay.FanOut(p, o, subs) in t.fanned && PlanOk(t, t.log[p][o].rec, subs, plan)
    ensures PhaseOk(t, C.Settle(p, o, subs, workers, plan))
  {
    if plan == [] {
      assert FanOutSettled(t, t.log[p][o].rec, Relay.FanOut(p, o, subs));
    }
  }

  lemma WriteDeadLetterKeeps(cfg: Config, s: State, c: nat, ok: bool, stored: bool)
    requires cfg.Valid() && DeliverInv(s) && |s.log| == cfg.parts && Enabled(cfg, s, WriteDeadLetter(c, ok, stored))
    ensures DeliverInv(DoWriteDeadLetter(cfg, s, c, ok, stored))
  {
    var t := DoWriteDeadLetter(cfg, s, c, ok, stored);
    var was := s.consumers[c].phase;
    assert ConsumerOk(s, s.consumers[c]);
    PhaseOkStable(s, t, was);
    if ok {
      LetterWritten(t, was);
    }
    PhaseMoves(s, t, c, t.consumers[c].phase);
  }

  /** With its letter stored, the first planned subscriber has settled. */
  lemma LetterWritten(t: State, was: C.Phase)
    requires PhaseOk(t, was) && was.Settling? && was.plan != [] && was.plan[0] < |was.subs|
    requires Undelivered(t.log[was.p][was.o].rec, was.subs[was.plan[0]]) in t.dlq
    ensures PhaseOk(t, C.Settle(was.p, was.o, was.subs, was.workers, was.plan[1..]))
  {
    var rest := was.plan[1..];
    assert was.plan == [was.plan[0]] + rest;
    forall i | 0 <= i < |was.subs| && i !in rest
      ensures SubSettled(t, t.log[was.p][was.o].rec, was.subs[i])
    {
      assert i == was.plan[0] || i !in was.plan;
    }
    forall k | k in rest
      ensures k < |was.subs|
    {
      assert k in was.plan;
    }
    SettleOk(t, was.p, was.o, was.subs, was.workers, rest);
  }

  lemma CommitOffsetKeeps(cfg: Config, s: State, c: nat, ok: bool, applied: bool)
    requires cfg.Valid() && DeliverInv(s) && |s.log| == cfg.parts && Enabled(cfg, s, CommitOffset(c, ok, applied))
    ensures DeliverInv(DoCommitOffset(cfg, s, c, ok, applied))
  {
    var was, phase := s.consumers[c].phase, if ok then C.Idle else C.Stopped;
    var committed := if applied then s.committed[was.p := was.o + 1] else s.committed;
    assert DoCommitOffset(cfg, s, c, ok, applied) == SetPhase(s, c, phase).(committed := committed);
    OffsetAnswered(s, c, was.p, was.o, phase, committed);
  }

  lemma OffsetAnswered(s: State, c: nat, p: nat, o: nat, phase: C.Phase, committed: seq<nat>)
    requires DeliverInv(s) && c in s.consumers && (phase.Idle? || phase.Stopped?) && p < |s.committed|
    requires s.consumers[c].phase.Committing? && s.consumers[c].phase.p == p && s.consumers[c].phase.o == o
    requires committed == s.committed || committed == s.committed[p := o + 1]
    ensures DeliverInv(SetPhase(s, c, phase).(committed := committed))
  {
    var t := SetPhase(s, c, phase).(committed := committed);
    assert ConsumerOk(s, s.consumers[c]);
    PhaseOkStable(s, t, s.consumers[c].phase);
    MovedConsumerOk(s, t, c, phase);
    OffsetCommits(s, t, c, p, o);
  }

  lemma OffsetCommits(s: State, t: State, c: nat, p: nat, o: nat)
    requires DeliverInv(s) && Grows(s, t) && Settled(t, p, o) && SettledBelow(t, p, o)
    requires c in s.consumers && c in t.consumers && t.consumers == s.consumers[c := t.consumers[c]]
             && ConsumerOk(t, t.consumers[c])
    requires t.begun == s.begun && t.fanned == s.fanned && p < |s.committed|
    requires t.committed == s.committed || t.committed == s.committed[p := o + 1]
    ensures DeliverInv(t)
  {
    assert SettledBelow(t, p, o + 1);
    DeliverStep(s, t, c);
  }

  lemma FetchKeeps(cfg: Config, s: State, c: nat, p: nat)
    requires cfg.Valid() && DeliverInv(s) && |s.log| == cfg.parts && Enabled(cfg, s, Fetch(c, p))
    ensures DeliverInv(Do(cfg, s, Fetch(c, p)))
  {
    var t := Do(cfg, s, Fetch(c, p));
    var before, after := s.consumers[c], t.consumers[c];
    assert ConsumerOk(s, before) && PosOk(s, before, p);
    assert SettledBelow(s, p, before.pos[p]);
    SettledBelowStable(s, t, p, before.pos[p]);
    forall q | q in after.pos
      ensures PosOk(t, after, q)
    {
      assert PosOk(s, before, q);
      forall o | 0 <= o < before.pos[q]
        ensures Settled(t, q, o)
      {
        SettledStable(s, t, q, o);
      }
    }
    DeliverStep(s, t, c);
  }

  lemma AssignKeeps(cfg: Config, s: State, c: nat, p: nat)
    requires cfg.Valid() && DeliverInv(s) && |s.log| == cfg.parts && Enabled(cfg, s, Assign(c, p))
    ensures DeliverInv(Do(cfg, s, Assign(c, p)))
  {
    var t := Do(cfg, s, Assign(c, p));
    var before, after := s.consumers[c], t.consumers[c];
    assert ConsumerOk(s, before);
    if !after.phase.Stopped? {
      PhaseOkStable(s, t, after.phase);
      SettledBelowStable(s, t, p, s.committed[p]);
      forall q | q in after.pos
        ensures PosOk(t, after, q)
      {
        if q != p {
          assert PosOk(s, before, q);
          forall o | 0 <= o < before.pos[q] && Settled(s, q, o)
            ensures Settled(t, q, o)
          {
            SettledStable(s, t, q, o);
          }
        }
      }
    }
    DeliverStep(s, t, c);
  }

  lemma RevokeKeeps(cfg: Config, s: State, c: nat, p: nat)
    requires cfg.Valid() && DeliverInv(s) && |s.log| == cfg.parts && Enabled(cfg, s, Revoke(c, p))
    ensures DeliverInv(Do(cfg, s, Revoke(c, p)))
  {
    var t := Do(cfg, s, Revoke(c, p));
    ConsumerOkStable(s, t, s.consumers[c]);
    forall q | q in t.consumers[c].pos
      ensures t.consumers[c].phase.Stopped? || PosOk(t, t.consumers[c], q)
    {
      assert t.consumers[c].phase.Stopped? || PosOk(t, s.consumers[c], q);
    }
    DeliverStep(s, t, c);
  }

  // The history write's own transaction

  lemma RecordLockKeeps(cfg: Config, s: State, c: nat, i: nat)
    requires cfg.Valid() && Core(cfg, s) && Enabled(cfg, s, RecordLock(c, i))
    ensures var t := Do(cfg, s, RecordLock(c, i)); Core(cfg, t) && Grows(s, t) && SameConsumers(s, t)
  {
    WorkerLocks(cfg, s, RecordedEvent(s, c, i), DeliverTx(c, i));
  }

  lemma WorkerLocks(cfg: Config, s: State, id: Id, owner: Owner)
    requires cfg.Valid() && Core(cfg, s) && id in s.db.rows && id !in s.db.locks && owner.DeliverTx?
    ensures var t := s.(db := Lock(s.db, id, owner)); Core(cfg, t) && Grows(s, t)
  {
    LockKeeps(s.db, id, owner);
    WorkerTables(cfg, s, s.(db := Lock(s.db, id, owner)), id);
  }

  /** A delivery's transaction changes nothing the acceptance side reads. */
  lemma WorkerTables(cfg: Config, s: State, t: State, id: Id)
    requires cfg.Valid() && Core(cfg, s) && t == s.(db := t.db) && DbInv(t.db) && Grows(s, t)
    requires t.db.rows == s.db.rows && id in t.db.locks && !t.db.locks[id].owner.IngestTx?
    requires forall other :: other in t.db.locks && other != id ==>
               other in s.db.locks && t.db.locks[other] == s.db.locks[other]
    ensures Core(cfg, t)
  {
    forall other | other in t.db.locks && other != id
      ensures Inherits(s, t, other)
    {
    }
    LocksFrame(s, t);
    PublishedFrame(s, t);
    NoRequestMoved(cfg, s, t);
  }

  lemma RecordInsertKeeps(cfg: Config, s: State, c: nat, i: nat)
    requires cfg.Valid() && Core(cfg, s) && Enabled(cfg, s, RecordInsert(c, i))
    ensures var t := DoRecordInsert(s, c, i); Core(cfg, t) && Grows(s, t) && SameConsumers(s, t)
  {
    var id := RecordedEvent(s, c, i);
    var ph := s.consumers[c].phase;
    WorkerStages(cfg, s, id, RowFor(s, c, i, Next(s.db.attempts, id, ph.subs[i])));
  }

  lemma WorkerStages(cfg: Config, s: State, id: Id, row: AttemptRow)
    requires cfg.Valid() && Core(cfg, s) && id in s.db.locks && s.db.locks[id].owner.DeliverTx?
    requires row.event == id && row.number == Next(s.db.attempts, id, row.sub)
    ensures var t := s.(db := Stage(s.db, id, row)); Core(cfg, t) && Grows(s, t)
  {
    StageKeeps(s.db, id, row);
    WorkerTables(cfg, s, s.(db := Stage(s.db, id, row)), id);
  }

  /** What the write did to the tables, before the delivery sees the answer. */
  ghost function WriteEnds(s: State, id: Id, result: W.RecordResult, sent: bool): State
    requires result.RecordOk? ==> id in s.db.locks && id in s.db.rows
    requires sent ==> id in s.db.locks
  {
    if result.RecordOk? then ApplyTx(s, id)
    else if sent then s.(db := Send(s.db, id))
    else s
  }

  lemma WriteEndsKeeps(cfg: Config, s: State, id: Id, result: W.RecordResult, sent: bool)
    requires cfg.Valid() && Core(cfg, s)
    requires result.RecordOk? ==> id in s.db.locks && id in s.db.rows
    requires sent ==> id in s.db.locks
    ensures var u := WriteEnds(s, id, result, sent); Core(cfg, u) && Grows(s, u) && SameConsumers(s, u)
    ensures result.RecordOk? && s.db.locks[id].insert.Some? ==>
              WriteEnds(s, id, result, sent).db.attempts == s.db.attempts + [s.db.locks[id].insert.value]
  {
    if result.RecordOk? {
      ResolveKeeps(cfg, s, id, true);
    } else if sent {
      SendTables(cfg, s, id);
    }
  }

  lemma RecordEndKeeps(cfg: Config, s: State, c: nat, i: nat, result: W.RecordResult, expired: bool, sent: bool)
    requires cfg.Valid() && Core(cfg, s) && DeliverInv(s) && Enabled(cfg, s, RecordEnd(c, i, result, expired, sent))
    ensures var t := Do(cfg, s, RecordEnd(c, i, result, expired, sent));
            Core(cfg, t) && Grows(s, t) && DeliverInv(t)
  {
    var t := Do(cfg, s, RecordEnd(c, i, result, expired, sent));
    var id := RecordedEvent(s, c, i);
    var u := WriteEnds(s, id, result, sent);
    assert t == SetPhase(u, c, C.Step(cfg.max, s.consumers[c].phase, C.Worked(i, W.Recorded(result, expired))).value);
    WriteEndsKeeps(cfg, s, id, result, sent);
    if result.RecordOk? {
      assert u.db.attempts == s.db.attempts + [RowFor(s, c, i, s.db.locks[id].insert.value.number)];
    }
    AnswerKeeps(cfg, s, u, t, c, i, result, expired);
    GrowsTrans(s, u, t);
  }

  lemma AnswerKeeps(cfg: Config, s: State, u: State, t: State, c: nat, i: nat, result: W.RecordResult, expired: bool)
    requires cfg.Valid() && Core(cfg, u) && DeliverInv(s) && Grows(s, u) && SameConsumers(s, u)
    requires IsRecording(s, c, i) && ConsumerMoves(cfg, s, c, C.Worked(i, W.Recorded(result, expired)))
    requires t == SetPhase(u, c, C.Step(cfg.max, s.consumers[c].phase, C.Worked(i, W.Recorded(result, expired))).value)
    requires result.RecordOk? ==>
               exists number :: u.db.attempts == s.db.attempts + [RowFor(s, c, i, number)]
    ensures Core(cfg, t) && Grows(u, t) && DeliverInv(t)
  {
    NoConsumerMoved(s, u);
    SameTablesKeepCore(cfg, u, t);
    var ph := s.consumers[c].phase;
    assert u.log[ph.p][ph.o] == s.log[ph.p][ph.o];
    WorkerEnds(cfg, s, u, c, i, result, expired);
    PhaseOkStable(u, t, t.consumers[c].phase);
    PhaseMoves(u, t, c, t.consumers[c].phase);
  }

  lemma WorkerEnds(cfg: Config, s: State, u: State, c: nat, i: nat, result: W.RecordResult, expired: bool)
    requires IsRecording(s, c, i) && IsRecording(u, c, i) && SameConsumers(s, u) && Grows(s, u)
    requires DeliverInv(u) && ConsumerMoves(cfg, u, c, C.Worked(i, W.Recorded(result, expired)))
    requires result.RecordOk? ==>
               exists number :: u.db.attempts == s.db.attempts + [RowFor(s, c, i, number)]
    ensures PhaseOk(u, C.Step(cfg.max, u.consumers[c].phase, C.Worked(i, W.Recorded(result, expired))).value)
  {
    var was := u.consumers[c].phase;
    var rec := u.log[was.p][was.o].rec;
    assert ConsumerOk(u, u.consumers[c]);
    assert WorkerOk(u, rec, was.subs[i], was.workers[i]);
    var w := W.Step(cfg.max, was.workers[i], W.Recorded(result, expired)).value;
    if w.Done? && w.delivered && w.err.NoError? {
      W.DeliveredIsDurable(cfg.max, was.workers[i], W.Recorded(result, expired), w);
      var number :| u.db.attempts == s.db.attempts + [RowFor(s, c, i, number)];
      assert u.log[was.p][was.o] == s.log[was.p][was.o];
      assert DeliveredRow(u.db.attempts[|s.db.attempts|], rec.id, was.subs[i]);
    }
    forall k | 0 <= k < |was.workers|
      ensures WorkerOk(u, rec, was.subs[k], was.workers[i := w][k])
    {
      assert WorkerOk(u, rec, was.subs[k], was.workers[k]);
    }
  }

  predicate IsRecord(step: Step) {
    step.RecordLock? || step.RecordInsert? || step.RecordEnd?
  }

  lemma RecordKeeps(cfg: Config, s: State, step: Step)
    requires cfg.Valid() && Core(cfg, s) && DeliverInv(s) && Enabled(cfg, s, step) && IsRecord(step)
    ensures var t := Do(cfg, s, step); Core(cfg, t) && Grows(s, t) && DeliverInv(t)
  {
    var t := Do(cfg, s, step);
    match step {
      case RecordLock(c, i) =>
        RecordLockKeeps(cfg, s, c, i);
        NoConsumerMoved(s, t);
      case RecordInsert(c, i) =>
        RecordInsertKeeps(cfg, s, c, i);
        NoConsumerMoved(s, t);
      case RecordEnd(c, i, result, expired, sent) =>
        RecordEndKeeps(cfg, s, c, i, result, expired, sent);
      case _ =>
    }
  }

  lemma RewindKeeps(cfg: Config, s: State, p: nat, o: nat)
    requires cfg.Valid() && DeliverInv(s) && |s.log| == cfg.parts && Enabled(cfg, s, Rewind(p, o))
    ensures DeliverInv(Do(cfg, s, Rewind(p, o)))
  {
    var t := Do(cfg, s, Rewind(p, o));
    assert SettledBelow(s, p, s.committed[p]);
    forall k | 0 <= k < o
      ensures Settled(t, p, k)
    {
      SettledStable(s, t, p, k);
    }
    var c := UnusedKey(t.consumers);
    DeliverStep(s, t, c);
  }

  lemma JoinKeeps(cfg: Config, s: State, c: nat)
    requires cfg.Valid() && DeliverInv(s) && |s.log| == cfg.parts && c !in s.consumers
    ensures DeliverInv(Do(cfg, s, Join(c)))
  {
    DeliverStep(s, Do(cfg, s, Join(c)), c);
  }

  lemma CrashConsumerKeeps(cfg: Config, s: State, c: nat)
    requires cfg.Valid() && DeliverInv(s) && |s.log| == cfg.parts && c in s.consumers
    ensures DeliverInv(Do(cfg, s, CrashConsumer(c)))
  {
    DeliverStep(s, Do(cfg, s, CrashConsumer(c)), c);
  }

  lemma StopKeeps(s: State, c: nat)
    requires DeliverInv(s) && c in s.consumers && !s.consumers[c].phase.Stopped?
    ensures DeliverInv(SetPhase(s, c, C.Stopped))
  {
    PhaseMoves(s, SetPhase(s, c, C.Stopped), c, C.Stopped);
  }

  /** The steps between records: a partition or a process comes or goes, or a record is taken up. */
  predicate IsBetween(step: Step) {
    step.Rewind? || step.Join? || step.Assign? || step.Revoke? || step.CrashConsumer? || step.Fetch? || step.Quit?
    || step.SubsFail?
  }

  lemma BetweenKeepsDelivery(cfg: Config, s: State, step: Step)
    requires cfg.Valid() && DeliverInv(s) && |s.log| == cfg.parts && Enabled(cfg, s, step) && IsBetween(step)
    ensures DeliverInv(Do(cfg, s, step))
  {
    match step {
      case Rewind(p, o) => RewindKeeps(cfg, s, p, o);
      case Join(c) => JoinKeeps(cfg, s, c);
      case Assign(c, p) => AssignKeeps(cfg, s, c, p);
      case Revoke(c, p) => RevokeKeeps(cfg, s, c, p);
      case CrashConsumer(c) => CrashConsumerKeeps(cfg, s, c);
      case Fetch(c, p) => FetchKeeps(cfg, s, c, p);
      case Quit(c) => StopKeeps(s, c);
      case SubsFail(c) => StopKeeps(s, c);
      case _ =>
    }
  }

  lemma ConsumerKeepsDelivery(cfg: Config, s: State, step: Step)
    requires cfg.Valid() && DeliverInv(s) && |s.log| == cfg.parts && Enabled(cfg, s, step)
    requires !IsIngest(step) && !IsRecord(step)
    ensures DeliverInv(Do(cfg, s, step))
  {
    if IsBetween(step) {
      BetweenKeepsDelivery(cfg, s, step);
      return;
    }
    match step {
      case Decode(c) => DecodeKeeps(cfg, s, c);
      case Park(c, ok, stored) => ParkKeeps(cfg, s, c, ok, stored);
      case FindSubs(c, subs) => FindSubsKeeps(cfg, s, c, subs);
      case Deliver(c, i, e) => DeliverKeeps(cfg, s, c, i, e);
      case JoinWorkers(c) => JoinWorkersKeeps(cfg, s, c);
      case WriteDeadLetter(c, ok, stored) => WriteDeadLetterKeeps(cfg, s, c, ok, stored);
      case CommitOffset(c, ok, applied) => CommitOffsetKeeps(cfg, s, c, ok, applied);
      case _ =>
    }
  }

  lemma ConsumerKeepsTables(cfg: Config, s: State, step: Step)
    requires cfg.Valid() && |s.log| == cfg.parts && Enabled(cfg, s, step) && !IsIngest(step) && !IsRecord(step)
    ensures SameTables(s, Do(cfg, s, step)) && Grows(s, Do(cfg, s, step))
  {
  }

  /** Every step keeps the invariant and takes nothing durable away. */
  lemma StepKeeps(cfg: Config, s: State, step: Step)
    requires cfg.Valid() && Inv(cfg, s) && Enabled(cfg, s, step)
    ensures Inv(cfg, Do(cfg, s, step)) && Grows(s, Do(cfg, s, step))
  {
    if IsIngest(step) {
      IngestKeepsCore(cfg, s, step);
      NoConsumerMoved(s, Do(cfg, s, step));
    } else if IsRecord(step) {
      RecordKeeps(cfg, s, step);
    } else {
      ConsumerKeepsTables(cfg, s, step);
      SameTablesKeepCore(cfg, s, Do(cfg, s, step));
      ConsumerKeepsDelivery(cfg, s, step);
    }
  }
}
