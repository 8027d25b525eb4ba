/** What every step of the relay keeps. */
module RelayInvariant {
  import opened Common
  import opened EventDb
  import opened Relay
  import A = Acceptance
  import C = ConsumerLoop
  import W = Worker

  // Monotone facts

  ghost predicate HasDelivered(attempts: seq<AttemptRow>, id: Id, sub: int) {
    exists k :: 0 <= k < |attempts| && DeliveredRow(attempts[k], id, sub)
  }

  ghost predicate DeliveredRow(row: AttemptRow, id: Id, sub: int) {
    row.event == id && row.sub == sub && row.outcome.Delivered? && row.status.Some? && 200 <= row.status.value < 300
  }

  /** A subscriber is done with a record: a 2xx in a durable row, or a dead letter naming it. */
  ghost predicate SubSettled(s: State, rec: Record, sub: int) {
    HasDelivered(s.db.attempts, rec.id, sub) || Undelivered(rec, sub) in s.dlq
  }

  ghost predicate FanOutSettled(s: State, rec: Record, f: FanOut) {
    f in s.fanned && forall i :: 0 <= i < |f.subs| ==> SubSettled(s, rec, f.subs[i])
  }

  /** Nothing of the record at (p, o) can be lost any more: it was parked as undecodable, or some
  fan-out of it, possibly to nobody, has settled every one of its subscribers. */
  ghost predicate Settled(s: State, p: nat, o: nat) {
    && p < |s.log| && o < |s.log[p]|
    && match s.log[p][o]
       case Bad => Poison(p, o) in s.dlq
       case Good(_, rec) => exists subs :: FanOutSettled(s, rec, FanOut(p, o, subs))
  }

  ghost predicate SameRow(a: Row, b: Row) {
    b == a.(published := b.published) && (a.published ==> b.published)
  }

  /** How the shared state may change: everything durable stays. */
  ghost predicate Grows(s: State, t: State) {
    && |s.log| == |t.log| && (forall p :: 0 <= p < |s.log| ==> s.log[p] <= t.log[p])
    && s.db.attempts <= t.db.attempts
    && s.dlq <= t.dlq && s.fanned <= t.fanned && s.begun <= t.begun
    && (forall id :: id in s.db.rows ==> id in t.db.rows && SameRow(s.db.rows[id], t.db.rows[id]))
    && (forall id :: id in s.publisher ==> id in t.publisher && t.publisher[id] == s.publisher[id])
  }

  lemma SubSettledStable(s: State, t: State, rec: Record, sub: int)
    requires Grows(s, t) && SubSettled(s, rec, sub)
    ensures SubSettled(t, rec, sub)
  {
    if HasDelivered(s.db.attempts, rec.id, sub) {
      var k :| 0 <= k < |s.db.attempts| && DeliveredRow(s.db.attempts[k], rec.id, sub);
      assert t.db.attempts[k] == s.db.attempts[k];
    }
  }

  lemma SettledStable(s: State, t: State, p: nat, o: nat)
    requires Grows(s, t) && Settled(s, p, o)
    ensures Settled(t, p, o)
  {
    assert t.log[p][o] == s.log[p][o];
    if s.log[p][o].Good? {
      var rec := s.log[p][o].rec;
      var subs :| FanOutSettled(s, rec, FanOut(p, o, subs));
      forall i | 0 <= i < |subs|
        ensures SubSettled(t, rec, subs[i])
      {
        SubSettledStable(s, t, rec, subs[i]);
      }
      assert FanOutSettled(t, rec, FanOut(p, o, subs));
    }
  }

  // Delivery

  ghost predicate SettledBelow(s: State, p: nat, o: nat) {
    forall k :: 0 <= k < o ==> Settled(s, p, k)
  }

  lemma SettledBelowStable(s: State, t: State, p: nat, o: nat)
    requires Grows(s, t) && SettledBelow(s, p, o)
    ensures SettledBelow(t, p, o)
  {
    forall k | 0 <= k < o
      ensures Settled(t, p, k)
    {
      SettledStable(s, t, p, k);
    }
  }

  ghost predicate WorkersOk(s: State, rec: Record, subs: seq<int>, workers: seq<W.State>) {
    && |workers| == |subs|
    && forall i :: 0 <= i < |workers| ==> WorkerOk(s, rec, subs[i], workers[i])
  }

  ghost predicate WorkerOk(s: State, rec: Record, sub: int, w: W.State) {
    && (w.Done? && w.delivered && w.err.NoError? ==> HasDelivered(s.db.attempts, rec.id, sub))
    && (w.Recording? && w.reply.Success() ==> w.outcome.Delivered?)
  }

  ghost predicate PlanOk(s: State, rec: Record, subs: seq<int>, plan: seq<nat>) {
    && (forall k :: k in plan ==> k < |subs|)
    && (forall i :: 0 <= i < |subs| && i !in plan ==> SubSettled(s, rec, subs[i]))
  }

  /** What a consumer knows while it has a record in hand. */
  ghost predicate PhaseOk(s: State, ph: C.Phase) {
    ph.Working() ==>
      && ph.p < |s.log| && ph.o < |s.log[ph.p]| && (ph.p, ph.o) in s.begun
      && SettledBelow(s, ph.p, ph.o)
      && var entry := s.log[ph.p][ph.o];
         match ph
         case Parking(_, _) => entry.Bad?
         case LookingUp(_, _) => entry.Good?
         case FanOut(p, o, subs, workers) =>
           entry.Good? && FanOut(p, o, subs) in s.fanned && WorkersOk(s, entry.rec, subs, workers)
         case Settling(p, o, subs, _, plan) =>
           entry.Good? && FanOut(p, o, subs) in s.fanned && PlanOk(s, entry.rec, subs, plan)
         case Committing(p, o, _, _) => Settled(s, p, o)
         case _ => true
  }

  /** Everything below a fetch position has settled, apart from the record in hand. */
  ghost predicate PosOk(s: State, c: Relay.Consumer, p: nat) {
    p in c.pos ==>
      && p < |s.log| && c.pos[p] <= |s.log[p]|
      && forall o :: 0 <= o < c.pos[p] ==>
           Settled(s, p, o) || (c.phase.Working() && c.phase.p == p && c.phase.o == o)
  }

  ghost predicate ConsumerOk(s: State, c: Relay.Consumer) {
    !c.phase.Stopped? ==> PhaseOk(s, c.phase) && forall p :: p in c.pos ==> PosOk(s, c, p)
  }

  ghost predicate DeliverInv(s: State) {
    && |s.committed| == |s.log|
    && (forall c :: c in s.consumers ==> ConsumerOk(s, s.consumers[c]))
    && (forall p :: 0 <= p < |s.committed| ==> s.committed[p] <= |s.log[p]| && SettledBelow(s, p, s.committed[p]))
    && (forall p, o :: (p, o) in s.begun ==> p < |s.log| && o < |s.log[p]| && SettledBelow(s, p, o))
    && (forall f :: f in s.fanned ==> (f.p, f.o) in s.begun)
  }

  lemma WorkersOkStable(s: State, t: State, rec: Record, subs: seq<int>, workers: seq<W.State>)
    requires Grows(s, t) && WorkersOk(s, rec, subs, workers)
    ensures WorkersOk(t, rec, subs, workers)
  {
    forall i | 0 <= i < |workers|
      ensures WorkerOk(t, rec, subs[i], workers[i])
    {
      assert WorkerOk(s, rec, subs[i], workers[i]);
      if HasDelivered(s.db.attempts, rec.id, subs[i]) {
        var k :| 0 <= k < |s.db.attempts| && DeliveredRow(s.db.attempts[k], rec.id, subs[i]);
        assert t.db.attempts[k] == s.db.attempts[k];
      }
    }
  }

  lemma PhaseOkStable(s: State, t: State, ph: C.Phase)
    requires Grows(s, t) && PhaseOk(s, ph)
    ensures PhaseOk(t, ph)
  {
    if ph.Working() {
      SettledBelowStable(s, t, ph.p, ph.o);
      assert t.log[ph.p][ph.o] == s.log[ph.p][ph.o];
      match ph {
        case FanOut(_, _, subs, workers) =>
          WorkersOkStable(s, t, s.log[ph.p][ph.o].rec, subs, workers);
        case Settling(_, _, subs, _, plan) =>
          var rec := s.log[ph.p][ph.o].rec;
          forall i | 0 <= i < |subs| && i !in plan
            ensures SubSettled(t, rec, subs[i])
          {
            SubSettledStable(s, t, rec, subs[i]);
          }
        case Committing(p, o, _, _) => SettledStable(s, t, p, o);
        case _ =>
      }
    }
  }

  lemma ConsumerOkStable(s: State, t: State, c: Relay.Consumer)
    requires Grows(s, t) && ConsumerOk(s, c)
    ensures ConsumerOk(t, c)
  {
    if !c.phase.Stopped? {
      PhaseOkStable(s, t, c.phase);
      forall p | p in c.pos
        ensures PosOk(t, c, p)
      {
        assert PosOk(s, c, p);
        forall o | 0 <= o < c.pos[p] && Settled(s, p, o)
          ensures Settled(t, p, o)
        {
          SettledStable(s, t, p, o);
        }
      }
    }
  }

  /** The shared part of the delivery invariant survives any growth; only what a step itself changed,
  one consumer or one committed offset, is left to show. */
  lemma DeliverStep(s: State, t: State, c: nat)
    requires DeliverInv(s) && Grows(s, t) && |t.committed| == |s.committed|
    requires forall d :: d in t.consumers && d != c ==> d in s.consumers && t.consumers[d] == s.consumers[d]
    requires c in t.consumers ==> ConsumerOk(t, t.consumers[c])
    requires forall p :: 0 <= p < |t.committed| ==>
               t.committed[p] == s.committed[p] || (t.committed[p] <= |t.log[p]| && SettledBelow(t, p, t.committed[p]))
    requires forall p, o :: (p, o) in t.begun && (p, o) !in s.begun ==>
               p < |t.log| && o < |t.log[p]| && SettledBelow(t, p, o)
    requires forall f :: f in t.fanned && f !in s.fanned ==> (f.p, f.o) in t.begun
    ensures DeliverInv(t)
  {
    forall d | d in t.consumers
      ensures ConsumerOk(t, t.consumers[d])
    {
      if d != c {
        ConsumerOkStable(s, t, s.consumers[d]);
      }
    }
    forall p | 0 <= p < |t.committed|
      ensures t.committed[p] <= |t.log[p]| && SettledBelow(t, p, t.committed[p])
    {
      if t.committed[p] == s.committed[p] {
        SettledBelowStable(s, t, p, s.committed[p]);
      }
    }
    forall p, o | (p, o) in t.begun
      ensures p < |t.log| && o < |t.log[p]| && SettledBelow(t, p, o)
    {
      if (p, o) in s.begun {
        SettledBelowStable(s, t, p, o);
      }
    }
  }

  // Acceptance

  ghost predicate LoggedAt(s: State, p: nat, o: nat, r: nat) {
    p < |s.log| && o < |s.log[p]| && s.log[p][o].Good? && s.log[p][o].source == Some(r)
  }

  ghost predicate Logged(s: State, id: Id, r: nat) {
    exists p: nat, o: nat :: LoggedAt(s, p, o, r) && s.log[p][o].rec.id == id
  }

  /** The stored event a request settled on is one its caller asked for: the claimed row of its tenant
  and key, or its own row, with the same type and the same JSON value. */
  ghost predicate Chosen(cfg: Config, s: State, cand: Record, rec: Record) {
    && rec.id in s.db.rows && rec == RecordOf(rec.id, s.db.rows[rec.id])
    && rec.typ == cand.typ && cfg.json(rec.data) == cfg.json(cand.data) && rec.tenant == cand.tenant
    && (if cand.key == "" then rec.id == cand.id else Claims(s.db.rows, rec.id, cand.tenant, cand.key))
  }

  ghost predicate RequestOk(cfg: Config, s: State, r: nat, phase: A.Phase) {
    match phase
    case Deduplicating(cand, rec) => Chosen(cfg, s, cand, rec) && s.db.rows[rec.id].published
    case Publishing(cand, rec) => Chosen(cfg, s, cand, rec)
    case Marking(cand, rec) => Chosen(cfg, s, cand, rec) && Logged(s, rec.id, r)
    case Committing(cand, rec) => Chosen(cfg, s, cand, rec) && Logged(s, rec.id, r)
    case Accepted(cand, rec, deduplicated) =>
      && Chosen(cfg, s, cand, rec) && s.db.rows[rec.id].published
      && (!deduplicated ==> rec.id in s.publisher && s.publisher[rec.id] == r)
    case _ => true
  }

  /** The phases a request can be in once a record of its own is on the log. */
  ghost predicate HasPublished(phase: A.Phase, rec: Record) {
    match phase
    case Marking(_, mine) => mine == rec
    case Committing(_, mine) => mine == rec
    case Accepted(_, mine, deduplicated) => mine == rec && !deduplicated
    case Refused(_, why) => why != A.Conflict     // a conflict is answered before anything is published
    case _ => false
  }

  /** Row before log: a published entry repeats a committed event row, on its tenant's partition. */
  ghost predicate EntryOk(cfg: Config, s: State, p: nat, o: nat)
    requires cfg.Valid() && p < |s.log| && o < |s.log[p]|
  {
    var entry := s.log[p][o];
    entry.Good? && entry.source.Some? ==>
      && p == cfg.Partition(entry.rec.tenant)
      && entry.rec.id in s.db.rows && entry.rec == RecordOf(entry.rec.id, s.db.rows[entry.rec.id])
      && entry.source.value in s.requests && HasPublished(s.requests[entry.source.value], entry.rec)
  }

  ghost predicate LogOk(cfg: Config, s: State)
    requires cfg.Valid()
  {
    && (forall p, o :: 0 <= p < |s.log| && 0 <= o < |s.log[p]| ==> EntryOk(cfg, s, p, o))
    && (forall p, o, q, u, r :: LoggedAt(s, p, o, r) && LoggedAt(s, q, u, r) ==> p == q && o == u)
  }

  ghost predicate InFlight(phase: A.Phase, id: Id) {
    (phase.Publishing? || phase.Marking? || phase.Committing?) && phase.rec.id == id
  }

  ghost predicate LockOk(s: State, id: Id)
    requires id in s.db.locks
  {
    var tx := s.db.locks[id];
    tx.owner.IngestTx? ==>
      && tx.owner.r in s.requests
      && (tx.mark ==> Logged(s, id, tx.owner.r))
      && (InFlight(s.requests[tx.owner.r], id) ==> tx.unpublished)
      && (InFlight(s.requests[tx.owner.r], id) && s.requests[tx.owner.r].Committing? ==> tx.mark)
  }

  ghost predicate LocksOk(s: State) {
    forall id :: id in s.db.locks ==> LockOk(s, id)
  }

  ghost predicate PublishedOk(s: State) {
    && (forall id :: id in s.db.rows ==> (s.db.rows[id].published <==> id in s.publisher))
    && (forall id :: id in s.publisher ==> id in s.db.rows && Logged(s, id, s.publisher[id]))
  }

  ghost predicate RowsOk(cfg: Config, s: State) {
    forall id :: id in s.db.rows ==> s.db.rows[id].json == cfg.json(s.db.rows[id].data)
  }

  ghost predicate AcceptInv(cfg: Config, s: State)
    requires cfg.Valid()
  {
    && (forall r :: r in s.requests ==> RequestOk(cfg, s, r, s.requests[r]))
    && LogOk(cfg, s) && LocksOk(s) && PublishedOk(s) && RowsOk(cfg, s)
  }

  lemma LoggedStable(s: State, t: State, id: Id, r: nat)
    requires Grows(s, t) && Logged(s, id, r)
    ensures Logged(t, id, r)
  {
    var p: nat, o: nat :| LoggedAt(s, p, o, r) && s.log[p][o].rec.id == id;
    assert t.log[p][o] == s.log[p][o];
    assert LoggedAt(t, p, o, r);
  }

  lemma RequestOkStable(cfg: Config, s: State, t: State, r: nat, phase: A.Phase)
    requires Grows(s, t) && RequestOk(cfg, s, r, phase)
    ensures RequestOk(cfg, t, r, phase)
  {
    match phase {
      case Marking(_, rec) => LoggedStable(s, t, rec.id, r);
      case Committing(_, rec) => LoggedStable(s, t, rec.id, r);
      case _ =>
    }
  }

  /** The acceptance invariant over a step that appends nothing of a request's own. */
  lemma AcceptStep(cfg: Config, s: State, t: State, r: nat)
    requires cfg.Valid() && AcceptInv(cfg, s) && Grows(s, t)
    requires forall q :: q in s.requests ==> q in t.requests
    requires forall q :: q in t.requests && q != r ==> q in s.requests && t.requests[q] == s.requests[q]
    requires r in t.requests ==> RequestOk(cfg, t, r, t.requests[r])
    requires r in s.requests ==> forall rec :: HasPublished(s.requests[r], rec) ==> HasPublished(t.requests[r], rec)
    requires forall p, o :: 0 <= p < |t.log| && |s.log[p]| <= o < |t.log[p]| ==>
               t.log[p][o].Good? ==> t.log[p][o].source.None?
    requires LocksOk(t) && PublishedOk(t) && RowsOk(cfg, t)
    ensures AcceptInv(cfg, t)
  {
    forall q | q in t.requests
      ensures RequestOk(cfg, t, q, t.requests[q])
    {
      if q != r {
        RequestOkStable(cfg, s, t, q, s.requests[q]);
      }
    }
    forall p, o | 0 <= p < |t.log| && 0 <= o < |t.log[p]|
      ensures EntryOk(cfg, t, p, o)
    {
      if o < |s.log[p]| {
        assert t.log[p][o] == s.log[p][o];
        assert EntryOk(cfg, s, p, o);
      }
    }
    forall p, o, q, u, x | LoggedAt(t, p, o, x) && LoggedAt(t, q, u, x)
      ensures p == q && o == u
    {
      assert LoggedAt(s, p, o, x) && LoggedAt(s, q, u, x);
    }
  }

  ghost predicate Inv(cfg: Config, s: State)
    requires cfg.Valid()
  {
    |s.log| == cfg.parts && DbInv(s.db) && AcceptInv(cfg, s) && DeliverInv(s)
  }
}
