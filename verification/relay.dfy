/** The whole relay as one transition system: any number of ingest requests and consumers, each
walking its own automaton, over one shared set of tables, one partitioned log and one dead-letter
topic.  Every actor can stop between any two steps.

The environment is what the brokers and the database may answer: a publish or dead-letter write that
reports success has appended once, one that reports failure may have; a commit that reports failure
may have taken effect; a partition is assigned from its committed offset, at any time and to any
number of consumers at once; a replay may move a committed offset back; other producers may append
anything. */
module Relay {
  import opened Common
  import opened EventDb
  import A = Acceptance
  import C = ConsumerLoop
  import W = Worker

  /** `source` names the request that published an entry; other producers have none. */
  datatype Entry = Good(source: Option<nat>, rec: Record) | Bad

  datatype DeadLetter = Poison(p: nat, o: nat) | Undelivered(rec: Record, sub: int)

  datatype Consumer = Consumer(pos: map<nat, nat>, phase: C.Phase)

  datatype FanOut = FanOut(p: nat, o: nat, subs: seq<int>)

  /** Attempts per subscriber, number of partitions, the key hash, and the jsonb value of a text. */
  datatype Config = Config(max: nat, parts: nat, hash: string -> nat, json: string -> nat) {
    ghost predicate Valid() { max >= 1 && parts >= 1 }

    function Partition(tenant: string): (p: nat)
      requires parts >= 1
      ensures p < parts
    {
      hash(tenant) % parts
    }
  }

  /** The last three fields only record what happened: which request's publication of an event
  committed, what each record was fanned out to, and which records a consumer has begun. */
  datatype State = State(
    db: Db, log: seq<seq<Entry>>, committed: seq<nat>, dlq: set<DeadLetter>,
    requests: map<nat, A.Phase>, consumers: map<nat, Consumer>,
    publisher: map<Id, nat>, fanned: set<FanOut>, begun: set<(nat, nat)>)

  datatype Step =
    | Request(r: nat, cand: Record)
    | TakeSlot(r: nat, ok: bool)
    | Insert(r: nat, ok: bool, applied: bool)
    | LockRow(r: nat, id: Id)
    | LockFails(r: nat)
    | Publish(r: nat, ok: bool, appended: bool)
    | MarkRow(r: nat, ok: bool)
    | CommitRequest(r: nat, id: Id, ok: bool)
    | CrashRequest(r: nat)
    | Resolve(id: Id, apply: bool)
    | Foreign(p: nat, entry: Entry)
    | Rewind(p: nat, o: nat)
    | Join(c: nat)
    | Assign(c: nat, p: nat)
    | Revoke(c: nat, p: nat)
    | CrashConsumer(c: nat)
    | Fetch(c: nat, p: nat)
    | Quit(c: nat)
    | Decode(c: nat)
    | Park(c: nat, ok: bool, stored: bool)
    | FindSubs(c: nat, subs: seq<int>)
    | SubsFail(c: nat)
    | Deliver(c: nat, i: nat, e: W.Event)
    | RecordLock(c: nat, i: nat)
    | RecordInsert(c: nat, i: nat)
    | RecordEnd(c: nat, i: nat, result: W.RecordResult, expired: bool, sent: bool)
    | JoinWorkers(c: nat)
    | WriteDeadLetter(c: nat, ok: bool, stored: bool)
    | CommitOffset(c: nat, ok: bool, applied: bool)

  // Shared effects

  ghost function Append(s: State, p: nat, entry: Entry): State
    requires p < |s.log|
  {
    s.(log := s.log[p := s.log[p] + [entry]])
  }

  function SetRequest(s: State, r: nat, phase: A.Phase): State {
    s.(requests := s.requests[r := phase])
  }

  function SetPhase(s: State, c: nat, phase: C.Phase): State
    requires c in s.consumers
  {
    s.(consumers := s.consumers[c := s.consumers[c].(phase := phase)])
  }

  /** A transaction takes effect; if it marks the event published, its request is the publisher. */
  function ApplyTx(s: State, id: Id): State
    requires id in s.db.locks && id in s.db.rows
  {
    var tx := s.db.locks[id];
    s.(db := Apply(s.db, id),
       publisher := if tx.mark && tx.owner.IngestTx? then s.publisher[id := tx.owner.r] else s.publisher)
  }

  // Local moves

  predicate RequestMoves(s: State, r: nat, e: A.Event) {
    r in s.requests && A.Step(s.requests[r], e).Some?
  }

  function MoveRequest(s: State, r: nat, e: A.Event): State
    requires RequestMoves(s, r, e)
  {
    SetRequest(s, r, A.Step(s.requests[r], e).value)
  }

  predicate ConsumerMoves(cfg: Config, s: State, c: nat, e: C.Event) {
    c in s.consumers && C.Step(cfg.max, s.consumers[c].phase, e).Some?
  }

  function MoveConsumer(cfg: Config, s: State, c: nat, e: C.Event): State
    requires ConsumerMoves(cfg, s, c, e)
  {
    SetPhase(s, c, C.Step(cfg.max, s.consumers[c].phase, e).value)
  }

  /** The candidate's row, as FOR UPDATE finds it. */
  predicate Finds(s: State, cand: Record, id: Id) {
    id in s.db.rows && if cand.key == "" then id == cand.id else Claims(s.db.rows, id, cand.tenant, cand.key)
  }

  function ReadRow(cfg: Config, s: State, cand: Record, id: Id): A.LockedRow
    requires id in s.db.rows
  {
    var row := s.db.rows[id];
    A.LockedRow(RecordOf(id, row), row.published,
                && row.typ == cand.typ && row.json == cfg.json(cand.data)
                && (cand.key == "" ==> row.tenant == cand.tenant))
  }

  /** Delivery `i` of consumer `c` is waiting for its history write. */
  predicate IsRecording(s: State, c: nat, i: nat) {
    && c in s.consumers
    && var ph := s.consumers[c].phase;
    && ph.FanOut? && i < |ph.workers| && i < |ph.subs| && ph.workers[i].Recording?
    && ph.p < |s.log| && ph.o < |s.log[ph.p]| && s.log[ph.p][ph.o].Good?
  }

  function RecordedEvent(s: State, c: nat, i: nat): Id
    requires IsRecording(s, c, i)
  {
    var ph := s.consumers[c].phase;
    s.log[ph.p][ph.o].rec.id
  }

  /** The row this history write inserts, numbered from the committed table. */
  function RowFor(s: State, c: nat, i: nat, number: nat): AttemptRow
    requires IsRecording(s, c, i)
  {
    var ph := s.consumers[c].phase;
    var w := ph.workers[i];
    AttemptRow(RecordedEvent(s, c, i), ph.subs[i], number, w.outcome,
               if w.reply.Status? then Some(w.reply.code) else None)
  }

  ghost predicate Enabled(cfg: Config, s: State, step: Step) {
    match step
    case Request(r, cand) => r !in s.requests && cand == A.Normalize(cand)
    case TakeSlot(r, ok) => RequestMoves(s, r, A.Slot(ok))
    case Insert(r, ok, applied) =>
      r in s.requests && s.requests[r].Reserving? && (ok ==> applied)
    case LockRow(r, id) =>
      r in s.requests && s.requests[r].Locking? && Finds(s, s.requests[r].cand, id) && id !in s.db.locks
    case LockFails(r) => RequestMoves(s, r, A.Locked(None))
    case Publish(r, ok, appended) => r in s.requests && s.requests[r].Publishing? && (ok ==> appended)
    case MarkRow(r, ok) =>
      && r in s.requests && s.requests[r].Marking?
      && (ok ==> Holds(s.db, s.requests[r].rec.id, IngestTx(r)))
    case CommitRequest(r, id, ok) =>
      && RequestMoves(s, r, A.Committed(ok)) && id == s.requests[r].rec.id
      && (ok ==> Holds(s.db, id, IngestTx(r)))
    case CrashRequest(r) => r in s.requests && !s.requests[r].Accepted?
    case Resolve(id, apply) => id in s.db.locks && (apply ==> s.db.locks[id].sent && id in s.db.rows)
    case Foreign(p, entry) => p < |s.log| && (entry.Good? ==> entry.source.None?)
    case Rewind(p, o) => p < |s.committed| && o <= s.committed[p]
    case Join(c) => c !in s.consumers
    case Assign(c, p) => c in s.consumers && p < |s.log| && p < |s.committed|
    case Revoke(c, p) => c in s.consumers
    case CrashConsumer(c) => c in s.consumers
    case Fetch(c, p) =>
      && c in s.consumers && s.consumers[c].phase.Idle? && p in s.consumers[c].pos
      && p < |s.log| && s.consumers[c].pos[p] < |s.log[p]|
    case Quit(c) => ConsumerMoves(cfg, s, c, C.Quit)
    case Decode(c) =>
      c in s.consumers && s.consumers[c].phase.Decoding?
      && s.consumers[c].phase.p < |s.log| && s.consumers[c].phase.o < |s.log[s.consumers[c].phase.p]|
    case Park(c, ok, stored) => ConsumerMoves(cfg, s, c, C.Parked(ok)) && (ok ==> stored)
    case FindSubs(c, subs) => ConsumerMoves(cfg, s, c, C.SubsFound(subs))
    case SubsFail(c) => ConsumerMoves(cfg, s, c, C.SubsFailed)
    case Deliver(c, i, e) => ConsumerMoves(cfg, s, c, C.Worked(i, e)) && !e.Recorded?
    case RecordLock(c, i) =>
      IsRecording(s, c, i) && RecordedEvent(s, c, i) in s.db.rows && RecordedEvent(s, c, i) !in s.db.locks
    case RecordInsert(c, i) =>
      IsRecording(s, c, i) && Holds(s.db, RecordedEvent(s, c, i), DeliverTx(c, i))
    case RecordEnd(c, i, result, expired, sent) =>
      && IsRecording(s, c, i) && ConsumerMoves(cfg, s, c, C.Worked(i, W.Recorded(result, expired)))
      && var id := RecordedEvent(s, c, i);
      && (result.RecordOk? ==>
            && Holds(s.db, id, DeliverTx(c, i)) && id in s.db.rows && s.db.locks[id].insert.Some?
            && s.db.locks[id].insert.value == RowFor(s, c, i, s.db.locks[id].insert.value.number))
      && (result.RecordMissing? ==> id !in s.db.rows)
      && (sent ==> result.RecordFailed? && Holds(s.db, id, DeliverTx(c, i)))
    case JoinWorkers(c) => ConsumerMoves(cfg, s, c, C.Joined)
    case WriteDeadLetter(c, ok, stored) =>
      && c in s.consumers && s.consumers[c].phase.Settling? && s.consumers[c].phase.plan != []
      && s.consumers[c].phase.plan[0] < |s.consumers[c].phase.subs|
      && s.consumers[c].phase.p < |s.log| && s.consumers[c].phase.o < |s.log[s.consumers[c].phase.p]|
      && s.log[s.consumers[c].phase.p][s.consumers[c].phase.o].Good?
      && (ok ==> stored)
    case CommitOffset(c, ok, applied) =>
      && ConsumerMoves(cfg, s, c, C.Committed(ok)) && (ok ==> applied)
      && s.consumers[c].phase.p < |s.committed|
  }

  // The steps of a request that touch the tables or the log

  ghost function DoInsert(cfg: Config, s: State, r: nat, ok: bool, applied: bool): State
    requires r in s.requests && s.requests[r].Reserving?
  {
    var cand := s.requests[r].cand;
    var affected := !Conflicts(s.db.rows, cand);
    var s' := if applied then s.(db := Reserve(s.db, cand, cfg.json(cand.data))) else s;
    SetRequest(s', r, A.Step(s.requests[r], A.Inserted(ok, affected)).value)
  }

  function DoLockRow(cfg: Config, s: State, r: nat, id: Id): State
    requires r in s.requests && s.requests[r].Locking? && Finds(s, s.requests[r].cand, id) && id !in s.db.locks
  {
    var e := A.Locked(Some(ReadRow(cfg, s, s.requests[r].cand, id)));
    SetRequest(s.(db := Lock(s.db, id, IngestTx(r))), r, A.Step(s.requests[r], e).value)
  }

  ghost function DoPublish(cfg: Config, s: State, r: nat, ok: bool, appended: bool): State
    requires cfg.parts >= 1 && |s.log| == cfg.parts && r in s.requests && s.requests[r].Publishing?
  {
    var rec := s.requests[r].rec;
    var s' := if appended then Append(s, cfg.Partition(rec.tenant), Good(Some(r), rec)) else s;
    SetRequest(s', r, A.Step(s.requests[r], A.Published(ok)).value)
  }

  function DoMarkRow(s: State, r: nat, ok: bool): State
    requires r in s.requests && s.requests[r].Marking? && (ok ==> Holds(s.db, s.requests[r].rec.id, IngestTx(r)))
  {
    var s' := if ok then s.(db := Mark(s.db, s.requests[r].rec.id)) else s;
    SetRequest(s', r, A.Step(s.requests[r], A.Marked(ok)).value)
  }

  function DoCommitRequest(s: State, r: nat, id: Id, ok: bool): State
    requires RequestMoves(s, r, A.Committed(ok)) && (ok ==> Holds(s.db, id, IngestTx(r)))
  {
    var s' := if ok then (if id in s.db.rows then ApplyTx(s, id) else s)
              else if Holds(s.db, id, IngestTx(r)) then s.(db := Send(s.db, id))
              else s;
    SetRequest(s', r, A.Step(s.requests[r], A.Committed(ok)).value)
  }

  function DoResolve(s: State, id: Id, apply: bool): State
    requires id in s.db.locks && (apply ==> id in s.db.rows)
  {
    if apply then ApplyTx(s, id) else s.(db := Drop(s.db, id))
  }

  // The steps of a consumer that touch the tables, the dead letters or an offset

  ghost function DoPark(cfg: Config, s: State, c: nat, ok: bool, stored: bool): State
    requires Enabled(cfg, s, Park(c, ok, stored))
  {
    var ph := s.consumers[c].phase;
    var s' := MoveConsumer(cfg, s, c, C.Parked(ok));
    if stored then s'.(dlq := s.dlq + {Poison(ph.p, ph.o)}) else s'
  }

  ghost function DoRecordInsert(s: State, c: nat, i: nat): State
    requires IsRecording(s, c, i) && RecordedEvent(s, c, i) in s.db.locks
  {
    var id := RecordedEvent(s, c, i);
    var ph := s.consumers[c].phase;
    s.(db := Stage(s.db, id, RowFor(s, c, i, Next(s.db.attempts, id, ph.subs[i]))))
  }

  ghost function DoRecordEnd(cfg: Config, s: State, c: nat, i: nat, result: W.RecordResult, expired: bool,
                             sent: bool): State
    requires Enabled(cfg, s, RecordEnd(c, i, result, expired, sent))
  {
    var id := RecordedEvent(s, c, i);
    var s' := if result.RecordOk? then ApplyTx(s, id)
              else if sent then s.(db := Send(s.db, id))
              else s;
    SetPhase(s', c, C.Step(cfg.max, s.consumers[c].phase, C.Worked(i, W.Recorded(result, expired))).value)
  }

  ghost function DoWriteDeadLetter(cfg: Config, s: State, c: nat, ok: bool, stored: bool): State
    requires Enabled(cfg, s, WriteDeadLetter(c, ok, stored))
  {
    var ph := s.consumers[c].phase;
    var rec := s.log[ph.p][ph.o].rec;
    var s' := SetPhase(s, c, C.Step(cfg.max, ph, C.DeadLettered(ph.plan[0], ok)).value);
    if stored then s'.(dlq := s.dlq + {Undelivered(rec, ph.subs[ph.plan[0]])}) else s'
  }

  ghost function DoCommitOffset(cfg: Config, s: State, c: nat, ok: bool, applied: bool): State
    requires Enabled(cfg, s, CommitOffset(c, ok, applied))
  {
    var ph := s.consumers[c].phase;
    var s' := MoveConsumer(cfg, s, c, C.Committed(ok));
    if applied then s'.(committed := s.committed[ph.p := ph.o + 1]) else s'
  }

  ghost function Do(cfg: Config, s: State, step: Step): State
    requires cfg.Valid() && |s.log| == cfg.parts && Enabled(cfg, s, step)
  {
    match step
    case Request(r, cand) => SetRequest(s, r, A.Waiting(cand))
    case TakeSlot(r, ok) => MoveRequest(s, r, A.Slot(ok))
    case Insert(r, ok, applied) => DoInsert(cfg, s, r, ok, applied)
    case LockRow(r, id) => DoLockRow(cfg, s, r, id)
    case LockFails(r) => MoveRequest(s, r, A.Locked(None))
    case Publish(r, ok, appended) => DoPublish(cfg, s, r, ok, appended)
    case MarkRow(r, ok) => DoMarkRow(s, r, ok)
    case CommitRequest(r, id, ok) => DoCommitRequest(s, r, id, ok)
    case CrashRequest(r) => SetRequest(s, r, A.Refused(s.requests[r].cand, A.Unavailable))
    case Resolve(id, apply) => DoResolve(s, id, apply)
    case Foreign(p, entry) => Append(s, p, entry)
    case Rewind(p, o) => s.(committed := s.committed[p := o])
    case Join(c) => s.(consumers := s.consumers[c := Consumer(map[], C.Idle)])
    case Assign(c, p) =>
      s.(consumers := s.consumers[c := s.consumers[c].(pos := s.consumers[c].pos[p := s.committed[p]])])
    case Revoke(c, p) =>
      s.(consumers := s.consumers[c := s.consumers[c].(pos := s.consumers[c].pos - {p})])
    case CrashConsumer(c) => s.(consumers := s.consumers[c := Consumer(map[], C.Stopped)])
    case Fetch(c, p) =>
      var o := s.consumers[c].pos[p];
      s.(consumers := s.consumers[c := Consumer(s.consumers[c].pos[p := o + 1], C.Decoding(p, o))],
         begun := s.begun + {(p, o)})
    case Quit(c) => MoveConsumer(cfg, s, c, C.Quit)
    case Decode(c) =>
      var ph := s.consumers[c].phase;
      SetPhase(s, c, C.Step(cfg.max, ph, C.Decoded(s.log[ph.p][ph.o].Good?)).value)
    case Park(c, ok, stored) => DoPark(cfg, s, c, ok, stored)
    case FindSubs(c, subs) =>
      var ph := s.consumers[c].phase;
      MoveConsumer(cfg, s, c, C.SubsFound(subs)).(fanned := s.fanned + {FanOut(ph.p, ph.o, subs)})
    case SubsFail(c) => MoveConsumer(cfg, s, c, C.SubsFailed)
    case Deliver(c, i, e) => MoveConsumer(cfg, s, c, C.Worked(i, e))
    case RecordLock(c, i) => s.(db := Lock(s.db, RecordedEvent(s, c, i), DeliverTx(c, i)))
    case RecordInsert(c, i) => DoRecordInsert(s, c, i)
    case RecordEnd(c, i, result, expired, sent) => DoRecordEnd(cfg, s, c, i, result, expired, sent)
    case JoinWorkers(c) => MoveConsumer(cfg, s, c, C.Joined)
    case WriteDeadLetter(c, ok, stored) => DoWriteDeadLetter(cfg, s, c, ok, stored)
    case CommitOffset(c, ok, applied) => DoCommitOffset(cfg, s, c, ok, applied)
  }

  ghost function Init(cfg: Config): State {
    State(Db(map[], map[], []), seq(cfg.parts, _ => []), seq(cfg.parts, _ => 0), {}, map[], map[], map[], {}, {})
  }

  /** The state after a run; None if some step was not possible where it was taken. */
  ghost function Exec(cfg: Config, steps: seq<Step>): (s: Option<State>)
    requires cfg.Valid()
    ensures s.Some? ==> |s.value.log| == |s.value.committed| == cfg.parts
  {
    if steps == [] then Some(Init(cfg))
    else
      match Exec(cfg, steps[..|steps| - 1])
      case None => None
      case Some(s) =>
        var step := steps[|steps| - 1];
        if Enabled(cfg, s, step) then Some(Do(cfg, s, step)) else None
  }
}
