/** What holds in every state any run of the relay can reach. */
module RelayTheorems {
  import opened Common
  import opened EventDb
  import opened Relay
  import opened RelayInvariant
  import opened RelaySteps
  import A = Acceptance
  import C = ConsumerLoop
  import W = Worker

  lemma {:induction false} RunsKeepInv(cfg: Config, steps: seq<Step>)
    requires cfg.Valid() && Exec(cfg, steps).Some?
    ensures Inv(cfg, Exec(cfg, steps).value)
  {
    if steps == [] {
      var s := Init(cfg);
      forall event, sub
        ensures CountsUp(Numbers(s.db.attempts, event, sub))
      {
      }
    } else {
      var before := steps[..|steps| - 1];
      RunsKeepInv(cfg, before);
      StepKeeps(cfg, Exec(cfg, before).value, steps[|steps| - 1]);
    }
  }

  /** Nothing durable is taken away by the rest of a run; in particular what has settled stays settled. */
  lemma {:induction false} RunsGrow(cfg: Config, steps: seq<Step>, n: nat)
    requires cfg.Valid() && Exec(cfg, steps).Some? && n <= |steps|
    ensures Exec(cfg, steps[..n]).Some? && Grows(Exec(cfg, steps[..n]).value, Exec(cfg, steps).value)
    decreases |steps|
  {
    if n == |steps| {
      assert steps[..n] == steps;
    } else {
      var before := steps[..|steps| - 1];
      RunsGrow(cfg, before, n);
      assert before[..n] == steps[..n];
      RunsKeepInv(cfg, before);
      StepKeeps(cfg, Exec(cfg, before).value, steps[|steps| - 1]);
      GrowsTrans(Exec(cfg, steps[..n]).value, Exec(cfg, before).value, Exec(cfg, steps).value);
    }
  }

  /** No silent loss: an offset below the committed one was parked as undecodable, or was fanned out to
  subscribers that each have a 2xx in a durable `delivered` row or a dead letter naming them. */
  lemma NoSilentLoss(cfg: Config, steps: seq<Step>, s: State, p: nat, o: nat)
    requires cfg.Valid() && Exec(cfg, steps) == Some(s)
    requires p < cfg.parts && o < s.committed[p]
    ensures o < |s.log[p]|
    ensures s.log[p][o].Bad? ==> Poison(p, o) in s.dlq
    ensures s.log[p][o].Good? ==>
              exists subs ::
                && FanOut(p, o, subs) in s.fanned
                && forall i :: 0 <= i < |subs| ==>
                     || HasDelivered(s.db.attempts, s.log[p][o].rec.id, subs[i])
                     || Undelivered(s.log[p][o].rec, subs[i]) in s.dlq
  {
    RunsKeepInv(cfg, steps);
    assert Settled(s, p, o);
    if s.log[p][o].Good? {
      var rec := s.log[p][o].rec;
      var subs :| FanOutSettled(s, rec, FanOut(p, o, subs));
      forall i | 0 <= i < |subs|
        ensures HasDelivered(s.db.attempts, rec.id, subs[i]) || Undelivered(rec, subs[i]) in s.dlq
      {
        assert SubSettled(s, rec, subs[i]);
      }
    }
  }

  /** Partition order: by the time any consumer has begun a record, every earlier record of its
  partition has settled, however the partition moved between owners. */
  lemma BegunInOrder(cfg: Config, steps: seq<Step>, s: State, p: nat, earlier: nat, later: nat)
    requires cfg.Valid() && Exec(cfg, steps) == Some(s)
    requires (p, later) in s.begun && earlier < later
    ensures Settled(s, p, earlier)
  {
    RunsKeepInv(cfg, steps);
    assert SettledBelow(s, p, later);
  }

  /** First deliveries of one tenant follow log order: while a request for a record may be on its way
  to a subscriber, every record its tenant published earlier has settled. */
  lemma TenantInOrder(cfg: Config, steps: seq<Step>, s: State, c: nat, q: nat, earlier: nat)
    requires cfg.Valid() && Exec(cfg, steps) == Some(s)
    requires c in s.consumers && s.consumers[c].phase.FanOut?
    requires q < |s.log| && earlier < |s.log[q]|
    requires var ph := s.consumers[c].phase;
             && ph.p < |s.log| && ph.o < |s.log[ph.p]|
             && s.log[ph.p][ph.o].Good? && s.log[ph.p][ph.o].source.Some?
             && s.log[q][earlier].Good? && s.log[q][earlier].source.Some?
             && s.log[q][earlier].rec.tenant == s.log[ph.p][ph.o].rec.tenant
    ensures q == s.consumers[c].phase.p
    ensures earlier < s.consumers[c].phase.o ==> Settled(s, q, earlier)
  {
    RunsKeepInv(cfg, steps);
    var ph := s.consumers[c].phase;
    assert EntryOk(cfg, s, ph.p, ph.o) && EntryOk(cfg, s, q, earlier);
    assert ConsumerOk(s, s.consumers[c]);
  }

  // Acceptance

  /** All successful answers for one tenant and non-blank key carry the same event, and it is one the
  caller asked for. */
  lemma SameKeySameEvent(cfg: Config, steps: seq<Step>, s: State, a: nat, b: nat)
    requires cfg.Valid() && Exec(cfg, steps) == Some(s)
    requires a in s.requests && b in s.requests && s.requests[a].Accepted? && s.requests[b].Accepted?
    requires s.requests[a].cand.tenant == s.requests[b].cand.tenant
    requires s.requests[a].cand.key == s.requests[b].cand.key != ""
    ensures A.Respond(s.requests[a]) == A.Respond(s.requests[b])
    ensures A.Respond(s.requests[a]).status == 202 && s.requests[a].rec == s.requests[b].rec
    ensures s.requests[a].rec.typ == s.requests[a].cand.typ
            && cfg.json(s.requests[a].rec.data) == cfg.json(s.requests[a].cand.data)
  {
    RunsKeepInv(cfg, steps);
    assert RequestOk(cfg, s, a, s.requests[a]) && RequestOk(cfg, s, b, s.requests[b]);
    assert Claims(s.db.rows, s.requests[a].rec.id, s.requests[a].cand.tenant, s.requests[a].cand.key);
    assert Claims(s.db.rows, s.requests[b].rec.id, s.requests[a].cand.tenant, s.requests[a].cand.key);
  }

  /** A success, deduplicated or not, means the log already holds the event. */
  lemma AcceptedIsLogged(cfg: Config, steps: seq<Step>, s: State, r: nat)
    requires cfg.Valid() && Exec(cfg, steps) == Some(s)
    requires r in s.requests && s.requests[r].Accepted?
    ensures exists p: nat, o: nat ::
              p < |s.log| && o < |s.log[p]| && s.log[p][o].Good? && s.log[p][o].rec == s.requests[r].rec
  {
    RunsKeepInv(cfg, steps);
    var rec := s.requests[r].rec;
    assert RequestOk(cfg, s, r, s.requests[r]);
    assert rec.id in s.publisher;
    var publisher := s.publisher[rec.id];
    assert Logged(s, rec.id, publisher);
    var p: nat, o: nat :| LoggedAt(s, p, o, publisher) && s.log[p][o].rec.id == rec.id;
    assert EntryOk(cfg, s, p, o);
    assert s.log[p][o].rec == rec;
  }

  /** At most one acceptance of an event is the one that published it. */
  lemma OnePublisher(cfg: Config, steps: seq<Step>, s: State, a: nat, b: nat)
    requires cfg.Valid() && Exec(cfg, steps) == Some(s)
    requires a in s.requests && b in s.requests && s.requests[a].Accepted? && s.requests[b].Accepted?
    requires !s.requests[a].deduplicated && !s.requests[b].deduplicated
    requires s.requests[a].rec.id == s.requests[b].rec.id
    ensures a == b
  {
    RunsKeepInv(cfg, steps);
    assert RequestOk(cfg, s, a, s.requests[a]) && RequestOk(cfg, s, b, s.requests[b]);
  }

  /** Any log record of an event beyond its publisher's belongs to a request that did not succeed. */
  lemma ExtraRecordsFailed(cfg: Config, steps: seq<Step>, s: State, p: nat, o: nat, q: nat, u: nat, a: nat, b: nat)
    requires cfg.Valid() && Exec(cfg, steps) == Some(s)
    requires LoggedAt(s, p, o, a) && LoggedAt(s, q, u, b) && s.log[p][o].rec.id == s.log[q][u].rec.id
    requires a in s.requests && b in s.requests && s.requests[a].Accepted? && s.requests[b].Accepted?
    ensures a == b && p == q && o == u
  {
    RunsKeepInv(cfg, steps);
    assert EntryOk(cfg, s, p, o) && EntryOk(cfg, s, q, u);
    OnePublisher(cfg, steps, s, a, b);
  }

  /** Nothing went wrong for the request: it was accepted, or told that its key is taken by another body. */
  predicate Faultless(phase: A.Phase) {
    phase.Accepted? || (phase.Refused? && phase.why == A.Conflict)
  }

  /** When nothing went wrong for any request the log holds exactly one record of the event each accepted one was
  answered with; conflicts and deduplicated answers add none. */
  lemma ExactlyOneRecord(cfg: Config, steps: seq<Step>, s: State, r: nat)
    requires cfg.Valid() && Exec(cfg, steps) == Some(s)
    requires r in s.requests && s.requests[r].Accepted?
    requires forall q :: q in s.requests ==> Faultless(s.requests[q])
    ensures exists p: nat, o: nat ::
              && HoldsRecord(s, p, o, s.requests[r].rec.id)
              && forall q: nat, u: nat :: HoldsRecord(s, q, u, s.requests[r].rec.id) ==> q == p && u == o
  {
    RunsKeepInv(cfg, steps);
    var rec := s.requests[r].rec;
    assert RequestOk(cfg, s, r, s.requests[r]);
    var publisher := s.publisher[rec.id];
    assert Logged(s, rec.id, publisher);
    var p: nat, o: nat :| LoggedAt(s, p, o, publisher) && s.log[p][o].rec.id == rec.id;
    assert EntryOk(cfg, s, p, o);
    forall q: nat, u: nat | HoldsRecord(s, q, u, rec.id)
      ensures q == p && u == o
    {
      assert EntryOk(cfg, s, q, u);
      var x := s.log[q][u].source.value;
      assert LoggedAt(s, q, u, x);
      ExtraRecordsFailed(cfg, steps, s, p, o, q, u, publisher, x);
    }
    assert HoldsRecord(s, p, o, rec.id);
  }

  /** A record of the event that came through acceptance, not from another producer. */
  ghost predicate HoldsRecord(s: State, p: nat, o: nat, id: Id) {
    p < |s.log| && o < |s.log[p]| && s.log[p][o].Good? && s.log[p][o].source.Some? && s.log[p][o].rec.id == id
  }

  // History

  /** Row before log: what acceptance published repeats a committed event row. */
  lemma RowBeforeLog(cfg: Config, steps: seq<Step>, s: State, p: nat, o: nat)
    requires cfg.Valid() && Exec(cfg, steps) == Some(s)
    requires p < |s.log| && o < |s.log[p]| && s.log[p][o].Good? && s.log[p][o].source.Some?
    ensures s.log[p][o].rec.id in s.db.rows
    ensures s.log[p][o].rec == RecordOf(s.log[p][o].rec.id, s.db.rows[s.log[p][o].rec.id])
    ensures p == cfg.Partition(s.log[p][o].rec.tenant)
  {
    RunsKeepInv(cfg, steps);
    assert EntryOk(cfg, s, p, o);
  }

  /** So only a record some other producer appended can be found without an event row when its attempt is recorded. */
  lemma MissingOnlyForForeign(cfg: Config, steps: seq<Step>, s: State, c: nat, i: nat)
    requires cfg.Valid() && Exec(cfg, steps) == Some(s)
    requires IsRecording(s, c, i) && RecordedEvent(s, c, i) !in s.db.rows
    ensures s.log[s.consumers[c].phase.p][s.consumers[c].phase.o].source.None?
  {
    var ph := s.consumers[c].phase;
    if s.log[ph.p][ph.o].source.Some? {
      RowBeforeLog(cfg, steps, s, ph.p, ph.o);
    }
  }

  /** The attempt numbers of every event and subscription are 1, 2, ... n in commit order, across
  concurrent deliveries, redelivery, lost connections and failed inserts. */
  lemma HistoryHasNoGaps(cfg: Config, steps: seq<Step>, s: State, event: Id, sub: int, i: nat)
    requires cfg.Valid() && Exec(cfg, steps) == Some(s)
    requires i < |Numbers(s.db.attempts, event, sub)|
    ensures Numbers(s.db.attempts, event, sub)[i] == i + 1
  {
    RunsKeepInv(cfg, steps);
    assert CountsUp(Numbers(s.db.attempts, event, sub));
  }
}
