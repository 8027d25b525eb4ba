/** The consumer of services/relay/internal/delivery/consumer.go: fetch one record, fan it out,
dead-letter what failed, and only then commit its offset.

`Step` is the loop as an automaton over what the broker, the database and the subscribers answer.
The deliveries of one record run concurrently, so the automaton takes their events in any order. */
module ConsumerLoop {
  import opened Common
  import W = Worker

  datatype Phase =
    | Idle
    | Decoding(p: nat, o: nat)
    | Parking(p: nat, o: nat)
    | LookingUp(p: nat, o: nat)
    | FanOut(p: nat, o: nat, subs: seq<int>, workers: seq<W.State>)
    | Settling(p: nat, o: nat, subs: seq<int>, workers: seq<W.State>, plan: seq<nat>)
    | Committing(p: nat, o: nat, subs: seq<int>, workers: seq<W.State>)
    | Stopped
  {
    predicate Working() { !Idle? && !Stopped? }
  }

  datatype Event =
    | Fetched(p: nat, o: nat)
    | Quit
    | Decoded(ok: bool)
    | Parked(ok: bool)
    | SubsFound(subs: seq<int>)
    | SubsFailed
    | Worked(i: nat, e: W.Event)
    | Joined
    | DeadLettered(i: nat, ok: bool)
    | Committed(ok: bool)

  predicate AllDone(workers: seq<W.State>) {
    forall i :: 0 <= i < |workers| ==> workers[i].Done?
  }

  predicate Missing(w: W.State) { w.Done? && w.err.HistoryMissing? }

  predicate Failed(w: W.State) { w.Done? && w.err.NoError? && !w.delivered }

  predicate MustRetry(workers: seq<W.State>) {
    exists i :: 0 <= i < |workers| && workers[i].Done? && workers[i].err.OtherError?
  }

  /** The deliveries to dead-letter: first those whose event row is missing, then those that failed. */
  function Plan(workers: seq<W.State>): seq<nat> {
    MissingFrom(workers, 0) + FailedFrom(workers, 0)
  }

  function MissingFrom(workers: seq<W.State>, i: nat): seq<nat>
    requires i <= |workers|
    decreases |workers| - i
  {
    if i == |workers| then []
    else (if Missing(workers[i]) then [i] else []) + MissingFrom(workers, i + 1)
  }

  function FailedFrom(workers: seq<W.State>, i: nat): seq<nat>
    requires i <= |workers|
    decreases |workers| - i
  {
    if i == |workers| then []
    else (if Failed(workers[i]) then [i] else []) + FailedFrom(workers, i + 1)
  }

  function Settle(p: nat, o: nat, subs: seq<int>, workers: seq<W.State>, plan: seq<nat>): Phase {
    if plan == [] then Committing(p, o, subs, workers) else Settling(p, o, subs, workers, plan)
  }

  function Step(max: nat, c: Phase, e: Event): Option<Phase> {
    match (c, e)
    case (Idle, Fetched(p, o)) => Some(Decoding(p, o))
    case (Idle, Quit) => Some(Stopped)
    case (Decoding(p, o), Decoded(ok)) => Some(if ok then LookingUp(p, o) else Parking(p, o))
    case (Parking(p, o), Parked(ok)) => Some(if ok then Committing(p, o, [], []) else Stopped)
    case (LookingUp(p, o), SubsFailed) => Some(Stopped)
    case (LookingUp(p, o), SubsFound(subs)) =>
      Some(if subs == [] then Committing(p, o, [], []) else FanOut(p, o, subs, seq(|subs|, _ => W.Start)))
    case (FanOut(p, o, subs, workers), Worked(i, ev)) =>
      if i >= |workers| then None
      else
        (match W.Step(max, workers[i], ev)
         case None => None
         case Some(w) => Some(FanOut(p, o, subs, workers[i := w])))
    case (FanOut(p, o, subs, workers), Joined) =>
      if !AllDone(workers) then None
      else Some(if MustRetry(workers) then Stopped else Settle(p, o, subs, workers, Plan(workers)))
    case (Settling(p, o, subs, workers, plan), DeadLettered(i, ok)) =>
      if plan == [] || plan[0] != i then None
      else Some(if ok then Settle(p, o, subs, workers, plan[1..]) else Stopped)
    case (Committing(_, _, _, _), Committed(ok)) => Some(if ok then Idle else Stopped)
    case _ => None
  }

  function Run(max: nat, trace: seq<Event>): Option<Phase> {
    if trace == [] then Some(Idle)
    else
      match Run(max, trace[..|trace| - 1])
      case None => None
      case Some(c) => Step(max, c, trace[|trace| - 1])
  }

  ghost function Emit(max: nat, trace: seq<Event>, e: Event): (r: seq<Event>)
    ensures r == trace + [e]
    ensures Run(max, r) == (match Run(max, trace) case None => None case Some(c) => Step(max, c, e))
    ensures Commits(r) == Commits(trace) + if e == Committed(true) then 1 else 0
  {
    assert (trace + [e])[..|trace|] == trace;
    trace + [e]
  }

  function Commits(trace: seq<Event>): nat {
    if trace == [] then 0
    else Commits(trace[..|trace| - 1]) + if trace[|trace| - 1] == Committed(true) then 1 else 0
  }

  lemma {:induction false} MissingFromMembers(workers: seq<W.State>, i: nat, k: nat)
    requires i <= |workers|
    ensures k in MissingFrom(workers, i) <==> i <= k < |workers| && Missing(workers[k])
    decreases |workers| - i
  {
    if i == |workers| {
    } else {
      MissingFromMembers(workers, i + 1, k);
    }
  }

  lemma {:induction false} FailedFromMembers(workers: seq<W.State>, i: nat, k: nat)
    requires i <= |workers|
    ensures k in FailedFrom(workers, i) <==> i <= k < |workers| && Failed(workers[k])
    decreases |workers| - i
  {
    if i == |workers| {
    } else {
      FailedFromMembers(workers, i + 1, k);
    }
  }

  /** Once every delivery has ended and none asks for a retry, a subscriber is either delivered with no
  error or in the dead-letter plan, never both and never neither. */
  lemma PlanIsExact(workers: seq<W.State>, k: nat)
    requires AllDone(workers) && !MustRetry(workers) && k < |workers|
    ensures k in Plan(workers) <==> !(workers[k].delivered && workers[k].err.NoError?)
  {
    MissingFromMembers(workers, 0, k);
    FailedFromMembers(workers, 0, k);
  }

  lemma {:induction false} PlanInRange(workers: seq<W.State>, k: nat)
    requires k in Plan(workers)
    ensures k < |workers|
  {
    MissingFromMembers(workers, 0, k);
    FailedFromMembers(workers, 0, k);
  }

  // Scheduling

  function TotalRank(max: nat, workers: seq<W.State>): nat {
    if workers == [] then 0 else W.Rank(max, workers[0]) + TotalRank(max, workers[1..])
  }

  ghost predicate AllBounded(max: nat, workers: seq<W.State>) {
    forall i :: 0 <= i < |workers| ==> W.Bounded(max, workers[i])
  }

  lemma {:induction false} TotalRankDrops(max: nat, workers: seq<W.State>, i: nat, w: W.State)
    requires i < |workers| && W.Rank(max, w) < W.Rank(max, workers[i])
    ensures TotalRank(max, workers[i := w]) < TotalRank(max, workers)
  {
    if i == 0 {
      assert workers[i := w][1..] == workers[1..];
    } else {
      TotalRankDrops(max, workers[1..], i - 1, w);
      assert workers[i := w][1..] == workers[1..][i - 1 := w];
    }
  }
}

module Consumer {
  import opened Common
  import opened ConsumerLoop
  import W = Worker

  datatype Fetch = Message(p: nat, o: nat, decodable: bool) | FetchFailed | FetchCancelled

  datatype Verdict = Ok | Failure

  datatype Letter = PoisonLetter(p: nat, o: nat) | SubscriberLetter(p: nat, o: nat, sub: int)

  /** The group reader: what it will return, in order, before it is cancelled, and the commits it has reported. */
  class Reader {
    var feed: seq<Fetch>
    var commits: seq<(nat, nat)>
    /** Every commit asked for, with its answer. */
    var asked: seq<((nat, nat), bool)>

    constructor (feed: seq<Fetch>)
      ensures this.feed == feed && commits == [] && asked == []
    {
      this.feed, commits, asked := feed, [], [];
    }

    method FetchMessage() returns (f: Fetch)
      modifies `feed
      ensures old(feed) == [] ==> f.FetchCancelled? && feed == []
      ensures old(feed) != [] ==> f == old(feed)[0] && feed == old(feed)[1..]
    {
      if feed == [] {
        f := FetchCancelled;
      } else {
        f, feed := feed[0], feed[1..];
      }
    }

    method CommitMessages(p: nat, o: nat) returns (ok: bool)
      modifies `commits, `asked
      ensures commits == old(commits) + if ok then [(p, o)] else []
      ensures asked == old(asked) + [((p, o), ok)]
    {
      ok := *;
      asked := asked + [((p, o), ok)];
      if ok {
        commits := commits + [(p, o)];
      }
    }
  }

  /** The dead-letter topic: every letter it was asked to take, with its answer, and those it has reported written. */
  class Producer {
    var asked: seq<(Letter, bool)>
    var written: seq<Letter>

    constructor ()
      ensures asked == [] && written == []
    {
      asked, written := [], [];
    }

    method WriteMessages(l: Letter) returns (ok: bool)
      modifies this
      ensures asked == old(asked) + [(l, ok)]
      ensures written == old(written) + if ok then [l] else []
    {
      ok := *;
      asked := asked + [(l, ok)];
      if ok {
        written := written + [l];
      }
    }
  }

  /** The subscription table, with its answers: a tenant's subscribers, or None for a lookup that failed. */
  class Subscriptions {
    var answers: seq<Option<seq<int>>>

    constructor ()
      ensures answers == []
    {
      answers := [];
    }

    method ForTenant() returns (subs: Option<seq<int>>)
      modifies this
      ensures answers == old(answers) + [subs]
    {
      subs := *;
      answers := answers + [subs];
    }
  }

  /** The consumer's context: nothing brings it back once it is cancelled. */
  class Context {
    var cancelled: bool

    constructor ()
      ensures !cancelled
    {
      cancelled := false;
    }

    method Err() returns (ended: bool)
      modifies this
      ensures ended == cancelled && (old(cancelled) ==> cancelled)
    {
      var signalled: bool := *;
      cancelled := cancelled || signalled;
      ended := cancelled;
    }
  }

  // What was asked of the dead-letter topic

  function Granted(letters: seq<Letter>): (r: seq<(Letter, bool)>)
    ensures |r| == |letters|
  {
    seq(|letters|, i requires 0 <= i < |letters| => (letters[i], true))
  }

  /** The letters up to number `k`, which was refused. */
  function RefusedAt(letters: seq<Letter>, k: int): seq<(Letter, bool)>
    requires 0 <= k < |letters|
  {
    Granted(letters[..k]) + [(letters[k], false)]
  }

  /** The letters were asked for in order, all with success, or up to the first that was refused. */
  ghost predicate Asked(before: seq<(Letter, bool)>, after: seq<(Letter, bool)>, due: seq<Letter>, ok: bool) {
    if ok then after == before + Granted(due)
    else exists k :: 0 <= k < |due| && after == before + RefusedAt(due, k)
  }

  lemma GrantedAppends(a: seq<Letter>, b: seq<Letter>)
    ensures Granted(a + b) == Granted(a) + Granted(b)
  {
  }

  /** One part of the letters after the other. */
  lemma AskedJoins(before: seq<(Letter, bool)>, middle: seq<(Letter, bool)>, after: seq<(Letter, bool)>, a: seq<Letter>,
                   b: seq<Letter>, ok: bool)
    requires Asked(before, middle, a, true) && Asked(middle, after, b, ok)
    ensures Asked(before, after, a + b, ok)
  {
    if ok {
      GrantedAppends(a, b);
      assert before + Granted(a) + Granted(b) == before + (Granted(a) + Granted(b));
    } else {
      var k :| 0 <= k < |b| && after == middle + RefusedAt(b, k);
      GrantedAppends(a, b[..k]);
      assert (a + b)[..|a| + k] == a + b[..k] && (a + b)[|a| + k] == b[k];
      assert before + Granted(a) + RefusedAt(b, k) == before + (Granted(a) + RefusedAt(b, k));
      assert RefusedAt(a + b, |a| + k) == Granted(a) + RefusedAt(b, k);
    }
  }

  lemma AskedEarly(before: seq<(Letter, bool)>, after: seq<(Letter, bool)>, a: seq<Letter>, b: seq<Letter>)
    requires Asked(before, after, a, false)
    ensures Asked(before, after, a + b, false)
  {
    var k :| 0 <= k < |a| && after == before + RefusedAt(a, k);
    assert (a + b)[..k] == a[..k];
    assert RefusedAt(a + b, k) == RefusedAt(a, k);
  }

  /** The next letter, and what that leaves to ask for. */
  lemma AskedNext(before: seq<(Letter, bool)>, middle: seq<(Letter, bool)>, due: seq<Letter>, l: Letter,
                  later: seq<Letter>, ok: bool)
    requires |middle| >= |before| && middle + Granted([l] + later) == before + Granted(due)
    ensures ok ==> middle + [(l, true)] + Granted(later) == before + Granted(due)
    ensures !ok ==> Asked(before, middle + [(l, false)], due, false)
  {
    GrantedAppends([l], later);
    assert middle + (Granted([l]) + Granted(later)) == middle + Granted([l]) + Granted(later);
    var k := |middle| - |before|;
    assert (before + Granted(due))[|middle|] == (middle + Granted([l] + later))[|middle|];
    assert (before + Granted(due))[..|middle|] == middle;
    assert Granted(due)[..k] == Granted(due[..k]);
    assert middle == before + Granted(due[..k]);
    assert middle + [(l, false)] == before + RefusedAt(due, k);
  }

  /** What the broker, the subscription table and the dead-letter topic were asked while handling one record, and the
  verdict their answers leave: an undecodable record is parked and nothing else; of any other the subscribers are looked
  up once, and it fails exactly when the lookup failed, a delivery asks for redelivery or a letter was refused. */
  ghost predicate Handles(f: Fetch, asked: seq<(Letter, bool)>, asked': seq<(Letter, bool)>,
                          lookups: seq<Option<seq<int>>>, lookups': seq<Option<seq<int>>>,
                          subs: seq<int>, workers: seq<W.State>, v: Verdict)
    requires f.Message?
  {
    if !f.decodable then lookups' == lookups && asked' == asked + [(PoisonLetter(f.p, f.o), v.Ok?)]
    else
      && |lookups'| == |lookups| + 1 && lookups' == lookups + [lookups'[|lookups|]]
      && match lookups'[|lookups|]
         case None => v.Failure? && asked' == asked
         case Some(found) =>
           && subs == found && |workers| == |subs| && AllDone(workers) && Planned(subs, workers)
           && if MustRetry(workers) then v.Failure? && asked' == asked
              else Asked(asked, asked', Letters(f.p, f.o, subs, Plan(workers)), v.Ok?)
  }

  /** The letters of the planned subscribers, in the plan's order. */
  function Letters(p: nat, o: nat, subs: seq<int>, plan: seq<nat>): (r: seq<Letter>)
    requires forall k :: k in plan ==> k < |subs|
    ensures |r| == |plan|
  {
    seq(|plan|, i requires 0 <= i < |plan| => assert plan[i] in plan; SubscriberLetter(p, o, subs[plan[i]]))
  }

  /** The offsets of fetched messages. */
  function Offsets(fetched: seq<Fetch>): seq<(nat, nat)>
    requires forall i :: 0 <= i < |fetched| ==> fetched[i].Message?
  {
    seq(|fetched|, i requires 0 <= i < |fetched| => (fetched[i].p, fetched[i].o))
  }

  function CountIf(workers: seq<W.State>, f: W.State -> bool): nat {
    if workers == [] then 0 else CountIf(workers[..|workers| - 1], f) + if f(workers[|workers| - 1]) then 1 else 0
  }

  /** A 2xx came back, whether or not its history could be written. */
  predicate Reached(w: W.State) { w.Done? && w.delivered }

  predicate ReachedMissing(w: W.State) { Reached(w) && Missing(w) }

  predicate ReachedKept(w: W.State) { Reached(w) && !Missing(w) }

  lemma {:induction false} ReachedSplits(workers: seq<W.State>)
    ensures CountIf(workers, ReachedMissing) + CountIf(workers, ReachedKept) == CountIf(workers, Reached)
  {
    if workers == [] {
    } else {
      ReachedSplits(workers[..|workers| - 1]);
    }
  }

  lemma CountNext(workers: seq<W.State>, i: nat, f: W.State -> bool)
    requires i < |workers|
    ensures CountIf(workers[..i + 1], f) == CountIf(workers[..i], f) + if f(workers[i]) then 1 else 0
  {
    assert workers[..i + 1][..i] == workers[..i];
  }

  lemma LettersSplit(p: nat, o: nat, subs: seq<int>, i: nat, rest: seq<nat>)
    requires i < |subs| && forall k :: k in rest ==> k < |subs|
    ensures (forall k :: k in [i] + rest ==> k < |subs|)
    ensures Letters(p, o, subs, [i] + rest) == [SubscriberLetter(p, o, subs[i])] + Letters(p, o, subs, rest)
  {
  }

  /** What the dead-letter topic, the subscription table, the fan-outs and the commits have answered, in order. */
  datatype Answers = Answers(
    letters: seq<(Letter, bool)>, lookups: seq<Option<seq<int>>>, fanOuts: seq<seq<W.State>>,
    commits: seq<((nat, nat), bool)>)
  {
    ghost predicate Before(later: Answers) {
      && |letters| <= |later.letters| && |lookups| <= |later.lookups| && |fanOuts| <= |later.fanOuts|
      && |commits| <= |later.commits|
    }

    /** A later answer leaves a record unfinished: a dead letter or its commit was refused, the lookup failed, or a
    delivery asks for redelivery. */
    ghost predicate GaveUp(later: Answers) {
      || (|letters| < |later.letters| && !later.letters[|later.letters| - 1].1)
      || (|lookups| < |later.lookups| && later.lookups[|later.lookups| - 1] == None)
      || (|fanOuts| < |later.fanOuts| && MustRetry(later.fanOuts[|later.fanOuts| - 1]))
      || (|commits| < |later.commits| && !later.commits[|later.commits| - 1].1)
    }
  }

  lemma LastRefused(before: seq<(Letter, bool)>, after: seq<(Letter, bool)>, due: seq<Letter>)
    requires Asked(before, after, due, false)
    ensures |after| > |before| && !after[|after| - 1].1
  {
  }

  /** Behind a record everything answered before is still there, and a failure has its answer at the end. */
  lemma HandledHears(f: Fetch, a: Answers, b: Answers, subs: seq<int>, workers: seq<W.State>, answer: Verdict,
                     v: Verdict)
    requires f.Message? && Handles(f, a.letters, b.letters, a.lookups, b.lookups, subs, workers, answer)
    requires b.fanOuts == a.fanOuts + if workers == [] then [] else [workers]
    requires b.commits == a.commits + if answer.Ok? then [((f.p, f.o), v.Ok?)] else []
    ensures a.Before(b) && (answer.Failure? || v.Failure? ==> a.GaveUp(b))
  {
    if f.decodable && b.lookups[|a.lookups|].Some? && !MustRetry(workers) && answer.Failure? {
      LastRefused(a.letters, b.letters, Letters(f.p, f.o, subs, Plan(workers)));
    }
  }

  lemma StillHeard(a: Answers, b: Answers, c: Answers)
    requires a.Before(b) && b.Before(c)
    ensures a.Before(c) && (b.GaveUp(c) ==> a.GaveUp(c))
  {
  }

  class Consumer {
    const max: nat                // attempts per subscriber
    const reader: Reader
    const dlq: Producer
    const subscriptions: Subscriptions
    const ctx: Context
    var ready: bool
    var stopping: bool
    var fetchStarted: bool
    var handled: nat
    var delivered: nat
    var deadLettered: nat
    ghost var trace: seq<Event>
    /** How the deliveries of each fan-out ended. */
    ghost var fanOuts: seq<seq<W.State>>

    ghost predicate At(c: Phase) reads this { Run(max, trace) == Some(c) }

    /** Everything answered so far. */
    ghost function Heard(): Answers
      reads this`fanOuts, reader`asked, dlq`asked, subscriptions`answers
    {
      Answers(dlq.asked, subscriptions.answers, fanOuts, reader.asked)
    }

    constructor (max: nat, reader: Reader, dlq: Producer, subscriptions: Subscriptions, ctx: Context)
      requires max >= 1
      ensures this.max == max && this.reader == reader && this.dlq == dlq && At(Idle) && trace == []
      ensures this.subscriptions == subscriptions && this.ctx == ctx
      ensures handled == delivered == deadLettered == 0 && !ready
    {
      this.max, this.reader, this.dlq, this.subscriptions, this.ctx := max, reader, dlq, subscriptions, ctx;
      ready, stopping, fetchStarted := false, false, false;
      handled, delivered, deadLettered := 0, 0, 0;
      trace, fanOuts := [], [];
    }

    /** A late group-join observation cannot bring readiness back once shutdown has begun. */
    method MarkReady(value: bool)
      modifies `ready
      ensures ready == if value && stopping then old(ready) else value
    {
      if value && stopping {
        return;
      }
      ready := value;
    }

    method StartReadiness()
      modifies `ready, `stopping, `fetchStarted
      ensures !stopping && !ready && !fetchStarted
    {
      stopping, ready, fetchStarted := false, false, false;
    }

    method StopReadiness()
      modifies `ready, `stopping
      ensures stopping && !ready
    {
      stopping, ready := true, false;
    }

    /** Consumes until the reader ends, a record fails, or a stop is seen after a record.  It never
    fetches past a record it did not finish: what it did is a run of the automaton that ends stopped,
    and what it committed is exactly the records it counts as handled, in the order they were fetched,
    with at most one more fetched, which was not finished for a reason that was answered. */
    method Consume(recordTimeout: int) returns (v: Verdict)
      requires max >= 1 && At(Idle)
      modifies this, reader, dlq, subscriptions, ctx
      ensures recordTimeout > 0 ==> At(Stopped) && stopping && !ready
      ensures recordTimeout <= 0 ==> v.Failure? && trace == old(trace) && reader.commits == old(reader.commits)
      ensures recordTimeout <= 0 ==> reader.feed == old(reader.feed) && Heard() == old(Heard())
      ensures handled - old(handled) == Commits(trace) - Commits(old(trace))
      ensures old(handled) <= handled <= old(handled) + |old(reader.feed)| - |reader.feed|
      ensures |old(reader.feed)| - |reader.feed| <= handled - old(handled) + 1
      ensures CommittedFront(old(reader.feed), handled - old(handled), old(reader.commits), reader.commits)
      ensures recordTimeout > 0 ==>
                EndsBecause(old(reader.feed), |old(reader.feed)| - |reader.feed|, handled - old(handled), v,
                    ctx.cancelled)
      ensures LastFailed(old(reader.feed), |old(reader.feed)| - |reader.feed|, handled - old(handled)) ==>
                old(Heard()).GaveUp(Heard())
    {
      if recordTimeout <= 0 {
        return Failure;
      }
      StartReadiness();
      v := ConsumeAll();
    }

    method ConsumeAll() returns (v: Verdict)
      requires max >= 1 && At(Idle)
      modifies this, reader, dlq, subscriptions, ctx
      ensures At(Stopped) && stopping && !ready
      ensures handled - old(handled) == Commits(trace) - Commits(old(trace))
      ensures |reader.feed| <= |old(reader.feed)|
      ensures var done, fetched := handled - old(handled), |old(reader.feed)| - |reader.feed|;
              && 0 <= done <= fetched <= done + 1
              && CommittedFront(old(reader.feed), done, old(reader.commits), reader.commits)
              && EndsBecause(old(reader.feed), fetched, done, v, ctx.cancelled)
              && (LastFailed(old(reader.feed), fetched, done) ==> old(Heard()).GaveUp(Heard()))
    {
      ghost var feed, start, done := reader.feed, Heard(), 0;
      while true
        invariant At(Idle)
        invariant done == handled - old(handled) == Commits(trace) - Commits(old(trace))
        invariant done <= |feed| && reader.feed == feed[done..]
        invariant CommittedFront(feed, done, old(reader.commits), reader.commits)
        invariant start.Before(Heard())
        decreases |reader.feed|
      {
        fetchStarted := true;
        var f := reader.FetchMessage();
        if !f.Message? {
          trace := Emit(max, trace, Quit);
          StopReadiness();
          return if f.FetchCancelled? then Ok else Failure;
        }
        var more;
        ghost var heard := Heard();
        v, more := Take(f);
        StillHeard(start, heard, Heard());
        if handled - old(handled) > done {
          FrontGrows(feed, done, old(reader.commits), reader.commits);
        }
        if !more {
          return;
        }
        done := done + 1;
      }
    }

    /** A fetched record: handled, and then either the next one or the end. */
    method Take(f: Fetch) returns (v: Verdict, more: bool)
      requires max >= 1 && f.Message? && At(Idle)
      modifies this, reader`commits, reader`asked, dlq, subscriptions, ctx
      ensures handled > old(handled) ==> v.Ok? && (more <==> !ctx.cancelled)
      ensures handled == old(handled) ==> !more && (v.Ok? ==> ctx.cancelled)
      ensures if more then v.Ok? && At(Idle) else At(Stopped) && stopping && !ready
      ensures more ==> handled == old(handled) + 1
      ensures handled == old(handled) || handled == old(handled) + 1
      ensures reader.commits == old(reader.commits) + if handled > old(handled) then [(f.p, f.o)] else []
      ensures handled - old(handled) == Commits(trace) - Commits(old(trace))
      ensures old(Heard()).Before(Heard())
      ensures handled == old(handled) ==> old(Heard()).GaveUp(Heard())
    {
      MarkReady(true);
      trace := Emit(max, trace, Fetched(f.p, f.o));
      v := Work(f);
      v, more := Behind(v);
    }

    /** One record, and what the loop has to know about it. */
    method Work(f: Fetch) returns (v: Verdict)
      requires max >= 1 && f.Message? && At(Decoding(f.p, f.o))
      modifies this`trace, this`handled, this`delivered, this`deadLettered, this`fanOuts, reader`commits, reader`asked
      modifies dlq, subscriptions
      ensures old(Heard()).Before(Heard()) && (v.Failure? ==> old(Heard()).GaveUp(Heard()))
      ensures v.Ok? ==> At(Idle) && handled == old(handled) + 1 && reader.commits == old(reader.commits) + [(f.p, f.o)]
      ensures v.Failure? ==> At(Stopped) && handled == old(handled) && reader.commits == old(reader.commits)
      ensures handled - old(handled) == Commits(trace) - Commits(old(trace))
    {
      ghost var before := Heard();
      ghost var answer, subs, workers;
      v, answer, subs, workers := ProcessRecord(f);
      HandledHears(f, before, Heard(), subs, workers, answer, v);
    }

    /** Behind the record: the loop goes on, or ends with it. */
    method Behind(worked: Verdict) returns (v: Verdict, more: bool)
      requires if worked.Ok? then At(Idle) else At(Stopped)
      modifies this`trace, this`stopping, this`ready, ctx
      ensures Heard() == old(Heard()) && Commits(trace) == Commits(old(trace))
      ensures more <==> worked.Ok? && !ctx.cancelled
      ensures (worked.Ok? ==> v.Ok?) && (v.Ok? && worked.Failure? ==> ctx.cancelled)
      ensures if more then At(Idle) else At(Stopped) && stopping && !ready
    {
      v := worked;
      var cancelled := ctx.Err();
      more := v.Ok? && !cancelled;
      if v.Failure? {
        var ended: bool := *;      // the record failed because a context ended
        StopReadiness();
        v := if cancelled && ended then Ok else Failure;
      } else if cancelled {
        trace := Emit(max, trace, Quit);
        StopReadiness();
      }
    }

    /** Handles one record and commits its offset; any failure leaves the loop stopped and the offset alone. */
    method ProcessRecord(f: Fetch)
        returns (v: Verdict, ghost answer: Verdict, ghost subs: seq<int>, ghost workers: seq<W.State>)
      requires max >= 1 && f.Message? && At(Decoding(f.p, f.o))
      modifies this`trace, this`handled, this`delivered, this`deadLettered, reader`commits, reader`asked, dlq
      modifies subscriptions, this`fanOuts
      ensures Handles(f, old(dlq.asked), dlq.asked, old(subscriptions.answers), subscriptions.answers, subs, workers,
                      answer)
      ensures fanOuts == old(fanOuts) + if workers == [] then [] else [workers]
      ensures reader.asked == old(reader.asked) + if answer.Ok? then [((f.p, f.o), v.Ok?)] else []
      ensures v.Ok? ==> answer.Ok?
      ensures v.Ok? ==> At(Idle) && handled == old(handled) + 1 && reader.commits == old(reader.commits) + [(f.p, f.o)]
      ensures v.Failure? ==> At(Stopped) && handled == old(handled) && reader.commits == old(reader.commits)
      ensures handled - old(handled) == Commits(trace) - Commits(old(trace))
    {
      v, subs, workers := Handle(f);
      answer := v;
      if v.Failure? {
        return;
      }
      var committed := reader.CommitMessages(f.p, f.o);
      trace := Emit(max, trace, Committed(committed));
      if !committed {
        v := Failure;
        return;
      }
      handled := handled + 1;
    }

    /** Returning Ok means the offset may be committed: an undecodable record is parked, and of any other every
    planned subscriber has its dead letter, in order; each subscriber counts once, as delivered if a 2xx came
    back.  A failure has written a front of the same letters. */
    method Handle(f: Fetch) returns (v: Verdict, subs: seq<int>, workers: seq<W.State>)
      requires max >= 1 && f.Message? && At(Decoding(f.p, f.o))
      modifies this`trace, this`delivered, this`deadLettered, this`fanOuts, dlq, subscriptions
      ensures fanOuts == old(fanOuts) + if workers == [] then [] else [workers]
      ensures Handles(f, old(dlq.asked), dlq.asked, old(subscriptions.answers), subscriptions.answers, subs, workers, v)
      ensures v.Ok? ==> At(Committing(f.p, f.o, subs, workers)) && |workers| == |subs|
      ensures v.Ok? ==> delivered == old(delivered) + CountIf(workers, Reached)
      ensures v.Ok? ==> delivered + deadLettered == old(delivered) + old(deadLettered) + |subs|
      ensures Planned(subs, workers) && dlq.written <= old(dlq.written) + Due(f, subs, workers)
      ensures v.Ok? ==> dlq.written == old(dlq.written) + Due(f, subs, workers)
      ensures MustRetry(workers) ==> v.Failure? && dlq.written == old(dlq.written)
      ensures MustRetry(workers) ==> delivered == old(delivered) && deadLettered == old(deadLettered)
      ensures v.Failure? ==> At(Stopped)
      ensures Commits(trace) == Commits(old(trace))
    {
      subs, workers := [], [];
      trace := Emit(max, trace, Decoded(f.decodable));
      if !f.decodable {
        v := Park(f.p, f.o);
        return;
      }
      var found := subscriptions.ForTenant();
      if found.None? {
        trace := Emit(max, trace, SubsFailed);
        return Failure, subs, workers;
      }
      subs := found.value;
      trace := Emit(max, trace, SubsFound(subs));
      if |subs| == 0 {
        return Ok, subs, workers;
      }
      workers := Deliver(f.p, f.o, subs);
      v := Finish(f.p, f.o, subs, workers);
    }

    /** An undecodable record goes to the dead-letter topic, or the loop stops. */
    method Park(p: nat, o: nat) returns (v: Verdict)
      requires At(Parking(p, o))
      modifies this`trace, dlq
      ensures dlq.asked == old(dlq.asked) + [(PoisonLetter(p, o), v.Ok?)]
      ensures v.Ok? ==> At(Committing(p, o, [], [])) && dlq.written == old(dlq.written) + [PoisonLetter(p, o)]
      ensures v.Failure? ==> At(Stopped) && dlq.written == old(dlq.written)
      ensures Commits(trace) == Commits(old(trace))
    {
      var parked := dlq.WriteMessages(PoisonLetter(p, o));
      trace := Emit(max, trace, Parked(parked));
      v := if parked then Ok else Failure;
    }

    /** The fan-out: at each turn the scheduler lets any unfinished delivery take one step, until the
    wait group is empty. */
    method Deliver(ghost p: nat, ghost o: nat, subs: seq<int>) returns (workers: seq<W.State>)
      requires max >= 1 && At(FanOut(p, o, subs, seq(|subs|, _ => W.Start)))
      modifies this`trace, this`fanOuts
      ensures |workers| == |subs| && AllDone(workers) && fanOuts == old(fanOuts) + [workers]
      ensures At(FanOut(p, o, subs, workers))
      ensures Commits(trace) == Commits(old(trace))
    {
      workers := seq(|subs|, _ => W.Start);
      while !AllDone(workers)
        invariant |workers| == |subs| && AllBounded(max, workers)
        invariant At(FanOut(p, o, subs, workers)) && fanOuts == old(fanOuts)
        invariant Commits(trace) == Commits(old(trace))
        decreases TotalRank(max, workers)
      {
        var i :| 0 <= i < |workers| && !workers[i].Done?;
        var e := AnyEvent(workers[i]);
        var w := W.Step(max, workers[i], e).value;
        W.StepDescends(max, workers[i], e);
        TotalRankDrops(max, workers, i, w);
        trace := Emit(max, trace, Worked(i, e));
        workers := workers[i := w];
      }
      fanOuts := fanOuts + [workers];
    }

    /** One answer the environment can give a delivery that has not ended. */
    method AnyEvent(w: W.State) returns (e: W.Event)
      requires !w.Done?
      ensures W.Step(max, w, e).Some?
    {
      var a: bool, b: bool := *, *;
      match w {
        case Start => e := W.Begin(a, b);
        case AtTop(_, _) => e := W.Top(a);
        case Awaiting(_) =>
          var reply: W.Reply := *;
          e := W.Replied(reply, a && b, b);
        case Recording(_, _, _, expired) =>
          var result: W.RecordResult := *;
          e := W.Recorded(result, expired || a);
        case Sleeping(_, _) => e := W.Slept(a);
      }
    }

    /** Sorts what the deliveries returned and dead-letters the failures, missing history first. */
    method Finish(p: nat, o: nat, subs: seq<int>, workers: seq<W.State>) returns (v: Verdict)
      requires |workers| == |subs| && AllDone(workers) && At(FanOut(p, o, subs, workers))
      modifies this`trace, this`delivered, this`deadLettered, dlq
      ensures Planned(subs, workers)
      ensures if MustRetry(workers) then v.Failure? && dlq.asked == old(dlq.asked)
              else Asked(old(dlq.asked), dlq.asked, Letters(p, o, subs, Plan(workers)), v.Ok?)
      ensures MustRetry(workers) ==> v.Failure? && dlq.written == old(dlq.written)
      ensures MustRetry(workers) ==> delivered == old(delivered) && deadLettered == old(deadLettered)
      ensures v.Ok? ==> At(Committing(p, o, subs, workers))
      ensures v.Ok? ==> delivered == old(delivered) + CountIf(workers, Reached)
      ensures v.Ok? ==> delivered + deadLettered == old(delivered) + old(deadLettered) + |subs|
      ensures dlq.written <= old(dlq.written) + Letters(p, o, subs, Plan(workers))
      ensures v.Ok? ==> dlq.written == old(dlq.written) + Letters(p, o, subs, Plan(workers))
      ensures v.Failure? ==> At(Stopped)
      ensures Commits(trace) == Commits(old(trace))
    {
      PlanFits(subs, workers);
      var historyMissing, retryErrors := SortErrors(workers);
      trace := Emit(max, trace, Joined);
      if retryErrors > 0 {
        return Failure;
      }
      v := DeadLetterAll(p, o, subs, workers, historyMissing);
    }

    method DeadLetterAll(p: nat, o: nat, subs: seq<int>, workers: seq<W.State>, historyMissing: seq<bool>)
        returns (v: Verdict)
      requires AllDone(workers) && !MustRetry(workers) && IsMissing(workers, historyMissing)
      requires |workers| == |subs| && Planned(subs, workers)
      requires At(Settle(p, o, subs, workers, Plan(workers)))
      modifies this`trace, this`delivered, this`deadLettered, dlq
      ensures Asked(old(dlq.asked), dlq.asked, Letters(p, o, subs, Plan(workers)), v.Ok?)
      ensures v.Ok? ==> At(Committing(p, o, subs, workers))
      ensures v.Ok? ==> delivered == old(delivered) + CountIf(workers, Reached)
      ensures v.Ok? ==> delivered + deadLettered == old(delivered) + old(deadLettered) + |subs|
      ensures dlq.written <= old(dlq.written) + Letters(p, o, subs, Plan(workers))
      ensures v.Ok? ==> dlq.written == old(dlq.written) + Letters(p, o, subs, Plan(workers))
      ensures v.Failure? ==> At(Stopped)
      ensures Commits(trace) == Commits(old(trace))
    {
      LettersOfPlan(p, o, subs, workers);
      ReachedSplits(workers);
      ghost var first, second := Letters(p, o, subs, MissingFrom(workers, 0)),
          Letters(p, o, subs, FailedFrom(workers, 0));
      v := DeadLetterMissing(p, o, subs, workers, historyMissing);
      ghost var middle := dlq.asked;
      Grouped(dlq.written, old(dlq.written), first, second);
      if v.Ok? {
        v := DeadLetterFailed(p, o, subs, workers, historyMissing);
        AskedJoins(old(dlq.asked), middle, dlq.asked, first, second, v.Ok?);
      } else {
        AskedEarly(old(dlq.asked), middle, first, second);
      }
    }

    method SortErrors(workers: seq<W.State>) returns (historyMissing: seq<bool>, retryErrors: nat)
      requires AllDone(workers)
      ensures IsMissing(workers, historyMissing)
      ensures retryErrors > 0 <==> MustRetry(workers)
    {
      historyMissing, retryErrors := [], 0;
      for i := 0 to |workers|
        invariant IsMissing(workers[..i], historyMissing)
        invariant retryErrors > 0 <==> exists k :: 0 <= k < i && workers[k].err.OtherError?
      {
        match workers[i].err {
          case NoError => historyMissing := historyMissing + [false];
          case HistoryMissing => historyMissing := historyMissing + [true];
          case OtherError =>
            historyMissing := historyMissing + [false];
            retryErrors := retryErrors + 1;
        }
      }
      assert workers[..|workers|] == workers;
    }

    /** Writes the letter of subscriber `i`, the next of the `due` ones; `later` are its part's others, and `rest` are
    the plan's. */
    method WriteDeadLetter(p: nat, o: nat, subs: seq<int>, ghost workers: seq<W.State>, i: nat,
                           ghost rest: seq<nat>, ghost later: seq<nat>, ghost due: seq<Letter>,
                           ghost start: seq<(Letter, bool)>, ghost all: seq<Letter>)
        returns (written: bool)
      requires At(Settle(p, o, subs, workers, [i] + rest))
      requires InRange(subs, [i] + later)
      requires |dlq.asked| >= |start| && dlq.asked + Granted(Letters(p, o, subs, [i] + later)) == start + Granted(all)
      modifies this`trace, dlq
      ensures |dlq.asked| >= |start|
      ensures i < |subs| && dlq.written == old(dlq.written) + if written then [SubscriberLetter(p, o, subs[i])] else []
      ensures InRange(subs, later)
      ensures if written then dlq.asked + Granted(Letters(p, o, subs, later)) == start + Granted(all)
              else Asked(start, dlq.asked, all, false)
      ensures old(dlq.written) + Letters(p, o, subs, [i] + later) == due ==>
                dlq.written <= due && (written ==> dlq.written + Letters(p, o, subs, later) == due)
      ensures written ==> At(Settle(p, o, subs, workers, rest))
      ensures !written ==> At(Stopped)
      ensures Commits(trace) == Commits(old(trace))
    {
      TailInRange(subs, i, later);
      LettersSplit(p, o, subs, i, later);
      ghost var before := dlq.asked;
      written := dlq.WriteMessages(SubscriberLetter(p, o, subs[i]));
      AskedNext(start, before, all, SubscriberLetter(p, o, subs[i]), Letters(p, o, subs, later), written);
      trace := Emit(max, trace, DeadLettered(i, written));
      assert ([i] + rest)[1..] == rest;
    }

    method DeadLetterMissing(p: nat, o: nat, subs: seq<int>, workers: seq<W.State>, historyMissing: seq<bool>)
        returns (v: Verdict)
      requires AllDone(workers) && IsMissing(workers, historyMissing) && |workers| == |subs| && Planned(subs, workers)
      requires At(Settle(p, o, subs, workers, Plan(workers)))
      modifies this`trace, this`delivered, this`deadLettered, dlq
      ensures v.Ok? ==> At(Settle(p, o, subs, workers, FailedFrom(workers, 0)))
      ensures v.Ok? ==> delivered == old(delivered) + CountIf(workers, ReachedMissing)
      ensures v.Ok? ==> delivered + deadLettered == old(delivered) + old(deadLettered) + CountTrue(historyMissing)
      ensures Asked(old(dlq.asked), dlq.asked, Letters(p, o, subs, MissingFrom(workers, 0)), v.Ok?)
      ensures dlq.written <= old(dlq.written) + Letters(p, o, subs, MissingFrom(workers, 0))
      ensures v.Ok? ==> dlq.written == old(dlq.written) + Letters(p, o, subs, MissingFrom(workers, 0))
      ensures v.Failure? ==> At(Stopped)
      ensures Commits(trace) == Commits(old(trace))
    {
      ghost var all := Letters(p, o, subs, MissingFrom(workers, 0));
      ghost var due, start := old(dlq.written) + all, dlq.asked;
      for i := 0 to |workers|
        invariant At(Settle(p, o, subs, workers, MissingFrom(workers, i) + FailedFrom(workers, 0)))
        invariant delivered == old(delivered) + CountIf(workers[..i], ReachedMissing)
        invariant delivered + deadLettered == old(delivered) + old(deadLettered) + CountTrue(historyMissing[..i])
        invariant InRange(subs, MissingFrom(workers, i))
                  && dlq.written + Letters(p, o, subs, MissingFrom(workers, i)) == due
        invariant start == old(dlq.asked) && |dlq.asked| >= |start|
        invariant dlq.asked + Granted(Letters(p, o, subs, MissingFrom(workers, i))) == start + Granted(all)
        invariant Commits(trace) == Commits(old(trace))
      {
        CountPrefix(historyMissing, i);
        CountNext(workers, i, ReachedMissing);
        MissingNext(workers, i, FailedFrom(workers, 0));
        ghost var later := MissingFrom(workers, i + 1);
        if !historyMissing[i] {
          continue;
        }
        var written := WriteDeadLetter(p, o, subs, workers, i, later + FailedFrom(workers, 0), later, due, start, all);
        if !written {
          return Failure;
        }
        if workers[i].delivered {
          delivered := delivered + 1;
        } else {
          deadLettered := deadLettered + 1;
        }
      }
      assert historyMissing[..|workers|] == historyMissing && workers[..|workers|] == workers;
      assert MissingFrom(workers, |workers|) + FailedFrom(workers, 0) == FailedFrom(workers, 0);
      v := Ok;
    }

    method DeadLetterFailed(p: nat, o: nat, subs: seq<int>, workers: seq<W.State>, historyMissing: seq<bool>)
        returns (v: Verdict)
      requires AllDone(workers) && !MustRetry(workers) && IsMissing(workers, historyMissing)
      requires |workers| == |subs| && Planned(subs, workers)
      requires At(Settle(p, o, subs, workers, FailedFrom(workers, 0)))
      modifies this`trace, this`delivered, this`deadLettered, dlq
      ensures v.Ok? ==> At(Committing(p, o, subs, workers))
      ensures v.Ok? ==> delivered == old(delivered) + CountIf(workers, ReachedKept)
      ensures v.Ok? ==>
                delivered + deadLettered == old(delivered) + old(deadLettered) + |workers| - CountTrue(historyMissing)
      ensures Asked(old(dlq.asked), dlq.asked, Letters(p, o, subs, FailedFrom(workers, 0)), v.Ok?)
      ensures dlq.written <= old(dlq.written) + Letters(p, o, subs, FailedFrom(workers, 0))
      ensures v.Ok? ==> dlq.written == old(dlq.written) + Letters(p, o, subs, FailedFrom(workers, 0))
      ensures v.Failure? ==> At(Stopped)
      ensures Commits(trace) == Commits(old(trace))
    {
      ghost var all := Letters(p, o, subs, FailedFrom(workers, 0));
      ghost var due, start := old(dlq.written) + all, dlq.asked;
      for i := 0 to |workers|
        invariant At(Settle(p, o, subs, workers, FailedFrom(workers, i)))
        invariant delivered == old(delivered) + CountIf(workers[..i], ReachedKept)
        invariant delivered + deadLettered
               == old(delivered) + old(deadLettered) + i - CountTrue(historyMissing[..i])
        invariant InRange(subs, FailedFrom(workers, i))
                  && dlq.written + Letters(p, o, subs, FailedFrom(workers, i)) == due
        invariant start == old(dlq.asked) && |dlq.asked| >= |start|
        invariant dlq.asked + Granted(Letters(p, o, subs, FailedFrom(workers, i))) == start + Granted(all)
        invariant Commits(trace) == Commits(old(trace))
      {
        CountPrefix(historyMissing, i);
        CountNext(workers, i, ReachedKept);
        FailedNext(workers, i);
        ghost var later := FailedFrom(workers, i + 1);
        if historyMissing[i] {
          continue;
        }
        if workers[i].delivered {
          delivered := delivered + 1;
          continue;
        }
        var written := WriteDeadLetter(p, o, subs, workers, i, later, later, due, start, all);
        if !written {
          return Failure;
        }
        deadLettered := deadLettered + 1;
      }
      assert historyMissing[..|workers|] == historyMissing && workers[..|workers|] == workers;
      v := Ok;
    }
  }

  lemma MissingNext(workers: seq<W.State>, i: nat, rest: seq<nat>)
    requires i < |workers|
    ensures var later := MissingFrom(workers, i + 1);
            if Missing(workers[i]) then
              MissingFrom(workers, i) == [i] + later && MissingFrom(workers, i) + rest == [i] + (later + rest)
            else MissingFrom(workers, i) == later
  {
  }

  lemma FailedNext(workers: seq<W.State>, i: nat)
    requires i < |workers|
    ensures FailedFrom(workers, i) ==
            (if Failed(workers[i]) then [i] + FailedFrom(workers, i + 1) else FailedFrom(workers, i + 1))
  {
  }

  lemma Grouped(x: seq<Letter>, a: seq<Letter>, b: seq<Letter>, c: seq<Letter>)
    ensures a + b + c == a + (b + c)
    ensures x <= a + b ==> x <= a + (b + c)
  {
    if x <= a + b {
      assert x <= a + b + c;
    }
  }

  predicate InRange(subs: seq<int>, plan: seq<nat>) {
    forall k :: k in plan ==> k < |subs|
  }

  /** Both parts of the plan name subscribers. */
  predicate Planned(subs: seq<int>, workers: seq<W.State>) {
    InRange(subs, MissingFrom(workers, 0)) && InRange(subs, FailedFrom(workers, 0)) && InRange(subs, Plan(workers))
  }

  lemma PlanFits(subs: seq<int>, workers: seq<W.State>)
    requires |workers| == |subs|
    ensures Planned(subs, workers)
  {
    forall k | k in Plan(workers) || k in MissingFrom(workers, 0) || k in FailedFrom(workers, 0) ensures k < |subs| {
      MissingFromMembers(workers, 0, k);
      FailedFromMembers(workers, 0, k);
    }
  }

  lemma TailInRange(subs: seq<int>, i: nat, rest: seq<nat>)
    requires InRange(subs, [i] + rest)
    ensures i < |subs| && InRange(subs, rest)
  {
    assert i in [i] + rest;
    forall k | k in rest ensures k < |subs| {
      assert k in [i] + rest;
    }
  }

  lemma LettersOfPlan(p: nat, o: nat, subs: seq<int>, workers: seq<W.State>)
    requires Planned(subs, workers)
    ensures Letters(p, o, subs, Plan(workers)) ==
            Letters(p, o, subs, MissingFrom(workers, 0)) + Letters(p, o, subs, FailedFrom(workers, 0))
  {
  }

  /** The dead letters a record must have before its offset may be committed. */
  function Due(f: Fetch, subs: seq<int>, workers: seq<W.State>): seq<Letter>
    requires f.Message? && Planned(subs, workers)
  {
    if f.decodable then Letters(f.p, f.o, subs, Plan(workers)) else [PoisonLetter(f.p, f.o)]
  }

  /** The first `done` fetches were messages, and they are what was committed since. */
  ghost predicate CommittedFront(feed: seq<Fetch>, done: int, before: seq<(nat, nat)>, after: seq<(nat, nat)>) {
    && 0 <= done <= |feed|
    && (forall i :: 0 <= i < done ==> feed[i].Message?)
    && after == before + Offsets(feed[..done])
  }

  /** Why the loop ended after `fetched` fetches and `handled` records: an error is a failed fetch or a failed record;
  everything else is the context's end, which the reader reports or the loop sees behind a record. */
  ghost predicate EndsBecause(feed: seq<Fetch>, fetched: int, handled: int, v: Verdict, cancelled: bool) {
    && 0 <= handled <= fetched <= |feed|
    && (fetched == handled ==> v.Ok? && (fetched < |feed| ==> cancelled))
    && (fetched > handled ==>
          match feed[fetched - 1]
          case FetchCancelled => v.Ok?
          case FetchFailed => v.Failure?
          case Message(_, _, _) => !cancelled ==> v.Failure?)
  }

  /** The last record fetched was not finished. */
  ghost predicate LastFailed(feed: seq<Fetch>, fetched: int, handled: int) {
    0 <= handled < fetched <= |feed| && feed[fetched - 1].Message?
  }

  lemma FrontGrows(feed: seq<Fetch>, done: nat, before: seq<(nat, nat)>, after: seq<(nat, nat)>)
    requires done < |feed| && feed[done].Message?
    requires exists middle ::
               CommittedFront(feed, done, before, middle) && after == middle + [(feed[done].p, feed[done].o)]
    ensures CommittedFront(feed, done + 1, before, after)
  {
    assert feed[..done + 1] == feed[..done] + [feed[done]];
    assert Offsets(feed[..done + 1]) == Offsets(feed[..done]) + [(feed[done].p, feed[done].o)];
  }

  ghost predicate IsMissing(workers: seq<W.State>, flags: seq<bool>) {
    |flags| == |workers| && forall k :: 0 <= k < |workers| ==> flags[k] == Missing(workers[k])
  }

  function CountTrue(flags: seq<bool>): nat {
    if flags == [] then 0 else CountTrue(flags[..|flags| - 1]) + if flags[|flags| - 1] then 1 else 0
  }

  lemma CountPrefix(flags: seq<bool>, i: nat)
    requires i < |flags|
    ensures CountTrue(flags[..i + 1]) == CountTrue(flags[..i]) + if flags[i] then 1 else 0
  {
    assert flags[..i + 1][..i] == flags[..i];
  }
}
