/** One subscriber's delivery: the attempt loop of services/relay/internal/delivery/deliver.go.

`Step` is the loop as an automaton over what the environment answers: the HTTP reply, the history
write, and every separate read of the record context, which once expired stays expired.  The method
below is the loop itself, proved to follow the automaton; relay.dfy interleaves the same automaton
with every other actor. */
module Worker {
  import opened Common

  datatype AttemptOutcome = Delivered | Retrying | Exhausted | Interrupted

  datatype Reply = Status(code: int) | TransportError {
    predicate Success() { Status? && 200 <= code < 300 }
    function Code(): int { if Status? then code else 0 }
  }

  datatype RecordResult = RecordOk | RecordMissing | RecordFailed

  /** How the caller sorts the returned error: none, history.ErrEventNotFound somewhere in it, or another. */
  datatype DeliverError = NoError | HistoryMissing | OtherError

  datatype State =
    | Start
    | AtTop(n: nat, status: int)
    | Awaiting(n: nat)
    | Recording(n: nat, reply: Reply, outcome: AttemptOutcome, expired: bool)
    | Sleeping(n: nat, status: int)
    | Done(attempts: nat, delivered: bool, status: int, err: DeliverError)

  datatype Event =
    | Begin(writeTimeoutPositive: bool, encodable: bool)
    | Top(expired: bool)
    | Replied(reply: Reply, first: bool, second: bool)   // two reads of the context after the reply
    | Recorded(result: RecordResult, expired: bool)      // the read after the history write
    | Slept(ok: bool)

  function Classify(max: nat, n: nat, reply: Reply, first: bool, second: bool): AttemptOutcome {
    var base := if reply.TransportError? && first then Interrupted
                else if reply.Success() then Delivered
                else Retrying;
    if !reply.Success() && n >= max && !second then Exhausted else base
  }

  function AfterRecord(max: nat, n: nat, reply: Reply, result: RecordResult, expired: bool): State {
    var end := (e: DeliverError) => Done(n, reply.Success(), reply.Code(), e);
    if expired then end(if result.RecordMissing? then HistoryMissing else OtherError)
    else if result.RecordMissing? then end(HistoryMissing)
    else if result.RecordFailed? then end(OtherError)
    else if reply.Success() || n >= max then end(NoError)
    else Sleeping(n, reply.Code())
  }

  function Step(max: nat, w: State, e: Event): Option<State> {
    match (w, e)
    case (Start, Begin(positive, encodable)) =>
      Some(if !positive then Done(0, false, 0, OtherError)
           else if !encodable then Done(0, false, 0, NoError)
           else AtTop(1, 0))
    case (AtTop(n, status), Top(expired)) =>
      Some(if expired then Done(if n > 0 then n - 1 else 0, false, status, OtherError) else Awaiting(n))
    case (Awaiting(n), Replied(reply, first, second)) =>
      if first && !second then None
      else Some(Recording(n, reply, Classify(max, n, reply, first, second), second))
    case (Recording(n, reply, _, was), Recorded(result, expired)) =>
      if was && !expired then None else Some(AfterRecord(max, n, reply, result, expired))
    case (Sleeping(n, status), Slept(ok)) =>
      Some(if ok then AtTop(n + 1, status) else Done(n, false, status, OtherError))
    case _ => None
  }

  function Run(max: nat, trace: seq<Event>): Option<State> {
    if trace == [] then Some(Start)
    else
      match Run(max, trace[..|trace| - 1])
      case None => None
      case Some(w) => Step(max, w, trace[|trace| - 1])
  }

  lemma RunExtends(max: nat, trace: seq<Event>, e: Event)
    ensures Run(max, trace + [e]) ==
            (match Run(max, trace) case None => None case Some(w) => Step(max, w, e))
  {
    assert (trace + [e])[..|trace|] == trace;
  }

  /** The history rows a run made durable, in order: the automaton's state says what was being written. */
  function Rows(max: nat, trace: seq<Event>): seq<AttemptOutcome> {
    if trace == [] then []
    else
      var before := trace[..|trace| - 1];
      var e := trace[|trace| - 1];
      var w := Run(max, before);
      Rows(max, before) + if w.Some? then NewRow(w.value, e) else []
  }

  function NewRow(w: State, e: Event): seq<AttemptOutcome> {
    if e.Recorded? && e.result.RecordOk? && w.Recording? then [w.outcome] else []
  }

  function Repeat(k: nat): (r: seq<AttemptOutcome>)
    ensures |r| == k
  {
    seq(k, _ => Retrying)
  }

  /** What has been written at each point of a run that may still end without an error. */
  ghost predicate Pattern(max: nat, w: State, rows: seq<AttemptOutcome>) {
    match w
    case Start => rows == []
    case AtTop(n, _) => 1 <= n <= max && rows == Repeat(n - 1)
    case Awaiting(n) => 1 <= n <= max && rows == Repeat(n - 1)
    case Recording(n, reply, outcome, expired) =>
      && 1 <= n <= max && rows == Repeat(n - 1)
      && (!expired ==> outcome == if reply.Success() then Delivered else if n < max then Retrying else Exhausted)
    case Sleeping(n, _) => 1 <= n < max && rows == Repeat(n)
    case Done(k, delivered, _, err) =>
      err.NoError? && k > 0 ==>
        && k <= max
        && (!delivered ==> k == max)
        && rows == Repeat(k - 1) + [if delivered then Delivered else Exhausted]
  }

  lemma {:induction false} PatternHolds(max: nat, trace: seq<Event>)
    requires max >= 1 && Run(max, trace).Some?
    ensures Pattern(max, Run(max, trace).value, Rows(max, trace))
  {
    if trace == [] {
    } else {
      var before, e := trace[..|trace| - 1], trace[|trace| - 1];
      PatternHolds(max, before);
      var w := Run(max, before).value;
      if w.Sleeping? {
        assert Repeat(w.n) == Rows(max, before);
      }
      if w.Recording? {
        assert Repeat(w.n) == Repeat(w.n - 1) + [Retrying];
      }
    }
  }

  /** A delivery that returns no error after sending at least one request wrote k - 1 `retrying` rows
  and then one `delivered` or `exhausted` row that agrees with its result; giving up means the whole
  budget was spent. */
  lemma HistoryPattern(max: nat, trace: seq<Event>, k: nat, delivered: bool, status: int)
    requires max >= 1
    requires Run(max, trace) == Some(Done(k, delivered, status, NoError)) && k > 0
    ensures k <= max && (!delivered ==> k == max)
    ensures Rows(max, trace) == Repeat(k - 1) + [if delivered then Delivered else Exhausted]
  {
    PatternHolds(max, trace);
  }

  /** The history reads as the attempt count and the result say: retries, then one row that settles it. */
  ghost predicate ReadsAsReported(max: nat, rows: seq<AttemptOutcome>, k: nat, delivered: bool) {
    && 1 <= k <= max && (!delivered ==> k == max)
    && rows == Repeat(k - 1) + [if delivered then Delivered else Exhausted]
  }

  /** The last request's answers: its row was written, and it either got a 2xx or used up the budget while the
  context still stood at the second read after the reply. */
  predicate LastAnswersSettle(max: nat, trace: seq<Event>, k: nat) {
    && |trace| >= 2
    && var reply, written := trace[|trace| - 2], trace[|trace| - 1];
       && written.Recorded? && written.result.RecordOk? && reply.Replied?
       && ((reply.reply.Status? && 200 <= reply.reply.code <= 299) || (k == max && !reply.second))
  }

  /** Whatever a finished delivery returns, its rows show the pattern exactly when its last answers settle it.  An
  error alone decides nothing: a 2xx row is in place although the context expired after it. */
  lemma HistoryPatternIff(max: nat, trace: seq<Event>, k: nat, delivered: bool, status: int, err: DeliverError)
    requires max >= 1 && Run(max, trace) == Some(Done(k, delivered, status, err))
    ensures ReadsAsReported(max, Rows(max, trace), k, delivered) <==> LastAnswersSettle(max, trace, k)
  {
    var before := trace[..|trace| - 1];
    PatternHolds(max, before);
    if Run(max, before).value.Recording? {
      RecordedIff(max, trace, k, delivered, status, err);
    } else {
      OnlyRetries(k, delivered);
    }
  }

  /** The same for a delivery that ended with a history write. */
  lemma RecordedIff(max: nat, trace: seq<Event>, k: nat, delivered: bool, status: int, err: DeliverError)
    requires max >= 1 && trace != [] && Run(max, trace) == Some(Done(k, delivered, status, err))
    requires var w := Run(max, trace[..|trace| - 1]); w.Some? && w.value.Recording?
    ensures ReadsAsReported(max, Rows(max, trace), k, delivered) <==> LastAnswersSettle(max, trace, k)
  {
    var before, e := trace[..|trace| - 1], trace[|trace| - 1];
    var w, rows := Run(max, before).value, Rows(max, before);
    PatternHolds(max, before);
    assert w.n == k && rows == Repeat(k - 1);
    RepliedBefore(max, before);
    assert before[|before| - 1] == trace[|trace| - 2];
    LastRowDecides(rows, w.outcome, if delivered then Delivered else Exhausted);
  }

  /** What is being recorded was decided by the reply just before. */
  lemma RepliedBefore(max: nat, before: seq<Event>)
    requires before != [] && Run(max, before).Some? && Run(max, before).value.Recording?
    ensures var w, e := Run(max, before).value, before[|before| - 1];
            e.Replied? && w.reply == e.reply && w.outcome == Classify(max, w.n, e.reply, e.first, e.second)
  {
  }

  lemma LastRowDecides(rows: seq<AttemptOutcome>, a: AttemptOutcome, b: AttemptOutcome)
    ensures rows + [a] == rows + [b] <==> a == b
  {
    assert (rows + [a])[|rows|] == a && (rows + [b])[|rows|] == b;
  }

  /** Retries alone are never the pattern. */
  lemma OnlyRetries(k: nat, delivered: bool)
    ensures k > 0 ==> Repeat(k) != Repeat(k - 1) + [if delivered then Delivered else Exhausted]
  {
    if k > 0 {
      assert Repeat(k)[k - 1] == Retrying;
    }
  }

  /** However a run goes, with or without an error, only its last row can be other than `retrying`. */
  lemma {:induction false} OnlyTheLastRowDiffers(max: nat, trace: seq<Event>)
    requires max >= 1 && Run(max, trace).Some?
    ensures forall i :: 0 <= i < |Rows(max, trace)| - 1 ==> Rows(max, trace)[i] == Retrying
  {
    if trace == [] {
    } else {
      var before := trace[..|trace| - 1];
      OnlyTheLastRowDiffers(max, before);
      PatternHolds(max, before);
    }
  }

  /** Without the no-error condition the pattern is false: a non-2xx last attempt whose context has
  expired by the second read is written as `retrying`. */
  lemma LastAttemptCanReadRetrying()
    ensures var trace := [Begin(true, true), Top(false), Replied(Status(500), false, true), Recorded(RecordOk, true)];
            Run(1, trace) == Some(Done(1, false, 500, OtherError)) && Rows(1, trace) == [Retrying]
  {
    var trace := [Begin(true, true), Top(false), Replied(Status(500), false, true), Recorded(RecordOk, true)];
    assert trace[..3][..2] == trace[..2] && trace[..2][..1] == trace[..1] && trace[..1][..0] == [];
    assert Run(1, trace[..1]) == Some(AtTop(1, 0));
    assert Run(1, trace[..2]) == Some(Awaiting(1));
    assert Run(1, trace[..3]) == Some(Recording(1, Status(500), Retrying, true));
    assert Rows(1, trace[..1]) == [];
    assert Rows(1, trace[..2]) == [];
    assert Rows(1, trace[..3]) == [];
  }

  /** The context is never seen expired, and still the delivery returns an error: it was given no time to write
  interrupted attempts, or its history could not be written. */
  lemma ErrorsWithoutExpiry()
    ensures Run(1, [Begin(false, true)]) == Some(Done(0, false, 0, OtherError))
    ensures var reply := Replied(Status(200), false, false);
            var trace := [Begin(true, true), Top(false), reply, Recorded(RecordFailed, false)];
            Run(1, trace) == Some(Done(1, true, 200, OtherError))
  {
    var trace := [Begin(true, true), Top(false), Replied(Status(200), false, false), Recorded(RecordFailed, false)];
    assert trace[..3][..2] == trace[..2] && trace[..2][..1] == trace[..1] && trace[..1][..0] == [];
    assert Run(1, trace[..1]) == Some(AtTop(1, 0));
    assert Run(1, trace[..2]) == Some(Awaiting(1));
    assert Run(1, trace[..3]) == Some(Recording(1, Status(200), Delivered, false));
  }

  /** Where the context expired, a read of it or the sleep said so. */
  predicate SawExpiry(e: Event) {
    match e
    case Top(expired) => expired
    case Recorded(_, expired) => expired
    case Slept(ok) => !ok
    case _ => false
  }

  /** What ends a delivery with an error, exactly: no time for interrupted writes, an expired context, or a history
  write that did not succeed. */
  lemma ErrorIff(max: nat, w: State, e: Event, w': State)
    requires Step(max, w, e) == Some(w') && w'.Done?
    ensures !w'.err.NoError? <==>
            (e.Begin? && !e.writeTimeoutPositive) || SawExpiry(e) || (e.Recorded? && !e.result.RecordOk?)
  {
  }

  /** A 2xx reply is reported delivered without error only after its `delivered` row is durable. */
  lemma DeliveredIsDurable(max: nat, w: State, e: Event, w': State)
    requires Step(max, w, e) == Some(w')
    requires w'.Done? && w'.delivered && w'.err.NoError?
    ensures w.Recording? && e.Recorded? && e.result.RecordOk? && !e.expired
    ensures w.reply.Success() && 200 <= w.reply.code < 300
  {
  }

  /** Every event strictly lowers this, so a delivery always ends. */
  function Rank(max: nat, w: State): nat {
    match w
    case Start => 4 * max + 5
    case AtTop(n, _) => if n > max then 1 else 4 * (max - n) + 4
    case Awaiting(n) => if n > max then 1 else 4 * (max - n) + 3
    case Recording(n, _, _, _) => if n > max then 1 else 4 * (max - n) + 2
    case Sleeping(n, _) => if n > max then 1 else 4 * (max - n) + 1
    case Done(_, _, _, _) => 0
  }

  ghost predicate Bounded(max: nat, w: State) {
    match w
    case Start => true
    case AtTop(n, _) => 1 <= n <= max
    case Awaiting(n) => 1 <= n <= max
    case Recording(n, _, _, _) => 1 <= n <= max
    case Sleeping(n, _) => 1 <= n < max
    case Done(k, _, _, _) => k <= max
  }

  lemma StepDescends(max: nat, w: State, e: Event)
    requires max >= 1 && Bounded(max, w) && Step(max, w, e).Some?
    ensures Bounded(max, Step(max, w, e).value)
    ensures Rank(max, Step(max, w, e).value) < Rank(max, w)
  {
  }
}

module Deliverer {
  import opened Common
  import opened Schedule
  import opened Worker

  /** What a delivery asks for, with the answer it gets. */
  datatype Happening =
    | Read(expired: bool)
    | Posted(reply: Reply)
    | Wrote(number: nat, reply: Reply, outcome: AttemptOutcome, result: RecordResult)
    | Waited(wait: nat, interrupted: bool)

  /** The record's context: nothing ever brings it back once it has expired.  It goes along with everything that is
  done for the record, so it also keeps the log. */
  class RecordContext {
    var expired: bool
    ghost var log: seq<Happening>

    constructor ()
      ensures !expired && log == []
    {
      expired := false;
      log := [];
    }

    method Err() returns (e: bool)
      modifies this
      ensures e == expired && (old(expired) ==> expired) && log == old(log) + [Read(e)]
    {
      var lapses: bool := *;
      expired := expired || lapses;
      e := expired;
      log := log + [Read(e)];
    }
  }

  datatype Outcome = Outcome(attempts: nat, delivered: bool, lastStatus: int)

  /** A subscriber's endpoint; every request it is sent is counted. */
  class Endpoint {
    var posts: nat

    constructor ()
      ensures posts == 0
    {
      posts := 0;
    }

    method Post(timeout: nat, ctx: RecordContext) returns (reply: Reply, took: nat)
      modifies this, ctx`log
      ensures took <= timeout && posts == old(posts) + 1 && ctx.log == old(ctx.log) + [Posted(reply)]
    {
      var responded: bool := *;
      var code: int := *;
      reply := if responded then Status(code) else TransportError;
      took :| took <= timeout;
      posts := posts + 1;
      ctx.log := ctx.log + [Posted(reply)];
    }
  }

  /** The attempt history; a row is durable once its write has reported success. */
  class History {
    var writes: nat
    var rows: seq<AttemptOutcome>

    constructor ()
      ensures writes == 0 && rows == []
    {
      writes, rows := 0, [];
    }

    method RecordAttempt(number: nat, reply: Reply, outcome: AttemptOutcome, ctx: RecordContext)
        returns (result: RecordResult)
      modifies this, ctx`log
      ensures writes == old(writes) + 1 && ctx.log == old(ctx.log) + [Wrote(number, reply, outcome, result)]
      ensures rows == old(rows) + if result.RecordOk? then [outcome] else []
    {
      result := *;
      writes := writes + 1;
      if result.RecordOk? {
        rows := rows + [outcome];
      }
      ctx.log := ctx.log + [Wrote(number, reply, outcome, result)];
    }
  }

  // What a delivery does, request by request

  /** One request, the row written about it and the wait behind it, if any, with every answer.  The context is asked
  twice before the write, each time only if it matters. */
  datatype Request = Request(
    number: nat, reply: Reply, first: Option<bool>, second: Option<bool>, outcome: AttemptOutcome,
    result: RecordResult, after: bool, wait: Option<nat>, interrupted: bool)
  {
    predicate Acknowledged() { reply.Status? && 200 <= reply.code <= 299 }

    /** Another request follows, if the context is still there. */
    predicate Retried() { wait.Some? && !interrupted }

    function Reports(attempts: nat): Outcome {
      Outcome(attempts, Acknowledged(), if reply.Status? then reply.code else 0)
    }

    /** The error returned where nothing follows. */
    function Failure(): DeliverError {
      if result.RecordMissing? then HistoryMissing
      else if result.RecordFailed? || after || interrupted then OtherError
      else NoError
    }

    ghost function Answers(): seq<Happening> {
      [Posted(reply)] + AsRead(first) + AsRead(second) + [Wrote(number, reply, outcome, result), Read(after)]
    }

    /** All that follows the check of the context which lets a request go out. */
    ghost function Rest(): seq<Happening> {
      Answers() + if wait.Some? then [Waited(wait.value, interrupted)] else []
    }

    /** When the context is read, and the row that is written. */
    ghost predicate Classified(willRetry: bool) {
      && (first.Some? <==> reply.TransportError?)
      && (second.Some? <==> !Acknowledged() && !willRetry)
      && outcome == (
           if Acknowledged() then AttemptOutcome.Delivered
           else if second == Some(false) then Exhausted
           else if first == Some(true) then Interrupted
           else Retrying)
    }
  }

  ghost function AsRead(expired: Option<bool>): seq<Happening> {
    if expired.Some? then [Read(expired.value)] else []
  }

  ghost function AllHappenings(asked: seq<Request>): seq<Happening> {
    if asked == [] then []
    else AllHappenings(asked[..|asked| - 1]) + ([Read(false)] + asked[|asked| - 1].Rest())
  }

  /** What the source makes of the answers to the request with `i` before it: the row it writes, and whether and how
  long it waits. */
  ghost predicate Answered(s: RetrySchedule, i: nat, q: Request) {
    && q.number == i + 1 && q.Classified(i < |s.delays|)
    && (q.wait.Some? <==> !q.Acknowledged() && !q.after && q.result.RecordOk? && i < |s.delays|)
    && (q.wait.Some? ==>
          && s.delays[i] / 2 <= q.wait.value <= s.delays[i]
          && (!s.jitter ==> q.wait.value == s.delays[i]))
  }

  ghost predicate AllAnswered(s: RetrySchedule, asked: seq<Request>) {
    && (forall i :: 0 <= i < |asked| ==> Answered(s, i, asked[i]))
    && (forall i :: 0 <= i < |asked| - 1 ==> asked[i].Retried())
  }

  /** What is reported of the requests made; `cut` says the context was gone before another one. */
  ghost predicate Reported(asked: seq<Request>, cut: bool, out: Outcome, err: DeliverError) {
    if asked == [] then cut && out == Outcome(0, false, 0) && err.OtherError?
    else
      var q := asked[|asked| - 1];
      && (cut <==> q.Retried()) && out == q.Reports(|asked|)
      && err == if cut then OtherError else q.Failure()
  }

  /** Another pass is due. */
  ghost predicate GoesOn(s: RetrySchedule, asked: seq<Request>, out: Outcome) {
    && AllAnswered(s, asked)
    && if asked == [] then out == Outcome(0, false, 0)
       else asked[|asked| - 1].Retried() && out == asked[|asked| - 1].Reports(|asked|)
  }

  lemma LogExtends(log: seq<Happening>, now: seq<Happening>, asked: seq<Request>, q: Request)
    requires now == log + AllHappenings(asked) + [Read(false)] + q.Rest()
    ensures now == log + AllHappenings(asked + [q])
  {
    assert (asked + [q])[..|asked|] == asked;
    Associates(log, AllHappenings(asked), [Read(false)], q.Rest());
  }

  lemma Associates<T>(a: seq<T>, b: seq<T>, c: seq<T>, d: seq<T>)
    ensures a + b + c + d == a + (b + (c + d))
  {
  }

  lemma OneMoreRequest(s: RetrySchedule, asked: seq<Request>, q: Request)
    requires AllAnswered(s, asked) && Answered(s, |asked|, q) && (asked != [] ==> asked[|asked| - 1].Retried())
    ensures AllAnswered(s, asked + [q])
  {
    var all := asked + [q];
    forall i | 0 <= i < |all| ensures Answered(s, i, all[i]) {
      if i < |asked| {
        assert all[i] == asked[i];
      } else {
        assert all[i] == q;
      }
    }
    forall i | 0 <= i < |all| - 1 ensures all[i].Retried() {
      assert all[i] == asked[i];
    }
  }

  /** A pass either leaves another one due or ends in its report. */
  lemma OneMorePass(s: RetrySchedule, asked: seq<Request>, out: Outcome, q: Request, log: seq<Happening>,
                    now: seq<Happening>)
    requires GoesOn(s, asked, out) && Answered(s, |asked|, q)
    requires now == log + AllHappenings(asked) + [Read(false)] + q.Rest()
    ensures now == log + AllHappenings(asked + [q])
    ensures q.Retried() ==> GoesOn(s, asked + [q], q.Reports(|asked| + 1))
    ensures !q.Retried() ==>
              AllAnswered(s, asked + [q]) && Reported(asked + [q], false, q.Reports(|asked| + 1), q.Failure())
  {
    OneMoreRequest(s, asked, q);
    LogExtends(log, now, asked, q);
  }

  lemma SpentFits(s: RetrySchedule, timeout: nat, attempt: nat, elapsed: nat, spent: nat)
    requires 1 <= attempt <= s.MaxAttempts() && elapsed <= Used(s, timeout, attempt - 1)
    requires spent <= timeout + (if attempt <= |s.delays| then s.delays[attempt - 1] else 0)
    ensures elapsed + spent <= WorstCase(s, timeout)
    ensures attempt <= |s.delays| ==> elapsed + spent <= Used(s, timeout, attempt)
  {
    UsedWithinWorstCase(s, timeout, attempt - 1);
    if attempt <= |s.delays| {
      UsedWithinWorstCase(s, timeout, attempt);
    }
  }

  method AnyFraction() returns (frac: real)
    ensures 0.0 <= frac < 1.0
  {
    frac :| 0.0 <= frac < 1.0;
  }

  /** One request and what it is taken for, with the reads of the context that this takes. */
  method Send(ghost max: nat, attempt: nat, willRetry: bool, timeout: nat, ctx: RecordContext, to: Endpoint)
      returns (reply: Reply, took: nat, outcome: AttemptOutcome, ghost first: bool, ghost second: bool,
               ghost read: Option<bool>, ghost reread: Option<bool>)
    requires willRetry <==> attempt < max
    modifies ctx, to
    ensures to.posts == old(to.posts) + 1 && took <= timeout && second == ctx.expired
    ensures (old(ctx.expired) ==> first) && (first ==> second)
    ensures outcome == Classify(max, attempt, reply, first, second)
    ensures ctx.log == old(ctx.log) + [Posted(reply)] + AsRead(read) + AsRead(reread)
    ensures Request(attempt, reply, read, reread, outcome, RecordOk, false, None, false).Classified(willRetry)
  {
    reply, took := to.Post(timeout, ctx);
    outcome := Retrying;
    var delivered := false;
    read, reread := None, None;
    match reply {
      case TransportError =>
        var expired := ctx.Err();
        read := Some(expired);
        if expired {
          outcome := Interrupted;
        }
      case Status(code) =>
        if 200 <= code < 300 {
          delivered := true;
          outcome := AttemptOutcome.Delivered;
        }
    }
    first := ctx.expired;
    if !delivered && !willRetry {
      var expired := ctx.Err();
      reread := Some(expired);
      if !expired {
        outcome := Exhausted;
      }
    }
    second := ctx.expired;
  }

  /** One request and its history row, from the reply to the read of the context after the write. */
  method Attempt(ghost max: nat, attempt: nat, willRetry: bool, timeout: nat, ctx: RecordContext, to: Endpoint,
                 history: History)
      returns (reply: Reply, took: nat, result: RecordResult, after: bool, ghost first: bool, ghost second: bool,
               ghost q: Request)
    requires willRetry <==> attempt < max
    modifies ctx, to, history
    ensures to.posts == old(to.posts) + 1 && history.writes == old(history.writes) + 1
    ensures history.rows == old(history.rows) +
                            if result.RecordOk? then [Classify(max, attempt, reply, first, second)] else []
    ensures took <= timeout && after == ctx.expired && (old(ctx.expired) ==> after)
    ensures var mid := Step(max, Awaiting(attempt), Replied(reply, first, second));
            && mid.Some?
            && Step(max, mid.value, Recorded(result, after)) == Some(AfterRecord(max, attempt, reply, result, after))
    ensures q == Request(attempt, reply, q.first, q.second, q.outcome, result, after, None, false)
    ensures q.Classified(willRetry) && ctx.log == old(ctx.log) + q.Answers()
  {
    var outcome;
    ghost var read, reread;
    reply, took, outcome, first, second, read, reread := Send(max, attempt, willRetry, timeout, ctx, to);
    result := history.RecordAttempt(attempt, reply, outcome, ctx);
    after := ctx.Err();
    q := Request(attempt, reply, read, reread, outcome, result, after, None, false);
  }

  lemma Regroup(a: seq<AttemptOutcome>, b: seq<AttemptOutcome>, c: seq<AttemptOutcome>)
    ensures a + b + c == a + (b + c)
  {
  }

  /** Waits, or is cut short by the end of the context. */
  method Sleep(wait: nat, ctx: RecordContext) returns (interrupted: bool, slept: nat)
    modifies ctx
    ensures slept <= wait && (!interrupted ==> slept == wait) && interrupted == ctx.expired
    ensures old(ctx.expired) ==> ctx.expired
    ensures ctx.log == old(ctx.log) + [Waited(wait, interrupted)]
  {
    var lapses: bool := *;
    ctx.expired := ctx.expired || lapses;
    interrupted := ctx.expired;
    slept :| slept <= wait && (!interrupted ==> slept == wait);
    ctx.log := ctx.log + [Waited(wait, interrupted)];
  }

  /** One turn behind the check of the context: the automaton goes from waiting to what follows the history
  write, and a history of `base` and the run's rows becomes one of `base` and the longer run's. */
  method Turn(s: RetrySchedule, attempt: nat, timeout: nat, ctx: RecordContext, to: Endpoint, history: History,
              ghost base: seq<AttemptOutcome>, ghost before: seq<Event>)
      returns (retry: Option<nat>, reply: Reply, took: nat, result: RecordResult, after: bool, ghost trace: seq<Event>,
               ghost q: Request)
    requires 1 <= attempt <= s.MaxAttempts() && Run(s.MaxAttempts(), before) == Some(Awaiting(attempt))
    modifies ctx, to, history
    ensures retry.Some? <==> attempt <= |s.delays|
    ensures retry.Some? ==> s.delays[attempt - 1] / 2 <= retry.value <= s.delays[attempt - 1]
    ensures retry.Some? && !s.jitter ==> retry.value == s.delays[attempt - 1]
    ensures q == Request(attempt, reply, q.first, q.second, q.outcome, result, after, None, false)
    ensures q.Classified(attempt <= |s.delays|) && ctx.log == old(ctx.log) + q.Answers()
    ensures took <= timeout && after == ctx.expired && (old(ctx.expired) ==> after)
    ensures Run(s.MaxAttempts(), trace) == Some(AfterRecord(s.MaxAttempts(), attempt, reply, result, after))
    ensures old(history.rows) == base + Rows(s.MaxAttempts(), before) ==>
            history.rows == base + Rows(s.MaxAttempts(), trace)
    ensures to.posts == old(to.posts) + 1 && history.writes == old(history.writes) + 1
  {
    ghost var max := s.MaxAttempts();
    var frac := AnyFraction();
    retry := DelayFor(s, attempt, frac);
    ghost var first, second;
    reply, took, result, after, first, second, q := Attempt(max, attempt, retry.Some?, timeout, ctx, to, history);
    trace := Emit(max, before, Awaiting(attempt), Replied(reply, first, second));
    ghost var outcome := Classify(max, attempt, reply, first, second);
    trace := Emit(max, trace, Recording(attempt, reply, outcome, second), Recorded(result, after));
    Regroup(base, Rows(max, before), if result.RecordOk? then [outcome] else []);
  }

  /** One pass of the loop behind the check of the context.  None says that the loop goes on. */
  method Try(s: RetrySchedule, attempt: nat, timeout: nat, ctx: RecordContext, to: Endpoint, history: History,
             ghost base: seq<AttemptOutcome>, ghost before: seq<Event>)
      returns (out: Outcome, end: Option<DeliverError>, spent: nat, ghost trace: seq<Event>, ghost q: Request)
    requires 1 <= attempt <= s.MaxAttempts() && Run(s.MaxAttempts(), before) == Some(Awaiting(attempt))
    modifies ctx, to, history
    ensures old(ctx.expired) ==> ctx.expired
    ensures spent <= timeout + (if attempt <= |s.delays| then s.delays[attempt - 1] else 0)
    ensures Run(s.MaxAttempts(), trace) == Some(
              if end.Some? then Done(attempt, out.delivered, out.lastStatus, end.value)
              else AtTop(attempt + 1, out.lastStatus))
    ensures old(history.rows) == base + Rows(s.MaxAttempts(), before) ==>
              history.rows == base + Rows(s.MaxAttempts(), trace)
    ensures to.posts == old(to.posts) + 1 && history.writes == old(history.writes) + 1
    ensures ctx.log == old(ctx.log) + q.Rest()
    ensures Answered(s, attempt - 1, q) && (end.None? <==> q.Retried()) && out == q.Reports(attempt)
    ensures end.Some? ==> end.value == q.Failure()
    ensures end.None? ==> attempt <= |s.delays|
  {
    var retry, reply, took, result, after;
    retry, reply, took, result, after, trace, q := Turn(s, attempt, timeout, ctx, to, history, base, before);
    spent := took;
    out := Outcome(attempt, reply.Success(), reply.Code());
    if after || !result.RecordOk? {
      return out, Some(if result.RecordMissing? then HistoryMissing else OtherError), spent, trace, q;
    }
    if out.delivered {
      return out, Some(NoError), spent, trace, q;
    }
    if retry.None? {
      return out, Some(NoError), spent, trace, q;
    }
    var interrupted, slept := Sleep(retry.value, ctx);
    spent := spent + slept;
    trace := Emit(s.MaxAttempts(), trace, Sleeping(attempt, out.lastStatus), Slept(!interrupted));
    q := q.(wait := retry, interrupted := interrupted);
    end := if interrupted then Some(OtherError) else None;
  }

  /** The attempt loop.  Whatever the environment answers, what it did is a run of the automaton that
  ends in the state it returns: one request and one history write for each attempt it reports, and the
  run's rows added to the history.  The log says the same of each answer it got.  The requests and waits stay inside
  the schedule's worst case. */
  method Deliver(s: RetrySchedule, timeout: nat, writeTimeout: int, encodable: bool, ctx: RecordContext, to: Endpoint,
                 history: History)
      returns (out: Outcome, err: DeliverError, elapsed: nat, ghost trace: seq<Event>, ghost asked: seq<Request>,
               ghost cut: bool)
    modifies ctx, to, history
    ensures old(ctx.expired) ==> ctx.expired
    ensures to.posts == old(to.posts) + out.attempts && history.writes == old(history.writes) + out.attempts
    ensures history.rows == old(history.rows) + Rows(s.MaxAttempts(), trace)
    ensures Run(s.MaxAttempts(), trace) == Some(Done(out.attempts, out.delivered, out.lastStatus, err))
    ensures elapsed <= WorstCase(s, timeout)
    ensures writeTimeout <= 0 || !encodable ==>
              && ctx.log == old(ctx.log) && out == Outcome(0, false, 0)
              && err == if writeTimeout <= 0 then OtherError else NoError
    ensures writeTimeout > 0 && encodable ==>
              && ctx.log == old(ctx.log) + AllHappenings(asked) + (if cut then [Read(true)] else [])
              && AllAnswered(s, asked) && Reported(asked, cut, out, err)
  {
    ghost var max, base := s.MaxAttempts(), history.rows;
    out, err, elapsed := Outcome(0, false, 0), OtherError, 0;
    asked, cut := [], false;
    trace := Emit(max, [], Start, Begin(writeTimeout > 0, encodable));
    if writeTimeout <= 0 {
      return;
    }
    if !encodable {
      err := NoError;
      return;
    }
    for attempt := 1 to s.MaxAttempts() + 1
      invariant old(ctx.expired) ==> ctx.expired
      invariant attempt <= max
      invariant Run(max, trace) == Some(AtTop(attempt, out.lastStatus))
      invariant elapsed <= Used(s, timeout, attempt - 1)
      invariant to.posts == old(to.posts) + out.attempts && history.writes == old(history.writes) + out.attempts
      invariant base == old(history.rows) && history.rows == base + Rows(max, trace)
      invariant GoesOn(s, asked, out) && out.attempts == attempt - 1
      invariant ctx.log == old(ctx.log) + AllHappenings(asked)
    {
      var expired := ctx.Err();
      trace := Emit(max, trace, AtTop(attempt, out.lastStatus), Top(expired));
      if expired {
        UsedWithinWorstCase(s, timeout, attempt - 1);
        return out, OtherError, elapsed, trace, asked, true;
      }

      var end, spent;
      ghost var q;
      ghost var was := out;
      out, end, spent, trace, q := Try(s, attempt, timeout, ctx, to, history, base, trace);
      OneMorePass(s, asked, was, q, old(ctx.log), ctx.log);
      SpentFits(s, timeout, attempt, elapsed, spent);
      elapsed := elapsed + spent;
      asked := asked + [q];
      if end.Some? {
        return out, end.value, elapsed, trace, asked, false;
      }
    }
    assert false;
  }

  /** Appends an event and states what the automaton makes of it. */
  ghost function Emit(max: nat, trace: seq<Event>, w: State, e: Event): (r: seq<Event>)
    ensures r == trace + [e]
    ensures Run(max, trace) == Some(w) ==>
            Run(max, r) == Step(max, w, e) && Rows(max, r) == Rows(max, trace) + NewRow(w, e)
  {
    RunExtends(max, trace, e);
    assert (trace + [e])[..|trace|] == trace;
    trace + [e]
  }

  /** The most that `n` failed attempts and the waits after them can take. */
  ghost function Used(s: RetrySchedule, timeout: nat, n: nat): nat
    requires n <= |s.delays|
  {
    if n == 0 then 0 else Used(s, timeout, n - 1) + timeout + s.delays[n - 1]
  }

  lemma {:induction false} UsedIsSum(s: RetrySchedule, timeout: nat, n: nat)
    requires n <= |s.delays|
    ensures Used(s, timeout, n) == Sum(s.delays[..n]) + n * timeout
  {
    if n == 0 {
    } else {
      UsedIsSum(s, timeout, n - 1);
      assert s.delays[..n][..n - 1] == s.delays[..n - 1];
      assert n * timeout == (n - 1) * timeout + timeout;
    }
  }

  lemma {:induction false} UsedGrows(s: RetrySchedule, timeout: nat, n: nat, m: nat)
    requires n <= m <= |s.delays|
    ensures Used(s, timeout, n) <= Used(s, timeout, m)
    decreases m
  {
    if n >= m {
    } else {
      UsedGrows(s, timeout, n, m - 1);
    }
  }

  lemma UsedWithinWorstCase(s: RetrySchedule, timeout: nat, n: nat)
    requires n <= |s.delays|
    ensures Used(s, timeout, n) + timeout <= WorstCase(s, timeout)
  {
    var m := |s.delays|;
    UsedGrows(s, timeout, n, m);
    UsedIsSum(s, timeout, m);
    assert s.delays[..m] == s.delays;
    assert (m + 1) * timeout == m * timeout + timeout;
  }

  /** The slowest of a record's concurrent deliveries. */
  function Slowest(elapsed: seq<nat>): nat {
    if elapsed == [] then 0
    else var rest := Slowest(elapsed[1..]); if elapsed[0] > rest then elapsed[0] else rest
  }

  /** A schedule the start-up check accepts, and that fits in int64, keeps a record with any number of
  subscribers strictly under the stall budget. */
  lemma {:induction false} FanOutUnderBudget(s: RetrySchedule, budget: int, timeout: int, elapsed: seq<nat>)
    requires ValidateStallBudget(s, budget, timeout).Accepted?
    requires WorstCase(s, timeout) <= MAX_INT64
    requires forall i :: 0 <= i < |elapsed| ==> elapsed[i] <= WorstCase(s, timeout)
    ensures Slowest(elapsed) < budget
  {
    ValidateIsExact(s, budget, timeout);
    if elapsed == [] {
    } else {
      FanOutUnderBudget(s, budget, timeout, elapsed[1..]);
    }
  }
}
