/** The live-run controller of tools/m4-live-run/main.go: apply, wait, destroy, verify. */
module Controller {
  import opened Common
  import opened Processes
  import opened Verdict

  const POLL := 1_000
  const APPLY_INTERRUPT_GRACE := 30_000
  const APPLY_TERMINATE_GRACE := 10_000
  const APPLY_KILL_GRACE := 5_000
  const DESTROY_ATTEMPTS := 3
  const IDENTITY_ATTEMPTS := 3
  const INVENTORY_ATTEMPTS := 3

  datatype Escalation = Escalation(next: Option<Signal>, wait: nat)

  function EscalationAfter(s: Signal): Escalation {
    match s
    case Interrupt => Escalation(Some(Terminate), APPLY_INTERRUPT_GRACE)
    case Terminate => Escalation(Some(Signal.Kill), APPLY_TERMINATE_GRACE)
    case Kill => Escalation(None, APPLY_KILL_GRACE)
  }

  const LADDER: seq<Signal> := [Interrupt, Terminate, Signal.Kill]

  datatype StopReason = NoReason | DestroyDeadline | Received | StateWriteFailed | Requested | ControllerError
                      | ApplyFailed | OperatorStop | ProcessUnconfirmed

  /** What a look for a stop request finds: none, one for this run, one for another, or a file that cannot be read. */
  datatype Look = NoRequest | Bound(named: bool) | Unbound | Unreadable

  datatype ExecutionResult = ExecutionResult(status: int, confirmed: bool)

  class Controller {
    const runId: string
    const commit: string
    const executor: Executor
    const machine: Machine
    var state: Verdict.State
    var stopReason: StopReason
    /** Every state that reached the disk, in order; the last is what the file holds. */
    ghost var written: seq<Verdict.State>
    ghost var lastWrite: Write
    /** Signals requested of the apply, and how often destroy was run. */
    ghost var requested: seq<Signal>
    ghost var destroyRuns: nat
    /** How many writes of the state have failed, and of them the heartbeats since the cleanup began. */
    ghost var lost: nat
    ghost var missed: nat
    /** How many operations on the cleanup transcript have failed. */
    ghost var garbled: nat
    /** What the log deletion, the file for the cost, the account receipt and each account lookup answered. */
    ghost var logsDeleted: Option<bool>
    ghost var costOpened: Option<bool>
    ghost var costClosed: Option<bool>
    ghost var receiptRead: Option<bool>
    ghost var accounts: seq<Option<bool>>
    /** How many signals were received, and what each look for a stop request found. */
    ghost var received: nat
    ghost var looks: seq<Look>

    constructor (runId: string, commit: string, executor: Executor)
      requires executor.Valid() && executor.child == None
      ensures this.runId == runId && this.commit == commit && this.executor == executor
      ensures machine == executor.machine
      ensures Ready() && written == [] && requested == [] && destroyRuns == 0
    {
      this.runId, this.commit, this.executor, this.machine := runId, commit, executor, executor.machine;
      state := NewState(runId, commit);
      stopReason := NoReason;
      written, lastWrite, requested, destroyRuns := [], Stored, [], 0;
      lost, missed, garbled, received := 0, 0, 0, 0;
      logsDeleted, costOpened, costClosed, receiptRead, accounts, looks := None, None, None, None, [], [];
    }

    ghost predicate Valid()
      reads this, executor, executor.machine
    {
      && machine == executor.machine && executor.Valid()
      && Recorded(state, runId, commit)
      && (forall i :: 0 <= i < |written| ==> WrittenOk(written[i], runId, commit))
      && (forall i, j :: 0 <= i < j < |written| ==> Rank(written[i].phase) <= Rank(written[j].phase))
      && (forall i :: 0 <= i < |written| ==> Rank(written[i].phase) <= Rank(state.phase))
    }

    ghost predicate Ready()
      reads this, executor, executor.machine
    {
      Valid() && executor.child == None
    }

    /** Before the conclusion no state on disk can pass for a success. */
    ghost predicate Unconcluded()
      reads this, executor, executor.machine
    {
      && Valid() && state.verified == None && !state.finished && state.result == NoResult
      && Rank(state.phase) < Rank(Complete) && state.blocked == NotBlocked
      && forall i :: 0 <= i < |written| ==> Rank(written[i].phase) < Rank(Complete)
    }

    ghost function OnDisk(): Option<Verdict.State> reads this {
      if written == [] then None else Some(written[|written| - 1])
    }

    /** Replaces the state file.  The phase is set whether or not the file is. */
    method UpdateState(phase: Phase) returns (ok: bool)
      requires Valid() && phase != Unset && Rank(state.phase) <= Rank(phase)
      requires WrittenOk(state.(phase := phase), runId, commit)
      modifies this`state, this`written, this`lastWrite, this`lost
      ensures Valid() && state == old(state).(phase := phase)
      ensures ok <==> lastWrite == Stored
      ensures lastWrite == Lost ==> written == old(written)
      ensures lastWrite != Lost ==> written == old(written) + [state]
      ensures lost == old(lost) + if ok then 0 else 1
    {
      state := state.(phase := phase);
      var outcome: Write := *;
      lastWrite := outcome;
      if outcome != Lost {
        written := written + [state];
      }
      ok := outcome == Stored;
      lost := lost + if ok then 0 else 1;
    }

    /** A heartbeat: the same state again, under a phase that does not conclude. */
    method Heartbeat(phase: Phase) returns (ok: bool)
      requires Unconcluded() && phase in {Applying, Live, Destroying, Verifying} && Rank(state.phase) <= Rank(phase)
      modifies this`state, this`written, this`lastWrite, this`lost
      ensures Unconcluded() && state == old(state).(phase := phase)
      ensures lost == old(lost) + if ok then 0 else 1
    {
      ok := UpdateState(phase);
    }

    method Beats(phase: Phase) returns (ok: bool)
      requires Unconcluded() && phase in {Applying, Live, Destroying, Verifying} && Rank(state.phase) <= Rank(phase)
      modifies this`state, this`written, this`lastWrite, this`lost, this`missed
      ensures Unconcluded()
      ensures state == old(state) || state == old(state).(phase := phase)
      ensures missed >= old(missed) && (ok <==> missed == old(missed))
    {
      ok := true;
      var left: nat := *;
      while left > 0
        invariant Unconcluded() && Rank(state.phase) <= Rank(phase)
        invariant missed >= old(missed) && (ok <==> missed == old(missed))
        invariant state == old(state) || state == old(state).(phase := phase)
      {
        var stored := Heartbeat(phase);
        missed := missed + if stored then 0 else 1;
        ok := ok && stored;
        left := left - 1;
      }
    }

    // Stopping apply

    method SendSignal(s: Signal)
      requires Valid()
      modifies this`requested, executor`pending, machine`groups, machine`sent, machine`probes
      ensures Valid() && requested == old(requested) + [s]
      ensures executor.child == old(executor.child)
      ensures match executor.child
              case None => executor.pending == Some(s) && machine.sent == old(machine.sent)
              case Some(g) => machine.sent == old(machine.sent) + [(g, s)]
    {
      executor.RequestSignal(s);
      requested := requested + [s];
    }

    /** How often a command of the paid part may be started in all; a destroy as often as `destroyRuns` says. */
    ghost function Limit(c: Command): nat
      reads this`destroyRuns
    {
      match c
      case AwsDown => destroyRuns
      case InventoryEmpty => INVENTORY_ATTEMPTS
      case _ => 1
    }

    /** The commands started so far are in order up to `last`, and none of the paid part too often. */
    ghost predicate Launched(last: Command)
      reads this`destroyRuns, executor`launches
    {
      && InOrder(executor.launches, last)
      && forall c {:trigger Starts(executor.launches, c)} ::
           Order(c) >= Order(AwsUp) ==> Starts(executor.launches, c) <= Limit(c)
    }

    /** While apply runs only heartbeats touch the state. */
    ghost predicate InApply(before: Verdict.State, started: Option<Started>)
      reads this, executor, executor.machine
    {
      && Unconcluded() && SameButPhase(before, state) && Rank(state.phase) <= Rank(Applying)
      && Tracks(started) && Launched(AwsUp) && (started.None? ==> Starts(executor.launches, AwsUp) == 0)
    }

    /** Mid-stop: what was requested is the ladder up to `current`. */
    ghost predicate Stopping(before: Verdict.State, started: Option<Started>, current: Signal)
      reads this, executor, executor.machine
    {
      InApply(before, started) && requested == Upto(current)
    }

    method Climb(ghost before: Verdict.State, started: Option<Started>, current: Signal)
        returns (next: Signal, deadline: nat)
      requires Stopping(before, started, current) && EscalationAfter(current).next.Some?
      modifies this`requested, executor`pending, machine`groups, machine`sent, machine`probes
      ensures next == EscalationAfter(current).next.value && Stopping(before, started, next)
      ensures deadline == machine.now + EscalationAfter(next).wait
    {
      next := EscalationAfter(current).next.value;
      SendSignal(next);
      deadline := machine.now + EscalationAfter(next).wait;
    }

    method ApplyBegins(ghost before: Verdict.State) returns (s: Started)
      requires InApply(before, None)
      modifies executor`child, executor`pending, executor`launches, machine`groups, machine`sent, machine`probes
      ensures InApply(before, Some(s))
    {
      ghost var launches := executor.launches;
      StartedOnce(launches, Launch(AwsUp, 0, {}), AwsUp);
      s := executor.Start(AwsUp);
      if s.Running? {
        StartedOnce(launches, Launch(AwsUp, s.group, {}), AwsUp);
      }
    }

    method ApplyBeat(ghost before: Verdict.State, started: Option<Started>, wait: nat) returns (stored: bool)
      requires InApply(before, started)
      modifies this`state, this`written, this`lastWrite, this`lost, machine`now, machine`groups
      ensures InApply(before, started) && machine.now == old(machine.now) + wait
      ensures lost == old(lost) + if stored then 0 else 1
    {
      machine.Sleep(wait);
      stored := Heartbeat(Applying);
    }

    /** How apply ended: as its command did, or given up on before it had. */
    ghost predicate AppliedAs(before: seq<End>, r: ExecutionResult)
      reads executor
    {
      || executor.ended == before + [End(AwsUp, r.status, r.confirmed)]
      || (executor.ended == before && r == ExecutionResult(124, false))
    }

    method ApplyReturned(ghost before: Verdict.State, started: Started) returns (r: ExecutionResult)
      requires InApply(before, Some(started))
      modifies executor`child, executor`ended, machine`groups, machine`sent, machine`probes
      modifies machine`waits
      ensures Unconcluded() && SameButPhase(before, state) && -1 <= r.status <= 255
      ensures Rank(state.phase) <= Rank(Applying)
      ensures Launched(AwsUp)
      ensures r.confirmed ==> executor.child == None && machine.Alive() == {}
      ensures executor.ended == old(executor.ended) + [End(AwsUp, r.status, r.confirmed)]
    {
      var done := executor.Collect(started, AwsUp);
      r := ExecutionResult(done.status, done.confirmed);
    }

    method Pass(ghost before: Verdict.State, started: Option<Started>, wait: nat)
      requires InApply(before, started)
      modifies machine`now, machine`groups
      ensures InApply(before, started) && machine.now == old(machine.now) + wait
    {
      machine.Sleep(wait);
    }

    /** At the end of the last grace an apply that has returned still counts. */
    method LastLook(ghost before: Verdict.State, started: Option<Started>) returns (r: ExecutionResult)
      requires InApply(before, started)
      modifies executor`child, executor`ended, machine`groups, machine`sent, machine`probes
      modifies machine`waits
      ensures Unconcluded() && SameButPhase(before, state) && -1 <= r.status <= 255
      ensures Rank(state.phase) <= Rank(Applying)
      ensures Launched(AwsUp)
      ensures r.confirmed ==> executor.child == None && machine.Alive() == {}
      ensures AppliedAs(old(executor.ended), r)
    {
      var finished: bool := *;
      if finished && started.Some? {
        r := ApplyReturned(before, started.value);
        return;
      }
      r := ExecutionResult(124, false);
    }

    /** A grace has passed: the next signal, or after the last one the result. */
    method GraceOver(ghost before: Verdict.State, started: Option<Started>, current: Signal)
        returns (result: Option<ExecutionResult>, next: Signal, deadline: nat)
      requires Stopping(before, started, current)
      modifies this`requested, executor`child, executor`ended, executor`pending
      modifies machine`groups, machine`sent, machine`probes, machine`waits
      ensures result.None? ==>
                && EscalationAfter(current).next == Some(next) && Stopping(before, started, next)
                && executor.ended == old(executor.ended)
                && deadline == machine.now + EscalationAfter(next).wait
      ensures result.Some? ==>
                && Unconcluded() && SameButPhase(before, state) && Rank(state.phase) <= Rank(Applying)
                && requested == old(requested) && Launched(AwsUp) && -1 <= result.value.status <= 255
                && (result.value.confirmed ==> executor.child == None && machine.Alive() == {})
                && AppliedAs(old(executor.ended), result.value) && EscalationAfter(current).next.None?
    {
      next, deadline := current, 0;
      if EscalationAfter(current).next.None? {
        var r := LastLook(before, started);
        result := Some(r);
        return;
      }
      next, deadline := Climb(before, started, current);
      result := None;
    }

    /** One turn of the stop: apply begins, returns, or is signalled again by hand; a heartbeat; or the grace is
    over. */
    method StopTurn(ghost before: Verdict.State, started: Option<Started>, left: nat, current: Signal, deadline: nat)
        returns (result: Option<ExecutionResult>, begun: Option<Started>, rest: nat, next: Signal, due: nat)
      requires Stopping(before, started, current) && machine.now <= deadline
      modifies this`state, this`written, this`lastWrite, this`lost, this`requested, this`received
      modifies executor`child, executor`pending, executor`launches, executor`ended, machine
      ensures lost >= old(lost) && received >= old(received) && machine.now >= old(machine.now)
      ensures result.None? ==>
                && Stopping(before, begun, next) && executor.ended == old(executor.ended) && machine.now <= due
                && ((next == current && due == deadline)
                    || (EscalationAfter(current).next == Some(next) && due <= deadline + EscalationAfter(next).wait))
                && TurnsDown(Height(current), deadline - old(machine.now), left, started.None?,
                             Height(next), due - machine.now, rest, begun.None?)
      ensures result.Some? ==>
                && Unconcluded() && SameButPhase(before, state) && Rank(state.phase) <= Rank(Applying)
                && requested == old(requested) && Launched(AwsUp) && -1 <= result.value.status <= 255
                && (result.value.confirmed ==> executor.child == None && machine.Alive() == {})
                && AppliedAs(old(executor.ended), result.value) && machine.now <= deadline
                && (executor.ended == old(executor.ended) ==> current == Signal.Kill)
    {
      result, begun, rest, next, due := None, started, left, current, deadline;
      var wake: nat := *;
      if wake == 0 && started.None? {
        var s := ApplyBegins(before);
        begun := Some(s);
      } else if wake == 1 && started.Some? {
        var r := ApplyReturned(before, started.value);
        result := Some(r);
      } else if wake == 2 && left > 0 {
        rest, received := left - 1, received + 1;
        if EscalationAfter(current).next.Some? {
          next, due := Climb(before, started, current);
        }
      } else if wake == 3 && machine.now < deadline {
        var pause := deadline - machine.now;
        var _ := ApplyBeat(before, started, if pause < POLL then pause else POLL);
      } else {
        Pass(before, started, deadline - machine.now);
        result, next, due := GraceOver(before, started, current);
      }
    }

    /** Climbs from SIGINT through SIGTERM to SIGKILL, on time or on another signal, until the apply has
    returned.  What it sends is a prefix of that ladder and it returns within the three graces. */
    method StopApply(started: Option<Started>, signals: nat) returns (r: ExecutionResult)
      requires InApply(state, started) && requested == []
      modifies this`state, this`written, this`lastWrite, this`lost, this`requested, this`received
      modifies executor, machine
      ensures Unconcluded() && SameButPhase(old(state), state) && -1 <= r.status <= 255
      ensures Rank(state.phase) <= Rank(Applying)
      ensures 1 <= |requested| <= 3 && requested == LADDER[..|requested|]
      ensures machine.now <= old(machine.now) + 30_000 + 10_000 + 5_000
      ensures Launched(AwsUp)
      ensures r.confirmed ==> executor.child == None && machine.Alive() == {}
      ensures AppliedAs(old(executor.ended), r) && (executor.ended == old(executor.ended) ==> requested == LADDER)
      ensures machine.now >= old(machine.now) && lost >= old(lost) && received >= old(received)
    {
      ghost var before, start := state, machine.now;
      var goroutine, left, current := started, signals, Interrupt;
      SendSignal(current);
      var deadline := machine.now + EscalationAfter(current).wait;
      while true
        invariant Stopping(before, goroutine, current)
        invariant start == old(machine.now) <= machine.now <= deadline <= start + Graces(current)
        invariant executor.ended == old(executor.ended) && lost >= old(lost) && received >= old(received)
        decreases Height(current), deadline - machine.now, left, goroutine.None?
      {
        var result;
        result, goroutine, left, current, deadline := StopTurn(before, goroutine, left, current, deadline);
        if result.Some? {
          return result.value;
        }
      }
    }

    // Apply and the live phase

    /** The reason given for stopping apply is true: the deadline has passed, or since then a signal was received or a
    write of the state failed. */
    ghost predicate StoppedFor(destroyDeadline: nat, signalsBefore: nat, lostBefore: nat)
      reads this, machine
    {
      match stopReason
      case DestroyDeadline => machine.now >= destroyDeadline
      case Received => received > signalsBefore
      case StateWriteFailed => lost > lostBefore
      case _ => false
    }

    /** Runs aws-up until it returns, a signal arrives, the deadline passes or the state cannot be
    written; all but the first stop it.  A confirmed return means its process group is gone. */
    method RunApply(destroyDeadline: nat, signals: nat) returns (r: ExecutionResult)
      requires InApply(state, None) && requested == []
      modifies this`state, this`written, this`lastWrite, this`lost, this`requested, this`stopReason, this`received
      modifies executor, machine
      ensures Unconcluded() && SameButPhase(old(state), state) && -1 <= r.status <= 255
      ensures Rank(state.phase) <= Rank(Applying)
      ensures |requested| <= 3 && requested == LADDER[..|requested|]
      ensures Launched(AwsUp)
      ensures r.confirmed ==> executor.child == None && machine.Alive() == {}
      ensures AppliedAs(old(executor.ended), r) && (executor.ended == old(executor.ended) ==> requested == LADDER)
      ensures if requested == [] then stopReason == old(stopReason)
              else StoppedFor(destroyDeadline, old(received), old(lost))
    {
      r := AwaitApply(destroyDeadline, signals);
      executor.ClearPending();
    }

    method AwaitApply(destroyDeadline: nat, signals: nat) returns (r: ExecutionResult)
      requires InApply(state, None) && requested == []
      modifies this`state, this`written, this`lastWrite, this`lost, this`requested, this`stopReason, this`received
      modifies executor, machine
      ensures Unconcluded() && SameButPhase(old(state), state) && -1 <= r.status <= 255
      ensures Rank(state.phase) <= Rank(Applying)
      ensures |requested| <= 3 && requested == LADDER[..|requested|]
      ensures Launched(AwsUp)
      ensures r.confirmed ==> executor.child == None && machine.Alive() == {}
      ensures AppliedAs(old(executor.ended), r) && (executor.ended == old(executor.ended) ==> requested == LADDER)
      ensures if requested == [] then stopReason == old(stopReason)
              else StoppedFor(destroyDeadline, old(received), old(lost))
    {
      ghost var before := state;
      var goroutine: Option<Started> := None;
      while machine.now < destroyDeadline
        invariant InApply(before, goroutine) && requested == [] && stopReason == old(stopReason)
        invariant executor.ended == old(executor.ended) && lost >= old(lost) && received == old(received)
        decreases destroyDeadline - machine.now, goroutine.None?
      {
        var wake: nat := *;
        if wake == 0 && goroutine.None? {
          var s := ApplyBegins(before);
          goroutine := Some(s);
        } else if wake == 1 && goroutine.Some? {
          r := ApplyReturned(before, goroutine.value);
          return;
        } else if wake == 2 && signals > 0 {
          received := received + 1;
          r := StopFor(before, Received, goroutine, signals - 1);
          return;
        } else {
          var stored := ApplyBeat(before, goroutine, POLL);
          if !stored {
            r := StopFor(before, StateWriteFailed, goroutine, signals);
            return;
          }
        }
      }
      r := StopFor(before, DestroyDeadline, goroutine, signals);
    }

    method StopFor(ghost before: Verdict.State, reason: StopReason, started: Option<Started>, signals: nat)
        returns (r: ExecutionResult)
      requires InApply(before, started) && requested == []
      modifies this`state, this`written, this`lastWrite, this`lost, this`requested, this`stopReason, this`received
      modifies executor, machine
      ensures Unconcluded() && SameButPhase(before, state) && -1 <= r.status <= 255
      ensures Rank(state.phase) <= Rank(Applying)
      ensures 1 <= |requested| <= 3 && requested == LADDER[..|requested|]
      ensures Launched(AwsUp)
      ensures r.confirmed ==> executor.child == None && machine.Alive() == {}
      ensures AppliedAs(old(executor.ended), r) && (executor.ended == old(executor.ended) ==> requested == LADDER)
      ensures stopReason == reason
      ensures machine.now >= old(machine.now) && lost >= old(lost) && received >= old(received)
    {
      stopReason := reason;
      r := StopApply(started, signals);
    }

    method LookForRequest() returns (l: Look)
      modifies this`looks
      ensures looks == old(looks) + [l]
    {
      l := *;
      looks := looks + [l];
    }

    /** What ended the live phase: the deadline, a signal received since, or a request for this run just found. */
    ghost predicate WokenBy(destroyDeadline: nat, signalsBefore: nat, looksBefore: nat)
      reads this, machine
    {
      match stopReason
      case DestroyDeadline => machine.now >= destroyDeadline
      case Received => received > signalsBefore
      case Requested => |looks| > looksBefore && looks[|looks| - 1] == Bound(true)
      case OperatorStop => |looks| > looksBefore && looks[|looks| - 1] == Bound(false)
      case _ => false
    }

    /** What broke it off: a request that cannot be read or is for another run, or a write of the state that failed. */
    ghost predicate BrokenBy(looksBefore: nat, lostBefore: nat)
      reads this
    {
      lost > lostBefore || (|looks| > looksBefore && looks[|looks| - 1] in {Unbound, Unreadable})
    }

    /** Holds the live session until its deadline, a signal, or a stop request; false is an error. */
    method WaitForStop(destroyDeadline: nat, signals: nat) returns (ok: bool)
      requires Unconcluded() && Rank(state.phase) <= Rank(Live) && executor.child == None
      modifies this`state, this`written, this`lastWrite, this`lost, this`stopReason, this`received, this`looks
      modifies machine`now, machine`groups
      ensures Unconcluded() && Rank(state.phase) <= Rank(Live)
      ensures state == old(state) || state == old(state).(phase := Live)
      ensures ok ==> WokenBy(destroyDeadline, old(received), |old(looks)|)
      ensures !ok ==> BrokenBy(|old(looks)|, old(lost)) && stopReason == old(stopReason)
    {
      ghost var before := state;
      while true
        invariant Unconcluded() && Rank(state.phase) <= Rank(Live)
        invariant state == before || state == before.(phase := Live)
        invariant |looks| >= |old(looks)| && lost >= old(lost) && received == old(received)
        invariant stopReason == old(stopReason)
        decreases if machine.now < destroyDeadline then destroyDeadline - machine.now else 0
      {
        if machine.now >= destroyDeadline {
          stopReason := DestroyDeadline;
          return true;
        }
        var signalled: bool := *;
        if signalled && signals > 0 {
          received := received + 1;
          stopReason := Received;
          return true;
        }
        machine.Sleep(POLL);
        var l := LookForRequest();
        match l {
          case Unbound => return false;
          case Unreadable => return false;
          case Bound(named) =>
            stopReason := if named then Requested else OperatorStop;
            return true;
          case NoRequest =>
            var stored := Heartbeat(Live);
            if !stored {
              return false;
            }
        }
      }
    }

    // Cleanup

    /** Runs one command to its end with heartbeats beside it.  It is only called while no earlier
    command owns the executor, so nothing the run started before is still alive. */
    method RunWithHeartbeat(command: Command, phase: Phase) returns (r: RunResult, heartbeats: bool)
      requires Unconcluded() && executor.child == None
      requires Launched(command) && Order(command) > Order(AwsUp)
      requires Starts(executor.launches, command) < Limit(command)
      requires phase in {Destroying, Verifying} && Rank(state.phase) <= Rank(phase)
      modifies this`state, this`written, this`lastWrite, this`lost, this`missed, executor, machine
      ensures Unconcluded() && -1 <= r.status <= 255
      ensures state == old(state) || state == old(state).(phase := phase)
      ensures r.confirmed <==> executor.child == None
      ensures Launched(command) && Starts(executor.launches, command) <= old(Starts(executor.launches, command)) + 1
      ensures executor.ended == old(executor.ended) + [End(command, r.status, r.confirmed)]
      ensures missed >= old(missed) && (heartbeats <==> missed == old(missed))
    {
      assert machine.Alive() == {};
      r := RunOne(command);
      heartbeats := Beats(phase);
    }

    /** The command alone: it leaves the state as it is and is started at most once. */
    method RunOne(command: Command) returns (r: RunResult)
      requires Valid() && executor.child == None && Launched(command)
      requires Order(command) > Order(AwsUp) && Starts(executor.launches, command) < Limit(command)
      modifies executor, machine
      ensures Valid() && -1 <= r.status <= 255 && Launched(command)
      ensures r.confirmed <==> executor.child == None
      ensures Starts(executor.launches, command) <= old(Starts(executor.launches, command)) + 1
      ensures executor.ended == old(executor.ended) + [End(command, r.status, r.confirmed)]
    {
      ghost var launches := executor.launches;
      r := executor.Run(command);
      StartedAtMostOnce(launches, executor.launches, command);
    }

    method RetryPause(phase: Phase) returns (ok: bool)
      requires Unconcluded() && phase in {Destroying, Verifying} && Rank(state.phase) <= Rank(phase)
      modifies this`state, this`written, this`lastWrite, this`lost, this`missed
      ensures Unconcluded()
      ensures state == old(state) || state == old(state).(phase := phase)
      ensures missed >= old(missed) && (ok <==> missed == old(missed))
    {
      ok := Beats(phase);
    }

    /** Opens the cleanup's transcript. */
    method OpenTranscript() returns (ok: bool)
      modifies this`garbled
      ensures ok <==> garbled == 0
    {
      ok := *;
      garbled := if ok then 0 else 1;
    }

    /** Writes to it, or closes it. */
    method Note() returns (ok: bool)
      modifies this`garbled
      ensures garbled == old(garbled) + if ok then 0 else 1
    {
      ok := *;
      garbled := garbled + if ok then 0 else 1;
    }

    method ReadReceipt() returns (ok: bool)
      modifies this`receiptRead
      ensures receiptRead == Some(ok)
    {
      ok := *;
      receiptRead := Some(ok);
    }

    /** The current account must be the staged one; a lookup that fails is tried three times.  `lookups` is what
    was answered: nothing, or whether the accounts match. */
    method VerifyAccount() returns (ok: bool, heartbeats: bool, ghost lookups: seq<Option<bool>>)
      requires Unconcluded() && Rank(state.phase) <= Rank(Destroying)
      modifies this`state, this`written, this`lastWrite, this`lost, this`missed, this`receiptRead, this`accounts
      ensures Unconcluded()
      ensures state == old(state) || state == old(state).(phase := Destroying)
      ensures accounts == old(accounts) + lookups && receiptRead == Some(lookups != [])
      ensures |lookups| <= 3 && forall i :: 0 <= i < |lookups| - 1 ==> lookups[i] == None
      ensures ok <==> lookups != [] && lookups[|lookups| - 1] == Some(true)
      ensures lookups != [] && lookups[|lookups| - 1] == None ==> |lookups| == 3
      ensures missed >= old(missed) && (heartbeats <==> missed == old(missed))
    {
      heartbeats, lookups := true, [];
      var receipt := ReadReceipt();
      if !receipt {
        return false, true, [];
      }
      for attempt := 1 to IDENTITY_ATTEMPTS + 1
        invariant Unconcluded() && (state == old(state) || state == old(state).(phase := Destroying))
        invariant |lookups| == attempt - 1 && forall i :: 0 <= i < |lookups| ==> lookups[i] == None
        invariant accounts == old(accounts) + lookups && receiptRead == Some(true)
        invariant missed >= old(missed) && (heartbeats <==> missed == old(missed))
      {
        var answer, beat := AccountWithHeartbeat();
        lookups := lookups + [answer];
        heartbeats := heartbeats && beat;
        if answer.Some? {
          return answer.value, heartbeats, lookups;
        }
        if attempt < IDENTITY_ATTEMPTS {
          beat := RetryPause(Destroying);
          heartbeats := beat && heartbeats;
        }
      }
      ok := false;
    }

    method AccountWithHeartbeat() returns (answer: Option<bool>, heartbeats: bool)
      requires Unconcluded() && Rank(state.phase) <= Rank(Destroying)
      modifies this`state, this`written, this`lastWrite, this`lost, this`missed, this`accounts
      ensures Unconcluded()
      ensures state == old(state) || state == old(state).(phase := Destroying)
      ensures accounts == old(accounts) + [answer]
      ensures missed >= old(missed) && (heartbeats <==> missed == old(missed))
    {
      heartbeats := Beats(Destroying);
      answer := *;
      accounts := accounts + [answer];
    }

    /** Up to three destroys, stopping at the first that exits 0 or cannot be confirmed ended. */
    method DestroyLoop(hardDeadline: nat) returns (r: RunResult, transcript: bool, heartbeats: bool)
      requires Unconcluded() && executor.child == None && Rank(state.phase) <= Rank(Destroying) && destroyRuns == 0
      requires Launched(AwsDown) && Ends(executor.ended, AwsDown) == 0
      modifies this`state, this`written, this`lastWrite, this`lost, this`missed, this`garbled, this`destroyRuns
      modifies executor, machine
      ensures Unconcluded() && -1 <= r.status <= 255 && 1 <= destroyRuns <= 3 && Launched(AwsDown)
      ensures state == old(state) || state == old(state).(phase := Destroying)
      ensures r.confirmed <==> executor.child == None
      ensures r.confirmed && r.status != 0 ==> destroyRuns == 3
      ensures OnlyRan(old(executor.ended), executor.ended, AwsDown)
      ensures LastStatus(executor.ended, AwsDown) == Some(r.status) && Ends(executor.ended, AwsDown) == destroyRuns
      ensures missed >= old(missed) && (r.confirmed ==> (heartbeats <==> missed == old(missed)))
      ensures garbled >= old(garbled) && (r.confirmed ==> (transcript <==> garbled == old(garbled)))
    {
      transcript, heartbeats := true, true;
      var attempt := 1;
      while true
        invariant 1 <= attempt <= DESTROY_ATTEMPTS && destroyRuns == attempt - 1 && Launched(AwsDown)
        invariant Unconcluded() && executor.child == None
        invariant state == old(state) || state == old(state).(phase := Destroying)
        invariant OnlyRan(old(executor.ended), executor.ended, AwsDown) && Ends(executor.ended, AwsDown) == destroyRuns
        invariant missed >= old(missed) && (heartbeats <==> missed == old(missed))
        invariant garbled >= old(garbled) && (transcript <==> garbled == old(garbled))
        decreases DESTROY_ATTEMPTS - attempt
      {
        var beat;
        r, beat, transcript := DestroyOnce(transcript);
        if !r.confirmed {
          return;
        }
        heartbeats := heartbeats && beat;
        if r.status == 0 || attempt == DESTROY_ATTEMPTS {
          return;
        }
        if machine.now < hardDeadline {
          beat := RetryPause(Destroying);
          heartbeats := beat && heartbeats;
        }
        attempt := attempt + 1;
      }
    }

    /** One destroy between its two lines of the transcript. */
    method DestroyOnce(transcript: bool) returns (r: RunResult, heartbeats: bool, noted: bool)
      requires Unconcluded() && executor.child == None && Rank(state.phase) <= Rank(Destroying)
      requires Launched(AwsDown)
      modifies this`state, this`written, this`lastWrite, this`lost, this`missed, this`garbled, this`destroyRuns
      modifies executor, machine
      ensures Unconcluded() && -1 <= r.status <= 255 && destroyRuns == old(destroyRuns) + 1 && Launched(AwsDown)
      ensures state == old(state) || state == old(state).(phase := Destroying)
      ensures r.confirmed <==> executor.child == None
      ensures OnlyRan(old(executor.ended), executor.ended, AwsDown)
      ensures LastStatus(executor.ended, AwsDown) == Some(r.status)
      ensures Ends(executor.ended, AwsDown) == old(Ends(executor.ended, AwsDown)) + 1
      ensures missed >= old(missed) && (heartbeats <==> missed == old(missed))
      ensures garbled >= old(garbled) && (r.confirmed ==> (noted <==> transcript && garbled == old(garbled)))
    {
      var first := Note();
      destroyRuns := destroyRuns + 1;
      EndedOnce(executor.ended, End(AwsDown, 0, true));
      ghost var ended := executor.ended;
      r, heartbeats := RunWithHeartbeat(AwsDown, Destroying);
      EndedOnce(ended, End(AwsDown, r.status, r.confirmed));
      noted := transcript && first;
      if r.confirmed {
        var second := Note();
        noted := noted && second;
      }
    }

    method InventoryLoop(hardDeadline: nat) returns (r: RunResult, heartbeats: bool)
      requires Unconcluded() && executor.child == None && Rank(state.phase) <= Rank(Verifying) && Launched(StateEmpty)
      modifies this`state, this`written, this`lastWrite, this`lost, this`missed, executor, machine
      ensures Unconcluded() && -1 <= r.status <= 255 && Launched(InventoryEmpty)
      ensures Starts(executor.launches, InventoryEmpty) <= old(Starts(executor.launches, InventoryEmpty)) + 3
      ensures state == old(state) || state == old(state).(phase := Verifying)
      ensures r.confirmed <==> executor.child == None
      ensures OnlyRan(old(executor.ended), executor.ended, InventoryEmpty)
      ensures LastStatus(executor.ended, InventoryEmpty) == Some(r.status)
      ensures r.confirmed && r.status != 0 ==>
                Ends(executor.ended, InventoryEmpty) == old(Ends(executor.ended, InventoryEmpty)) + 3
      ensures missed >= old(missed) && (r.confirmed ==> (heartbeats <==> missed == old(missed)))
    {
      NothingLater(executor.launches, StateEmpty, InventoryEmpty);
      heartbeats := true;
      var attempt := 1;
      while true
        invariant 1 <= attempt <= INVENTORY_ATTEMPTS && Launched(InventoryEmpty)
        invariant Starts(executor.launches, InventoryEmpty) < attempt
        invariant Ends(executor.ended, InventoryEmpty) == old(Ends(executor.ended, InventoryEmpty)) + attempt - 1
        invariant Unconcluded() && executor.child == None
        invariant state == old(state) || state == old(state).(phase := Verifying)
        invariant OnlyRan(old(executor.ended), executor.ended, InventoryEmpty)
        invariant missed >= old(missed) && (heartbeats <==> missed == old(missed))
        decreases INVENTORY_ATTEMPTS - attempt
      {
        var beat;
        ghost var ended := executor.ended;
        r, beat := RunWithHeartbeat(InventoryEmpty, Verifying);
        EndedOnce(ended, End(InventoryEmpty, r.status, r.confirmed));
        if !r.confirmed {
          return;
        }
        heartbeats := heartbeats && beat;
        if r.status == 0 || attempt == INVENTORY_ATTEMPTS {
          return;
        }
        if machine.now < hardDeadline {
          beat := RetryPause(Verifying);
          heartbeats := beat && heartbeats;
        }
        attempt := attempt + 1;
      }
    }

    /** How a run that reached cleanup, or was kept out of it, has ended. */
    ghost predicate Concluded(exit: int)
      reads this, executor, executor.machine
    {
      && Valid()
      && (state.phase == Complete || state.phase == CleanupFailed)
      && (state.phase == Complete ==> state.stateExit == Some(0) && state.inventoryExit == Some(0))
      && (exit == 0 <==> lastWrite == Stored && ProofAccepts(state, runId, commit))
      && (lastWrite != Lost ==> OnDisk() == Some(state))
      && (forall i :: 0 <= i < |written| && ProofAccepts(written[i], runId, commit) ==>
            i == |written| - 1 && lastWrite != Lost)
      && (CleanupCheck(state, state.destroyExit) == NotRun ==> destroyRuns == 0)
    }

    /** The cleanup is blocked, with exit 1, exactly when a command of it may still be running. */
    ghost predicate BlockedIfOwned(exit: int)
      reads this, executor
    {
      && (state.blocked == ExitUnconfirmed <==> executor.child.Some?)
      && (executor.child.Some? ==> exit == 1 && state.phase == CleanupFailed)
    }

    /** Everything that was answered since the executor and the cleanup began. */
    ghost function Told(): Evidence
      reads this, executor
    {
      Evidence(executor.ended, logsDeleted, garbled, missed, costOpened == Some(true) && costClosed == Some(true))
    }

    /** The conclusion is what the commands and everything else answered. */
    ghost predicate Judged(hardDeadline: nat)
      reads this, executor, machine
    {
      JudgedBy(state, Told(), machine.now > hardDeadline)
    }

    /** The end of a cleanup whose account was verified: blocked by a command that may still be running, or judged. */
    ghost predicate CleanupEnds(exit: int, hardDeadline: nat)
      reads this, executor, machine
    {
      && machine == executor.machine && Concluded(exit) && BlockedIfOwned(exit) && Launched(Cost)
      && state.blocked != IdentityUnverified && state.applyExit == LastStatus(executor.ended, AwsUp)
      && (executor.child == None ==> Judged(hardDeadline))
    }

    /** On the way there: the findings so far are what was answered. */
    ghost predicate Found(f: Findings)
      reads this, executor
    {
      FoundIn(f, Told())
    }

    /** Ends the run with the cleanup blocked on a process that may still be alive. */
    method BlockCleanupOnProcess() returns (exit: int)
      requires Unconcluded() && (!state.destroyStarted ==> destroyRuns == 0)
      modifies this`state, this`written, this`lastWrite, this`lost, this`stopReason
      ensures Concluded(exit) && exit == 1 && state.phase == CleanupFailed && state.blocked == ExitUnconfirmed
      ensures state == old(state).(result := Failed, verified := Some(false), blocked := ExitUnconfirmed,
                                   phase := CleanupFailed)
    {
      if stopReason == NoReason {
        stopReason := ProcessUnconfirmed;
      }
      state := state.(result := Failed, verified := Some(false), blocked := ExitUnconfirmed);
      var _ := UpdateState(CleanupFailed);
      exit := 1;
    }

    /** The same when it is a command of the cleanup. */
    method BlockInCleanup(ghost last: Command, ghost hardDeadline: nat) returns (exit: int)
      requires Unconcluded() && state.destroyStarted && executor.child.Some? && Launched(last)
      requires state.applyExit == LastStatus(executor.ended, AwsUp)
      modifies this`state, this`written, this`lastWrite, this`lost, this`stopReason
      ensures CleanupEnds(exit, hardDeadline)
    {
      exit := BlockCleanupOnProcess();
    }

    /** Destroys, checks and concludes.  Destroy runs one to three times exactly when the account was
    verified first. */
    method Cleanup(applyStatus: int, hardDeadline: nat)
        returns (exit: int, ghost identified: bool, ghost lookups: seq<Option<bool>>)
      requires Unconcluded() && executor.child == None && Rank(state.phase) <= Rank(Live)
      requires state.applyExit == Some(applyStatus) && destroyRuns == 0 && Launched(AwsDown)
      requires LastStatus(executor.ended, AwsUp) == Some(applyStatus) && Ends(executor.ended, AwsDown) == 0
      modifies this`state, this`written, this`lastWrite, this`lost, this`missed, this`garbled, this`stopReason
      modifies this`destroyRuns
      modifies this`receiptRead, this`accounts, this`logsDeleted, this`costOpened, this`costClosed, executor, machine
      ensures Concluded(exit) && BlockedIfOwned(exit) && Launched(Cost)
      ensures accounts == old(accounts) + lookups && receiptRead == Some(lookups != [])
      ensures identified <==> lookups != [] && lookups[|lookups| - 1] == Some(true)
      ensures if identified then 1 <= destroyRuns <= 3 else destroyRuns == 0
      ensures destroyRuns == Ends(executor.ended, AwsDown) && state.applyExit == LastStatus(executor.ended, AwsUp)
      ensures !identified <==> state.blocked == IdentityUnverified
      ensures identified && executor.child == None ==> Judged(hardDeadline)
      ensures !identified ==> executor.ended == old(executor.ended) && state.transcript == Some(garbled == 0)
    {
      var verified, transcript, heartbeats;
      verified, transcript, heartbeats, lookups := Identify(applyStatus);
      identified := verified;
      if !verified {
        exit := RefuseIdentity(transcript);
        return;
      }
      exit := DestroyAndConclude(applyStatus, hardDeadline, transcript, heartbeats);
    }

    /** The first part: the start of the destroy is recorded, the transcript begun and the account looked up. */
    method Identify(applyStatus: int)
        returns (verified: bool, transcript: bool, heartbeats: bool, ghost lookups: seq<Option<bool>>)
      requires Unconcluded() && executor.child == None && Rank(state.phase) <= Rank(Live)
      modifies this`state, this`written, this`lastWrite, this`lost, this`missed, this`garbled, this`stopReason
      modifies this`receiptRead, this`accounts, executor`pending
      ensures Unconcluded() && state == old(state).(phase := Destroying, destroyStarted := true)
      ensures accounts == old(accounts) + lookups && receiptRead == Some(lookups != [])
      ensures verified <==> lookups != [] && lookups[|lookups| - 1] == Some(true)
      ensures (transcript <==> garbled == 0) && (heartbeats <==> missed == 0)
      ensures executor.pending == None && stopReason != NoReason
    {
      heartbeats := BeginDestroying(applyStatus);
      executor.ClearPending();
      transcript := OpenTranscript();
      var beat;
      verified, beat, lookups := VerifyAccount();
      heartbeats := heartbeats && beat;
    }

    method BeginDestroying(applyStatus: int) returns (stored: bool)
      requires Unconcluded() && Rank(state.phase) <= Rank(Live)
      modifies this`state, this`written, this`lastWrite, this`lost, this`missed, this`stopReason
      ensures Unconcluded() && stopReason != NoReason
      ensures state == old(state).(phase := Destroying, destroyStarted := true)
      ensures stored <==> missed == 0
      ensures stopReason == if old(stopReason) != NoReason then old(stopReason)
                            else if applyStatus != 0 then ApplyFailed else OperatorStop
    {
      if stopReason == NoReason {
        stopReason := if applyStatus != 0 then ApplyFailed else OperatorStop;
      }
      state := state.(destroyStarted := true);
      stored := Heartbeat(Destroying);
      missed := if stored then 0 else 1;
    }

    method DestroyAndConclude(applyStatus: int, hardDeadline: nat, transcript: bool, beats: bool) returns (exit: int)
      requires Unconcluded() && executor.child == None && state.phase == Destroying && state.destroyStarted
      requires state.applyExit == Some(applyStatus) && destroyRuns == 0 && Launched(AwsDown)
      requires LastStatus(executor.ended, AwsUp) == Some(applyStatus) && Ends(executor.ended, AwsDown) == 0
      requires (transcript <==> garbled == 0) && (beats <==> missed == 0)
      modifies this`state, this`written, this`lastWrite, this`lost, this`missed, this`garbled, this`stopReason
      modifies this`destroyRuns
      modifies this`logsDeleted, this`costOpened, this`costClosed, executor, machine
      ensures CleanupEnds(exit, hardDeadline) && 1 <= destroyRuns <= 3 && destroyRuns == Ends(executor.ended, AwsDown)
    {
      var destroyed, noted, beat := DestroyLoop(hardDeadline);
      if !destroyed.confirmed {
        exit := BlockInCleanup(AwsDown, hardDeadline);
        return;
      }
      exit := CheckAndConclude(applyStatus, hardDeadline, destroyed.status, transcript && noted, beats && beat);
    }

    method RefuseIdentity(transcript: bool) returns (exit: int)
      requires Unconcluded() && destroyRuns == 0 && (transcript <==> garbled == 0)
      modifies this`state, this`written, this`lastWrite, this`lost, this`garbled
      ensures Concluded(exit) && exit == 1 && state.phase == CleanupFailed && state.blocked == IdentityUnverified
      ensures state.applyExit == old(state).applyExit && state.transcript == Some(garbled == 0)
    {
      var noted := Note();
      var closed := Note();
      state := state.(transcript := Some(transcript && noted && closed), verified := Some(false),
                      blocked := IdentityUnverified);
      var _ := UpdateState(CleanupFailed);
      exit := 1;
    }

    method CheckAndConclude(applyStatus: int, hardDeadline: nat, destroyStatus: int, noted: bool, beats: bool)
        returns (exit: int)
      requires Unconcluded() && executor.child == None && state.phase == Destroying && state.destroyStarted
      requires state.applyExit == Some(applyStatus) && -1 <= destroyStatus <= 255
      requires destroyRuns >= 1 && Launched(AwsDown)
      requires LastStatus(executor.ended, AwsUp) == Some(applyStatus)
      requires LastStatus(executor.ended, AwsDown) == Some(destroyStatus)
      requires (noted <==> garbled == 0) && (beats <==> missed == 0)
      modifies this`state, this`written, this`lastWrite, this`lost, this`missed, this`garbled, this`stopReason
      modifies this`logsDeleted, this`costOpened, this`costClosed, executor, machine
      ensures CleanupEnds(exit, hardDeadline)
      ensures Ends(executor.ended, AwsDown) == old(Ends(executor.ended, AwsDown))
    {
      var f := GatherFindings(applyStatus, destroyStatus, noted, beats);
      if f.None? {
        exit := BlockInCleanup(StateEmpty, hardDeadline);
        return;
      }
      BeginVerifying(f.value);
      exit := InventoryAndConclude(f.value, hardDeadline);
    }

    /** Deletes the logs, checks the Terraform state and closes the transcript; None when the check may still run. */
    method GatherFindings(applyStatus: int, destroyStatus: int, noted: bool, beats: bool)
        returns (f: Option<Findings>)
      requires Unconcluded() && executor.child == None && state.phase == Destroying && Launched(AwsDown)
      requires LastStatus(executor.ended, AwsUp) == Some(applyStatus)
      requires LastStatus(executor.ended, AwsDown) == Some(destroyStatus)
      requires (noted <==> garbled == 0) && (beats <==> missed == 0)
      modifies this`state, this`written, this`lastWrite, this`lost, this`missed, this`garbled, this`logsDeleted
      modifies executor, machine
      ensures Unconcluded() && state == old(state) && Launched(StateEmpty)
      ensures f.Some? <==> executor.child == None
      ensures OnlyRan(old(executor.ended), executor.ended, StateEmpty)
      ensures f.Some? ==> Found(f.value) && f.value.apply == applyStatus && f.value.destroy == destroyStatus
      ensures f.Some? ==> f.value.cost == 1 && -1 <= f.value.state <= 255
    {
      var logs, beat := DeleteLogs();
      var checked, later := CheckState();
      if !checked.confirmed {
        return None;
      }
      var told := Note();
      var closed := Note();
      f := Some(Findings(applyStatus, destroyStatus, logs, checked.status, noted && told && closed, 1, 1,
                         beats && beat && later, false));
    }

    method CheckState() returns (r: RunResult, heartbeats: bool)
      requires Unconcluded() && executor.child == None && state.phase == Destroying && Launched(AwsDown)
      modifies this`state, this`written, this`lastWrite, this`lost, this`missed, executor, machine
      ensures Unconcluded() && state == old(state) && -1 <= r.status <= 255 && Launched(StateEmpty)
      ensures r.confirmed <==> executor.child == None
      ensures OnlyRan(old(executor.ended), executor.ended, StateEmpty)
      ensures LastStatus(executor.ended, StateEmpty) == Some(r.status)
      ensures missed >= old(missed) && (heartbeats <==> missed == old(missed))
    {
      NothingLater(executor.launches, AwsDown, StateEmpty);
      ghost var ended := executor.ended;
      r, heartbeats := RunWithHeartbeat(StateEmpty, Destroying);
      EndedOnce(ended, End(StateEmpty, r.status, r.confirmed));
    }

    method DeleteLogs() returns (passed: bool, heartbeats: bool)
      requires Unconcluded() && state.phase == Destroying
      modifies this`state, this`written, this`lastWrite, this`lost, this`missed, this`logsDeleted
      ensures Unconcluded() && state == old(state) && logsDeleted == Some(passed)
      ensures missed >= old(missed) && (heartbeats <==> missed == old(missed))
    {
      passed := *;
      logsDeleted := Some(passed);
      heartbeats := Beats(Destroying);
    }

    /** What destroy and the state check have shown goes into the state before the inventory is asked for. */
    method BeginVerifying(f: Findings)
      requires Unconcluded() && state.phase == Destroying && state.destroyStarted && state.applyExit == Some(f.apply)
      requires -1 <= f.destroy <= 255 && -1 <= f.state <= 255
      modifies this`state, this`written, this`lastWrite, this`lost
      ensures Unconcluded() && state.phase == Verifying && state.destroyStarted && Matches(state, f, runId, commit)
    {
      state := state.(destroyExit := Some(f.destroy), logs := Some(f.logs), stateExit := Some(f.state),
                      transcript := Some(f.transcript));
      var _ := Heartbeat(Verifying);
    }

    method InventoryAndConclude(f0: Findings, hardDeadline: nat) returns (exit: int)
      requires Unconcluded() && executor.child == None && state.phase == Verifying && state.destroyStarted
      requires Matches(state, f0, runId, commit) && destroyRuns >= 1 && f0.cost == 1 && Launched(StateEmpty)
      requires Found(f0)
      modifies this`state, this`written, this`lastWrite, this`lost, this`missed, this`stopReason, this`costOpened
      modifies this`costClosed
      modifies executor, machine
      ensures CleanupEnds(exit, hardDeadline)
      ensures Ends(executor.ended, AwsDown) == old(Ends(executor.ended, AwsDown))
    {
      ghost var told := Told();
      var inventory, beat := InventoryLoop(hardDeadline);
      if !inventory.confirmed {
        exit := BlockInCleanup(InventoryEmpty, hardDeadline);
        return;
      }
      FoundStays(f0, told, Told(), InventoryEmpty, beat);
      exit := CostAndConclude(f0.(inventory := inventory.status, heartbeats := f0.heartbeats && beat), hardDeadline);
    }

    method CostAndConclude(f0: Findings, hardDeadline: nat) returns (exit: int)
      requires Unconcluded() && executor.child == None && state.phase == Verifying && state.destroyStarted
      requires Matches(state, f0, runId, commit) && destroyRuns >= 1 && -1 <= f0.inventory <= 255 && f0.cost == 1
      requires Launched(InventoryEmpty)
      requires Found(f0) && LastStatus(executor.ended, InventoryEmpty) == Some(f0.inventory)
      modifies this`state, this`written, this`lastWrite, this`lost, this`missed, this`stopReason, this`costOpened
      modifies this`costClosed
      modifies executor, machine
      ensures CleanupEnds(exit, hardDeadline)
      ensures Ends(executor.ended, AwsDown) == old(Ends(executor.ended, AwsDown))
    {
      var f := CostFindings(f0, hardDeadline);
      if f.None? {
        exit := BlockInCleanup(Cost, hardDeadline);
        return;
      }
      exit := Settle(f.value, hardDeadline);
    }

    /** The findings with the cost and the clock; None when the query may still be running. */
    method CostFindings(f0: Findings, hardDeadline: nat) returns (f: Option<Findings>)
      requires Unconcluded() && executor.child == None && state.phase == Verifying && Launched(InventoryEmpty)
      requires Found(f0) && LastStatus(executor.ended, InventoryEmpty) == Some(f0.inventory)
      modifies this`state, this`written, this`lastWrite, this`lost, this`missed, this`costOpened, this`costClosed
      modifies executor, machine
      ensures Unconcluded() && state == old(state) && Launched(Cost)
      ensures f.Some? <==> executor.child == None
      ensures OnlyRan(old(executor.ended), executor.ended, Cost)
      ensures f.Some? ==>
                && Found(f.value) && f.value.cost == CostAnswer(Told()) && -1 <= f.value.cost <= 255
                && f.value.overdue == (machine.now > hardDeadline)
                && f.value == f0.(cost := f.value.cost, heartbeats := f.value.heartbeats, overdue := f.value.overdue)
    {
      ghost var told := Told();
      var observed, cost, beat := ObserveCost();
      if !observed {
        return None;
      }
      FoundStays(f0, told, Told(), Cost, beat);
      f := Some(f0.(cost := cost, heartbeats := f0.heartbeats && beat, overdue := machine.now > hardDeadline));
    }

    method OpenCostFile() returns (ok: bool)
      modifies this`costOpened
      ensures costOpened == Some(ok)
    {
      ok := *;
      costOpened := Some(ok);
    }

    method CloseCostFile() returns (ok: bool)
      modifies this`costClosed
      ensures costClosed == Some(ok)
    {
      ok := *;
      costClosed := Some(ok);
    }

    /** Runs the cost query into a new file; false when it may still be running. */
    method ObserveCost() returns (observed: bool, cost: int, heartbeats: bool)
      requires Unconcluded() && executor.child == None && state.phase == Verifying && Launched(InventoryEmpty)
      modifies this`state, this`written, this`lastWrite, this`lost, this`missed, this`costOpened, this`costClosed
      modifies executor, machine
      ensures Unconcluded() && state == old(state) && Launched(Cost) && -1 <= cost <= 255
      ensures observed <==> executor.child == None
      ensures OnlyRan(old(executor.ended), executor.ended, Cost) && (observed ==> cost == CostAnswer(Told()))
      ensures costOpened == Some(false) ==> executor.ended == old(executor.ended)
      ensures missed >= old(missed) && (heartbeats <==> missed == old(missed))
    {
      NothingLater(executor.launches, InventoryEmpty, Cost);
      cost, heartbeats, observed := 1, true, true;
      var created := OpenCostFile();
      if !created {
        return;
      }
      ghost var ended := executor.ended;
      var r;
      r, heartbeats := RunWithHeartbeat(Cost, Verifying);
      EndedOnce(ended, End(Cost, r.status, r.confirmed));
      observed := r.confirmed;
      var closed := CloseCostFile();
      cost := if closed then r.status else 1;
    }

    /** Writes the conclusion down and answers with the exit code. */
    method Settle(f: Findings, ghost hardDeadline: nat) returns (exit: int)
      requires Unconcluded() && state.phase == Verifying && state.destroyStarted && executor.child == None
      requires Matches(state, f, runId, commit) && -1 <= f.inventory <= 255 && -1 <= f.cost <= 255
      requires Found(f) && LastStatus(executor.ended, InventoryEmpty) == Some(f.inventory)
      requires f.cost == CostAnswer(Told()) && f.overdue == (machine.now > hardDeadline) && Launched(Cost)
      modifies this`state, this`written, this`lastWrite, this`lost
      ensures CleanupEnds(exit, hardDeadline) && state.blocked == NotBlocked
    {
      ConclusionIsJudged(state, f, Told(), runId, commit);
      ExitZeroIff(state, f, Stored, runId, commit);
      ConcludedWritable(state, f, runId, commit);
      var ok := WriteDown(f);
      exit := ExitCode(f, if ok then Stored else Lost);
    }

    method WriteDown(f: Findings) returns (ok: bool)
      requires Unconcluded() && state.phase == Verifying && Matches(state, f, runId, commit)
      requires -1 <= f.inventory <= 255 && -1 <= f.cost <= 255
      modifies this`state, this`written, this`lastWrite, this`lost
      ensures Valid() && state == Conclude(old(state), f) && (ok <==> lastWrite == Stored)
      ensures lastWrite != Lost ==> OnDisk() == Some(state)
      ensures forall i :: 0 <= i < |written| && ProofAccepts(written[i], runId, commit) ==>
                i == |written| - 1 && lastWrite != Lost
    {
      ConcludedWritable(state, f, runId, commit);
      var conclusion := Conclude(state, f);
      state := conclusion.(phase := Verifying);
      ok := UpdateState(conclusion.phase);
      assert state == conclusion;
    }

    /** The paid part of a run, from the session on.  Whatever the commands, the disk and the operator do:
    the phases on disk only move forward, every state on disk passes the failure summary's checks and
    repeats its verdict there, exit code 0 is given exactly when the file holds a state the proof
    accepts and its last write reported success, no earlier state on disk is accepted, and a conclusion that is not
    blocked is what the commands answered. */
    method Run(destroyDeadline: nat, hardDeadline: nat, applySignals: nat, liveSignals: nat)
        returns (exit: int, launched: bool, ghost confirmed: bool, ghost identified: bool)
      requires Ready() && Unconcluded() && state == NewState(runId, commit) && requested == [] && destroyRuns == 0
      requires InOrder(executor.launches, StartSession)
      requires forall i :: 0 <= i < |executor.ended| ==> Order(executor.ended[i].command) <= Order(StartSession)
      modifies this`state, this`written, this`lastWrite, this`lost, this`missed, this`garbled, this`requested
      modifies this`stopReason
      modifies this`destroyRuns, this`received, this`looks, this`receiptRead, this`accounts, this`logsDeleted
      modifies this`costOpened, this`costClosed, executor, machine
      ensures Valid()
      ensures !launched ==> exit == 1 && destroyRuns == 0 && lost > old(lost) && executor.ended == old(executor.ended)
      ensures !launched ==> Launched(AwsUp) && requested == []
      ensures launched ==> Ended(exit, confirmed, identified, hardDeadline)
      ensures launched && !confirmed ==> Unreturned(old(executor.ended))
      ensures launched && confirmed ==>
                (identified <==> |accounts| > |old(accounts)| && accounts[|accounts| - 1] == Some(true))
    {
      NothingStarted(executor.launches);
      NothingEnded(executor.ended);
      confirmed, identified := false, false;
      var stored := Heartbeat(Applying);
      if !stored {
        return 1, false, false, false;
      }
      launched := true;
      exit, confirmed, identified := Proceed(destroyDeadline, hardDeadline, applySignals, liveSignals);
    }

    /** How a run that launched apply ends.  An apply whose end stayed unconfirmed blocks it; behind any other the
    cleanup has destroyed, for a verified account, or has not. */
    ghost predicate Ended(exit: int, confirmed: bool, identified: bool, hardDeadline: nat)
      reads this, executor, machine
    {
      && machine == executor.machine && Concluded(exit) && destroyRuns == Ends(executor.ended, AwsDown)
      && requested <= [Interrupt, Terminate, Signal.Kill]
      && (if confirmed && identified then 1 <= destroyRuns <= 3 else destroyRuns == 0)
      && Launched(if confirmed then Cost else AwsUp)
      && if !confirmed then exit == 1 && state.blocked == ExitUnconfirmed && state.applyExit == None
         else
           && BlockedIfOwned(exit) && state.applyExit == LastStatus(executor.ended, AwsUp)
           && (identified <==> state.blocked != IdentityUnverified)
           && (identified && executor.child == None ==> Judged(hardDeadline))
    }

    /** Apply was given up on: it came back without a confirmed end, or not at all although all three signals were
    sent. */
    ghost predicate Unreturned(before: seq<End>)
      reads this, executor
    {
      || (|executor.ended| == |before| + 1 && executor.ended[..|before|] == before
          && executor.ended[|before|].command == AwsUp && !executor.ended[|before|].confirmed)
      || (executor.ended == before && requested == [Interrupt, Terminate, Signal.Kill])
    }

    method Proceed(destroyDeadline: nat, hardDeadline: nat, applySignals: nat, liveSignals: nat)
        returns (exit: int, ghost confirmed: bool, ghost identified: bool)
      requires InApply(state, None) && state.applyExit == None && !state.destroyStarted && requested == []
      requires destroyRuns == 0 && Ends(executor.ended, AwsDown) == 0
      modifies this`state, this`written, this`lastWrite, this`lost, this`missed, this`garbled, this`requested
      modifies this`stopReason
      modifies this`destroyRuns, this`received, this`looks, this`receiptRead, this`accounts, this`logsDeleted
      modifies this`costOpened, this`costClosed, executor, machine
      ensures Valid() && Ended(exit, confirmed, identified, hardDeadline)
      ensures !confirmed ==> Unreturned(old(executor.ended))
      ensures confirmed ==>
                (identified <==> |accounts| > |old(accounts)| && accounts[|accounts| - 1] == Some(true))
    {
      identified := false;
      ghost var ended := executor.ended;
      var applied := RunApply(destroyDeadline, applySignals);
      EndedOnce(ended, End(AwsUp, applied.status, applied.confirmed));
      confirmed := applied.confirmed;
      if !applied.confirmed {
        exit := BlockCleanupOnProcess();
        return;
      }
      exit, identified := AfterApply(applied.status, destroyDeadline, hardDeadline, liveSignals);
    }

    /** The run once apply has ended: live, if it succeeded, and then the cleanup. */
    method AfterApply(applyStatus: int, destroyDeadline: nat, hardDeadline: nat, signals: nat)
        returns (exit: int, ghost identified: bool)
      requires Unconcluded() && executor.child == None && Rank(state.phase) <= Rank(Applying) && Launched(AwsUp)
      requires LastStatus(executor.ended, AwsUp) == Some(applyStatus) && -1 <= applyStatus <= 255
      requires destroyRuns == 0 && Ends(executor.ended, AwsDown) == 0
      modifies this`state, this`written, this`lastWrite, this`lost, this`missed, this`garbled, this`stopReason
      modifies this`destroyRuns, this`received, this`looks, this`receiptRead, this`accounts, this`logsDeleted
      modifies this`costOpened, this`costClosed, executor, machine
      ensures Concluded(exit) && BlockedIfOwned(exit) && Launched(Cost)
      ensures if identified then 1 <= destroyRuns <= 3 else destroyRuns == 0
      ensures destroyRuns == Ends(executor.ended, AwsDown) && state.applyExit == LastStatus(executor.ended, AwsUp)
      ensures !identified <==> state.blocked == IdentityUnverified
      ensures identified <==> |accounts| > |old(accounts)| && accounts[|accounts| - 1] == Some(true)
      ensures identified && executor.child == None ==> Judged(hardDeadline)
    {
      state := state.(applyExit := Some(applyStatus));
      HoldLive(applyStatus, destroyDeadline, signals);
      ghost var lookups;
      exit, identified, lookups := Cleanup(applyStatus, hardDeadline);
    }

    /** After a successful apply the session is held live; after any other there is nothing to wait for. */
    method HoldLive(applyStatus: int, destroyDeadline: nat, signals: nat)
      requires Unconcluded() && Rank(state.phase) <= Rank(Applying) && executor.child == None
      modifies this`state, this`written, this`lastWrite, this`lost, this`stopReason, this`received, this`looks
      modifies machine`now, machine`groups
      ensures Unconcluded() && Rank(state.phase) <= Rank(Live)
      ensures applyStatus != 0 ==> state == old(state) && written == old(written)
      ensures applyStatus == 0 ==> state == old(state).(phase := Live)
      ensures applyStatus != 0 ==> stopReason == if old(stopReason) == NoReason then ApplyFailed else old(stopReason)
      ensures applyStatus == 0 ==>
                match stopReason
                case StateWriteFailed => lost > old(lost)
                case ControllerError => BrokenBy(|old(looks)|, old(lost))
                case _ => WokenBy(destroyDeadline, old(received), |old(looks)|)
    {
      if applyStatus == 0 {
        var stored := Heartbeat(Live);
        if !stored {
          stopReason := StateWriteFailed;
        } else {
          var stopped := WaitForStop(destroyDeadline, signals);
          if !stopped {
            stopReason := ControllerError;
          }
        }
      } else if stopReason == NoReason {
        stopReason := ApplyFailed;
      }
    }

    /** The goroutine running apply has not begun, or its command and the executor agree. */
    ghost predicate Tracks(started: Option<Started>)
      reads this, executor
    {
      match started
      case None => executor.child == None
      case Some(Running(g)) => executor.child == Some(g)
      case Some(Busy) => executor.child.Some?
      case Some(NotStarted) => executor.child == None
    }
  }

  /** The signals sent by the time one is, and the time its grace ends at the latest. */
  function Upto(s: Signal): seq<Signal> {
    match s
    case Interrupt => LADDER[..1]
    case Terminate => LADDER[..2]
    case Kill => LADDER[..3]
  }

  function Graces(s: Signal): nat {
    match s
    case Interrupt => APPLY_INTERRUPT_GRACE
    case Terminate => APPLY_INTERRUPT_GRACE + APPLY_TERMINATE_GRACE
    case Kill => APPLY_INTERRUPT_GRACE + APPLY_TERMINATE_GRACE + APPLY_KILL_GRACE
  }

  /** A turn climbs, or lets time pass, or uses up a signal, or begins apply. */
  predicate TurnsDown(h: nat, t: int, left: nat, idle: bool, h': nat, t': int, left': nat, idle': bool) {
    || h' < h
    || (h' == h && t' < t)
    || (h' == h && t' == t && left' < left)
    || (h' == h && t' == t && left' == left && idle && !idle')
  }

  function Height(s: Signal): nat {
    match s
    case Interrupt => 2
    case Terminate => 1
    case Kill => 0
  }

  /** What was answered: the commands' ends, the log deletion, the failures on the transcript and among the heartbeats,
  and whether the cost query's file could be used. */
  datatype Evidence = Evidence(ended: seq<End>, logs: Option<bool>, garbled: nat, missed: nat, costKept: bool)

  /** What the cost query adds to the evidence: its exit, if its file could be opened and closed. */
  ghost function CostAnswer(e: Evidence): int {
    if e.costKept && LastStatus(e.ended, Cost).Some? then LastStatus(e.ended, Cost).value else 1
  }

  /** Every exit recorded is the last one of its command, and the verdict follows from them, the transcript, the log
  deletion, the heartbeats and the clock. */
  ghost predicate JudgedBy(s: Verdict.State, e: Evidence, overdue: bool) {
    var empty := LastStatus(e.ended, StateEmpty) == Some(0) && LastStatus(e.ended, InventoryEmpty) == Some(0);
    && s.applyExit == LastStatus(e.ended, AwsUp) && s.destroyExit == LastStatus(e.ended, AwsDown)
    && s.stateExit == LastStatus(e.ended, StateEmpty) && s.inventoryExit == LastStatus(e.ended, InventoryEmpty)
    && s.costExit == Some(CostAnswer(e)) && s.logs == e.logs
    && s.transcript == Some(e.garbled == 0) && s.overdue == overdue
    && s.verified == Some(empty) && s.phase == (if empty then Complete else CleanupFailed)
    && (s.result == Passed <==>
          && empty && !overdue
          && LastStatus(e.ended, AwsUp) == Some(0) && LastStatus(e.ended, AwsDown) == Some(0) && CostAnswer(e) == 0
          && e.logs == Some(true) && e.garbled == 0 && e.missed == 0)
  }

  ghost predicate FoundIn(f: Findings, e: Evidence) {
    && LastStatus(e.ended, AwsUp) == Some(f.apply) && LastStatus(e.ended, AwsDown) == Some(f.destroy)
    && LastStatus(e.ended, StateEmpty) == Some(f.state) && e.logs == Some(f.logs)
    && (f.transcript <==> e.garbled == 0) && (f.heartbeats <==> e.missed == 0)
  }

  /** One more command, with what was missed beside it, and the findings to go with it. */
  lemma FoundStays(f: Findings, e: Evidence, later: Evidence, c: Command, beats: bool)
    requires FoundIn(f, e) && OnlyRan(e.ended, later.ended, c) && (c == InventoryEmpty || c == Cost)
    requires later.logs == e.logs && later.garbled == e.garbled
    requires later.missed >= e.missed && (beats <==> later.missed == e.missed)
    ensures FoundIn(f.(heartbeats := f.heartbeats && beats), later)
  {
  }

  /** Concluding from true findings is a true conclusion. */
  lemma ConclusionIsJudged(s: Verdict.State, f: Findings, e: Evidence, runId: string, commit: string)
    requires Matches(s, f, runId, commit) && FoundIn(f, e)
    requires LastStatus(e.ended, InventoryEmpty) == Some(f.inventory) && f.cost == CostAnswer(e)
    ensures JudgedBy(Conclude(s, f), e, f.overdue)
  {
  }

  ghost predicate SameButPhase(a: Verdict.State, b: Verdict.State) {
    b == a.(phase := b.phase)
  }

  /** Nothing that comes after the last command started so far has been started. */
  lemma {:induction false} NothingLater(launches: seq<Launch>, last: Command, c: Command)
    requires InOrder(launches, last) && Order(last) < Order(c)
    ensures Starts(launches, c) == 0
  {
    if launches == [] {
    } else {
      var before := launches[..|launches| - 1];
      assert InOrder(before, last);
      NothingLater(before, last, c);
    }
  }

  /** Nor has any of it ended. */
  lemma {:induction false} NothingEnded(ended: seq<End>)
    requires forall i :: 0 <= i < |ended| ==> Order(ended[i].command) <= Order(StartSession)
    ensures forall c :: Order(c) >= Order(AwsUp) ==> Ends(ended, c) == 0 && LastStatus(ended, c) == None
  {
    if ended == [] {
    } else {
      NothingEnded(ended[..|ended| - 1]);
    }
  }

  /** Before apply nothing of the paid part was started. */
  lemma NothingStarted(launches: seq<Launch>)
    requires InOrder(launches, StartSession)
    ensures forall c :: Order(c) >= Order(AwsUp) ==> Starts(launches, c) == 0
  {
    forall c | Order(c) >= Order(AwsUp) ensures Starts(launches, c) == 0 {
      NothingLater(launches, StartSession, c);
    }
  }

  /** What the in-memory state satisfies at all times. */
  ghost predicate Recorded(s: Verdict.State, runId: string, commit: string) {
    && s.schema == 1 && s.runId == runId && s.commit == commit
    && ExitFits(s.applyExit) && ExitFits(s.destroyExit) && ExitFits(s.stateExit)
    && ExitFits(s.inventoryExit) && ExitFits(s.costExit)
  }

  lemma ConcludedWritable(s: Verdict.State, f: Findings, runId: string, commit: string)
    requires Recorded(s, runId, commit) && Matches(s, f, runId, commit) && s.blocked == NotBlocked
    requires -1 <= f.inventory <= 255 && -1 <= f.cost <= 255
    ensures Recorded(Conclude(s, f), runId, commit) && WrittenOk(Conclude(s, f), runId, commit)
    ensures CleanupCheck(Conclude(s, f), Conclude(s, f).destroyExit) != NotRun
  {
  }

  /** What every state the controller writes satisfies: the failure summary accepts it, and republishes
  its own verdict on the cleanup. */
  ghost predicate WrittenOk(s: Verdict.State, runId: string, commit: string) {
    && SummaryAccepts(s, runId, commit)
    && (PublishedVerified(s) <==> s.verified == Some(true))
  }
}
