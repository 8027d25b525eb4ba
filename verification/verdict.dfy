/** The controller's persisted state and the two programs that judge it: the Go controller of
tools/m4-live-run/main.go and the Python validators of scripts/m4-evidence.py. */
module Verdict {
  import opened Common

  datatype Phase = Applying | Live | Destroying | Verifying | Complete | CleanupFailed | Unset

  datatype Result = NoResult | Passed | ApplyFailedCleanupComplete | CleanupOverdue | CompleteWithErrors | Failed

  datatype Blocked = NotBlocked | IdentityUnverified | ExitUnconfirmed

  /** The fields of controllerState the validators read.  None is a field the encoder omits; the two
  time stamps are kept as whether they are set. */
  datatype State = State(
    schema: int, runId: string, commit: string,
    phase: Phase, result: Result,
    applyExit: Option<int>, destroyStarted: bool, destroyExit: Option<int>, logs: Option<bool>,
    stateExit: Option<int>, transcript: Option<bool>, inventoryExit: Option<int>, costExit: Option<int>,
    finished: bool, blocked: Blocked, overdue: bool, verified: Option<bool>)

  function Rank(p: Phase): nat {
    match p
    case Unset => 0
    case Applying => 1
    case Live => 2
    case Destroying => 3
    case Verifying => 4
    case Complete => 5
    case CleanupFailed => 5
  }

  function NewState(runId: string, commit: string): State {
    State(1, runId, commit, Unset, NoResult, None, false, None, None, None, None, None, None, false, NotBlocked, false,
        None)
  }

  // validate_proof

  /** The controller clauses a publication of a passing run requires. */
  predicate ProofAccepts(s: State, runId: string, commit: string) {
    && s.schema == 1 && s.runId == runId && s.commit == commit
    && s.phase == Complete && s.result == Passed
    && s.verified == Some(true) && !s.overdue && s.logs == Some(true) && s.transcript == Some(true)
    && s.applyExit == Some(0) && s.destroyExit == Some(0) && s.stateExit == Some(0)
    && s.inventoryExit == Some(0) && s.costExit == Some(0)
  }

  // failed_summary

  predicate ExitFits(e: Option<int>) { e.Some? ==> -1 <= e.value <= 255 }

  /** The checks after which a summary of the state is published at all. */
  predicate SummaryAccepts(s: State, runId: string, commit: string) {
    && s.schema == 1 && s.runId == runId && s.commit == commit && s.phase != Unset
    && ExitFits(s.applyExit) && ExitFits(s.destroyExit) && ExitFits(s.stateExit)
    && ExitFits(s.inventoryExit) && ExitFits(s.costExit)
  }

  /** The `cleanup_verified` the summary publishes, recomputed from the rest of the state. */
  function PublishedVerified(s: State): bool {
    s.phase == Complete && s.finished && s.verified == Some(true) && s.stateExit == Some(0)
        && s.inventoryExit == Some(0)
  }

  datatype Check = CheckPassed | CheckFailed | NotRun | Unknown

  /** The status published for every exit but apply's. */
  function CleanupCheck(s: State, e: Option<int>): Check {
    if e.Some? then (if e.value == 0 then CheckPassed else CheckFailed)
    else if s.blocked == IdentityUnverified || (s.blocked == ExitUnconfirmed && !s.destroyStarted) then NotRun
    else Unknown
  }

  // The controller's own conclusion

  /** Everything the end of `cleanup` decides from. */
  datatype Findings = Findings(apply: int, destroy: int, logs: bool, state: int, transcript: bool, inventory: int,
                               cost: int, heartbeats: bool, overdue: bool) {
    predicate CleanupPassed() { state == 0 && inventory == 0 }

    predicate EvidencePassed() { destroy == 0 && logs && transcript && cost == 0 && heartbeats }
  }

  function Conclude(s: State, f: Findings): State {
    var t := s.(inventoryExit := Some(f.inventory), costExit := Some(f.cost), finished := true,
                overdue := f.overdue, verified := Some(f.CleanupPassed()));
    if f.CleanupPassed() then
      t.(phase := Complete,
         result := if f.overdue then CleanupOverdue
                   else if f.apply != 0 then ApplyFailedCleanupComplete
                   else if !f.EvidencePassed() then CompleteWithErrors
                   else Passed)
    else t.(phase := CleanupFailed, result := Failed)
  }

  /** Writing a state can fail before the rename, leaving the old file, or after it. */
  datatype Write = Stored | Lost | StoredButFailed

  function ExitCode(f: Findings, last: Write): int {
    if !f.CleanupPassed() || last != Stored then 1
    else if f.apply != 0 || f.overdue || !f.EvidencePassed() then 1
    else 0
  }

  /** The state was filled in from the same findings, as cleanup does before it concludes. */
  predicate Matches(s: State, f: Findings, runId: string, commit: string) {
    && s.schema == 1 && s.runId == runId && s.commit == commit
    && s.applyExit == Some(f.apply) && s.destroyExit == Some(f.destroy) && s.logs == Some(f.logs)
    && s.stateExit == Some(f.state) && s.transcript == Some(f.transcript)
  }

  /** The validator accepts the concluded state exactly when the controller has nothing to complain
  about; whatever else happened, only a missed heartbeat is not in the file itself. */
  lemma ConcludedIff(s: State, f: Findings, runId: string, commit: string)
    requires Matches(s, f, runId, commit)
    ensures ProofAccepts(Conclude(s, f), runId, commit)
            <==> f.CleanupPassed() && f.EvidencePassed() && f.apply == 0 && !f.overdue
  {
  }

  /** Exit code 0 is an accepted file whose last write also reported success; an accepted file left by a
  run that exits otherwise is exactly one whose rename was followed by a failure. */
  lemma ExitZeroIff(s: State, f: Findings, last: Write, runId: string, commit: string)
    requires Matches(s, f, runId, commit)
    ensures ExitCode(f, last) == 0 <==> last == Stored && ProofAccepts(Conclude(s, f), runId, commit)
    ensures last != Lost && ProofAccepts(Conclude(s, f), runId, commit) ==>
              (ExitCode(f, last) != 0 <==> last == StoredButFailed)
  {
    ConcludedIff(s, f, runId, commit);
  }

  /** The disagreement is real: a clean run whose final rename succeeds and whose chmod then fails exits 1
  and leaves a state the validator accepts. */
  lemma LateFailureDisagrees()
    ensures var f := Findings(0, 0, true, 0, true, 0, 0, true, false);
            var s := NewState("r", "c").(phase := Verifying, applyExit := Some(0), destroyExit := Some(0),
                                         logs := Some(true), stateExit := Some(0), transcript := Some(true));
            && Matches(s, f, "r", "c")
            && ExitCode(f, StoredButFailed) == 1
            && ProofAccepts(Conclude(s, f), "r", "c")
  {
  }
}
