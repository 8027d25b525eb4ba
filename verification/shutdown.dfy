/** The shutdown plan: a declared sequence of bounded steps, and actions that own slices of it. */
module Shutdown {
  type StepId = string

  datatype Step = Step(id: StepId, timeout: int)

  datatype Action = Action(steps: seq<StepId>)

  function Ids(sequence: seq<Step>): (r: seq<StepId>)
    ensures |r| == |sequence| && forall i :: 0 <= i < |r| ==> r[i] == sequence[i].id
  {
    seq(|sequence|, i requires 0 <= i < |sequence| => sequence[i].id)
  }

  /** The steps that the actions own, in order. */
  function Owned(actions: seq<Action>): seq<StepId> {
    if actions == [] then [] else actions[0].steps + Owned(actions[1..])
  }

  predicate EachOwnsSteps(actions: seq<Action>) {
    forall i :: 0 <= i < |actions| ==> actions[i].steps != []
  }

  /** The actions own the sequence, all of it and nothing else. */
  predicate Matches(sequence: seq<Step>, actions: seq<Action>) {
    EachOwnsSteps(actions) && Owned(actions) == Ids(sequence)
  }

  function Concat(slices: seq<seq<Step>>): seq<Step> {
    if slices == [] then [] else slices[0] + Concat(slices[1..])
  }

  lemma {:induction false} ConcatGrows(slices: seq<seq<Step>>, slice: seq<Step>)
    ensures Concat(slices + [slice]) == Concat(slices) + slice
  {
    if slices == [] {
      assert slices + [slice] == [slice] && Concat([slice]) == slice + Concat([]);
    } else {
      ConcatGrows(slices[1..], slice);
      assert (slices + [slice])[1..] == slices[1..] + [slice];
    }
  }

  lemma {:induction false} OwnedGrows(actions: seq<Action>, a: Action)
    ensures Owned(actions + [a]) == Owned(actions) + a.steps
  {
    if actions == [] {
      assert actions + [a] == [a] && Owned([a]) == a.steps + Owned([]);
    } else {
      OwnedGrows(actions[1..], a);
      assert (actions + [a])[1..] == actions[1..] + [a];
    }
  }

  lemma {:induction false} OwnedPrefix(actions: seq<Action>, n: nat)
    requires n <= |actions|
    ensures Owned(actions[..n]) <= Owned(actions)
  {
    if n == 0 {
    } else {
      assert actions[..n][1..] == actions[1..][..n - 1];
      OwnedPrefix(actions[1..], n - 1);
    }
  }

  /** The sum of the steps' bounds. */
  function DrainBudget(sequence: seq<Step>): int {
    if sequence == [] then 0 else sequence[0].timeout + DrainBudget(sequence[1..])
  }

  lemma {:induction false} BudgetsAdd(a: seq<Step>, b: seq<Step>)
    ensures DrainBudget(a + b) == DrainBudget(a) + DrainBudget(b)
  {
    if a == [] {
      assert a + b == b;
    } else {
      BudgetsAdd(a[1..], b);
      assert (a + b)[1..] == a[1..] + b;
    }
  }

  function HandedOut(slices: seq<seq<Step>>): int {
    if slices == [] then 0 else DrainBudget(slices[0]) + HandedOut(slices[1..])
  }

  /** Slices that make up a sequence are handed its whole budget. */
  lemma {:induction false} HandsOutTheBudget(slices: seq<seq<Step>>)
    ensures HandedOut(slices) == DrainBudget(Concat(slices))
  {
    if slices == [] {
    } else {
      HandsOutTheBudget(slices[1..]);
      BudgetsAdd(slices[0], Concat(slices[1..]));
    }
  }

  datatype Result = OwnsNothing(action: nat) | ExtraStep(at: nat) | DifferentStep(at: nat) | OmittedStep(at: nat)
                  | Executed(failed: seq<nat>)

  predicate Increasing(s: seq<nat>) {
    forall i, j :: 0 <= i < j < |s| ==> s[i] < s[j]
  }

  predicate IsFirstDifference(sequence: seq<Step>, actions: seq<Action>, at: nat) {
    && at < |sequence| && at < |Owned(actions)| && Owned(actions)[..at] == Ids(sequence)[..at]
    && Owned(actions)[at] != Ids(sequence)[at]
  }

  /** What a refusal says about the plan. */
  predicate Explains(r: Result, sequence: seq<Step>, actions: seq<Action>) {
    match r
    case OwnsNothing(i) => i < |actions| && actions[i].steps == [] && Owned(actions[..i]) <= Ids(sequence)
    case ExtraStep(at) => at == |sequence| < |Owned(actions)| && Ids(sequence) <= Owned(actions)
    case DifferentStep(at) => IsFirstDifference(sequence, actions, at)
    case OmittedStep(at) => at == |Owned(actions)| < |sequence| && Owned(actions) <= Ids(sequence)
    case Executed(_) => false
  }

  /** Runs the actions it is given and remembers what each was handed. */
  class Process {
    var ran: seq<seq<Step>>
    var errors: seq<bool>

    constructor ()
      ensures ran == [] && errors == []
    {
      ran, errors := [], [];
    }

    /** One action; whether it fails is its own affair. */
    method Run(steps: seq<Step>) returns (failed: bool)
      modifies this
      ensures ran == old(ran) + [steps] && errors == old(errors) + [failed]
    {
      var fails: bool := *;
      failed := fails;
      ran, errors := ran + [steps], errors + [failed];
    }

    /** Refuses before anything runs, or runs every action once and in order, whatever fails, on consecutive slices. */
    method Execute(sequence: seq<Step>, actions: seq<Action>) returns (r: Result)
      requires ran == [] && errors == []
      modifies this
      ensures r.Executed? <==>
                (forall i :: 0 <= i < |actions| ==> actions[i].steps != []) && Owned(actions) == Ids(sequence)
      ensures !r.Executed? ==> Explains(r, sequence, actions) && ran == []
      ensures r.Executed? ==> |ran| == |errors| == |actions| && Concat(ran) == sequence
      ensures r.Executed? ==> forall i :: 0 <= i < |actions| ==> Ids(ran[i]) == actions[i].steps
      ensures r.Executed? ==> forall i: nat :: i in r.failed <==> i < |errors| && errors[i]
      ensures r.Executed? ==> Increasing(r.failed)
      ensures r.Executed? ==> HandedOut(ran) == DrainBudget(sequence)
    {
      var refusal := Check(sequence, actions);
      if !refusal.Executed? {
        return refusal;
      }
      var failed: seq<nat> := [];
      var offset := 0;
      for i := 0 to |actions|
        invariant offset == |Owned(actions[..i])| <= |sequence|
        invariant |ran| == |errors| == i && Concat(ran) == sequence[..offset]
        invariant forall k :: 0 <= k < i ==> Ids(ran[k]) == actions[k].steps
        invariant forall k: nat :: k in failed <==> k < i && errors[k]
        invariant Increasing(failed)
      {
        SliceIsOwned(sequence, actions, i);
        var steps := sequence[offset..offset + |actions[i].steps|];
        offset := offset + |actions[i].steps|;
        ConcatGrows(ran, steps);
        var error := Run(steps);
        if error {
          assert forall k :: 0 <= k < |failed| ==> failed[k] in failed;
          failed := failed + [i];
        }
      }
      assert actions[..|actions|] == actions && sequence[..|sequence|] == sequence;
      HandsOutTheBudget(ran);
      return Executed(failed);
    }
  }

  lemma SliceIsOwned(sequence: seq<Step>, actions: seq<Action>, i: nat)
    requires Matches(sequence, actions) && i < |actions|
    ensures var at := |Owned(actions[..i])|;
            at + |actions[i].steps| == |Owned(actions[..i + 1])| <= |sequence| &&
            Ids(sequence[at..at + |actions[i].steps|]) == actions[i].steps
  {
    assert actions[..i + 1] == actions[..i] + [actions[i]];
    OwnedGrows(actions[..i], actions[i]);
    OwnedPrefix(actions, i + 1);
  }

  /** The first pass: `Executed` stands for no objection. */
  method Check(sequence: seq<Step>, actions: seq<Action>) returns (r: Result)
    ensures r == Executed([]) <==>
              (forall i :: 0 <= i < |actions| ==> actions[i].steps != []) && Owned(actions) == Ids(sequence)
    ensures r != Executed([]) ==> Explains(r, sequence, actions)
  {
    var offset := 0;
    for i := 0 to |actions|
      invariant offset == |Owned(actions[..i])| <= |sequence| && Owned(actions[..i]) <= Ids(sequence)
      invariant EachOwnsSteps(actions[..i])
    {
      var steps := actions[i].steps;
      assert actions[..i + 1] == actions[..i] + [actions[i]];
      OwnedGrows(actions[..i], actions[i]);
      OwnedPrefix(actions, i + 1);
      if steps == [] {
        return OwnsNothing(i);
      }
      for k := 0 to |steps|
        invariant offset == |Owned(actions[..i])| + k <= |sequence|
        invariant Owned(actions[..i]) + steps[..k] <= Ids(sequence)
      {
        assert Owned(actions)[offset] == steps[k];
        if offset >= |sequence| {
          return ExtraStep(offset);
        }
        if sequence[offset].id != steps[k] {
          return DifferentStep(offset);
        }
        offset := offset + 1;
      }
      assert steps[..|steps|] == steps;
    }
    assert actions[..|actions|] == actions;
    if offset != |sequence| {
      return OmittedStep(offset);
    }
    return Executed([]);
  }

  // The two modes

  const DELIVER_SEQUENCE := [
    Step("deliver-record-drain", 30), Step("deliver-interrupted-attempt-write", 5), Step("health-server", 5),
    Step("resource-close", 5), Step("trace-flush", 3)]

  const INGEST_SEQUENCE := [
    Step("ingest-readiness-grace", 3), Step("ingest-http-server", 20), Step("resource-close", 5),
    Step("trace-flush", 3)]

  const DELIVER_ACTIONS := [
    Action(["deliver-record-drain", "deliver-interrupted-attempt-write"]), Action(["health-server"]),
    Action(["resource-close"]), Action(["trace-flush"])]

  const INGEST_ACTIONS := [
    Action(["ingest-readiness-grace", "ingest-http-server"]), Action(["resource-close"]), Action(["trace-flush"])]

  const DELIVER_GRACE := 60
  const INGEST_GRACE := 45

  lemma {:induction false} OwnedOfFour(a: Action, b: Action, c: Action, d: Action)
    ensures Owned([a, b, c]) == a.steps + b.steps + c.steps
    ensures Owned([a, b, c, d]) == a.steps + b.steps + c.steps + d.steps
  {
    OwnedGrows([], a);
    OwnedGrows([a], b);
    OwnedGrows([a, b], c);
    OwnedGrows([a, b, c], d);
    assert [] + [a] == [a] && [a] + [b] == [a, b] && [a, b] + [c] == [a, b, c] && [a, b, c] + [d] == [a, b, c, d];
  }

  /** Both modes' actions own their sequence, and each drain fits its pod's grace period. */
  lemma ShippedPlansMatch()
    ensures Matches(DELIVER_SEQUENCE, DELIVER_ACTIONS) && Matches(INGEST_SEQUENCE, INGEST_ACTIONS)
    ensures DrainBudget(DELIVER_SEQUENCE) == 48 < DELIVER_GRACE && DrainBudget(INGEST_SEQUENCE) == 31 < INGEST_GRACE
  {
    OwnedOfFour(DELIVER_ACTIONS[0], DELIVER_ACTIONS[1], DELIVER_ACTIONS[2], DELIVER_ACTIONS[3]);
    OwnedOfFour(INGEST_ACTIONS[0], INGEST_ACTIONS[1], INGEST_ACTIONS[2], INGEST_ACTIONS[2]);
    BudgetOfFour(DELIVER_SEQUENCE[1..]);
    BudgetOfFour(INGEST_SEQUENCE);
  }

  lemma BudgetOfFour(s: seq<Step>)
    requires |s| == 4
    ensures DrainBudget(s) == s[0].timeout + s[1].timeout + s[2].timeout + s[3].timeout
  {
    assert s[3..][1..] == [] && DrainBudget(s[3..]) == s[3].timeout;
    assert s[2..][1..] == s[3..] && DrainBudget(s[2..]) == s[2].timeout + DrainBudget(s[3..]);
    assert s[1..][1..] == s[2..] && DrainBudget(s[1..]) == s[1].timeout + DrainBudget(s[2..]);
  }
}
