/** The process executor of tools/m4-live-run/main.go.

A process group is the set of its members.  Only a live member can fork, and group ids are not
reused, so an empty group stays empty; ESRCH is the one proof of that.  The clock is in
milliseconds. */
module Processes {
  import opened Common

  const GROUP_EXIT_GRACE := 30_000
  const GROUP_KILL_GRACE := 5_000
  const GROUP_POLL := 100

  datatype Signal = Interrupt | Terminate | Kill

  datatype Command = VerifyGo | StartSession | AwsUp | AwsDown | StateEmpty | InventoryEmpty | Cost

  /** What kill(2) on a group reports. */
  datatype Probe = Gone | Reached | NotPermitted | ProbeFailed

  /** One started command and the groups that were alive when it was started. */
  datatype Launch = Launch(command: Command, group: nat, alive: set<nat>)

  /** How waiting for a command ended: its exit code, a member that kept its output open behind an exit of 0, or an
  error. */
  datatype Waited = Exited(code: int) | OutputHeld | WaitFailed {
    predicate Fits() { Exited? ==> -1 <= code <= 255 }
  }

  function StatusOf(w: Waited): int {
    match w
    case Exited(code) => code
    case OutputHeld => 0
    case WaitFailed => 127
  }

  datatype Started = Running(group: nat) | Busy | NotStarted

  /** One command that was run to its end, or given up on, and what it answered. */
  datatype End = End(command: Command, status: int, confirmed: bool)

  /** The order in which a run may start its commands. */
  function Order(c: Command): nat {
    match c
    case VerifyGo => 0
    case StartSession => 1
    case AwsUp => 2
    case AwsDown => 3
    case StateEmpty => 4
    case InventoryEmpty => 5
    case Cost => 6
  }

  /** Nothing was started after something that comes later, and nothing later than `last` was started at all. */
  ghost predicate InOrder(launches: seq<Launch>, last: Command) {
    && (forall i, j :: 0 <= i < j < |launches| ==> Order(launches[i].command) <= Order(launches[j].command))
    && forall i :: 0 <= i < |launches| ==> Order(launches[i].command) <= Order(last)
  }

  /** How often a command was started. */
  ghost function Starts(launches: seq<Launch>, c: Command): nat {
    if launches == [] then 0
    else Starts(launches[..|launches| - 1], c) + if launches[|launches| - 1].command == c then 1 else 0
  }

  /** What a command answered last. */
  ghost function LastStatus(ended: seq<End>, c: Command): Option<int> {
    if ended == [] then None
    else if ended[|ended| - 1].command == c then Some(ended[|ended| - 1].status)
    else LastStatus(ended[..|ended| - 1], c)
  }

  /** How often it was run. */
  ghost function Ends(ended: seq<End>, c: Command): nat {
    if ended == [] then 0 else Ends(ended[..|ended| - 1], c) + if ended[|ended| - 1].command == c then 1 else 0
  }

  /** Between the two only this command was run. */
  ghost predicate OnlyRan(before: seq<End>, after: seq<End>, c: Command) {
    forall d :: d != c ==> LastStatus(after, d) == LastStatus(before, d) && Ends(after, d) == Ends(before, d)
  }

  lemma EndedOnce(before: seq<End>, e: End)
    ensures forall c :: LastStatus(before + [e], c) == if e.command == c then Some(e.status) else LastStatus(before, c)
    ensures forall c :: Ends(before + [e], c) == Ends(before, c) + if e.command == c then 1 else 0
  {
    assert (before + [e])[..|before|] == before;
  }

  lemma StartedOnce(before: seq<Launch>, l: Launch, last: Command)
    requires InOrder(before, last) && Order(last) <= Order(l.command)
    ensures InOrder(before + [l], l.command)
    ensures forall c :: Starts(before + [l], c) == Starts(before, c) + if l.command == c then 1 else 0
  {
    assert (before + [l])[..|before|] == before;
  }

  /** Running a command starts it once or not at all. */
  ghost predicate AtMostOneMore(before: seq<Launch>, after: seq<Launch>, c: Command) {
    after == before
    || (|after| == |before| + 1 && after[..|before|] == before && after[|before|].command == c)
  }

  lemma StartedAtMostOnce(before: seq<Launch>, after: seq<Launch>, last: Command)
    requires InOrder(before, last) && AtMostOneMore(before, after, last)
    ensures InOrder(after, last)
    ensures forall c :: Starts(after, c) <= Starts(before, c) + if c == last then 1 else 0
  {
    if after != before {
      assert after == before + [after[|before|]];
      StartedOnce(before, after[|before|], last);
    }
  }

  ghost predicate Evolves(before: map<nat, set<nat>>, after: map<nat, set<nat>>) {
    && after.Keys == before.Keys
    && forall g :: g in before && before[g] == {} ==> after[g] == {}
  }

  class Machine {
    var now: nat
    var groups: map<nat, set<nat>>
    /** Every signal sent to a group, in order. */
    ghost var sent: seq<(nat, Signal)>
    /** What every inspection and signal was answered. */
    ghost var probes: seq<Probe>
    /** How each command that was waited for ended, by its group. */
    ghost var waits: map<nat, Waited>

    constructor ()
      ensures groups == map[] && now == 0 && sent == [] && probes == [] && waits == map[]
    {
      groups, now, sent, probes, waits := map[], 0, [], [], map[];
    }

    function Alive(): set<nat> reads this {
      set g | g in groups && groups[g] != {}
    }

    /** Members fork and exit. */
    method Churn()
      modifies this`groups
      ensures Evolves(old(groups), groups)
    {
    }

    method Sleep(ms: nat)
      modifies this`now, this`groups
      ensures now == old(now) + ms && Evolves(old(groups), groups)
    {
      now := now + ms;
      Churn();
    }

    /** Waits for a group's leader, for as long as it takes. */
    method Wait(g: nat) returns (w: Waited)
      modifies this`now, this`groups, this`waits
      ensures now >= old(now) && Evolves(old(groups), groups)
      ensures waits == old(waits)[g := w] && w.Fits()
    {
      var took :| took >= 0;
      Sleep(took);
      w := AnyWait();
      waits := waits[g := w];
    }

    /** Sends a signal, or only asks with None.  SIGKILL does not have to be acted on at once. */
    method Kill(g: nat, signal: Option<Signal>) returns (p: Probe)
      requires g in groups
      modifies this`groups, this`sent, this`probes
      ensures Evolves(old(groups), groups)
      ensures p.Gone? ==> groups[g] == {}
      ensures if signal.Some? then sent == old(sent) + [(g, signal.value)] else sent == old(sent)
      ensures probes == old(probes) + [p]
    {
      if signal.Some? {
        sent := sent + [(g, signal.value)];
      }
      Churn();
      p := *;
      if groups[g] != {} && p.Gone? {
        p := Reached;
      }
      probes := probes + [p];
    }

    /** The last members of a group exit. */
    method Drain(g: nat)
      requires g in groups
      modifies this`groups
      ensures Evolves(old(groups), groups) && groups[g] == {}
      ensures forall h :: h in groups && h != g ==> groups[h] == old(groups)[h]
    {
      groups := groups[g := {}];
    }

    /** A new group with its leader as the only member. */
    method Spawn() returns (g: nat)
      modifies this`groups
      ensures g !in old(groups) && groups.Keys == old(groups).Keys + {g} && groups[g] != {}
      ensures forall h :: h in old(groups) ==> groups[h] == old(groups)[h]
    {
      g := FreshGroup(groups.Keys);
      groups := groups[g := {g}];
    }
  }

  method AnyWait() returns (w: Waited)
    ensures w.Fits()
  {
    w := *;
    if !w.Fits() {
      w := WaitFailed;
    }
  }

  method FreshGroup(used: set<nat>) returns (g: nat)
    ensures g !in used
  {
    g := 0;
    var rest := used;
    while rest != {}
      invariant rest <= used && forall x :: x in used && x !in rest ==> x < g
    {
      var x :| x in rest;
      g := if x < g then g else x + 1;
      rest := rest - {x};
    }
  }

  datatype RunResult = RunResult(status: int, confirmed: bool)

  class Executor {
    const machine: Machine
    var child: Option<nat>
    var pending: Option<Signal>
    ghost var launches: seq<Launch>
    ghost var ended: seq<End>

    /** Only the group that owns the executor can be alive, and no command was ever started while
    another one's group was. */
    ghost predicate Valid()
      reads this, machine
    {
      && (forall g :: g in machine.groups && machine.groups[g] != {} ==> child == Some(g))
      && (child.Some? ==> child.value in machine.groups)
      && (forall i :: 0 <= i < |launches| ==> launches[i].alive == {})
    }

    constructor (machine: Machine)
      requires machine.groups == map[]
      ensures Valid() && child == None && pending == None && launches == [] && ended == [] && this.machine == machine
    {
      this.machine := machine;
      child, pending, launches, ended := None, None, [], [];
    }

    /** What other goroutines may do while a command owns the executor: send or queue a signal, or
    clear a queued one. */
    method Others()
      requires Valid()
      modifies this`pending, machine`groups, machine`sent, machine`probes
      ensures Valid() && Evolves(old(machine.groups), machine.groups)
      ensures old(machine.sent) <= machine.sent && old(machine.probes) <= machine.probes
    {
      machine.Churn();
      pending := *;
    }

    /** Reserves the executor and starts the command, delivering a signal queued before it. */
    method Start(command: Command) returns (r: Started)
      requires Valid()
      modifies this`child, this`pending, this`launches, machine`groups, machine`sent, machine`probes
      ensures Valid()
      ensures machine.sent == old(machine.sent) +
                              if r.Running? && old(pending).Some? then [(r.group, old(pending).value)] else []
      ensures old(child).Some? ==>
                r == Busy && child == old(child) && launches == old(launches)
                && machine.groups.Keys == old(machine.groups).Keys
      ensures old(child).None? ==> !r.Busy? && pending == None
      ensures r.Running? ==>
                && child == Some(r.group) && r.group !in old(machine.groups)
                && launches == old(launches) + [Launch(command, r.group, {})]
                && machine.Alive() <= {r.group}
      ensures r.NotStarted? ==> child == None && launches == old(launches)
    {
      if child.Some? {
        return Busy;
      }
      ghost var alive := machine.Alive();
      var failed: bool := *;
      if failed {
        pending := None;
        return NotStarted;
      }
      var g := machine.Spawn();
      launches := launches + [Launch(command, g, alive)];
      child := Some(g);
      var queued := pending;
      pending := None;
      if queued.Some? {
        var _ := machine.Kill(g, queued);
      }
      r := Running(g);
    }

    /** Waits for the command and then for its group; gives the executor back only once the group is
    known to be empty. */
    method Finish(g: nat) returns (r: RunResult)
      requires Valid() && child == Some(g)
      modifies this`child, this`pending, machine
      ensures Valid() && Ended(g, r) && machine.groups.Keys == old(machine.groups).Keys
      ensures machine.now >= old(machine.now)
    {
      var waited := machine.Wait(g);
      Others();
      var gone := WaitForGroupExit(g);
      if !gone {
        return RunResult(127, false);
      }
      child := None;
      r := RunResult(StatusOf(waited), true);
    }

    /** How a command that owned the executor ends. */
    ghost predicate Ended(g: nat, r: RunResult)
      reads this, machine
    {
      && g in machine.groups
      && -1 <= r.status <= 255
      && g in machine.waits
      && (r.confirmed ==> child == None && machine.groups[g] == {} && machine.Alive() == {})
      && (r.confirmed ==> r.status == StatusOf(machine.waits[g]))
      && (!r.confirmed ==> child == Some(g) && r.status == 127)
    }

    /** SIGKILL was sent to the group since, and both graces have passed. */
    ghost predicate SurvivedKill(before: seq<(nat, Signal)>, start: nat, g: nat)
      reads this, machine
    {
      && (exists i :: |before| <= i < |machine.sent| && machine.sent[i] == (g, Signal.Kill))
      && machine.now > start + 30_000 + 5_000
    }

    /** Returns true only when the group is gone; a member that outlives the grace is killed, and one
    that outlives that too, or cannot be inspected, leaves the exit unconfirmed.  Either answer comes in bounded
    time. */
    method WaitForGroupExit(g: nat) returns (gone: bool)
      requires Valid() && child == Some(g)
      modifies this`pending, machine`now, machine`groups, machine`sent, machine`probes
      ensures Valid() && child == Some(g) && machine.groups.Keys == old(machine.groups).Keys
      ensures gone ==> machine.groups[g] == {}
      ensures old(machine.sent) <= machine.sent && old(machine.probes) < machine.probes
      ensures var last := machine.probes[|machine.probes| - 1];
              && (gone <==> last.Gone?)
              && (!gone ==> last.ProbeFailed? || SurvivedKill(old(machine.sent), old(machine.now), g))
      ensures old(machine.now) <= machine.now <= old(machine.now) + 30_000 + 5_000 + 200
    {
      var deadline := machine.now + GROUP_EXIT_GRACE;
      var killed := false;
      ghost var kill := 0;
      while true
        invariant Valid() && child == Some(g) && machine.groups.Keys == old(machine.groups).Keys
        invariant old(machine.sent) <= machine.sent && old(machine.probes) <= machine.probes
        invariant old(machine.now) <= machine.now
        invariant killed ==> |old(machine.sent)| <= kill < |machine.sent| && machine.sent[kill] == (g, Signal.Kill)
        invariant if killed then deadline > old(machine.now) + GROUP_EXIT_GRACE + GROUP_KILL_GRACE
                  else deadline == old(machine.now) + GROUP_EXIT_GRACE
        invariant machine.now <= deadline + GROUP_POLL
        invariant deadline <= old(machine.now) + GROUP_EXIT_GRACE +
                              (if killed then GROUP_KILL_GRACE + GROUP_POLL else 0)
        decreases !killed, deadline + GROUP_POLL - machine.now
      {
        var p := machine.Kill(g, None);
        if p.Gone? {
          return true;
        }
        if p.ProbeFailed? {
          return false;
        }
        if machine.now > deadline {
          if killed {
            return false;
          }
          p := machine.Kill(g, Some(Signal.Kill));
          if p.Gone? {
            return true;
          }
          if p.ProbeFailed? {
            return false;
          }
          killed, kill := true, |machine.sent| - 1;
          deadline := machine.now + GROUP_KILL_GRACE;
        }
        machine.Sleep(GROUP_POLL);
        Others();
      }
    }

    /** Runs one command to its end.  A command still owning the executor is never replaced, and without one the
    command is started, unless it cannot be. */
    method Run(command: Command) returns (r: RunResult)
      requires Valid()
      modifies this, machine
      ensures Valid() && -1 <= r.status <= 255
      ensures old(child).Some? ==>
                !r.confirmed && child == old(child) && launches == old(launches)
                && machine.groups.Keys == old(machine.groups).Keys
      ensures r.confirmed ==> child == None && machine.Alive() == {}
      ensures old(child).None? && !r.confirmed ==> child.Some? && |launches| == |old(launches)| + 1
      ensures old(child).None? ==> AtMostOneMore(old(launches), launches, command)
      ensures old(child).None? && launches == old(launches) ==> r == RunResult(127, true)
      ensures ended == old(ended) + [End(command, r.status, r.confirmed)]
      ensures old(child).None? && launches != old(launches) ==> Ended(launches[|launches| - 1].group, r)
      ensures machine.now >= old(machine.now)
    {
      var s := Start(command);
      match s {
        case Busy => r := RunResult(127, false);
        case NotStarted =>
          assert machine.Alive() == {};
          r := RunResult(127, true);
        case Running(g) => r := Finish(g);
      }
      ended := ended + [End(command, r.status, r.confirmed)];
    }

    /** The command started earlier has returned by now: its `Finish` has run in the meantime, in the goroutine that
    started it, and this only takes the result.  What that did to the group and the executor happens here, within
    what `Finish` promises; no time of the caller's passes. */
    method Collect(s: Started, command: Command) returns (r: RunResult)
      requires Valid() && (s.Running? ==> child == Some(s.group)) && (s.Busy? ==> child.Some?)
      requires s.NotStarted? ==> child.None?
      modifies this`child, this`ended, machine`groups, machine`sent, machine`probes, machine`waits
      ensures ended == old(ended) + [End(command, r.status, r.confirmed)]
      ensures Valid() && -1 <= r.status <= 255 && machine.groups.Keys == old(machine.groups).Keys
      ensures s.Running? ==> Ended(s.group, r)
      ensures s.NotStarted? ==> r == RunResult(127, true) && child == None
      ensures s.Busy? ==> r == RunResult(127, false) && child == old(child)
      ensures r.confirmed ==> child == None && machine.Alive() == {}
      ensures !r.confirmed ==> child.Some?
      ensures old(machine.sent) <= machine.sent
    {
      match s {
        case Busy => r := RunResult(127, false);
        case NotStarted =>
          r := RunResult(127, true);
          assert machine.Alive() == {};
        case Running(g) =>
          var gone: bool := *;
          var waited := AnyWait();
          machine.waits := machine.waits[g := waited];
          r := RunResult(127, false);
          if gone {
            machine.Drain(g);
            child := None;
            r := RunResult(StatusOf(waited), true);
          }
      }
      ended := ended + [End(command, r.status, r.confirmed)];
    }

    method RequestSignal(s: Signal)
      requires Valid()
      modifies this`pending, machine`groups, machine`sent, machine`probes
      ensures Valid() && Evolves(old(machine.groups), machine.groups)
      ensures child.None? ==> pending == Some(s) && machine.sent == old(machine.sent)
      ensures child.Some? ==> pending == old(pending) && machine.sent == old(machine.sent) + [(child.value, s)]
    {
      if child.None? {
        pending := Some(s);
        return;
      }
      var _ := machine.Kill(child.value, Some(s));
    }

    method ClearPending()
      requires Valid()
      modifies this`pending
      ensures Valid() && pending == None
    {
      pending := None;
    }
  }
}
