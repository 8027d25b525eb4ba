/** The retry schedule of services/relay/config/retry.go.

Durations are int64 nanoseconds there.  A single delay always fits; the sums do not have to, so the
functions ending in 64 wrap the way Go's addition and multiplication wrap, and the plain ones are
the exact quantities they are meant to be. */
module Schedule {
  import opened Common

  const MAX_INT64: int := 0x7fff_ffff_ffff_ffff
  const TWO_64: int := 0x1_0000_0000_0000_0000

  datatype RetrySchedule = RetrySchedule(delays: seq<nat>, jitter: bool) {
    ghost predicate Valid() {
      forall i :: 0 <= i < |delays| ==> delays[i] <= MAX_INT64
    }

    function MaxAttempts(): nat { |delays| + 1 }
  }

  datatype Verdict = Accepted | EmptySchedule | BadTimeout | TooLong

  /** One comma-separated field of the setting, after trimming and time.ParseDuration. */
  datatype Field = Blank | Unparseable | Parsed(d: int)

  datatype ParseResult =
      ParseOk(schedule: RetrySchedule) | EmptyField(at: nat) | BadField(at: nat) | NegativeDelay(at: nat)

  function Wrap64(x: int): (r: int)
    ensures -MAX_INT64 - 1 <= r <= MAX_INT64
    ensures -MAX_INT64 - 1 <= x <= MAX_INT64 ==> r == x
  {
    (x + MAX_INT64 + 1) % TWO_64 - MAX_INT64 - 1
  }

  function Sum(delays: seq<nat>): (total: nat)
  {
    if delays == [] then 0 else Sum(delays[..|delays| - 1]) + delays[|delays| - 1]
  }

  lemma {:induction false} SumSplits(a: seq<nat>, b: seq<nat>)
    ensures Sum(a + b) == Sum(a) + Sum(b)
  {
    if b == [] {
      assert a + b == a;
    } else {
      assert (a + b)[..|a + b| - 1] == a + b[..|b| - 1];
      SumSplits(a, b[..|b| - 1]);
    }
  }

  lemma WrapAdds(x: int, y: int)
    ensures Wrap64(Wrap64(x) + y) == Wrap64(x + y)
  {
    var k := (x + MAX_INT64 + 1) / TWO_64;
    assert Wrap64(x) == x - k * TWO_64;
    WrapPeriodic(x + y, -k);
  }

  lemma WrapPeriodic(x: int, k: int)
    ensures Wrap64(x + k * TWO_64) == Wrap64(x)
  {
    var y := x + MAX_INT64 + 1;
    var q, m := y / TWO_64, y % TWO_64;
    assert y + k * TWO_64 == (q + k) * TWO_64 + m;
    ModUnique(y + k * TWO_64, q + k, m);
  }

  lemma ModUnique(y: int, q: int, m: int)
    requires y == q * TWO_64 + m && 0 <= m < TWO_64
    ensures y % TWO_64 == m
  {
  }

  /** Reads an explicit delay list.  It succeeds exactly when every field is a non-negative duration,
  and otherwise names the first offending field. */
  method ParseDelays(fields: seq<Field>, jitter: bool) returns (r: ParseResult)
    requires forall f :: f in fields && f.Parsed? ==> -MAX_INT64 - 1 <= f.d <= MAX_INT64
    ensures r.ParseOk? <==> forall i :: 0 <= i < |fields| ==> fields[i].Parsed? && fields[i].d >= 0
    ensures r.ParseOk? ==> r.schedule.Valid() && r.schedule.jitter == jitter
                           && |r.schedule.delays| == |fields|
                           && forall i :: 0 <= i < |fields| ==> r.schedule.delays[i] == fields[i].d
    ensures !r.ParseOk? ==> r.at < |fields|
                            && (forall i :: 0 <= i < r.at ==> fields[i].Parsed? && fields[i].d >= 0)
                            && match r
                               case EmptyField(at) => fields[at].Blank?
                               case BadField(at) => fields[at].Unparseable?
                               case NegativeDelay(at) => fields[at].Parsed? && fields[at].d < 0
                               case ParseOk(_) => true
  {
    var delays: seq<nat> := [];
    for i := 0 to |fields|
      invariant |delays| == i
      invariant forall j :: 0 <= j < i ==> fields[j].Parsed? && fields[j].d >= 0 && delays[j] == fields[j].d
    {
      match fields[i] {
        case Blank => return EmptyField(i);
        case Unparseable => return BadField(i);
        case Parsed(d) =>
          if d < 0 {
            return NegativeDelay(i);
          }
          assert fields[i] in fields;
          delays := delays + [d];
      }
    }
    r := ParseOk(RetrySchedule(delays, jitter));
  }

  /** The accumulating loop: it computes the exact sum wrapped once. */
  method Total64(s: RetrySchedule) returns (total: int)
    ensures total == Wrap64(Sum(s.delays))
  {
    total := 0;
    for i := 0 to |s.delays|
      invariant total == Wrap64(Sum(s.delays[..i]))
    {
      assert s.delays[..i + 1][..i] == s.delays[..i];
      WrapAdds(Sum(s.delays[..i]), s.delays[i]);
      total := Wrap64(total + s.delays[i]);
    }
    assert s.delays[..|s.delays|] == s.delays;
  }

  /** Equal jitter: half of the delay is fixed and `frac`, drawn from [0, 1), spreads the other half over a
  half-open range.  Over the reals. */
  function Jittered(jitter: bool, d: nat, frac: real): (r: nat)
    requires 0.0 <= frac < 1.0
    ensures d / 2 <= r <= d && (!jitter ==> r == d)
    ensures jitter && d >= 2 ==> r < 2 * (d / 2) <= d
  {
    if !jitter || d == 0 then d
    else
      var half := d / 2;
      ScaledBelow(half, frac);
      half + (frac * half as real).Floor
  }

  lemma ScaledBelow(half: nat, frac: real)
    requires 0.0 <= frac < 1.0
    ensures 0 <= (frac * half as real).Floor <= half
    ensures half > 0 ==> (frac * half as real).Floor < half
  {
    if half == 0 {
    } else {
      var spread := BelowWhole(half as real, frac);
      FloorBelow(half, spread);
    }
  }

  lemma BelowWhole(h: real, frac: real) returns (part: real)
    requires 0.0 <= frac < 1.0 && h > 0.0
    ensures part == frac * h && 0.0 <= part < h
  {
    part := frac * h;
    var rest := (1.0 - frac) * h;
    assert rest > 0.0 && part + rest == h;
  }

  lemma FloorBelow(n: nat, x: real)
    requires 0.0 <= x < n as real
    ensures 0 <= x.Floor < n
  {
  }

  /** The wait before a retry, counting from 1; None once the budget is spent. */
  function DelayFor(s: RetrySchedule, retry: int, frac: real): (r: Option<nat>)
    requires 0.0 <= frac < 1.0
    ensures r.Some? <==> 1 <= retry < s.MaxAttempts()
    ensures r.Some? ==> s.delays[retry - 1] / 2 <= r.value <= s.delays[retry - 1]
    ensures r.Some? && s.jitter && s.delays[retry - 1] >= 2 ==> r.value < s.delays[retry - 1]
  {
    if retry < 1 || retry > |s.delays| then None
    else Some(Jittered(s.jitter, s.delays[retry - 1], frac))
  }

  function WorstCase(s: RetrySchedule, timeout: nat): nat {
    Sum(s.delays) + s.MaxAttempts() * timeout
  }

  function WorstCase64(s: RetrySchedule, timeout: int): int {
    Wrap64(Wrap64(Sum(s.delays)) + Wrap64(s.MaxAttempts() * timeout))
  }

  /** The start-up check as written, with its wrapping arithmetic. */
  function ValidateStallBudget(s: RetrySchedule, budget: int, timeout: int): Verdict {
    if |s.delays| == 0 then EmptySchedule
    else if timeout <= 0 then BadTimeout
    else if WorstCase64(s, timeout) >= budget then TooLong
    else Accepted
  }

  lemma WorstCaseWraps(s: RetrySchedule, timeout: nat)
    ensures WorstCase64(s, timeout) == Wrap64(WorstCase(s, timeout))
  {
    var a, b := Sum(s.delays), s.MaxAttempts() * timeout;
    WrapAdds(a, Wrap64(b));
    WrapAdds(b, a);
  }

  /** While the exact worst case fits in an int64 the check is exact in both directions. */
  lemma ValidateIsExact(s: RetrySchedule, budget: int, timeout: int)
    requires |s.delays| > 0 && timeout > 0
    requires WorstCase(s, timeout) <= MAX_INT64
    ensures ValidateStallBudget(s, budget, timeout).Accepted? <==> WorstCase(s, timeout) < budget
  {
    WorstCaseWraps(s, timeout);
  }

  /** Past int64 the check can wave a schedule through: two delays of 2^62 ns, which each parse, sum
  to a negative duration. */
  lemma OverflowIsAccepted()
    ensures var s := RetrySchedule([0x4000_0000_0000_0000, 0x4000_0000_0000_0000], false);
            && s.Valid()
            && ValidateStallBudget(s, 30_000_000_000, 5_000_000_000).Accepted?
            && WorstCase(s, 5_000_000_000) > 30_000_000_000
  {
    var d: nat := 0x4000_0000_0000_0000;
    var s := RetrySchedule([d, d], false);
    assert s.delays[..1] == [d] && [d][..0] == [];
    assert Sum([d]) == d;
    assert Sum(s.delays) == 2 * d;
    WorstCaseWraps(s, 5_000_000_000);
  }

  /** Exactly when the guarantee holds whatever the budget: the worst case must fit, apart from the
  one residue no int64 budget lies above. */
  lemma GuaranteeIff(s: RetrySchedule, timeout: int)
    requires |s.delays| > 0 && timeout > 0
    ensures (forall budget :: -MAX_INT64 - 1 <= budget <= MAX_INT64
                              && ValidateStallBudget(s, budget, timeout).Accepted?
                              ==> WorstCase(s, timeout) < budget)
            <==> (WorstCase(s, timeout) <= MAX_INT64 || Wrap64(WorstCase(s, timeout)) == MAX_INT64)
  {
    WorstCaseWraps(s, timeout);
    var worst := WorstCase(s, timeout);
    if worst > MAX_INT64 && Wrap64(worst) != MAX_INT64 {
      assert ValidateStallBudget(s, MAX_INT64, timeout).Accepted?;
    }
  }
}
