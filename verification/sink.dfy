/** The receiver's delivery buffer, its counters and its latches. */
module Sink {
  import opened Common

  datatype Delivery = Delivery(path: string, webhook: string, kind: string, data: string, status: int)

  datatype Outcome = Outcome(path: string, status: int)

  const DEFAULT_RETAIN := 10000

  // The history a buffer stands for

  /** The newest `n` deliveries; all of them for a negative `n`. */
  function Newest(history: seq<Delivery>, n: int): (r: seq<Delivery>)
  {
    if n < 0 || |history| <= n then history else history[|history| - n..]
  }

  /** The newest are the tail of the history, of all its length or of theirs. */
  lemma IsTail(history: seq<Delivery>, retain: int)
    ensures var all := Newest(history, if retain == 0 then -1 else retain);
            && |all| <= |history| && all == history[|history| - |all|..]
            && (retain > 0 ==> |all| <= retain) && (|all| == |history| || (retain > 0 && |all| == retain))
  {
  }

  /** The tail of a tail is a shorter tail. */
  lemma TailOfTail<T>(history: seq<T>, n: nat, limit: nat)
    requires limit <= n <= |history|
    ensures history[|history| - n..][n - limit..] == history[|history| - limit..]
  {
  }

  /** One more delivery enters at the end and pushes out at most the oldest. */
  lemma NewestGrows(history: seq<Delivery>, d: Delivery, retain: int)
    requires retain != 0
    ensures Newest(history + [d], retain) ==
            (if retain < 0 || |history| < retain then Newest(history, retain) else Newest(history, retain)[1..]) + [d]
  {
  }

  // Sums over a map

  ghost function Sum(m: map<Outcome, nat>): nat
    decreases |m|
  {
    if m == map[] then 0
    else
      var k :| k in m;
      m[k] + Sum(m - {k})
  }

  lemma {:induction false} SumWithout(m: map<Outcome, nat>, k: Outcome)
    requires k in m
    ensures Sum(m) == m[k] + Sum(m - {k})
    decreases |m|
  {
    var j :| j in m && Sum(m) == m[j] + Sum(m - {j});
    if j == k {
    } else {
      SumWithout(m - {j}, k);
      SumWithout(m - {k}, j);
      assert m - {j} - {k} == m - {k} - {j};
    }
  }

  lemma SumCounts(m: map<Outcome, nat>, k: Outcome)
    ensures Sum(m[k := (if k in m then m[k] else 0) + 1]) == Sum(m) + 1
  {
    var m' := m[k := (if k in m then m[k] else 0) + 1];
    SumWithout(m', k);
    if k in m {
      SumWithout(m, k);
      assert m' - {k} == m - {k};
    } else {
      assert m' - {k} == m;
    }
  }

  // The ring

  /** The slots from the oldest on. */
  function Unrolled(ring: seq<Delivery>, next: nat): (r: seq<Delivery>)
    requires next <= |ring|
    ensures |r| == |ring|
  {
    ring[next..] + ring[..next]
  }

  /** A ring holds the newest of a history. */
  predicate RingOf(ring: seq<Delivery>, next: nat, retain: int, history: seq<Delivery>) {
    if retain <= 0 || |history| < retain then ring == history && next == (if retain <= 0 then 0 else |history|)
    else |ring| == retain && next < retain && Unrolled(ring, next) == Newest(history, retain)
  }

  lemma RingHolds(ring: seq<Delivery>, next: nat, retain: int, history: seq<Delivery>)
    requires RingOf(ring, next, retain, history)
    ensures retain < 0 || |ring| < retain ==> ring == Newest(history, retain)
    ensures retain > 0 && |ring| >= retain ==> next <= |ring| && Unrolled(ring, next) == Newest(history, retain)
  {
  }

  /** Overwriting the oldest slot of a full ring drops the oldest and appends the newest. */
  lemma Rotates(ring: seq<Delivery>, next: nat, d: Delivery)
    requires next < |ring|
    ensures Unrolled(ring[next := d], if next + 1 == |ring| then 0 else next + 1) == Unrolled(ring, next)[1..] + [d]
  {
    var left, right := ring[..next], ring[next + 1..];
    assert ring[next..] == [ring[next]] + right;
    assert Unrolled(ring, next)[1..] == right + left;
    if next + 1 == |ring| {
      assert ring[next := d] == left + [d] && right == [];
      assert Unrolled(ring[next := d], 0) == left + [d];
    } else {
      assert ring[next := d][next + 1..] == right && ring[next := d][..next + 1] == left + [d];
      assert right + (left + [d]) == right + left + [d];
    }
  }

  lemma GrowingRing(ring: seq<Delivery>, next: nat, retain: int, history: seq<Delivery>, d: Delivery)
    requires RingOf(ring, next, retain, history) && retain > 0 && |history| < retain
    ensures RingOf(ring + [d], (next + 1) % retain, retain, history + [d])
  {
    if next + 1 < retain {
      assert (next + 1) % retain == next + 1;
    } else {
      assert (next + 1) % retain == 0;
      assert Unrolled(ring + [d], 0) == history + [d];
    }
  }

  lemma FullRing(ring: seq<Delivery>, next: nat, retain: int, history: seq<Delivery>, d: Delivery)
    requires RingOf(ring, next, retain, history) && retain > 0 && |history| >= retain
    ensures RingOf(ring[next := d], (next + 1) % retain, retain, history + [d])
  {
    Rotates(ring, next, d);
    NewestGrows(history, d, retain);
    Wraps(next, retain);
  }

  lemma Wraps(next: nat, retain: nat)
    requires next < retain
    ensures (next + 1) % retain == if next + 1 == retain then 0 else next + 1
  {
    if next + 1 < retain {
      assert (next + 1) % retain == next + 1;
    }
  }

  class Sink {
    var received: seq<Delivery>
    var ringNext: nat
    var retain: int
    var outcomes: map<Outcome, nat>
    var receivedTotal: nat

    /** Every delivery since the last reset, oldest first. */
    ghost var history: seq<Delivery>
    /** Handlers that have released the lock and not yet added to the total. */
    ghost var uncounted: nat

    ghost predicate Ring()
      reads this
    {
      RingOf(received, ringNext, retain, history)
    }

    ghost predicate Valid()
      reads this
    {
      Ring() && (retain == 0 ==> history == []) && Sum(outcomes) == receivedTotal + uncounted
    }

    constructor (retain: int)
      ensures Valid() && history == [] && this.retain == retain && receivedTotal == 0 && uncounted == 0
              && outcomes == map[]
    {
      this.retain := retain;
      received, ringNext, receivedTotal, outcomes := [], 0, 0, map[];
      history, uncounted := [], 0;
    }

    /** What the lock guards: one handler at a time. */
    method Store(d: Delivery, status: int)
      requires Valid()
      modifies this
      ensures Valid() && history == old(history) + [d] && uncounted == old(uncounted) + 1
      ensures retain == (if old(retain) == 0 then 10_000 else old(retain))
              && receivedTotal == old(receivedTotal)
      ensures var k := Outcome(d.path, status);
              outcomes == old(outcomes)[k := (if k in old(outcomes) then old(outcomes)[k] else 0) + 1]
    {
      if retain == 0 {
        retain := DEFAULT_RETAIN;
      }
      Put(d);
      var k := Outcome(d.path, status);
      SumCounts(outcomes, k);
      outcomes := outcomes[k := (if k in outcomes then outcomes[k] else 0) + 1];
      uncounted := uncounted + 1;
    }

    method Put(d: Delivery)
      requires Ring() && retain != 0
      modifies this`received, this`ringNext, this`history
      ensures Ring() && history == old(history) + [d]
    {
      if retain > 0 {
        if |history| < retain {
          GrowingRing(received, ringNext, retain, history, d);
        } else {
          FullRing(received, ringNext, retain, history, d);
        }
      }
      if retain < 0 || |received| < retain {
        received := received + [d];
      } else {
        received := received[ringNext := d];
      }
      if retain > 0 {
        ringNext := (ringNext + 1) % retain;
      }
      history := history + [d];
    }

    /** The atomic addition behind the lock. */
    method CountReceived()
      requires Valid() && uncounted > 0
      modifies this`receivedTotal, this`uncounted
      ensures Valid() && receivedTotal == old(receivedTotal) + 1 && uncounted == old(uncounted) - 1
    {
      receivedTotal := receivedTotal + 1;
      uncounted := uncounted - 1;
    }

    method Record(d: Delivery, status: int)
      requires Valid()
      modifies this
      ensures Valid() && history == old(history) + [d] && uncounted == old(uncounted)
      ensures receivedTotal == old(receivedTotal) + 1
              && retain == (if old(retain) == 0 then 10_000 else old(retain))
    {
      Store(d, status);
      CountReceived();
    }

    /** The newest deliveries since the last reset in the order they came, as many as the buffer and the limit allow.  A
    limit of 0 is none; a negative size of the buffer bounds nothing. */
    method Snapshot(limit: nat) returns (out: seq<Delivery>)
      requires Valid()
      ensures |out| <= |history| && out == history[|history| - |out|..]
      ensures (retain > 0 ==> |out| <= retain) && (limit > 0 ==> |out| <= limit)
      ensures |out| == |history| || (retain > 0 && |out| == retain) || (limit > 0 && |out| == limit)
    {
      out := All();
      IsTail(history, retain);
      if limit > 0 && |out| > limit {
        TailOfTail(history, |out|, limit);
        out := out[|out| - limit..];
      }
    }

    /** The ring unrolled. */
    method All() returns (out: seq<Delivery>)
      requires Valid()
      ensures out == Newest(history, if retain == 0 then -1 else retain)
    {
      RingHolds(received, ringNext, retain, history);
      out := [];
      if retain < 0 || |received| < retain {
        out := out + received;
      } else {
        out := out + received[ringNext..];
        out := out + received[..ringNext];
      }
    }

    method Reset()
      requires Valid()
      modifies this`received, this`ringNext, this`history
      ensures Valid() && history == []
    {
      received := [];
      ringNext := 0;
      history := [];
    }

    method Count() returns (n: nat)
      requires Valid()
      ensures n == if retain > 0 && |history| > retain then retain else |history|
    {
      n := |received|;
    }
  }
}

/** Latches: requests to an armed path park until it is released. */
module Latch {
  import opened Common

  type Channel = nat

  /** A handler between entering and leaving, with the channel it was given. */
  datatype Parked = Parked(path: string, channel: Channel)

  class Latches {
    var latched: map<string, Channel>
    var held: map<string, nat>
    /** Channels made so far are numbered below this. */
    var channels: nat
    var closed: set<Channel>
    ghost var parked: multiset<Parked>

    ghost predicate Valid()
      reads this
    {
      && (forall p <- latched :: latched[p] < channels && latched[p] !in closed)
      && (forall c <- closed :: c < channels)
      && (forall p, q :: p in latched && q in latched && latched[p] == latched[q] ==> p == q)
      && (forall k <- parked :: k.channel in closed || (k.path in latched && latched[k.path] == k.channel))
      && (forall p :: Held(p) == Inside(parked, p))
    }

    function Held(path: string): nat
      reads this
    {
      if path in held then held[path] else 0
    }

    constructor ()
      ensures Valid() && latched == map[] && parked == multiset{}
    {
      latched, held, channels, closed := map[], map[], 0, {};
      parked := multiset{};
      new;
      forall p ensures Inside(parked, p) == 0 {
        InsideNone(p);
      }
    }

    method SetLatch(path: string)
      requires Valid()
      modifies this`latched, this`channels
      ensures Valid() && path in latched && forall p :: p != path ==> (p in latched <==> p in old(latched))
      ensures forall p :: p in old(latched) ==> p in latched && latched[p] == old(latched)[p]
    {
      if path !in latched {
        latched := latched[path := channels];
        channels := channels + 1;
      }
    }

    /** None when the path is not armed. */
    method EnterLatch(path: string) returns (channel: Option<Channel>)
      requires Valid()
      modifies this`held, this`parked
      ensures Valid() && (channel.Some? <==> path in latched)
      ensures channel.Some? ==>
              channel.value == latched[path] && parked == old(parked) + multiset{Parked(path, latched[path])}
      ensures channel.None? ==> parked == old(parked)
    {
      if path !in latched {
        return None;
      }
      var k := Parked(path, latched[path]);
      held := held[path := Held(path) + 1];
      forall p ensures Inside(parked + multiset{k}, p) == Inside(parked, p) + if p == path then 1 else 0 {
        InsideOneMore(parked, k, p);
      }
      parked := parked + multiset{k};
      return Some(latched[path]);
    }

    /** Called by a handler that entered, whether its channel was closed or its client went away. */
    method LeaveLatch(path: string, ghost channel: Channel)
      requires Valid() && Parked(path, channel) in parked
      modifies this`held, this`parked
      ensures Valid() && parked == old(parked) - multiset{Parked(path, channel)}
      ensures Held(path) == old(Held(path)) - 1 && forall p :: p != path ==> Held(p) == old(Held(p))
    {
      ghost var rest := parked - multiset{Parked(path, channel)};
      assert parked == rest + multiset{Parked(path, channel)};
      forall p ensures Inside(parked, p) == Inside(rest, p) + if p == path then 1 else 0 {
        InsideOneMore(rest, Parked(path, channel), p);
      }
      if Held(path) > 0 {
        held := held[path := held[path] - 1];
      }
      parked := rest;
    }

    /** Frees everything parked on a path; no channel is ever closed twice. */
    method ReleaseLatch(path: string)
      requires Valid()
      modifies this`latched, this`closed
      ensures Valid() && latched == old(latched) - {path}
      ensures old(closed) <= closed
      ensures forall k <- parked :: k.path == path ==> k.channel in closed
      ensures forall k <- parked :: k.path != path ==> (k.channel in closed <==> k.channel in old(closed))
    {
      if path in latched {
        assert latched[path] !in closed;
        closed := closed + {latched[path]};
        latched := latched - {path};
      }
    }
  }

  /** How many handlers are inside one path. */
  ghost function Inside(parked: multiset<Parked>, path: string): nat
    decreases |parked|
  {
    if parked == multiset{} then 0
    else
      var k :| k in parked;
      (if k.path == path then 1 else 0) + Inside(parked - multiset{k}, path)
  }

  lemma InsideNone(path: string)
    ensures Inside(multiset{}, path) == 0
  {
  }

  lemma {:induction false} InsideOneMore(parked: multiset<Parked>, k: Parked, path: string)
    ensures Inside(parked + multiset{k}, path) == Inside(parked, path) + if k.path == path then 1 else 0
    decreases |parked|
  {
    var all := parked + multiset{k};
    var j :| j in all && Inside(all, path) == (if j.path == path then 1 else 0) + Inside(all - multiset{j}, path);
    if j != k {
      var rest := parked - multiset{j};
      assert all - multiset{j} == rest + multiset{k};
      InsideOneMore(rest, k, path);
      assert parked == rest + multiset{j};
      InsideOneMore(rest, j, path);
    } else {
      assert all - multiset{j} == parked;
    }
  }

  /** After a release nothing is parked on the path, yet its counter still shows the handler that was let go. */
  method ReleasedIsStillHeld(path: string) returns (l: Latches, channel: Channel)
    ensures l.Valid() && l.latched == map[] && l.parked == multiset{Parked(path, channel)} && channel in l.closed
    ensures l.Held(path) == 1
  {
    l := new Latches();
    l.SetLatch(path);
    var entered := l.EnterLatch(path);
    channel := entered.value;
    l.ReleaseLatch(path);
    assert l.latched == map[];
    InsideNone(path);
    InsideOneMore(multiset{}, Parked(path, channel), path);
    assert multiset{} + multiset{Parked(path, channel)} == l.parked;
  }
}
