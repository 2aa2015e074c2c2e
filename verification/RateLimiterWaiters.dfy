/** Waiters as the source runs them: reserve a slot, sleep until the target, then try for a token
    until one is granted.  Any number of waiters and responses interleave. */
module RateLimiterWaiters {
  import opened RateLimiterSpec
  import opened RateLimiterProofs

  /** Waiters are numbered in the order they reserve: `targets[i]` is the slot of waiter i, `served`
      are the waiters that got their token. */
  datatype Queue = Queue(limiter: State, targets: seq<real>, served: set<nat>)

  datatype Move =
    | Enter(now: real, check: real)
    | Try(waiter: nat, refill: real, stamp: real)
    | Answer(status: int, at: real)
  {
    /** The locked region this move runs. */
    function Region(): Event {
      match this
      case Enter(now, check) => Reserve(now, check)
      case Try(_, refill, stamp) => Attempt(refill, stamp)
      case Answer(status, at) => Respond(status, at)
    }
  }

  /** A waiter tries only after its sleep, and only until it is served. */
  predicate Enabled(q: Queue, m: Move) {
    m.Try? ==> m.waiter < |q.targets| && m.waiter !in q.served && q.targets[m.waiter] <= m.refill
  }

  function Move1(c: Config, q: Queue, m: Move): Queue
    requires c.backoffFactor != 0.0
  {
    var limiter := Step(c, q.limiter, m.Region());
    match m
    case Enter(now, check) => Queue(limiter, q.targets + [Reserved(c, q.limiter, now, check).target], q.served)
    case Try(waiter, refill, _) =>
      Queue(limiter, q.targets, if Grants(c, q.limiter, refill) then q.served + {waiter} else q.served)
    case Answer(_, _) => q.(limiter := limiter)
  }

  function MoveAll(c: Config, q: Queue, ms: seq<Move>): Queue
    requires c.backoffFactor != 0.0
    decreases |ms|
  {
    if ms == [] then q else MoveAll(c, Move1(c, q, ms[0]), ms[1..])
  }

  /** Enabled moves at nondecreasing times up to `to`. */
  ghost predicate Runs(c: Config, q: Queue, clock: real, ms: seq<Move>, to: real)
    requires c.backoffFactor != 0.0
    decreases |ms|
  {
    if ms == [] then clock <= to
    else
      var m := ms[0];
      && Enabled(q, m)
      && clock <= m.Region().First() <= m.Region().Last()
      && Runs(c, Move1(c, q, m), m.Region().Last(), ms[1..], to)
  }

  /** None of the moves is a backoff reduction. */
  ghost predicate Calm(c: Config, q: Queue, ms: seq<Move>)
    requires c.backoffFactor != 0.0
    decreases |ms|
  {
    ms == [] || (!(ms[0].Answer? && Reduces(c, q.limiter, ms[0].status)) && Calm(c, Move1(c, q, ms[0]), ms[1..]))
  }

  function Slots(c: Config, k: nat): real { k as real * Interval(c) }

  lemma {:induction false} SlotsStep(c: Config, k: nat)
    requires c.Valid()
    ensures Slots(c, k + 1) == Slots(c, k) + Interval(c) && Slots(c, 0) == 0.0
    ensures 0.0 < Interval(c)
  {
  }

  lemma {:induction false} SlotsGrow(c: Config, j: nat, k: nat)
    requires c.Valid() && j <= k
    ensures Slots(c, j) <= Slots(c, k)
    decreases k
  {
    hide Slots, Interval;
    if j < k {
      SlotsStep(c, k - 1);
      SlotsGrow(c, j, k - 1);
    }
  }

  /** Slot i is at least i refill intervals after the start, the cursor is past all of them, and
      whoever is served has reached its slot. */
  ghost predicate Serialized(c: Config, q: Queue, start: real, clock: real) {
    && (forall i | 0 <= i < |q.targets| :: start + Slots(c, i) <= q.targets[i])
    && (q.targets != [] ==> start + Slots(c, |q.targets|) <= q.limiter.nextAllowedAt)
    && (forall i | i in q.served :: i < |q.targets| && q.targets[i] <= clock)
  }

  lemma {:induction false} CursorAfter(c: Config, s: State, e: Event)
    requires c.Valid() && !(e.Respond? && Reduces(c, s, e.status))
    ensures Step(c, s, e).nextAllowedAt ==
            if e.Reserve? then
              Reserved(c, s, e.now, e.check).target + Max(Reserved(c, s, e.now, e.check).floor, Interval(c))
            else s.nextAllowedAt
  {
  }

  lemma {:induction false} MoveSerialized(c: Config, q: Queue, start: real, clock: real, m: Move)
    requires c.Valid() && Serialized(c, q, start, clock) && Enabled(q, m)
    requires start <= clock <= m.Region().First() <= m.Region().Last()
    requires !(m.Answer? && Reduces(c, q.limiter, m.status))
    ensures Serialized(c, Move1(c, q, m), start, m.Region().Last())
  {
    hide Slots, Interval, Step, Grants, Reduces;
    CursorAfter(c, q.limiter, m.Region());
    SlotsStep(c, 0);
    SlotsStep(c, |q.targets|);
  }

  lemma {:induction false} RunSerialized(c: Config, q: Queue, start: real, clock: real, ms: seq<Move>, to: real)
    requires c.Valid() && Serialized(c, q, start, clock) && start <= clock
    requires Runs(c, q, clock, ms, to) && Calm(c, q, ms)
    ensures Serialized(c, MoveAll(c, q, ms), start, to)
    decreases |ms|
  {
    hide Serialized, Move1;
    if ms == [] {
      Later(c, q, start, clock, to);
    } else {
      MoveSerialized(c, q, start, clock, ms[0]);
      RunSerialized(c, Move1(c, q, ms[0]), start, ms[0].Region().Last(), ms[1..], to);
    }
  }

  lemma {:induction false} Later(c: Config, q: Queue, start: real, clock: real, to: real)
    requires Serialized(c, q, start, clock) && clock <= to
    ensures Serialized(c, q, start, to)
  {
  }

  lemma {:induction false} BelowBound(s: set<nat>, n: nat)
    requires forall x | x in s :: x < n
    ensures |s| <= n
    decreases n
  {
    if n == 0 {
      assert s == {};
    } else {
      BelowBound(s - {n - 1}, n - 1);
    }
  }

  /** Whatever the burst size, waiters are served no faster than the refill rate: between two
      reductions, n of the waiters that reserved since `start` can only have been served after n - 1
      full refill intervals.  A group of concurrent waiters never spends the burst at once. */
  lemma {:induction false} ServedNoFasterThanRefill(c: Config, s: State, start: real, ms: seq<Move>, to: real, n: nat)
    requires c.Valid() && Runs(c, Queue(s, [], {}), start, ms, to) && Calm(c, Queue(s, [], {}), ms)
    requires |MoveAll(c, Queue(s, [], {}), ms).served| == n + 1
    ensures start + Slots(c, n) <= to
  {
    hide Slots, Runs, Calm, MoveAll;
    var q := MoveAll(c, Queue(s, [], {}), ms);
    RunSerialized(c, Queue(s, [], {}), start, start, ms, to);
    if forall i | i in q.served :: i < n {
      BelowBound(q.served, n);
    } else {
      var i :| i in q.served && n <= i;
      SlotsGrow(c, n, i);
    }
  }

  /** The regions of any run of waiters are a timely run of the limiter with the same final state, and
      one without reductions if theirs has none; so every bound on the limiter's runs holds for them. */
  lemma {:induction false} WaitersRunTheLimiter(c: Config, q: Queue, clock: real, ms: seq<Move>, to: real)
    requires c.Valid() && Runs(c, q, clock, ms, to)
    ensures var es := seq(|ms|, i requires 0 <= i < |ms| => ms[i].Region());
            && Timely(clock, es)
            && MoveAll(c, q, ms).limiter == Run(c, q.limiter, es)
            && (Calm(c, q, ms) <==> NoReduction(c, q.limiter, es))
    decreases |ms|
  {
    hide Step, Reduces, Grants, Reserved;
    var es := seq(|ms|, i requires 0 <= i < |ms| => ms[i].Region());
    if ms != [] {
      var rest := seq(|ms[1..]|, i requires 0 <= i < |ms[1..]| => ms[1..][i].Region());
      assert es[1..] == rest;
      WaitersRunTheLimiter(c, Move1(c, q, ms[0]), ms[0].Region().Last(), ms[1..], to);
    }
  }
}
