/** What the rate limiter keeps over whole runs, for every interleaving of its locked regions. */
module RateLimiterProofs {
  import opened Arithmetic
  import opened RateLimiterSpec

  ghost predicate Inv(c: Config, s: State) {
    && 0.0 <= s.tokens <= c.burstSize as real
    && 0.0 <= s.backoff
    && (s.learnedFloor == 0.0 || 0.1 <= s.learnedFloor <= 20.0)
    && |s.outcomes| <= WINDOW
  }

  lemma {:induction false} InitHolds(c: Config, now: real)
    requires c.Valid()
    ensures Inv(c, Init(c, now))
  {
  }

  lemma {:induction false} MulNonNegative(r: real, x: real)
    requires 0.0 <= r && 0.0 <= x
    ensures 0.0 <= r * x
  {
  }

  lemma {:induction false} EarnedMono(c: Config, x: real, y: real)
    requires c.Valid() && x <= y
    ensures Earned(c, x) <= Earned(c, y)
  {
    MulMono(Rate(c), x, y);
  }

  lemma {:induction false} EarnedAdds(c: Config, x: real, y: real)
    ensures Earned(c, x) + Earned(c, y) == Earned(c, x + y)
  {
  }

  lemma {:induction false} EarnedNonNegative(c: Config, x: real)
    requires c.Valid() && 0.0 <= x
    ensures 0.0 == Earned(c, 0.0) <= Earned(c, x)
  {
    MulNonNegative(Rate(c), x);
  }

  lemma {:induction false} PowNonNegative(base: real, n: nat)
    requires 0.0 < base
    ensures 0.0 < Pow(base, n)
  {
    if n > 0 { PowNonNegative(base, n - 1); }
  }

  lemma {:induction false} BackoffNonNegative(c: Config, k: nat)
    requires c.Valid() && k > 0
    ensures 0.0 <= BackoffFor(c, k)
  {
    PowNonNegative(c.backoffFactor, k - 1);
    MulNonNegative(c.retryAfterSeconds as real, Pow(c.backoffFactor, k - 1));
  }

  /** One evaluation keeps the floor at 0 or in [0.1, 20]; it falls only on a full window of
      successes, and it comes back to 0 exactly when no 429 was ever counted and it has decayed
      below 0.1. */
  lemma {:induction false} FloorStep(c: Config, s: State)
    requires c.Valid() && Inv(c, s)
    ensures NextFloor(c, s) == 0.0 || 0.1 <= NextFloor(c, s) <= 20.0
    ensures NextFloor(c, s) < s.learnedFloor ==>
              |s.outcomes| == WINDOW && forall i | 0 <= i < WINDOW :: s.outcomes[i]
    ensures s.learnedFloor > 0.0 ==>
              (NextFloor(c, s) == 0.0 <==>
               |s.outcomes| == WINDOW && (forall i | 0 <= i < WINDOW :: s.outcomes[i])
               && s.violations == 0 && s.learnedFloor * 0.95 < 0.1)
  {
    var bad := CountFailures(s.outcomes);
    if |s.outcomes| >= 10 && bad > 0 {
      var rate := bad as real / |s.outcomes| as real;
      MulNonNegative(rate, 20.0 * c.backoffFactor);
    }
  }

  lemma {:induction false} ReducedNonNegative(c: Config, s: State)
    requires c.Valid() && Inv(c, s)
    ensures 0.0 <= s.backoff / c.backoffFactor
  {
    var q := s.backoff / c.backoffFactor;
    if q < 0.0 { MulMono(c.backoffFactor, q, 0.0); }
  }

  lemma {:induction false} StepKeepsInvariant(c: Config, s: State, e: Event)
    requires c.Valid() && Inv(c, s)
    ensures Inv(c, Step(c, s, e))
  {
    hide Earned;
    match e
    case Reserve(_, _) => FloorStep(c, s);
    case Attempt(refill, _) =>
      if refill > s.lastRefill { EarnedNonNegative(c, refill - s.lastRefill); }
    case Respond(status, _) =>
      var r := Recorded(s, status);
      BackoffNonNegative(c, s.consecutiveViolations + 1);
      FloorStep(c, r);
      ReducedNonNegative(c, r);
  }

  lemma {:induction false} RunKeepsInvariant(c: Config, s: State, es: seq<Event>)
    requires c.Valid() && Inv(c, s)
    ensures Inv(c, Run(c, s, es))
    decreases |es|
  {
    if es != [] {
      StepKeepsInvariant(c, s, es[0]);
      RunKeepsInvariant(c, Step(c, s, es[0]), es[1..]);
    }
  }

  /** What the bucket could pay out at time t without waiting, ignoring the burst cap. */
  ghost function Potential(c: Config, s: State, t: real): real {
    s.tokens + Earned(c, Max(0.0, t - s.lastRefill))
  }

  /** No region creates potential at the instant it runs; a grant spends one unit of it.  This is
      where the refill time pushed forward by a 429 and pulled back by a recovery must both survive. */
  lemma {:induction false} StepPotential(c: Config, s: State, e: Event)
    requires c.Valid() && Inv(c, s)
    ensures Potential(c, Step(c, s, e), e.First())
            + (if e.Attempt? && Grants(c, s, e.refill) then 1.0 else 0.0)
            <= Potential(c, s, e.First())
  {
    hide Earned;
    EarnedNonNegative(c, 0.0);
    match e
    case Reserve(_, _) =>
    case Attempt(_, _) =>
    case Respond(status, at) =>
      var r := Recorded(s, status);
      EarnedNonNegative(c, Max(0.0, at - s.lastRefill));
      BackoffNonNegative(c, s.consecutiveViolations + 1);
      FloorStep(c, r);
      ReducedNonNegative(c, r);
      if c.adaptive && status != 429 && Reduces(c, r, status) {
        var l := Reduce(c, r, at).lastRefill;
        assert Max(0.0, at - l) == Max(0.0, at - s.lastRefill);
      }
  }

  lemma {:induction false} PotentialGrows(c: Config, s: State, t: real, u: real)
    requires c.Valid() && t <= u
    ensures Potential(c, s, u) <= Potential(c, s, t) + Earned(c, u - t)
  {
    hide Earned;
    EarnedMono(c, Max(0.0, u - s.lastRefill), Max(0.0, t - s.lastRefill) + (u - t));
    EarnedAdds(c, Max(0.0, t - s.lastRefill), u - t);
  }

  lemma {:induction false} NoneAfter(c: Config, s: State, clock: real, es: seq<Event>, from: real, to: real)
    requires c.backoffFactor != 0.0 && Timely(clock, es) && to < clock
    ensures Granted(c, s, es, from, to) == 0
    decreases |es|
  {
    if es != [] { NoneAfter(c, Step(c, s, es[0]), es[0].Last(), es[1..], from, to); }
  }

  lemma {:induction false} EarlierClock(clock: real, later: real, es: seq<Event>)
    requires clock <= later && Timely(later, es)
    ensures Timely(clock, es)
  {
  }

  lemma {:induction false} PaidFromPotential(
    c: Config, s: State, clock: real, es: seq<Event>, from: real, to: real)
    requires c.Valid() && Inv(c, s) && Timely(clock, es) && clock <= to
    ensures Granted(c, s, es, from, to) as real <= Potential(c, s, clock) + Earned(c, to - clock)
    decreases |es|
  {
    hide Earned;
    if es == [] {
      EarnedNonNegative(c, to - clock);
      EarnedNonNegative(c, Max(0.0, clock - s.lastRefill));
    } else {
      var t := es[0].First();
      var s' := Step(c, s, es[0]);
      StepKeepsInvariant(c, s, es[0]);
      if to < t {
        NoneAfter(c, s, t, es, from, to);
        PotentialGrows(c, s, clock, to);
        EarnedNonNegative(c, Max(0.0, to - s.lastRefill));
      } else {
        EarlierClock(t, es[0].Last(), es[1..]);
        StepPotential(c, s, es[0]);
        PotentialGrows(c, s, clock, t);
        EarnedAdds(c, t - clock, to - t);
        PaidFromPotential(c, s', t, es[1..], from, to);
      }
    }
  }

  lemma {:induction false} PotentialAfterGrant(c: Config, s: State, e: Event)
    requires c.Valid() && Inv(c, s) && e.Attempt? && Grants(c, s, e.refill)
    ensures Potential(c, Step(c, s, e), e.refill) <= c.burstSize as real - 1.0
  {
    hide Earned;
    EarnedNonNegative(c, 0.0);
    assert Max(0.0, e.refill - Step(c, s, e).lastRefill) == 0.0;
  }

  lemma {:induction false} PaidFromCap(
    c: Config, s: State, clock: real, es: seq<Event>, from: real, to: real, cap: real)
    requires c.Valid() && Inv(c, s) && Timely(clock, es) && from <= clock <= to
    requires Potential(c, s, clock) <= cap
    ensures Granted(c, s, es, from, to) as real <= cap + Earned(c, to - from)
  {
    hide Earned;
    PaidFromPotential(c, s, clock, es, from, to);
    EarnedMono(c, to - clock, to - from);
  }

  lemma {:induction false} WindowFromGrant(c: Config, s: State, es: seq<Event>, from: real, to: real)
    requires c.Valid() && Inv(c, s) && es != [] && Timely(es[0].First(), es)
    requires es[0].Attempt? && from <= es[0].refill <= to && Grants(c, s, es[0].refill)
    ensures Granted(c, s, es, from, to) as real <= c.burstSize as real + Earned(c, to - from)
  {
    hide Earned;
    var e, s' := es[0], Step(c, s, es[0]);
    StepKeepsInvariant(c, s, e);
    EarlierClock(e.refill, e.stamp, es[1..]);
    PotentialAfterGrant(c, s, e);
    PaidFromCap(c, s', e.refill, es[1..], from, to, c.burstSize as real - 1.0);
  }

  /** Main safety bound: in every run, any window [from, to] sees at most
      burst + rate * (to - from) tokens. */
  lemma {:induction false} WindowBound(
    c: Config, s: State, clock: real, es: seq<Event>, from: real, to: real)
    requires c.Valid() && Inv(c, s) && Timely(clock, es) && from <= to
    ensures Granted(c, s, es, from, to) as real <= c.burstSize as real + Earned(c, to - from)
    decreases |es|
  {
    hide Earned;
    if es == [] {
      EarnedNonNegative(c, to - from);
    } else if es[0].Attempt? && from <= es[0].refill <= to && Grants(c, s, es[0].refill) {
      WindowFromGrant(c, s, es, from, to);
    } else {
      StepKeepsInvariant(c, s, es[0]);
      WindowBound(c, Step(c, s, es[0]), es[0].Last(), es[1..], from, to);
    }
  }

  lemma {:induction false} RefillGrants(c: Config, s: State, refill: real)
    requires c.Valid() && Inv(c, s) && 0 < c.requestsPerMinute && 0 < c.burstSize
    requires s.lastRefill + Interval(c) <= refill
    ensures Grants(c, s, refill)
  {
    assert Earned(c, Interval(c)) == 1.0 && 0.0 < Interval(c);
    EarnedMono(c, Interval(c), refill - s.lastRefill);
  }

  /** Where a reduction at `at` clamps the reservation cursor. */
  function Shortened(c: Config, s: State, status: int, at: real): real
    requires c.backoffFactor != 0.0
  {
    at + Max(NextFloor(c, Recorded(s, status)), s.backoff / c.backoffFactor)
  }

  lemma {:induction false} ReducedState(c: Config, s: State, status: int, at: real)
    requires c.Valid() && Inv(c, s) && Reduces(c, Recorded(s, status), status)
    ensures var t := Step(c, s, Respond(status, at));
            && Inv(c, t)
            && (if t.learnedFloor == 0.0 then t.backoff == 0.0 else t.learnedFloor <= t.backoff)
            && t.lastRefill <= at + t.backoff
            && (t.learnedFloor > 0.0 ==> t.nextAllowedAt <= at + t.backoff)
            && t.nextAllowedAt == Min(s.nextAllowedAt, Shortened(c, s, status, at))
            && at + t.backoff <= Shortened(c, s, status, at)
            && t.lastBackoffTime == at && t.lastRequestTime == s.lastRequestTime
  {
    hide FloorFrom;
    var r := Recorded(s, status);
    StepKeepsInvariant(c, s, Respond(status, at));
    FloorNonNegative(c, r);
    ReducedNonNegative(c, r);
  }

  lemma {:induction false} TargetReleased(c: Config, s: State, now: real, check: real, limit: real)
    requires 0.0 <= now && s.nextAllowedAt <= limit && s.lastBackoffTime + s.backoff <= limit
    ensures var r := Reserved(c, s, now, check);
            r.target <= Max(now, limit) || r.target == s.lastRequestTime + r.floor
  {
    hide FloorFrom;
  }

  /** What a reduction restores: the new backoff is 0 or at least the learned floor, the bucket pays
      again one refill interval after the shortened window at the latest, and the next reservation is
      no longer held by the larger window.  A reduction that ends the backoff altogether leaves the
      cursor at the end of the window it would have shortened to. */
  lemma {:induction false} ReductionReleases(
    c: Config, s: State, status: int, at: real, refill: real, now: real, check: real)
    requires c.Valid() && Inv(c, s) && 0.0 <= now
    requires Reduces(c, Recorded(s, status), status)
    ensures var t := Step(c, s, Respond(status, at));
            && (if t.learnedFloor == 0.0 then t.backoff == 0.0 else t.learnedFloor <= t.backoff)
            && (0 < c.requestsPerMinute && 0 < c.burstSize && at + t.backoff + Interval(c) <= refill ==>
                  Grants(c, t, refill))
            && (t.learnedFloor > 0.0 ==>
                  var r := Reserved(c, t, now, check);
                  r.target <= Max(now, at + t.backoff) || r.target == s.lastRequestTime + r.floor)
            && (t.learnedFloor == 0.0 ==>
                  var r := Reserved(c, t, now, check);
                  r.target <= Max(now, at + s.backoff / c.backoffFactor)
                  || r.target == s.lastRequestTime + r.floor)
  {
    hide Step, Grants, Reserved, Interval, Rate;
    var t := Step(c, s, Respond(status, at));
    ReducedState(c, s, status, at);
    if 0 < c.requestsPerMinute && 0 < c.burstSize && at + t.backoff + Interval(c) <= refill {
      RefillGrants(c, t, refill);
    }
    if t.learnedFloor > 0.0 { TargetReleased(c, t, now, check, at + t.backoff); }
    TargetReleased(c, t, now, check, Shortened(c, s, status, at));
    if t.learnedFloor == 0.0 { FloorGone(c, s, status, at); }
  }

  lemma {:induction false} FloorGone(c: Config, s: State, status: int, at: real)
    requires c.Valid() && Inv(c, s) && Reduces(c, Recorded(s, status), status)
    requires Step(c, s, Respond(status, at)).learnedFloor == 0.0
    ensures Shortened(c, s, status, at) == at + s.backoff / c.backoffFactor
  {
    hide FloorFrom;
    ReducedNonNegative(c, s);
  }

  lemma {:induction false} FloorNonNegative(c: Config, s: State)
    requires c.Valid() && Inv(c, s)
    ensures 0.0 <= NextFloor(c, s)
  {
    FloorStep(c, s);
  }

  function Count429(es: seq<Event>): nat {
    if es == [] then 0
    else Count429(es[..|es| - 1]) + if es[|es| - 1].Respond? && es[|es| - 1].status == 429 then 1 else 0
  }

  /** Time of the last 429 of a run that has one. */
  function Last429(es: seq<Event>): real
    requires Count429(es) > 0
  {
    var e := es[|es| - 1];
    if e.Respond? && e.status == 429 then e.at else Last429(es[..|es| - 1])
  }

  /** n 429s were recorded since `base` violations, the last at v: the backoff they leave. */
  ghost predicate BackedOff(c: Config, s: State, base: nat, n: nat, v: real) {
    && n > 0 && s.consecutiveViolations == base + n
    && s.backoff == BackoffFor(c, base + n) && s.lastBackoffTime == v
    && v + s.backoff <= s.lastRefill
    && (s.lastRefill == v + s.backoff ==> s.tokens == 0.0)
  }

  lemma {:induction false} BackedOffStep(c: Config, s: State, e: Event, base: nat, n: nat, v: real)
    requires c.Valid() && c.adaptive && BackedOff(c, s, base, n, v)
    requires e.Respond? ==> !IsSuccess(e.status)
    ensures if e.Respond? && e.status == 429 then BackedOff(c, Step(c, s, e), base, n + 1, e.at)
            else BackedOff(c, Step(c, s, e), base, n, v)
  {
    hide BackoffFor, Earned, Interval;
  }

  lemma {:induction false} ViolationsCounted(c: Config, s: State, e: Event)
    requires c.Valid() && c.adaptive
    ensures Step(c, s, e).violations == s.violations + if e.Respond? && e.status == 429 then 1 else 0
  {
    hide BackoffFor, Earned, Interval, FloorFrom;
  }

  lemma {:induction false} UntilFirst429(c: Config, s: State, e: Event)
    requires c.Valid() && c.adaptive && (e.Respond? ==> !IsSuccess(e.status))
    ensures if e.Respond? && e.status == 429 then BackedOff(c, Step(c, s, e), s.consecutiveViolations, 1, e.at)
            else Step(c, s, e).consecutiveViolations == s.consecutiveViolations
  {
    hide BackoffFor, Earned, Interval;
  }

  lemma {:induction false} RunAppend(c: Config, s: State, es: seq<Event>, e: Event)
    requires c.backoffFactor != 0.0
    ensures Run(c, s, es + [e]) == Step(c, Run(c, s, es), e)
    decreases |es|
  {
    hide Step;
    if es == [] {
      assert (es + [e])[1..] == [];
    } else {
      assert (es + [e])[1..] == es[1..] + [e];
      RunAppend(c, Step(c, s, es[0]), es[1..], e);
    }
  }

  /** In a run without successes, whatever reservations, token turns and other failures come in
      between: the n-th of the 429s leaves the window retry * factor^(k-1) of the k-th consecutive
      violation, capped and counted from its own time, and a bucket that is empty until that window
      ends. */
  lemma {:induction false} BackoffAfterViolations(c: Config, s: State, es: seq<Event>)
    requires c.Valid() && c.adaptive
    requires forall i | 0 <= i < |es| :: es[i].Respond? ==> !IsSuccess(es[i].status)
    ensures var t, base := Run(c, s, es), s.consecutiveViolations;
            && t.violations == s.violations + Count429(es)
            && (if Count429(es) == 0 then t.consecutiveViolations == base
                else BackedOff(c, t, base, Count429(es), Last429(es)))
    decreases |es|
  {
    hide Step, BackedOff, IsSuccess;
    if es != [] {
      var init, e := es[..|es| - 1], es[|es| - 1];
      assert init + [e] == es;
      BackoffAfterViolations(c, s, init);
      RunAppend(c, s, init, e);
      ViolationsCounted(c, Run(c, s, init), e);
      if Count429(init) > 0 {
        BackedOffStep(c, Run(c, s, init), e, s.consecutiveViolations, Count429(init), Last429(init));
      } else {
        UntilFirst429(c, Run(c, s, init), e);
      }
    }
  }

  lemma {:induction false} StampedNearGranted(
    c: Config, s: State, clock: real, es: seq<Event>, from: real, to: real)
    requires c.backoffFactor != 0.0 && Timely(clock, es)
    ensures Stamped(c, s, es, from, to) <= Granted(c, s, es, from, to) + if clock < from then 1 else 0
    decreases |es|
  {
    if es != [] { StampedNearGranted(c, Step(c, s, es[0]), es[0].Last(), es[1..], from, to); }
  }

  /** The same by recorded request times, read a moment after the refill: one more at most. */
  lemma {:induction false} StampedWindowBound(c: Config, s: State, clock: real, es: seq<Event>, from: real, to: real)
    requires c.Valid() && Inv(c, s) && Timely(clock, es) && from <= to
    ensures Stamped(c, s, es, from, to) as real <= 1.0 + c.burstSize as real + Earned(c, to - from)
  {
    hide Earned;
    StampedNearGranted(c, s, clock, es, from, to);
    WindowBound(c, s, clock, es, from, to);
  }

  lemma {:induction false} PowGrows(base: real, n: nat)
    requires 1.0 <= base
    ensures Pow(base, n) <= Pow(base, n + 1)
  {
    PowNonNegative(base, n);
    MulMono(Pow(base, n), 1.0, base);
  }

  lemma {:induction false} UncappedGrows(c: Config, n: nat)
    requires c.Valid() && 1.0 <= c.backoffFactor
    ensures Uncapped(c, n) <= Uncapped(c, n + 1)
  {
    hide Pow;
    PowGrows(c.backoffFactor, n);
    MulMono(c.retryAfterSeconds as real, Pow(c.backoffFactor, n), Pow(c.backoffFactor, n + 1));
  }

  lemma {:induction false} BackoffGrows(c: Config, k: nat)
    requires c.Valid() && 1.0 <= c.backoffFactor && k > 0
    ensures BackoffFor(c, k) <= BackoffFor(c, k + 1)
  {
    hide Uncapped;
    UncappedGrows(c, k - 1);
  }

  /** The situation after a 429 whose backoff of b seconds lifts at `lift`: everything the bucket
      holds or has paid out since (`spent`) was earned after `lift`. */
  ghost predicate Thawing(c: Config, s: State, clock: real, lift: real, b: real, spent: nat) {
    && Inv(c, s)
    && lift <= clock + b
    && b <= BackoffFor(c, s.consecutiveViolations + 1)
    && lift <= s.lastRefill <= clock + BackoffFor(c, s.consecutiveViolations + 1)
    && (s.tokens == 0.0 || s.lastRefill <= clock)
    && spent as real + s.tokens <= Earned(c, s.lastRefill - lift)
  }

  lemma {:induction false} SpentIsEarned(c: Config, s: State, clock: real, lift: real, b: real, spent: nat, to: real)
    requires c.Valid() && Thawing(c, s, clock, lift, b, spent) && s.lastRefill <= to
    ensures spent as real <= Earned(c, to - lift)
  {
    hide Earned;
    EarnedMono(c, s.lastRefill - lift, to - lift);
  }

  lemma {:induction false} ThawingAttempt(
    c: Config, s: State, clock: real, refill: real, stamp: real, lift: real, b: real, spent: nat)
    requires c.Valid() && clock <= refill <= stamp
    requires Thawing(c, s, clock, lift, b, spent)
    ensures Thawing(c, AfterAttempt(c, s, refill, stamp), stamp, lift, b,
                    if Grants(c, s, refill) then spent + 1 else spent)
    ensures Grants(c, s, refill) ==> AfterAttempt(c, s, refill, stamp).lastRefill <= refill
  {
    hide Earned;
    StepKeepsInvariant(c, s, Attempt(refill, stamp));
    BackoffNonNegative(c, s.consecutiveViolations + 1);
    EarnedAdds(c, refill - s.lastRefill, s.lastRefill - lift);
  }

  lemma {:induction false} ThawingRespond(
    c: Config, s: State, clock: real, status: int, at: real, lift: real, b: real, spent: nat)
    requires c.Valid() && 1.0 <= c.backoffFactor && clock <= at && !Reduces(c, s, status)
    requires Thawing(c, s, clock, lift, b, spent)
    ensures Thawing(c, Step(c, s, Respond(status, at)), at, lift, b, spent)
  {
    hide Earned;
    var r := Recorded(s, status);
    StepKeepsInvariant(c, s, Respond(status, at));
    if c.adaptive && status == 429 {
      BackoffGrows(c, s.consecutiveViolations + 1);
      SpentIsEarned(c, s, clock, lift, b, spent, Violate(c, r, at).lastRefill);
    }
  }

  lemma {:induction false} PaidSinceLift(
    c: Config, s: State, clock: real, es: seq<Event>, lift: real, b: real, spent: nat, from: real, to: real)
    requires c.Valid() && 1.0 <= c.backoffFactor
    requires Thawing(c, s, clock, lift, b, spent) && Timely(clock, es) && NoReduction(c, s, es)
    ensures Granted(c, s, es, from, to) > 0 ==>
              (spent + Granted(c, s, es, from, to)) as real <= Earned(c, to - lift)
    decreases |es|
  {
    hide Earned;
    if es != [] {
      var s' := Step(c, s, es[0]);
      match es[0]
      case Reserve(now, check) =>
        StepKeepsInvariant(c, s, es[0]);
        PaidSinceLift(c, s', check, es[1..], lift, b, spent, from, to);
      case Respond(status, at) =>
        ThawingRespond(c, s, clock, status, at, lift, b, spent);
        PaidSinceLift(c, s', at, es[1..], lift, b, spent, from, to);
      case Attempt(refill, stamp) =>
        ThawingAttempt(c, s, clock, refill, stamp, lift, b, spent);
        var spent' := if Grants(c, s, refill) then spent + 1 else spent;
        PaidSinceLift(c, s', stamp, es[1..], lift, b, spent', from, to);
        if Grants(c, s, refill) && refill <= to { SpentIsEarned(c, s', stamp, lift, b, spent', to); }
    }
  }

  lemma {:induction false} ThawingAfter429(c: Config, s: State, v: real)
    requires c.Valid() && c.adaptive && 1.0 <= c.backoffFactor && Inv(c, s)
    ensures var s' := Step(c, s, Respond(429, v));
            Thawing(c, s', v, v + s'.backoff, s'.backoff, 0)
  {
    hide Earned;
    var s' := Step(c, s, Respond(429, v));
    StepKeepsInvariant(c, s, Respond(429, v));
    BackoffGrows(c, s.consecutiveViolations + 1);
    EarnedNonNegative(c, 0.0);
    assert s'.lastRefill - (v + s'.backoff) == 0.0;
  }

  /** After a 429 at v with backoff b and until the next reduction, the number of tokens handed out
      up to any time `to` is at most rate * (to - (v + b)): the k-th one costs k full refill
      intervals counted from the end of the backoff, whoever reserved it and whenever. */
  lemma {:induction false} FreezeAfter429(c: Config, s: State, v: real, es: seq<Event>, from: real, to: real)
    requires c.Valid() && c.adaptive && 1.0 <= c.backoffFactor && Inv(c, s)
    requires Timely(v, es) && NoReduction(c, Step(c, s, Respond(429, v)), es)
    ensures var s' := Step(c, s, Respond(429, v));
            Granted(c, s', es, from, to) > 0 ==>
              Granted(c, s', es, from, to) as real <= Earned(c, to - (v + s'.backoff))
  {
    hide Earned;
    var s' := Step(c, s, Respond(429, v));
    ThawingAfter429(c, s, v);
    PaidSinceLift(c, s', v, es, v + s'.backoff, s'.backoff, 0, from, to);
  }

  lemma {:induction false} GrantIsCounted(c: Config, s: State, es: seq<Event>, i: nat)
    requires c.backoffFactor != 0.0 && i < |es| && es[i].Attempt?
    requires Grants(c, Run(c, s, es[..i]), es[i].refill)
    ensures Granted(c, s, es, es[i].refill, es[i].refill) > 0
    decreases i
  {
    if i > 0 {
      assert es[..i][1..] == es[1..][..i - 1];
      GrantIsCounted(c, Step(c, s, es[0]), es[1..], i - 1);
    }
  }

  lemma {:induction false} MulZero(r: real, x: real)
    requires r == 0.0
    ensures r * x == 0.0
  {
  }

  lemma {:induction false} AtLeastOneInterval(c: Config, x: real)
    requires c.Valid() && 1.0 <= Earned(c, x)
    ensures 0.0 < Rate(c) && Interval(c) <= x
  {
    if Rate(c) == 0.0 {
      MulZero(Rate(c), x);
    } else if x < Interval(c) {
      MulStrict(Rate(c), x, Interval(c));
    }
  }

  lemma {:induction false} ThawedBefore(c: Config, s: State, clock: real, es: seq<Event>, lift: real, b: real, i: nat)
    requires c.Valid() && 1.0 <= c.backoffFactor
    requires Thawing(c, s, clock, lift, b, 0) && Timely(clock, es) && NoReduction(c, s, es)
    requires i < |es| && es[i].Attempt? && Grants(c, Run(c, s, es[..i]), es[i].refill)
    ensures 0.0 < Rate(c) && lift + Interval(c) <= es[i].refill
  {
    hide Earned;
    var t := es[i].refill;
    GrantIsCounted(c, s, es, i);
    PaidSinceLift(c, s, clock, es, lift, b, 0, t, t);
    AtLeastOneInterval(c, t - lift);
  }

  /** The first token after a 429 comes no earlier than v + b + one refill interval, also for
      waiters that reserved before the 429. */
  lemma {:induction false} NoTokenBeforeThaw(c: Config, s: State, v: real, es: seq<Event>, i: nat)
    requires c.Valid() && c.adaptive && 1.0 <= c.backoffFactor && Inv(c, s)
    requires Timely(v, es) && NoReduction(c, Step(c, s, Respond(429, v)), es)
    ensures var s' := Step(c, s, Respond(429, v));
            i < |es| && es[i].Attempt? && Grants(c, Run(c, s', es[..i]), es[i].refill) ==>
              0.0 < Rate(c) && v + s'.backoff + Interval(c) <= es[i].refill
  {
    hide Earned;
    var s' := Step(c, s, Respond(429, v));
    ThawingAfter429(c, s, v);
    if i < |es| && es[i].Attempt? && Grants(c, Run(c, s', es[..i]), es[i].refill) {
      ThawedBefore(c, s', v, es, v + s'.backoff, s'.backoff, i);
    }
  }

  /** Until the next reduction every reservation made before a backoff lifts is pushed past it. */
  ghost predicate Covers(c: Config, s: State, clock: real, lift: real, b: real) {
    && lift <= clock + b && b <= s.backoff
    && s.lastBackoffTime <= clock
    && lift <= s.lastBackoffTime + s.backoff
    && s.backoff <= BackoffFor(c, s.consecutiveViolations + 1)
  }

  lemma {:induction false} CoversReservations(
    c: Config, s: State, clock: real, es: seq<Event>, lift: real, b: real, i: nat)
    requires c.Valid() && 1.0 <= c.backoffFactor
    requires Covers(c, s, clock, lift, b) && Timely(clock, es) && NoReduction(c, s, es)
    requires i < |es| && es[i].Reserve? && es[i].check < lift
    ensures lift <= Reserved(c, Run(c, s, es[..i]), es[i].now, es[i].check).target
    decreases i
  {
    if i > 0 {
      if es[0].Respond? { BackoffGrows(c, s.consecutiveViolations + 1); }
      assert es[..i][1..] == es[1..][..i - 1];
      CoversReservations(c, Step(c, s, es[0]), es[0].Last(), es[1..], lift, b, i - 1);
    }
  }

  lemma {:induction false} ReservationsClearBackoff(c: Config, s: State, v: real, es: seq<Event>, i: nat)
    requires c.Valid() && c.adaptive && 1.0 <= c.backoffFactor && Inv(c, s)
    requires Timely(v, es) && NoReduction(c, Step(c, s, Respond(429, v)), es)
    requires i < |es| && es[i].Reserve?
    requires es[i].check < v + Step(c, s, Respond(429, v)).backoff
    ensures var s' := Step(c, s, Respond(429, v));
            v + s'.backoff <= Reserved(c, Run(c, s', es[..i]), es[i].now, es[i].check).target
  {
    var s' := Step(c, s, Respond(429, v));
    BackoffGrows(c, s.consecutiveViolations + 1);
    CoversReservations(c, s', v, es, v + s'.backoff, s'.backoff, i);
  }

  lemma {:induction false} ConsecutiveTargets(c: Config, s: State, es: seq<Event>)
    requires c.backoffFactor != 0.0 && NoReduction(c, s, es)
    ensures var rs := Reservations(c, s, es);
            && (rs != [] ==> s.nextAllowedAt <= rs[0].target)
            && forall i | 0 <= i < |rs| - 1 ::
                 rs[i].target + Max(rs[i].floor, Interval(c)) <= rs[i + 1].target
    decreases |es|
  {
    if es != [] {
      ConsecutiveTargets(c, Step(c, s, es[0]), es[1..]);
    }
  }

  lemma {:induction false} SpacedOut(rs: seq<Reservation>, gap: real, i: nat, j: nat)
    requires i <= j < |rs|
    requires forall k | 0 <= k < |rs| - 1 :: rs[k].target + gap <= rs[k + 1].target
    ensures rs[i].target + (j - i) as real * gap <= rs[j].target
    decreases j
  {
    if i < j {
      SpacedOut(rs, gap, i, j - 1);
      assert rs[j - 1].target + gap <= rs[(j - 1) + 1].target;
      assert (j - i) as real * gap == (j - 1 - i) as real * gap + gap;
    }
  }

  /** Between two reductions the n-th of any group of waiters is at least n - 1 refill intervals
      behind the first. */
  lemma {:induction false} TargetSpacing(c: Config, s: State, es: seq<Event>, i: nat, j: nat)
    requires c.backoffFactor != 0.0 && NoReduction(c, s, es)
    requires i <= j < |Reservations(c, s, es)|
    ensures var rs := Reservations(c, s, es);
            rs[i].target + (j - i) as real * Interval(c) <= rs[j].target
  {
    hide Interval, Reservations, NoReduction;
    ConsecutiveTargets(c, s, es);
    SpacedOut(Reservations(c, s, es), Interval(c), i, j);
  }

  lemma {:induction false} CursorKept(c: Config, s: State, e: Event)
    requires c.Valid() && !e.Reserve? && !(e.Respond? && Reduces(c, s, e.status))
    ensures Step(c, s, e).nextAllowedAt == s.nextAllowedAt
  {
  }

  /** The next reservation of a run that starts in s with no reservation and no reduction before it. */
  lemma {:induction false} CursorAtNextReservation(c: Config, s: State, es: seq<Event>)
    requires c.Valid() && NoReduction(c, s, es) && forall i | 0 <= i < |es| :: !es[i].Reserve?
    ensures Run(c, s, es).nextAllowedAt == s.nextAllowedAt
    decreases |es|
  {
    hide Step, Reduces;
    if es != [] {
      CursorKept(c, s, es[0]);
      CursorAtNextReservation(c, Step(c, s, es[0]), es[1..]);
    }
  }

  lemma {:induction false} TargetReachesIff(c: Config, u: State, now: real, check: real, cursor: real)
    requires 0.0 <= now
    ensures var r := Reserved(c, u, now, check);
            cursor <= r.target <==>
              || cursor <= u.nextAllowedAt
              || cursor <= now
              || (r.inBackoff && cursor <= u.lastBackoffTime + u.backoff)
              || (r.floor > 0.0 && u.lastRequestTime > 0.0 && cursor <= u.lastRequestTime + r.floor)
  {
    hide FloorFrom;
  }

  /** When a reduction keeps the spacing promised to the waiters before it: the first reservation after
      it respects the cursor they left behind exactly when the clamp did not cut that cursor, or the
      clock, a running backoff or the distance to the last request holds the reservation at least as
      long.  Token turns, further successes and 429s may come in between. */
  lemma {:induction false} SpacingSurvivesReductionIff(
    c: Config, s: State, status: int, at: real, es: seq<Event>, now: real, check: real)
    requires c.Valid() && Inv(c, s) && Reduces(c, Recorded(s, status), status) && 0.0 <= now
    requires NoReduction(c, Step(c, s, Respond(status, at)), es)
    requires forall i | 0 <= i < |es| :: !es[i].Reserve?
    ensures var u := Run(c, Step(c, s, Respond(status, at)), es);
            var r := Reserved(c, u, now, check);
            s.nextAllowedAt <= r.target <==>
              || s.nextAllowedAt <= Shortened(c, s, status, at)
              || s.nextAllowedAt <= now
              || (r.inBackoff && s.nextAllowedAt <= u.lastBackoffTime + u.backoff)
              || (r.floor > 0.0 && u.lastRequestTime > 0.0 && s.nextAllowedAt <= u.lastRequestTime + r.floor)
  {
    hide Step, Reserved, Shortened, Reduces;
    var t := Step(c, s, Respond(status, at));
    ReducedState(c, s, status, at);
    CursorAtNextReservation(c, t, es);
    TargetReachesIff(c, Run(c, t, es), now, check, s.nextAllowedAt);
  }

  /** For a reservation right after the reduction the shortened window is covered by the clamp, so
      the caller needs to look at the clamp, the clock and the last request only. */
  lemma {:induction false} NextTargetAfterReductionIff(
    c: Config, s: State, status: int, at: real, now: real, check: real)
    requires c.Valid() && Inv(c, s) && Reduces(c, Recorded(s, status), status)
    requires 0.0 <= at <= now <= check
    ensures var f := NextFloor(c, Step(c, s, Respond(status, at)));
            s.nextAllowedAt <= Reserved(c, Step(c, s, Respond(status, at)), now, check).target <==>
              || s.nextAllowedAt <= Shortened(c, s, status, at)
              || s.nextAllowedAt <= now
              || (f > 0.0 && s.lastRequestTime > 0.0 && s.nextAllowedAt <= s.lastRequestTime + f)
  {
    hide Step, Shortened, Reduces, FloorFrom;
    ReducedState(c, s, status, at);
    SpacingSurvivesReductionIff(c, s, status, at, [], now, check);
  }

  /** A reduction that does break the spacing: the clamped cursor lets a later waiter overtake. */
  lemma {:induction false} ReductionLetsLaterWaiterOvertake()
    ensures var c := Config(60, 10, 30, true, 2.0, 300);
            var es := [Respond(429, 100.0), Reserve(100.0, 100.0), Respond(200, 101.0),
                       Reserve(101.0, 101.0), Respond(200, 102.0), Reserve(102.0, 102.0)];
            && Timely(0.0, es)
            && var rs := Reservations(c, Init(c, 0.0), es);
               |rs| == 3 && rs[1].target == 131.0 && rs[2].target == 117.0
  {
    var c := Config(60, 10, 30, true, 2.0, 300);
    var s0 := Init(c, 0.0);
    assert Pow(2.0, 0) == 1.0;
    var s1 := Step(c, s0, Respond(429, 100.0));
    var s2 := Step(c, s1, Reserve(100.0, 100.0));
    var s3 := Step(c, s2, Respond(200, 101.0));
    var s4 := Step(c, s3, Reserve(101.0, 101.0));
    var s5 := Step(c, s4, Respond(200, 102.0));
    assert Reserved(c, s1, 100.0, 100.0).target == 130.0;
    assert Reserved(c, s3, 101.0, 101.0).target == 131.0;
    assert Reserved(c, s5, 102.0, 102.0).target == 117.0;
    var e6 := [Reserve(102.0, 102.0)];
    var e5 := [Respond(200, 102.0)] + e6;
    var e4 := [Reserve(101.0, 101.0)] + e5;
    var e3 := [Respond(200, 101.0)] + e4;
    var e2 := [Reserve(100.0, 100.0)] + e3;
    assert Reservations(c, s5, e6) == [Reserved(c, s5, 102.0, 102.0)];
    assert Reservations(c, s4, e5) == Reservations(c, s5, e6);
    assert Reservations(c, s3, e4) == [Reserved(c, s3, 101.0, 101.0)] + Reservations(c, s4, e5);
    assert Reservations(c, s2, e3) == Reservations(c, s3, e4);
    assert Reservations(c, s1, e2) == [Reserved(c, s1, 100.0, 100.0)] + Reservations(c, s2, e3);
    var es := [Respond(429, 100.0)] + e2;
    assert Reservations(c, s0, es) == Reservations(c, s1, e2);
    assert Timely(101.0, e5) && Timely(100.0, e3);
  }

  /** Once learned, a positive floor survives every run in which a 429 was ever counted. */
  lemma {:induction false} FloorIsNeverForgotten(c: Config, s: State, es: seq<Event>)
    requires c.Valid() && Inv(c, s) && s.learnedFloor > 0.0 && s.violations > 0
    ensures Run(c, s, es).learnedFloor >= 0.1
    decreases |es|
  {
    if es != [] {
      var e := es[0];
      StepKeepsInvariant(c, s, e);
      FloorStep(c, if e.Respond? then Recorded(s, e.status) else s);
      FloorIsNeverForgotten(c, Step(c, s, e), es[1..]);
    }
  }

  lemma {:induction false} FloorDecays(c: Config, s: State, t: real, n: nat)
    requires c.Valid() && Inv(c, s) && s.violations == 0
    requires |s.outcomes| == WINDOW && forall i | 0 <= i < WINDOW :: s.outcomes[i]
    ensures var f := Run(c, s, seq(n, _ => Reserve(t, t))).learnedFloor;
            f == 0.0 || 0.1 <= f <= s.learnedFloor - 0.005 * n as real
    decreases n
  {
    if n > 0 {
      var es := seq(n, _ => Reserve(t, t));
      assert es[1..] == seq(n - 1, _ => Reserve(t, t));
      FloorStep(c, s);
      FloorDecays(c, Step(c, s, es[0]), t, n - 1);
    }
  }

  lemma {:induction false} LastOfLastOf(a: seq<bool>, b: seq<bool>)
    ensures LastOf(LastOf(a) + b) == LastOf(a + b)
  {
  }

  lemma {:induction false} LastOfChain(a: seq<bool>, o: seq<bool>, rest: seq<bool>)
    ensures LastOf(LastOf(a + o) + rest) == LastOf(a + (o + rest))
  {
    LastOfLastOf(a + o, rest);
    assert (a + o) + rest == a + (o + rest);
  }

  lemma {:induction false} StepOutcomes(c: Config, s: State, e: Event)
    requires c.backoffFactor != 0.0
    ensures Step(c, s, e).outcomes == if e.Respond? then LastOf(s.outcomes + [Outcome(e.status)]) else s.outcomes
  {
    hide LastOf, Outcome, NextFloor, BackoffFor, Earned, Interval, Reserved;
  }

  lemma {:induction false} StepRecords(c: Config, s: State, e: Event)
    requires c.backoffFactor != 0.0 && |s.outcomes| <= WINDOW
    ensures Step(c, s, e).outcomes == LastOf(s.outcomes + Outcomes([e]))
    ensures |Step(c, s, e).outcomes| <= WINDOW
  {
    hide Step;
    StepOutcomes(c, s, e);
    assert s.outcomes + [] == s.outcomes && Outcomes([e][1..]) == [];
  }

  /** The sliding window is exactly the last 1000 recorded outcomes. */
  lemma {:induction false} WindowIsLastOutcomes(c: Config, s: State, es: seq<Event>)
    requires c.backoffFactor != 0.0 && |s.outcomes| <= WINDOW
    ensures Run(c, s, es).outcomes == LastOf(s.outcomes + Outcomes(es))
    decreases |es|
  {
    if es == [] {
      assert s.outcomes + [] == s.outcomes;
    } else {
      var o, rest := Outcomes([es[0]]), Outcomes(es[1..]);
      StepRecords(c, s, es[0]);
      WindowIsLastOutcomes(c, Step(c, s, es[0]), es[1..]);
      LastOfChain(s.outcomes, o, rest);
      assert Outcomes(es) == o + rest;
    }
  }

  // ----- how a learned floor is forgotten -----

  /** A full window of successes and 4000 further reservations forget any floor, as long as no 429
      was counted. */
  lemma {:induction false} FloorForgottenWithoutViolations(c: Config, s: State, t: real)
    requires c.Valid() && Inv(c, s) && s.violations == 0
    requires |s.outcomes| == WINDOW && forall i | 0 <= i < WINDOW :: s.outcomes[i]
    ensures Run(c, s, seq(4000, _ => Reserve(t, t))).learnedFloor == 0.0
  {
    FloorDecays(c, s, t, 4000);
  }

  lemma {:induction false} RunSplit(c: Config, s: State, es: seq<Event>, more: seq<Event>)
    requires c.backoffFactor != 0.0
    ensures Run(c, s, es + more) == Run(c, Run(c, s, es), more)
    decreases |es|
  {
    hide Step;
    if es == [] {
      assert es + more == more;
    } else {
      assert (es + more)[1..] == es[1..] + more;
      RunSplit(c, Step(c, s, es[0]), es[1..], more);
    }
  }

  lemma {:induction false} AllAtOnce(es: seq<Event>, t: real)
    requires forall i | 0 <= i < |es| :: es[i].First() == t && es[i].Last() == t
    ensures Timely(t, es)
    decreases |es|
  {
    if es != [] { AllAtOnce(es[1..], t); }
  }

  lemma {:induction false} OutcomesOfResponses(es: seq<Event>, status: int)
    requires forall i | 0 <= i < |es| :: es[i].Respond? && es[i].status == status
    ensures |Outcomes(es)| == |es| && forall i | 0 <= i < |es| :: Outcomes(es)[i] == Outcome(status)
    decreases |es|
  {
    if es != [] { OutcomesOfResponses(es[1..], status); }
  }

  lemma {:induction false} NoViolationCounted(c: Config, s: State, es: seq<Event>)
    requires c.backoffFactor != 0.0
    requires forall i | 0 <= i < |es| :: es[i].Respond? ==> es[i].status != 429
    ensures Run(c, s, es).violations == s.violations
    decreases |es|
  {
    hide BackoffFor, Earned, Interval, FloorFrom;
    if es != [] { NoViolationCounted(c, Step(c, s, es[0]), es[1..]); }
  }

  /** A thousand successes at once, then 4000 reservations. */
  function Forgetting(t: real): seq<Event> {
    seq(WINDOW, _ => Respond(200, t)) + seq(4000, _ => Reserve(t, t))
  }

  lemma {:induction false} ForgettingForgets(c: Config, s: State, t: real)
    requires c.Valid() && Inv(c, s) && s.violations == 0
    ensures Timely(t, Forgetting(t)) && Run(c, s, Forgetting(t)).learnedFloor == 0.0
  {
    hide Run, Timely, Outcomes;
    var successes, reservations := seq(WINDOW, _ => Respond(200, t)), seq(4000, _ => Reserve(t, t));
    AllAtOnce(Forgetting(t), t);
    RunSplit(c, s, successes, reservations);
    var u := Run(c, s, successes);
    RunKeepsInvariant(c, s, successes);
    WindowIsLastOutcomes(c, s, successes);
    OutcomesOfResponses(successes, 200);
    NoViolationCounted(c, s, successes);
    FloorForgottenWithoutViolations(c, u, t);
  }

  /** The source's comment says the floor never returns to 0 once learned.  A learned floor can be
      forgotten in some run from here on exactly when no 429 was counted so far. */
  lemma {:induction false} FloorForgottenIff(c: Config, s: State, clock: real)
    requires c.Valid() && Inv(c, s) && s.learnedFloor > 0.0
    ensures (exists es: seq<Event> {:induction false} :: Timely(clock, es) && Run(c, s, es).learnedFloor == 0.0)
            <==> s.violations == 0
  {
    hide Run, Timely, Forgetting;
    if s.violations == 0 {
      ForgettingForgets(c, s, clock);
    } else {
      forall es: seq<Event> | Run(c, s, es).learnedFloor == 0.0
        ensures false
      {
        FloorIsNeverForgotten(c, s, es);
      }
    }
  }

  lemma {:induction false} FailuresLearnFloor(c: Config, s: State)
    requires c.Valid() && |s.outcomes| == 10 && forall i | 0 <= i < 10 :: !s.outcomes[i]
    ensures NextFloor(c, s) >= 1.0
  {
    var bad := CountFailures(s.outcomes);
    assert bad > 0 by { assert !s.outcomes[0]; }
    var rate := bad as real / 10.0;
    MulNonNegative(rate, 20.0 * c.backoffFactor);
  }

  /** Such a floor is reachable: a new limiter that sees ten server errors and one reservation has
      learned a floor without having counted a 429. */
  lemma {:induction false} FloorLearnedFromServerErrors(c: Config, now: real)
    requires c.Valid()
    ensures var es := seq(10, _ => Respond(500, now)) + [Reserve(now, now)];
            var s := Run(c, Init(c, now), es);
            && Timely(now, es) && Inv(c, s) && s.learnedFloor >= 1.0 && s.violations == 0
  {
    hide Run, Timely, Outcomes, Inv, FloorFrom;
    var errors := seq(10, _ => Respond(500, now));
    var es := errors + [Reserve(now, now)];
    var s := Init(c, now);
    InitHolds(c, now);
    AllAtOnce(es, now);
    RunKeepsInvariant(c, s, es);
    NoViolationCounted(c, s, es);
    RunAppend(c, s, errors, Reserve(now, now));
    WindowIsLastOutcomes(c, s, errors);
    OutcomesOfResponses(errors, 500);
    assert s.outcomes + Outcomes(errors) == Outcomes(errors);
    FailuresLearnFloor(c, Run(c, s, errors));
  }
}
