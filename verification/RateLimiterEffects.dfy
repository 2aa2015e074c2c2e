/** What the single steps of the limiter are worth, stated on the configured numbers and the recorded
    history instead of through the functions that compute them. */
module RateLimiterEffects {
  import opened Arithmetic
  import opened RateLimiterSpec
  import opened RateLimiterProofs

  // ----- configured rates -----

  lemma {:induction false} RatePerMinute(c: Config)
    requires c.Valid()
    ensures Earned(c, 60.0) == c.requestsPerMinute as real
    ensures if c.requestsPerMinute > 0 then Interval(c) * c.requestsPerMinute as real == 60.0 else Interval(c) == 1.0
  {
    if c.requestsPerMinute > 0 {
      var r := Rate(c);
      assert r * 60.0 == c.requestsPerMinute as real && (1.0 / r) * r == 1.0;
      assert (1.0 / r) * (r * 60.0) == ((1.0 / r) * r) * 60.0;
    }
  }

  /** The first window is the retry time and each further violation multiplies it, up to the cap. */
  lemma {:induction false} BackoffSchedule(c: Config, k: nat)
    requires c.Valid() && 1.0 <= c.backoffFactor && k > 0
    ensures BackoffFor(c, 1) == Min(c.retryAfterSeconds as real, c.maxBackoffSeconds as real)
    ensures BackoffFor(c, k + 1) == Min(c.backoffFactor * BackoffFor(c, k), c.maxBackoffSeconds as real)
  {
    var u, cap := Uncapped(c, k - 1), c.maxBackoffSeconds as real;
    assert Uncapped(c, 0) == c.retryAfterSeconds as real by { assert Pow(c.backoffFactor, 0) == 1.0; }
    UncappedStep(c, k - 1);
    hide Uncapped;
    CappedProduct(c.backoffFactor, u, cap);
  }

  lemma {:induction false} CappedProduct(f: real, u: real, cap: real)
    requires 1.0 <= f && 0.0 <= cap
    ensures Min(f * u, cap) == Min(f * Min(u, cap), cap)
  {
    MulMono(cap, 1.0, f);
    if u > cap { MulMono(f, cap, u); }
  }

  lemma {:induction false} UncappedStep(c: Config, n: nat)
    ensures Uncapped(c, n + 1) == c.backoffFactor * Uncapped(c, n)
  {
    var p, r, f := Pow(c.backoffFactor, n), c.retryAfterSeconds as real, c.backoffFactor;
    assert Pow(f, n + 1) == f * p;
    assert r * (f * p) == f * (r * p);
  }

  // ----- the bucket -----

  function Turns(t: real, n: nat): seq<Event> { seq(n, _ => Attempt(t, t)) }

  lemma {:induction false} RefillOnce(c: Config, s: State, t: real)
    ensures var f := Refill(c, s, t);
            && t <= f.lastRefill && Refill(c, f, t) == f
            && Refill(c, AfterAttempt(c, s, t, t), t) == AfterAttempt(c, s, t, t)
            && AfterAttempt(c, s, t, t).tokens == if f.tokens >= 1.0 then f.tokens - 1.0 else f.tokens
  {
    hide Earned;
  }

  lemma {:induction false} GrantsInARow(c: Config, s: State, t: real, n: nat)
    requires c.backoffFactor != 0.0
    ensures Granted(c, s, Turns(t, n), t, t) <= n
    ensures Granted(c, s, Turns(t, n), t, t) == n <==> n == 0 || n as real <= Refill(c, s, t).tokens
    decreases n
  {
    hide Refill, AfterAttempt;
    if n > 0 {
      var es := Turns(t, n);
      assert es[1..] == Turns(t, n - 1);
      RefillOnce(c, s, t);
      GrantsInARow(c, AfterAttempt(c, s, t, t), t, n - 1);
    }
  }

  /** After a refill pause n turns in a row all get a token exactly when n is at most the burst and at
      most what was left plus what the pause earned. */
  lemma {:induction false} IdleGrants(c: Config, s: State, t: real, n: nat)
    requires c.Valid() && Inv(c, s) && s.lastRefill <= t
    ensures Granted(c, s, Turns(t, n), t, t) == n
            <==> n <= c.burstSize && n as real <= s.tokens + Earned(c, t - s.lastRefill)
  {
    GrantsInARow(c, s, t, n);
    hide Earned;
    EarnedNonNegative(c, t - s.lastRefill);
  }

  /** A new limiter hands out exactly its burst at once. */
  lemma {:induction false} NewBucketIsFull(c: Config, now: real, n: nat)
    requires c.Valid()
    ensures Granted(c, Init(c, now), Turns(now, n), now, now) == n <==> n <= c.burstSize
  {
    hide Earned;
    InitHolds(c, now);
    EarnedNonNegative(c, 0.0);
    IdleGrants(c, Init(c, now), now, n);
  }

  /** A frozen bucket holds what it holds. */
  lemma {:induction false} FrozenGrants(c: Config, s: State, t: real, n: nat)
    requires c.Valid() && Inv(c, s) && t < s.lastRefill
    ensures Granted(c, s, Turns(t, n), t, t) == n <==> n as real <= s.tokens
  {
    GrantsInARow(c, s, t, n);
  }

  // ----- the learned floor -----

  /** Number of failures in a window. */
  ghost function Failures(outcomes: seq<bool>): nat { |set i | 0 <= i < |outcomes| && !outcomes[i]| }

  lemma {:induction false} FailuresCounted(outcomes: seq<bool>)
    ensures CountFailures(outcomes) == Failures(outcomes)
  {
    if outcomes != [] {
      var n := |outcomes| - 1;
      FailuresCounted(outcomes[..n]);
      var before := set i | 0 <= i < n && !outcomes[..n][i];
      var all := set i | 0 <= i < |outcomes| && !outcomes[i];
      assert all == if outcomes[n] then before else before + {n};
    }
  }

  /** What the failures call for, n times over: n + 20 * factor * k. */
  function WantedTimes(c: Config, n: nat, k: nat): real { n as real + 20.0 * c.backoffFactor * k as real }

  function TimesLength(x: real, n: nat): real { x * n as real }

  lemma {:induction false} WantedShare(c: Config, s: State) returns (w: real)
    requires |s.outcomes| >= 10 && Failures(s.outcomes) > 0
    ensures NextFloor(c, s) == if Min(20.0, w) > s.learnedFloor then Min(20.0, w) else s.learnedFloor
    ensures TimesLength(w, |s.outcomes|) == WantedTimes(c, |s.outcomes|, Failures(s.outcomes))
  {
    hide Failures, WantedTimes, TimesLength;
    FailuresCounted(s.outcomes);
    var n, k := |s.outcomes|, CountFailures(s.outcomes);
    w := 1.0 + (k as real / n as real) * (20.0 * c.backoffFactor);
    ShareTimes(c, k, n);
  }

  lemma {:induction false} ShareTimes(c: Config, k: nat, n: nat)
    requires n > 0
    ensures TimesLength(1.0 + (k as real / n as real) * (20.0 * c.backoffFactor), n) == WantedTimes(c, n, k)
  {
    var q, m := k as real / n as real, 20.0 * c.backoffFactor;
    assert q * n as real == k as real;
    assert (q * m) * n as real == m * (q * n as real);
  }

  lemma {:induction false} TimesOrder(x: real, y: real, n: nat)
    requires n > 0
    ensures x <= y <==> TimesLength(x, n) <= TimesLength(y, n)
  {
    if x <= y { MulMono(n as real, x, y); } else { MulStrict(n as real, y, x); }
  }

  /** One evaluation with failures in the window: the floor rises to 1 + 20 * factor * (share of
      failures), at most 20, unless it is higher already.  Written without the division, n times over. */
  lemma {:induction false} FloorRises(c: Config, s: State)
    requires c.Valid() && Inv(c, s) && |s.outcomes| >= 10 && Failures(s.outcomes) > 0
    ensures var n, f, wanted := |s.outcomes|, NextFloor(c, s), WantedTimes(c, |s.outcomes|, Failures(s.outcomes));
            && s.learnedFloor <= f
            && (TimesLength(20.0, n) <= TimesLength(f, n) || wanted <= TimesLength(f, n))
            && (f <= s.learnedFloor || (f <= 20.0 && TimesLength(f, n) <= wanted))
            && (f == 20.0 <==> s.learnedFloor == 20.0 || TimesLength(20.0, n) <= wanted)
  {
    hide Failures, WantedTimes, TimesLength, FloorFrom;
    var n, f := |s.outcomes|, NextFloor(c, s);
    var w := WantedShare(c, s);
    TimesOrder(20.0, w, n);
    TimesOrder(w, f, n);
    TimesOrder(f, w, n);
  }

  /** Without failures in the window the floor stays, except on a full window: there it falls to 95
      percent, but not below 0.5 once a 429 was counted, and to 0 below 0.1 if none was. */
  lemma {:induction false} FloorDecaysTo(c: Config, s: State)
    requires |s.outcomes| < 10 || Failures(s.outcomes) == 0
    ensures var f, l := NextFloor(c, s), s.learnedFloor;
            if |s.outcomes| < 10 || |s.outcomes| != 1000 || l <= 0.0 then f == l
            else if s.violations > 0 then 0.5 <= f && 0.95 * l <= f && (f == 0.5 || f == 0.95 * l)
            else f == (if 0.95 * l < 0.1 then 0.0 else 0.95 * l)
  {
    FailuresCounted(s.outcomes);
  }

  // ----- outcomes -----

  /** A response counts against the floor exactly for the eight statuses that slowing down helps. */
  lemma {:induction false} CountsAgainstFloor(c: Config, s: State, status: int, at: real)
    requires c.Valid() && |s.outcomes| <= 1000
    ensures var o := Step(c, s, Respond(status, at)).outcomes;
            && |o| == (if |s.outcomes| < 1000 then |s.outcomes| + 1 else 1000)
            && (!o[|o| - 1] <==>
                  || status == 408 || status == 418 || status == 425 || status == 429
                  || status == 500 || status == 502 || status == 503 || status == 504)
            && (forall i | 0 <= i < |o| - 1 :: o[i] == s.outcomes[if |s.outcomes| < 1000 then i else i + 1])
  {
    StepOutcomes(c, s, Respond(status, at));
  }

  // ----- reservations -----

  /** The target is the least time that respects the clock, the cursor, a running backoff and the
      distance to the last request. */
  lemma {:induction false} TargetIsLeast(c: Config, s: State, now: real, check: real, time: real)
    requires 0.0 <= now
    ensures var r := Reserved(c, s, now, check);
            && r.floor == NextFloor(c, s)
            && (r.target <= time <==>
                  && now <= time && s.nextAllowedAt <= time
                  && (s.backoff > 0.0 && check < s.lastBackoffTime + s.backoff ==>
                        s.lastBackoffTime + s.backoff <= time)
                  && (r.floor > 0.0 && s.lastRequestTime > 0.0 ==> s.lastRequestTime + r.floor <= time))
  {
    hide FloorFrom;
  }

  lemma {:induction false} FloorSettled(c: Config, s: State)
    requires c.Valid() && Inv(c, s) && (Failures(s.outcomes) > 0 || |s.outcomes| < 1000)
    ensures NextFloor(c, s.(learnedFloor := NextFloor(c, s))) == NextFloor(c, s)
  {
    FailuresCounted(s.outcomes);
  }

  /** Two reservations in one moment lie exactly max(floor, refill interval) apart. */
  lemma {:induction false} BackToBack(c: Config, s: State, now: real, check: real)
    requires c.Valid() && Inv(c, s) && 0.0 <= now && (Failures(s.outcomes) > 0 || |s.outcomes| < 1000)
    ensures var first, u := Reserved(c, s, now, check), AfterReserve(c, s, now, check);
            Reserved(c, u, now, check).target == first.target + Max(first.floor, Interval(c))
  {
    hide FloorFrom, Failures;
    FloorSettled(c, s);
    assert 0.0 < Interval(c) by { IntervalPositive(c); }
    hide Interval;
  }

  lemma {:induction false} IntervalPositive(c: Config)
    requires c.Valid()
    ensures 0.0 < Interval(c)
  {
  }

  /** The last request is never forgotten: in every run each reservation made after a granted turn
      keeps the floor's distance to its recorded time. */
  lemma {:induction false} FloorKeepsDistance(c: Config, s: State, clock: real, es: seq<Event>, i: nat, since: real)
    requires c.Valid() && Timely(clock, es) && i < |es| && es[i].Reserve?
    requires 0.0 < since <= s.lastRequestTime <= clock
    ensures var r := Reserved(c, Run(c, s, es[..i]), es[i].now, es[i].check);
            r.floor > 0.0 ==> since + r.floor <= r.target
    decreases i
  {
    hide FloorFrom, Earned, BackoffFor;
    if i > 0 {
      assert es[..i][1..] == es[1..][..i - 1];
      FloorKeepsDistance(c, Step(c, s, es[0]), es[0].Last(), es[1..], i - 1, since);
    }
  }

  lemma {:induction false} GrantHoldsBack(
    c: Config, s: State, refill: real, stamp: real, es: seq<Event>, i: nat)
    requires c.Valid() && Grants(c, s, refill) && 0.0 < stamp && Timely(stamp, es) && i < |es| && es[i].Reserve?
    ensures var u := Step(c, s, Attempt(refill, stamp));
            var r := Reserved(c, Run(c, u, es[..i]), es[i].now, es[i].check);
            r.floor > 0.0 ==> stamp + r.floor <= r.target
  {
    hide Run, Reserved;
    FloorKeepsDistance(c, Step(c, s, Attempt(refill, stamp)), stamp, es, i, stamp);
  }

  // ----- responses -----

  /** Without adaptation, for failures other than 429 and for successes outside a backoff a response
      leaves nothing behind but its outcome. */
  lemma {:induction false} OtherResponses(c: Config, s: State, status: int, at: real)
    requires c.Valid()
    requires !c.adaptive || (status != 429 && (!(200 <= status < 300) || s.backoff <= 0.0))
    ensures var t := Step(c, s, Respond(status, at));
            t == s.(outcomes := t.outcomes)
  {
  }

  /** The first success restarts the window at its own time and releases nothing. */
  lemma {:induction false} FirstSuccessRestartsWindow(
    c: Config, s: State, status: int, at: real, now: real, check: real)
    requires c.Valid() && c.adaptive && 200 <= status < 300 && s.backoff > 0.0 && s.consecutiveSuccesses == 0
    ensures var t := Step(c, s, Respond(status, at));
            && t.tokens == s.tokens && t.lastRefill == s.lastRefill && t.nextAllowedAt == s.nextAllowedAt
            && t.backoff == s.backoff && t.learnedFloor == s.learnedFloor
            && (Reserved(c, t, now, check).inBackoff <==> check < at + s.backoff)
            && (check < at + s.backoff ==> at + s.backoff <= Reserved(c, t, now, check).target)
  {
    hide FloorFrom;
  }

  function CountSuccesses(es: seq<Event>): nat
    decreases |es|
  {
    if es == [] then 0
    else (if es[0].Respond? && 200 <= es[0].status < 300 then 1 else 0) + CountSuccesses(es[1..])
  }

  predicate No429(es: seq<Event>) { forall i | 0 <= i < |es| :: es[i].Respond? ==> es[i].status != 429 }

  /** In a backoff with d successes so far a run without 429s reduces it exactly when it brings the
      number of successes to two. */
  lemma {:induction false} ReductionTakesTwoSuccesses(c: Config, s: State, es: seq<Event>)
    requires c.Valid() && c.adaptive && s.backoff > 0.0 && s.consecutiveSuccesses <= 1 && No429(es)
    ensures NoReduction(c, s, es) <==> s.consecutiveSuccesses + CountSuccesses(es) <= 1
    decreases |es|
  {
    hide FloorFrom, Earned, Interval, BackoffFor, Reduce;
    if es != [] {
      assert No429(es[1..]) by { assert forall i | 0 <= i < |es[1..]| :: es[1..][i] == es[i + 1]; }
      if !(es[0].Respond? && Reduces(c, s, es[0].status)) {
        ReductionTakesTwoSuccesses(c, Step(c, s, es[0]), es[1..]);
      }
    }
  }

  /** A 429 and a reduction both start the count again, so each takes two more successes. */
  lemma {:induction false} CountRestarts(c: Config, s: State, status: int, at: real)
    requires c.Valid() && c.adaptive && (status == 429 || Reduces(c, s, status))
    ensures Step(c, s, Respond(status, at)).consecutiveSuccesses == 0
  {
    hide FloorFrom;
  }

  /** What a reduction leaves: no backoff without a floor, else the larger of the floor and the old
      backoff divided by the factor; and the next 429 falls one step short of the schedule, or starts
      it again. */
  lemma {:induction false} ReducedBackoff(c: Config, s: State, status: int, at: real, later: real)
    requires c.Valid() && Inv(c, s) && Reduces(c, Recorded(s, status), status)
    ensures var t := Step(c, s, Respond(status, at));
            var f, b := NextFloor(c, Recorded(s, status)), t.backoff;
            && t.learnedFloor == f && t.lastBackoffTime == at
            && t.tokens == s.tokens && t.lastRequestTime == s.lastRequestTime && t.violations == s.violations
            && (if f == 0.0 then b == 0.0
                else f <= b && s.backoff <= c.backoffFactor * b && (b == f || c.backoffFactor * b == s.backoff))
            && Step(c, t, Respond(429, later)).backoff ==
               BackoffFor(c, if f == 0.0 || s.consecutiveViolations == 0 then 1 else s.consecutiveViolations)
  {
    hide FloorFrom, BackoffFor;
    FloorNonNegative(c, Recorded(s, status));
    var q := s.backoff / c.backoffFactor;
    assert c.backoffFactor * q == s.backoff;
    MulMono(c.backoffFactor, q, Max(NextFloor(c, Recorded(s, status)), q));
  }

  // ----- the frozen bucket across a recovery -----

  /** When a frozen bucket may refill after a reduction: at its old time, or at the end of the shortened
      window if that is earlier. */
  function Thaw(c: Config, s: State, status: int, at: real): real
    requires c.backoffFactor != 0.0
  {
    Min(s.lastRefill, at + Step(c, s, Respond(status, at)).backoff)
  }

  lemma {:induction false} ReducedBucket(c: Config, s: State, status: int, at: real)
    requires c.Valid() && Inv(c, s) && Reduces(c, Recorded(s, status), status)
    requires s.tokens == 0.0 && at <= s.lastRefill
    ensures var t := Step(c, s, Respond(status, at));
            Inv(c, t) && t.tokens == 0.0 && t.lastRefill == Thaw(c, s, status, at) && at <= t.lastRefill
  {
    hide FloorFrom;
    StepKeepsInvariant(c, s, Respond(status, at));
  }

  /** The first token after a recovery comes exactly from one refill interval after that time on. */
  lemma {:induction false} ReductionThawsAt(c: Config, s: State, status: int, at: real, refill: real)
    requires c.Valid() && Inv(c, s) && Reduces(c, Recorded(s, status), status)
    requires s.tokens == 0.0 && at <= s.lastRefill && 0 < c.requestsPerMinute && 0 < c.burstSize
    ensures Grants(c, Step(c, s, Respond(status, at)), refill)
            <==> Thaw(c, s, status, at) + Interval(c) <= refill
  {
    hide Step, Thaw, Rate, Interval, Reduces;
    ReducedBucket(c, s, status, at);
    var t := Step(c, s, Respond(status, at));
    if t.lastRefill + Interval(c) <= refill {
      RefillGrants(c, t, refill);
    } else if Grants(c, t, refill) {
      assert 1.0 <= Earned(c, refill - t.lastRefill);
      AtLeastOneInterval(c, refill - t.lastRefill);
    }
  }

  /** However a run goes on without reductions, it is paid only from time after `lift`. */
  ghost predicate StaysFrozen(c: Config, t: State, clock: real, lift: real)
    requires c.backoffFactor != 0.0
  {
    forall es: seq<Event>, from: real, to: real {:induction false} ::
      Timely(clock, es) && NoReduction(c, t, es) && Granted(c, t, es, from, to) > 0 ==>
        Granted(c, t, es, from, to) as real <= Earned(c, to - lift)
  }

  lemma {:induction false} PaidAfterThaw(
    c: Config, s: State, status: int, at: real, es: seq<Event>, from: real, to: real)
    requires c.Valid() && 1.0 <= c.backoffFactor && Inv(c, s) && Reduces(c, Recorded(s, status), status)
    requires s.tokens == 0.0 && at <= s.lastRefill
    requires var t := Step(c, s, Respond(status, at));
             && Timely(at, es) && NoReduction(c, t, es)
             && Thaw(c, s, status, at) <= at + BackoffFor(c, t.consecutiveViolations + 1)
    ensures var n := Granted(c, Step(c, s, Respond(status, at)), es, from, to);
            n > 0 ==> n as real <= Earned(c, to - Thaw(c, s, status, at))
  {
    hide Step, Thaw, Earned, Reduces, BackoffFor;
    ReducedBucket(c, s, status, at);
    var t := Step(c, s, Respond(status, at));
    EarnedNonNegative(c, 0.0);
    var lift := Thaw(c, s, status, at);
    assert t.lastRefill - lift == 0.0;
    PaidSinceLift(c, t, at, es, lift, BackoffFor(c, t.consecutiveViolations + 1), 0, from, to);
  }

  /** A 429 whose window ends before a time lets the bucket pay before one interval after it. */
  lemma {:induction false} EarlyThaw(c: Config, t: State, at: real, lift: real)
    requires c.Valid() && c.adaptive && Inv(c, t) && 0 < c.requestsPerMinute && 0 < c.burstSize
    requires at + BackoffFor(c, t.consecutiveViolations + 1) < lift
    ensures !StaysFrozen(c, t, at, lift)
  {
    hide BackoffFor, Earned, Interval;
    var b := BackoffFor(c, t.consecutiveViolations + 1);
    var v := Step(c, t, Respond(429, at));
    StepKeepsInvariant(c, t, Respond(429, at));
    BackoffNonNegative(c, t.consecutiveViolations + 1);
    IntervalPositive(c);
    var u := at + b + Interval(c);
    var last := [Attempt(u, u)];
    var es := [Respond(429, at)] + last;
    assert v.lastRefill == at + b;
    RefillGrants(c, v, u);
    assert es[1..] == last && last[1..] == [];
    assert Granted(c, v, last, u, u) == 1;
    assert Granted(c, t, es, u, u) == 1;
    assert NoReduction(c, v, last) && NoReduction(c, t, es);
    assert Timely(at, last) && Timely(at, es);
    assert Earned(c, Interval(c)) == 1.0 by { OneToken(c); }
    assert Earned(c, u - lift) < 1.0 by { EarnedLess(c, u - lift, Interval(c)); }
  }

  lemma {:induction false} OneToken(c: Config)
    requires c.Valid() && 0 < c.requestsPerMinute
    ensures Earned(c, Interval(c)) == 1.0
  {
  }

  lemma {:induction false} EarnedLess(c: Config, x: real, y: real)
    requires c.Valid() && 0 < c.requestsPerMinute && x < y
    ensures Earned(c, x) < Earned(c, y)
  {
    MulStrict(Rate(c), x, y);
  }

  /** The freeze of a 429 carried across a recovery: until the next reduction every run is paid only
      from time after the thaw, exactly when the window of the next 429 would not end before it.  Where
      the learned floor kept the backoff above the schedule, a 429 ends the freeze early. */
  lemma {:induction false} FreezeSurvivesReductionIff(c: Config, s: State, status: int, at: real)
    requires c.Valid() && 1.0 <= c.backoffFactor && Inv(c, s) && 0 < c.requestsPerMinute && 0 < c.burstSize
    requires Reduces(c, Recorded(s, status), status) && s.tokens == 0.0 && at <= s.lastRefill
    ensures var t := Step(c, s, Respond(status, at));
            StaysFrozen(c, t, at, Thaw(c, s, status, at))
            <==> Thaw(c, s, status, at) <= at + BackoffFor(c, t.consecutiveViolations + 1)
  {
    hide Step, Thaw, Granted, NoReduction, Timely, Earned, BackoffFor;
    var t, lift := Step(c, s, Respond(status, at)), Thaw(c, s, status, at);
    ReducedBucket(c, s, status, at);
    if lift <= at + BackoffFor(c, t.consecutiveViolations + 1) {
      forall es: seq<Event>, from: real, to: real |
        Timely(at, es) && NoReduction(c, t, es) && Granted(c, t, es, from, to) > 0
        ensures Granted(c, t, es, from, to) as real <= Earned(c, to - lift)
      {
        PaidAfterThaw(c, s, status, at, es, from, to);
      }
    } else {
      EarlyThaw(c, t, at, lift);
    }
  }

  /** A floor of 20 seconds over a retry time of 1, five violations deep: the fifth window of the
      schedule, 16 seconds, ends before the shortened one, so a 429 ends the freeze early. */
  lemma {:induction false} A429MayEndTheFreeze()
    ensures var c := Config(60, 10, 1, true, 2.0, 300);
            var s := State(0.0, 121.0, 0.0, seq(10, _ => false), 6, 5, 1, 20.0, 101.0, 20.0, 0.0);
            && Inv(c, s) && Reduces(c, Recorded(s, 200), 200)
            && Thaw(c, s, 200, 102.0) == 121.0
            && !StaysFrozen(c, Step(c, s, Respond(200, 102.0)), 102.0, 121.0)
  {
    hide FloorFrom, StaysFrozen;
    var c := Config(60, 10, 1, true, 2.0, 300);
    var s := State(0.0, 121.0, 0.0, seq(10, _ => false), 6, 5, 1, 20.0, 101.0, 20.0, 0.0);
    var r := Recorded(s, 200);
    FloorStep(c, r);
    assert !r.outcomes[0];
    assert NextFloor(c, r) == 20.0;
    assert BackoffFor(c, 5) == 16.0 by { assert Pow(2.0, 1) == 2.0 && Pow(2.0, 2) == 4.0 && Pow(2.0, 3) == 8.0; }
    FreezeSurvivesReductionIff(c, s, 200, 102.0);
  }
}
