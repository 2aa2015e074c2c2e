/** The limiter object itself: fields updated in place, one method per source method. */
module RateLimiting {
  import opened Arithmetic
  import opened RateLimiterSpec
  import opened RateLimiterProofs

  function Ceil(x: real): int { -((-x).Floor) }

  function Times(n: nat, gap: real): real { n as real * gap }

  lemma {:induction false} ReduceOverwrites(c: Config, s: State, successes: nat, at: real)
    requires c.backoffFactor != 0.0
    ensures Reduce(c, s.(consecutiveSuccesses := successes, lastBackoffTime := at), at) == Reduce(c, s, at)
  {
    hide FloorFrom;
  }

  /** A turn that fails happened less than one refill interval after the last refill. */
  lemma {:induction false} FailedTurn(c: Config, s: State, refill: real, stamp: real)
    requires c.Valid() && Inv(c, s) && c.requestsPerMinute > 0 && c.burstSize > 0
    ensures var s' := AfterAttempt(c, s, refill, stamp);
            && Inv(c, s')
            && Interval(c) > 0.0
            && (!Grants(c, s, refill) ==>
                  refill < s.lastRefill + Interval(c) && (s'.lastRefill == s.lastRefill || s'.lastRefill == refill))
  {
    StepKeepsInvariant(c, s, Attempt(refill, stamp));
    if s.lastRefill + Interval(c) <= refill {
      assert Earned(c, Interval(c)) == 1.0;
      EarnedMono(c, Interval(c), refill - s.lastRefill);
    }
  }

  lemma {:induction false} SleepBound(n: nat, gap: real, wait: real)
    requires gap > 0.0 && 0.0 <= wait
    ensures Times(n + 1, gap) == Times(n, gap) + gap && Times(0, gap) == 0.0
    ensures 0 <= Ceil(wait / gap)
    ensures Times(n, gap) < wait + Times(2, gap) ==> n <= Ceil(wait / gap) + 1
  {
    var q := wait / gap;
    assert wait == q * gap;
    if Times(n, gap) < wait + Times(2, gap) && q <= n as real - 2.0 {
      MulMono(gap, q, n as real - 2.0);
    }
  }

  class RateLimiter {
    const config: Config
    const enabled: bool
    var tokens: real
    var lastRefill: real
    var lastRequestTime: real
    var requestOutcomes: seq<bool>
    var rateLimitViolations: nat
    var consecutiveViolations: nat
    var consecutiveSuccesses: nat
    var currentBackoffSeconds: real
    var lastBackoffTime: real
    var learnedFloor: real
    var nextAllowedAt: real

    ghost function View(): State
      reads this
    {
      State(tokens, lastRefill, lastRequestTime, requestOutcomes, rateLimitViolations, consecutiveViolations,
            consecutiveSuccesses, currentBackoffSeconds, lastBackoffTime, learnedFloor, nextAllowedAt)
    }

    constructor (config: Config, enabled: bool, now: real)
      ensures View() == Init(config, now) && this.config == config && this.enabled == enabled
    {
      this.config, this.enabled := config, enabled;
      tokens, lastRefill, lastRequestTime := config.burstSize as real, now, 0.0;
      requestOutcomes, rateLimitViolations := [], 0;
      consecutiveViolations, consecutiveSuccesses := 0, 0;
      currentBackoffSeconds, lastBackoffTime := 0.0, 0.0;
      learnedFloor, nextAllowedAt := 0.0, 0.0;
    }

    method RefillTokens(now: real)
      modifies this`tokens, this`lastRefill
      ensures View() == Refill(config, old(View()), now)
    {
      var elapsed := now - lastRefill;
      if elapsed > 0.0 {
        tokens := Min(config.burstSize as real, tokens + Earned(config, elapsed));
        lastRefill := now;
      }
    }

    method IsInBackoff(check: real) returns (b: bool)
      ensures b == InBackoff(View(), check)
    {
      if currentBackoffSeconds <= 0.0 {
        return false;
      }
      b := check - lastBackoffTime < currentBackoffSeconds;
    }

    method CountRecentViolations() returns (n: nat)
      ensures n == CountFailures(requestOutcomes)
      ensures n == 0 <==> forall i | 0 <= i < |requestOutcomes| :: requestOutcomes[i]
    {
      n := 0;
      for i := 0 to |requestOutcomes|
        invariant n == CountFailures(requestOutcomes[..i])
      {
        assert requestOutcomes[..i + 1][..i] == requestOutcomes[..i];
        if !requestOutcomes[i] {
          n := n + 1;
        }
      }
      assert requestOutcomes[..|requestOutcomes|] == requestOutcomes;
    }

    method CalculateMinimumFloor() returns (floor: real)
      modifies this`learnedFloor
      ensures floor == NextFloor(config, old(View()))
      ensures View() == old(View()).(learnedFloor := floor)
    {
      if |requestOutcomes| < 10 {
        return learnedFloor;
      }
      var recentViolations := CountRecentViolations();
      if recentViolations > 0 {
        var violationRate := recentViolations as real / |requestOutcomes| as real;
        var calculated := Min(20.0, 1.0 + violationRate * (20.0 * config.backoffFactor));
        if calculated > learnedFloor {
          learnedFloor := calculated;
        }
      } else if |requestOutcomes| == WINDOW {
        if learnedFloor > 0.0 {
          if rateLimitViolations > 0 {
            learnedFloor := Max(0.5, learnedFloor * 0.95);
          } else {
            learnedFloor := learnedFloor * 0.95;
            if learnedFloor < 0.1 {
              learnedFloor := 0.0;
            }
          }
        }
      }
      floor := learnedFloor;
    }

    method ApplyAdaptiveBackoff(status: int, at: real)
      requires config.backoffFactor != 0.0
      modifies this
      ensures View() == ApplyBackoff(config, old(View()), status, at)
    {
      hide Reduce, Violate;
      if !config.adaptive {
        return;
      }
      if status == 429 {
        RecordViolation(at);
      } else if IsSuccess(status) && currentBackoffSeconds > 0.0 {
        consecutiveSuccesses := consecutiveSuccesses + 1;
        lastBackoffTime := at;
        if consecutiveSuccesses >= 2 {
          ReduceOverwrites(config, old(View()), consecutiveSuccesses, at);
          ReduceBackoff();
        }
      }
    }

    method RecordViolation(at: real)
      modifies this
      ensures View() == Violate(config, old(View()), at)
    {
      rateLimitViolations := rateLimitViolations + 1;
      consecutiveViolations := consecutiveViolations + 1;
      consecutiveSuccesses := 0;
      currentBackoffSeconds := BackoffFor(config, consecutiveViolations);
      lastBackoffTime := at;
      tokens := 0.0;
      lastRefill := lastBackoffTime + currentBackoffSeconds;
    }

    method ReduceBackoff()
      requires config.backoffFactor != 0.0
      modifies this
      ensures View() == Reduce(config, old(View()), old(lastBackoffTime))
    {
      var minimum := CalculateMinimumFloor();
      var reduced := currentBackoffSeconds / config.backoffFactor;
      currentBackoffSeconds := Max(minimum, reduced);
      if consecutiveViolations > 0 {
        consecutiveViolations := consecutiveViolations - 1;
      }
      nextAllowedAt := Min(nextAllowedAt, lastBackoffTime + currentBackoffSeconds);
      if currentBackoffSeconds <= minimum && minimum > 0.0 {
        consecutiveSuccesses := 0;
      } else if minimum <= 0.0 {
        currentBackoffSeconds, consecutiveViolations, consecutiveSuccesses := 0.0, 0, 0;
      } else {
        consecutiveSuccesses := 0;
      }
      lastRefill := Min(lastRefill, lastBackoffTime + currentBackoffSeconds);
    }

    method ReserveSlot(now: real, check: real) returns (r: Reservation)
      modifies this
      ensures r == Reserved(config, old(View()), now, check)
      ensures View() == AfterReserve(config, old(View()), now, check)
    {
      var floor := CalculateMinimumFloor();
      var inBackoff := IsInBackoff(check);
      var backoffEnd := if inBackoff then lastBackoffTime + currentBackoffSeconds else 0.0;
      var target := Max(Max(now, nextAllowedAt), backoffEnd);
      if floor > 0.0 && lastRequestTime > 0.0 {
        target := Max(target, lastRequestTime + floor);
      }
      nextAllowedAt := target + Max(floor, Interval(config));
      r := Reservation(target, floor, inBackoff);
    }

    /** One locked turn of the token loop. */
    method TryTakeToken(refill: real, stamp: real) returns (granted: bool)
      modifies this`tokens, this`lastRefill, this`lastRequestTime
      ensures granted == Grants(config, old(View()), refill)
      ensures View() == AfterAttempt(config, old(View()), refill, stamp)
    {
      RefillTokens(refill);
      granted := tokens >= 1.0;
      if granted {
        tokens := tokens - 1.0;
        lastRequestTime := stamp;
      }
    }

    /** A lone waiter: reservation, sleep until the target, then the token loop.  `turns(k)` are the
        clock readings of the k-th turn; consecutive turns are a full refill interval apart. */
    method WaitForRequest(now: real, check: real, turns: nat -> (real, real)) returns (sleeps: nat, granted: bool)
      requires config.Valid() && Inv(config, View())
      requires enabled ==> config.requestsPerMinute > 0 && config.burstSize > 0
      requires now <= check
      requires enabled ==> Reserved(config, View(), now, check).target <= turns(0).0
      requires forall k: nat :: turns(k).0 <= turns(k).1
      requires forall k: nat :: turns(k).1 + Interval(config) <= turns(k + 1).0
      modifies this
      ensures granted == enabled && (!enabled ==> View() == old(View()))
      ensures enabled ==>
                && Reserved(config, old(View()), now, check).target <= lastRequestTime
                && lastRequestTime == turns(sleeps).1
                && sleeps <= Ceil(Max(0.0, old(lastRefill) - turns(0).0) / Interval(config)) + 1
    {
      if !enabled {
        return 0, false;
      }
      var r := ReserveSlot(now, check);
      FloorStep(config, old(View()));
      sleeps, granted := TakeTokenAlone(turns);
    }

    method TakeTokenAlone(turns: nat -> (real, real)) returns (sleeps: nat, granted: bool)
      requires config.Valid() && Inv(config, View())
      requires config.requestsPerMinute > 0 && config.burstSize > 0
      requires forall k: nat :: turns(k).0 <= turns(k).1
      requires forall k: nat :: turns(k).1 + Interval(config) <= turns(k + 1).0
      modifies this`tokens, this`lastRefill, this`lastRequestTime
      ensures granted && lastRequestTime == turns(sleeps).1 && turns(0).0 <= lastRequestTime
      ensures sleeps <= Ceil(Max(0.0, old(lastRefill) - turns(0).0) / Interval(config)) + 1
    {
      ghost var wait, gap := Max(0.0, lastRefill - turns(0).0), Interval(config);
      sleeps, granted := 0, false;
      while true
        invariant Inv(config, View())
        invariant turns(0).0 + Times(sleeps, gap) <= turns(sleeps).0
        invariant lastRefill == old(lastRefill) || lastRefill + gap <= turns(sleeps).0
        invariant sleeps > 0 ==> Times(sleeps, gap) < wait + Times(2, gap)
        decreases Ceil(wait / gap) + 2 - sleeps
      {
        FailedTurn(config, View(), turns(sleeps).0, turns(sleeps).1);
        SleepBound(sleeps, gap, wait);
        granted := TryTakeToken(turns(sleeps).0, turns(sleeps).1);
        if granted {
          break;
        }
        sleeps := sleeps + 1;
        SleepBound(sleeps, gap, wait);
      }
    }

    method RecordResponse(status: int, at: real)
      requires config.backoffFactor != 0.0 && |requestOutcomes| <= WINDOW
      modifies this
      ensures enabled ==> View() == Step(config, old(View()), Respond(status, at))
      ensures !enabled ==> View() == old(View())
    {
      if !enabled {
        return;
      }
      var isSuccess := IsSuccess(status) || status !in RATE_LIMIT_ERRORS;
      requestOutcomes := requestOutcomes + [isSuccess];
      if |requestOutcomes| > WINDOW {
        requestOutcomes := requestOutcomes[1..];
      }
      ApplyAdaptiveBackoff(status, at);
    }
  }
}
