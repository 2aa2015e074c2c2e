/** The adaptive token bucket as a state machine on values: one function per region the
    source runs under its lock, with every clock reading of that region as a parameter. */
module RateLimiterSpec {

  datatype Config = Config(
    requestsPerMinute: int,
    burstSize: int,
    retryAfterSeconds: int,
    adaptive: bool,
    backoffFactor: real,
    maxBackoffSeconds: int)
  {
    ghost predicate Valid() {
      && 0 <= requestsPerMinute && 0 <= burstSize
      && 0 <= retryAfterSeconds && 0 <= maxBackoffSeconds
      && 0.0 < backoffFactor
    }
  }

  const WINDOW: nat := 1000
  const RATE_LIMIT_ERRORS: set<int> := {408, 418, 425, 429, 500, 502, 503, 504}

  datatype State = State(
    tokens: real,
    lastRefill: real,
    lastRequestTime: real,
    outcomes: seq<bool>,
    violations: nat,
    consecutiveViolations: nat,
    consecutiveSuccesses: nat,
    backoff: real,
    lastBackoffTime: real,
    learnedFloor: real,
    nextAllowedAt: real)

  function Min(x: real, y: real): real { if y < x then y else x }

  function Max(x: real, y: real): real { if x < y then y else x }

  function Pow(base: real, n: nat): real {
    if n == 0 then 1.0 else base * Pow(base, n - 1)
  }

  function Rate(c: Config): real { c.requestsPerMinute as real / 60.0 }

  function Interval(c: Config): real {
    if Rate(c) > 0.0 then 1.0 / Rate(c) else 1.0
  }

  /** Tokens refilled in dt seconds. */
  function Earned(c: Config, dt: real): real { Rate(c) * dt }

  function Init(c: Config, now: real): State {
    State(c.burstSize as real, now, 0.0, [], 0, 0, 0, 0.0, 0.0, 0.0, 0.0)
  }

  function Refill(c: Config, s: State, now: real): State {
    if now - s.lastRefill > 0.0 then
      s.(tokens := Min(c.burstSize as real, s.tokens + Earned(c, now - s.lastRefill)), lastRefill := now)
    else s
  }

  predicate InBackoff(s: State, check: real) {
    s.backoff > 0.0 && check - s.lastBackoffTime < s.backoff
  }

  function CountFailures(outcomes: seq<bool>): (n: nat)
    ensures n <= |outcomes|
    ensures n == 0 <==> forall i | 0 <= i < |outcomes| :: outcomes[i]
  {
    if outcomes == [] then 0
    else
      var rest := CountFailures(outcomes[..|outcomes| - 1]);
      rest + if outcomes[|outcomes| - 1] then 0 else 1
  }

  /** The learned floor after one evaluation of `_calculate_minimum_floor`. */
  function NextFloor(c: Config, s: State): real {
    FloorFrom(c, s.outcomes, s.learnedFloor, s.violations)
  }

  function FloorFrom(c: Config, outcomes: seq<bool>, learned: real, violations: nat): real {
    if |outcomes| < 10 then learned
    else
      var bad := CountFailures(outcomes);
      if bad > 0 then
        var rate := bad as real / |outcomes| as real;
        var wanted := Min(20.0, 1.0 + rate * (20.0 * c.backoffFactor));
        if wanted > learned then wanted else learned
      else if |outcomes| == WINDOW && learned > 0.0 then
        var decayed := learned * 0.95;
        if violations > 0 then Max(0.5, decayed)
        else if decayed < 0.1 then 0.0
        else decayed
      else learned
  }

  function Uncapped(c: Config, n: nat): real { c.retryAfterSeconds as real * Pow(c.backoffFactor, n) }

  function BackoffFor(c: Config, consecutive: nat): real
    requires consecutive > 0
  {
    Min(Uncapped(c, consecutive - 1), c.maxBackoffSeconds as real)
  }

  /** A 429 drains the bucket and freezes its refill until the backoff lifts. */
  function Violate(c: Config, s: State, at: real): State {
    var backoff := BackoffFor(c, s.consecutiveViolations + 1);
    s.(violations := s.violations + 1,
       consecutiveViolations := s.consecutiveViolations + 1,
       consecutiveSuccesses := 0,
       backoff := backoff,
       lastBackoffTime := at,
       tokens := 0.0,
       lastRefill := at + backoff)
  }

  /** The second success in a row shrinks the backoff window and clamps cursor and refill time. */
  function Reduce(c: Config, s: State, at: real): State
    requires c.backoffFactor != 0.0
  {
    var floor := NextFloor(c, s);
    var reduced := Max(floor, s.backoff / c.backoffFactor);
    var backoff := if floor <= 0.0 then 0.0 else reduced;
    s.(learnedFloor := floor,
       lastBackoffTime := at,
       backoff := backoff,
       consecutiveViolations :=
         if floor <= 0.0 || s.consecutiveViolations == 0 then 0 else s.consecutiveViolations - 1,
       consecutiveSuccesses := 0,
       nextAllowedAt := Min(s.nextAllowedAt, at + reduced),
       lastRefill := Min(s.lastRefill, at + backoff))
  }

  predicate IsSuccess(status: int) { 200 <= status < 300 }

  predicate Reduces(c: Config, s: State, status: int) {
    c.adaptive && IsSuccess(status) && s.backoff > 0.0 && s.consecutiveSuccesses + 1 >= 2
  }

  function ApplyBackoff(c: Config, s: State, status: int, at: real): State
    requires c.backoffFactor != 0.0
  {
    if !c.adaptive then s
    else if status == 429 then Violate(c, s, at)
    else if Reduces(c, s, status) then Reduce(c, s, at)
    else if IsSuccess(status) && s.backoff > 0.0 then
      s.(consecutiveSuccesses := s.consecutiveSuccesses + 1, lastBackoffTime := at)
    else s
  }

  function LastOf(outcomes: seq<bool>): seq<bool> {
    if |outcomes| > WINDOW then outcomes[|outcomes| - WINDOW..] else outcomes
  }

  function Outcome(status: int): bool { IsSuccess(status) || status !in RATE_LIMIT_ERRORS }

  function Recorded(s: State, status: int): State {
    s.(outcomes := LastOf(s.outcomes + [Outcome(status)]))
  }

  datatype Reservation = Reservation(target: real, floor: real, inBackoff: bool)

  function Reserved(c: Config, s: State, now: real, check: real): (r: Reservation)
    ensures now <= r.target && s.nextAllowedAt <= r.target
    ensures InBackoff(s, check) ==> s.lastBackoffTime + s.backoff <= r.target
    ensures r.floor > 0.0 && s.lastRequestTime > 0.0 ==> s.lastRequestTime + r.floor <= r.target
  {
    var floor := NextFloor(c, s);
    var inBackoff := InBackoff(s, check);
    var end := if inBackoff then s.lastBackoffTime + s.backoff else 0.0;
    var target := Max(Max(now, s.nextAllowedAt), end);
    Reservation(
      if floor > 0.0 && s.lastRequestTime > 0.0 then Max(target, s.lastRequestTime + floor) else target,
      floor,
      inBackoff)
  }

  function AfterReserve(c: Config, s: State, now: real, check: real): State {
    var r := Reserved(c, s, now, check);
    s.(learnedFloor := r.floor, nextAllowedAt := r.target + Max(r.floor, Interval(c)))
  }

  predicate Grants(c: Config, s: State, refill: real) { Refill(c, s, refill).tokens >= 1.0 }

  function AfterAttempt(c: Config, s: State, refill: real, stamp: real): State {
    var filled := Refill(c, s, refill);
    if filled.tokens >= 1.0 then filled.(tokens := filled.tokens - 1.0, lastRequestTime := stamp)
    else filled
  }

  /** One locked region: a reservation (lines 321-322), one turn of the token loop (339-350),
      or a recorded response (403-424). Readings of one region are in the order it takes them. */
  datatype Event =
    | Reserve(now: real, check: real)
    | Attempt(refill: real, stamp: real)
    | Respond(status: int, at: real)
  {
    function First(): real {
      match this
      case Reserve(now, _) => now
      case Attempt(refill, _) => refill
      case Respond(_, at) => at
    }

    function Last(): real {
      match this
      case Reserve(_, check) => check
      case Attempt(_, stamp) => stamp
      case Respond(_, at) => at
    }
  }

  function Step(c: Config, s: State, e: Event): State
    requires c.backoffFactor != 0.0
  {
    match e
    case Reserve(now, check) => AfterReserve(c, s, now, check)
    case Attempt(refill, stamp) => AfterAttempt(c, s, refill, stamp)
    case Respond(status, at) => ApplyBackoff(c, Recorded(s, status), status, at)
  }

  function Run(c: Config, s: State, es: seq<Event>): State
    requires c.backoffFactor != 0.0
    decreases |es|
  {
    if es == [] then s else Run(c, Step(c, s, es[0]), es[1..])
  }

  /** The clock never goes backwards along the interleaving. */
  ghost predicate Timely(clock: real, es: seq<Event>)
    decreases |es|
  {
    es == [] || (clock <= es[0].First() <= es[0].Last() && Timely(es[0].Last(), es[1..]))
  }

  /** Tokens handed out at refill readings in [from, to]. */
  function Granted(c: Config, s: State, es: seq<Event>, from: real, to: real): nat
    requires c.backoffFactor != 0.0
    decreases |es|
  {
    if es == [] then 0
    else
      (if es[0].Attempt? && from <= es[0].refill <= to && Grants(c, s, es[0].refill) then 1 else 0)
      + Granted(c, Step(c, s, es[0]), es[1..], from, to)
  }

  /** Tokens handed out whose recorded request time lies in [from, to]. */
  function Stamped(c: Config, s: State, es: seq<Event>, from: real, to: real): nat
    requires c.backoffFactor != 0.0
    decreases |es|
  {
    if es == [] then 0
    else
      (if es[0].Attempt? && from <= es[0].stamp <= to && Grants(c, s, es[0].refill) then 1 else 0)
      + Stamped(c, Step(c, s, es[0]), es[1..], from, to)
  }

  ghost predicate NoReduction(c: Config, s: State, es: seq<Event>)
    requires c.backoffFactor != 0.0
    decreases |es|
  {
    es == [] || (!(es[0].Respond? && Reduces(c, s, es[0].status)) && NoReduction(c, Step(c, s, es[0]), es[1..]))
  }

  function Reservations(c: Config, s: State, es: seq<Event>): seq<Reservation>
    requires c.backoffFactor != 0.0
    decreases |es|
  {
    if es == [] then []
    else
      (if es[0].Reserve? then [Reserved(c, s, es[0].now, es[0].check)] else [])
      + Reservations(c, Step(c, s, es[0]), es[1..])
  }

  function Outcomes(es: seq<Event>): seq<bool> {
    if es == [] then []
    else (if es[0].Respond? then [Outcome(es[0].status)] else []) + Outcomes(es[1..])
  }
}
