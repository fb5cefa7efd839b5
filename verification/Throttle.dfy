/** The outbound throttle: a rate limit per policy behind a circuit breaker per policy. */
module Throttle {
  import opened Wrappers
  import opened RateLimits

  const DEFAULT_FAILURE_THRESHOLD: int := 5
  const DEFAULT_COOLDOWN_MS: int := 30_000

  datatype Circuit = Circuit(failures: nat, openUntil: int)

  datatype Verdict = Passed | Suspended | LimitExceeded

  datatype Settings = Settings(limit: int, threshold: int, cooldown: int)

  datatype State = State(buckets: Buckets, circuits: map<string, Circuit>)

  datatype Event =
    | Check(policy: string, at: nat)
    | Success(policy: string, at: nat)
    | Failure(policy: string, at: nat)
    | Sweep(at: nat)

  // ---------------------------------------------------------------- one step

  predicate IsOpen(s: State, policy: string, now: int) { policy in s.circuits && now < s.circuits[policy].openUntil }

  /** Asking whether the circuit is open forgets one whose cooldown is over. */
  function Asked(s: State, policy: string, now: int): map<string, Circuit> {
    if policy in s.circuits && !IsOpen(s, policy, now) &&
      s.circuits[policy].openUntil > 0 then s.circuits - {policy} else s.circuits
  }

  function VerdictOf(c: Settings, s: State, policy: string, now: nat): Verdict {
    if IsOpen(s, policy, now) then Suspended
    else if Allowed(c.limit, s.buckets, Consume(policy, now)) then Passed
    else LimitExceeded
  }

  function Failures(s: State, policy: string): nat { if policy in s.circuits then s.circuits[policy].failures else 0 }

  function FailedAgain(c: Settings, s: State, policy: string, now: nat): Circuit {
    var n := Failures(s, policy) + 1;
    Circuit(n, if n >= c.threshold then now + c.cooldown else 0)
  }

  function Next(c: Settings, s: State, e: Event): State {
    match e
    case Check(p, now) => if IsOpen(s, p, now) then s else State(Counted(s.buckets, p, now), Asked(s, p, now))
    case Success(p, _) => s.(circuits := s.circuits - {p})
    case Failure(p, now) => s.(circuits := s.circuits[p := FailedAgain(c, s, p, now)])
    case Sweep(now) => s.(buckets := Unevicted(s.buckets, now))
  }

  class OutboundThrottle {
    const limiter: RollingWindowRateLimiter
    const failureThreshold: int
    const cooldownMs: int
    var circuits: map<string, Circuit>

    ghost predicate Valid() { limiter.limitPerMinute > 0 }

    ghost function Config(): Settings { Settings(limiter.limitPerMinute, failureThreshold, cooldownMs) }

    ghost function Contents(): State
      reads this, limiter
    {
      State(limiter.buckets, circuits)
    }

    constructor (maxExchangesPerMinutePerPolicy: int, threshold: Option<int>, cooldown: Option<int>)
      requires maxExchangesPerMinutePerPolicy > 0
      ensures Valid() && fresh(limiter) && Contents() == State(map[], map[])
      ensures Config() == Settings(maxExchangesPerMinutePerPolicy,
        if threshold.Some? then threshold.value else DEFAULT_FAILURE_THRESHOLD,
        if cooldown.Some? then cooldown.value else DEFAULT_COOLDOWN_MS)
    {
      limiter := new RollingWindowRateLimiter(maxExchangesPerMinutePerPolicy);
      failureThreshold := if threshold.Some? then threshold.value else DEFAULT_FAILURE_THRESHOLD;
      cooldownMs := if cooldown.Some? then cooldown.value else DEFAULT_COOLDOWN_MS;
      circuits := map[];
    }

    method IsCircuitOpen(policyName: string, now: nat) returns (isOpen: bool)
      modifies this
      ensures isOpen == IsOpen(old(Contents()), policyName, now)
      ensures circuits == Asked(old(Contents()), policyName, now)
    {
      if policyName !in circuits { return false; }
      var circuit := circuits[policyName];
      if now < circuit.openUntil { return true; }
      if circuit.openUntil > 0 { circuits := circuits - {policyName}; }
      return false;
    }

    method CheckAndConsume(policyName: string, now: nat) returns (verdict: Verdict)
      requires Valid()
      modifies this, limiter
      ensures Contents() == Next(Config(), old(Contents()), Check(policyName, now))
      ensures verdict == VerdictOf(Config(), old(Contents()), policyName, now)
    {
      var isOpen := IsCircuitOpen(policyName, now);
      if isOpen { return Suspended; }
      var allowed := limiter.TryConsume(policyName, now);
      return if allowed then Passed else LimitExceeded;
    }

    method RecordSuccess(policyName: string, now: nat)
      modifies this
      ensures Contents() == Next(Config(), old(Contents()), Success(policyName, now))
    {
      circuits := circuits - {policyName};
    }

    method RecordProviderFailure(policyName: string, now: nat)
      modifies this
      ensures Contents() == Next(Config(), old(Contents()), Failure(policyName, now))
    {
      var previous := if policyName in circuits then circuits[policyName].failures else 0;
      var consecutiveFailures := previous + 1;
      circuits := circuits[policyName := Circuit(consecutiveFailures,
        if consecutiveFailures >= failureThreshold then now + cooldownMs else 0)];
    }
  }

  // ---------------------------------------------------------------- runs

  function After(c: Settings, s: State, run: seq<Event>): State {
    if run == [] then s else Next(c, After(c, s, run[..|run| - 1]), run[|run| - 1])
  }

  predicate Monotone(run: seq<Event>) { forall i, j :: 0 <= i < j < |run| ==> run[i].at <= run[j].at }

  /** How often the policy fails in the run. */
  function FailuresIn(run: seq<Event>, policy: string): nat {
    if run == [] then 0 else
      FailuresIn(run[..|run| - 1], policy) + if run[|run| - 1].Failure? && run[|run| - 1].policy == policy then 1 else 0
  }

  predicate NoSuccess(run: seq<Event>, policy: string) {
    forall i :: 0 <= i < |run| && run[i].Success? ==> run[i].policy != policy
  }

  /** Below the threshold the circuit counts, and checks do not disturb the count. */
  lemma {:induction false} CountsUpTo(c: Settings, s: State, run: seq<Event>, policy: string)
    requires policy !in s.circuits && NoSuccess(run, policy) && FailuresIn(run, policy) < c.threshold
    ensures var t := After(c, s, run);
      if FailuresIn(run, policy) == 0 then policy !in t.circuits
      else policy in t.circuits && t.circuits[policy] == Circuit(FailuresIn(run, policy), 0)
  {
    if run != [] { CountsUpTo(c, s, run[..|run| - 1], policy); }
  }

  /** The failure that reaches the threshold, with no success since the count began, opens the circuit. */
  lemma ThresholdOpens(c: Settings, s: State, run: seq<Event>, policy: string)
    requires run != [] && policy !in s.circuits && NoSuccess(run, policy)
    requires FailuresIn(run, policy) == c.threshold && run[|run| - 1].Failure? && run[|run| - 1].policy == policy
    ensures var t := After(c, s, run);
      policy in t.circuits && t.circuits[policy] == Circuit(c.threshold, run[|run| - 1].at + c.cooldown)
  {
    CountsUpTo(c, s, run[..|run| - 1], policy);
  }

  ghost predicate OpenUntil(c: Settings, s: State, policy: string, until: int) {
    policy in s.circuits && s.circuits[policy].failures >= c.threshold && s.circuits[policy].openUntil >= until
  }

  /** Through the cooldown the circuit stays open, and the allowance of the policy is untouched. */
  lemma {:induction false} StaysOpen(c: Settings, s: State, rest: seq<Event>, policy: string, until: int)
    requires OpenUntil(c, s, policy, until) && NoSuccess(rest, policy)
    requires forall i :: 0 <= i < |rest| ==> until - c.cooldown <= rest[i].at < until
    ensures var t := After(c, s, rest);
      OpenUntil(c, t, policy, until)
      && (policy in t.buckets ==> policy in s.buckets && t.buckets[policy] == s.buckets[policy])
      && (policy in s.buckets && policy !in t.buckets ==>
        exists i :: 0 <= i < |rest| && rest[i].Sweep? && rest[i].at - s.buckets[policy].windowStart >= 2 * WINDOW_MS)
  {
    if rest != [] {
      var n := |rest| - 1;
      StaysOpen(c, s, rest[..n], policy, until);
      assert forall i :: 0 <= i < n ==> rest[..n][i] == rest[i];
    }
  }

  /**
   * The breaker: after the failure that reaches the threshold, and as long as no success is recorded,
   * every check within the cooldown is refused and consumes nothing.
   */
  lemma CooldownRefuses(c: Settings, s: State, run: seq<Event>, rest: seq<Event>, policy: string, now: nat)
    requires run != [] && policy !in s.circuits && NoSuccess(run, policy)
    requires FailuresIn(run, policy) == c.threshold && run[|run| - 1].Failure? && run[|run| - 1].policy == policy
    requires NoSuccess(rest, policy)
    requires var tripped := run[|run| - 1].at;
      tripped <= now < tripped + c.cooldown && forall i :: 0 <= i < |rest| ==> tripped <= rest[i].at <= now
    ensures var t := After(c, After(c, s, run), rest);
      VerdictOf(c, t, policy, now) == Suspended && Next(c, t, Check(policy, now)) == t
  {
    ThresholdOpens(c, s, run, policy);
    StaysOpen(c, After(c, s, run), rest, policy, run[|run| - 1].at + c.cooldown);
  }

  /** When the cooldown is over the rate limit alone decides, and the count starts again from nothing. */
  lemma CooldownEnds(c: Settings, s: State, policy: string, now: nat)
    requires policy in s.circuits && 0 < s.circuits[policy].openUntil <= now
    ensures VerdictOf(c, s, policy, now) ==
      (if Allowed(c.limit, s.buckets, Consume(policy, now)) then Passed else LimitExceeded)
    ensures Failures(Next(c, s, Check(policy, now)), policy) == 0
    ensures 1 < c.threshold ==> !IsOpen(Next(c, Next(c, s, Check(policy, now)), Failure(policy, now)), policy, now)
    ensures s.circuits[policy].failures >= c.threshold && c.cooldown > 0 ==>
      IsOpen(Next(c, s, Failure(policy, now)), policy, now)
  {
  }

  /** A circuit is open only while it has failed at least as often as the threshold. */
  lemma {:induction false} OpenMeansThreshold(c: Settings, run: seq<Event>, policy: string)
    ensures var t := After(c, State(map[], map[]), run);
      policy in t.circuits && t.circuits[policy].openUntil != 0 ==> t.circuits[policy].failures >= c.threshold
    ensures Failures(After(c, State(map[], map[]), run), policy) <= FailuresIn(run, policy)
  {
    if run != [] { OpenMeansThreshold(c, run[..|run| - 1], policy); }
  }
}
