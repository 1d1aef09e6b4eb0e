/** The per-relay circuit breaker of the publish queue.

  `Breaker` is the value of a breaker's four fields and the functions say what each
  operation does to it; `RelayBreaker` is the mutable record of the program, whose
  methods are proved against those functions.  Times and durations are nanoseconds.
 */
module Breakers {
  import opened Common

  const SECOND: int := 1_000_000_000
  const BREAKER_THRESHOLD: nat := 3
  const BASE_COOLDOWN: int := 30 * SECOND
  const MAX_COOLDOWN: int := 30 * 60 * SECOND

  /** Go's zero time (year 1), the initial value of `nextProbe`. */
  const ZERO_TIME: int := -62135596800 * SECOND

  datatype BreakerState = Closed | Open | HalfOpen

  datatype Grant = Deny | AllowProbe | AllowAll

  datatype Breaker = Breaker(state: BreakerState, failures: nat, cooldown: int, nextProbe: int)

  const FRESH_BREAKER := Breaker(Closed, 0, 0, ZERO_TIME)

  function GrantOf(b: Breaker, now: int): Grant {
    match b.state
    case Closed => AllowAll
    case Open => if b.nextProbe <= now then AllowProbe else Deny
    case HalfOpen => Deny
  }

  function AfterAllow(b: Breaker, now: int): Breaker {
    if GrantOf(b, now) == AllowProbe then b.(state := HalfOpen) else b
  }

  function AfterSuccess(b: Breaker): Breaker {
    b.(state := Closed, failures := 0, cooldown := BASE_COOLDOWN)
  }

  function AfterFailure(b: Breaker, now: int): Breaker {
    var n := b.failures + 1;
    if b.state == HalfOpen || n >= BREAKER_THRESHOLD then
      var c := if b.state == Closed then BASE_COOLDOWN else Min(b.cooldown * 2, MAX_COOLDOWN);
      Breaker(Open, n, c, now + c)
    else
      b.(failures := n)
  }

  function AfterRollback(b: Breaker): Breaker {
    if b.state == HalfOpen then b.(state := Open) else b
  }

  /** What holds of every breaker at clock value `clock`: it is closed exactly while it has
      seen fewer than three consecutive failures, a tripped one waits between the base and
      the maximal cooldown, and a half-open one was granted its probe when that was due. */
  ghost predicate Healthy(b: Breaker, clock: int) {
    && (b.state == Closed <==> b.failures < BREAKER_THRESHOLD)
    && (b.state != Closed ==>
          BASE_COOLDOWN <= b.cooldown <= MAX_COOLDOWN && b.nextProbe <= clock + b.cooldown)
    && (b.state == HalfOpen ==> b.nextProbe <= clock)
  }

  lemma OperationsKeepHealthy(b: Breaker, clock: int, now: int)
    requires Healthy(b, clock) && clock <= now
    ensures Healthy(b, now)
    ensures Healthy(AfterAllow(b, now), now)
    ensures Healthy(AfterSuccess(b), now)
    ensures Healthy(AfterRollback(b), now)
    ensures Healthy(AfterFailure(b, now), now)
  {
  }

  /** Between a granted probe and its outcome nothing more is let through, however long it takes;
      when the probe is given up, the next one may go at once. */
  lemma OneProbeAtATime(b: Breaker, now: int, later: int)
    requires GrantOf(b, now) == AllowProbe && now <= later
    ensures GrantOf(AfterAllow(b, now), later) == Deny
    ensures AfterRollback(AfterAllow(b, now)) == b && GrantOf(b, later) == AllowProbe
  {
  }

  /** A success wipes out what happened before: it lets everything through and leaves no trace of
      the failures and of the escalation. */
  lemma SuccessForgets(b: Breaker, b': Breaker, now: int)
    ensures GrantOf(AfterSuccess(b), now) == AllowAll
    ensures AfterSuccess(b) == AfterSuccess(b').(nextProbe := b.nextProbe)
  {
  }

  // ----- escalation -----

  function Pow2(k: nat): nat {
    if k == 0 then 1 else 2 * Pow2(k - 1)
  }

  /** The cooldown that the k-th failed probe after a trip is documented to leave. */
  function CooldownAfter(k: nat): int {
    Min(30 * SECOND * Pow2(k), 1800 * SECOND)
  }

  lemma CooldownDoubles(k: nat)
    ensures CooldownAfter(k + 1) == Min(CooldownAfter(k) * 2, MAX_COOLDOWN)
    ensures BASE_COOLDOWN <= CooldownAfter(k) <= MAX_COOLDOWN
  {
    Pow2Positive(k);
  }

  lemma {:induction false} Pow2Positive(k: nat)
    ensures Pow2(k) >= 1
  {
    if k > 0 { Pow2Positive(k - 1); }
  }

  /** Total waiting that precedes the k-th failed probe. */
  function WaitBefore(k: nat): int {
    if k == 0 then 0 else WaitBefore(k - 1) + CooldownAfter(k - 1)
  }

  // ----- the mutable record -----

  class RelayBreaker {
    var state: BreakerState
    var failures: nat
    var cooldown: int
    var nextProbe: int

    ghost function View(): Breaker
      reads this
    {
      Breaker(state, failures, cooldown, nextProbe)
    }

    constructor ()
      ensures View() == FRESH_BREAKER
    {
      state, failures, cooldown, nextProbe := Closed, 0, 0, ZERO_TIME;
    }

    method Allow(now: int) returns (grant: Grant)
      modifies this
      ensures grant == GrantOf(old(View()), now)
      ensures View() == AfterAllow(old(View()), now)
    {
      match state {
        case Closed =>
          return AllowAll;
        case Open =>
          if now >= nextProbe {
            state := HalfOpen;
            return AllowProbe;
          }
          return Deny;
        case HalfOpen =>
          return Deny;
      }
    }

    method OnSuccess()
      modifies this
      ensures View() == AfterSuccess(old(View()))
    {
      state := Closed;
      failures := 0;
      cooldown := BASE_COOLDOWN;
    }

    method OnFailure(now: int)
      modifies this
      ensures View() == AfterFailure(old(View()), now)
    {
      failures := failures + 1;
      var wasOpen := state == Open || state == HalfOpen;
      if state == HalfOpen || failures >= BREAKER_THRESHOLD {
        if wasOpen {
          cooldown := Min(cooldown * 2, MAX_COOLDOWN);
        } else {
          cooldown := BASE_COOLDOWN;
        }
        state := Open;
        nextProbe := now + cooldown;
      }
    }
  }
}
