/** The rate limit checks of params/params.go, which keep part of the API quota for critical operations. */
module RateLimits {
  import opened Decimal
  import opened Wrappers
  import opened Params
  import opened CredentialCaches

  const MAX_RESERVE_PERCENTAGE := 50
  const NANOS := 1_000_000_000

  /** Go's integer division by a positive constant: truncation toward zero. */
  function TruncDiv(x: int, d: int): int
    requires d > 0
  {
    if x >= 0 then x / d else -(-x / d)
  }

  /** reserveThreshold */
  function ReserveThreshold(c: Credentials): int {
    if !c.reserveUsageEnabled || c.rateLimit.None? then 0
    else TruncDiv(Wrap(c.rateLimit.value.limit * c.reserveUsagePercentage), 100)
  }

  /** GithubRateLimit.ResetAt in nanoseconds; None is the zero time. */
  function ResetAt(r: RateLimit): Option<int> {
    if r.reset == 0 then None else Some(r.reset * NANOS)
  }

  /** rateLimitReached at the instant `now` */
  function LimitReached(c: Credentials, threshold: int, now: int): (bool, Option<int>) {
    if c.rateLimit.None? || c.rateLimit.value.limit == 0 then (false, None)
    else
      var resetAt := ResetAt(c.rateLimit.value);
      if resetAt.None? || now >= resetAt.value then (false, resetAt)
      else (c.rateLimit.value.remaining <= threshold, resetAt)
  }

  predicate Reached(c: Credentials, now: int) {
    LimitReached(c, ReserveThreshold(c), now).0
  }

  predicate Exhausted(c: Credentials, now: int) {
    LimitReached(c, 0, now).0
  }

  /** CreateGithubCredentialsParams.Validate bounds the percentage. */
  predicate ValidReserve(c: Credentials) {
    0 <= c.reserveUsagePercentage <= MAX_RESERVE_PERCENTAGE
  }

  /** A limit whose product with the percentage stays within 64 bits. */
  predicate ModestLimit(c: Credentials) {
    c.rateLimit.Some? ==> 0 <= c.rateLimit.value.limit <= MAX_INT64 / MAX_RESERVE_PERCENTAGE
  }

  /** With a validated percentage the reserve is at most half of the limit, even if the product wraps around; it is not negative if it does not. */
  lemma ReserveIsAtMostHalf(c: Credentials)
    requires ValidReserve(c) && c.rateLimit.Some? && c.rateLimit.value.limit >= 0
    ensures 2 * ReserveThreshold(c) <= c.rateLimit.value.limit
    ensures ModestLimit(c) ==> ReserveThreshold(c) >= 0
  {
    if ModestLimit(c) {
      ShareOfLimit(c.rateLimit.value.limit, c.reserveUsagePercentage);
    }
  }

  lemma ShareOfLimit(limit: Int64, percent: Int64)
    requires 0 <= limit <= MAX_INT64 / MAX_RESERVE_PERCENTAGE && 0 <= percent <= MAX_RESERVE_PERCENTAGE
    ensures Wrap(limit * percent) == limit * percent
    ensures 0 <= 2 * TruncDiv(limit * percent, 100) <= limit
  {
    ProductBounds(limit, percent, 50);
    var product := limit * percent;
    WrapIsIdentity(product);
  }

  lemma ProductBounds(a: int, b: int, top: int)
    requires 0 <= a && 0 <= b <= top
    ensures 0 <= a * b <= a * top
  {
    assert a * top == a * b + a * (top - b);
  }

  lemma WrapIsIdentity(x: Int64)
    ensures Wrap(x) == x
  {
  }

  function WithRemaining(c: Credentials, remaining: Int64): Credentials
    requires c.rateLimit.Some?
  {
    c.(rateLimit := Some(c.rateLimit.value.(remaining := remaining)))
  }

  /** The checks are live: a limit was recorded and its reset lies ahead. */
  predicate Live(c: Credentials, now: int) {
    && c.rateLimit.Some? && c.rateLimit.value.limit != 0
    && ResetAt(c.rateLimit.value).Some? && now < ResetAt(c.rateLimit.value).value
  }

  /** Whatever remains, an exhausted quota is also reached for normal operations, exactly when the reserve is not negative. */
  lemma ExhaustedImpliesReachedIff(c: Credentials, now: int)
    requires Live(c, now)
    ensures (forall remaining: Int64 ::
               Exhausted(WithRemaining(c, remaining), now) ==> Reached(WithRemaining(c, remaining), now))
            <==> ReserveThreshold(c) >= 0
    ensures ReserveThreshold(c) < 0 <==>
              c.reserveUsageEnabled && Wrap(c.rateLimit.value.limit * c.reserveUsagePercentage) <= -100
  {
    assert Exhausted(WithRemaining(c, 0), now);
    assert Reached(WithRemaining(c, 0), now) <==> 0 <= ReserveThreshold(c);
  }

  /** The least limit whose half wraps around has a negative reserve: an exhausted quota then does not count as reached. */
  lemma WrappedReserveHidesExhaustion(c: Credentials, now: int)
    requires Live(c, now) && c.reserveUsageEnabled && c.reserveUsagePercentage == MAX_RESERVE_PERCENTAGE
    requires c.rateLimit.value.limit == MAX_INT64 / MAX_RESERVE_PERCENTAGE + 1 && c.rateLimit.value.remaining == 0
    ensures Exhausted(c, now) && !Reached(c, now)
  {
    assert c.rateLimit.value.limit * c.reserveUsagePercentage == 9223372036854775850;
  }

  /** The reserve of an ordinary limit is the percentage of it, rounded down. */
  lemma ReserveIsShare(c: Credentials)
    requires c.rateLimit.Some? && c.reserveUsageEnabled && c.reserveUsagePercentage >= 0
    requires c.rateLimit.value.limit >= 0 && c.rateLimit.value.limit * c.reserveUsagePercentage <= MAX_INT64
    ensures ReserveThreshold(c) == c.rateLimit.value.limit * c.reserveUsagePercentage / 100
  {
    var product := c.rateLimit.value.limit * c.reserveUsagePercentage;
    ProductBounds(c.rateLimit.value.limit, c.reserveUsagePercentage, c.reserveUsagePercentage);
    WrapIsIdentity(product);
  }

  /**
   The verdicts in plain terms: a limit was recorded and is not zero, its reset, in Unix
   seconds, was reported and lies ahead of `now`, in nanoseconds, and what remains does
   not exceed the reserve, or zero.
   */
  lemma VerdictsMean(c: Credentials, now: int)
    ensures var ahead := c.rateLimit.Some? && c.rateLimit.value.limit != 0 && c.rateLimit.value.reset != 0
                         && now < c.rateLimit.value.reset * 1_000_000_000;
            && (Exhausted(c, now) <==> ahead && c.rateLimit.value.remaining <= 0)
            && (Reached(c, now) <==> ahead && c.rateLimit.value.remaining <= ReserveThreshold(c))
            && (Live(c, now) <==> ahead)
            && (!c.reserveUsageEnabled ==> (Reached(c, now) <==> Exhausted(c, now)))
  {
  }

  // ----- Runs of guarded calls before the reset -----

  /** An API call made after its own check passed. */
  datatype Call = NormalCall(now: int) | CriticalCall(now: int)

  predicate Allowed(c: Credentials, call: Call) {
    match call
    case NormalCall(now) => !Reached(c, now)
    case CriticalCall(now) => !Exhausted(c, now)
  }

  /** The forge charges one call. */
  function Charged(c: Credentials): Credentials
    requires c.rateLimit.Some?
  {
    WithRemaining(c, Wrap(c.rateLimit.value.remaining - 1))
  }

  ghost predicate IsRun(c: Credentials, calls: seq<Call>)
    decreases |calls|
  {
    calls == [] ||
    (&& Live(c, calls[0].now)
     && Allowed(c, calls[0])
     && IsRun(Charged(c), calls[1..]))
  }

  function After(c: Credentials, calls: seq<Call>): Credentials
    requires c.rateLimit.Some?
    decreases |calls|
  {
    if calls == [] then c else After(Charged(c), calls[1..])
  }

  function CriticalCalls(calls: seq<Call>): nat {
    if calls == [] then 0 else (if calls[0].CriticalCall? then 1 else 0) + CriticalCalls(calls[1..])
  }

  /**
   Before the reset, guarded calls never overdraw the quota, and only critical calls
   eat into the reserve: what remains plus the critical calls made never drops below
   it. So critical calls are refused only after the whole reserve went to them.
   */
  lemma ReserveIsKept(c: Credentials, calls: seq<Call>)
    requires c.rateLimit.Some? && ReserveThreshold(c) >= 0
    requires c.rateLimit.value.remaining >= ReserveThreshold(c) && IsRun(c, calls)
    ensures var c' := After(c, calls);
            && c'.rateLimit.Some?
            && c'.rateLimit.value.remaining == c.rateLimit.value.remaining - |calls| >= 0
            && c'.rateLimit.value.remaining + CriticalCalls(calls) >= ReserveThreshold(c)
            && (forall now :: Exhausted(c', now) ==> CriticalCalls(calls) >= ReserveThreshold(c))
  {
    KeptAbove(c, calls, 0);
  }

  lemma {:induction false} KeptAbove(c: Credentials, calls: seq<Call>, made: nat)
    requires c.rateLimit.Some? && ReserveThreshold(c) >= 0 && IsRun(c, calls)
    requires c.rateLimit.value.remaining >= 0 && c.rateLimit.value.remaining + made >= ReserveThreshold(c)
    ensures var c' := After(c, calls);
            && c'.rateLimit.Some?
            && c'.rateLimit.value.remaining == c.rateLimit.value.remaining - |calls| >= 0
            && c'.rateLimit.value.remaining + made + CriticalCalls(calls) >= ReserveThreshold(c)
    decreases |calls|
  {
    if calls != [] {
      WrapIsIdentity(c.rateLimit.value.remaining - 1);
      KeptAbove(Charged(c), calls[1..], if calls[0].CriticalCall? then made + 1 else made);
    }
  }

  // ----- The check on an entity -----

  /** entityCredentials: resolve the entity's credentials in one state of the caches, then look them up again in a later one. */
  function EntityCredentials(earlier: Creds, later: Creds, x: ForgeEntity): Option<Credentials> {
    Lookup(later, RefOf(WithCached(earlier, x).credentials))
  }

  /** EntityRateLimitReached; entities without cached credentials are never limited. */
  function EntityReached(earlier: Creds, later: Creds, x: ForgeEntity, now: int): bool {
    match EntityCredentials(earlier, later, x)
    case Some(c) => Reached(c, now)
    case None => false
  }

  /** EntityRateLimitExhausted */
  function EntityExhausted(earlier: Creds, later: Creds, x: ForgeEntity, now: int): bool {
    match EntityCredentials(earlier, later, x)
    case Some(c) => Exhausted(c, now)
    case None => false
  }

  /** Both verdicts on an entity are those on the credential cache's present copy of the credentials it was assigned. */
  lemma EntityVerdictIsFresh(w: World, w': World, forgeOf: nat -> Forge, e: string, now: int)
    requires Consistent(w, forgeOf) && e in w.entities
    ensures var present := Lookup(w'.creds, w.assignment[e]);
            && (EntityReached(w.creds, w'.creds, w.entities[e], now) <==> present.Some? && Reached(present.value, now))
            && (EntityExhausted(w.creds, w'.creds, w.entities[e], now) <==> present.Some? && Exhausted(present.value, now))
  {
  }
}
