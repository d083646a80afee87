/** How long the Redis keys of a poll live (internal/redisstore/votes.go, TTL). Times are nanoseconds. */
module Expiry {
  const SECOND := 1_000_000_000

  /** The time left plus the retention, at least a second, and never more than maxTTL. */
  function TTL(retention: int, maxTTL: int, endsAt: int, now: int): (r: int)
    ensures SECOND <= endsAt - now + retention <= maxTTL ==> now + r == endsAt + retention
    ensures maxTTL <= SECOND || maxTTL <= endsAt - now + retention ==> r == maxTTL
    ensures endsAt - now + retention <= SECOND <= maxTTL ==> r == SECOND
  {
    var ttl := endsAt - now + retention;
    var atLeast := if ttl < SECOND then SECOND else ttl;
    if atLeast > maxTTL then maxTTL else atLeast
  }

  /** int64(math.Ceil(ttl.Seconds())), as the duration Redis applies. */
  function WholeSeconds(ttl: int): (d: int)
    ensures ttl <= d < ttl + SECOND
    ensures d % SECOND == 0
  {
    (ttl + SECOND - 1) / SECOND * SECOND
  }

  /**
   * The instant a key set at `now` expires never moves earlier as `now` grows, whichever of the
   * three cases of TTL applies.
   */
  lemma ExpiryIsMonotone(retention: int, maxTTL: int, endsAt: int, earlier: int, later: int)
    requires earlier <= later
    ensures earlier + TTL(retention, maxTTL, endsAt, earlier) <= later + TTL(retention, maxTTL, endsAt, later)
  {
  }

  /**
   * The same for a command delayed on its way: whatever the instant `computed` at which its TTL was
   * taken, a key written at `applied` expires no earlier than one written at `start` without delay.
   */
  lemma DelayedExpiry(retention: int, maxTTL: int, endsAt: int, start: int, computed: int, applied: int)
    requires computed <= applied && start <= applied
    ensures start + TTL(retention, maxTTL, endsAt, start) <= applied + TTL(retention, maxTTL, endsAt, computed)
  {
  }

}
