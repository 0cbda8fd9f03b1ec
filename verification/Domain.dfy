/** Instance records and the pool arithmetic of internal/domain. */
module Domain {

  datatype Option<+T> = None | Some(value: T)

  /** Times and durations are integers in nanoseconds, as in Go's time package. */
  const SECOND: int := 1_000_000_000

  /** Time.Unix: whole seconds, rounded towards minus infinity. */
  function Unix(t: int): int {
    t / SECOND
  }

  datatype InstanceState = Warming | Ready | Assigned | Expired

  datatype Instance = Instance(
    id: string,
    containerId: string,
    hostname: string,
    port: int,
    state: InstanceState,
    dbPrefix: string,
    userIp: string,
    createdAt: int,
    assignedAt: Option<int>,
    expiresAt: Option<int>,
    expiresAtUnix: int)          // 0 stands for an absent field (omitempty)
  {
    predicate IsExpired(now: int) {
      if expiresAtUnix > 0 then Unix(now) > expiresAtUnix
      else expiresAt.Some? && now > expiresAt.value
    }

    /** The record carries an expiry that cleanup will eventually act on. */
    predicate Expires() {
      expiresAtUnix > 0 || expiresAt.Some?
    }

    function TtlRemaining(now: int): int {
      if expiresAtUnix > 0 then Max(0, expiresAtUnix * SECOND - now)
      else if expiresAt.None? then 0
      else Max(0, expiresAt.value - now)
    }

    function Url(baseDomain: string): string {
      "https://" + hostname + "." + baseDomain
    }

    function WithExpiry(t: int): Instance {
      this.(expiresAt := Some(t), expiresAtUnix := Unix(t))
    }
  }

  function Max(a: int, b: int): int {
    if a >= b then a else b
  }

  /** A record without an expiry is never collected; one with an expiry is
      collected at some time and from then on at every later time. */
  lemma ExpiresIffEventuallyExpired(i: Instance)
    ensures i.Expires() <==> exists now :: i.IsExpired(now)
    ensures forall t, u | t <= u && i.IsExpired(t) :: i.IsExpired(u)
  {
    if i.Expires() {
      var now := if i.expiresAtUnix > 0 then (i.expiresAtUnix + 1) * SECOND else i.expiresAt.value + 1;
      assert i.IsExpired(now);
    }
  }

  /** The first instant of the second after the expiry, or the instant after it. */
  lemma ExpiredFromWhen(i: Instance, now: int)
    ensures i.expiresAtUnix > 0 ==> (i.IsExpired(now) <==> now >= (i.expiresAtUnix + 1) * 1_000_000_000)
    ensures i.expiresAtUnix <= 0 ==> (i.IsExpired(now) <==> i.expiresAt.Some? && now > i.expiresAt.value)
  {
  }

  /** SetInstanceTTL's two fields name one instant, down to the second, and an instance
      that carries them lives until then, but not beyond the next second. */
  lemma ExpirySet(i: Instance, t: int, now: int)
    ensures var j := i.WithExpiry(t);
            && j == i.(expiresAt := Some(t), expiresAtUnix := j.expiresAtUnix)
            && j.expiresAtUnix * 1_000_000_000 <= t < (j.expiresAtUnix + 1) * 1_000_000_000
            && (j.IsExpired(now) ==> now > t)
            && (now >= t + 1_000_000_000 ==> j.IsExpired(now))
  {
  }

  /** An instance with time left is not expired. The converse fails only inside
      the last second: IsExpired compares whole seconds. The time left is exact. */
  lemma RemainingVersusExpired(i: Instance, now: int, n: int)
    ensures i.TtlRemaining(now) >= 0
    ensures n > 0 ==>
              (i.TtlRemaining(now) == n <==>
               if i.expiresAtUnix > 0 then now + n == i.expiresAtUnix * 1_000_000_000 else i.expiresAt == Some(now + n))
    ensures i.TtlRemaining(now) > 0 ==> !i.IsExpired(now)
    ensures i.Expires() && !i.IsExpired(now) && i.TtlRemaining(now) == 0 ==>
              (if i.expiresAtUnix > 0 then Unix(now) == i.expiresAtUnix else now == i.expiresAt.value)
  {
  }

  datatype PoolStats = PoolStats(readyCount: int, assignedCount: int, warmingCount: int, target: int, capacity: int) {

    function Used(): int {
      readyCount + assignedCount + warmingCount
    }

    function AvailableCapacity(): (n: int)
      ensures n >= 0
      ensures n > 0 ==> Used() + n <= capacity
      ensures Used() + n >= capacity
    {
      if Used() >= capacity then 0 else capacity - Used()
    }

    /** The largest non-negative number of new instances that overshoots
        neither the target nor the capacity. */
    function ReplenishmentNeeded(): (n: int)
      ensures n >= 0
      ensures n > 0 ==> readyCount + warmingCount + n <= target && Used() + n <= capacity
      ensures readyCount + warmingCount + n >= target || Used() + n >= capacity
    {
      var gap := target - readyCount - warmingCount;
      if gap <= 0 then 0
      else if gap > AvailableCapacity() then AvailableCapacity()
      else gap
    }
  }
}
