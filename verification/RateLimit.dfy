/** The rate limiter of acquireDemo: two expiring counters per client address. */
module RateLimit {

  const HOUR: int := 3600
  const DAY: int := 86400

  /** A Valkey counter and the time at which EXPIRE lets it vanish. */
  datatype Counter = Counter(count: int, expireAt: int)

  /** GET of a counter key: an expired key is an absent key. */
  function Live(m: map<string, Counter>, ip: string, now: int): int {
    if ip in m && now < m[ip].expireAt then m[ip].count else 0
  }

  /** ratelimit:hour:* and ratelimit:day:*, with the Lua script as one method. */
  class RateLimiter {
    var hour: map<string, Counter>
    var day: map<string, Counter>

    constructor ()
      ensures hour == map[] && day == map[]
    {
      hour, day := map[], map[];
    }

    method CheckAndIncrement(ip: string, hourLimit: int, dayLimit: int, now: int) returns (allowed: bool)
      modifies this
      ensures allowed == Allows(Limits(old(hour), old(day)), ip, hourLimit, dayLimit, now)
      ensures Limits(hour, day) == AfterRequest(Limits(old(hour), old(day)), ip, hourLimit, dayLimit, now)
      ensures var h := if ip in old(hour) && now < old(hour)[ip].expireAt then old(hour)[ip].count else 0;
              var d := if ip in old(day) && now < old(day)[ip].expireAt then old(day)[ip].count else 0;
              && (allowed <==> h < hourLimit && d < dayLimit)
              && hour == (if allowed then old(hour)[ip := Counter(h + 1, now + 3600)] else old(hour))
              && day == (if allowed then old(day)[ip := Counter(d + 1, now + 86400)] else old(day))
    {
      var hourCount := Live(hour, ip, now);
      var dayCount := Live(day, ip, now);
      if hourCount >= hourLimit || dayCount >= dayLimit {
        return false;
      }
      hour := hour[ip := Counter(hourCount + 1, now + HOUR)];
      day := day[ip := Counter(dayCount + 1, now + DAY)];
      return true;
    }
  }

  datatype Limits = Limits(hour: map<string, Counter>, day: map<string, Counter>)

  predicate Allows(l: Limits, ip: string, hourLimit: int, dayLimit: int, now: int) {
    Live(l.hour, ip, now) < hourLimit && Live(l.day, ip, now) < dayLimit
  }

  function AfterRequest(l: Limits, ip: string, hourLimit: int, dayLimit: int, now: int): Limits {
    if Allows(l, ip, hourLimit, dayLimit, now) then
      Limits(l.hour[ip := Counter(Live(l.hour, ip, now) + 1, now + HOUR)],
             l.day[ip := Counter(Live(l.day, ip, now) + 1, now + DAY)])
    else l
  }

  // ---- histories -----------------------------------------------------------------

  datatype Request = Request(ip: string, time: int)

  /** Requests arrive in the order of the store's clock. */
  ghost predicate Ordered(rs: seq<Request>) {
    forall i, j :: 0 <= i <= j < |rs| ==> rs[i].time <= rs[j].time
  }

  function After(rs: seq<Request>, hourLimit: int, dayLimit: int): Limits {
    if rs == [] then Limits(map[], map[])
    else
      var n := |rs| - 1;
      AfterRequest(After(rs[..n], hourLimit, dayLimit), rs[n].ip, hourLimit, dayLimit, rs[n].time)
  }

  /** The times of the allowed requests of one address, oldest first. */
  function AllowedTimes(rs: seq<Request>, ip: string, hourLimit: int, dayLimit: int): seq<int> {
    if rs == [] then []
    else
      var n := |rs| - 1;
      var ts := AllowedTimes(rs[..n], ip, hourLimit, dayLimit);
      if rs[n].ip == ip && Allows(After(rs[..n], hourLimit, dayLimit), ip, hourLimit, dayLimit, rs[n].time)
      then ts + [rs[n].time] else ts
  }

  /** The last k times reach `now` in gaps all shorter than the window. */
  ghost predicate Chain(ts: seq<int>, k: nat, window: int, now: int) {
    && k <= |ts|
    && (k > 0 ==> now - ts[|ts| - 1] < window)
    && (forall i :: |ts| - k <= i < |ts| - 1 ==> ts[i + 1] - ts[i] < window)
  }

  /** k is the length of the longest such suffix. */
  ghost predicate LongestChain(ts: seq<int>, k: nat, window: int, now: int) {
    Chain(ts, k, window, now) && forall j: nat :: Chain(ts, j, window, now) ==> j <= k
  }

  ghost predicate CounterOk(m: map<string, Counter>, ip: string, ts: seq<int>, window: int) {
    if ts == [] then ip !in m
    else
      && ip in m
      && m[ip].expireAt == ts[|ts| - 1] + window
      && m[ip].count > 0
      && LongestChain(ts, m[ip].count, window, ts[|ts| - 1])
  }

  lemma LiveIsChain(m: map<string, Counter>, ip: string, ts: seq<int>, window: int, now: int)
    requires CounterOk(m, ip, ts, window) && window > 0 && (ts != [] ==> ts[|ts| - 1] <= now)
    ensures Live(m, ip, now) >= 0 && LongestChain(ts, Live(m, ip, now), window, now)
  {
    var k := Live(m, ip, now);
    if k > 0 {
      forall j: nat | Chain(ts, j, window, now) ensures j <= k { assert Chain(ts, j, window, ts[|ts| - 1]); }
    }
  }

  lemma ChainGrows(ts: seq<int>, k: nat, window: int, now: int)
    requires LongestChain(ts, k, window, now) && window > 0
    ensures LongestChain(ts + [now], k + 1, window, now)
  {
    var us := ts + [now];
    assert Chain(us, k + 1, window, now);
    forall j: nat | Chain(us, j, window, now) ensures j <= k + 1 {
      if j > 0 {
        assert forall i :: |us| - j <= i < |us| - 1 ==> us[i + 1] - us[i] < window;
        if j > 1 { assert us[|us| - 1] - us[|us| - 2] < window; }
        forall i | |ts| - (j - 1) <= i < |ts| - 1 ensures ts[i + 1] - ts[i] < window {
          assert us[i + 1] - us[i] < window;
        }
        assert Chain(ts, j - 1, window, now);
      }
    }
  }

  lemma {:induction false} TimesBounded(rs: seq<Request>, ip: string, h: int, d: int)
    requires Ordered(rs)
    ensures var ts := AllowedTimes(rs, ip, h, d);
            && (ts != [] ==> rs != [] && ts[|ts| - 1] <= rs[|rs| - 1].time)
            && (forall i, j :: 0 <= i <= j < |ts| ==> ts[i] <= ts[j])
  {
    if rs == [] {
    } else {
      var n := |rs| - 1;
      TimesBounded(rs[..n], ip, h, d);
      var ts := AllowedTimes(rs[..n], ip, h, d);
      if ts != [] { assert rs[n - 1].time <= rs[n].time; }
    }
  }

  lemma {:induction false} CountersTrackHistory(rs: seq<Request>, ip: string, h: int, d: int)
    requires Ordered(rs)
    ensures CounterOk(After(rs, h, d).hour, ip, AllowedTimes(rs, ip, h, d), HOUR)
    ensures CounterOk(After(rs, h, d).day, ip, AllowedTimes(rs, ip, h, d), DAY)
  {
    if rs == [] {
    } else {
      var n := |rs| - 1;
      CountersTrackHistory(rs[..n], ip, h, d);
      TimesBounded(rs[..n], ip, h, d);
      var before, ts, now := After(rs[..n], h, d), AllowedTimes(rs[..n], ip, h, d), rs[n].time;
      if rs[n].ip == ip && Allows(before, ip, h, d, now) {
        TimesBounded(rs, ip, h, d);
        assert AllowedTimes(rs, ip, h, d) == ts + [now];
        assert ts != [] ==> (ts + [now])[|ts| - 1] <= (ts + [now])[|ts|];
        LiveIsChain(before.hour, ip, ts, HOUR, now);
        LiveIsChain(before.day, ip, ts, DAY, now);
        ChainGrows(ts, Live(before.hour, ip, now), HOUR, now);
        ChainGrows(ts, Live(before.day, ip, now), DAY, now);
      }
    }
  }

  /** At any later time both counters are the lengths of the longest recent chains of
      allowed requests. */
  lemma LimiterMeansChains(rs: seq<Request>, ip: string, h: int, d: int, now: int)
    requires Ordered(rs) && (rs != [] ==> rs[|rs| - 1].time <= now)
    ensures var l := After(rs, h, d);
            var ts := AllowedTimes(rs, ip, h, d);
            && Live(l.hour, ip, now) >= 0 && LongestChain(ts, Live(l.hour, ip, now), HOUR, now)
            && Live(l.day, ip, now) >= 0 && LongestChain(ts, Live(l.day, ip, now), DAY, now)
  {
    CountersTrackHistory(rs, ip, h, d);
    TimesBounded(rs, ip, h, d);
    LiveIsChain(After(rs, h, d).hour, ip, AllowedTimes(rs, ip, h, d), HOUR, now);
    LiveIsChain(After(rs, h, d).day, ip, AllowedTimes(rs, ip, h, d), DAY, now);
  }

  lemma LongestIsUnique(ts: seq<int>, j: nat, k: nat, window: int, now: int)
    requires LongestChain(ts, j, window, now) && LongestChain(ts, k, window, now)
    ensures j == k
  {
  }

  /** Main theorem: the next request of an address is allowed if and only if the longest
      recent chains of its allowed requests, with gaps below 3600 s and below 86400 s,
      are shorter than the hourly and the daily limit. It then joins them, and the times
      of all other addresses stay as they were. */
  lemma DecisionIsChains(rs: seq<Request>, ip: string, h: int, d: int, now: int, kh: nat, kd: nat)
    requires Ordered(rs) && (rs != [] ==> rs[|rs| - 1].time <= now)
    requires LongestChain(AllowedTimes(rs, ip, h, d), kh, 3600, now)
    requires LongestChain(AllowedTimes(rs, ip, h, d), kd, 86400, now)
    ensures Allows(After(rs, h, d), ip, h, d, now) <==> kh < h && kd < d
    ensures AllowedTimes(rs + [Request(ip, now)], ip, h, d)
              == AllowedTimes(rs, ip, h, d) + if kh < h && kd < d then [now] else []
    ensures forall other | other != ip ::
              AllowedTimes(rs + [Request(ip, now)], other, h, d) == AllowedTimes(rs, other, h, d)
  {
    LimiterMeansChains(rs, ip, h, d, now);
    var l, ts := After(rs, h, d), AllowedTimes(rs, ip, h, d);
    LongestIsUnique(ts, kh, Live(l.hour, ip, now), HOUR, now);
    LongestIsUnique(ts, kd, Live(l.day, ip, now), DAY, now);
    assert (rs + [Request(ip, now)])[..|rs|] == rs;
  }

  /** Both chains exist and are unique, so DecisionIsChains decides every request. */
  lemma ChainsExist(ts: seq<int>, window: int, now: int) returns (k: nat)
    ensures LongestChain(ts, k, window, now)
    ensures forall j: nat :: LongestChain(ts, j, window, now) ==> j == k
  {
    k := LongestFrom(ts, |ts|, window, now);
  }

  lemma {:induction false} LongestFrom(ts: seq<int>, n: nat, window: int, now: int) returns (k: nat)
    requires n <= |ts| && forall j: nat :: Chain(ts, j, window, now) ==> j <= n
    ensures LongestChain(ts, k, window, now)
  {
    if Chain(ts, n, window, now) {
      k := n;
    } else {
      assert Chain(ts, 0, window, now);
      k := LongestFrom(ts, n - 1, window, now);
    }
  }

  /** Sliding window: allowed requests less than a window apart never number more
      than the limit. */
  ghost predicate WithinLimit(ts: seq<int>, window: int, limit: int) {
    forall i, j :: 0 <= i <= j < |ts| && ts[j] - ts[i] < window ==> j - i + 1 <= limit
  }

  lemma ShortSpanIsChain(ts: seq<int>, i: nat, window: int, now: int)
    requires i <= |ts| && (forall a, b :: 0 <= a <= b < |ts| ==> ts[a] <= ts[b])
    requires i < |ts| ==> now - ts[i] < window && ts[|ts| - 1] <= now
    ensures Chain(ts, |ts| - i, window, now)
  {
  }

  lemma {:induction false} SlidingWindow(rs: seq<Request>, ip: string, h: int, d: int)
    requires Ordered(rs)
    ensures WithinLimit(AllowedTimes(rs, ip, h, d), HOUR, h)
    ensures WithinLimit(AllowedTimes(rs, ip, h, d), DAY, d)
  {
    if rs == [] {
    } else {
      var n := |rs| - 1;
      SlidingWindow(rs[..n], ip, h, d);
      var before, ts, now := After(rs[..n], h, d), AllowedTimes(rs[..n], ip, h, d), rs[n].time;
      if rs[n].ip == ip && Allows(before, ip, h, d, now) {
        LimiterMeansChains(rs[..n], ip, h, d, now);
        TimesBounded(rs[..n], ip, h, d);
        TimesBounded(rs, ip, h, d);
        WindowStep(ts, now, HOUR, h, Live(before.hour, ip, now));
        WindowStep(ts, now, DAY, d, Live(before.day, ip, now));
      }
    }
  }

  lemma WindowStep(ts: seq<int>, now: int, window: int, limit: int, k: nat)
    requires WithinLimit(ts, window, limit) && LongestChain(ts, k, window, now) && k < limit
    requires forall a, b :: 0 <= a <= b < |ts| ==> ts[a] <= ts[b]
    requires ts != [] ==> ts[|ts| - 1] <= now
    ensures WithinLimit(ts + [now], window, limit)
  {
    var us := ts + [now];
    forall i, j | 0 <= i <= j < |us| && us[j] - us[i] < window ensures j - i + 1 <= limit {
      if j == |ts| {
        ShortSpanIsChain(ts, i, window, now);
      }
    }
  }

  /** Denied requests leave no trace, and addresses do not affect each other. */
  lemma DeniedChangesNothing(l: Limits, ip: string, h: int, d: int, now: int)
    ensures !Allows(l, ip, h, d, now) <==> AfterRequest(l, ip, h, d, now) == l
    ensures forall other, t | other != ip ::
              Live(AfterRequest(l, ip, h, d, now).hour, other, t) == Live(l.hour, other, t)
              && Live(AfterRequest(l, ip, h, d, now).day, other, t) == Live(l.day, other, t)
  {
  }

  /** The limiter is stricter than a sliding window: every allowed request renews
      the whole counter, so a third request 5000 s after the first is refused at
      two per hour although the last hour contains only one. */
  lemma StricterThanWindow(ip: string)
    ensures var rs := [Request(ip, 0), Request(ip, 3000)];
            && AllowedTimes(rs, ip, 2, 100) == [0, 3000]
            && !Allows(After(rs, 2, 100), ip, 2, 100, 5000)
            && WithinLimit([0, 3000, 5000], HOUR, 2)
  {
    var rs := [Request(ip, 0), Request(ip, 3000)];
    var one := [Request(ip, 0)];
    assert rs[..1] == one && one[..0] == [];
    assert AllowedTimes(one, ip, 2, 100) == [0];
    assert After(one, 2, 100).hour == map[ip := Counter(1, 3600)];
    assert After(one, 2, 100).day == map[ip := Counter(1, 86400)];
    assert After(rs, 2, 100).hour == map[ip := Counter(2, 6600)];
  }
}
