/**
 * The generation quota of lib/rate-limit.ts: a counter document per
 * window, checked and then incremented. Anonymous requests are counted per
 * IP address and clock hour (5 allowed), signed-in requests per user and
 * calendar day (50 allowed). Any store error lets the request through.
 *
 * The date and hour that name a window are abstracted into the numbers
 * `hourBucket` and `dayBucket` the caller passes in; times are milliseconds.
 */
module RateLimit {
  import opened Wrappers
  import Js

  const UNSIGNED_LIMIT: int := 5
  const SIGNED_LIMIT: int := 50
  const HOUR_MS: int := 60 * 60 * 1000
  const DAY_MS: int := 24 * 60 * 60 * 1000
  const MINUTE_MS: int := 60000

  const CHECK_FAILED: string := "Rate limit check failed, allowing request"
  const DAILY_LIMIT_REACHED: string := "Daily limit reached. You can generate 50 blogs per day. Try again tomorrow."

  /** The document id of a window: `ip_<ip>_<date>_<hour>` or `user_<id>_<date>`. */
  datatype WindowKey = IpHour(ip: string, hourBucket: int) | UserDay(userId: string, dayBucket: int)

  /** A counter document; `count` and `resetAt` may be absent. */
  datatype Counter = Counter(count: Option<int>, owner: string, firstRequestAt: int,
                             lastRequestAt: int, resetAt: Option<int>)

  datatype RateLimitResult = RateLimitResult(allowed: bool, remaining: int, resetAt: int, error: Option<string>)

  datatype Outcome = Outcome(result: RateLimitResult, counters: map<WindowKey, Counter>)

  /** The anonymous denial message, with the minutes left until `resetAt`, rounded up. */
  function HourlyLimitMessage(resetAt: int, now: int): string {
    "Rate limit exceeded. You can generate 5 blogs per hour. Try again in "
      + Js.IntToString(Js.CeilDiv(resetAt - now, MINUTE_MS)) + " minutes."
  }

  /** `data.count || 0` of the window's document. */
  function StoredCount(counters: map<WindowKey, Counter>, key: WindowKey): int {
    if key in counters then counters[key].count.GetOr(0) else 0
  }

  /**
   * One window check: deny at or above `limit` without writing; otherwise
   * write `count + 1`, keeping the stored first-request time and reset time
   * (a new window starts with `now` and `now + windowMs`).
   */
  function CheckWindow(counters: map<WindowKey, Counter>, key: WindowKey, limit: int, windowMs: int,
                       owner: string, now: int, deniedMessage: int -> string): (o: Outcome)
    ensures o.result.allowed <==> StoredCount(counters, key) < limit
    ensures !o.result.allowed ==> o.counters == counters && o.result.remaining == 0
    ensures o.result.allowed ==> o.result.remaining == limit - StoredCount(counters, key) - 1
    ensures o.result.allowed ==> o.result.error.None? && key in o.counters
    ensures o.result.allowed ==> o.counters[key].count == Some(StoredCount(counters, key) + 1)
    ensures o.result.allowed ==> o.counters == counters[key := o.counters[key]]
    ensures o.result.resetAt == if key in counters && counters[key].resetAt.Some? then counters[key].resetAt.value else now + windowMs
    ensures !o.result.allowed ==> o.result.error == Some(deniedMessage(o.result.resetAt))
    ensures o.result.allowed ==> o.counters[key].owner == owner && o.counters[key].lastRequestAt == now
    ensures o.result.allowed ==> o.counters[key].resetAt == Some(o.result.resetAt)
    ensures o.result.allowed ==> o.counters[key].firstRequestAt == if key in counters then counters[key].firstRequestAt else now
  {
    var count := StoredCount(counters, key);
    var stored := if key in counters then counters[key].resetAt else None;
    var resetAt := stored.GetOr(now + windowMs);
    if count >= limit then
      Outcome(RateLimitResult(false, 0, resetAt, Some(deniedMessage(resetAt))), counters)
    else
      var first := if key in counters then counters[key].firstRequestAt else now;
      Outcome(RateLimitResult(true, limit - count - 1, resetAt, None),
              counters[key := Counter(Some(count + 1), owner, first, now, Some(resetAt))])
  }

  /**
   * `checkRateLimit(userId)` with the request's IP address and the
   * current window buckets. `storeOk` is false when the counter read or
   * write throws; the request is then let through.
   */
  function Check(counters: map<WindowKey, Counter>, userId: Option<string>, ip: Option<string>,
                 now: int, hourBucket: int, dayBucket: int, storeOk: bool): (o: Outcome)
  {
    if userId.None? || userId.value == "" then
      if ip.None? || ip.value == "" then
        Outcome(RateLimitResult(true, UNSIGNED_LIMIT, now, None), counters)
      else if !storeOk then
        Outcome(RateLimitResult(true, -1, now, Some(CHECK_FAILED)), counters)
      else
        CheckWindow(counters, IpHour(ip.value, hourBucket), UNSIGNED_LIMIT, HOUR_MS, ip.value, now,
                    resetAt => HourlyLimitMessage(resetAt, now))
    else if !storeOk then
      Outcome(RateLimitResult(true, -1, now, Some(CHECK_FAILED)), counters)
    else
      CheckWindow(counters, UserDay(userId.value, dayBucket), SIGNED_LIMIT, DAY_MS, userId.value, now,
                  resetAt => DAILY_LIMIT_REACHED)
  }

  /** The window a request is counted in. */
  function KeyOf(userId: Option<string>, ip: Option<string>, hourBucket: int, dayBucket: int): Option<WindowKey> {
    if userId.None? || userId.value == "" then
      if ip.None? || ip.value == "" then None else Some(IpHour(ip.value, hourBucket))
    else Some(UserDay(userId.value, dayBucket))
  }

  function LimitOf(key: WindowKey): int {
    if key.IpHour? then UNSIGNED_LIMIT else SIGNED_LIMIT
  }

  // ------------------------------------------------------------ properties

  /**
   * With a working store, a request is denied exactly when its window's
   * stored count has reached the limit; a denial writes nothing; an allowed
   * request writes exactly `count + 1` and touches no other window.
   */
  lemma DeniedExactlyAtLimit(counters: map<WindowKey, Counter>, userId: Option<string>, ip: Option<string>,
                             now: int, hourBucket: int, dayBucket: int)
    requires KeyOf(userId, ip, hourBucket, dayBucket).Some?
    ensures var key := KeyOf(userId, ip, hourBucket, dayBucket).value;
      var count := StoredCount(counters, key);
      var o := Check(counters, userId, ip, now, hourBucket, dayBucket, true);
      && (!o.result.allowed <==> count >= LimitOf(key))
      && (!o.result.allowed ==> o.counters == counters)
      && (o.result.allowed ==> o.counters[key].count == Some(count + 1))
      && (o.result.allowed ==> forall k :: k != key ==> (k in o.counters <==> k in counters))
      && (o.result.allowed ==> forall k :: k != key && k in counters ==> k in o.counters && o.counters[k] == counters[k])
  {
  }

  /** Below the limit a working store lets the request through and its window's count goes up by one. */
  lemma AllowedCountsOne(counters: map<WindowKey, Counter>, userId: Option<string>, ip: Option<string>,
                         now: int, hourBucket: int, dayBucket: int)
    requires KeyOf(userId, ip, hourBucket, dayBucket).Some?
    requires StoredCount(counters, KeyOf(userId, ip, hourBucket, dayBucket).value) < LimitOf(KeyOf(userId, ip, hourBucket, dayBucket).value)
    ensures var key := KeyOf(userId, ip, hourBucket, dayBucket).value;
      var o := Check(counters, userId, ip, now, hourBucket, dayBucket, true);
      o.result.allowed && StoredCount(o.counters, key) == StoredCount(counters, key) + 1
  {
    DeniedExactlyAtLimit(counters, userId, ip, now, hourBucket, dayBucket);
  }

  /** On an allowed request with a non-negative stored count, `remaining` lies in `[0, limit)`. */
  lemma RemainingInRange(counters: map<WindowKey, Counter>, userId: Option<string>, ip: Option<string>,
                         now: int, hourBucket: int, dayBucket: int)
    requires KeyOf(userId, ip, hourBucket, dayBucket).Some?
    requires StoredCount(counters, KeyOf(userId, ip, hourBucket, dayBucket).value) >= 0
    ensures var o := Check(counters, userId, ip, now, hourBucket, dayBucket, true);
      o.result.allowed ==> 0 <= o.result.remaining < LimitOf(KeyOf(userId, ip, hourBucket, dayBucket).value)
  {
  }

  /** Any store failure fails open: allowed, `remaining = -1`, nothing written. */
  lemma StoreFailureFailsOpen(counters: map<WindowKey, Counter>, userId: Option<string>, ip: Option<string>,
                              now: int, hourBucket: int, dayBucket: int)
    requires KeyOf(userId, ip, hourBucket, dayBucket).Some?
    ensures var o := Check(counters, userId, ip, now, hourBucket, dayBucket, false);
      o.result == RateLimitResult(true, -1, now, Some(CHECK_FAILED)) && o.counters == counters
  {
  }

  /** An anonymous request without an IP address is allowed with 5 remaining and counts nowhere. */
  lemma NoAddressIsNotCounted(counters: map<WindowKey, Counter>, ip: Option<string>, now: int,
                              hourBucket: int, dayBucket: int, storeOk: bool)
    requires ip.None? || ip == Some("")
    ensures var o := Check(counters, None, ip, now, hourBucket, dayBucket, storeOk);
      o.result.allowed && o.result.remaining == 5 && o.counters == counters
  {
  }

  /** The stored first-request and reset times survive an increment. */
  lemma IncrementKeepsWindowTimes(counters: map<WindowKey, Counter>, userId: Option<string>, ip: Option<string>,
                                  now: int, hourBucket: int, dayBucket: int)
    requires KeyOf(userId, ip, hourBucket, dayBucket).Some?
    requires KeyOf(userId, ip, hourBucket, dayBucket).value in counters
    ensures var key := KeyOf(userId, ip, hourBucket, dayBucket).value;
      var o := Check(counters, userId, ip, now, hourBucket, dayBucket, true);
      && (o.result.allowed ==> o.counters[key].firstRequestAt == counters[key].firstRequestAt)
      && (o.result.allowed ==> o.counters[key].lastRequestAt == now)
      && (o.result.allowed && counters[key].resetAt.Some? ==> o.counters[key].resetAt == counters[key].resetAt)
  {
  }

  /** `n` requests, all in the same window and with a working store. */
  function Repeat(counters: map<WindowKey, Counter>, userId: Option<string>, ip: Option<string>,
                  now: int, hourBucket: int, dayBucket: int, n: nat): map<WindowKey, Counter>
    decreases n
  {
    if n == 0 then counters
    else Check(Repeat(counters, userId, ip, now, hourBucket, dayBucket, n - 1), userId, ip, now, hourBucket, dayBucket, true).counters
  }

  /** In a fresh window the first `limit` requests are allowed and count up one by one. */
  lemma {:induction false} FreshWindowCountsUp(counters: map<WindowKey, Counter>, userId: Option<string>, ip: Option<string>,
                                               now: int, hourBucket: int, dayBucket: int, n: nat)
    requires KeyOf(userId, ip, hourBucket, dayBucket).Some?
    requires KeyOf(userId, ip, hourBucket, dayBucket).value !in counters
    requires n <= LimitOf(KeyOf(userId, ip, hourBucket, dayBucket).value)
    ensures StoredCount(Repeat(counters, userId, ip, now, hourBucket, dayBucket, n), KeyOf(userId, ip, hourBucket, dayBucket).value) == n
    decreases n
  {
    if n > 0 {
      var key := KeyOf(userId, ip, hourBucket, dayBucket).value;
      FreshWindowCountsUp(counters, userId, ip, now, hourBucket, dayBucket, n - 1);
      DeniedExactlyAtLimit(Repeat(counters, userId, ip, now, hourBucket, dayBucket, n - 1), userId, ip, now, hourBucket, dayBucket);
    }
  }

  /** After `limit` allowed requests in a window (5 per IP and hour, 50 per user and day), the next is denied. */
  lemma LimitPlusOneIsDenied(counters: map<WindowKey, Counter>, userId: Option<string>, ip: Option<string>,
                             now: int, hourBucket: int, dayBucket: int)
    requires KeyOf(userId, ip, hourBucket, dayBucket).Some?
    requires KeyOf(userId, ip, hourBucket, dayBucket).value !in counters
    ensures var limit := LimitOf(KeyOf(userId, ip, hourBucket, dayBucket).value);
      var after := Repeat(counters, userId, ip, now, hourBucket, dayBucket, limit);
      && (limit == 5 || limit == 50)
      && !Check(after, userId, ip, now, hourBucket, dayBucket, true).result.allowed
  {
    var key := KeyOf(userId, ip, hourBucket, dayBucket).value;
    FreshWindowCountsUp(counters, userId, ip, now, hourBucket, dayBucket, LimitOf(key));
    DeniedExactlyAtLimit(Repeat(counters, userId, ip, now, hourBucket, dayBucket, LimitOf(key)), userId, ip, now, hourBucket, dayBucket);
  }

  /** The counter collection; each check reads, decides, and writes step by step. */
  class RateLimiter {
    var counters: map<WindowKey, Counter>

    constructor ()
      ensures counters == map[]
    {
      counters := map[];
    }

    /** `checkRateLimit(userId)`. */
    method CheckRateLimit(userId: Option<string>, ip: Option<string>, now: int,
                          hourBucket: int, dayBucket: int, storeOk: bool) returns (r: RateLimitResult)
      modifies this
      ensures Outcome(r, counters) == Check(old(counters), userId, ip, now, hourBucket, dayBucket, storeOk)
    {
      if userId.None? || userId.value == "" {
        if ip.None? || ip.value == "" {
          return RateLimitResult(true, UNSIGNED_LIMIT, now, None);
        }
        if !storeOk {
          return RateLimitResult(true, -1, now, Some(CHECK_FAILED));
        }
        r := CheckLimit(IpHour(ip.value, hourBucket), UNSIGNED_LIMIT, HOUR_MS, ip.value, now,
                        resetAt => HourlyLimitMessage(resetAt, now));
      } else {
        if !storeOk {
          return RateLimitResult(true, -1, now, Some(CHECK_FAILED));
        }
        r := CheckLimit(UserDay(userId.value, dayBucket), SIGNED_LIMIT, DAY_MS, userId.value, now,
                        resetAt => DAILY_LIMIT_REACHED);
      }
    }

    /** The body shared by `checkUnsignedUserLimit` and `checkSignedUserLimit`. */
    method CheckLimit(key: WindowKey, limit: int, windowMs: int, owner: string, now: int,
                      deniedMessage: int -> string) returns (r: RateLimitResult)
      modifies this
      ensures Outcome(r, counters) == CheckWindow(old(counters), key, limit, windowMs, owner, now, deniedMessage)
    {
      var count := 0;
      var resetAt := now + windowMs;
      if key in counters {
        var data := counters[key];
        count := data.count.GetOr(0);
        resetAt := data.resetAt.GetOr(resetAt);
      }
      if count >= limit {
        return RateLimitResult(false, 0, resetAt, Some(deniedMessage(resetAt)));
      }
      var first := if key in counters then counters[key].firstRequestAt else now;
      counters := counters[key := Counter(Some(count + 1), owner, first, now, Some(resetAt))];
      return RateLimitResult(true, limit - count - 1, resetAt, None);
    }
  }
}
