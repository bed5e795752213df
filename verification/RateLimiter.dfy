/** The rate limiter as the service runs it, on seconds, proved to be the token
    bucket of TokenBucket (internal/auth/ratelimit.go). */
module RateLimiter {
  import opened TokenBucket

  const CLEANUP_SECONDS := 600.0

  datatype Settings = Settings(rate: nat, interval: real) {
    ghost predicate Valid() { rate >= 1 && interval > 0.0 }

    /** Tokens gained per second. */
    function Speed(): (r: real)
      requires interval > 0.0
      ensures r * interval == rate as real
      ensures rate >= 1 ==> r > 0.0
    {
      rate as real / interval
    }
  }

  lemma Times(x: real, y: real, r: real)
    requires r > 0.0
    ensures x < y <==> x * r < y * r
  {}

  lemma Spread(x: real, y: real, r: real)
    ensures (x - y) * r == x * r - y * r
  {}

  /** A span of seconds exceeds a bound exactly when its ticks do. */
  lemma SpanTicks(x: real, y: real, bound: real, r: real)
    requires r > 0.0
    ensures x - y > bound <==> x * r - y * r > bound * r
  {}

  function Ticked(r: real, buckets: map<Key, Bucket>): map<Key, Bucket> {
    map k | k in buckets :: Bucket(buckets[k].tokens, buckets[k].lastSeen * r)
  }

  lemma SameMap(a: map<Key, Bucket>, b: map<Key, Bucket>)
    requires forall k :: k in a <==> k in b
    requires forall k :: k in a && k in b ==> a[k] == b[k]
    ensures a == b
  {}

  /** The buckets that survive an eviction, in seconds. */
  function Fresh(interval: real, buckets: map<Key, Bucket>, now: real): map<Key, Bucket> {
    map k | k in buckets && !(now - buckets[k].lastSeen > interval * 2.0) :: buckets[k]
  }

  lemma EvictionTicks(c: Config, r: real, interval: real, buckets: map<Key, Bucket>, now: real)
    requires r > 0.0 && r * interval == c.rate as real
    ensures Ticked(r, Fresh(interval, buckets, now)) == Kept(c, Ticked(r, buckets), now * r)
  {
    forall k | k in buckets
      ensures now - buckets[k].lastSeen > interval * 2.0 <==> now * r - buckets[k].lastSeen * r > 2.0 * c.rate as real
    {
      SpanTicks(now, buckets[k].lastSeen, interval * 2.0, r);
      assert interval * 2.0 * r == 2.0 * (r * interval);
    }
    SameMap(Ticked(r, Fresh(interval, buckets, now)), Kept(c, Ticked(r, buckets), now * r));
  }

  /** A missing bucket stands for a full one, last seen at the zero time. */
  function Found(rate: real, buckets: map<Key, Bucket>, k: Key): Bucket {
    if k in buckets then buckets[k] else Bucket(rate, 0.0)
  }

  lemma PutTicks(r: real, buckets: map<Key, Bucket>, k: Key, tokens: real, now: real)
    ensures Ticked(r, buckets[k := Bucket(tokens, now)]) == Ticked(r, buckets)[k := Bucket(tokens, now * r)]
  {
    SameMap(Ticked(r, buckets[k := Bucket(tokens, now)]), Ticked(r, buckets)[k := Bucket(tokens, now * r)]);
  }

  /** What the limiter holds, in seconds. */
  datatype Held = Held(buckets: map<Key, Bucket>, cleanup: real)

  function EvictedHeld(s: Settings, h: Held, now: real): Held {
    if now - h.cleanup > CLEANUP_SECONDS then Held(Fresh(s.interval, h.buckets, now), now) else h
  }

  function Refilled(rate: real, r: real, b: Bucket, now: real): real {
    Min(rate, b.tokens + Gained(r, b, now))
  }

  function Gained(r: real, b: Bucket, now: real): real {
    (now - b.lastSeen) * r
  }

  function Tokens(s: Settings, r: real, h: Held, k: Key, now: real): real {
    Refilled(s.rate as real, r, Found(s.rate as real, h.buckets, k), now)
  }

  function Abstract(r: real, h: Held): Limiter {
    Limiter(Ticked(r, h.buckets), h.cleanup * r)
  }

  // In what follows t is the time `now` on the token clock.

  lemma RefillTicks(s: Settings, c: Config, r: real, e: Held, k: Key, now: real, t: real)
    requires r > 0.0 && now >= 0.0 && s.rate == c.rate && t == now * r
    ensures Tokens(s, r, e, k, now) == Level(c, Abstract(r, e), k, t)
  {
    var b := Found(s.rate as real, e.buckets, k);
    Spread(now, b.lastSeen, r);
    Times(now, 0.0, r);
    assert Gained(r, b, now) == now * r - b.lastSeen * r;
  }

  lemma EvictedTicks(s: Settings, c: Config, r: real, h: Held, now: real, t: real)
    requires r > 0.0 && r * s.interval == c.rate as real && c.cleanupEvery == CLEANUP_SECONDS * r && t == now * r
    ensures Abstract(r, EvictedHeld(s, h, now)) == Evicted(c, Abstract(r, h), t)
  {
    SpanTicks(now, h.cleanup, CLEANUP_SECONDS, r);
    EvictionTicks(c, r, s.interval, h.buckets, now);
    if now - h.cleanup > CLEANUP_SECONDS {
      assert t - Abstract(r, h).cleanup > c.cleanupEvery;
    } else {
      assert !(t - Abstract(r, h).cleanup > c.cleanupEvery);
    }
  }

  lemma ServedTicks(c: Config, r: real, e: Held, k: Key, now: real, t: real, tokens: real)
    requires tokens == Level(c, Abstract(r, e), k, t) && t == now * r
    ensures Abstract(r, Held(e.buckets[k := Bucket(Spend(tokens), now)], e.cleanup))
      == Served(c, Abstract(r, e), Call(k, t))
  {
    PutTicks(r, e.buckets, k, Spend(tokens), now);
  }

  /** What one call in seconds leaves behind, at r tokens a second. */
  function Called(s: Settings, r: real, h: Held, k: Key, now: real): Held {
    var e := EvictedHeld(s, h, now);
    Held(e.buckets[k := Bucket(Spend(Tokens(s, r, e, k, now)), now)], e.cleanup)
  }

  predicate Grants(s: Settings, r: real, h: Held, k: Key, now: real) {
    Tokens(s, r, EvictedHeld(s, h, now), k, now) >= 1.0
  }

  /** r is the limiter's speed, and c its settings on the token clock. */
  ghost predicate Geared(s: Settings, r: real, c: Config) {
    && s.rate >= 1 && r > 0.0 && r * s.interval == s.rate as real
    && c.rate == s.rate && c.cleanupEvery == CLEANUP_SECONDS * r
  }

  lemma CallTicksAt(c: Config, a: Limiter, evicted: Limiter, n: Limiter, call: Call, tokens: real)
    requires evicted == Evicted(c, a, call.now) && tokens == Level(c, evicted, call.key, call.now)
    requires n == Served(c, evicted, call)
    ensures n == Next(c, a, call) && (tokens >= 1.0 <==> Answer(c, a, call))
  {}

  /** One call in seconds is one call on the token clock, r ticks a second. */
  lemma CallTicks(s: Settings, r: real, c: Config, h: Held, k: Key, now: real, t: real)
    requires Geared(s, r, c) && now >= 0.0 && t == now * r
    ensures Abstract(r, Called(s, r, h, k, now)) == Next(c, Abstract(r, h), Call(k, t))
    ensures Grants(s, r, h, k, now) <==> Answer(c, Abstract(r, h), Call(k, t))
  {
    var e := EvictedHeld(s, h, now);
    var tokens := Tokens(s, r, e, k, now);
    EvictedTicks(s, c, r, h, now, t);
    RefillTicks(s, c, r, e, k, now, t);
    ServedTicks(c, r, e, k, now, t, tokens);
    CallTicksAt(c, Abstract(r, h), Abstract(r, e), Abstract(r, Called(s, r, h, k, now)), Call(k, t), tokens);
  }

  class Buckets {
    const settings: Settings
    var buckets: map<Key, Bucket>
    var cleanup: real

    /** A rate below one is raised to one. */
    constructor (rate: int, interval: real, now: real)
      requires interval > 0.0
      ensures settings == Settings(if rate <= 0 then 1 else rate, interval) && settings.Valid()
      ensures State() == Held(map[], now)
    {
      settings := Settings(if rate <= 0 then 1 else rate, interval);
      buckets, cleanup := map[], now;
    }

    ghost function State(): Held
      reads this
    {
      Held(buckets, cleanup)
    }

    method Evict(now: real)
      requires settings.Valid()
      modifies this
      ensures State() == EvictedHeld(settings, old(State()), now)
      ensures forall k :: k in buckets <==>
                k in old(buckets) && !(now - old(cleanup) > 600.0
                                       && now - old(buckets)[k].lastSeen > 2.0 * settings.interval)
      ensures forall k :: k in buckets ==> buckets[k] == old(buckets)[k]
      ensures cleanup == if now - old(cleanup) > 600.0 then now else old(cleanup)
    {
      if now - cleanup > CLEANUP_SECONDS {
        var before, left, todo := buckets, buckets, buckets.Keys;
        while todo != {}
          invariant todo <= before.Keys && todo <= left.Keys <= before.Keys
          invariant forall k :: k in left ==> left[k] == before[k]
          invariant forall k :: k in before && k !in todo ==>
            (k in left <==> !(now - before[k].lastSeen > settings.interval * 2.0))
        {
          var k :| k in todo;
          todo := todo - {k};
          if now - before[k].lastSeen > settings.interval * 2.0 {
            left := left - {k};
          }
        }
        buckets, cleanup := left, now;
      }
    }

    /** CallTicks says what this is on the token clock. */
    method AllowAt(key: Key, now: real) returns (ok: bool)
      requires settings.Valid() && now >= 0.0
      modifies this
      ensures State() == Called(settings, settings.Speed(), old(State()), key, now)
      ensures ok == Grants(settings, settings.Speed(), old(State()), key, now)
    {
      Evict(now);
      ok := Take(key, now, settings.rate as real / settings.interval);
    }

    /** Refills the key's bucket at r tokens a second and takes a token if it can. */
    method Take(key: Key, now: real, r: real) returns (ok: bool)
      modifies this`buckets
      ensures buckets == old(buckets)[key := Bucket(Spend(Tokens(settings, r, old(State()), key, now)), now)]
      ensures ok == (Tokens(settings, r, old(State()), key, now) >= 1.0)
    {
      if key !in buckets {
        buckets := buckets[key := Bucket(settings.rate as real, 0.0)];
      }
      var b := buckets[key];
      var tokens := b.tokens + Gained(r, b, now);
      if tokens > settings.rate as real {
        tokens := settings.rate as real;
      }
      assert b == Found(settings.rate as real, old(buckets), key);
      assert tokens == Refilled(settings.rate as real, r, b, now);
      ok := !(tokens < 1.0);
      buckets := buckets[key := Bucket(if ok then tokens - 1.0 else tokens, now)];
    }
  }

  // ----- a whole run in seconds -----

  /** What the limiter holds after the first n calls. */
  function HeldAfter(s: Settings, r: real, start: real, calls: seq<Call>, n: nat): Held
    requires n <= |calls|
  {
    if n == 0 then Held(map[], start)
    else Called(s, r, HeldAfter(s, r, start, calls, n - 1), calls[n - 1].key, calls[n - 1].now)
  }

  /** The n-th call is allowed. */
  predicate AllowedAt(s: Settings, r: real, start: real, calls: seq<Call>, n: nat)
    requires n < |calls|
  {
    Grants(s, r, HeldAfter(s, r, start, calls, n), calls[n].key, calls[n].now)
  }

  /** How many calls of k numbered i to j - 1 were allowed. */
  function AllowedCount(s: Settings, r: real, start: real, calls: seq<Call>, k: Key, i: nat, j: nat): nat
    requires i <= j <= |calls|
  {
    if i == j then 0
    else AllowedCount(s, r, start, calls, k, i, j - 1)
         + if calls[j - 1].key == k && AllowedAt(s, r, start, calls, j - 1) then 1 else 0
  }

  // ----- the same run on the token clock -----

  function Tick(r: real, call: Call): Call {
    Call(call.key, call.now * r)
  }

  /** The first n calls, read off the token clock. */
  ghost predicate OnClock(r: real, calls: seq<Call>, ticks: seq<Call>, n: nat)
    requires n <= |calls|
  {
    |ticks| == |calls|
    && (n > 0 ==> OnClock(r, calls, ticks, n - 1) && calls[n - 1].now >= 0.0 && ticks[n - 1] == Tick(r, calls[n - 1]))
  }

  lemma {:induction false} HeldTicks(s: Settings, r: real, c: Config, start: real, calls: seq<Call>, u: real,
                                     ticks: seq<Call>, n: nat)
    requires Geared(s, r, c) && u == start * r && n <= |calls| && OnClock(r, calls, ticks, n)
    ensures Abstract(r, HeldAfter(s, r, start, calls, n)) == After(c, u, ticks, n)
  {
    if n > 0 {
      HeldTicks(s, r, c, start, calls, u, ticks, n - 1);
      CallTicks(s, r, c, HeldAfter(s, r, start, calls, n - 1), calls[n - 1].key, calls[n - 1].now, ticks[n - 1].now);
    } else {
      assert Ticked(r, map[]) == map[];
    }
  }

  /** The limiter allows the calls its token bucket allows. */
  lemma AllowedTicks(s: Settings, r: real, c: Config, start: real, calls: seq<Call>, u: real, ticks: seq<Call>, n: nat)
    requires Geared(s, r, c) && u == start * r && n < |calls| && OnClock(r, calls, ticks, n + 1)
    ensures AllowedAt(s, r, start, calls, n) <==> Allowed(c, u, ticks, n)
  {
    HeldTicks(s, r, c, start, calls, u, ticks, n);
    CallTicks(s, r, c, HeldAfter(s, r, start, calls, n), calls[n].key, calls[n].now, ticks[n].now);
  }

  lemma {:induction false} CountTicks(s: Settings, r: real, c: Config, start: real, calls: seq<Call>, u: real,
                                      ticks: seq<Call>, k: Key, i: nat, j: nat)
    requires Geared(s, r, c) && u == start * r && i <= j <= |calls| && OnClock(r, calls, ticks, j)
    ensures AllowedCount(s, r, start, calls, k, i, j) == Count(c, u, ticks, k, i, j)
  {
    if i < j {
      CountTicks(s, r, c, start, calls, u, ticks, k, i, j - 1);
      AllowedTicks(s, r, c, start, calls, u, ticks, j - 1);
    }
  }

  lemma {:induction false} OnClockBefore(r: real, calls: seq<Call>, ticks: seq<Call>, m: nat, n: nat)
    requires m <= n <= |calls| && OnClock(r, calls, ticks, n)
    ensures OnClock(r, calls, ticks, m)
    ensures m < n ==> ticks[m] == Tick(r, calls[m])
    decreases n
  {
    if m < n { OnClockBefore(r, calls, ticks, m, n - 1); }
  }

  lemma TickOrder(r: real, x: real, y: real)
    requires r > 0.0 && x <= y
    ensures x * r <= y * r
  {
    Times(y, x, r);
  }

  lemma {:induction false} ClockRead(r: real, calls: seq<Call>, ticks: seq<Call>, n: nat)
    requires n <= |calls| == |ticks|
    requires forall i :: 0 <= i < |calls| ==> ticks[i] == Tick(r, calls[i]) && calls[i].now >= 0.0
    ensures OnClock(r, calls, ticks, n)
  {
    if n > 0 { ClockRead(r, calls, ticks, n - 1); }
  }

  lemma ClockOrdered(r: real, start: real, calls: seq<Call>, ticks: seq<Call>)
    requires r > 0.0 && Ordered(start, calls) && |calls| == |ticks|
    requires forall i :: 0 <= i < |calls| ==> ticks[i] == Tick(r, calls[i])
    ensures Ordered(start * r, ticks)
  {
    forall i | 0 <= i < |ticks| ensures start * r <= ticks[i].now {
      TickOrder(r, start, calls[i].now);
    }
    forall i, j | 0 <= i <= j < |ticks| ensures ticks[i].now <= ticks[j].now {
      TickOrder(r, calls[i].now, calls[j].now);
    }
  }

  /** A run in seconds, seen on the token clock. */
  lemma Clocked(s: Settings, start: real, calls: seq<Call>) returns (r: real, c: Config, u: real, ticks: seq<Call>)
    requires s.Valid() && start >= 0.0 && Ordered(start, calls)
    ensures r == s.Speed() && Geared(s, r, c) && u == start * r
    ensures OnClock(r, calls, ticks, |calls|) && Ordered(u, ticks)
  {
    r := s.Speed();
    c, u := Config(s.rate, CLEANUP_SECONDS * r), start * r;
    ticks := seq(|calls|, i requires 0 <= i < |calls| => Tick(r, calls[i]));
    ClockRead(r, calls, ticks, |calls|);
    ClockOrdered(r, start, calls, ticks);
  }

  // ----- the promises, in seconds -----

  /** What a window of seconds may let through. */
  function Allowance(s: Settings, r: real, from: real, to: real): real {
    s.rate as real + (to - from) * r
  }

  lemma AllowanceTicks(s: Settings, r: real, x: real, y: real, u: real, v: real)
    requires u == x * r && v == y * r
    ensures Allowance(s, r, y, x) == s.rate as real + (u - v)
  {
    Spread(x, y, r);
  }

  lemma WindowTicks(s: Settings, r: real, calls: seq<Call>, ticks: seq<Call>, i: nat, j: nat)
    requires i < |calls| && j < |calls| && OnClock(r, calls, ticks, |calls|)
    ensures Allowance(s, r, calls[i].now, calls[j].now) == s.rate as real + (ticks[j].now - ticks[i].now)
  {
    OnClockBefore(r, calls, ticks, i, |calls|);
    OnClockBefore(r, calls, ticks, j, |calls|);
    AllowanceTicks(s, r, calls[j].now, calls[i].now, ticks[j].now, ticks[i].now);
  }

  /** In any window of T seconds the limiter lets at most rate + T * rate / interval
      calls of a key through. */
  lemma SecondsBound(s: Settings, start: real, calls: seq<Call>, k: Key, i: nat, j: nat)
    requires s.Valid() && start >= 0.0 && Ordered(start, calls) && i < j <= |calls|
    ensures AllowedCount(s, s.Speed(), start, calls, k, i, j) as real
            <= Allowance(s, s.Speed(), calls[i].now, calls[j - 1].now)
  {
    var r, c, u, ticks := Clocked(s, start, calls);
    OnClockBefore(r, calls, ticks, j, |calls|);
    CountTicks(s, r, c, start, calls, u, ticks, k, i, j);
    WindowTicks(s, r, calls, ticks, i, j - 1);
    WindowBound(c, u, ticks, k, i, j);
  }

  /** Granting call j would take the window from call i past its allowance. */
  ghost predicate OverAllowance(s: Settings, r: real, start: real, calls: seq<Call>, i: nat, j: nat)
    requires i <= j < |calls|
  {
    AllowedCount(s, r, start, calls, calls[j].key, i, j) as real + 1.0 > Allowance(s, r, calls[i].now, calls[j].now)
  }

  lemma OverTicks(s: Settings, r: real, c: Config, start: real, calls: seq<Call>, u: real, ticks: seq<Call>, i: nat,
                  j: nat)
    requires Geared(s, r, c) && u == start * r && i <= j < |calls| && OnClock(r, calls, ticks, |calls|)
    ensures OverAllowance(s, r, start, calls, i, j) <==> WouldExceed(c, u, ticks, i, j)
  {
    OnClockBefore(r, calls, ticks, j, |calls|);
    CountTicks(s, r, c, start, calls, u, ticks, calls[j].key, i, j);
    WindowTicks(s, r, calls, ticks, i, j);
  }

  /** It refuses exactly the calls that would break that bound on some window. */
  lemma SecondsRefusedIffOver(s: Settings, start: real, calls: seq<Call>, j: nat)
    requires s.Valid() && start >= 0.0 && Ordered(start, calls) && j < |calls|
    ensures !AllowedAt(s, s.Speed(), start, calls, j)
            <==> exists i :: 0 <= i < j && OverAllowance(s, s.Speed(), start, calls, i, j)
  {
    var r, c, u, ticks := Clocked(s, start, calls);
    OnClockBefore(r, calls, ticks, j + 1, |calls|);
    AllowedTicks(s, r, c, start, calls, u, ticks, j);
    RefusedIffOverBound(c, u, ticks, j);
    forall i | 0 <= i < j ensures OverAllowance(s, r, start, calls, i, j) <==> WouldExceed(c, u, ticks, i, j) {
      OverTicks(s, r, c, start, calls, u, ticks, i, j);
    }
  }

  /** What a limiter that never evicts holds after the first n calls. */
  function HeldForever(s: Settings, r: real, start: real, calls: seq<Call>, n: nat): Held
    requires n <= |calls|
  {
    if n == 0 then Held(map[], start)
    else
      var h, call := HeldForever(s, r, start, calls, n - 1), calls[n - 1];
      Held(h.buckets[call.key := Bucket(Spend(Tokens(s, r, h, call.key, call.now)), call.now)], h.cleanup)
  }

  lemma {:induction false} ForeverTicks(s: Settings, r: real, c: Config, start: real, calls: seq<Call>, u: real,
                                        ticks: seq<Call>, n: nat)
    requires Geared(s, r, c) && u == start * r && n <= |calls| && OnClock(r, calls, ticks, n)
    ensures Abstract(r, HeldForever(s, r, start, calls, n)) == Plain(c, u, ticks, n)
  {
    if n > 0 {
      var h, call, t := HeldForever(s, r, start, calls, n - 1), calls[n - 1], ticks[n - 1].now;
      ForeverTicks(s, r, c, start, calls, u, ticks, n - 1);
      RefillTicks(s, c, r, h, call.key, call.now, t);
      ServedTicks(c, r, h, call.key, call.now, t, Tokens(s, r, h, call.key, call.now));
    } else {
      assert Ticked(r, map[]) == map[];
    }
  }

  predicate AllowedForever(s: Settings, r: real, start: real, calls: seq<Call>, n: nat)
    requires n < |calls|
  {
    Tokens(s, r, HeldForever(s, r, start, calls, n), calls[n].key, calls[n].now) >= 1.0
  }

  lemma AllowedForeverTicks(s: Settings, r: real, c: Config, start: real, calls: seq<Call>, u: real,
                            ticks: seq<Call>, n: nat)
    requires Geared(s, r, c) && u == start * r && n < |calls| && OnClock(r, calls, ticks, n + 1)
    ensures AllowedForever(s, r, start, calls, n) <==>
              Level(c, Plain(c, u, ticks, n), ticks[n].key, ticks[n].now) >= 1.0
  {
    ForeverTicks(s, r, c, start, calls, u, ticks, n);
    RefillTicks(s, c, r, HeldForever(s, r, start, calls, n), calls[n].key, calls[n].now, ticks[n].now);
  }

  /** Evicting idle buckets changes no answer. */
  lemma SecondsEvictionIsInvisible(s: Settings, start: real, calls: seq<Call>, n: nat)
    requires s.Valid() && start >= 0.0 && Ordered(start, calls) && n < |calls|
    ensures AllowedAt(s, s.Speed(), start, calls, n) <==> AllowedForever(s, s.Speed(), start, calls, n)
  {
    var r, c, u, ticks := Clocked(s, start, calls);
    OnClockBefore(r, calls, ticks, n + 1, |calls|);
    AllowedTicks(s, r, c, start, calls, u, ticks, n);
    EvictionIsInvisible(c, u, ticks, n);
    AllowedForeverTicks(s, r, c, start, calls, u, ticks, n);
  }
}
