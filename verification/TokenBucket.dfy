/** The token bucket per key with periodic eviction (internal/auth/ratelimit.go),
    over exact reals. Here times are read off the token clock, which ticks once
    for every token gained; RateLimiter reads them in seconds. */
module TokenBucket {
  type Key = string

  datatype Bucket = Bucket(tokens: real, lastSeen: real)

  /** An idle bucket is evicted after two intervals, which are 2 * rate ticks. */
  datatype Config = Config(rate: nat, cleanupEvery: real)

  datatype Limiter = Limiter(buckets: map<Key, Bucket>, cleanup: real)

  datatype Call = Call(key: Key, now: real)

  function Min(a: real, b: real): real {
    if a < b then a else b
  }

  // ----- one call -----

  function Kept(c: Config, buckets: map<Key, Bucket>, now: real): map<Key, Bucket> {
    map k | k in buckets && !(now - buckets[k].lastSeen > 2.0 * c.rate as real) :: buckets[k]
  }

  function Evicted(c: Config, s: Limiter, now: real): Limiter {
    if now - s.cleanup > c.cleanupEvery then Limiter(Kept(c, s.buckets, now), now) else s
  }

  /** What the bucket of k would hold at time t; a key without one has it full. */
  function Level(c: Config, s: Limiter, k: Key, t: real): real
  {
    if k in s.buckets then Min(c.rate as real, s.buckets[k].tokens + (t - s.buckets[k].lastSeen))
    else c.rate as real
  }

  function Spend(level: real): real {
    if level < 1.0 then level else level - 1.0
  }

  function Served(c: Config, s: Limiter, call: Call): Limiter
  {
    s.(buckets := s.buckets[call.key := Bucket(Spend(Level(c, s, call.key, call.now)), call.now)])
  }

  function Next(c: Config, s: Limiter, call: Call): Limiter
  {
    Served(c, Evicted(c, s, call.now), call)
  }

  predicate Answer(c: Config, s: Limiter, call: Call)
  {
    Level(c, Evicted(c, s, call.now), call.key, call.now) >= 1.0
  }

  // ----- eviction is not observable -----

  /** Holds of every reachable limiter once the clock reads now. */
  ghost predicate Sane(c: Config, s: Limiter, now: real) {
    forall k :: k in s.buckets ==> s.buckets[k].lastSeen <= now && 0.0 <= s.buckets[k].tokens <= c.rate as real
  }

  lemma EvictionKeepsLevels(c: Config, s: Limiter, now: real, k: Key, t: real)
    requires Sane(c, s, now) && now <= t
    ensures Level(c, Evicted(c, s, now), k, t) == Level(c, s, k, t)
    ensures Sane(c, Evicted(c, s, now), now)
  {}

  lemma LevelBounds(c: Config, s: Limiter, k: Key, now: real)
    requires Sane(c, s, now)
    ensures 0.0 <= Level(c, s, k, now) <= c.rate as real
  {}

  lemma NextKeeps(c: Config, s: Limiter, call: Call)
    requires Sane(c, s, call.now)
    ensures Sane(c, Next(c, s, call), call.now)
  {}

  /** What a call does to every level, seen from any later time. */
  lemma NextLevel(c: Config, s: Limiter, call: Call, k: Key, t: real)
    requires Sane(c, s, call.now) && call.now <= t
    ensures k != call.key ==> Level(c, Next(c, s, call), k, t) == Level(c, s, k, t)
    ensures k == call.key ==> Level(c, Next(c, s, call), k, t)
                              == Min(c.rate as real, Spend(Level(c, s, k, call.now)) + (t - call.now))
    ensures Answer(c, s, call) <==> Level(c, s, call.key, call.now) >= 1.0
  {}

  // ----- runs -----

  ghost predicate Ordered(start: real, calls: seq<Call>) {
    && (forall i :: 0 <= i < |calls| ==> start <= calls[i].now)
    && (forall i, j :: 0 <= i <= j < |calls| ==> calls[i].now <= calls[j].now)
  }

  /** The limiter after the first n calls. */
  function After(c: Config, start: real, calls: seq<Call>, n: nat): Limiter
    requires n <= |calls|
  {
    if n == 0 then Limiter(map[], start) else Next(c, After(c, start, calls, n - 1), calls[n - 1])
  }

  /** The same calls on a limiter that never evicts. */
  function Plain(c: Config, start: real, calls: seq<Call>, n: nat): Limiter
    requires n <= |calls|
  {
    if n == 0 then Limiter(map[], start) else Served(c, Plain(c, start, calls, n - 1), calls[n - 1])
  }

  predicate Allowed(c: Config, start: real, calls: seq<Call>, i: nat)
    requires i < |calls|
  {
    Answer(c, After(c, start, calls, i), calls[i])
  }

  lemma {:induction false} RunSane(c: Config, start: real, calls: seq<Call>, n: nat, now: real)
    requires Ordered(start, calls) && n <= |calls| && (n > 0 ==> calls[n - 1].now <= now)
    ensures Sane(c, After(c, start, calls, n), now)
  {
    if n > 0 {
      RunSane(c, start, calls, n - 1, calls[n - 1].now);
      NextKeeps(c, After(c, start, calls, n - 1), calls[n - 1]);
    }
  }

  lemma {:induction false} SameLevels(c: Config, start: real, calls: seq<Call>, n: nat, k: Key, t: real)
    requires Ordered(start, calls) && n <= |calls| && (n > 0 ==> calls[n - 1].now <= t)
    ensures Level(c, After(c, start, calls, n), k, t) == Level(c, Plain(c, start, calls, n), k, t)
  {
    if n > 0 {
      RunSane(c, start, calls, n - 1, calls[n - 1].now);
      SameLevels(c, start, calls, n - 1, k, t);
      SameLevels(c, start, calls, n - 1, calls[n - 1].key, calls[n - 1].now);
      NextLevel(c, After(c, start, calls, n - 1), calls[n - 1], k, t);
    }
  }

  /** Evicting idle buckets changes no answer. */
  lemma EvictionIsInvisible(c: Config, start: real, calls: seq<Call>, i: nat)
    requires Ordered(start, calls) && i < |calls|
    ensures Allowed(c, start, calls, i) <==> Level(c, Plain(c, start, calls, i), calls[i].key, calls[i].now) >= 1.0
  {
    RunSane(c, start, calls, i, calls[i].now);
    SameLevels(c, start, calls, i, calls[i].key, calls[i].now);
    NextLevel(c, After(c, start, calls, i), calls[i], calls[i].key, calls[i].now);
  }

  // ----- the bound, and that it is exact -----

  /** How many calls of k numbered i to j - 1 were allowed. */
  function Count(c: Config, start: real, calls: seq<Call>, k: Key, i: nat, j: nat): nat
    requires i <= j <= |calls|
  {
    if i == j then 0
    else Count(c, start, calls, k, i, j - 1) + if calls[j - 1].key == k && Allowed(c, start, calls, j - 1) then 1 else 0
  }

  lemma CallSpends(c: Config, s: Limiter, call: Call, k: Key)
    requires Sane(c, s, call.now)
    ensures (if call.key == k && Answer(c, s, call) then 1.0 else 0.0) + Level(c, Next(c, s, call), k, call.now)
            == Level(c, s, k, call.now)
  {}

  /** The last call of a prefix spends one token of its key if it is allowed. */
  lemma LastSpends(c: Config, start: real, calls: seq<Call>, k: Key, j: nat)
    requires Ordered(start, calls) && j < |calls|
    ensures (if calls[j].key == k && Allowed(c, start, calls, j) then 1.0 else 0.0)
            + Level(c, After(c, start, calls, j + 1), k, calls[j].now)
            == Level(c, After(c, start, calls, j), k, calls[j].now) <= c.rate as real
  {
    RunSane(c, start, calls, j, calls[j].now);
    CallSpends(c, After(c, start, calls, j), calls[j], k);
    LevelBounds(c, After(c, start, calls, j), k, calls[j].now);
  }

  /** Tokens left after a window plus calls allowed in it never exceed a full
      bucket plus what the window refilled. */
  lemma {:induction false} Budget(c: Config, start: real, calls: seq<Call>, k: Key, i: nat, j: nat)
    requires Ordered(start, calls) && i < j <= |calls|
    ensures Count(c, start, calls, k, i, j) as real + Level(c, After(c, start, calls, j), k, calls[j - 1].now)
            <= c.rate as real + (calls[j - 1].now - calls[i].now)
    decreases j
  {
    LastSpends(c, start, calls, k, j - 1);
    if i < j - 1 {
      Budget(c, start, calls, k, i, j - 1);
      LevelGrows(c, After(c, start, calls, j - 1), k, calls[j - 2].now, calls[j - 1].now);
    }
  }

  lemma LevelGrows(c: Config, s: Limiter, k: Key, t: real, u: real)
    requires t <= u
    ensures Level(c, s, k, u) <= Level(c, s, k, t) + (u - t)
  {}

  /** The calls allowed for a key in a window of length T number at most
      the rate plus T. */
  lemma WindowBound(c: Config, start: real, calls: seq<Call>, k: Key, i: nat, j: nat)
    requires Ordered(start, calls) && i < j <= |calls|
    ensures Count(c, start, calls, k, i, j) as real <= c.rate as real + (calls[j - 1].now - calls[i].now)
  {
    Budget(c, start, calls, k, i, j);
    RunSane(c, start, calls, j, calls[j - 1].now);
    LevelBounds(c, After(c, start, calls, j), k, calls[j - 1].now);
  }

  /** One call seen later: unless the level is full again, it is what was left. */
  lemma SpentSince(c: Config, start: real, calls: seq<Call>, k: Key, j: nat, t: real)
    requires Ordered(start, calls) && j < |calls| && calls[j].now <= t
    requires Level(c, After(c, start, calls, j + 1), k, t) != c.rate as real
    ensures Level(c, After(c, start, calls, j + 1), k, t)
            == if k != calls[j].key then Level(c, After(c, start, calls, j), k, t)
               else Level(c, After(c, start, calls, j), k, calls[j].now)
                    - (if Allowed(c, start, calls, j) then 1.0 else 0.0) + (t - calls[j].now)
  {
    RunSane(c, start, calls, j, calls[j].now);
    NextLevel(c, After(c, start, calls, j), calls[j], k, t);
  }

  /** A level below full was run down, call by call, since it was last full. */
  lemma {:induction false} RunDown(c: Config, start: real, calls: seq<Call>, k: Key, j: nat, t: real) returns (i: nat)
    requires Ordered(start, calls) && j <= |calls|
    requires j > 0 ==> calls[j - 1].now <= t
    requires Level(c, After(c, start, calls, j), k, t) != c.rate as real
    ensures i < j && Level(c, After(c, start, calls, j), k, t)
                     == c.rate as real - Count(c, start, calls, k, i, j) as real + (t - calls[i].now)
    decreases j
  {
    var call := calls[j - 1];
    SpentSince(c, start, calls, k, j - 1, t);
    if call.key == k && Level(c, After(c, start, calls, j - 1), k, call.now) == c.rate as real {
      i := j - 1;
    } else {
      i := RunDown(c, start, calls, k, j - 1, if call.key == k then call.now else t);
    }
  }

  /** Granting call j would take the window from i past the bound. */
  ghost predicate WouldExceed(c: Config, start: real, calls: seq<Call>, i: nat, j: nat)
    requires i <= j < |calls|
  {
    Count(c, start, calls, calls[j].key, i, j) as real + 1.0 > c.rate as real + (calls[j].now - calls[i].now)
  }

  /** The limiter refuses exactly the calls that would break the bound on some
      window: it can be neither stricter nor laxer. */
  lemma RefusedIffOverBound(c: Config, start: real, calls: seq<Call>, j: nat)
    requires c.rate >= 1 && Ordered(start, calls) && j < |calls|
    ensures !Allowed(c, start, calls, j) <==> exists i :: 0 <= i < j && WouldExceed(c, start, calls, i, j)
  {
    var k, now := calls[j].key, calls[j].now;
    RunSane(c, start, calls, j, now);
    NextLevel(c, After(c, start, calls, j), calls[j], k, now);
    if !Allowed(c, start, calls, j) {
      var i := RunDown(c, start, calls, k, j, now);
      assert WouldExceed(c, start, calls, i, j);
    } else {
      forall i | 0 <= i < j ensures !WouldExceed(c, start, calls, i, j) {
        WindowBound(c, start, calls, k, i, j + 1);
      }
    }
  }
}
