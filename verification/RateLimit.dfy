/** The distributed rate limiter over Redis sorted sets (internal/middleware/ratelimit_redis.go). */
module RateLimit {
  import opened Wrappers

  const WINDOW_MS := 60000
  const EXPIRY_MS := 120000

  /** A sorted set whose members are their own scores, and when it expires. A missing key is an empty set. */
  datatype SortedSet = SortedSet(members: set<int>, deadline: Option<int>)

  /** One call of `Allow`: the caller's clock, the Redis server's clock and the caller's limit. */
  datatype Call = Call(now: int, clock: int, rate: int)

  const MISSING := SortedSet({}, None)

  function Live(z: SortedSet, clock: int): SortedSet {
    if z.deadline.Some? && z.deadline.value <= clock then MISSING else z
  }

  /** Removing the scores from 0 to the start of the window; negative scores stay for ever. */
  function Purged(members: set<int>, now: int): set<int> {
    set m | m in members && !(0 <= m <= now - WINDOW_MS)
  }

  // The commands, on a key that has not expired.

  /** ZREMRANGEBYSCORE; an emptied set is deleted, and its deadline with it. */
  function Trimmed(z: SortedSet, lo: int, hi: int): SortedSet {
    var kept := set m | m in z.members && !(lo <= m <= hi);
    if kept == {} then MISSING else z.(members := kept)
  }

  /** ZADD. */
  function Joined(z: SortedSet, member: int): SortedSet {
    z.(members := z.members + {member})
  }

  /** EXPIRE, which does nothing to a missing key. */
  function Expiring(z: SortedSet, deadline: int): SortedSet {
    if z.members == {} then MISSING else z.(deadline := Some(deadline))
  }

  /** What `Allow` compares with the limit. */
  function Seen(z: SortedSet, c: Call): set<int> {
    Purged(Live(z, c.clock).members, c.now)
  }

  function Step(z: SortedSet, c: Call): SortedSet {
    SortedSet(Seen(z, c) + {c.now}, Some(c.clock + EXPIRY_MS))
  }

  class RedisRateLimiter {
    var redis: map<string, SortedSet>

    constructor ()
      ensures redis == map[]
    {
      redis := map[];
    }

    function At(key: string): SortedSet
      reads this
    {
      if key in redis then redis[key] else MISSING
    }

    method ZRemRangeByScore(key: string, lo: int, hi: int, clock: int)
      modifies this
      ensures At(key) == Trimmed(old(Live(At(key), clock)), lo, hi)
      ensures forall k :: k != key ==> At(k) == old(At(k))
    {
      var z := Live(At(key), clock);
      var kept := set m | m in z.members && !(lo <= m <= hi);
      redis := if kept == {} then redis - {key} else redis[key := z.(members := kept)];
    }

    method ZCard(key: string, clock: int) returns (n: nat)
      ensures n == |Live(At(key), clock).members|
    {
      n := |Live(At(key), clock).members|;
    }

    method ZAdd(key: string, member: int, clock: int)
      modifies this
      ensures At(key) == Joined(old(Live(At(key), clock)), member)
      ensures forall k :: k != key ==> At(k) == old(At(k))
    {
      var z := Live(At(key), clock);
      redis := redis[key := z.(members := z.members + {member})];
    }

    method Expire(key: string, ms: int, clock: int)
      modifies this
      ensures At(key) == Expiring(old(Live(At(key), clock)), clock + ms)
      ensures forall k :: k != key ==> At(k) == old(At(k))
    {
      var z := Live(At(key), clock);
      redis := if z.members == {} then redis - {key} else redis[key := z.(deadline := Some(clock + ms))];
    }

    /** Whether a request is within its token's limit. The four commands run as one; `fault` is Some(k) when the
        pipeline fails after its first k commands, and then the request is let through. */
    method Allow(tokenName: string, c: Call, fault: Option<nat>) returns (allowed: bool)
      modifies this
      ensures var key := "ratelimit:" + tokenName;
              (fault.None? ==> (allowed <==> |Seen(old(At(key)), c)| < c.rate) && At(key) == Step(old(At(key)), c))
      ensures var z := old(At("ratelimit:" + tokenName));
              fault.Some? ==> (
                && allowed
                && At("ratelimit:" + tokenName).members ==
                     (if fault.value == 0 then z.members
                      else if fault.value <= 2 then Seen(z, c)
                      else Seen(z, c) + {c.now}))
      ensures forall token :: token != tokenName ==> At("ratelimit:" + token) == old(At("ratelimit:" + token))
    {
      var key := "ratelimit:" + tokenName;
      KeysDiffer(tokenName);
      var windowStart := c.now - WINDOW_MS;
      if fault == Some(0) {
        return true;
      }
      ZRemRangeByScore(key, 0, windowStart, c.clock);
      assert At(key).members == Seen(old(At(key)), c) && Live(At(key), c.clock) == At(key);
      if fault == Some(1) {
        return true;
      }
      var count := ZCard(key, c.clock);
      if fault == Some(2) {
        return true;
      }
      ZAdd(key, c.now, c.clock);
      if fault == Some(3) {
        return true;
      }
      Expire(key, EXPIRY_MS, c.clock);
      return fault.Some? || count < c.rate;
    }
  }

  lemma KeysDiffer(tokenName: string)
    ensures forall token :: token != tokenName ==> "ratelimit:" + token != "ratelimit:" + tokenName
  {
    forall token: string | "ratelimit:" + token == "ratelimit:" + tokenName
      ensures token == tokenName
    {
      assert ("ratelimit:" + token)[10..] == token && ("ratelimit:" + tokenName)[10..] == tokenName;
    }
  }

  // Whole traces of one token.

  /** The sorted set after a trace. */
  function After(calls: seq<Call>): SortedSet {
    if calls == [] then MISSING else Step(After(calls[..|calls| - 1]), calls[|calls| - 1])
  }

  predicate Admitted(calls: seq<Call>, i: nat)
    requires i < |calls|
  {
    |Seen(After(calls[..i]), calls[i])| < calls[i].rate
  }

  /** Callers' clocks start at 0 and never run backwards, and from one call to the next the server's clock gains at
      most a minute on them. */
  predicate Timely(calls: seq<Call>) {
    && (forall i :: 0 <= i < |calls| ==> calls[i].now >= 0)
    && (forall i, j :: 0 <= i <= j < |calls| ==> calls[i].now <= calls[j].now)
    && (forall i, j :: 0 <= i < |calls| && j == i + 1 < |calls| ==>
          calls[j].clock - calls[i].clock < calls[j].now - calls[i].now + EXPIRY_MS - WINDOW_MS)
  }

  /** The distinct milliseconds of the first n calls that lie less than a minute before `now`. */
  function Recent(calls: seq<Call>, n: nat, now: int): set<int>
    requires n <= |calls|
  {
    set j | 0 <= j < n && calls[j].now > now - WINDOW_MS :: calls[j].now
  }

  lemma PurgedRecent(calls: seq<Call>, n: nat, earlier: int, now: int)
    requires n <= |calls| && earlier <= now && forall i :: 0 <= i < |calls| ==> calls[i].now >= 0
    ensures Purged(Recent(calls, n, earlier), now) == Recent(calls, n, now)
  {
    var purged, recent := Purged(Recent(calls, n, earlier), now), Recent(calls, n, now);
    forall m
      ensures m in purged <==> m in recent
    {
      if m in purged {
        var j :| 0 <= j < n && calls[j].now > earlier - WINDOW_MS && calls[j].now == m;
        assert calls[j].now in recent;
      }
    }
  }

  lemma NothingRecent(calls: seq<Call>, n: nat, now: int)
    requires n <= |calls| && forall j :: 0 <= j < n ==> calls[j].now <= now - WINDOW_MS
    ensures Recent(calls, n, now) == {}
  {
  }

  /** The set and its deadline after a trace whose last call is `last`. */
  ghost predicate HoldsRecent(z: SortedSet, calls: seq<Call>, n: nat, last: Call)
    requires n <= |calls|
  {
    z.members == Recent(calls, n, last.now) && z.deadline == Some(last.clock + EXPIRY_MS)
  }

  lemma NextSeen(z: SortedSet, calls: seq<Call>, i: nat)
    requires Timely(calls) && 0 < i < |calls| && HoldsRecent(z, calls, i, calls[i - 1])
    ensures Seen(z, calls[i]) == Recent(calls, i, calls[i].now)
  {
    if calls[i - 1].clock + EXPIRY_MS > calls[i].clock {
      PurgedRecent(calls, i, calls[i - 1].now, calls[i].now);
    } else {
      NothingRecent(calls, i, calls[i].now);
    }
  }

  lemma RecentMore(calls: seq<Call>, n: nat, now: int)
    requires n < |calls| && calls[n].now > now - WINDOW_MS
    ensures Recent(calls, n + 1, now) == Recent(calls, n, now) + {calls[n].now}
  {
  }

  lemma {:induction false} SetHoldsRecent(calls: seq<Call>, n: nat)
    requires Timely(calls) && 0 < n <= |calls|
    ensures HoldsRecent(After(calls[..n]), calls, n, calls[n - 1])
    decreases n, 0
  {
    SeenIsRecent(calls, n - 1);
    RecentMore(calls, n - 1, calls[n - 1].now);
    assert calls[..n][..n - 1] == calls[..n - 1];
  }

  /** The count that decides a request is the number of distinct milliseconds in which the token made a request,
      admitted or not, within the last minute. In particular the expiry of the key never changes an answer. */
  lemma {:induction false} SeenIsRecent(calls: seq<Call>, i: nat)
    requires Timely(calls) && i < |calls|
    ensures Seen(After(calls[..i]), calls[i]) == Recent(calls, i, calls[i].now)
    decreases i, 1
  {
    if i > 0 {
      SetHoldsRecent(calls, i);
      NextSeen(After(calls[..i]), calls, i);
    }
  }

  // The bound.

  /** The milliseconds of the window (t - 60000, t] in which a request was admitted. */
  function AdmittedIn(calls: seq<Call>, t: int): set<int> {
    set i | 0 <= i < |calls| && Admitted(calls, i) && t - WINDOW_MS < calls[i].now <= t :: calls[i].now
  }

  lemma {:induction false} GreatestOf(s: set<int>) returns (m: int)
    requires |s| > 0
    ensures m in s && forall x :: x in s ==> x <= m
    decreases |s|
  {
    assert (forall x :: x !in s) ==> s == {};
    assert exists x :: x in s;
    m :| m in s;
    var rest := s - {m};
    assert s == rest + {m};
    if |rest| > 0 {
      var n := GreatestOf(rest);
      m := if m < n then n else m;
    }
  }

  lemma SubsetSize<T>(a: set<T>, b: set<T>)
    requires a <= b
    ensures |a| <= |b|
  {
    assert b == a + (b - a);
  }

  /** With limits of at most r the requests of a token are admitted in at most r distinct milliseconds of any window
      of one minute. */
  lemma SlidingWindowBound(calls: seq<Call>, r: int, t: int)
    requires Timely(calls) && forall i :: 0 <= i < |calls| ==> calls[i].rate <= r
    ensures |AdmittedIn(calls, t)| <= if r < 0 then 0 else r
  {
    var admitted := AdmittedIn(calls, t);
    if admitted != {} {
      var last := GreatestOf(admitted);
      var i :| 0 <= i < |calls| && Admitted(calls, i) && t - WINDOW_MS < calls[i].now <= t && calls[i].now == last;
      SeenIsRecent(calls, i);
      var seen := Recent(calls, i, last);
      forall m | m in admitted && m != last
        ensures m in seen
      {
        var j :| 0 <= j < |calls| && Admitted(calls, j) && t - WINDOW_MS < calls[j].now <= t && calls[j].now == m;
        assert j < i;
      }
      SubsetSize(admitted, seen + {last});
    }
  }

  /** The admitted requests of the window. */
  function RequestsIn(calls: seq<Call>, t: int): set<int> {
    set i | 0 <= i < |calls| && Admitted(calls, i) && t - WINDOW_MS < calls[i].now <= t
  }

  function Burst(c: Call, k: nat): (calls: seq<Call>)
    ensures |calls| == k && forall i :: 0 <= i < k ==> calls[i] == c
  {
    seq(k, i => c)
  }

  /** Requests of one millisecond share a member of the set, so a token whose limit is at least two may make any
      number of them at once. */
  lemma BurstIsAdmitted(c: Call, k: nat, i: nat)
    requires c.now >= 0 && c.rate >= 2 && i < k
    ensures Timely(Burst(c, k)) && Admitted(Burst(c, k), i)
  {
    var calls := Burst(c, k);
    SeenIsRecent(calls, i);
    SubsetSize(Recent(calls, i, c.now), {c.now});
  }

  function Below(k: nat): (s: set<int>)
    ensures |s| == k && forall i :: i in s <==> 0 <= i < k
  {
    if k == 0 then {} else Below(k - 1) + {k - 1}
  }

  /** Counted in requests, and not in milliseconds, the limit r bounds every window of every trace exactly when r is
      at most one. */
  lemma RequestsBoundedIffRateAtMostOne(r: nat)
    ensures r <= 1 <==>
            forall calls: seq<Call>, t: int ::
              Timely(calls) && (forall i :: 0 <= i < |calls| ==> calls[i].rate == r) ==> |RequestsIn(calls, t)| <= r
  {
    if r <= 1 {
      forall calls: seq<Call>, t: int | Timely(calls) && forall i :: 0 <= i < |calls| ==> calls[i].rate == r
        ensures |RequestsIn(calls, t)| <= r
      {
        AtMostOneRequest(calls, r, t);
      }
    } else {
      var c := Call(0, 0, r);
      var calls := Burst(c, r + 1);
      forall i | 0 <= i < r + 1
        ensures Admitted(calls, i)
      {
        BurstIsAdmitted(c, r + 1, i);
      }
      assert Timely(calls);
      assert RequestsIn(calls, 0) == Below(r + 1);
    }
  }

  lemma QuietMinute(calls: seq<Call>, i: nat)
    requires i < |calls| && |Recent(calls, i, calls[i].now)| == 0
    ensures forall j :: 0 <= j < i ==> calls[j].now <= calls[i].now - WINDOW_MS
  {
    forall j | 0 <= j < i
      ensures calls[j].now <= calls[i].now - WINDOW_MS
    {
      assert calls[j].now !in Recent(calls, i, calls[i].now);
    }
  }

  lemma AtMostOneRequest(calls: seq<Call>, r: nat, t: int)
    requires r <= 1 && Timely(calls) && forall i :: 0 <= i < |calls| ==> calls[i].rate == r
    ensures |RequestsIn(calls, t)| <= r
  {
    var requests := RequestsIn(calls, t);
    if requests != {} {
      var i := GreatestOf(requests);
      SeenIsRecent(calls, i);
      QuietMinute(calls, i);
      SubsetSize(requests, {i});
    }
  }

  // Rejected requests.

  /** A rejected request occupies the window like an admitted one: a client that keeps every r-th request less than a
      minute behind, in distinct milliseconds, is served r times and never again. */
  lemma RetryingTooFastStarves(calls: seq<Call>, r: nat, i: nat)
    requires Timely(calls) && i < |calls| && calls[i].rate == r
    requires forall j, k :: 0 <= j < k < |calls| ==> calls[j].now < calls[k].now
    requires forall j :: r <= j < |calls| ==> calls[j].now - calls[j - r].now < WINDOW_MS
    ensures Admitted(calls, i) <==> i < r
  {
    SeenIsRecent(calls, i);
    if i < r {
      RecentAtMost(calls, i, calls[i].now);
    } else {
      assert calls[i].now - calls[i - r].now < WINDOW_MS;
      RecentAtLeast(calls, i - r, i, calls[i].now);
    }
  }

  lemma {:induction false} RecentAtMost(calls: seq<Call>, n: nat, now: int)
    requires n <= |calls|
    ensures |Recent(calls, n, now)| <= n
  {
    if n > 0 {
      RecentAtMost(calls, n - 1, now);
      SubsetSize(Recent(calls, n, now), Recent(calls, n - 1, now) + {calls[n - 1].now});
    }
  }

  lemma {:induction false} RecentAtLeast(calls: seq<Call>, from: nat, n: nat, now: int)
    requires from <= n <= |calls|
    requires forall j, k :: 0 <= j < k < |calls| ==> calls[j].now < calls[k].now
    requires forall j :: from <= j < n ==> calls[j].now > now - WINDOW_MS
    ensures |Recent(calls, n, now)| >= n - from
    decreases n
  {
    if from < n {
      RecentAtLeast(calls, from, n - 1, now);
      var latest := calls[n - 1].now;
      assert latest !in Recent(calls, n - 1, now);
      SubsetSize(Recent(calls, n - 1, now) + {latest}, Recent(calls, n, now));
    }
  }
}
