/** How many milliseconds a whole minute lets through when pipelines interleave
    (internal/middleware/ratelimit_redis.go). In a window of a minute requests can wait while a later one removes what
    they should count, so more pass than in a shorter window. */
module RateMinute {
  import opened Wrappers
  import opened RateLimit
  import opened RateInterleaving

  // The upper bound: what is admitted is in the set, or in flight, or has been removed by a later request.

  /** What a request has added is in the set until it is a minute old. */
  ghost predicate Kept(s: State) {
    forall i :: 0 <= i < |s.requests| && s.requests[i].stage in {Added, Done} ==>
      s.requests[i].now in s.key.members || s.requests[i].now <= s.now - WINDOW_MS
  }

  lemma LiveKeeps(s: State, k: nat, d: nat)
    requires Orderly(s, k, d) && Expirable(s) && d <= WINDOW_MS
    ensures forall m :: m in s.key.members ==> m in Live(s.key, s.now).members || m <= s.now - WINDOW_MS
  {
    if s.key.deadline.Some? && s.key.deadline.value <= s.now {
      ExpiredIsOld(s, k, d);
    }
  }

  lemma StepKeepsKept(s: State, e: Step, k: nat, d: nat)
    requires Orderly(s, k, d) && Expirable(s) && d <= WINDOW_MS && Enabled(s, e, k, d) && Kept(s)
    ensures Kept(Apply(s, e))
  {
    LiveKeeps(s, k, d);
    var t := Apply(s, e);
    forall j | 0 <= j < |t.requests| && t.requests[j].stage in {Added, Done}
      ensures t.requests[j].now in t.key.members || t.requests[j].now <= t.now - WINDOW_MS
    {
      assert j < |s.requests| && t.requests[j].now == s.requests[j].now;
    }
  }

  /** Only a count lets a request pass. */
  lemma AdmittedSame(s: State, e: Step, rate: int, lo: int, hi: int, k: nat, d: nat)
    requires Enabled(s, e, k, d)
    requires e.Count? ==> !(Passed(Apply(s, e).requests[e.id], rate) && lo < s.requests[e.id].now <= hi)
    ensures LetThrough(Apply(s, e), rate, lo, hi) == LetThrough(s, rate, lo, hi)
  {
    var t := Apply(s, e);
    assert forall j :: 0 <= j < |s.requests| && (e.Tick? || e.Begin? || j != e.id) ==> t.requests[j] == s.requests[j];
    assert forall j :: 0 <= j < |s.requests| ==> t.requests[j].now == s.requests[j].now;
    assert e.Begin? ==> !Passed(t.requests[|s.requests|], rate);
  }

  lemma ThreeParts(a: set<int>, x: set<int>, y: set<int>, z: set<int>)
    requires a <= x + y + z
    ensures |a| <= |x| + |y| + |z|
  {
    SubsetSize(a, x + y + z);
  }

  /** What the minute has let through at a count is counted, or a minute old by then, or in flight. */
  lemma SeenOldOrCurrent(s: State, i: nat, rate: int, hi: int, k: nat, d: nat, m: int)
    requires Orderly(s, k, d) && Expirable(s) && d <= WINDOW_MS && Kept(s) && Enabled(s, Count(i), k, d)
    requires m in LetThrough(Apply(s, Count(i)), rate, hi - WINDOW_MS, hi)
    ensures hi - WINDOW_MS < m <= hi
    ensures m in Live(s.key, s.now).members || m <= s.now - WINDOW_MS || s.now - d <= m <= s.now
  {
    var t := Apply(s, Count(i));
    LiveKeeps(s, k, d);
    var j :| 0 <= j < |t.requests| && Passed(t.requests[j], rate) && hi - WINDOW_MS < t.requests[j].now <= hi &&
             t.requests[j].now == m;
    assert s.requests[j].now == m;
  }

  /** When a request of the minute passes, it has counted all that the minute lets through but for those in flight and
      those that are already a minute old, which together lie in d + 1 milliseconds. */
  lemma CountWithinMinute(s: State, i: nat, rate: int, hi: int, k: nat, d: nat)
    requires Orderly(s, k, d) && Expirable(s) && d <= WINDOW_MS && Kept(s) && Enabled(s, Count(i), k, d)
    requires Passed(Apply(s, Count(i)).requests[i], rate) && hi - WINDOW_MS < s.requests[i].now <= hi
    ensures |LetThrough(Apply(s, Count(i)), rate, hi - WINDOW_MS, hi)| <= rate + d
  {
    var through := LetThrough(Apply(s, Count(i)), rate, hi - WINDOW_MS, hi);
    var removed := Interval(hi - WINDOW_MS + 1, if s.now > hi then s.now - hi else 0);
    var current := Interval(s.now - d, if s.now > hi then hi - s.now + d + 1 else d + 1);
    forall m | m in through
      ensures m in Live(s.key, s.now).members + removed + current
    {
      SeenOldOrCurrent(s, i, rate, hi, k, d, m);
    }
    ThreeParts(through, Live(s.key, s.now).members, removed, current);
  }

  lemma StepWithinMinute(s: State, e: Step, rate: int, hi: int, k: nat, d: nat)
    requires Orderly(s, k, d) && Expirable(s) && d <= WINDOW_MS && Kept(s) && Enabled(s, e, k, d)
    requires |LetThrough(s, rate, hi - WINDOW_MS, hi)| <= rate + d
    ensures |LetThrough(Apply(s, e), rate, hi - WINDOW_MS, hi)| <= rate + d
  {
    if e.Count? && Passed(Apply(s, e).requests[e.id], rate) && hi - WINDOW_MS < s.requests[e.id].now <= hi {
      CountWithinMinute(s, e.id, rate, hi, k, d);
    } else {
      AdmittedSame(s, e, rate, hi - WINDOW_MS, hi, k, d);
    }
  }

  lemma {:induction false} AnyOverlap(start: nat, steps: seq<Step>, s: State, rate: int, hi: int, k: nat, d: nat)
    requires rate >= 1 && d <= WINDOW_MS && Run(start, steps, k, d) == Some(s)
    ensures Kept(s) && |LetThrough(s, rate, hi - WINDOW_MS, hi)| <= rate + d
  {
    if steps == [] {
      assert LetThrough(s, rate, hi - WINDOW_MS, hi) == {};
    } else {
      var p, e := Run(start, steps[..|steps| - 1], k, d).value, steps[|steps| - 1];
      AnyOverlap(start, steps[..|steps| - 1], p, rate, hi, k, d);
      RunIsOrderly(start, steps[..|steps| - 1], p, k, d);
      StepKeepsKept(p, e, k, d);
      StepWithinMinute(p, e, rate, hi, k, d);
    }
  }

  /** With at most k pipelines in flight, none longer than d, a limit of `rate` lets at most
      rate - 1 + min(2k - 1, d + 1) distinct milliseconds through in a whole minute. */
  lemma MinuteBound(start: nat, steps: seq<Step>, s: State, rate: int, hi: int, k: nat, d: nat)
    requires rate >= 1 && k >= 1 && d <= WINDOW_MS && Run(start, steps, k, d) == Some(s)
    ensures |LetThrough(s, rate, hi - WINDOW_MS, hi)| <= rate - 1 + Spread(2 * k - 1, d)
  {
    if 2 * k - 1 <= d {
      AdmittedWithinSlack(start, steps, s, rate, hi - WINDOW_MS, hi, k, d, Spread(k, d) - 1);
    } else {
      AnyOverlap(start, steps, s, rate, hi, k, d);
    }
  }

  // A run that attains it: rate - 1 + g requests at the start of the minute, u that wait at its end, and one after it
  // that removes the first g before the others count.

  ghost predicate Clocked(s: State) {
    forall m :: m in s.key.members ==> exists j :: 0 <= j < |s.requests| && s.requests[j].now == m
  }

  lemma StepKeepsClocked(s: State, e: Step, k: nat, d: nat)
    requires Clocked(s) && Enabled(s, e, k, d)
    ensures Clocked(Apply(s, e))
  {
    var t := Apply(s, e);
    assert forall j :: 0 <= j < |s.requests| ==> t.requests[j].now == s.requests[j].now;
    forall m | m in t.key.members
      ensures exists j :: 0 <= j < |t.requests| && t.requests[j].now == m
    {
      if m in s.key.members {
        var j :| 0 <= j < |s.requests| && s.requests[j].now == m;
        assert t.requests[j].now == m;
      } else {
        assert t.requests[e.id].now == m;
      }
    }
  }

  lemma {:induction false} RunIsClocked(start: nat, steps: seq<Step>, s: State, k: nat, d: nat)
    requires Run(start, steps, k, d) == Some(s)
    ensures Clocked(s)
  {
    if steps != [] {
      var p := Run(start, steps[..|steps| - 1], k, d).value;
      RunIsClocked(start, steps[..|steps| - 1], p, k, d);
      StepKeepsClocked(p, steps[|steps| - 1], k, d);
    }
  }

  /** The i-th request: one of the n first, finished and admitted in millisecond i + 1, or one of the u at the end of
      the minute, which has passed when i is below n + q and has not begun otherwise. */
  predicate Placing(r: Request, i: nat, n: nat, u: nat, q: nat, rate: int) {
    if i < n then r.now == i + 1 && r.stage.Done? && Passed(r, rate)
    else
      && r.now == WINDOW_MS - u + 1 + (i - n)
      && if i < n + q then r.stage.Counted? && Passed(r, rate) else r.stage.Sent?
  }

  /** The first n requests are done, and p of the u others have begun. */
  ghost predicate Late(s: State, n: nat, u: nat, p: nat, rate: int) {
    && |s.requests| == n + p && s.now == WINDOW_MS - u + p
    && (forall i {:trigger s.requests[i]} :: 0 <= i < n + p ==> Placing(s.requests[i], i, n, u, 0, rate))
    && s.key.members <= Interval(1, n)
  }

  /** All have begun, a later one has removed the first g milliseconds, and q of the u have counted what is left. */
  ghost predicate Overtaken(s: State, n: nat, u: nat, q: nat, g: nat, rate: int)
    requires rate >= 1
  {
    && |s.requests| == n + u + 1
    && (forall i {:trigger s.requests[i]} :: 0 <= i < n + u ==> Placing(s.requests[i], i, n, u, q, rate))
    && s.key.members <= Interval(g + 1, rate - 1)
  }

  lemma Early(n: nat, g: nat, u: nat, rate: nat, k: nat, d: nat) returns (steps: seq<Step>, s: State)
    requires rate >= 1 && 1 <= g <= Spread(k, d) && n == rate - 1 + g && n + u <= WINDOW_MS
    ensures Run(0, steps, k, d) == Some(s) && Late(s, n, u, 0, rate)
  {
    steps, s := OverlappingRequestsPass(rate, g, k, d);
    RunIsClocked(0, steps, s, k, d);
    forall i | 0 <= i < n
      ensures s.requests[i].stage.Done?
    {
      assert i !in InFlight(s);
    }
    Extend(steps, s, Tick(WINDOW_MS - u - n), k, d);
    steps, s := steps + [Tick(WINDOW_MS - u - n)], Apply(s, Tick(WINDOW_MS - u - n));
  }

  lemma BeginLate(steps: seq<Step>, s: State, n: nat, u: nat, p: nat, rate: int, k: nat, d: nat)
      returns (steps': seq<Step>, s': State)
    requires Run(0, steps, k, d) == Some(s) && Late(s, n, u, p, rate) && p < u <= k && u <= d + 1
    ensures Run(0, steps', k, d) == Some(s') && Late(s', n, u, p + 1, rate)
  {
    assert forall i :: 0 <= i < |s.requests| ==> Placing(s.requests[i], i, n, u, 0, rate);
    SubsetSize(InFlight(s), Interval(n, p));
    Extend(steps, s, Tick(1), k, d);
    var t := Apply(s, Tick(1));
    assert InFlight(t) == InFlight(s);
    Extend(steps + [Tick(1)], t, Begin, k, d);
    steps', s' := steps + [Tick(1)] + [Begin], Apply(t, Begin);
    assert forall i :: 0 <= i < n + p ==> s'.requests[i] == s.requests[i];
  }

  lemma {:induction false} AllLate(n: nat, g: nat, u: nat, p: nat, rate: nat, k: nat, d: nat)
      returns (steps: seq<Step>, s: State)
    requires rate >= 1 && 1 <= g <= Spread(k, d) && n == rate - 1 + g && n + u <= WINDOW_MS
    requires p <= u <= k && u <= d + 1
    ensures Run(0, steps, k, d) == Some(s) && Late(s, n, u, p, rate)
  {
    if p == 0 {
      steps, s := Early(n, g, u, rate, k, d);
    } else {
      steps, s := AllLate(n, g, u, p - 1, rate, k, d);
      steps, s := BeginLate(steps, s, n, u, p - 1, rate, k, d);
    }
  }

  lemma LaterRemoves(s: State, n: nat, g: nat, u: nat, rate: int)
    requires rate >= 1 && n == rate - 1 + g && g >= 1
    requires |s.requests| == n + u + 1 && s.requests[n + u] == Request(WINDOW_MS + g, Sent, 0)
    requires forall i :: 0 <= i < n + u ==> Placing(s.requests[i], i, n, u, 0, rate)
    requires s.key.members <= Interval(1, n)
    ensures Overtaken(Apply(s, Trim(n + u)), n, u, 0, g, rate)
  {
    var t := Apply(s, Trim(n + u));
    assert forall i :: 0 <= i < n + u ==> t.requests[i] == s.requests[i];
  }

  /** The request after the minute begins and removes what is a minute old to it. */
  lemma Overtake(steps: seq<Step>, s: State, n: nat, g: nat, u: nat, rate: int, k: nat, d: nat)
      returns (steps': seq<Step>, s': State)
    requires Run(0, steps, k, d) == Some(s) && Late(s, n, u, u, rate)
    requires rate >= 1 && n == rate - 1 + g && g >= 1 && u < k && (u > 0 ==> g + u <= d + 1)
    ensures Run(0, steps', k, d) == Some(s') && Overtaken(s', n, u, 0, g, rate)
  {
    assert forall i :: 0 <= i < |s.requests| ==> Placing(s.requests[i], i, n, u, 0, rate);
    SubsetSize(InFlight(s), Interval(n, u));
    Extend(steps, s, Tick(g), k, d);
    var t := Apply(s, Tick(g));
    assert InFlight(t) == InFlight(s);
    Extend(steps + [Tick(g)], t, Begin, k, d);
    var b := Apply(t, Begin);
    assert forall i :: 0 <= i < n + u ==> b.requests[i] == s.requests[i];
    Extend(steps + [Tick(g)] + [Begin], b, Trim(n + u), k, d);
    LaterRemoves(b, n, g, u, rate);
    steps', s' := steps + [Tick(g)] + [Begin] + [Trim(n + u)], Apply(b, Trim(n + u));
  }

  /** A waiting request counts what is left. */
  lemma CountLate(steps: seq<Step>, s: State, n: nat, u: nat, q: nat, g: nat, rate: int, k: nat, d: nat)
      returns (steps': seq<Step>, s': State)
    requires Run(0, steps, k, d) == Some(s) && rate >= 1 && Overtaken(s, n, u, q, g, rate) && q < u
    ensures Run(0, steps', k, d) == Some(s') && Overtaken(s', n, u, q + 1, g, rate)
  {
    var i := n + q;
    assert Placing(s.requests[i], i, n, u, q, rate);
    Extend(steps, s, Trim(i), k, d);
    var t := Apply(s, Trim(i));
    assert t.key.members <= s.key.members;
    Extend(steps + [Trim(i)], t, Count(i), k, d);
    steps', s' := steps + [Trim(i)] + [Count(i)], Apply(t, Count(i));
    SubsetSize(Live(t.key, t.now).members, Interval(g + 1, rate - 1));
    assert forall j :: 0 <= j < n + u && j != i ==> s'.requests[j] == s.requests[j];
    forall j | 0 <= j < n + u
      ensures Placing(s'.requests[j], j, n, u, q + 1, rate)
    {
      assert Placing(s.requests[j], j, n, u, q, rate);
    }
  }

  lemma {:induction false} CountAllLate(steps: seq<Step>, s: State, n: nat, u: nat, q: nat, g: nat, rate: int, k: nat,
                                        d: nat)
      returns (steps': seq<Step>, s': State)
    requires Run(0, steps, k, d) == Some(s) && rate >= 1 && Overtaken(s, n, u, 0, g, rate) && q <= u
    ensures Run(0, steps', k, d) == Some(s') && Overtaken(s', n, u, q, g, rate)
  {
    if q == 0 {
      steps', s' := steps, s;
    } else {
      steps', s' := CountAllLate(steps, s, n, u, q - 1, g, rate, k, d);
      steps', s' := CountLate(steps', s', n, u, q - 1, g, rate, k, d);
    }
  }

  /** The same requests, and those that had passed are still passed. */
  predicate Continues(s: State, t: State, rate: int) {
    && |t.requests| == |s.requests|
    && forall i :: 0 <= i < |s.requests| ==>
         t.requests[i].now == s.requests[i].now && (Passed(s.requests[i], rate) ==> Passed(t.requests[i], rate))
  }

  function Left(st: Stage): nat {
    match st case Sent => 4 case Cleaned => 3 case Counted => 2 case Added => 1 case Done => 0
  }

  /** Any request can finish, whatever else is in flight. */
  lemma {:induction false} FinishRequest(steps: seq<Step>, s: State, i: nat, rate: int, k: nat, d: nat)
      returns (steps': seq<Step>, s': State)
    requires Run(0, steps, k, d) == Some(s) && i < |s.requests|
    ensures Run(0, steps', k, d) == Some(s') && Continues(s, s', rate) && s'.requests[i].stage.Done?
    ensures forall j :: 0 <= j < |s.requests| && j != i ==> s'.requests[j] == s.requests[j]
    decreases Left(s.requests[i].stage)
  {
    if s.requests[i].stage.Done? {
      steps', s' := steps, s;
    } else {
      var e := Command(s.requests[i].stage, i);
      Extend(steps, s, e, k, d);
      CommandEffect(s, i, s.requests[i].stage);
      steps', s' := FinishRequest(steps + [e], Apply(s, e), i, rate, k, d);
    }
  }

  lemma {:induction false} FinishAll(steps: seq<Step>, s: State, n: nat, rate: int, k: nat, d: nat)
      returns (steps': seq<Step>, s': State)
    requires Run(0, steps, k, d) == Some(s) && n <= |s.requests|
    ensures Run(0, steps', k, d) == Some(s') && Continues(s, s', rate)
    ensures forall i :: 0 <= i < n ==> s'.requests[i].stage.Done?
  {
    if n == 0 {
      steps', s' := steps, s;
    } else {
      var steps1, s1 := FinishAll(steps, s, n - 1, rate, k, d);
      steps', s' := FinishRequest(steps1, s1, n - 1, rate, k, d);
    }
  }

  lemma BothEnds(s: State, n: nat, u: nat, q: nat, rate: int)
    requires n + u <= |s.requests| && n + u <= WINDOW_MS
    requires forall i :: 0 <= i < n ==> s.requests[i].now == i + 1 && Passed(s.requests[i], rate)
    requires forall i :: n <= i < n + u ==>
               s.requests[i].now == WINDOW_MS - u + 1 + (i - n) && Passed(s.requests[i], rate)
    ensures n + u <= |LetThrough(s, rate, 0, WINDOW_MS)|
  {
    var first, last := Interval(1, n), Interval(WINDOW_MS - u + 1, u);
    forall m | m in first + last
      ensures m in LetThrough(s, rate, 0, WINDOW_MS)
    {
      var i := if m in first then m - 1 else n + (m - (WINDOW_MS - u + 1));
      assert s.requests[i].now == m;
    }
    assert |first + last| == |first| + |last|;
    SubsetSize(first + last, LetThrough(s, rate, 0, WINDOW_MS));
  }

  /** The bound is attained, by a run of finished requests. */
  lemma MinuteBoundIsTight(rate: nat, k: nat, d: nat) returns (steps: seq<Step>, s: State)
    requires rate >= 1 && k >= 1 && d <= WINDOW_MS && rate - 1 + Spread(2 * k - 1, d) <= WINDOW_MS
    ensures Run(0, steps, k, d) == Some(s) && InFlight(s) == {}
    ensures |LetThrough(s, rate, 0, WINDOW_MS)| == rate - 1 + Spread(2 * k - 1, d)
  {
    var g := Spread(k, d);
    var n, u := rate - 1 + g, Spread(2 * k - 1, d) - g;
    steps, s := AllLate(n, g, u, u, rate, k, d);
    steps, s := Overtake(steps, s, n, g, u, rate, k, d);
    steps, s := CountAllLate(steps, s, n, u, u, g, rate, k, d);
    var t := s;
    steps, s := FinishAll(steps, s, |s.requests|, rate, k, d);
    forall i | 0 <= i < n + u
      ensures s.requests[i].now == t.requests[i].now && Passed(s.requests[i], rate)
    {
      assert Placing(t.requests[i], i, n, u, u, rate);
    }
    assert forall i :: 0 <= i < n + u ==> Placing(t.requests[i], i, n, u, u, rate);
    BothEnds(s, n, u, 0, rate);
    MinuteBound(0, steps, s, rate, WINDOW_MS, k, d);
  }
}
