/** The rate limiter when the commands of several requests interleave: a Redis pipeline is not a transaction
    (internal/middleware/ratelimit_redis.go). One token with one limit; every pipeline ends within `d` milliseconds of
    reading the clock, and at most `k` of them are in flight at once. */
module RateInterleaving {
  import opened Wrappers
  import opened RateLimit

  /** What a request has done: read the clock, trimmed the set, counted it, added itself, set the expiry. */
  datatype Stage = Sent | Cleaned | Counted | Added | Done

  /** `count` is the answer of ZCARD once the request has it. */
  datatype Request = Request(now: int, stage: Stage, count: nat)

  datatype State = State(now: int, key: SortedSet, requests: seq<Request>)

  datatype Step = Tick(ms: nat) | Begin | Trim(id: nat) | Count(id: nat) | Add(id: nat) | Expire(id: nat)

  predicate Enabled(s: State, e: Step, k: nat, d: nat) {
    match e
    case Tick(ms) =>
      forall i :: 0 <= i < |s.requests| && !s.requests[i].stage.Done? ==> s.now + ms <= s.requests[i].now + d
    case Begin => |InFlight(s)| < k
    case Trim(i) => i < |s.requests| && s.requests[i].stage.Sent?
    case Count(i) => i < |s.requests| && s.requests[i].stage.Cleaned?
    case Add(i) => i < |s.requests| && s.requests[i].stage.Counted?
    case Expire(i) => i < |s.requests| && s.requests[i].stage.Added?
  }

  function InFlight(s: State): set<nat> {
    set i: nat | i < |s.requests| && !s.requests[i].stage.Done?
  }

  function Move(s: State, i: nat, key: SortedSet, r: Request): State
    requires i < |s.requests|
  {
    s.(key := key, requests := s.requests[i := r])
  }

  function Apply(s: State, e: Step): State
    requires (e.Trim? || e.Count? || e.Add? || e.Expire?) ==> e.id < |s.requests|
  {
    var live := Live(s.key, s.now);
    match e
    case Tick(ms) => s.(now := s.now + ms)
    case Begin => s.(requests := s.requests + [Request(s.now, Sent, 0)])
    case Trim(i) =>
      var r := s.requests[i];
      Move(s, i, Trimmed(live, 0, r.now - WINDOW_MS), r.(stage := Cleaned))
    case Count(i) => Move(s, i, live, s.requests[i].(stage := Counted, count := |live.members|))
    case Add(i) => Move(s, i, Joined(live, s.requests[i].now), s.requests[i].(stage := Added))
    case Expire(i) => Move(s, i, Expiring(live, s.now + EXPIRY_MS), s.requests[i].(stage := Done))
  }

  /** The state after a run that starts on a missing key, None when some step of it was not possible. */
  function Run(start: nat, steps: seq<Step>, k: nat, d: nat): Option<State> {
    if steps == [] then Some(State(start, MISSING, []))
    else
      var last := steps[|steps| - 1];
      match Run(start, steps[..|steps| - 1], k, d)
      case None => None
      case Some(s) => if Enabled(s, last, k, d) then Some(Apply(s, last)) else None
  }

  /** The request has an answer, and it is yes. */
  predicate Passed(r: Request, rate: int) {
    r.stage in {Counted, Added, Done} && r.count < rate
  }

  /** The distinct milliseconds of the admitted requests whose clock lies in (lo, hi]. */
  function LetThrough(s: State, rate: int, lo: int, hi: int): set<int> {
    set i | 0 <= i < |s.requests| && Passed(s.requests[i], rate) && lo < s.requests[i].now <= hi :: s.requests[i].now
  }

  // How many distinct milliseconds can be in flight.

  /** The clocks of the requests in flight. */
  function Clocks(s: State): set<int> {
    set i | i in InFlight(s) :: s.requests[i].now
  }

  function Spread(k: nat, d: nat): nat {
    if k <= d then k else d + 1
  }

  lemma {:induction false} ImageSize(s: State, ids: set<nat>)
    requires forall i :: i in ids ==> i < |s.requests|
    ensures |set i | i in ids :: s.requests[i].now| <= |ids|
    decreases |ids|
  {
    var image := set i | i in ids :: s.requests[i].now;
    if |ids| == 0 {
      assert image == {};
    } else {
      assert (forall i :: i !in ids) ==> ids == {};
      var i :| i in ids;
      var rest := ids - {i};
      ImageSize(s, rest);
      SubsetSize(image, (set j | j in rest :: s.requests[j].now) + {s.requests[i].now});
    }
  }

  function Interval(lo: int, n: nat): (r: set<int>)
    ensures |r| == n && forall x :: x in r <==> lo <= x < lo + n
  {
    if n == 0 then {} else Interval(lo, n - 1) + {lo + n - 1}
  }

  lemma ClocksSpread(s: State, k: nat, d: nat)
    requires Orderly(s, k, d)
    ensures |Clocks(s)| <= Spread(k, d)
  {
    ImageSize(s, InFlight(s));
    SubsetSize(Clocks(s), Interval(s.now - d, d + 1));
  }

  // What every step keeps: clocks and members.

  ghost predicate Orderly(s: State, k: nat, d: nat) {
    && |InFlight(s)| <= k && 0 <= s.now
    && (forall i :: 0 <= i < |s.requests| ==> 0 <= s.requests[i].now <= s.now)
    && (forall i :: 0 <= i < |s.requests| && !s.requests[i].stage.Done? ==> s.now <= s.requests[i].now + d)
    && (forall m :: m in s.key.members ==> 0 <= m <= s.now)
    && (s.key.deadline.Some? ==> s.key.deadline.value <= s.now + EXPIRY_MS)
  }

  /** When the expiry of the key was last set. */
  function SetAt(key: SortedSet): int
    requires key.deadline.Some?
  {
    key.deadline.value - EXPIRY_MS
  }

  /** A request that has trimmed the set and is not finished. */
  predicate Working(r: Request) {
    r.stage in {Cleaned, Counted, Added}
  }

  /** r will set the expiry anew before the present one takes effect. */
  predicate Renews(r: Request, key: SortedSet)
    requires key.deadline.Some?
  {
    Working(r) && SetAt(key) < r.now < SetAt(key) + WINDOW_MS
  }

  ghost predicate Renewed(s: State)
    requires s.key.deadline.Some?
  {
    exists j :: 0 <= j < |s.requests| && Renews(s.requests[j], s.key)
  }

  /** A member younger than the expiry belongs to a request that will still set it, and a request that works on the
      set although the expiry was set a minute before its clock is not alone. */
  ghost predicate Expirable(s: State) {
    s.key.deadline.Some? ==>
      && (forall m :: m in s.key.members && m > SetAt(s.key) ==> OwnedBy(s, m))
      && ((exists i :: 0 <= i < |s.requests| && Working(s.requests[i]) && s.requests[i].now > SetAt(s.key)) ==>
            Renewed(s))
  }

  ghost predicate OwnedBy(s: State, m: int) {
    exists j :: 0 <= j < |s.requests| && s.requests[j].stage.Added? && s.requests[j].now == m
  }

  lemma ExpiredIsOld(s: State, k: nat, d: nat)
    requires Orderly(s, k, d) && Expirable(s) && d <= WINDOW_MS
    requires s.key.deadline.Some? && s.key.deadline.value <= s.now
    ensures forall m :: m in s.key.members ==> m <= s.now - EXPIRY_MS
  {
    assert !Renewed(s);
    assert forall i :: 0 <= i < |s.requests| && Working(s.requests[i]) ==> s.requests[i].now <= SetAt(s.key);
    assert forall m :: OwnedBy(s, m) ==> m <= SetAt(s.key);
  }

  /** Every command begins by dropping an expired key. */
  function Lapsed(s: State): State {
    s.(key := Live(s.key, s.now))
  }

  lemma LapsedKeeps(s: State, k: nat, d: nat)
    requires Orderly(s, k, d) && Expirable(s)
    ensures Orderly(Lapsed(s), k, d) && Expirable(Lapsed(s))
  {
    if Live(s.key, s.now) == s.key {
      assert Lapsed(s) == s;
    } else {
      assert InFlight(Lapsed(s)) == InFlight(s);
    }
  }

  lemma InFlightStep(s: State, e: Step, k: nat, d: nat)
    requires |InFlight(s)| <= k && Enabled(s, e, k, d)
    ensures |InFlight(Apply(s, e))| <= k
  {
    if e.Begin? {
      assert InFlight(Apply(s, e)) == InFlight(s) + {|s.requests|};
    } else {
      SubsetSize(InFlight(Apply(s, e)), InFlight(s));
    }
  }

  lemma StepKeepsOrder(s: State, e: Step, k: nat, d: nat)
    requires Orderly(s, k, d) && Enabled(s, e, k, d)
    ensures Orderly(Apply(s, e), k, d)
  {
    InFlightStep(s, e, k, d);
  }

  lemma TickKeepsExpirable(s: State, ms: nat)
    requires Expirable(s)
    ensures Expirable(Apply(s, Tick(ms)))
  {
    var t := Apply(s, Tick(ms));
    if s.key.deadline.Some? {
      forall m | m in t.key.members && m > SetAt(t.key)
        ensures OwnedBy(t, m)
      {
        assert OwnedBy(s, m);
      }
      if Renewed(s) {
        var j :| 0 <= j < |s.requests| && Renews(s.requests[j], s.key);
        assert Renews(t.requests[j], t.key);
      }
    }
  }

  lemma BeginKeepsExpirable(s: State)
    requires Expirable(s)
    ensures Expirable(Apply(s, Begin))
  {
    var t := Apply(s, Begin);
    if s.key.deadline.Some? {
      forall m | m in t.key.members && m > SetAt(t.key)
        ensures OwnedBy(t, m)
      {
        assert OwnedBy(s, m);
        var j :| 0 <= j < |s.requests| && s.requests[j].stage.Added? && s.requests[j].now == m;
        assert t.requests[j] == s.requests[j];
      }
      if Renewed(s) {
        var j :| 0 <= j < |s.requests| && Renews(s.requests[j], s.key);
        assert Renews(t.requests[j], t.key);
      }
    }
  }

  /** Steps of a request that is not finished by them leave its clock, and with it what it owns and renews. */
  lemma SameOwners(s: State, t: State, i: nat)
    requires i < |s.requests| == |t.requests| && t.requests == s.requests[i := t.requests[i]]
    requires t.requests[i].now == s.requests[i].now && s.key.deadline == t.key.deadline && s.key.deadline.Some?
    requires !s.requests[i].stage.Added? && Working(t.requests[i])
    ensures forall m :: OwnedBy(s, m) ==> OwnedBy(t, m)
    ensures Renewed(s) ==> Renewed(t)
  {
    forall m | OwnedBy(s, m)
      ensures OwnedBy(t, m)
    {
      var j :| 0 <= j < |s.requests| && s.requests[j].stage.Added? && s.requests[j].now == m;
      assert t.requests[j] == s.requests[j];
    }
    if Renewed(s) {
      var j :| 0 <= j < |s.requests| && Renews(s.requests[j], s.key);
      assert Renews(t.requests[j], t.key);
    }
  }

  lemma TrimKeepsExpirable(s: State, i: nat)
    requires Expirable(s) && s.key == Live(s.key, s.now) && i < |s.requests| && s.requests[i].stage.Sent?
    requires forall m :: m in s.key.members ==> 0 <= m
    ensures Expirable(Apply(s, Trim(i)))
  {
    var t, r := Apply(s, Trim(i)), s.requests[i];
    if t.key.deadline.Some? {
      SameOwners(s, t, i);
      if Working(t.requests[i]) && r.now > SetAt(t.key) && !Renews(t.requests[i], t.key) {
        var m :| m in t.key.members;
        assert m > r.now - WINDOW_MS >= SetAt(s.key);
        assert OwnedBy(s, m);
        var j :| 0 <= j < |s.requests| && s.requests[j].stage.Added? && s.requests[j].now == m;
        assert Working(s.requests[j]);
        assert Renewed(s);
      }
      if exists j :: 0 <= j < |t.requests| && Working(t.requests[j]) && t.requests[j].now > SetAt(t.key) {
        var j :| 0 <= j < |t.requests| && Working(t.requests[j]) && t.requests[j].now > SetAt(t.key);
        if j != i {
          assert Working(s.requests[j]);
        } else if Renews(t.requests[i], t.key) {
          assert Renewed(t);
        }
      }
    }
  }

  lemma WorkKeepsExpirable(s: State, e: Step)
    requires Expirable(s) && s.key == Live(s.key, s.now) && (e.Count? || e.Add?) && e.id < |s.requests|
    requires s.requests[e.id].stage == if e.Count? then Cleaned else Counted
    ensures Expirable(Apply(s, e))
  {
    var t, i := Apply(s, e), e.id;
    if t.key.deadline.Some? {
      SameOwners(s, t, i);
      forall m | m in t.key.members && m > SetAt(t.key)
        ensures OwnedBy(t, m)
      {
        if m in s.key.members {
          assert OwnedBy(s, m);
        } else {
          assert t.requests[i].stage.Added? && t.requests[i].now == m;
        }
      }
      assert forall j :: 0 <= j < |t.requests| && Working(t.requests[j]) ==>
               Working(s.requests[j]) && s.requests[j].now == t.requests[j].now;
    }
  }

  lemma ExpireKeepsExpirable(s: State, i: nat, k: nat, d: nat)
    requires Orderly(s, k, d) && s.key == Live(s.key, s.now) && i < |s.requests|
    ensures Expirable(Apply(s, Expire(i)))
  {
    assert Apply(s, Expire(i)).key.deadline.Some? ==> SetAt(Apply(s, Expire(i)).key) == s.now;
  }

  lemma StepKeepsExpirable(s: State, e: Step, k: nat, d: nat)
    requires Orderly(s, k, d) && Expirable(s) && Enabled(s, e, k, d)
    ensures Expirable(Apply(s, e))
  {
    LapsedKeeps(s, k, d);
    var l := Lapsed(s);
    match e
    case Tick(ms) => TickKeepsExpirable(s, ms);
    case Begin => BeginKeepsExpirable(s);
    case Trim(i) =>
      TrimKeepsExpirable(l, i);
      assert Apply(l, e) == Apply(s, e);
    case Count(i) =>
      WorkKeepsExpirable(l, e);
      assert Apply(l, e) == Apply(s, e);
    case Add(i) =>
      WorkKeepsExpirable(l, e);
      assert Apply(l, e) == Apply(s, e);
    case Expire(i) =>
      ExpireKeepsExpirable(l, i, k, d);
      assert Apply(l, e) == Apply(s, e);
  }

  // What every step keeps: one window (lo, hi].

  /** The milliseconds in the window of requests that have no answer yet. */
  function Waiting(s: State, lo: int, hi: int): set<int> {
    set i | 0 <= i < |s.requests| && s.requests[i].stage in {Sent, Cleaned} && lo < s.requests[i].now <= hi ::
      s.requests[i].now
  }

  /** Some request has removed members of the window. */
  predicate Passing(s: State, lo: int) {
    exists i :: 0 <= i < |s.requests| && !s.requests[i].stage.Sent? && s.requests[i].now - WINDOW_MS > lo
  }

  /** The window's requests are in the set from the moment they are added. */
  predicate Recorded(s: State, lo: int, hi: int) {
    forall i :: 0 <= i < |s.requests| && s.requests[i].stage in {Added, Done} && lo < s.requests[i].now <= hi ==>
      s.requests[i].now in s.key.members
  }

  ghost predicate WindowOk(s: State, rate: int, lo: int, hi: int, bound: int, slack: nat) {
    if Passing(s, lo) then |LetThrough(s, rate, lo, hi) + Waiting(s, lo, hi)| <= bound + slack
    else Recorded(s, lo, hi) && |LetThrough(s, rate, lo, hi)| <= bound
  }

  /** A window of at most a minute: either shorter than that by d, or with slack for the requests that are still
      waiting when a later one removes members of the window. */
  predicate Sized(lo: int, hi: int, k: nat, d: nat, slack: nat) {
    d <= WINDOW_MS && lo >= hi - WINDOW_MS && (lo >= hi - WINDOW_MS + d || slack >= Spread(k, d) - 1)
  }

  function Bound(rate: int, k: nat, d: nat): int {
    rate - 1 + Spread(k, d)
  }

  lemma TickKeepsWindow(s: State, ms: nat, rate: int, lo: int, hi: int, bound: int, slack: nat)
    requires WindowOk(s, rate, lo, hi, bound, slack)
    ensures WindowOk(Apply(s, Tick(ms)), rate, lo, hi, bound, slack)
  {
    var t := Apply(s, Tick(ms));
    assert LetThrough(t, rate, lo, hi) == LetThrough(s, rate, lo, hi) && Waiting(t, lo, hi) == Waiting(s, lo, hi);
  }

  lemma BeginKeepsWindow(s: State, rate: int, lo: int, hi: int, bound: int, slack: nat)
    requires WindowOk(s, rate, lo, hi, bound, slack) && lo >= hi - WINDOW_MS
    requires forall i :: 0 <= i < |s.requests| ==> s.requests[i].now <= s.now
    ensures WindowOk(Apply(s, Begin), rate, lo, hi, bound, slack)
  {
    var t, n := Apply(s, Begin), |s.requests|;
    assert forall i :: 0 <= i < n ==> t.requests[i] == s.requests[i];
    assert t.requests[n].stage.Sent? && t.requests[n].now == s.now;
    assert Passing(t, lo) == Passing(s, lo);
    assert LetThrough(t, rate, lo, hi) == LetThrough(s, rate, lo, hi);
    if Passing(s, lo) {
      assert s.now > hi;
      assert Waiting(t, lo, hi) == Waiting(s, lo, hi);
    }
  }

  /** What a command of request i may do to a window that no request has passed. */
  lemma RecordedStep(s: State, t: State, i: nat, lo: int, hi: int)
    requires i < |s.requests| == |t.requests| && t.requests == s.requests[i := t.requests[i]]
    requires t.requests[i].now == s.requests[i].now
    requires forall m :: m in s.key.members && m > lo ==> m in t.key.members
    requires t.requests[i].stage.Added? ==> t.requests[i].now in t.key.members
    requires t.requests[i].stage.Done? ==> s.requests[i].stage.Added?
    requires Recorded(s, lo, hi)
    ensures Recorded(t, lo, hi)
  {
    forall j | 0 <= j < |t.requests| && t.requests[j].stage in {Added, Done} && lo < t.requests[j].now <= hi
      ensures t.requests[j].now in t.key.members
    {
      if j != i {
        assert s.requests[j].now in s.key.members;
      }
    }
  }

  /** Dropping an expired key does not harm a window, as long as a request works that has not passed it. */
  lemma LapsedKeepsWindow(s: State, i: nat, rate: int, lo: int, hi: int, k: nat, d: nat)
    requires Orderly(s, k, d) && Expirable(s) && Recorded(s, lo, hi) && d <= WINDOW_MS
    requires i < |s.requests| && !s.requests[i].stage.Done? && s.requests[i].now - WINDOW_MS <= lo
    ensures Recorded(Lapsed(s), lo, hi) && LetThrough(Lapsed(s), rate, lo, hi) == LetThrough(s, rate, lo, hi)
  {
    assert LetThrough(Lapsed(s), rate, lo, hi) == LetThrough(s, rate, lo, hi);
    if Live(s.key, s.now) != s.key {
      ExpiredIsOld(s, k, d);
      assert forall m :: m in s.key.members ==> m <= lo;
    }
  }

  /** The admitted milliseconds of a window are in the set or in flight. */
  lemma AdmittedAreSeen(s: State, rate: int, lo: int, hi: int, k: nat, d: nat)
    requires Orderly(s, k, d) && Recorded(s, lo, hi)
    ensures |LetThrough(s, rate, lo, hi)| <= |s.key.members| + Spread(k, d)
  {
    forall m | m in LetThrough(s, rate, lo, hi)
      ensures m in s.key.members + Clocks(s)
    {
      var i :| 0 <= i < |s.requests| && Passed(s.requests[i], rate) &&
               lo < s.requests[i].now <= hi && s.requests[i].now == m;
      assert s.requests[i].stage.Counted? ==> i in InFlight(s);
    }
    SubsetSize(LetThrough(s, rate, lo, hi), s.key.members + Clocks(s));
    ClocksSpread(s, k, d);
  }

  /** Counting moves a waiting request to the admitted ones, or drops it. */
  lemma CountSame(s: State, i: nat, rate: int, lo: int, hi: int)
    requires i < |s.requests| && s.requests[i].stage.Cleaned?
    ensures var t := Apply(s, Count(i));
            && Passing(t, lo) == Passing(s, lo)
            && LetThrough(t, rate, lo, hi) + Waiting(t, lo, hi) <= LetThrough(s, rate, lo, hi) + Waiting(s, lo, hi)
            && (t.requests[i].count >= rate ==> LetThrough(t, rate, lo, hi) == LetThrough(s, rate, lo, hi))
  {
    var t := Apply(s, Count(i));
    assert forall j :: 0 <= j < |s.requests| && j != i ==> t.requests[j] == s.requests[j];
    assert t.requests[i].now == s.requests[i].now && t.requests[i].stage.Counted?;
  }

  lemma CountKeepsWindow(s: State, i: nat, rate: int, lo: int, hi: int, k: nat, d: nat, slack: nat)
    requires Orderly(s, k, d) && s.key == Live(s.key, s.now) && Enabled(s, Count(i), k, d)
    requires WindowOk(s, rate, lo, hi, Bound(rate, k, d), slack)
    ensures WindowOk(Apply(s, Count(i)), rate, lo, hi, Bound(rate, k, d), slack)
  {
    var t := Apply(s, Count(i));
    CountSame(s, i, rate, lo, hi);
    if Passing(s, lo) {
      SubsetSize(LetThrough(t, rate, lo, hi) + Waiting(t, lo, hi), LetThrough(s, rate, lo, hi) + Waiting(s, lo, hi));
    } else {
      RecordedStep(s, t, i, lo, hi);
      if t.requests[i].count < rate {
        StepKeepsOrder(s, Count(i), k, d);
        AdmittedAreSeen(t, rate, lo, hi, k, d);
      }
    }
  }

  lemma FinishSame(s: State, e: Step, rate: int, lo: int, hi: int)
    requires (e.Add? || e.Expire?) && e.id < |s.requests|
    requires s.requests[e.id].stage == if e.Add? then Counted else Added
    ensures var t := Apply(s, e);
            && Passing(t, lo) == Passing(s, lo)
            && LetThrough(t, rate, lo, hi) == LetThrough(s, rate, lo, hi) && Waiting(t, lo, hi) == Waiting(s, lo, hi)
  {
    var t, i := Apply(s, e), e.id;
    assert forall j :: 0 <= j < |s.requests| && j != i ==> t.requests[j] == s.requests[j];
    assert t.requests[i].now == s.requests[i].now && t.requests[i].count == s.requests[i].count;
  }

  lemma FinishKeepsWindow(s: State, e: Step, rate: int, lo: int, hi: int, bound: int, slack: nat)
    requires s.key == Live(s.key, s.now) && (e.Add? || e.Expire?) && e.id < |s.requests|
    requires s.requests[e.id].stage == if e.Add? then Counted else Added
    requires WindowOk(s, rate, lo, hi, bound, slack)
    ensures WindowOk(Apply(s, e), rate, lo, hi, bound, slack)
  {
    FinishSame(s, e, rate, lo, hi);
    if !Passing(s, lo) {
      RecordedStep(s, Apply(s, e), e.id, lo, hi);
    }
  }

  /** When request i passes the window, those that wait in it are in flight together with i. */
  lemma FewWait(s: State, i: nat, lo: int, hi: int, k: nat, d: nat, slack: nat)
    requires Orderly(s, k, d) && Sized(lo, hi, k, d, slack)
    requires i in InFlight(s) && s.requests[i].now - WINDOW_MS > lo
    ensures |Waiting(s, lo, hi)| <= slack
  {
    if lo >= hi - WINDOW_MS + d {
      assert Waiting(s, lo, hi) == {};
    } else {
      forall m | m in Waiting(s, lo, hi)
        ensures m in Clocks(s) - {s.requests[i].now}
      {
        var j :| 0 <= j < |s.requests| && s.requests[j].stage in {Sent, Cleaned} &&
                 lo < s.requests[j].now <= hi && s.requests[j].now == m;
        assert j in InFlight(s);
      }
      SubsetSize(Waiting(s, lo, hi), Clocks(s) - {s.requests[i].now});
      ClocksSpread(s, k, d);
    }
  }

  lemma TrimSame(s: State, i: nat, rate: int, lo: int, hi: int)
    requires i < |s.requests| && s.requests[i].stage.Sent?
    ensures var t := Apply(s, Trim(i));
            && LetThrough(t, rate, lo, hi) == LetThrough(s, rate, lo, hi) && Waiting(t, lo, hi) == Waiting(s, lo, hi)
            && Passing(t, lo) == (Passing(s, lo) || s.requests[i].now - WINDOW_MS > lo)
  {
    var t := Apply(s, Trim(i));
    assert forall j :: 0 <= j < |s.requests| && j != i ==> t.requests[j] == s.requests[j];
    assert t.requests[i].now == s.requests[i].now && t.requests[i].stage.Cleaned?;
  }

  lemma TrimKeepsWindow(s: State, i: nat, rate: int, lo: int, hi: int, k: nat, d: nat, slack: nat)
    requires Orderly(s, k, d) && Enabled(s, Trim(i), k, d) && Sized(lo, hi, k, d, slack)
    requires s.requests[i].now - WINDOW_MS <= lo ==> s.key == Live(s.key, s.now)
    requires WindowOk(s, rate, lo, hi, Bound(rate, k, d), slack)
    ensures WindowOk(Apply(s, Trim(i)), rate, lo, hi, Bound(rate, k, d), slack)
  {
    TrimSame(s, i, rate, lo, hi);
    if !Passing(s, lo) {
      if s.requests[i].now - WINDOW_MS > lo {
        FewWait(s, i, lo, hi, k, d, slack);
      } else {
        RecordedStep(s, Apply(s, Trim(i)), i, lo, hi);
      }
    }
  }

  lemma LapsedWindow(s: State, i: nat, rate: int, lo: int, hi: int, k: nat, d: nat, bound: int, slack: nat)
    requires Orderly(s, k, d) && Expirable(s) && d <= WINDOW_MS && WindowOk(s, rate, lo, hi, bound, slack)
    requires i in InFlight(s) && (s.requests[i].stage.Sent? ==> s.requests[i].now - WINDOW_MS <= lo)
    ensures WindowOk(Lapsed(s), rate, lo, hi, bound, slack)
  {
    var l := Lapsed(s);
    assert Passing(l, lo) == Passing(s, lo);
    assert LetThrough(l, rate, lo, hi) == LetThrough(s, rate, lo, hi) && Waiting(l, lo, hi) == Waiting(s, lo, hi);
    if !Passing(s, lo) {
      LapsedKeepsWindow(s, i, rate, lo, hi, k, d);
    }
  }

  ghost predicate Inv(s: State, rate: int, lo: int, hi: int, k: nat, d: nat, slack: nat) {
    Orderly(s, k, d) && Expirable(s) && WindowOk(s, rate, lo, hi, Bound(rate, k, d), slack)
  }

  lemma TrimStep(s: State, i: nat, rate: int, lo: int, hi: int, k: nat, d: nat, slack: nat)
    requires Inv(s, rate, lo, hi, k, d, slack) && Enabled(s, Trim(i), k, d) && Sized(lo, hi, k, d, slack)
    ensures WindowOk(Apply(s, Trim(i)), rate, lo, hi, Bound(rate, k, d), slack)
  {
    if s.requests[i].now - WINDOW_MS > lo {
      TrimKeepsWindow(s, i, rate, lo, hi, k, d, slack);
    } else {
      LapsedKeeps(s, k, d);
      LapsedWindow(s, i, rate, lo, hi, k, d, Bound(rate, k, d), slack);
      TrimKeepsWindow(Lapsed(s), i, rate, lo, hi, k, d, slack);
      assert Apply(Lapsed(s), Trim(i)) == Apply(s, Trim(i));
    }
  }

  lemma CountStep(s: State, i: nat, rate: int, lo: int, hi: int, k: nat, d: nat, slack: nat)
    requires Inv(s, rate, lo, hi, k, d, slack) && Enabled(s, Count(i), k, d) && Sized(lo, hi, k, d, slack)
    ensures WindowOk(Apply(s, Count(i)), rate, lo, hi, Bound(rate, k, d), slack)
  {
    LapsedKeeps(s, k, d);
    LapsedWindow(s, i, rate, lo, hi, k, d, Bound(rate, k, d), slack);
    CountKeepsWindow(Lapsed(s), i, rate, lo, hi, k, d, slack);
    assert Apply(Lapsed(s), Count(i)) == Apply(s, Count(i));
  }

  lemma FinishStep(s: State, e: Step, rate: int, lo: int, hi: int, k: nat, d: nat, slack: nat)
    requires Inv(s, rate, lo, hi, k, d, slack) && Enabled(s, e, k, d) && Sized(lo, hi, k, d, slack)
    requires e.Add? || e.Expire?
    ensures WindowOk(Apply(s, e), rate, lo, hi, Bound(rate, k, d), slack)
  {
    LapsedKeeps(s, k, d);
    LapsedWindow(s, e.id, rate, lo, hi, k, d, Bound(rate, k, d), slack);
    FinishKeepsWindow(Lapsed(s), e, rate, lo, hi, Bound(rate, k, d), slack);
    assert Apply(Lapsed(s), e) == Apply(s, e);
  }

  lemma StepKeepsWindow(s: State, e: Step, rate: int, lo: int, hi: int, k: nat, d: nat, slack: nat)
    requires Inv(s, rate, lo, hi, k, d, slack) && Enabled(s, e, k, d) && Sized(lo, hi, k, d, slack)
    ensures WindowOk(Apply(s, e), rate, lo, hi, Bound(rate, k, d), slack)
  {
    match e
    case Tick(ms) => TickKeepsWindow(s, ms, rate, lo, hi, Bound(rate, k, d), slack);
    case Begin => BeginKeepsWindow(s, rate, lo, hi, Bound(rate, k, d), slack);
    case Trim(i) => TrimStep(s, i, rate, lo, hi, k, d, slack);
    case Count(i) => CountStep(s, i, rate, lo, hi, k, d, slack);
    case _ => FinishStep(s, e, rate, lo, hi, k, d, slack);
  }

  lemma {:induction false} RunKeepsInv(start: nat, steps: seq<Step>, s: State, rate: int, lo: int, hi: int, k: nat,
                                       d: nat, slack: nat)
    requires rate >= 1 && Run(start, steps, k, d) == Some(s) && Sized(lo, hi, k, d, slack)
    ensures Inv(s, rate, lo, hi, k, d, slack)
  {
    if steps == [] {
      assert InFlight(s) == {} && LetThrough(s, rate, lo, hi) == {};
    } else {
      var p, e := Run(start, steps[..|steps| - 1], k, d).value, steps[|steps| - 1];
      RunKeepsInv(start, steps[..|steps| - 1], p, rate, lo, hi, k, d, slack);
      StepKeepsOrder(p, e, k, d);
      StepKeepsExpirable(p, e, k, d);
      StepKeepsWindow(p, e, rate, lo, hi, k, d, slack);
    }
  }

  lemma RunIsOrderly(start: nat, steps: seq<Step>, s: State, k: nat, d: nat)
    requires Run(start, steps, k, d) == Some(s) && d <= WINDOW_MS
    ensures Orderly(s, k, d) && Expirable(s)
  {
    RunKeepsInv(start, steps, s, 1, d, WINDOW_MS, k, d, 0);
  }

  /** In every run, expiry of the key removes only members that every window has left behind. */
  lemma ExpiryIsHarmless(start: nat, steps: seq<Step>, s: State, k: nat, d: nat)
    requires Run(start, steps, k, d) == Some(s) && d <= WINDOW_MS
    requires s.key.deadline.Some? && s.key.deadline.value <= s.now
    ensures forall m :: m in s.key.members ==> m <= s.now - EXPIRY_MS
  {
    RunIsOrderly(start, steps, s, k, d);
    ExpiredIsOld(s, k, d);
  }

  lemma AdmittedWithinSlack(start: nat, steps: seq<Step>, s: State, rate: int, lo: int, hi: int, k: nat, d: nat,
                            slack: nat)
    requires rate >= 1 && Run(start, steps, k, d) == Some(s) && Sized(lo, hi, k, d, slack)
    ensures |LetThrough(s, rate, lo, hi)| <= Bound(rate, k, d) + slack
  {
    RunKeepsInv(start, steps, s, rate, lo, hi, k, d, slack);
    if Passing(s, lo) {
      SubsetSize(LetThrough(s, rate, lo, hi), LetThrough(s, rate, lo, hi) + Waiting(s, lo, hi));
    }
  }

  /** With at most k pipelines in flight, none longer than d, a limit of `rate` lets at most rate - 1 + min(k, d + 1)
      distinct milliseconds through in any window of a minute less d. */
  lemma ShortWindowBound(start: nat, steps: seq<Step>, s: State, rate: int, hi: int, k: nat, d: nat)
    requires rate >= 1 && d <= WINDOW_MS && Run(start, steps, k, d) == Some(s)
    ensures |LetThrough(s, rate, hi - WINDOW_MS + d, hi)| <= rate - 1 + Spread(k, d)
  {
    AdmittedWithinSlack(start, steps, s, rate, hi - WINDOW_MS + d, hi, k, d, 0);
  }

  // Runs that attain the bound: first requests one after the other, then c at once.

  lemma Extend(steps: seq<Step>, s: State, e: Step, k: nat, d: nat)
    requires Run(0, steps, k, d) == Some(s) && Enabled(s, e, k, d)
    ensures Run(0, steps + [e], k, d) == Some(Apply(s, e))
  {
    assert (steps + [e])[..|steps|] == steps;
  }

  /** The set after requests in the milliseconds 1 to n. */
  function Filled(n: nat): SortedSet {
    if n == 0 then MISSING else SortedSet(Interval(1, n), Some(n + EXPIRY_MS))
  }

  /** The request of millisecond i + 1: finished if it is one of the first n, else at stage st, having counted at most
      n members. */
  predicate Placed(r: Request, i: nat, n: nat, st: Stage) {
    && r.now == i + 1
    && if i < n then r.stage.Done? && r.count <= i else r.stage == st && (st !in {Sent, Cleaned} ==> r.count <= n)
  }

  /** Requests in the milliseconds 1 to n have finished; the next c are at stage `to` or, from the p-th on, at
      `from`. */
  predicate Playing(s: State, n: nat, c: nat, p: nat, from: Stage, to: Stage) {
    && |s.requests| == n + c && s.now <= n + c && p <= c
    && (forall i {:trigger s.requests[i]} :: 0 <= i < n + c ==>
          Placed(s.requests[i], i, n, if i < n + p then to else from))
    && (from in {Sent, Cleaned} ==> s.key == Filled(n))
  }

  function Following(st: Stage): Stage {
    match st case Sent => Cleaned case Cleaned => Counted case Counted => Added case _ => Done
  }

  function Command(st: Stage, i: nat): Step {
    match st case Sent => Trim(i) case Cleaned => Count(i) case Counted => Add(i) case _ => Expire(i)
  }

  lemma FilledIsLive(n: nat, now: int)
    requires now <= WINDOW_MS && n <= WINDOW_MS
    ensures Live(Filled(n), now) == Filled(n) && Trimmed(Filled(n), 0, now - WINDOW_MS) == Filled(n)
    ensures |Filled(n).members| == n
  {
    var kept := set m | m in Filled(n).members && !(0 <= m <= now - WINDOW_MS);
    assert kept == Filled(n).members;
    assert n > 0 ==> 1 in kept;
  }

  lemma CommandEffect(s: State, i: nat, from: Stage)
    requires i < |s.requests| && s.requests[i].stage == from && !from.Done?
    ensures var t, live, r := Apply(s, Command(from, i)), Live(s.key, s.now), s.requests[i];
            && t.now == s.now
            && t.requests == s.requests[i := r.(stage := Following(from),
                                                count := if from.Cleaned? then |live.members| else r.count)]
            && t.key == match from
                        case Sent => Trimmed(live, 0, r.now - WINDOW_MS)
                        case Cleaned => live
                        case Counted => Joined(live, r.now)
                        case _ => Expiring(live, s.now + EXPIRY_MS)
  {
  }

  lemma PlacedNext(r: Request, i: nat, n: nat, from: Stage, counted: nat)
    requires Placed(r, i, n, from) && i >= n && !from.Done? && (from.Cleaned? ==> counted <= n)
    ensures Placed(r.(stage := Following(from), count := if from.Cleaned? then counted else r.count), i, n,
                   Following(from))
  {
  }

  /** One of the last c requests takes its next command. */
  lemma PlayOne(s: State, n: nat, c: nat, p: nat, from: Stage)
    requires Playing(s, n, c, p, from, Following(from)) && !from.Done? && p < c && n + c <= WINDOW_MS
    ensures s.requests[n + p].stage == from
    ensures Playing(Apply(s, Command(from, n + p)), n, c, p + 1, from, Following(from))
  {
    var i, r := n + p, s.requests[n + p];
    assert Placed(r, i, n, from);
    FilledIsLive(n, s.now);
    FilledIsLive(n, r.now);
    CommandEffect(s, i, from);
    PlacedNext(r, i, n, from, |Live(s.key, s.now).members|);
    PlacedAfter(s, Apply(s, Command(from, i)), n, c, p, from);
  }

  lemma PlacedAfter(s: State, t: State, n: nat, c: nat, p: nat, from: Stage)
    requires |s.requests| == n + c == |t.requests| && p < c && t.requests == s.requests[n + p := t.requests[n + p]]
    requires forall j :: 0 <= j < n + c ==> Placed(s.requests[j], j, n, if j < n + p then Following(from) else from)
    requires Placed(t.requests[n + p], n + p, n, Following(from))
    ensures forall j :: 0 <= j < n + c ==> Placed(t.requests[j], j, n, if j < n + p + 1 then Following(from) else from)
  {
    forall j | 0 <= j < n + c
      ensures Placed(t.requests[j], j, n, if j < n + p + 1 then Following(from) else from)
    {
      assert j != n + p ==> t.requests[j] == s.requests[j];
    }
  }

  /** The last c requests all take their next command. */
  lemma {:induction false} PlayPhase(steps: seq<Step>, s: State, n: nat, c: nat, p: nat, from: Stage, k: nat, d: nat)
      returns (steps': seq<Step>, s': State)
    requires Run(0, steps, k, d) == Some(s) && !from.Done? && n + c <= WINDOW_MS
    requires Playing(s, n, c, p, from, Following(from))
    ensures Run(0, steps', k, d) == Some(s') && s'.now == s.now
    ensures Playing(s', n, c, c, from, Following(from))
    decreases c - p
  {
    if p == c {
      steps', s' := steps, s;
    } else {
      var e := Command(from, n + p);
      Extend(steps, s, e, k, d);
      PlayOne(s, n, c, p, from);
      steps', s' := PlayPhase(steps + [e], Apply(s, e), n, c, p + 1, from, k, d);
    }
  }

  /** One phase after another: everybody at stage `to` is everybody about to take the next command. */
  lemma NextPhase(s: State, n: nat, c: nat, from: Stage)
    requires Playing(s, n, c, c, from, Following(from)) && (Following(from) in {Sent, Cleaned} ==> s.key == Filled(n))
    ensures Playing(s, n, c, 0, Following(from), Following(Following(from)))
  {
  }

  /** Requests in the milliseconds 1 to n have come and gone, one after the other. */
  predicate Settled(s: State, n: nat) {
    Begun(s, n, 0)
  }

  /** The next c requests have read the clock in successive milliseconds. */
  predicate Begun(s: State, n: nat, c: nat) {
    s.now == n + c && s.key == Filled(n) && Playing(s, n, c, 0, Sent, Cleaned)
  }

  lemma BeginOne(steps: seq<Step>, s: State, n: nat, c: nat, k: nat, d: nat) returns (steps': seq<Step>, s': State)
    requires Run(0, steps, k, d) == Some(s) && Begun(s, n, c) && c < k && c <= d
    ensures Run(0, steps', k, d) == Some(s') && Begun(s', n, c + 1)
  {
    assert forall i :: 0 <= i < |s.requests| ==> Placed(s.requests[i], i, n, Sent);
    SubsetSize(InFlight(s), Interval(n, c));
    Extend(steps, s, Tick(1), k, d);
    var t := Apply(s, Tick(1));
    assert InFlight(t) == InFlight(s);
    Extend(steps + [Tick(1)], t, Begin, k, d);
    steps', s' := steps + [Tick(1)] + [Begin], Apply(t, Begin);
    forall i | 0 <= i < n + c + 1
      ensures Placed(s'.requests[i], i, n, Sent)
    {
      assert i < n + c ==> s'.requests[i] == s.requests[i];
    }
  }

  lemma {:induction false} BeginAll(steps: seq<Step>, s: State, n: nat, c: nat, k: nat, d: nat)
      returns (steps': seq<Step>, s': State)
    requires Run(0, steps, k, d) == Some(s) && Settled(s, n) && c <= k && c <= d + 1
    ensures Run(0, steps', k, d) == Some(s') && Begun(s', n, c)
  {
    if c == 0 {
      steps', s' := steps, s;
    } else {
      steps', s' := BeginAll(steps, s, n, c - 1, k, d);
      steps', s' := BeginOne(steps', s', n, c - 1, k, d);
    }
  }

  lemma {:induction false} Alone(n: nat, k: nat, d: nat) returns (steps: seq<Step>, s: State)
    requires k >= 1 && n <= WINDOW_MS
    ensures Run(0, steps, k, d) == Some(s) && Settled(s, n)
  {
    if n == 0 {
      steps, s := [], State(0, MISSING, []);
    } else {
      steps, s := Alone(n - 1, k, d);
      steps, s := BeginOne(steps, s, n - 1, 0, k, d);
      steps, s := FinishOne(steps, s, n - 1, k, d);
    }
  }

  /** A request alone in flight takes its four commands. */
  lemma FinishOne(steps: seq<Step>, s: State, n: nat, k: nat, d: nat) returns (steps': seq<Step>, s': State)
    requires Run(0, steps, k, d) == Some(s) && Begun(s, n, 1) && n < WINDOW_MS
    ensures Run(0, steps', k, d) == Some(s') && Settled(s', n + 1)
  {
    steps', s' := steps, s;
    steps', s' := CommandAlone(steps', s', n, Sent, k, d);
    NextPhase(s', n, 1, Sent);
    steps', s' := CommandAlone(steps', s', n, Cleaned, k, d);
    NextPhase(s', n, 1, Cleaned);
    steps', s' := CommandAlone(steps', s', n, Counted, k, d);
    NextPhase(s', n, 1, Counted);
    FilledIsLive(n, s'.now);
    steps', s' := CommandAlone(steps', s', n, Added, k, d);
    assert s'.key == Filled(n + 1);
    forall i | 0 <= i < n + 1
      ensures Placed(s'.requests[i], i, n + 1, Sent)
    {
      assert Placed(s'.requests[i], i, n, Done);
    }
  }

  /** One command leaves a key alive whose expiry it does not shorten. */
  lemma AloneKey(s: State, n: nat, from: Stage)
    requires |s.requests| == n + 1 && s.now == n + 1 && n < WINDOW_MS && !from.Done?
    requires s.requests[n].now == n + 1 && s.requests[n].stage == from && Live(s.key, s.now) == s.key
    requires from in {Sent, Cleaned} ==> s.key == Filled(n)
    ensures var t := Apply(s, Command(from, n));
            && Live(t.key, t.now) == t.key
            && t.key == match from
                        case Sent => Filled(n)
                        case Cleaned => Filled(n)
                        case Counted => Joined(s.key, n + 1)
                        case _ => Expiring(s.key, n + 1 + EXPIRY_MS)
  {
    FilledIsLive(n, n + 1);
    CommandEffect(s, n, from);
  }

  lemma CommandAlone(steps: seq<Step>, s: State, n: nat, from: Stage, k: nat, d: nat)
      returns (steps': seq<Step>, s': State)
    requires Run(0, steps, k, d) == Some(s) && !from.Done? && n < WINDOW_MS && s.now == n + 1
    requires Playing(s, n, 1, 0, from, Following(from))
    requires Live(s.key, s.now) == s.key
    ensures Run(0, steps', k, d) == Some(s') && s'.now == s.now && Playing(s', n, 1, 1, from, Following(from))
    ensures Live(s'.key, s'.now) == s'.key
    ensures s'.key == match from
                      case Sent => Filled(n)
                      case Cleaned => Filled(n)
                      case Counted => Joined(s.key, n + 1)
                      case _ => Expiring(s.key, n + 1 + EXPIRY_MS)
  {
    PlayOne(s, n, 1, 0, from);
    assert Placed(s.requests[n], n, n, from);
    AloneKey(s, n, from);
    CommandEffect(s, n, from);
    Extend(steps, s, Command(from, n), k, d);
    steps', s' := steps + [Command(from, n)], Apply(s, Command(from, n));
  }

  /** When c requests may be in flight at once, and in c successive milliseconds, rate - 1 + c distinct milliseconds
      can be admitted: rate - 1 requests alone, and c that all count before any of them is added. */
  lemma OverlappingRequestsPass(rate: nat, c: nat, k: nat, d: nat) returns (steps: seq<Step>, s: State)
    requires rate >= 1 && 1 <= c <= Spread(k, d) && rate - 1 + c <= WINDOW_MS
    ensures Run(0, steps, k, d) == Some(s) && InFlight(s) == {}
    ensures s.now == |s.requests| == rate - 1 + c
    ensures forall i :: 0 <= i < |s.requests| ==> s.requests[i].now == i + 1 && Passed(s.requests[i], rate)
  {
    var n := rate - 1;
    steps, s := Alone(n, k, d);
    steps, s := BeginAll(steps, s, n, c, k, d);
    steps, s := PlayPhase(steps, s, n, c, 0, Sent, k, d);
    NextPhase(s, n, c, Sent);
    steps, s := PlayPhase(steps, s, n, c, 0, Cleaned, k, d);
    NextPhase(s, n, c, Cleaned);
    steps, s := PlayPhase(steps, s, n, c, 0, Counted, k, d);
    NextPhase(s, n, c, Counted);
    steps, s := PlayPhase(steps, s, n, c, 0, Added, k, d);
    assert forall i :: 0 <= i < |s.requests| ==> Placed(s.requests[i], i, n, Done);
  }

  lemma AllAdmitted(s: State, rate: int, lo: int, hi: int)
    requires forall i :: 0 <= i < |s.requests| ==> s.requests[i].now == i + 1 && Passed(s.requests[i], rate)
    requires lo <= 0 && |s.requests| <= hi
    ensures |LetThrough(s, rate, lo, hi)| == |s.requests|
  {
    forall m | 1 <= m <= |s.requests|
      ensures m in LetThrough(s, rate, lo, hi)
    {
      assert s.requests[m - 1].now == m;
    }
    assert LetThrough(s, rate, lo, hi) == Interval(1, |s.requests|);
  }

  /** The bound of ShortWindowBound is attained. */
  lemma ShortWindowBoundIsTight(rate: nat, k: nat, d: nat) returns (steps: seq<Step>, s: State, hi: int)
    requires rate >= 1 && k >= 1 && rate - 1 + Spread(k, d) <= WINDOW_MS - d
    ensures Run(0, steps, k, d) == Some(s) && InFlight(s) == {}
    ensures |LetThrough(s, rate, hi - WINDOW_MS + d, hi)| == rate - 1 + Spread(k, d)
  {
    steps, s := OverlappingRequestsPass(rate, Spread(k, d), k, d);
    hi := |s.requests|;
    AllAdmitted(s, rate, hi - WINDOW_MS + d, hi);
  }

  /** A run admits no more milliseconds of the minute that ends at hi than the limit says. */
  predicate WithinLimit(start: nat, steps: seq<Step>, hi: int, rate: int, k: nat, d: nat) {
    Run(start, steps, k, d).Some? ==>
      |LetThrough(Run(start, steps, k, d).value, rate, hi - WINDOW_MS, hi)| <= if rate < 0 then 0 else rate
  }

  /** The limit bounds the admitted milliseconds of every minute of every run exactly when it admits nothing, or is as
      large as the number of milliseconds there are, or no two requests with different clocks are ever in flight
      together. */
  lemma LimitHoldsIffNoOverlap(rate: int, k: nat, d: nat)
    requires d <= WINDOW_MS
    ensures (forall start, steps, hi :: WithinLimit(start, steps, hi, rate, k, d)) <==>
            rate <= 0 || rate >= WINDOW_MS || k <= 1 || d == 0
  {
    if rate <= 0 || rate >= WINDOW_MS || k <= 1 || d == 0 {
      forall start, steps, hi
        ensures WithinLimit(start, steps, hi, rate, k, d)
      {
        if Run(start, steps, k, d).Some? {
          LimitHoldsIn(start, steps, Run(start, steps, k, d).value, rate, hi, k, d);
        }
      }
    } else {
      var steps, s := OverlappingRequestsPass(rate, 2, k, d);
      var hi := |s.requests|;
      AllAdmitted(s, rate, hi - WINDOW_MS, hi);
      assert !WithinLimit(0, steps, hi, rate, k, d);
    }
  }

  lemma LimitHoldsIn(start: nat, steps: seq<Step>, s: State, rate: int, hi: int, k: nat, d: nat)
    requires Run(start, steps, k, d) == Some(s) && d <= WINDOW_MS
    requires rate <= 0 || rate >= WINDOW_MS || k <= 1 || d == 0
    ensures |LetThrough(s, rate, hi - WINDOW_MS, hi)| <= if rate < 0 then 0 else rate
  {
    var admitted := LetThrough(s, rate, hi - WINDOW_MS, hi);
    if rate <= 0 {
      assert admitted == {};
    } else if rate >= WINDOW_MS {
      SubsetSize(admitted, Interval(hi - WINDOW_MS + 1, WINDOW_MS));
    } else {
      AdmittedWithinSlack(start, steps, s, rate, hi - WINDOW_MS, hi, k, d, 0);
    }
  }
}
