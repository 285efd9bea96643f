/** Any number of goroutines inside `ewma.Update` at once: every interleaving of their atomic steps.
    A goroutine adds one to the counter, then repeats a load and a compare-and-swap until the swap succeeds. */
module LatencyInterleaving {
  import opened Wrappers
  import opened Latency

  /** Where one call of Update stands. `at` and `place` are history: the number of commits when the value was
      loaded, and this call's position among the commits. */
  datatype Phase = Ready | Loaded(seen: real, at: nat) | Done(place: nat)

  /** One call of Update. `begun` (commits when it started) and `fails` (failed swaps) are history. */
  datatype Call = Call(sample: real, begun: nat, fails: nat, phase: Phase)

  /** The shared words `value` and `count`, the calls so far, and the calls in the order of their commits. */
  datatype State = State(value: real, count: nat, calls: seq<Call>, log: seq<nat>)

  datatype Step = Begin(sample: real) | Load(id: nat) | Cas(id: nat)

  const INIT := State(0.0, 0, [], [])

  predicate Enabled(s: State, e: Step) {
    match e
    case Begin(_) => true
    case Load(i) => i < |s.calls| && s.calls[i].phase.Ready?
    case Cas(i) => i < |s.calls| && s.calls[i].phase.Loaded?
  }

  predicate Fails(s: State, e: Step)
    requires Enabled(s, e)
  {
    e.Cas? && s.calls[e.id].phase.seen != s.value
  }

  function Apply(s: State, e: Step): State
    requires Enabled(s, e)
  {
    match e
    case Begin(sample) =>
      s.(count := (s.count + 1) % U64, calls := s.calls + [Call(sample, |s.log|, 0, Ready)])
    case Load(i) =>
      s.(calls := s.calls[i := s.calls[i].(phase := Loaded(s.value, |s.log|))])
    case Cas(i) =>
      var c := s.calls[i];
      if c.phase.seen == s.value then
        s.(value := Smooth(c.phase.seen, c.sample), calls := s.calls[i := c.(phase := Done(|s.log|))],
           log := s.log + [i])
      else
        s.(calls := s.calls[i := c.(fails := c.fails + 1, phase := Ready)])
  }

  /** The state after a run, None when some step of it was not possible. */
  function Run(steps: seq<Step>): Option<State> {
    if steps == [] then Some(INIT)
    else
      var last := steps[|steps| - 1];
      match Run(steps[..|steps| - 1])
      case None => None
      case Some(s) => if Enabled(s, last) then Some(Apply(s, last)) else None
  }

  /** How many compare-and-swaps of a run failed. */
  function FailedSwaps(steps: seq<Step>): nat {
    if steps == [] then 0
    else
      var last := steps[|steps| - 1];
      FailedSwaps(steps[..|steps| - 1]) +
      (match Run(steps[..|steps| - 1])
       case None => 0
       case Some(s) => if Enabled(s, last) && Fails(s, last) then 1 else 0)
  }

  /** The samples in commit order. */
  function Committed(calls: seq<Call>, log: seq<nat>): (r: seq<real>)
    requires forall k :: 0 <= k < |log| ==> log[k] < |calls|
    ensures |r| == |log| && forall k :: 0 <= k < |log| ==> r[k] == calls[log[k]].sample
  {
    if log == [] then [] else Committed(calls, log[..|log| - 1]) + [calls[log[|log| - 1]].sample]
  }

  /** The number of calls that have not committed. */
  function InFlight(calls: seq<Call>): nat {
    if calls == [] then 0
    else InFlight(calls[..|calls| - 1]) + (if calls[|calls| - 1].phase.Done? then 0 else 1)
  }

  /** The number of pairs that n calls form. */
  function Pairs(n: nat): nat {
    if n == 0 then 0 else Pairs(n - 1) + (n - 1)
  }

  lemma {:induction false} PairsClosedForm(n: nat)
    ensures 2 * Pairs(n) == n * (n - 1)
  {
    if n > 0 {
      PairsClosedForm(n - 1);
    }
  }

  /** Failed swaps of the calls that have committed, and of those that have not. */
  function DoneFails(calls: seq<Call>): nat {
    if calls == [] then 0
    else DoneFails(calls[..|calls| - 1]) + (if calls[|calls| - 1].phase.Done? then calls[|calls| - 1].fails else 0)
  }

  function OpenFails(calls: seq<Call>): nat {
    if calls == [] then 0
    else OpenFails(calls[..|calls| - 1]) + (if calls[|calls| - 1].phase.Done? then 0 else calls[|calls| - 1].fails)
  }

  /** Steps taken inside the current attempts: one after a load, two for the attempt that committed. */
  function Progress(calls: seq<Call>): nat {
    if calls == [] then 0
    else Progress(calls[..|calls| - 1]) +
         (match calls[|calls| - 1].phase case Ready => 0 case Loaded(_, _) => 1 case Done(_) => 2)
  }

  lemma {:induction false} SumsUpdate(calls: seq<Call>, i: nat, c: Call)
    requires i < |calls|
    ensures var one := (x: Call) => if x.phase.Done? then 0 else 1;
            InFlight(calls[i := c]) == InFlight(calls) - one(calls[i]) + one(c)
    ensures var d := (x: Call) => if x.phase.Done? then x.fails else 0;
            DoneFails(calls[i := c]) == DoneFails(calls) - d(calls[i]) + d(c)
    ensures var o := (x: Call) => if x.phase.Done? then 0 else x.fails;
            OpenFails(calls[i := c]) == OpenFails(calls) - o(calls[i]) + o(c)
    ensures var p := (x: Call) => match x.phase case Ready => 0 case Loaded(_, _) => 1 case Done(_) => 2;
            Progress(calls[i := c]) == Progress(calls) - p(calls[i]) + p(c)
  {
    var n := |calls| - 1;
    if i == n {
      assert calls[i := c][..n] == calls[..n];
    } else {
      SumsUpdate(calls[..n], i, c);
      assert calls[i := c][..n] == calls[..n][i := c];
    }
  }

  lemma SumsBegin(calls: seq<Call>, c: Call)
    requires c.phase.Ready? && c.fails == 0
    ensures InFlight(calls + [c]) == InFlight(calls) + 1
    ensures DoneFails(calls + [c]) == DoneFails(calls) && OpenFails(calls + [c]) == OpenFails(calls)
    ensures Progress(calls + [c]) == Progress(calls)
  {
    assert (calls + [c])[..|calls|] == calls;
  }

  /** What every step keeps about one call: it has failed at most once per commit made by others since it began,
      and a loaded value that is out of date is out of date because somebody has committed since. */
  predicate CallOk(s: State, c: Call) {
    && c.begun <= |s.log|
    && match c.phase
       case Ready => c.fails <= |s.log| - c.begun
       case Loaded(seen, at) =>
         c.begun <= at <= |s.log| && c.fails <= at - c.begun && (at == |s.log| ==> seen == s.value)
       case Done(place) => c.begun <= place < |s.log| && c.fails <= place - c.begun
  }

  ghost predicate LogOk(s: State) {
    && (forall k :: 0 <= k < |s.log| ==> s.log[k] < |s.calls| && s.calls[s.log[k]].phase == Done(k))
    && (forall i :: 0 <= i < |s.calls| && s.calls[i].phase.Done? ==>
          s.calls[i].phase.place < |s.log| && s.log[s.calls[i].phase.place] == i)
  }

  ghost predicate CallsOk(s: State) {
    forall i :: 0 <= i < |s.calls| ==> CallOk(s, s.calls[i])
  }

  ghost predicate Inv(s: State) {
    && LogOk(s) && CallsOk(s)
    && s.value == Fold(0.0, Committed(s.calls, s.log))
    && s.count == |s.calls| % U64
    && |s.log| + InFlight(s.calls) == |s.calls|
    && DoneFails(s.calls) <= Pairs(|s.log|)
  }

  lemma CommittedStable(calls: seq<Call>, calls': seq<Call>, log: seq<nat>)
    requires forall k :: 0 <= k < |log| ==> log[k] < |calls| && log[k] < |calls'|
    requires forall k :: 0 <= k < |log| ==> calls'[log[k]].sample == calls[log[k]].sample
    ensures Committed(calls', log) == Committed(calls, log)
  {
  }

  lemma BeginKeepsOk(s: State, sample: real)
    requires LogOk(s) && CallsOk(s)
    ensures LogOk(Apply(s, Begin(sample))) && CallsOk(Apply(s, Begin(sample)))
  {
    var s' := Apply(s, Begin(sample));
    forall j | 0 <= j < |s'.calls|
      ensures CallOk(s', s'.calls[j])
    {
      assert j < |s.calls| ==> CallOk(s, s.calls[j]);
    }
  }

  lemma BeginKeepsInv(s: State, sample: real)
    requires Inv(s)
    ensures Inv(Apply(s, Begin(sample)))
  {
    BeginKeepsOk(s, sample);
    SumsBegin(s.calls, Call(sample, |s.log|, 0, Ready));
    CommittedStable(s.calls, Apply(s, Begin(sample)).calls, s.log);
    CountUp(|s.calls|);
  }

  lemma RetryKeepsOk(s: State, e: Step)
    requires LogOk(s) && CallsOk(s) && Enabled(s, e) && (e.Load? || Fails(s, e))
    ensures LogOk(Apply(s, e)) && CallsOk(Apply(s, e))
  {
    var s' := Apply(s, e);
    forall j | 0 <= j < |s'.calls|
      ensures CallOk(s', s'.calls[j])
    {
      assert CallOk(s, s.calls[j]);
    }
  }

  /** A load, or a failed swap: only the call itself changes. */
  lemma RetryKeepsInv(s: State, e: Step)
    requires Inv(s) && Enabled(s, e) && (e.Load? || Fails(s, e))
    ensures Inv(Apply(s, e))
  {
    RetryKeepsOk(s, e);
    SumsUpdate(s.calls, e.id, Apply(s, e).calls[e.id]);
    CommittedStable(s.calls, Apply(s, e).calls, s.log);
  }

  lemma CommitKeepsOk(s: State, i: nat)
    requires LogOk(s) && CallsOk(s) && Enabled(s, Cas(i)) && !Fails(s, Cas(i))
    ensures LogOk(Apply(s, Cas(i))) && CallsOk(Apply(s, Cas(i)))
  {
    var s' := Apply(s, Cas(i));
    assert CallOk(s, s.calls[i]);
    assert i !in s.log;
    forall j | 0 <= j < |s'.calls|
      ensures CallOk(s', s'.calls[j])
    {
      assert CallOk(s, s.calls[j]);
    }
  }

  lemma CommitAppends(s: State, i: nat)
    requires LogOk(s) && Enabled(s, Cas(i)) && !Fails(s, Cas(i)) && LogOk(Apply(s, Cas(i)))
    ensures var s' := Apply(s, Cas(i));
            Committed(s'.calls, s'.log) == Committed(s.calls, s.log) + [s.calls[i].sample]
  {
    var s' := Apply(s, Cas(i));
    CommittedStable(s.calls, s'.calls, s.log);
    assert s'.log[..|s.log|] == s.log;
  }

  lemma CommitKeepsInv(s: State, i: nat)
    requires Inv(s) && Enabled(s, Cas(i)) && !Fails(s, Cas(i))
    ensures Inv(Apply(s, Cas(i)))
  {
    CommitKeepsOk(s, i);
    CommitAppends(s, i);
    FoldOne(Committed(s.calls, s.log), s.calls[i].sample);
    SumsUpdate(s.calls, i, Apply(s, Cas(i)).calls[i]);
    assert CallOk(s, s.calls[i]);
  }

  lemma StepKeepsInv(s: State, e: Step)
    requires Inv(s) && Enabled(s, e)
    ensures Inv(Apply(s, e))
  {
    if e.Begin? {
      BeginKeepsInv(s, e.sample);
    } else if e.Load? || Fails(s, e) {
      RetryKeepsInv(s, e);
    } else {
      CommitKeepsInv(s, e.id);
    }
  }

  lemma {:induction false} RunKeepsInv(steps: seq<Step>, s: State)
    requires Run(steps) == Some(s)
    ensures Inv(s)
  {
    if steps != [] {
      var before := Run(steps[..|steps| - 1]).value;
      RunKeepsInv(steps[..|steps| - 1], before);
      StepKeepsInv(before, steps[|steps| - 1]);
    }
  }

  /** Linearizability: after every run the shared average is the fold of the smoothing step over the samples in
      commit order, each finished call occurs in that order exactly once and nothing else does, and the counter is
      the number of committed calls plus those in flight (modulo 2^64). */
  lemma Linearizable(steps: seq<Step>, s: State)
    requires Run(steps) == Some(s)
    ensures LogOk(s)
    ensures s.value == Fold(0.0, Committed(s.calls, s.log))
    ensures s.count == (|s.log| + InFlight(s.calls)) % U64
  {
    RunKeepsInv(steps, s);
    assert Inv(s) ==> s.count == (|s.log| + InFlight(s.calls)) % U64;
  }

  predicate CallsExtend(p: State, s: State) {
    && |p.calls| <= |s.calls| && p.log <= s.log
    && (forall i :: 0 <= i < |p.calls| && p.calls[i].phase.Done? ==> s.calls[i] == p.calls[i])
    && (forall i :: |p.calls| <= i < |s.calls| ==> s.calls[i].begun >= |p.log|)
  }

  lemma {:induction false} RunExtends(steps: seq<Step>, n: nat, p: State, s: State)
    requires n <= |steps| && Run(steps[..n]) == Some(p) && Run(steps) == Some(s)
    ensures CallsExtend(p, s)
  {
    if n == |steps| {
      assert steps[..n] == steps;
    } else {
      var init := steps[..|steps| - 1];
      assert init[..n] == steps[..n];
      RunExtends(init, n, p, Run(init).value);
    }
  }

  /** The commit order respects real time: a call that had finished after n steps, before another began, comes
      before it. */
  lemma CommitOrderRespectsRealTime(steps: seq<Step>, n: nat, p: State, s: State, i: nat, j: nat)
    requires n <= |steps| && Run(steps[..n]) == Some(p) && Run(steps) == Some(s)
    requires i < |p.calls| && p.calls[i].phase.Done?
    requires |p.calls| <= j < |s.calls| && s.calls[j].phase.Done?
    ensures s.calls[i].phase.Done? && s.calls[i].phase.place < s.calls[j].phase.place
  {
    RunKeepsInv(steps[..n], p);
    RunKeepsInv(steps, s);
    RunExtends(steps, n, p, s);
    assert CallOk(p, p.calls[i]) && CallOk(s, s.calls[j]);
  }

  /** m commits and the open calls after them form at least m pairs for each open call. */
  lemma {:induction false} OpenFailsBound(calls: seq<Call>, m: nat)
    requires forall i :: 0 <= i < |calls| && !calls[i].phase.Done? ==> calls[i].fails <= m
    ensures Pairs(m) + OpenFails(calls) <= Pairs(m + InFlight(calls))
  {
    if calls != [] {
      OpenFailsBound(calls[..|calls| - 1], m);
    }
  }

  lemma {:induction false} RunAccounts(steps: seq<Step>, s: State)
    requires Run(steps) == Some(s)
    ensures FailedSwaps(steps) == DoneFails(s.calls) + OpenFails(s.calls)
    ensures |steps| == |s.calls| + 2 * FailedSwaps(steps) + Progress(s.calls)
  {
    if steps != [] {
      var init, e := steps[..|steps| - 1], steps[|steps| - 1];
      var p := Run(init).value;
      RunAccounts(init, p);
      if e.Begin? {
        SumsBegin(p.calls, Call(e.sample, |p.log|, 0, Ready));
      } else {
        SumsUpdate(p.calls, e.id, s.calls[e.id]);
      }
    }
  }

  lemma {:induction false} ProgressBound(calls: seq<Call>)
    ensures Progress(calls) <= 2 * |calls|
  {
    if calls != [] {
      ProgressBound(calls[..|calls| - 1]);
    }
  }

  lemma OpenFailsFew(s: State)
    requires CallsOk(s)
    ensures forall i :: 0 <= i < |s.calls| && !s.calls[i].phase.Done? ==> s.calls[i].fails <= |s.log|
  {
    forall i | 0 <= i < |s.calls| && !s.calls[i].phase.Done?
      ensures s.calls[i].fails <= |s.log|
    {
      assert CallOk(s, s.calls[i]);
    }
  }

  lemma FailedSwapsWithinPairs(steps: seq<Step>, s: State)
    requires Run(steps) == Some(s)
    ensures FailedSwaps(steps) <= Pairs(|s.calls|)
  {
    RunKeepsInv(steps, s);
    RunAccounts(steps, s);
    OpenFailsFew(s);
    OpenFailsBound(s.calls, |s.log|);
  }

  lemma RunLength(steps: seq<Step>, s: State)
    requires Run(steps) == Some(s)
    ensures |steps| <= 3 * |s.calls| + 2 * FailedSwaps(steps)
  {
    RunAccounts(steps, s);
    ProgressBound(s.calls);
  }

  /** n calls make at most n(n-1)/2 failed swaps in all, and no run of them is longer than n(n-1) + 3n steps, so
      every call returns. */
  lemma FailedSwapsBound(steps: seq<Step>, s: State)
    requires Run(steps) == Some(s)
    ensures 2 * FailedSwaps(steps) <= |s.calls| * (|s.calls| - 1)
    ensures |steps| <= |s.calls| * (|s.calls| - 1) + 3 * |s.calls|
  {
    FailedSwapsWithinPairs(steps, s);
    RunLength(steps, s);
    PairsClosedForm(|s.calls|);
  }

  // The bound is attained: in round r every open call loads, call r commits and all the others then fail.

  /** Call 0 samples one millisecond, the others two. */
  function RoundSample(i: nat): real {
    if i == 0 then 1.0 else 2.0
  }

  /** The average at the start of round r. It differs from round to round. */
  function RoundValue(r: nat): (v: real)
    ensures r > 0 ==> 1.0 <= v < 2.0
  {
    if r == 0 then 0.0 else Smooth(RoundValue(r - 1), RoundSample(r - 1))
  }

  lemma RoundValueChanges(r: nat)
    ensures RoundValue(r + 1) != RoundValue(r)
  {
    if r > 0 {
      assert RoundValue(r + 1) - RoundValue(r) == 0.3 * (2.0 - RoundValue(r));
    }
  }

  lemma Extend(steps: seq<Step>, s: State, e: Step)
    requires Run(steps) == Some(s) && Enabled(s, e)
    ensures Run(steps + [e]) == Some(Apply(s, e))
    ensures FailedSwaps(steps + [e]) == FailedSwaps(steps) + if Fails(s, e) then 1 else 0
  {
    assert (steps + [e])[..|steps|] == steps;
  }

  /** Calls lo.. are open, those below `mid` have loaded `seen`; the rest still have to load. */
  predicate Round(s: State, n: nat, lo: nat, mid: nat, seen: real) {
    && |s.calls| == n && lo <= mid <= n
    && (forall i :: lo <= i < n ==> s.calls[i].sample == RoundSample(i))
    && (forall i :: lo <= i < mid ==> s.calls[i].phase.Loaded? && s.calls[i].phase.seen == seen)
    && (forall i :: mid <= i < n ==> s.calls[i].phase.Ready?)
  }

  lemma {:induction false} BeginAll(n: nat) returns (steps: seq<Step>, s: State)
    ensures Run(steps) == Some(s) && FailedSwaps(steps) == 0
    ensures Round(s, n, 0, 0, 0.0) && s.value == 0.0
  {
    if n == 0 {
      steps, s := [], INIT;
    } else {
      steps, s := BeginAll(n - 1);
      var e := Begin(RoundSample(n - 1));
      Extend(steps, s, e);
      steps, s := steps + [e], Apply(s, e);
    }
  }

  lemma {:induction false} LoadAll(steps: seq<Step>, s: State, n: nat, lo: nat, mid: nat)
      returns (steps': seq<Step>, s': State)
    requires Run(steps) == Some(s) && Round(s, n, lo, mid, s.value)
    ensures Run(steps') == Some(s') && FailedSwaps(steps') == FailedSwaps(steps)
    ensures Round(s', n, lo, n, s.value) && s'.value == s.value
    decreases n - mid
  {
    if mid == n {
      steps', s' := steps, s;
    } else {
      Extend(steps, s, Load(mid));
      steps', s' := LoadAll(steps + [Load(mid)], Apply(s, Load(mid)), n, lo, mid + 1);
    }
  }

  /** The calls lo..hi-1, last first, find that the value they loaded is gone. */
  lemma {:induction false} FailAll(steps: seq<Step>, s: State, n: nat, lo: nat, hi: nat, seen: real)
      returns (steps': seq<Step>, s': State)
    requires Run(steps) == Some(s) && Round(s, n, lo, hi, seen) && s.value != seen
    ensures Run(steps') == Some(s') && FailedSwaps(steps') == FailedSwaps(steps) + (hi - lo)
    ensures Round(s', n, lo, lo, seen) && s'.value == s.value
    decreases hi - lo
  {
    if lo == hi {
      steps', s' := steps, s;
    } else {
      Extend(steps, s, Cas(hi - 1));
      steps', s' := FailAll(steps + [Cas(hi - 1)], Apply(s, Cas(hi - 1)), n, lo, hi - 1, seen);
    }
  }

  lemma {:induction false} PlayRounds(n: nat, r: nat) returns (steps: seq<Step>, s: State)
    requires r <= n
    ensures Run(steps) == Some(s) && FailedSwaps(steps) + Pairs(n - r) == Pairs(n)
    ensures Round(s, n, r, r, RoundValue(r)) && s.value == RoundValue(r)
  {
    if r == 0 {
      steps, s := BeginAll(n);
    } else {
      steps, s := PlayRounds(n, r - 1);
      steps, s := LoadAll(steps, s, n, r - 1, r - 1);
      Extend(steps, s, Cas(r - 1));
      steps, s := steps + [Cas(r - 1)], Apply(s, Cas(r - 1));
      RoundValueChanges(r - 1);
      steps, s := FailAll(steps, s, n, r, n, RoundValue(r - 1));
    }
  }

  /** For every n some run of n calls fails exactly n(n-1)/2 swaps: the bound cannot be lowered. */
  lemma FailedSwapsBoundIsTight(n: nat) returns (steps: seq<Step>, s: State)
    ensures Run(steps) == Some(s) && |s.calls| == n
    ensures 2 * FailedSwaps(steps) == n * (n - 1)
  {
    steps, s := PlayRounds(n, n);
    PairsClosedForm(n);
  }

  /** Lock freedom: a swap fails only if another call has committed since this one loaded. */
  lemma FailureMeansRivalCommitted(steps: seq<Step>, s: State, i: nat)
    requires Run(steps) == Some(s) && Enabled(s, Cas(i)) && Fails(s, Cas(i))
    ensures s.calls[i].phase.at < |s.log|
    ensures forall k :: s.calls[i].phase.at <= k < |s.log| ==> s.log[k] != i
  {
    RunKeepsInv(steps, s);
    assert CallOk(s, s.calls[i]);
  }

  /** With positive samples the average reads as the sentinel 0.0 exactly while nothing has been committed. So an
      endpoint is counted as measured and yet reads 0.0 exactly when calls have begun and none has committed. */
  lemma ZeroIffNothingCommitted(steps: seq<Step>, s: State)
    requires Run(steps) == Some(s) && |s.calls| < U64
    requires forall i :: 0 <= i < |s.calls| ==> s.calls[i].sample > 0.0
    ensures s.value == 0.0 <==> s.log == []
    ensures s.count > 0 && s.value == 0.0 <==> s.calls != [] && s.log == []
  {
    RunKeepsInv(steps, s);
    FoldStaysPositive(Committed(s.calls, s.log));
  }
}
