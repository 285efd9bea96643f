/** The latency-aware balancer of one backend (internal/proxy/balancer.go). */
module Balancer {
  import opened Wrappers
  import opened Latency

  /** math.MaxFloat64. */
  const MAX_FLOAT: real := 179769313486231570814527423731704356798070567525844996598917476803157260780028538760589558632766878171540458953514382464234321326889464182768467546703537516986049910576551282076245490090389328944075868508455133942304583236903222948165808559332123347764797926204144723168738177180919299881250404026184124858368.0

  /** One call's random numbers: whether it explores, and the index it would pick then
      (reduced to the range of the indices). */
  datatype Draw = Draw(explore: bool, pick: nat)

  /** What the balancer knows of its endpoints: the samples of each, in commit order. */
  type Histories = seq<seq<real>>

  datatype Stat = Stat(url: string, value: real, count: nat)

  /** The index that endpointIndex holds for a URL: its last position. */
  function LastIndex(endpoints: seq<string>, url: string): (r: Option<nat>)
    ensures r.Some? ==> r.value < |endpoints| && endpoints[r.value] == url
    ensures r.Some? ==> forall j :: r.value < j < |endpoints| ==> endpoints[j] != url
    ensures r.None? ==> url !in endpoints
  {
    if endpoints == [] then None
    else if endpoints[|endpoints| - 1] == url then Some(|endpoints| - 1)
    else LastIndex(endpoints[..|endpoints| - 1], url)
  }

  /** Recording a sample: unknown URLs are ignored. */
  function Recorded(endpoints: seq<string>, hist: Histories, url: string, sample: real): (r: Histories)
    requires |hist| == |endpoints|
    ensures |r| == |hist|
  {
    match LastIndex(endpoints, url)
    case None => hist
    case Some(i) => hist[i := hist[i] + [sample]]
  }

  predicate Measured(samples: seq<real>) {
    |samples| % U64 > 0
  }

  predicate AllMeasured(hist: Histories) {
    forall j :: 0 <= j < |hist| ==> Measured(hist[j])
  }

  predicate HasData(hist: Histories) {
    exists j :: 0 <= j < |hist| && Measured(hist[j])
  }

  /** The value compared by the selection loop; nothing at or above MAX_FLOAT is ever preferred. */
  function Compared(samples: seq<real>): real {
    var v := Fold(0.0, samples);
    if v < MAX_FLOAT then v else MAX_FLOAT
  }

  /** b is the first endpoint with the least average. */
  predicate Fastest(hist: Histories, b: nat) {
    && b < |hist|
    && (forall j :: 0 <= j < |hist| ==> Compared(hist[b]) <= Compared(hist[j]))
    && (forall j :: 0 <= j < b ==> Compared(hist[b]) < Compared(hist[j]))
  }

  predicate FirstUnmeasured(hist: Histories, b: nat) {
    b < |hist| && !Measured(hist[b]) && forall j :: 0 <= j < b ==> Measured(hist[j])
  }

  /** Which index `Next` returns, given two or more endpoints. */
  predicate Chosen(hist: Histories, counter: nat, draw: Draw, b: nat)
    requires |hist| > 0
  {
    if !HasData(hist) then b == counter % |hist|
    else if draw.explore then b == draw.pick % |hist|
    else if AllMeasured(hist) then Fastest(hist, b)
    else FirstUnmeasured(hist, b)
  }

  /** The index maps every listed URL to its last position. */
  ghost predicate Indexes(index: map<string, nat>, endpoints: seq<string>) {
    && (forall u :: u in index <==> LastIndex(endpoints, u).Some?)
    && (forall u :: u in index ==> LastIndex(endpoints, u) == Some(index[u]))
  }

  lemma IndexesOneMore(index: map<string, nat>, endpoints: seq<string>, i: nat)
    requires i < |endpoints| && Indexes(index, endpoints[..i])
    ensures Indexes(index[endpoints[i] := i], endpoints[..i + 1])
  {
    assert endpoints[..i + 1][..i] == endpoints[..i];
  }

  class Balancer {
    const endpoints: seq<string>
    var counter: nat
    const latencies: seq<Ewma>
    const endpointIndex: map<string, nat>
    ghost const Repr: set<object>
    /** The samples of each endpoint. */
    ghost var View: Histories

    ghost predicate Valid()
      reads this, Repr
    {
      && this in Repr && (forall i :: 0 <= i < |latencies| ==> latencies[i] in Repr)
      && |latencies| == |endpoints| == |View|
      && (forall i, j :: 0 <= i < j < |latencies| ==> latencies[i] != latencies[j])
      && (forall i :: 0 <= i < |latencies| ==>
            latencies[i].Valid() && latencies[i].samples == View[i] && latencies[i].count == |View[i]| % U64)
      && Indexes(endpointIndex, endpoints)
      && counter < U64
    }

    constructor (endpoints: seq<string>)
      ensures Valid() && fresh(Repr)
      ensures this.endpoints == endpoints && counter == 0
      ensures View == Blank(|endpoints|)
    {
      var index: map<string, nat> := map[];
      var averages: seq<Ewma> := [];
      ghost var owned: set<object> := {};
      var i := 0;
      while i < |endpoints|
        invariant 0 <= i == |averages| <= |endpoints|
        invariant forall j, k :: 0 <= j < k < i ==> averages[j] != averages[k]
        invariant fresh(owned) && forall j :: 0 <= j < i ==> averages[j] in owned
        invariant forall j {:trigger averages[j]} :: 0 <= j < i ==>
                    averages[j].Valid() && averages[j].count == 0 && averages[j].samples == []
        invariant Indexes(index, endpoints[..i])
      {
        IndexesOneMore(index, endpoints, i);
        index := index[endpoints[i] := i];
        var average := new Ewma();
        averages := averages + [average];
        owned := owned + {average};
        i := i + 1;
      }
      assert endpoints[..i] == endpoints;
      this.endpoints, this.counter, this.latencies, this.endpointIndex := endpoints, 0, averages, index;
      this.Repr, this.View := {this} + owned, Blank(|endpoints|);
    }

    /** The scan for any latency data. */
    method HasLatencyData() returns (hasData: bool)
      requires Valid()
      ensures hasData == HasData(View)
    {
      for k := 0 to |latencies|
        invariant forall j :: 0 <= j < k ==> !Measured(View[j])
      {
        if latencies[k].count > 0 {
          assert Measured(View[k]);
          return true;
        }
      }
      return false;
    }

    /** The selection loop: the first unmeasured endpoint, else the first of the fastest. */
    method ByLatency() returns (best: nat)
      requires Valid() && |endpoints| > 0
      ensures best < |endpoints|
      ensures if AllMeasured(View) then Fastest(View, best) else FirstUnmeasured(View, best)
    {
      best := 0;
      var bestVal := MAX_FLOAT;
      for i := 0 to |latencies|
        invariant 0 <= best < |endpoints|
        invariant forall j :: 0 <= j < i ==> Measured(View[j])
        invariant forall j :: 0 <= j < i ==> bestVal <= Compared(View[j])
        invariant forall j :: 0 <= j < best ==> bestVal < Compared(View[j])
        invariant if best < i then bestVal == Compared(View[best]) else best == 0 && bestVal == MAX_FLOAT
      {
        if latencies[i].count == 0 {
          assert !Measured(View[i]);
          return i;
        }
        var v := latencies[i].Value();
        if v < bestVal {
          bestVal, best := v, i;
        }
      }
    }

    /** Selects an endpoint. */
    method Next(draw: Draw) returns (url: string)
      requires Valid()
      modifies this`counter
      ensures Valid() && View == old(View)
      ensures |endpoints| == 0 ==> url == ""
      ensures |endpoints| == 1 ==> url == endpoints[0]
      ensures |endpoints| > 1 ==>
                exists b :: 0 <= b < |endpoints| && url == endpoints[b] && Chosen(View, old(counter), draw, b)
      ensures counter == if |endpoints| > 1 && !HasData(View) then (old(counter) + 1) % U64 else old(counter)
    {
      var n := |endpoints|;
      if n == 0 {
        return "";
      }
      if n == 1 {
        return endpoints[0];
      }
      var b: nat;
      var hasData := HasLatencyData();
      if !hasData {
        b := counter % n;
        counter := (counter + 1) % U64;
      } else if draw.explore {
        b := draw.pick % n;
      } else {
        b := ByLatency();
      }
      assert Chosen(View, old(counter), draw, b);
      return endpoints[b];
    }

    method RecordLatency(endpoint: string, ns: int)
      requires Valid()
      modifies Repr
      ensures Valid() && counter == old(counter)
      ensures View == Recorded(endpoints, old(View), endpoint, Millis(ns))
    {
      if endpoint in endpointIndex {
        var i := endpointIndex[endpoint];
        CountUp(|View[i]|);
        var _ := latencies[i].Update(ns, []);
        View := View[i := View[i] + [Millis(ns)]];
        assert latencies[i].samples == View[i];
      }
    }

    method Stats() returns (stats: seq<Stat>)
      requires Valid()
      ensures |stats| == |endpoints|
      ensures forall i :: 0 <= i < |stats| ==>
                stats[i] == Stat(endpoints[i], Fold(0.0, View[i]), |View[i]| % U64)
    {
      stats := [];
      for i := 0 to |endpoints|
        invariant |stats| == i
        invariant forall j :: 0 <= j < i ==> stats[j] == Stat(endpoints[j], Fold(0.0, View[j]), |View[j]| % U64)
      {
        var v := latencies[i].Value();
        stats := stats + [Stat(endpoints[i], v, latencies[i].count)];
      }
    }
  }

  // Latency-based selection.

  function Least(s: seq<real>): (m: real)
    requires s != []
    ensures m in s && forall x :: x in s ==> m <= x
  {
    assert s == [s[0]] + s[1..];
    if |s| == 1 then s[0] else var m := Least(s[1..]); if s[0] < m then s[0] else m
  }

  function Greatest(s: seq<real>): (m: real)
    requires s != []
    ensures m in s && forall x :: x in s ==> x <= m
  {
    assert s == [s[0]] + s[1..];
    if |s| == 1 then s[0] else var m := Greatest(s[1..]); if m < s[0] then s[0] else m
  }

  lemma AverageInRange(samples: seq<real>)
    requires samples != []
    ensures Least(samples) <= Fold(0.0, samples) <= Greatest(samples)
  {
    assert forall i :: 0 <= i < |samples| ==> samples[i] in samples;
    FoldStaysInRange(0.0, samples, Least(samples), Greatest(samples));
  }

  /** An endpoint each of whose recorded latencies exceeds every latency recorded for another one is never picked
      by the latency-based branch. */
  lemma FastestWins(hist: Histories, a: nat, b: nat, picked: nat)
    requires a < |hist| && b < |hist| && Fastest(hist, picked)
    requires hist[a] != [] && hist[b] != []
    requires forall x, y :: x in hist[a] && y in hist[b] ==> x < y
    requires forall x :: x in hist[a] ==> x < MAX_FLOAT
    ensures picked != b
  {
    AverageInRange(hist[a]);
    AverageInRange(hist[b]);
    assert Fold(0.0, hist[a]) <= Greatest(hist[a]) < Least(hist[b]) <= Fold(0.0, hist[b]);
  }

  /** A sequence of recordings. */
  function RecordAll(endpoints: seq<string>, hist: Histories, log: seq<(string, real)>): (r: Histories)
    requires |hist| == |endpoints|
    ensures |r| == |hist|
  {
    if log == [] then hist
    else
      var last := log[|log| - 1];
      Recorded(endpoints, RecordAll(endpoints, hist, log[..|log| - 1]), last.0, last.1)
  }

  function Blank(n: nat): (h: Histories)
    ensures |h| == n && forall i :: 0 <= i < n ==> h[i] == []
  {
    seq(n, i => [])
  }

  lemma {:induction false} ShadowedStaysBlank(endpoints: seq<string>, log: seq<(string, real)>, i: nat, j: nat)
    requires i < j < |endpoints| && endpoints[i] == endpoints[j]
    ensures RecordAll(endpoints, Blank(|endpoints|), log)[i] == []
  {
    if log != [] {
      ShadowedStaysBlank(endpoints, log[..|log| - 1], i, j);
    }
  }

  lemma {:induction false} LastIndexOfDistinct(endpoints: seq<string>, i: nat)
    requires i < |endpoints| && forall j :: i < j < |endpoints| ==> endpoints[i] != endpoints[j]
    ensures LastIndex(endpoints, endpoints[i]) == Some(i)
  {
  }

  lemma RecordOneMore(endpoints: seq<string>, hist: Histories, log: seq<(string, real)>, e: (string, real), i: nat)
    requires |hist| == |endpoints| && i < |endpoints| && LastIndex(endpoints, e.0) == Some(i)
    ensures var h := RecordAll(endpoints, hist, log);
            RecordAll(endpoints, hist, log + [e]) == h[i := h[i] + [e.1]]
  {
    assert (log + [e])[..|log|] == log;
  }

  /** The first k endpoints have one sample each, the others none. */
  predicate OnceEach(h: Histories, k: nat) {
    forall i :: 0 <= i < |h| ==> |h[i]| == if i < k then 1 else 0
  }

  lemma {:induction false} RecordOnceEach(endpoints: seq<string>, k: nat) returns (log: seq<(string, real)>)
    requires k <= |endpoints| && forall i, j :: 0 <= i < j < |endpoints| ==> endpoints[i] != endpoints[j]
    ensures OnceEach(RecordAll(endpoints, Blank(|endpoints|), log), k)
  {
    if k == 0 {
      log := [];
    } else {
      var prefix := RecordOnceEach(endpoints, k - 1);
      LastIndexOfDistinct(endpoints, k - 1);
      RecordOneMore(endpoints, Blank(|endpoints|), prefix, (endpoints[k - 1], 1.0), k - 1);
      log := prefix + [(endpoints[k - 1], 1.0)];
    }
  }

  /** Selection by latency can be reached exactly when no URL is listed twice: the earlier copy of a repeated URL is
      never measured, so the search stops at it for ever. */
  lemma LatencySelectionNeedsDistinctEndpoints(endpoints: seq<string>)
    ensures (exists log :: AllMeasured(RecordAll(endpoints, Blank(|endpoints|), log))) <==>
            (forall i, j :: 0 <= i < j < |endpoints| ==> endpoints[i] != endpoints[j])
  {
    if forall i, j :: 0 <= i < j < |endpoints| ==> endpoints[i] != endpoints[j] {
      var log := RecordOnceEach(endpoints, |endpoints|);
      assert AllMeasured(RecordAll(endpoints, Blank(|endpoints|), log));
    } else {
      var i, j :| 0 <= i < j < |endpoints| && endpoints[i] == endpoints[j];
      forall log
        ensures !AllMeasured(RecordAll(endpoints, Blank(|endpoints|), log))
      {
        ShadowedStaysBlank(endpoints, log, i, j);
      }
    }
  }

  // Round-robin fairness.

  /** How often k consecutive tickets from `start` on select index i of n. */
  function Picks(start: nat, k: nat, n: nat, i: nat): nat
    requires n > 0
  {
    if k == 0 then 0 else Picks(start, k - 1, n, i) + (if Selected(start + k - 1, n) == i then 1 else 0)
  }

  /** The index selected by the t-th ticket; tickets are 64-bit. */
  function Selected(t: nat, n: nat): nat
    requires n > 0
  {
    (t % U64) % n
  }

  lemma SelectedBelowWrap(t: nat, n: nat)
    requires n > 0 && t < U64
    ensures Selected(t, n) == t % n
  {
    assert t % U64 == t;
  }

  /** Moving on by one ticket crosses a multiple of n exactly when the ticket selects i. */
  lemma DivStep(k: nat, n: nat, i: nat)
    requires 0 <= i < n
    ensures (k + 1 + (n - 1 - i)) / n == (k + (n - 1 - i)) / n + if k % n == i then 1 else 0
  {
    var q, r := k / n, k % n;
    assert k == q * n + r;
    assert (q + 1) * n == q * n + n;
    if r < i {
      DivUnique(k + (n - 1 - i), n, q, r + n - 1 - i);
      DivUnique(k + 1 + (n - 1 - i), n, q, r + n - i);
    } else if r == i {
      DivUnique(k + (n - 1 - i), n, q, n - 1);
      DivUnique(k + 1 + (n - 1 - i), n, q + 1, 0);
    } else {
      DivUnique(k + (n - 1 - i), n, q + 1, r - 1 - i);
      DivUnique(k + 1 + (n - 1 - i), n, q + 1, r - i);
    }
  }

  lemma {:induction false} PicksFromZero(k: nat, n: nat, i: nat)
    requires 0 <= i < n && k <= U64
    ensures Picks(0, k, n, i) == (k + (n - 1 - i)) / n
  {
    if k == 0 {
      DivUnique(n - 1 - i, n, 0, n - 1 - i);
    } else {
      PicksFromZero(k - 1, n, i);
      SelectedBelowWrap(k - 1, n);
      DivStep(k - 1, n, i);
      assert k - 1 + 1 + (n - 1 - i) == k + (n - 1 - i);
    }
  }

  lemma {:induction false} PicksSplit(start: nat, k: nat, n: nat, i: nat)
    requires n > 0
    ensures Picks(0, start + k, n, i) == Picks(0, start, n, i) + Picks(start, k, n, i)
  {
    if k > 0 {
      PicksSplit(start, k - 1, n, i);
    }
  }

  lemma FloorOfSum(a: nat, k: nat, n: nat)
    requires n > 0
    ensures (a + k) / n == a / n + k / n + if a % n + k % n < n then 0 else 1
  {
    var q, r := a / n + k / n, a % n + k % n;
    assert (a / n + k / n) * n == a / n * n + k / n * n;
    assert a + k == q * n + r;
    if r < n {
      DivUnique(a + k, n, q, r);
    } else {
      assert (q + 1) * n == q * n + n;
      DivUnique(a + k, n, q + 1, r - n);
    }
  }

  lemma CeilingOf(k: nat, n: nat)
    requires n > 0
    ensures (k + n - 1) / n == k / n + if k % n == 0 then 0 else 1
  {
    var q, r := k / n, k % n;
    assert k == q * n + r;
    if r == 0 {
      DivUnique(k + n - 1, n, q, n - 1);
    } else {
      assert (q + 1) * n == q * n + n;
      DivUnique(k + n - 1, n, q + 1, r - 1);
    }
  }

  /** Any k consecutive tickets below 2^64, whoever draws them, select each of n endpoints k/n times, rounded down or
      up. */
  lemma TicketsAreFair(start: nat, k: nat, n: nat, i: nat)
    requires 0 <= i < n && start + k <= U64
    ensures k / n <= Picks(start, k, n, i) <= (k + n - 1) / n
  {
    PicksSplit(start, k, n, i);
    PicksFromZero(start, n, i);
    PicksFromZero(start + k, n, i);
    FloorOfSum(start + (n - 1 - i), k, n);
    CeilingOf(k, n);
  }

  /** How often an index was chosen. */
  function Times(picks: seq<nat>, i: nat): nat {
    if picks == [] then 0 else Times(picks[..|picks| - 1], i) + if picks[|picks| - 1] == i then 1 else 0
  }

  /** What the contract of `Next` says about successive calls, in whatever order their callers get their tickets, while
      nothing has been measured. */
  predicate NextRun(hist: Histories, counters: seq<nat>, draws: seq<Draw>, picks: seq<nat>)
    requires |hist| > 0
  {
    && |counters| == |picks| + 1 && |draws| == |picks|
    && (forall j :: 0 <= j < |picks| ==> Chosen(hist, counters[j], draws[j], picks[j]))
    && (forall j :: 0 <= j < |picks| ==> counters[j + 1] == (counters[j] + 1) % U64)
  }

  lemma {:induction false} NextRunTakesTickets(hist: Histories, counters: seq<nat>, draws: seq<Draw>, picks: seq<nat>,
                                               i: nat)
    requires |hist| > 0 && !HasData(hist) && NextRun(hist, counters, draws, picks)
    requires counters[0] + |picks| <= U64 && counters[0] < U64
    ensures Times(picks, i) == Picks(counters[0], |picks|, |hist|, i)
    ensures counters[|picks|] == (counters[0] + |picks|) % U64
  {
    var k := |picks|;
    if k > 0 {
      assert NextRun(hist, counters[..k], draws[..k - 1], picks[..k - 1]);
      NextRunTakesTickets(hist, counters[..k], draws[..k - 1], picks[..k - 1], i);
      CountUp(counters[0] + k - 1);
    }
  }

  /** k successive calls of `Next` before any latency is recorded choose each of the n endpoints k/n times, rounded
      down or up. */
  lemma RoundRobinIsFair(hist: Histories, counters: seq<nat>, draws: seq<Draw>, picks: seq<nat>, i: nat)
    requires |hist| > 0 && !HasData(hist) && NextRun(hist, counters, draws, picks)
    requires counters[0] + |picks| <= U64 && counters[0] < U64 && i < |hist|
    ensures |picks| / |hist| <= Times(picks, i) <= (|picks| + |hist| - 1) / |hist|
  {
    NextRunTakesTickets(hist, counters, draws, picks, i);
    TicketsAreFair(counters[0], |picks|, |hist|, i);
  }

  lemma NextRunMore(hist: Histories, counters: seq<nat>, draws: seq<Draw>, picks: seq<nat>, draw: Draw, pick: nat,
                    counter: nat)
    requires |hist| > 0 && NextRun(hist, counters, draws, picks)
    requires Chosen(hist, counters[|picks|], draw, pick) && counter == (counters[|picks|] + 1) % U64
    ensures NextRun(hist, counters + [counter], draws + [draw], picks + [pick])
  {
  }

  /** Such a run of a balancer: the tickets that its calls draw are those that the lemma counts. */
  method DrawRun(b: Balancer, draws: seq<Draw>)
      returns (urls: seq<string>, ghost counters: seq<nat>, ghost picks: seq<nat>)
    requires b.Valid() && |b.endpoints| > 1 && !HasData(b.View)
    modifies b`counter
    ensures b.Valid() && b.View == old(b.View)
    ensures NextRun(b.View, counters, draws, picks) && counters[0] == old(b.counter)
    ensures |urls| == |picks|
    ensures forall j :: 0 <= j < |urls| ==> picks[j] < |b.endpoints| && urls[j] == b.endpoints[picks[j]]
  {
    urls, counters, picks := [], [b.counter], [];
    for k := 0 to |draws|
      invariant b.Valid() && b.View == old(b.View)
      invariant |urls| == |picks| == k && NextRun(b.View, counters, draws[..k], picks)
      invariant counters[k] == b.counter && counters[0] == old(b.counter)
      invariant forall j :: 0 <= j < k ==> picks[j] < |b.endpoints| && urls[j] == b.endpoints[picks[j]]
    {
      ghost var counter := b.counter;
      var url := b.Next(draws[k]);
      ghost var i :| 0 <= i < |b.endpoints| && url == b.endpoints[i] && Chosen(b.View, counter, draws[k], i);
      NextRunMore(b.View, counters, draws[..k], picks, draws[k], i, b.counter);
      assert draws[..k + 1] == draws[..k] + [draws[k]];
      urls, picks, counters := urls + [url], picks + [i], counters + [b.counter];
    }
    assert draws[..|draws|] == draws;
  }
}
