/** The exponentially weighted moving average of one endpoint's latency (internal/proxy/latency.go). */
module Latency {
  import opened Wrappers

  /** The smoothing factor. */
  const ALPHA := 0.3

  /** A duration in nanoseconds as fractional milliseconds. */
  function Millis(ns: int): real {
    ns as real / 1000000.0
  }

  /** One smoothing step. The value 0.0 is the sentinel for "no sample yet". */
  function Smooth(current: real, sample: real): real {
    if current == 0.0 then sample else ALPHA * sample + (1.0 - ALPHA) * current
  }

  /** The average after taking `samples` in order, starting from `v`. */
  function Fold(v: real, samples: seq<real>): real {
    if samples == [] then v
    else Smooth(Fold(v, samples[..|samples| - 1]), samples[|samples| - 1])
  }

  lemma {:induction false} FoldAppend(v: real, a: seq<real>, b: seq<real>)
    ensures Fold(v, a + b) == Fold(Fold(v, a), b)
  {
    if b == [] {
      assert a + b == a;
    } else {
      FoldAppend(v, a, b[..|b| - 1]);
      assert (a + b)[..|a + b| - 1] == a + b[..|b| - 1];
    }
  }

  /** The average of at least one sample never leaves the range of the samples, sentinel resets included. */
  lemma {:induction false} FoldStaysInRange(v: real, samples: seq<real>, lo: real, hi: real)
    requires samples != [] && forall i :: 0 <= i < |samples| ==> lo <= samples[i] <= hi
    requires v == 0.0 || lo <= v <= hi
    ensures lo <= Fold(v, samples) <= hi
  {
    var prefix, last := samples[..|samples| - 1], samples[|samples| - 1];
    assert lo <= last <= hi;
    if prefix != [] {
      FoldStaysInRange(v, prefix, lo, hi);
    }
  }

  /** Positive samples never bring the sentinel back. */
  lemma {:induction false} FoldStaysPositive(samples: seq<real>)
    requires forall i :: 0 <= i < |samples| ==> samples[i] > 0.0
    ensures Fold(0.0, samples) >= 0.0 && (Fold(0.0, samples) == 0.0 <==> samples == [])
  {
    if samples != [] {
      FoldStaysPositive(samples[..|samples| - 1]);
    }
  }

  function Pow(b: real, k: nat): real {
    if k == 0 then 1.0 else b * Pow(b, k - 1)
  }

  function Abs(x: real): real {
    if x < 0.0 then -x else x
  }

  function Repeat(c: real, k: nat): (s: seq<real>)
    ensures |s| == k
  {
    if k == 0 then [] else Repeat(c, k - 1) + [c]
  }

  lemma SmoothTowards(w: real, c: real)
    requires w > 0.0 && c > 0.0
    ensures Smooth(w, c) > 0.0 && Abs(Smooth(w, c) - c) == 0.7 * Abs(w - c)
  {
    assert Smooth(w, c) - c == 0.7 * (w - c);
  }

  /** The distance d shrunk k times by 0.7. */
  function Shrunk(d: real, k: nat): real {
    if k == 0 then d else 0.7 * Shrunk(d, k - 1)
  }

  lemma {:induction false} ShrunkIsPower(d: real, k: nat)
    ensures Shrunk(d, k) == Pow(0.7, k) * d
  {
    if k > 0 {
      ShrunkIsPower(d, k - 1);
      Associate(0.7, Pow(0.7, k - 1), d);
    }
  }

  /** The average after k samples equal to c. */
  function Steady(v: real, c: real, k: nat): real {
    if k == 0 then v else Smooth(Steady(v, c, k - 1), c)
  }

  lemma {:induction false} SteadyIsFold(v: real, c: real, k: nat)
    ensures Fold(v, Repeat(c, k)) == Steady(v, c, k)
  {
    if k > 0 {
      SteadyIsFold(v, c, k - 1);
      assert Repeat(c, k)[..k - 1] == Repeat(c, k - 1);
    }
  }

  lemma {:induction false} SteadyShrinks(v: real, c: real, k: nat)
    requires v > 0.0 && c > 0.0
    ensures Steady(v, c, k) > 0.0
    ensures Abs(Steady(v, c, k) - c) == Shrunk(Abs(v - c), k)
  {
    if k > 0 {
      SteadyShrinks(v, c, k - 1);
      SmoothTowards(Steady(v, c, k - 1), c);
    }
  }

  /** A steady latency c pulls a positive average towards c by the factor 0.7 a sample, exactly. */
  lemma Contraction(v: real, c: real, k: nat, distance: real)
    requires v > 0.0 && c > 0.0 && distance == Abs(v - c)
    ensures Abs(Fold(v, Repeat(c, k)) - c) == Pow(0.7, k) * distance
  {
    assert Abs(Fold(v, Repeat(c, k)) - c) == Shrunk(distance, k) by {
      SteadyIsFold(v, c, k);
      SteadyShrinks(v, c, k);
    }
    ShrunkIsPower(distance, k);
  }

  lemma Associate(a: real, b: real, c: real)
    ensures a * (b * c) == (a * b) * c
  {
  }

  /** From the sentinel a steady latency is adopted by the first sample and kept. */
  lemma {:induction false} SteadyFromSentinel(c: real, k: nat)
    requires k > 0
    ensures Fold(0.0, Repeat(c, k)) == c
  {
    assert Repeat(c, k)[..k - 1] == Repeat(c, k - 1);
    if k > 1 {
      SteadyFromSentinel(c, k - 1);
    }
  }

  /** A 64-bit counter counts on. */
  lemma CountUp(n: nat)
    ensures (n % U64 + 1) % U64 == (n + 1) % U64
  {
  }

  lemma FlattenStep<T>(before: seq<T>, ss: seq<seq<T>>, k: nat)
    requires k < |ss|
    ensures before + Flatten(ss[..k + 1]) == before + Flatten(ss[..k]) + ss[k]
  {
    assert ss[..k + 1][..k] == ss[..k];
  }

  lemma FoldOne(samples: seq<real>, sample: real)
    ensures Fold(0.0, samples + [sample]) == Smooth(Fold(0.0, samples), sample)
  {
    assert (samples + [sample])[..|samples|] == samples;
  }

  class Ewma {
    var bits: real
    var count: nat
    /** Every sample taken, in the order in which its compare-and-swap succeeded. */
    ghost var samples: seq<real>

    ghost predicate Valid()
      reads this
    {
      bits == Fold(0.0, samples)
    }

    constructor ()
      ensures Valid() && samples == [] && count == 0
    {
      bits, count, samples := 0.0, 0, [];
    }

    /** Takes one sample. `rivals[k]` are the samples that other goroutines commit between this call's k-th
        load and its k-th compare-and-swap; the swap compares values, so it can also succeed after rivals
        have come back to the loaded value. */
    method Update(ns: int, rivals: seq<seq<real>>) returns (attempts: nat)
      requires Valid()
      modifies this
      ensures Valid()
      ensures 1 <= attempts <= |rivals| + 1
      ensures forall k :: 0 <= k < attempts - 1 ==> rivals[k] != []
      ensures var seen := if attempts <= |rivals| then rivals[..attempts] else rivals;
              samples == old(samples) + Flatten(seen) + [Millis(ns)]
      ensures count == (old(count) + 1) % U64
    {
      var sample := Millis(ns);
      count := (count + 1) % U64;
      attempts := 0;
      ghost var before := samples;
      assert before == before + Flatten(rivals[..0]);
      while true
        invariant Valid() && attempts <= |rivals|
        invariant samples == before + Flatten(rivals[..attempts])
        invariant forall k :: 0 <= k < attempts ==> rivals[k] != []
        invariant count == (old(count) + 1) % U64
        decreases |rivals| - attempts
      {
        var oldVal := bits;
        var newVal := if oldVal == 0.0 then sample else ALPHA * sample + (1.0 - ALPHA) * oldVal;
        if attempts < |rivals| {
          FoldAppend(0.0, samples, rivals[attempts]);
          FlattenStep(before, rivals, attempts);
          bits := Fold(bits, rivals[attempts]);
          samples := samples + rivals[attempts];
        } else {
          assert rivals[..attempts] == rivals;
        }
        attempts := attempts + 1;
        if bits == oldVal {
          bits := newVal;
          FoldOne(samples, sample);
          samples := samples + [sample];
          return;
        }
      }
    }

    /** The current average, 0.0 when nothing has been recorded. */
    method Value() returns (v: real)
      requires Valid()
      ensures v == Fold(0.0, samples)
    {
      v := bits;
    }
  }
}
