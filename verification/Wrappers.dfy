/** What the modules of the project share. */
module Wrappers {

  /** A value that may be absent: Go's nil pointers, missing map entries and SQL NULL. */
  datatype Option<+T> = None | Some(value: T)

  /** A Go `(value, error)` pair, of which exactly one half is meaningful. */
  datatype Result<+T, +E> = Success(value: T) | Failure(error: E)

  /** The number of values of Go's unsigned 64-bit integers. */
  const U64 := 0x1_0000_0000_0000_0000

  function Flatten<T>(ss: seq<seq<T>>): seq<T> {
    if ss == [] then [] else Flatten(ss[..|ss| - 1]) + ss[|ss| - 1]
  }

  lemma FlattenMore<T>(ss: seq<seq<T>>, s: seq<T>)
    ensures Flatten(ss + [s]) == Flatten(ss) + s
  {
    assert (ss + [s])[..|ss|] == ss;
  }

  /** Quotient and remainder are determined by their defining equation. */
  lemma DivUnique(x: int, n: int, q: int, r: int)
    requires n > 0 && x == q * n + r && 0 <= r < n
    ensures x / n == q && x % n == r
  {
    var d := x / n - q;
    assert x == (x / n) * n + x % n;
    assert d * n == r - x % n by {
      assert (x / n) * n - q * n == d * n;
    }
    assert d >= 1 ==> d * n >= n;
    assert d <= -1 ==> d * n <= -n;
  }
}
