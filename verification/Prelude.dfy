/** Shared vocabulary: optional values and the units of the nanosecond clock. */
module Prelude {

  datatype Option<+T> = None | Some(value: T)

  // Clock readings and durations are integers, in nanoseconds, as in Go's time.Duration.
  const SECOND: int := 1_000_000_000
  const MINUTE: int := 60_000_000_000
  const HOUR: int := 3_600_000_000_000

  function Get<K, V>(m: map<K, seq<V>>, k: K): seq<V> {
    // Reading a missing key of a Go map of slices gives the nil slice.
    if k in m then m[k] else []
  }

  /** math.Round(x*100)/100 of a number that is not negative. */
  function Round2(x: real): real { (x * 100.0 + 0.5).Floor as real / 100.0 }

  /** The integers from lo up to, but not including, hi. */
  function Interval(lo: int, hi: int): (s: set<int>)
    ensures forall b :: b in s <==> lo <= b < hi
    ensures lo <= hi ==> |s| == hi - lo
    decreases hi - lo
  {
    if hi <= lo then {} else Interval(lo, hi - 1) + {hi - 1}
  }

  lemma SubsetSize<T>(a: set<T>, b: set<T>)
    requires a <= b
    ensures |a| <= |b|
  {
    assert b == a + (b - a);
  }

  lemma OneMore(all: set<int>, earlier: set<int>, n: int, hit: bool)
    requires n !in earlier && forall i :: i in all <==> i in earlier || (i == n && hit)
    ensures |all| == |earlier| + (if hit then 1 else 0)
  {
    var grown := if hit then earlier + {n} else earlier;
    forall i ensures i in all <==> i in grown {
      assert i in all <==> i in earlier || (i == n && hit);
    }
    assert all == grown;
  }
}
