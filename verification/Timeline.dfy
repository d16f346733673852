/**
  Logs of clock readings. Counting readings in an interval is the yardstick of every
  rate limit in the project; dropping a stale prefix is how the limiters forget.
 */
module Timeline {

  ghost predicate Sorted(s: seq<int>) {
    forall i, j :: 0 <= i < j < |s| ==> s[i] <= s[j]
  }

  ghost predicate UpTo(s: seq<int>, bound: int) {
    forall i :: 0 <= i < |s| ==> s[i] <= bound
  }

  /** Number of readings in the closed interval [lo, hi]. */
  function CountIn(s: seq<int>, lo: int, hi: int): nat {
    if s == [] then 0
    else CountIn(s[..|s| - 1], lo, hi) + (if lo <= s[|s| - 1] <= hi then 1 else 0)
  }

  lemma CountInPush(s: seq<int>, x: int, lo: int, hi: int)
    ensures CountIn(s + [x], lo, hi) == CountIn(s, lo, hi) + (if lo <= x <= hi then 1 else 0)
  {
    assert (s + [x])[..|s|] == s;
  }

  lemma {:induction false} CountInAdjacent(s: seq<int>, lo: int, mid: int, hi: int)
    requires lo <= mid <= hi + 1
    ensures CountIn(s, lo, hi) == CountIn(s, lo, mid - 1) + CountIn(s, mid, hi)
  {
    if s != [] {
      CountInAdjacent(s[..|s| - 1], lo, mid, hi);
    }
  }

  lemma {:induction false} CountInWider(s: seq<int>, lo: int, hi: int, lo': int, hi': int)
    requires lo' <= lo && hi <= hi'
    ensures CountIn(s, lo, hi) <= CountIn(s, lo', hi')
  {
    if s != [] {
      CountInWider(s[..|s| - 1], lo, hi, lo', hi');
    }
  }

  /** If the first k readings lie outside the interval, at most the others are counted. */
  lemma {:induction false} CountInSkips(s: seq<int>, k: nat, lo: int, hi: int)
    requires k <= |s|
    requires forall i :: 0 <= i < k ==> !(lo <= s[i] <= hi)
    ensures CountIn(s, lo, hi) <= |s| - k
  {
    if |s| > k {
      CountInSkips(s[..|s| - 1], k, lo, hi);
    } else if s != [] {
      CountInSkips(s[..|s| - 1], k - 1, lo, hi);
    }
  }

  /** Any limit + 1 consecutive readings span more than `width`. */
  ghost predicate Spaced(s: seq<int>, limit: nat, width: int) {
    forall i :: limit <= i < |s| ==> s[i] - s[i - limit] > width
  }

  /** Spacing is what a sliding-window cap means: no closed window holds more than `limit`. */
  lemma {:induction false} SpacedCap(s: seq<int>, limit: nat, width: int, a: int)
    requires Sorted(s) && Spaced(s, limit, width)
    ensures CountIn(s, a, a + width) <= limit
  {
    if s != [] {
      var n := |s| - 1;
      SpacedCap(s[..n], limit, width, a);
      if a <= s[n] <= a + width && limit <= n {
        assert s[n - limit] < a;
        assert forall i :: 0 <= i < n - limit ==> s[i] <= s[n - limit];
        CountInSkips(s, |s| - limit, a, a + width);
      }
      if n < limit {
        CountInSkips(s, 0, a, a + width);
      }
    }
  }

  // ---- Lazy pruning -------------------------------------------------------

  /** What is left once the longest prefix older than the cutoff is gone. */
  function DropBefore(s: seq<int>, cutoff: int): seq<int> {
    if s != [] && s[0] < cutoff then DropBefore(s[1..], cutoff) else s
  }

  /** pruneOld of the sms and risk packages: advance an index past the stale prefix. */
  method PruneOld(timestamps: seq<int>, now: int, window: int) returns (kept: seq<int>)
    ensures kept == DropBefore(timestamps, now - window)
  {
    var cutoff := now - window;
    var start := 0;
    while start < |timestamps| && timestamps[start] < cutoff
      invariant 0 <= start <= |timestamps|
      invariant DropBefore(timestamps[start..], cutoff) == DropBefore(timestamps, cutoff)
    {
      start := start + 1;
    }
    kept := timestamps[start..];
  }

  lemma {:induction false} DropTwice(s: seq<int>, c: int, d: int)
    requires c <= d
    ensures DropBefore(DropBefore(s, c), d) == DropBefore(s, d)
  {
    if s != [] && s[0] < c {
      DropTwice(s[1..], c, d);
    }
  }

  lemma {:induction false} DropPush(s: seq<int>, x: int, c: int)
    ensures DropBefore(s + [x], c) == DropBefore(DropBefore(s, c) + [x], c)
  {
    if s != [] && s[0] < c {
      assert (s + [x])[1..] == s[1..] + [x];
      DropPush(s[1..], x, c);
    }
  }

  /** On a sorted log the kept part is exactly a suffix holding every fresh reading. */
  lemma {:induction false} DropSorted(s: seq<int>, c: int)
    requires Sorted(s)
    ensures var k := |s| - |DropBefore(s, c)|;
            0 <= k <= |s| && DropBefore(s, c) == s[k..]
            && (forall i :: 0 <= i < k ==> s[i] < c) && (forall i :: k <= i < |s| ==> c <= s[i])
  {
    if s != [] && s[0] < c {
      DropSorted(s[1..], c);
      var k' := |s[1..]| - |DropBefore(s[1..], c)|;
      assert s[1..][k'..] == s[k' + 1..];
      forall i | 0 <= i < k' + 1 ensures s[i] < c {
        if i > 0 { assert s[i] == s[1..][i - 1]; }
      }
      forall i | k' + 1 <= i < |s| ensures c <= s[i] {
        assert s[i] == s[1..][i - 1];
      }
    }
  }

  /**
    A pruned log and the full log it came from cannot be told apart by any later
    prune whose cutoff is at least `from`.
   */
  ghost predicate Agree(log: seq<int>, full: seq<int>, from: int) {
    forall c :: from <= c ==> DropBefore(log, c) == DropBefore(full, c)
  }

  lemma AgreeAfterPrune(log: seq<int>, full: seq<int>, from: int, c: int)
    requires Agree(log, full, from) && from <= c
    ensures Agree(DropBefore(log, c), full, c)
  {
    forall d | c <= d ensures DropBefore(DropBefore(log, c), d) == DropBefore(full, d) {
      DropTwice(log, c, d);
    }
  }

  lemma AgreeAfterPush(log: seq<int>, full: seq<int>, from: int, x: int)
    requires Agree(log, full, from)
    ensures Agree(log + [x], full + [x], from)
  {
    forall c | from <= c ensures DropBefore(log + [x], c) == DropBefore(full + [x], c) {
      DropPush(log, x, c);
      DropPush(full, x, c);
    }
  }
}
