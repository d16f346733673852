/**
  A/B experiments (internal/service/challenge/ab_test.go): weighted allocation of users to
  variants, and the integer rolling average of their durations. The two words of the
  SHA-256 hash that decide an allocation are an uninterpreted function of fingerprint + ID.
 */
module ABTest {
  import opened Prelude

  datatype Variant = Variant(id: string, weight: int, impressions: int, completions: int, failures: int,
                             avgDurationMs: int, conversionRate: real)

  datatype Test = Test(id: string, sceneID: string, active: bool, variants: seq<Variant>, trafficPct: int)

  type Hash = string -> (nat, nat)

  // ---- Weighted choice --------------------------------------------------------------

  function Weights(variants: seq<Variant>): (w: seq<int>)
    ensures |w| == |variants| && forall i :: 0 <= i < |w| ==> w[i] == variants[i].weight
  {
    seq(|variants|, i requires 0 <= i < |variants| => variants[i].weight)
  }

  /** Sum of the first n weights. */
  function Prefix(w: seq<int>, n: nat): int
    requires n <= |w|
  {
    if n == 0 then 0 else Prefix(w, n - 1) + w[n - 1]
  }

  function Total(w: seq<int>): int { Prefix(w, |w|) }

  /** The cumulative weight once variant i has been added. */
  function Through(w: seq<int>, i: nat): int
    requires i < |w|
  {
    Prefix(w, i + 1)
  }

  /** The bucket lies below variant i's cumulative weight, and not below an earlier one. */
  predicate FallsTo(w: seq<int>, bucket: int, i: nat) {
    i < |w| && bucket < Through(w, i) && forall j :: 0 <= j < i ==> Through(w, j) <= bucket
  }

  /** The first variant from k on that claims the bucket, or |w|. */
  function FirstClaim(w: seq<int>, bucket: int, k: nat): (i: nat)
    requires k <= |w|
    ensures k <= i <= |w|
    ensures forall j :: k <= j < i ==> Through(w, j) <= bucket
    ensures i < |w| ==> bucket < Through(w, i)
    decreases |w| - k
  {
    if k == |w| || bucket < Through(w, k) then k else FirstClaim(w, bucket, k + 1)
  }

  /** The final fallback is unreachable: below the total, some variant claims the bucket. */
  lemma BucketIsClaimed(w: seq<int>, bucket: int)
    requires bucket < Total(w) && w != []
    ensures FallsTo(w, bucket, FirstClaim(w, bucket, 0))
  {
    assert Through(w, |w| - 1) == Total(w);
  }

  ghost predicate NonNegative(w: seq<int>) {
    forall i :: 0 <= i < |w| ==> 0 <= w[i]
  }

  lemma {:induction false} PrefixMonotone(w: seq<int>, i: nat, j: nat)
    requires NonNegative(w) && i <= j <= |w|
    ensures Prefix(w, i) <= Prefix(w, j)
    decreases j - i
  {
    if i < j { PrefixMonotone(w, i, j - 1); }
  }

  /** The buckets that fall to variant i, of the Total(w) there are. */
  function Share(w: seq<int>, i: nat): set<int> {
    set b | b in Interval(0, Total(w)) && FallsTo(w, b, i)
  }

  lemma FallsToMeans(w: seq<int>, b: int, i: nat)
    requires NonNegative(w) && i < |w| && 0 <= b
    ensures FallsTo(w, b, i) <==> Prefix(w, i) <= b < Prefix(w, i + 1)
  {
    if Prefix(w, i) <= b {
      forall j | 0 <= j < i ensures Through(w, j) <= b { PrefixMonotone(w, j + 1, i); }
    }
    if i > 0 {
      assert Through(w, i - 1) == Prefix(w, i);
    }
  }

  lemma ShareIsInterval(w: seq<int>, i: nat)
    requires NonNegative(w) && i < |w|
    ensures Share(w, i) == Interval(Prefix(w, i), Prefix(w, i + 1))
  {
    PrefixMonotone(w, 0, i);
    PrefixMonotone(w, i + 1, |w|);
    forall b | 0 <= b ensures FallsTo(w, b, i) <==> Prefix(w, i) <= b < Prefix(w, i + 1) {
      FallsToMeans(w, b, i);
    }
  }

  /** Every variant receives exactly its weight in buckets just when no weight is negative. */
  lemma SharesAreExact(w: seq<int>)
    ensures (forall i :: 0 <= i < |w| ==> |Share(w, i)| == w[i]) <==> NonNegative(w)
  {
    if NonNegative(w) {
      forall i | 0 <= i < |w| ensures |Share(w, i)| == w[i] {
        ShareIsInterval(w, i);
      }
    } else {
      var i :| 0 <= i < |w| && w[i] < 0;
      assert |Share(w, i)| != w[i];
    }
  }

  /** A user's variant, as an index: it depends on the hash and the weights alone. */
  function Assigned(hash: Hash, test: Test, fingerprint: string): Option<nat> {
    var (traffic, choice) := hash(fingerprint + test.id);
    var w := Weights(test.variants);
    if !test.active || traffic % 100 >= test.trafficPct || Total(w) == 0 then None
    else
      var i := FirstClaim(w, choice % Total(w), 0);
      Some(if i < |w| then i else 0)
  }

  /** Nobody is assigned without an active test, outside its traffic, or if its weights cancel out. */
  predicate LeftOut(hash: Hash, test: Test, fingerprint: string) {
    !test.active || hash(fingerprint + test.id).0 % 100 >= test.trafficPct || Total(Weights(test.variants)) == 0
  }

  /** The bucket falls to the variant assigned; if a negative weight makes it fall to none, the first is assigned. */
  lemma AssignedMeans(hash: Hash, test: Test, fingerprint: string)
    ensures var r, w := Assigned(hash, test, fingerprint), Weights(test.variants);
            && (r.None? <==> LeftOut(hash, test, fingerprint))
            && (r.Some? ==>
                 var bucket := hash(fingerprint + test.id).1 % Total(w);
                 FallsTo(w, bucket, r.value) || (r.value == 0 && forall j: nat :: !FallsTo(w, bucket, j)))
            && (r.Some? && Total(w) > 0 ==> FallsTo(w, hash(fingerprint + test.id).1 % Total(w), r.value))
  {
    var r, w := Assigned(hash, test, fingerprint), Weights(test.variants);
    if r.Some? {
      var bucket := hash(fingerprint + test.id).1 % Total(w);
      if Total(w) > 0 { BucketIsClaimed(w, bucket); }
      if FirstClaim(w, bucket, 0) == |w| {
        forall j: nat ensures !FallsTo(w, bucket, j) {
          if j < |w| { assert Through(w, j) <= bucket; }
        }
      }
    }
  }

  lemma FallsToOne(w: seq<int>, bucket: int, i: nat, j: nat)
    requires FallsTo(w, bucket, i) && FallsTo(w, bucket, j)
    ensures i == j
  {}

  /** A hash that gives every user the same two words. */
  function Fixed(traffic: nat, choice: nat): Hash { _ => (traffic, choice) }

  /** Of the second words below the total, those that assign variant i number exactly its weight. */
  lemma ChoicesAreExact(test: Test, fingerprint: string, traffic: nat, i: nat)
    requires test.active && traffic % 100 < test.trafficPct && i < |test.variants|
    requires NonNegative(Weights(test.variants)) && Total(Weights(test.variants)) > 0
    ensures |set c | c in Interval(0, Total(Weights(test.variants)))
                     && Assigned(Fixed(traffic, c), test, fingerprint) == Some(i)| == test.variants[i].weight
  {
    var w := Weights(test.variants);
    var total := Total(w);
    forall c | c in Interval(0, total)
      ensures Assigned(Fixed(traffic, c), test, fingerprint) == Some(i) <==> FallsTo(w, c, i)
    {
      AssignedMeans(Fixed(traffic, c), test, fingerprint);
      SmallChoice(c, total);
      if FallsTo(w, c, i) {
        FallsToOne(w, c, i, Assigned(Fixed(traffic, c), test, fingerprint).value);
      }
    }
    var mine := set c | c in Interval(0, total) && Assigned(Fixed(traffic, c), test, fingerprint) == Some(i);
    assert mine == Share(w, i);
    SharesAreExact(w);
  }

  lemma SmallChoice(c: int, total: int)
    requires 0 <= c < total
    ensures c % total == c
  {}

  // ---- Recording results ----------------------------------------------------------------

  /** Go's integer division, which truncates toward zero. */
  function TruncDiv(a: int, b: int): int
    requires b > 0
  {
    if a >= 0 then a / b else -(-a / b)
  }

  /**
    One more result. A caller may hand in statistics with negative impressions: if the count
    comes to zero the division panics, after the counters were updated.
   */
  function Recorded(v: Variant, passed: bool, durationMs: int): Variant {
    var n := v.impressions + 1;
    var v' := v.(impressions := n,
                 completions := if passed then v.completions + 1 else v.completions,
                 failures := if passed then v.failures else v.failures + 1);
    var sum := v.avgDurationMs * (n - 1) + durationMs;
    if n > 0 then
      v'.(avgDurationMs := TruncDiv(sum, n), conversionRate := v'.completions as real / n as real * 100.0)
    else if n < 0 then v'.(avgDurationMs := TruncDiv(-sum, -n))
    else v'
  }

  /** q is sum / n, truncated toward zero. */
  predicate IsTruncated(q: int, sum: int, n: int) {
    var rest, size := sum - n * q, if n > 0 then n else -n;
    if sum >= 0 then 0 <= rest < size else -size < rest <= 0
  }

  lemma TruncMeans(a: int, b: int)
    requires b > 0
    ensures IsTruncated(TruncDiv(a, b), a, b)
  {}

  lemma Negated(q: int, sum: int, n: int)
    requires n < 0 && IsTruncated(q, -sum, -n)
    ensures IsTruncated(q, sum, n)
  {
    assert (-sum) - (-n) * q == -(sum - n * q);
  }

  lemma RateMeans(completions: int, n: int)
    requires n > 0
    ensures completions as real / n as real * 100.0 * n as real == 100.0 * completions as real
  {}

  /** One counter and the impressions go up by one, and only statistics change. */
  lemma RecordedCounts(v: Variant, passed: bool, durationMs: int)
    ensures var v' := Recorded(v, passed, durationMs);
            && v'.id == v.id && v'.weight == v.weight && v'.impressions == v.impressions + 1
            && v'.completions + v'.failures == v.completions + v.failures + 1
            && v'.completions - v.completions == (if passed then 1 else 0)
  {}

  /**
    The new average is the mean of the old one, weighted by the impressions before, and the new
    duration, less the fraction; the conversion rate is the percentage of completions.
   */
  lemma RecordedMeans(v: Variant, passed: bool, durationMs: int)
    requires v.impressions != -1
    ensures var v', n := Recorded(v, passed, durationMs), v.impressions + 1;
            && IsTruncated(v'.avgDurationMs, v.avgDurationMs * v.impressions + durationMs, n)
            && (if n > 0 then v'.conversionRate * n as real == 100.0 * v'.completions as real
                else v'.conversionRate == v.conversionRate)
  {
    var v', n := Recorded(v, passed, durationMs), v.impressions + 1;
    var sum := v.avgDurationMs * v.impressions + durationMs;
    assert n - 1 == v.impressions;
    if n > 0 {
      assert v'.avgDurationMs == TruncDiv(sum, n);
      TruncMeans(sum, n);
      RateMeans(v'.completions, n);
    } else {
      assert v'.avgDurationMs == TruncDiv(-sum, -n);
      TruncMeans(-sum, -n);
      Negated(v'.avgDurationMs, sum, n);
    }
  }

  /** The first variant with the ID is the one updated. */
  function RecordIn(variants: seq<Variant>, id: string, passed: bool, durationMs: int): (r: seq<Variant>)
    ensures |r| == |variants|
  {
    if variants == [] then []
    else if variants[0].id == id then [Recorded(variants[0], passed, durationMs)] + variants[1..]
    else [variants[0]] + RecordIn(variants[1..], id, passed, durationMs)
  }

  /** The first variant with an ID sits at position i. */
  predicate FirstWith(variants: seq<Variant>, id: string, i: nat) {
    i < |variants| && variants[i].id == id && forall j :: 0 <= j < i ==> variants[j].id != id
  }

  lemma {:induction false} RecordInHit(variants: seq<Variant>, i: nat, id: string, passed: bool, durationMs: int)
    requires FirstWith(variants, id, i)
    ensures RecordIn(variants, id, passed, durationMs) == variants[i := Recorded(variants[i], passed, durationMs)]
  {
    if i > 0 {
      assert forall j :: 0 <= j < i - 1 ==> variants[1..][j] == variants[j + 1];
      RecordInHit(variants[1..], i - 1, id, passed, durationMs);
      assert variants == [variants[0]] + variants[1..];
    }
  }

  lemma {:induction false} RecordInMiss(variants: seq<Variant>, id: string, passed: bool, durationMs: int)
    requires forall j :: 0 <= j < |variants| ==> variants[j].id != id
    ensures RecordIn(variants, id, passed, durationMs) == variants
  {
    if variants != [] {
      assert forall j :: 0 <= j < |variants| - 1 ==> variants[1..][j] == variants[j + 1];
      RecordInMiss(variants[1..], id, passed, durationMs);
      assert variants == [variants[0]] + variants[1..];
    }
  }

  /** The variant to be updated has a count that comes to zero. */
  ghost predicate Panics(variants: seq<Variant>, id: string) {
    exists i: nat :: FirstWith(variants, id, i) && variants[i].impressions == -1
  }

  lemma FirstPanics(variants: seq<Variant>, id: string, i: nat)
    requires FirstWith(variants, id, i)
    ensures Panics(variants, id) <==> variants[i].impressions == -1
  {
    if Panics(variants, id) {
      var k: nat :| FirstWith(variants, id, k) && variants[k].impressions == -1;
      assert k == i;
    }
  }

  /** The updates of one matched variant, field by field; not completed if the division panics. */
  method Update(v: Variant, passed: bool, durationMs: int) returns (v': Variant, completed: bool)
    ensures v' == Recorded(v, passed, durationMs) && (completed <==> v.impressions != -1)
  {
    var total := v.impressions + 1;
    v' := v.(impressions := total);
    if passed {
      v' := v'.(completions := v.completions + 1);
    } else {
      v' := v'.(failures := v.failures + 1);
    }
    if total == 0 {
      return v', false;
    }
    var sum := v'.avgDurationMs * (total - 1) + durationMs;
    v' := v'.(avgDurationMs := if total > 0 then TruncDiv(sum, total) else TruncDiv(-sum, -total));
    if v'.impressions > 0 {
      v' := v'.(conversionRate := v'.completions as real / v'.impressions as real * 100.0);
    }
    completed := true;
  }

  class ABTestManager {
    const hash: Hash
    var tests: map<string, Test>

    constructor (hash: Hash)
      ensures this.hash == hash && tests == map[]
    {
      this.hash := hash;
      tests := map[];
    }

    method CreateTest(test: Test)
      modifies this
      ensures tests == old(tests)[test.sceneID := test.(active := true)]
    {
      tests := tests[test.sceneID := test.(active := true)];
    }

    method GetVariant(sceneID: string, fingerprint: string) returns (r: Option<nat>)
      ensures r == if sceneID in tests then Assigned(hash, tests[sceneID], fingerprint) else None
      ensures r.Some? ==> r.value < |tests[sceneID].variants|
      ensures r.None? <==>
                || sceneID !in tests || !tests[sceneID].active
                || hash(fingerprint + tests[sceneID].id).0 % 100 >= tests[sceneID].trafficPct
                || Total(Weights(tests[sceneID].variants)) == 0
      ensures r.Some? && Total(Weights(tests[sceneID].variants)) > 0 ==>
                var w := Weights(tests[sceneID].variants);
                FallsTo(w, hash(fingerprint + tests[sceneID].id).1 % Total(w), r.value)
    {
      if sceneID in tests { AssignedMeans(hash, tests[sceneID], fingerprint); }
      if sceneID !in tests || !tests[sceneID].active {
        return None;
      }
      var test := tests[sceneID];
      var (traffic, choice) := hash(fingerprint + test.id);
      if traffic % 100 >= test.trafficPct {
        return None;
      }
      ghost var w := Weights(test.variants);
      var totalWeight := 0;
      for k := 0 to |test.variants|
        invariant totalWeight == Prefix(w, k)
      {
        totalWeight := totalWeight + test.variants[k].weight;
      }
      if totalWeight == 0 {
        return None;
      }
      var variantBucket := choice % totalWeight;
      var cumulative := 0;
      for i := 0 to |test.variants|
        invariant cumulative == Prefix(w, i)
        invariant FirstClaim(w, variantBucket, 0) == FirstClaim(w, variantBucket, i)
      {
        cumulative := cumulative + test.variants[i].weight;
        if variantBucket < cumulative {
          return Some(i);
        }
      }
      return Some(0);
    }

    method RecordResult(sceneID: string, variantID: string, passed: bool, durationMs: int) returns (completed: bool)
      modifies this
      ensures tests == Record(old(tests), Result(sceneID, variantID, passed, durationMs))
      ensures completed <==> !(sceneID in old(tests) && Panics(old(tests)[sceneID].variants, variantID))
    {
      if sceneID !in tests {
        return true;
      }
      var test := tests[sceneID];
      var i := 0;
      while i < |test.variants|
        invariant 0 <= i <= |test.variants|
        invariant forall j :: 0 <= j < i ==> test.variants[j].id != variantID
      {
        if test.variants[i].id == variantID {
          FirstPanics(test.variants, variantID, i);
          var v;
          v, completed := Update(test.variants[i], passed, durationMs);
          RecordInHit(test.variants, i, variantID, passed, durationMs);
          tests := tests[sceneID := test.(variants := test.variants[i := v])];
          return;
        }
        i := i + 1;
      }
      RecordInMiss(test.variants, variantID, passed, durationMs);
      completed := true;
    }
  }

  // ---- Whole runs -------------------------------------------------------------------------

  datatype Result = Result(sceneID: string, variantID: string, passed: bool, durationMs: int)

  function Record(tests: map<string, Test>, r: Result): map<string, Test> {
    if r.sceneID !in tests then tests
    else
      var test := tests[r.sceneID];
      tests[r.sceneID := test.(variants := RecordIn(test.variants, r.variantID, r.passed, r.durationMs))]
  }

  function RecordAll(tests: map<string, Test>, results: seq<Result>): map<string, Test> {
    if results == [] then tests
    else Record(RecordAll(tests, results[..|results| - 1]), results[|results| - 1])
  }

  /** The results a variant of a scene has received, oldest first. */
  function ResultsFor(results: seq<Result>, sceneID: string, variantID: string): seq<Result> {
    if results == [] then []
    else
      var rest := ResultsFor(results[..|results| - 1], sceneID, variantID);
      var last := results[|results| - 1];
      if last.sceneID == sceneID && last.variantID == variantID then rest + [last] else rest
  }

  function Tally(v: Variant, results: seq<Result>): Variant {
    if results == [] then v
    else
      var last := results[|results| - 1];
      Recorded(Tally(v, results[..|results| - 1]), last.passed, last.durationMs)
  }

  /** Only the first variant with the ID is touched. */
  lemma {:induction false} RecordInAt(variants: seq<Variant>, i: nat, id: string, passed: bool, durationMs: int)
    requires i < |variants|
    ensures RecordIn(variants, id, passed, durationMs)[i]
         == if FirstWith(variants, id, i) then Recorded(variants[i], passed, durationMs) else variants[i]
    decreases i
  {
    if i > 0 && variants[0].id != id {
      RecordInAt(variants[1..], i - 1, id, passed, durationMs);
      TailFirst(variants, id, i);
    }
  }

  lemma TailFirst(variants: seq<Variant>, id: string, i: nat)
    requires 0 < i < |variants| && variants[0].id != id
    ensures FirstWith(variants, id, i) <==> FirstWith(variants[1..], id, i - 1)
  {
    if FirstWith(variants[1..], id, i - 1) {
      forall j | 0 <= j < i ensures variants[j].id != id {
        if j > 0 { assert variants[1..][j - 1] == variants[j]; }
      }
    }
  }

  /** What recording leaves of a scene's variants: their IDs, weights and number. */
  ghost predicate SameShape(a: seq<Variant>, b: seq<Variant>) {
    |a| == |b| && forall k :: 0 <= k < |a| ==> a[k].id == b[k].id && a[k].weight == b[k].weight
  }

  lemma {:induction false} RecordInShape(variants: seq<Variant>, id: string, passed: bool, durationMs: int)
    ensures SameShape(variants, RecordIn(variants, id, passed, durationMs))
  {
    if variants != [] && variants[0].id != id {
      RecordInShape(variants[1..], id, passed, durationMs);
    }
  }

  /** The test keeps everything but its variants' statistics. */
  ghost predicate OnlyStatsChange(before: Test, after: Test) {
    after == before.(variants := after.variants) && SameShape(before.variants, after.variants)
  }

  lemma SameShapeFirst(a: seq<Variant>, b: seq<Variant>, id: string, i: nat)
    requires SameShape(a, b)
    ensures FirstWith(a, id, i) <==> FirstWith(b, id, i)
  {}

  /** What the results of a scene make of its i-th variant: the first with its ID tallies them, any other stays. */
  function TallyAt(variants: seq<Variant>, i: nat, results: seq<Result>, scene: string): Variant
    requires i < |variants|
  {
    var v := variants[i];
    if FirstWith(variants, v.id, i) then Tally(v, ResultsFor(results, scene, v.id)) else v
  }

  lemma TallyAtPush(variants: seq<Variant>, i: nat, results: seq<Result>, r: Result, scene: string)
    requires i < |variants|
    ensures TallyAt(variants, i, results + [r], scene)
         == if r.sceneID == scene && r.variantID == variants[i].id && FirstWith(variants, variants[i].id, i)
            then Recorded(TallyAt(variants, i, results, scene), r.passed, r.durationMs)
            else TallyAt(variants, i, results, scene)
  {
    assert (results + [r])[..|results|] == results;
    TallyPush(variants[i], ResultsFor(results, scene, variants[i].id), r);
  }

  /**
    The statistics of a variant are the tally of its own results, whatever else is recorded; a
    variant that shares an earlier one's ID keeps its statistics.
   */
  lemma {:induction false} TalliesAreSeparate(tests: map<string, Test>, results: seq<Result>, scene: string, i: nat)
    requires scene in tests && i < |tests[scene].variants|
    ensures scene in RecordAll(tests, results) && OnlyStatsChange(tests[scene], RecordAll(tests, results)[scene])
    ensures RecordAll(tests, results)[scene].variants[i] == TallyAt(tests[scene].variants, i, results, scene)
  {
    if results != [] {
      var n := |results| - 1;
      TalliesAreSeparate(tests, results[..n], scene, i);
      var before, last := RecordAll(tests, results[..n])[scene].variants, results[n];
      RecordInShape(before, last.variantID, last.passed, last.durationMs);
      RecordInAt(before, i, last.variantID, last.passed, last.durationMs);
      SameShapeFirst(tests[scene].variants, before, last.variantID, i);
      TallyAtPush(tests[scene].variants, i, results[..n], last, scene);
      assert results[..n] + [last] == results;
    }
  }

  lemma TallyPush(v: Variant, results: seq<Result>, r: Result)
    ensures Tally(v, results + [r]) == Recorded(Tally(v, results), r.passed, r.durationMs)
  {
    assert (results + [r])[..|results|] == results;
  }

  /** Whatever results are recorded, a user keeps the assigned variant. */
  lemma AssignmentIsStable(hash: Hash, tests: map<string, Test>, results: seq<Result>, scene: string,
                           fingerprint: string)
    requires scene in tests
    ensures scene in RecordAll(tests, results)
    ensures Assigned(hash, RecordAll(tests, results)[scene], fingerprint) == Assigned(hash, tests[scene], fingerprint)
  {
    KeepsShape(tests, results, scene);
    assert Weights(RecordAll(tests, results)[scene].variants) == Weights(tests[scene].variants);
  }

  lemma {:induction false} KeepsShape(tests: map<string, Test>, results: seq<Result>, scene: string)
    requires scene in tests
    ensures scene in RecordAll(tests, results) && OnlyStatsChange(tests[scene], RecordAll(tests, results)[scene])
  {
    if results != [] {
      var n := |results| - 1;
      KeepsShape(tests, results[..n], scene);
      var before, last := RecordAll(tests, results[..n])[scene].variants, results[n];
      RecordInShape(before, last.variantID, last.passed, last.durationMs);
    }
  }

  // ---- The rolling average ------------------------------------------------------------------

  ghost predicate Zeroed(v: Variant) {
    v.impressions == 0 && v.completions == 0 && v.failures == 0 && v.avgDurationMs == 0
  }

  function Sum(results: seq<Result>): int {
    if results == [] then 0 else Sum(results[..|results| - 1]) + results[|results| - 1].durationMs
  }

  function Passes(results: seq<Result>): nat {
    if results == [] then 0
    else Passes(results[..|results| - 1]) + (if results[|results| - 1].passed then 1 else 0)
  }

  /** One division loses less than its divisor, and only downwards. */
  lemma AverageStep(avg: int, n: nat, d: int)
    requires avg >= 0 && d >= 0
    ensures var a := TruncDiv(avg * n + d, n + 1);
            avg * n + d >= 0 && a >= 0 && 0 <= avg * n + d - (n + 1) * a <= n
  {
    assert avg * n >= 0;
  }

  lemma FactorAtLeastOne(n: int, k: int)
    requires n > 0
    ensures k >= 1 ==> n * k >= n
  {}

  lemma QuotientAtLeast(a: int, n: int, low: int)
    requires n > 0 && n * low <= a
    ensures low <= a / n
  {
    var k := low - a / n;
    assert n * k == n * low - n * (a / n);
    assert n * k < n;
    FactorAtLeastOne(n, k);
  }

  lemma AverageAtLeast(avg: int, n: nat, d: int, low: int)
    requires 0 <= low <= avg && low <= d
    ensures low <= TruncDiv(avg * n + d, n + 1)
  {
    assert (n + 1) * low <= avg * n + d by { assert low * n <= avg * n; }
    QuotientAtLeast(avg * n + d, n + 1, low);
  }

  ghost predicate DurationsAtLeast(results: seq<Result>, low: int) {
    forall i :: 0 <= i < |results| ==> low <= results[i].durationMs
  }

  lemma {:induction false} TallyCounts(v: Variant, results: seq<Result>)
    requires Zeroed(v)
    ensures var t := Tally(v, results);
            t.impressions == |results| == t.completions + t.failures && t.completions == Passes(results)
  {
    if results != [] {
      TallyCounts(v, results[..|results| - 1]);
    }
  }

  lemma DriftStep(sum: int, avg: int, n: nat, d: int)
    requires avg >= 0 && d >= 0 && 0 <= 2 * (sum - n * avg) <= n * (n - 1)
    ensures 0 <= 2 * (sum + d - (n + 1) * TruncDiv(avg * n + d, n + 1)) <= (n + 1) * n
  {
    AverageStep(avg, n, d);
    assert n * avg == avg * n;
    assert (n + 1) * n == n * (n - 1) + 2 * n;
  }

  /** The drift of the average after n results, times n. */
  lemma {:induction false} TallyDrift(v: Variant, results: seq<Result>)
    requires Zeroed(v) && DurationsAtLeast(results, 0)
    ensures 0 <= Tally(v, results).avgDurationMs
    ensures 0 <= 2 * (Sum(results) - |results| * Tally(v, results).avgDurationMs) <= |results| * (|results| - 1)
  {
    if results != [] {
      var n := |results| - 1;
      TallyCounts(v, results[..n]);
      TallyDrift(v, results[..n]);
      AverageStep(Tally(v, results[..n]).avgDurationMs, n, results[n].durationMs);
      DriftStep(Sum(results[..n]), Tally(v, results[..n]).avgDurationMs, n, results[n].durationMs);
    }
  }

  lemma {:induction false} TallyAtLeast(v: Variant, results: seq<Result>, low: int)
    requires Zeroed(v) && 0 <= low && DurationsAtLeast(results, low)
    ensures results != [] ==> low <= Tally(v, results).avgDurationMs
  {
    if |results| == 1 {
      assert results[..0] == [];
    } else if results != [] {
      var n := |results| - 1;
      TallyCounts(v, results[..n]);
      TallyAtLeast(v, results[..n], low);
      AverageAtLeast(Tally(v, results[..n]).avgDurationMs, n, results[n].durationMs, low);
    }
  }

  /**
    From zeroed statistics, the rolling average A of n non-negative durations never exceeds
    the true mean and drifts below it by at most (n - 1) / 2; it is never below the smallest
    duration, and every impression is a completion or a failure.
   */
  lemma AverageDrift(v: Variant, results: seq<Result>, low: int)
    requires Zeroed(v) && 0 <= low && DurationsAtLeast(results, low)
    ensures var t, n := Tally(v, results), |results|;
            && t.impressions == n == t.completions + t.failures && t.completions == Passes(results)
            && 0 <= 2 * (Sum(results) - n * t.avgDurationMs) <= n * (n - 1)
            && (n > 0 ==> low <= t.avgDurationMs)
  {
    TallyCounts(v, results);
    TallyDrift(v, results);
    TallyAtLeast(v, results, low);
  }

  /** Durations 0, 1, ..., n - 1, the worst case. */
  function Staircase(n: nat): (r: seq<Result>)
    ensures |r| == n && forall i :: 0 <= i < n ==> r[i].durationMs == i
  {
    if n == 0 then [] else Staircase(n - 1) + [Result("", "", true, n - 1)]
  }

  lemma SumPush(results: seq<Result>, r: Result)
    ensures Sum(results + [r]) == Sum(results) + r.durationMs
  {
    assert (results + [r])[..|results|] == results;
  }

  lemma SmallQuotient(d: nat, n: nat)
    requires d < n
    ensures TruncDiv(0 * d + d, n) == 0
  {}

  lemma {:induction false} StaircaseAverage(v: Variant, n: nat)
    requires Zeroed(v)
    ensures Tally(v, Staircase(n)).impressions == n && Tally(v, Staircase(n)).avgDurationMs == 0
  {
    if n > 0 {
      StaircaseAverage(v, n - 1);
      TallyPush(v, Staircase(n - 1), Result("", "", true, n - 1));
      SmallQuotient(n - 1, n);
    }
  }

  lemma {:induction false} StaircaseSum(n: nat)
    ensures 2 * Sum(Staircase(n)) == n * (n - 1)
  {
    if n > 0 {
      StaircaseSum(n - 1);
      SumPush(Staircase(n - 1), Result("", "", true, n - 1));
      assert n * (n - 1) == (n - 1) * (n - 2) + 2 * (n - 1);
    }
  }

  /** The drift bound is reached for every n: each division then loses all that it can. */
  lemma DriftReached(v: Variant, n: nat)
    requires Zeroed(v)
    ensures DurationsAtLeast(Staircase(n), 0)
    ensures 2 * (Sum(Staircase(n)) - n * Tally(v, Staircase(n)).avgDurationMs) == n * (n - 1)
  {
    StaircaseAverage(v, n);
    StaircaseSum(n);
  }

  /** The product the update forms never exceeds the sum so far, so it overflows only if the sum does. */
  lemma NoEarlyOverflow(v: Variant, results: seq<Result>, d: int)
    requires Zeroed(v) && DurationsAtLeast(results, 0) && 0 <= d
    ensures 0 <= Tally(v, results).avgDurationMs * |results| + d <= Sum(results) + d
  {
    TallyDrift(v, results);
    assert |results| * Tally(v, results).avgDurationMs == Tally(v, results).avgDurationMs * |results|;
  }
}
