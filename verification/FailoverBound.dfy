/**
  How far Redis and the fallback together can exceed three times the limit
  (internal/middleware/ratelimit.go, RateLimit): by one admission, in exactly the windows
  that leave room for it.
 */
module FailoverBound {
  import opened Prelude
  import opened Timeline
  import opened RateLimit
  import FixedWindow
  import Redis = RedisWindow

  /** The two limiters' admissions in the window that starts at a. */
  function Total(t: Trace, a: int): nat {
    CountIn(t.viaRedis, a, a + WINDOW - 1) + CountIn(t.viaFallback, a, a + WINDOW - 1)
  }

  /** The aligned boundary that falls inside, or at the start of, the window that starts at a. */
  function Boundary(a: int): int { FixedWindow.WindowStart(a) + WINDOW }

  /** Whole microseconds of the window before the boundary, and from it on. */
  function Left(a: int): int { Micro(Boundary(a)) - Micro(a) - 1 }
  function Right(a: int): int { Micro(a) + WINDOW_MICROS - Micro(Boundary(a)) }

  /** Some run of requests in distinct microseconds has more than 3 * limit of them allowed in the window. */
  ghost predicate Exceeds(limit: nat, a: int) {
    exists requests ::
      DistinctMicros(requests) && CountIn(AllowedTimes(requests, limit, true), a, a + 59_999_999_999) > 3 * limit
  }

  lemma AllowedTotal(requests: seq<Request>, limit: nat, a: int)
    ensures CountIn(AllowedTimes(requests, limit, true), a, a + 59_999_999_999) == Total(ServeAll(requests, limit), a)
  {
    AllowedAreAdmitted(requests, limit, true, a, a + WINDOW - 1);
    TraceAfterServes(requests, limit);
  }

  /** Each limiter's admissions come in ascending microseconds, and the two share none. */
  ghost predicate Disjoint(t: Trace, micro: int) {
    && Increasing(t.viaRedis, micro) && Increasing(t.viaFallback, micro)
    && forall i, j :: 0 <= i < |t.viaRedis| && 0 <= j < |t.viaFallback| ==>
         Micro(t.viaRedis[i]) != Micro(t.viaFallback[j])
  }

  lemma ServeAppends(t: Trace, limit: int, r: Request)
    ensures var t' := Serve(t, limit, r);
            || (t'.viaRedis == t.viaRedis && t'.viaFallback == t.viaFallback)
            || (t'.viaRedis == t.viaRedis + [r.now] && t'.viaFallback == t.viaFallback)
            || (t'.viaRedis == t.viaRedis && t'.viaFallback == t.viaFallback + [r.now])
  {}

  lemma AppendDisjoint(t: Trace, t': Trace, now: int, before: int)
    requires Disjoint(t, before) && before < Micro(now)
    requires || (t'.viaRedis == t.viaRedis && t'.viaFallback == t.viaFallback)
             || (t'.viaRedis == t.viaRedis + [now] && t'.viaFallback == t.viaFallback)
             || (t'.viaRedis == t.viaRedis && t'.viaFallback == t.viaFallback + [now])
    ensures Disjoint(t', Micro(now))
  {}

  lemma {:induction false} ServeAllDisjoint(requests: seq<Request>, limit: int, micro: int)
    requires DistinctMicros(requests) && (requests != [] ==> micro == Micro(requests[|requests| - 1].now))
    ensures Disjoint(ServeAll(requests, limit), micro)
  {
    if requests != [] {
      var n := |requests| - 1;
      var before := if n == 0 then micro - 1 else Micro(requests[n - 1].now);
      ServeAllDisjoint(requests[..n], limit, before);
      ServeAppends(ServeAll(requests[..n], limit), limit, requests[n]);
      AppendDisjoint(ServeAll(requests[..n], limit), ServeAll(requests, limit), requests[n].now, before);
    }
  }

  /** Readings of an interval in distinct microseconds are no more than the microseconds they may lie in. */
  lemma {:induction false} CountInSet(log: seq<int>, micro: int, lo: int, hi: int, s: set<int>)
    requires Increasing(log, micro)
    requires forall i :: 0 <= i < |log| && lo <= log[i] <= hi ==> Micro(log[i]) in s
    ensures CountIn(log, lo, hi) <= |s|
  {
    if log != [] {
      var n := |log| - 1;
      var last := Micro(log[n]);
      if lo <= log[n] <= hi {
        CountInSet(log[..n], last, lo, hi, s - {last});
      } else {
        CountInSet(log[..n], last, lo, hi, s);
      }
    }
  }

  /** Some Redis admission lies in the given microsecond. */
  ghost predicate RedisAt(t: Trace, micro: int) {
    exists i :: 0 <= i < |t.viaRedis| && Micro(t.viaRedis[i]) == micro
  }

  lemma {:induction false} CountInSame(s: seq<int>, lo: int, hi: int, lo': int, hi': int)
    requires forall i :: 0 <= i < |s| && lo <= s[i] <= hi ==> lo' <= s[i] <= hi'
    ensures CountIn(s, lo, hi) <= CountIn(s, lo', hi')
  {
    if s != [] {
      CountInSame(s[..|s| - 1], lo, hi, lo', hi');
    }
  }

  lemma FirstEndNeeded(t: Trace, limit: nat, micro: int, a: int)
    requires limit > 0 && Increasing(t.viaRedis, micro) && WellSpaced(t.viaRedis, limit) && !RedisAt(t, Micro(a))
    ensures CountIn(t.viaRedis, a, a + WINDOW - 1) <= limit
  {
    var next := a - a % 1_000 + 1_000;
    forall i | 0 <= i < |t.viaRedis| && a <= t.viaRedis[i] <= a + WINDOW - 1
      ensures next <= t.viaRedis[i] <= next + WINDOW - 1
    {
      assert Micro(t.viaRedis[i]) != Micro(a);
    }
    CountInSame(t.viaRedis, a, a + WINDOW - 1, next, next + WINDOW - 1);
    RedisCapAligned(t.viaRedis, limit, micro, next);
  }

  lemma LastEndNeeded(t: Trace, limit: nat, micro: int, a: int)
    requires limit > 0 && Increasing(t.viaRedis, micro) && WellSpaced(t.viaRedis, limit)
    requires !RedisAt(t, Micro(a) + WINDOW_MICROS)
    ensures CountIn(t.viaRedis, a, a + WINDOW - 1) <= limit
  {
    var floor := a - a % 1_000;
    forall i | 0 <= i < |t.viaRedis| && a <= t.viaRedis[i] <= a + WINDOW - 1
      ensures floor <= t.viaRedis[i] <= floor + WINDOW - 1
    {
      assert Micro(t.viaRedis[i]) != Micro(a) + WINDOW_MICROS;
    }
    CountInSame(t.viaRedis, a, a + WINDOW - 1, floor, floor + WINDOW - 1);
    RedisCapAligned(t.viaRedis, limit, micro, floor);
  }

  /** Redis exceeds its limit only by using the two microseconds that the window cuts through. */
  lemma RedisUsesBothEnds(t: Trace, limit: nat, micro: int, a: int)
    requires limit > 0 && Increasing(t.viaRedis, micro) && WellSpaced(t.viaRedis, limit)
    requires CountIn(t.viaRedis, a, a + WINDOW - 1) > limit
    ensures a % 1_000 != 0 && RedisAt(t, Micro(a)) && RedisAt(t, Micro(a) + WINDOW_MICROS)
  {
    if a % 1_000 == 0 { RedisCapAligned(t.viaRedis, limit, micro, a); }
    if !RedisAt(t, Micro(a)) { FirstEndNeeded(t, limit, micro, a); }
    if !RedisAt(t, Micro(a) + WINDOW_MICROS) { LastEndNeeded(t, limit, micro, a); }
  }

  lemma BoundaryInside(a: int)
    ensures FixedWindow.WindowStart(a) <= a < Boundary(a) <= a + WINDOW
    ensures Boundary(a) % 60_000_000_000 == 0 && Boundary(a) % 1_000 == 0
  {
    FixedWindow.StartAligned(a);
  }

  lemma LeftFits(t: Trace, micro: int, a: int)
    requires Disjoint(t, micro) && RedisAt(t, Micro(a))
    ensures CountIn(t.viaFallback, a, Boundary(a) - 1) <= Left(a)
  {
    BoundaryInside(a);
    var s := Interval(Micro(a) + 1, Micro(Boundary(a)));
    forall i | 0 <= i < |t.viaFallback| && a <= t.viaFallback[i] <= Boundary(a) - 1
      ensures Micro(t.viaFallback[i]) in s
    {
      assert Micro(t.viaFallback[i]) != Micro(a);
    }
    CountInSet(t.viaFallback, micro, a, Boundary(a) - 1, s);
  }

  lemma RightFits(t: Trace, micro: int, a: int)
    requires Disjoint(t, micro) && RedisAt(t, Micro(a) + WINDOW_MICROS)
    ensures CountIn(t.viaFallback, Boundary(a), a + WINDOW - 1) <= Right(a)
  {
    BoundaryInside(a);
    var s := Interval(Micro(Boundary(a)), Micro(a) + WINDOW_MICROS);
    forall i | 0 <= i < |t.viaFallback| && Boundary(a) <= t.viaFallback[i] <= a + WINDOW - 1
      ensures Micro(t.viaFallback[i]) in s
    {
      assert Micro(t.viaFallback[i]) != Micro(a) + WINDOW_MICROS;
    }
    CountInSet(t.viaFallback, micro, Boundary(a), a + WINDOW - 1, s);
  }

  lemma SplitSize(all: set<int>, part: set<int>)
    requires part <= all
    ensures |part| + |all - part| == |all|
  {
    assert all == part + (all - part);
  }

  lemma FitInto(t: Trace, micro: int, lo: int, hi: int, all: set<int>)
    requires Disjoint(t, micro) && forall x :: lo <= x <= hi ==> Micro(x) in all
    ensures CountIn(t.viaRedis, lo, hi) + CountIn(t.viaFallback, lo, hi) <= |all|
  {
    var redis := set m | m in all && RedisAt(t, m);
    CountInSet(t.viaRedis, micro, lo, hi, redis);
    CountInSet(t.viaFallback, micro, lo, hi, all - redis);
    SplitSize(all, redis);
  }

  /** All admissions of a window lie in the microseconds it touches. */
  lemma AllFit(t: Trace, micro: int, a: int)
    requires Disjoint(t, micro)
    ensures Total(t, a) <= WINDOW_MICROS + 1
  {
    var last := Micro(a) + WINDOW_MICROS;
    FitInto(t, micro, a, a + WINDOW - 1, Interval(Micro(a), last + 1));
  }

  /** There is room for 3 * limit + 1 distinct microseconds, the boundary well inside. */
  predicate RoomToExceed(limit: nat, a: int) {
    a % 1_000 != 0 && limit <= Left(a) && limit <= Right(a) && 3 * limit <= WINDOW_MICROS
  }

  lemma ExceedsNeedsRoom(requests: seq<Request>, limit: nat, a: int)
    requires limit > 0 && DistinctMicros(requests) && Total(ServeAll(requests, limit), a) > 3 * limit
    ensures RoomToExceed(limit, a)
  {
    var micro := if requests == [] then 0 else Micro(requests[|requests| - 1].now);
    var t := ServeAll(requests, limit);
    ServeAllInv(requests, limit, micro);
    ServeAllDisjoint(requests, limit, micro);
    BoundaryInside(a);
    FixedWindow.CapDoubles(t.viaFallback, limit, a);
    RedisCapAnywhere(t.viaRedis, limit, micro, a);
    RedisUsesBothEnds(t, limit, micro, a);
    LeftFits(t, micro, a);
    RightFits(t, micro, a);
    AllFit(t, micro, a);
    FallbackHalves(t.viaFallback, limit, a);
  }

  /** Neither side of the boundary holds more than the limit. */
  lemma FallbackHalves(log: seq<int>, limit: nat, a: int)
    requires FixedWindow.AlignedCap(log, limit)
    ensures CountIn(log, a, a + WINDOW - 1)
         == CountIn(log, a, Boundary(a) - 1) + CountIn(log, Boundary(a), a + WINDOW - 1)
    ensures CountIn(log, a, Boundary(a) - 1) <= limit && CountIn(log, Boundary(a), a + WINDOW - 1) <= limit
  {
    BoundaryInside(a);
    CountInAdjacent(log, a, Boundary(a), a + WINDOW - 1);
    var start := FixedWindow.WindowStart(a);
    CountInWider(log, a, Boundary(a) - 1, start, start + WINDOW - 1);
    CountInWider(log, Boundary(a), a + WINDOW - 1, Boundary(a), Boundary(a) + WINDOW - 1);
    FixedWindow.StartAligned(a);
    assert FixedWindow.Used(log, start) <= limit && FixedWindow.Used(log, Boundary(a)) <= limit;
  }

  // ---- A run that exceeds it ------------------------------------------------------------

  /** The first instant of a microsecond. */
  function Nano(micro: int): int { (micro + 62_135_596_800_000_000) * 1_000 }

  lemma NanoMicro(micro: int)
    ensures Micro(Nano(micro)) == micro
  {}

  /**
    A run under construction for the window at a: `redis` admissions by Redis, the first of
    them in the microsecond of a, and `left` and `right` by the fallback on the two sides of
    the boundary; the next request may come in microsecond `next`.
   */
  ghost predicate Built(requests: seq<Request>, limit: nat, a: int, next: int, redis: nat, left: nat, right: nat) {
    var t := ServeAll(requests, limit);
    && DistinctMicros(requests) && (forall i :: 0 <= i < |requests| ==> Micro(requests[i].now) < next)
    && |t.key.members - {Micro(a)}| < redis && (forall m :: m in t.key.members ==> 0 <= m)
    && CountIn(t.viaRedis, a, a + WINDOW - 1) == redis
    && FixedWindow.Used(t.viaFallback, FixedWindow.WindowStart(a)) == left == CountIn(t.viaFallback, a, Boundary(a) - 1)
    && FixedWindow.Used(t.viaFallback, Boundary(a)) == right == CountIn(t.viaFallback, Boundary(a), a + WINDOW - 1)
  }

  /** Pushing one admission: what a serving step has to establish for the run to stay built. */
  lemma PushDistinct(requests: seq<Request>, limit: int, r: Request, next: int)
    requires DistinctMicros(requests) && (forall i :: 0 <= i < |requests| ==> Micro(requests[i].now) < next)
    requires next <= Micro(r.now)
    ensures DistinctMicros(requests + [r])
    ensures forall i :: 0 <= i < |requests + [r]| ==> Micro((requests + [r])[i].now) < Micro(r.now) + 1
    ensures ServeAll(requests + [r], limit) == Serve(ServeAll(requests, limit), limit, r)
  {
    ServeAllPush(requests, r, limit);
  }

  /** A call that finds room: fewer than the limit after the prune. */
  lemma RoomAdmits(t: Trace, limit: nat, now: int)
    requires |Redis.RemoveUpTo(Redis.AsOf(t.key, Micro(now)), Micro(now - WINDOW)).members| < limit
    ensures var t' := Serve(t, limit, Request(now, NoFault));
            && t'.viaRedis == t.viaRedis + [now] && t'.viaFallback == t.viaFallback
            && t'.key.members <= t.key.members + {Micro(now)}
  {}

  lemma PrunedSmall(k: Redis.Key, limit: nat, redis: nat, now: int, first: int)
    requires |k.members - {first}| < redis <= limit && (forall m :: m in k.members ==> 0 <= m)
    requires redis < limit || Micro(now) == first + WINDOW_MICROS
    ensures |Redis.RemoveUpTo(Redis.AsOf(k, Micro(now)), Micro(now - WINDOW)).members| < limit
  {
    var pruned := Redis.RemoveUpTo(Redis.AsOf(k, Micro(now)), Micro(now - WINDOW)).members;
    assert Micro(now - WINDOW) == Micro(now) - WINDOW_MICROS;
    if redis < limit {
      SubsetSize(pruned, (k.members - {first}) + {first});
    } else {
      assert first !in pruned;
      SubsetSize(pruned, k.members - {first});
    }
  }

  lemma RedisMore(requests: seq<Request>, limit: nat, a: int, next: int, redis: nat, left: nat, right: nat, now: int)
    returns (after: seq<Request>)
    requires Built(requests, limit, a, next, redis, left, right) && redis <= limit
    requires next <= Micro(now) && 0 <= Micro(now) && a <= now <= a + WINDOW - 1
    requires redis < limit || Micro(now) == Micro(a) + WINDOW_MICROS
    ensures Built(after, limit, a, Micro(now) + 1, redis + 1, left, right)
  {
    var t, r := ServeAll(requests, limit), Request(now, NoFault);
    after := requests + [r];
    PushDistinct(requests, limit, r, next);
    PrunedSmall(t.key, limit, redis, now, Micro(a));
    RoomAdmits(t, limit, now);
    CountInPush(t.viaRedis, now, a, a + WINDOW - 1);
    SubsetSize(Serve(t, limit, r).key.members - {Micro(a)}, (t.key.members - {Micro(a)}) + {Micro(now)});
  }

  /** A request whose first pipeline fails goes to the fallback. */
  lemma FallbackServes(t: Trace, limit: nat, now: int)
    ensures var t' := Serve(t, limit, Request(now, FirstPipelineFails(false)));
            && t'.viaRedis == t.viaRedis && t'.key.members <= t.key.members
            && t'.viaFallback == FixedWindow.Record(t.viaFallback, limit, now)
  {}

  lemma RecordAppends(log: seq<int>, limit: nat, start: int, now: int)
    requires start % 60_000_000_000 == 0 && start <= now < start + WINDOW && FixedWindow.Used(log, start) < limit
    ensures FixedWindow.Record(log, limit, now) == log + [now]
  {
    FixedWindow.StartIs(start, now);
  }

  lemma PushCounts(log: seq<int>, now: int, start: int, a: int, end: int)
    requires start <= a <= now <= a + WINDOW - 1 && a < end == start + WINDOW
    ensures var log', l, r := log + [now], if now < end then 1 else 0, if now < end then 0 else 1;
            && FixedWindow.Used(log', start) == FixedWindow.Used(log, start) + l
            && CountIn(log', a, end - 1) == CountIn(log, a, end - 1) + l
            && FixedWindow.Used(log', end) == FixedWindow.Used(log, end) + r
            && CountIn(log', end, a + WINDOW - 1) == CountIn(log, end, a + WINDOW - 1) + r
  {
    CountInPush(log, now, start, start + WINDOW - 1);
    CountInPush(log, now, a, end - 1);
    CountInPush(log, now, end, end + WINDOW - 1);
    CountInPush(log, now, end, a + WINDOW - 1);
  }

  lemma FallbackRecords(log: seq<int>, limit: nat, a: int, now: int, left: nat, right: nat)
    requires a <= now <= a + WINDOW - 1 && (if now < Boundary(a) then left else right) < limit
    requires FixedWindow.Used(log, FixedWindow.WindowStart(a)) == left == CountIn(log, a, Boundary(a) - 1)
    requires FixedWindow.Used(log, Boundary(a)) == right == CountIn(log, Boundary(a), a + WINDOW - 1)
    ensures var log' := FixedWindow.Record(log, limit, now);
            var left' := if now < Boundary(a) then left + 1 else left;
            var right' := if now < Boundary(a) then right else right + 1;
            && FixedWindow.Used(log', FixedWindow.WindowStart(a)) == left' == CountIn(log', a, Boundary(a) - 1)
            && FixedWindow.Used(log', Boundary(a)) == right' == CountIn(log', Boundary(a), a + WINDOW - 1)
  {
    var start, end := FixedWindow.WindowStart(a), Boundary(a);
    BoundaryInside(a);
    FixedWindow.StartAligned(a);
    RecordAppends(log, limit, if now < end then start else end, now);
    PushCounts(log, now, start, a, end);
  }

  lemma FallbackMore(requests: seq<Request>, limit: nat, a: int, next: int, redis: nat, left: nat, right: nat, now: int)
    returns (after: seq<Request>)
    requires Built(requests, limit, a, next, redis, left, right)
    requires next <= Micro(now) && a <= now <= a + WINDOW - 1 && (if now < Boundary(a) then left else right) < limit
    ensures now < Boundary(a) ==> Built(after, limit, a, Micro(now) + 1, redis, left + 1, right)
    ensures now >= Boundary(a) ==> Built(after, limit, a, Micro(now) + 1, redis, left, right + 1)
  {
    var t, r := ServeAll(requests, limit), Request(now, FirstPipelineFails(false));
    after := requests + [r];
    PushDistinct(requests, limit, r, next);
    FallbackServes(t, limit, now);
    FallbackRecords(t.viaFallback, limit, a, now, left, right);
    SubsetSize(Serve(t, limit, r).key.members - {Micro(a)}, t.key.members - {Micro(a)});
  }

  /** The first instants of whole microseconds inside the window. */
  lemma NanoInside(a: int, micro: int)
    requires Micro(a) < micro < Micro(a) + WINDOW_MICROS
    ensures Micro(Nano(micro)) == micro && a <= Nano(micro) <= a + WINDOW - 1
    ensures Nano(micro) < Boundary(a) <==> micro < Micro(Boundary(a))
  {
    BoundaryInside(a);
  }

  lemma {:induction false} RedisBurst(requests: seq<Request>, limit: nat, a: int, next: int, redis: nat, left: nat,
                                      right: nat, k: nat) returns (after: seq<Request>)
    requires Built(requests, limit, a, next, redis, left, right) && redis + k <= limit
    requires 0 <= Micro(a) < next && next + k <= Micro(a) + WINDOW_MICROS
    ensures Built(after, limit, a, next + k, redis + k, left, right)
    decreases k
  {
    after := requests;
    if k > 0 {
      after := RedisBurst(requests, limit, a, next, redis, left, right, k - 1);
      NanoInside(a, next + k - 1);
      after := RedisMore(after, limit, a, next + k - 1, redis + k - 1, left, right, Nano(next + k - 1));
    }
  }

  lemma {:induction false} LeftBurst(requests: seq<Request>, limit: nat, a: int, next: int, redis: nat, k: nat)
    returns (after: seq<Request>)
    requires Built(requests, limit, a, next, redis, 0, 0) && k <= limit
    requires Micro(a) < next && next + k <= Micro(Boundary(a))
    ensures Built(after, limit, a, next + k, redis, k, 0)
    decreases k
  {
    after := requests;
    if k > 0 {
      after := LeftBurst(requests, limit, a, next, redis, k - 1);
      BoundaryInside(a);
      NanoInside(a, next + k - 1);
      after := FallbackMore(after, limit, a, next + k - 1, redis, k - 1, 0, Nano(next + k - 1));
    }
  }

  lemma {:induction false} RightBurst(requests: seq<Request>, limit: nat, a: int, next: int, redis: nat, left: nat,
                                      k: nat)
    returns (after: seq<Request>)
    requires Built(requests, limit, a, next, redis, left, 0) && k <= limit
    requires Micro(Boundary(a)) <= next && Micro(a) < next && next + k <= Micro(a) + WINDOW_MICROS
    ensures Built(after, limit, a, next + k, redis, left, k)
    decreases k
  {
    after := requests;
    if k > 0 {
      after := RightBurst(requests, limit, a, next, redis, left, k - 1);
      NanoInside(a, next + k - 1);
      after := FallbackMore(after, limit, a, next + k - 1, redis, left, k - 1, Nano(next + k - 1));
    }
  }

  lemma FirstBuilt(limit: nat, a: int) returns (requests: seq<Request>)
    requires limit > 0 && 0 <= Micro(a)
    ensures Built(requests, limit, a, Micro(a) + 1, 1, 0, 0)
  {
    var r := Request(a, NoFault);
    PushDistinct([], limit, r, Micro(a));
    requests := [] + [r];
    RoomAdmits(ServeAll([], limit), limit, a);
    CountInPush([], a, a, a + WINDOW - 1);
    assert ServeAll(requests, limit).key.members <= {Micro(a)};
    assert ServeAll(requests, limit).key.members - {Micro(a)} == {};
  }

  /**
    Redis admits at the very start of the window and again just before its end; in between it
    uses up the rest of its limit, and the fallback its own limit on each side of the boundary.
   */
  lemma RoomIsEnough(limit: nat, a: int) returns (requests: seq<Request>)
    requires limit > 0 && 0 <= Micro(a) && RoomToExceed(limit, a)
    ensures Built(requests, limit, a, Micro(a) + WINDOW_MICROS + 1, limit + 1, limit, limit)
  {
    var first, end := Micro(a), Micro(Boundary(a));
    var before := if Left(a) - limit < limit - 1 then Left(a) - limit else limit - 1;
    requests := FirstBuilt(limit, a);
    requests := RedisBurst(requests, limit, a, first + 1, 1, 0, 0, before);
    requests := LeftBurst(requests, limit, a, first + 1 + before, 1 + before, limit);
    assert Built(requests, limit, a, end, 1 + before, limit, 0);
    requests := RightBurst(requests, limit, a, end, 1 + before, limit, limit);
    BoundaryInside(a);
    requests := RedisBurst(requests, limit, a, end + limit, 1 + before, limit, limit, limit - 1 - before);
    var last := Nano(first + WINDOW_MICROS);
    NanoMicro(first + WINDOW_MICROS);
    assert a <= last <= a + WINDOW - 1;
    requests := RedisMore(requests, limit, a, end + limit + (limit - 1 - before), limit, limit, limit, last);
  }

  /**
    From 1970 on, some run of requests in distinct microseconds exceeds 3 * limit in the window
    that starts at a if and only if a lies between two microseconds, at least `limit` whole
    microseconds lie on either side of the aligned boundary inside the window, and 3 * limit
    fit into it.
   */
  lemma ThreeTimesIsExact(limit: nat, a: int)
    requires limit > 0 && 0 <= Micro(a)
    ensures Exceeds(limit, a) <==> RoomToExceed(limit, a)
  {
    if RoomToExceed(limit, a) {
      var requests := RoomIsEnough(limit, a);
      BoundaryInside(a);
      CountInAdjacent(ServeAll(requests, limit).viaFallback, a, Boundary(a), a + WINDOW - 1);
      assert Total(ServeAll(requests, limit), a) == 3 * limit + 1;
      AllowedTotal(requests, limit, a);
    } else if Exceeds(limit, a) {
      var requests :|
        DistinctMicros(requests) && CountIn(AllowedTimes(requests, limit, true), a, a + 59_999_999_999) > 3 * limit;
      AllowedTotal(requests, limit, a);
      ExceedsNeedsRoom(requests, limit, a);
    }
  }
}
