/**
  The rate-limiting middleware (internal/middleware/ratelimit.go, RateLimit): ask Redis and,
  when Redis fails, fall back to the process-local limiter. Requests are handled one after
  another; a Redis call may fail at either of its two pipelines, with any part of the failed
  pipeline having taken effect.
 */
module RateLimit {
  import opened Prelude
  import opened Timeline
  import FixedWindow
  import Redis = RedisWindow

  const WINDOW: int := FixedWindow.WINDOW
  const WINDOW_MICROS: int := 60_000_000
  const SLACK_MICROS: int := 1_000_000

  /** time.UnixMicro of an instant counted from Go's zero time. */
  function Micro(t: int): int { t / 1_000 - 62_135_596_800_000_000 }

  datatype Fault =
    | NoFault
    | FirstPipelineFails(pruned: bool)
    | SecondPipelineFails(inserted: bool, renewed: bool)

  /** redisAllow once its first pipeline has succeeded. */
  function CountAndAdd(pruned: Redis.Key, limit: int, micro: int, reset: int, fault: Fault)
    : (Redis.Key, Option<FixedWindow.Verdict>)
  {
    var inserted := Redis.Add(pruned, micro);
    var ttl := micro + WINDOW_MICROS + SLACK_MICROS;
    if |pruned.members| >= limit then (pruned, Some(FixedWindow.Verdict(false, 0, reset)))
    else if fault.SecondPipelineFails? then
      var k' := if fault.inserted then inserted else pruned;
      (if fault.renewed then Redis.ExpireAt(k', ttl) else k', None)
    else
      (Redis.ExpireAt(inserted, ttl), Some(FixedWindow.Verdict(true, limit - |pruned.members| - 1, reset)))
  }

  /** A sequential redisAllow: the key it leaves, and the verdict unless it reports an error. */
  function RedisCall(k: Redis.Key, limit: int, now: int, fault: Fault): (Redis.Key, Option<FixedWindow.Verdict>) {
    var live := Redis.AsOf(k, Micro(now));
    var pruned := Redis.RemoveUpTo(live, Micro(now - WINDOW));
    if fault.FirstPipelineFails? then (if fault.pruned then pruned else live, None)
    else CountAndAdd(pruned, limit, Micro(now), FixedWindow.Unix(now + WINDOW), fault)
  }

  lemma CallOnLiveKey(k: Redis.Key, limit: int, now: int)
    requires Redis.AsOf(k, Micro(now)) == k
    ensures var pruned := Redis.RemoveUpTo(k, Micro(now) - WINDOW_MICROS);
            RedisCall(k, limit, now, NoFault)
              == CountAndAdd(pruned, limit, Micro(now), FixedWindow.Unix(now + WINDOW), NoFault)
  {}

  /** An undisturbed caller of the interleaved protocol does what a sequential call does. */
  lemma LoneCallerRefines(limit: int, callers: nat, patience: int, events: seq<Redis.Event>, s: Redis.State, now: int)
    requires var cfg := Redis.Config(limit, WINDOW_MICROS, SLACK_MICROS);
             cfg.Sane() && Redis.Exec(cfg, callers, patience, events) == Some(s)
    requires s.callers != [] && s.callers[0] == Redis.Idle && s.clock == Micro(now) && 0 <= patience
    ensures var cfg := Redis.Config(limit, WINDOW_MICROS, SLACK_MICROS);
            var (key, verdict) := RedisCall(s.key, limit, now, NoFault);
            verdict.Some? &&
            if verdict.value.allowed then
              Redis.Exec(cfg, callers, patience, events + Redis.CallEvents() + [Redis.Renew(0)])
                == Some(s.(key := key, admitted := s.admitted + {s.clock}))
            else
              Redis.Exec(cfg, callers, patience, events + Redis.AskEvents()) == Some(s.(key := key))
  {
    var cfg := Redis.Config(limit, WINDOW_MICROS, SLACK_MICROS);
    Redis.ReachableKeyLives(cfg, callers, patience, events);
    CallOnLiveKey(s.key, limit, now);
    if |Redis.PrunedNow(cfg, s).members| < limit {
      Redis.LoneAdmission(cfg, callers, patience, events, s);
    } else {
      Redis.LoneRefusal(cfg, callers, patience, events, s);
    }
  }

  // ---- One key's life under the middleware --------------------------------------

  datatype Request = Request(now: int, fault: Fault)

  /** The Redis key, and the admission times granted by either limiter. */
  datatype Trace = Trace(key: Redis.Key, viaRedis: seq<int>, viaFallback: seq<int>)

  function Serve(t: Trace, limit: int, r: Request): Trace {
    var (key, verdict) := RedisCall(t.key, limit, r.now, r.fault);
    match verdict
    case None => Trace(key, t.viaRedis, FixedWindow.Record(t.viaFallback, limit, r.now))
    case Some(v) => Trace(key, if v.allowed then t.viaRedis + [r.now] else t.viaRedis, t.viaFallback)
  }

  function ServeAll(requests: seq<Request>, limit: int): Trace {
    if requests == [] then Trace(Redis.NO_KEY, [], [])
    else Serve(ServeAll(requests[..|requests| - 1], limit), limit, requests[|requests| - 1])
  }

  /** Requests arrive in order, each in a microsecond of its own. */
  ghost predicate DistinctMicros(requests: seq<Request>) {
    forall i, j :: 0 <= i < j < |requests| ==> Micro(requests[i].now) < Micro(requests[j].now)
  }

  // ---- What Redis remembers --------------------------------------------------------

  /** No Redis-admitted stamp of the window is missing, and no deadline cuts one short. */
  ghost predicate Remembers(k: Redis.Key, viaRedis: seq<int>, micro: int) {
    && (k.members == {} ==> k.deadline == None)
    && (forall i :: 0 <= i < |viaRedis| && micro - WINDOW_MICROS < Micro(viaRedis[i]) ==>
          Micro(viaRedis[i]) in k.members)
    && (forall i :: 0 <= i < |viaRedis| && k.deadline.Some? && Micro(viaRedis[i]) in k.members ==>
          Micro(viaRedis[i]) + WINDOW_MICROS + SLACK_MICROS <= k.deadline.value)
  }

  ghost predicate Increasing(viaRedis: seq<int>, micro: int) {
    && (forall i, j :: 0 <= i < j < |viaRedis| ==> Micro(viaRedis[i]) < Micro(viaRedis[j]))
    && (forall i :: 0 <= i < |viaRedis| ==> Micro(viaRedis[i]) <= micro)
  }

  /** Any limit + 1 consecutive Redis admissions span at least a window, in microseconds. */
  ghost predicate WellSpaced(viaRedis: seq<int>, limit: nat) {
    forall i :: limit <= i < |viaRedis| ==> Micro(viaRedis[i]) - Micro(viaRedis[i - limit]) >= WINDOW_MICROS
  }

  ghost predicate RedisInv(t: Trace, limit: nat, micro: int) {
    && Increasing(t.viaRedis, micro)
    && Remembers(t.key, t.viaRedis, micro)
    && WellSpaced(t.viaRedis, limit)
  }

  lemma {:induction false} DistinctMembers(stamps: seq<int>, s: set<int>)
    requires forall i, j :: 0 <= i < j < |stamps| ==> stamps[i] < stamps[j]
    requires forall i :: 0 <= i < |stamps| ==> stamps[i] in s
    ensures |stamps| <= |s|
  {
    if stamps != [] {
      var n := |stamps| - 1;
      DistinctMembers(stamps[..n], s - {stamps[n]});
    }
  }

  lemma MicroOfWindow(now: int)
    ensures Micro(now - WINDOW) == Micro(now) - WINDOW_MICROS
  {}

  /** The prune at the start of a call forgets nothing of the window. */
  lemma PrunedRemembers(k: Redis.Key, viaRedis: seq<int>, before: int, now: int)
    requires Remembers(k, viaRedis, before) && Increasing(viaRedis, before) && before <= Micro(now)
    ensures var live := Redis.AsOf(k, Micro(now));
            && Remembers(live, viaRedis, Micro(now))
            && Remembers(Redis.RemoveUpTo(live, Micro(now - WINDOW)), viaRedis, Micro(now))
  {
    MicroOfWindow(now);
  }

  /** If the call finds room, the admission `limit` places back has left the window. */
  lemma RoomMeansSpaced(k: Redis.Key, viaRedis: seq<int>, limit: nat, micro: int)
    requires limit > 0 && Increasing(viaRedis, micro) && Remembers(k, viaRedis, micro)
    requires |k.members| < limit <= |viaRedis|
    ensures micro - Micro(viaRedis[|viaRedis| - limit]) >= WINDOW_MICROS
  {
    var n := |viaRedis|;
    if micro - Micro(viaRedis[n - limit]) < WINDOW_MICROS {
      var stamps := seq(limit, i requires 0 <= i < limit => Micro(viaRedis[n - limit + i]));
      DistinctMembers(stamps, k.members);
      assert false;
    }
  }

  lemma PushSpaced(viaRedis: seq<int>, limit: nat, now: int, before: int)
    requires limit > 0 && Increasing(viaRedis, before) && before < Micro(now) && WellSpaced(viaRedis, limit)
    requires limit <= |viaRedis| ==> Micro(now) - Micro(viaRedis[|viaRedis| - limit]) >= WINDOW_MICROS
    ensures Increasing(viaRedis + [now], Micro(now)) && WellSpaced(viaRedis + [now], limit)
  {}

  /** Whatever part of a failed second pipeline took effect does no harm. */
  lemma CountAndAddRemembers(pruned: Redis.Key, viaRedis: seq<int>, limit: nat, now: int, reset: int, fault: Fault)
    requires Remembers(pruned, viaRedis, Micro(now)) && Increasing(viaRedis, Micro(now) - 1)
    ensures var (k, v) := CountAndAdd(pruned, limit, Micro(now), reset, fault);
            Remembers(k, if v.Some? && v.value.allowed then viaRedis + [now] else viaRedis, Micro(now))
  {}

  lemma CountAndAddSpaces(pruned: Redis.Key, viaRedis: seq<int>, limit: nat, now: int, reset: int, fault: Fault)
    requires limit > 0 && Remembers(pruned, viaRedis, Micro(now))
    requires Increasing(viaRedis, Micro(now) - 1) && WellSpaced(viaRedis, limit)
    ensures var (k, v) := CountAndAdd(pruned, limit, Micro(now), reset, fault);
            var viaRedis' := if v.Some? && v.value.allowed then viaRedis + [now] else viaRedis;
            Increasing(viaRedis', Micro(now)) && WellSpaced(viaRedis', limit)
  {
    if |pruned.members| < limit && !fault.SecondPipelineFails? {
      if limit <= |viaRedis| {
        RoomMeansSpaced(pruned, viaRedis, limit, Micro(now));
      }
      PushSpaced(viaRedis, limit, now, Micro(now) - 1);
    }
  }

  lemma RedisCallKeeps(k: Redis.Key, viaRedis: seq<int>, limit: nat, r: Request, before: int)
    requires limit > 0 && before < Micro(r.now)
    requires Increasing(viaRedis, before) && Remembers(k, viaRedis, before) && WellSpaced(viaRedis, limit)
    ensures var (k', v) := RedisCall(k, limit, r.now, r.fault);
            var viaRedis' := if v.Some? && v.value.allowed then viaRedis + [r.now] else viaRedis;
            Increasing(viaRedis', Micro(r.now)) && Remembers(k', viaRedis', Micro(r.now))
            && WellSpaced(viaRedis', limit)
  {
    var pruned := Redis.RemoveUpTo(Redis.AsOf(k, Micro(r.now)), Micro(r.now - WINDOW));
    var reset := FixedWindow.Unix(r.now + WINDOW);
    PrunedRemembers(k, viaRedis, before, r.now);
    if !r.fault.FirstPipelineFails? {
      assert RedisCall(k, limit, r.now, r.fault) == CountAndAdd(pruned, limit, Micro(r.now), reset, r.fault);
      CountAndAddRemembers(pruned, viaRedis, limit, r.now, reset, r.fault);
      CountAndAddSpaces(pruned, viaRedis, limit, r.now, reset, r.fault);
    }
  }

  lemma ServeKeepsRedisInv(t: Trace, limit: nat, r: Request, before: int)
    requires limit > 0 && RedisInv(t, limit, before) && before < Micro(r.now)
    ensures RedisInv(Serve(t, limit, r), limit, Micro(r.now))
  {
    var (k', v) := RedisCall(t.key, limit, r.now, r.fault);
    var viaRedis' := if v.Some? && v.value.allowed then t.viaRedis + [r.now] else t.viaRedis;
    ServeViaRedis(t, limit, r);
    RedisCallKeeps(t.key, t.viaRedis, limit, r, before);
    assert Increasing(viaRedis', Micro(r.now)) && WellSpaced(viaRedis', limit);
    assert Remembers(k', viaRedis', Micro(r.now));
  }

  lemma ServeViaRedis(t: Trace, limit: int, r: Request)
    ensures var (k', v) := RedisCall(t.key, limit, r.now, r.fault);
            && Serve(t, limit, r).key == k'
            && Serve(t, limit, r).viaRedis == if v.Some? && v.value.allowed then t.viaRedis + [r.now] else t.viaRedis
  {}

  ghost predicate Inv(t: Trace, limit: nat, micro: int) {
    RedisInv(t, limit, micro) && FixedWindow.AlignedCap(t.viaFallback, limit)
  }

  lemma {:induction false} ServeAllInv(requests: seq<Request>, limit: nat, micro: int)
    requires limit > 0 && DistinctMicros(requests)
    requires requests != [] ==> micro == Micro(requests[|requests| - 1].now)
    ensures Inv(ServeAll(requests, limit), limit, micro)
  {
    if requests == [] {
      forall start ensures FixedWindow.Used([], start) == 0 {}
    } else {
      var n := |requests| - 1;
      var t, r := ServeAll(requests[..n], limit), requests[n];
      var before := if n == 0 then micro - 1 else Micro(requests[n - 1].now);
      ServeAllInv(requests[..n], limit, before);
      ServeKeepsRedisInv(t, limit, r, before);
      FixedWindow.RecordKeepsCap(t.viaFallback, limit, r.now);
    }
  }

  // ---- The combined bound ----------------------------------------------------------

  function Micros(log: seq<int>): (m: seq<int>)
    ensures |m| == |log| && forall i :: 0 <= i < |log| ==> m[i] == Micro(log[i])
  {
    seq(|log|, i requires 0 <= i < |log| => Micro(log[i]))
  }

  lemma {:induction false} CountInMicros(log: seq<int>, lo: int, hi: int)
    ensures CountIn(log, lo, hi) <= CountIn(Micros(log), Micro(lo), Micro(hi))
  {
    if log != [] {
      var n := |log| - 1;
      assert Micros(log)[..n] == Micros(log[..n]);
      CountInMicros(log[..n], lo, hi);
    }
  }

  lemma RedisCapAligned(viaRedis: seq<int>, limit: nat, micro: int, a: int)
    requires limit > 0 && Increasing(viaRedis, micro) && WellSpaced(viaRedis, limit) && a % 1_000 == 0
    ensures CountIn(viaRedis, a, a + WINDOW - 1) <= limit
  {
    CountInMicros(viaRedis, a, a + WINDOW - 1);
    assert Micro(a + WINDOW - 1) == Micro(a) + WINDOW_MICROS - 1;
    SpacedCap(Micros(viaRedis), limit, WINDOW_MICROS - 1, Micro(a));
  }

  /** One admission further apart, the span exceeds the window. */
  lemma OneMoreSpaced(viaRedis: seq<int>, limit: nat, micro: int)
    requires limit > 0 && Increasing(viaRedis, micro) && WellSpaced(viaRedis, limit)
    ensures Sorted(Micros(viaRedis)) && Spaced(Micros(viaRedis), limit + 1, WINDOW_MICROS)
  {
    var m := Micros(viaRedis);
    forall i | limit + 1 <= i < |m| ensures m[i] - m[i - (limit + 1)] > WINDOW_MICROS {
      assert m[i] - m[i - limit] >= WINDOW_MICROS && m[i - limit - 1] < m[i - limit];
    }
  }

  lemma RedisCapAnywhere(viaRedis: seq<int>, limit: nat, micro: int, a: int)
    requires limit > 0 && Increasing(viaRedis, micro) && WellSpaced(viaRedis, limit)
    ensures CountIn(viaRedis, a, a + WINDOW - 1) <= limit + 1
  {
    CountInMicros(viaRedis, a, a + WINDOW - 1);
    assert Micro(a + WINDOW - 1) <= Micro(a) + WINDOW_MICROS;
    CountInWider(Micros(viaRedis), Micro(a), Micro(a + WINDOW - 1), Micro(a), Micro(a) + WINDOW_MICROS);
    OneMoreSpaced(viaRedis, limit, micro);
    SpacedCap(Micros(viaRedis), limit + 1, WINDOW_MICROS, Micro(a));
  }

  /**
    With requests in distinct microseconds, however Redis fails, the two limiters together
    admit at most 3 * limit requests of a key in any interval of window length that starts
    on a microsecond, and one more if it starts between two.
   */
  lemma AtMostThreeTimesTheLimit(requests: seq<Request>, limit: nat, a: int)
    requires limit > 0 && DistinctMicros(requests)
    ensures var t := ServeAll(requests, limit);
            CountIn(t.viaRedis, a, a + WINDOW - 1) + CountIn(t.viaFallback, a, a + WINDOW - 1)
              <= if a % 1_000 == 0 then 3 * limit else 3 * limit + 1
  {
    var micro := if requests == [] then 0 else Micro(requests[|requests| - 1].now);
    ServeAllInv(requests, limit, micro);
    var t := ServeAll(requests, limit);
    RedisCapAnywhere(t.viaRedis, limit, micro, a);
    if a % 1_000 == 0 { RedisCapAligned(t.viaRedis, limit, micro, a); }
    FixedWindow.CapDoubles(t.viaFallback, limit, a);
  }

  lemma ServeAllPush(requests: seq<Request>, r: Request, limit: int)
    ensures ServeAll(requests + [r], limit) == Serve(ServeAll(requests, limit), limit, r)
  {
    assert (requests + [r])[..|requests|] == requests;
  }

  const EPOCH: int := 62_135_596_800_000_000_000

  lemma FirstOfTwo()
    ensures ServeAll([Request(EPOCH + 5, NoFault)], 1)
         == Trace(Redis.Key({0}, Some(WINDOW_MICROS + SLACK_MICROS)), [EPOCH + 5], [])
  {
    var r := Request(EPOCH + 5, NoFault);
    ServeAllPush([], r, 1);
    assert [] + [r] == [r] && [] + [EPOCH + 5] == [EPOCH + 5];
    assert Micro(EPOCH + 5) == 0;
    assert Redis.RemoveUpTo(Redis.NO_KEY, Micro(EPOCH + 5 - WINDOW)) == Redis.NO_KEY;
  }

  lemma SecondOfTwo()
    ensures ServeAll([Request(EPOCH + 5, NoFault), Request(EPOCH + WINDOW + 4, NoFault)], 1).viaRedis
         == [EPOCH + 5, EPOCH + WINDOW + 4]
  {
    var first, second := Request(EPOCH + 5, NoFault), Request(EPOCH + WINDOW + 4, NoFault);
    FirstOfTwo();
    ServeAllPush([first], second, 1);
    assert [first] + [second] == [first, second];
    var k := Redis.Key({0}, Some(WINDOW_MICROS + SLACK_MICROS));
    assert Micro(second.now) == WINDOW_MICROS && Micro(second.now - WINDOW) == 0;
    assert Redis.RemoveUpTo(k, 0) == Redis.NO_KEY;
  }

  lemma TwoInDistinctMicros() returns (requests: seq<Request>)
    ensures DistinctMicros(requests) && ServeAll(requests, 1).viaRedis == [EPOCH + 5, EPOCH + WINDOW + 4]
  {
    SecondOfTwo();
    requests := [Request(EPOCH + 5, NoFault), Request(EPOCH + WINDOW + 4, NoFault)];
  }

  lemma CountTwo(x: int, y: int, lo: int, hi: int)
    requires lo <= x <= hi && lo <= y <= hi
    ensures CountIn([x, y], lo, hi) == 2
  {
    assert [] + [x] == [x] && [x] + [y] == [x, y];
    CountInPush([], x, lo, hi);
    CountInPush([x], y, lo, hi);
  }

  /** The extra admission is real: the prune compares whole microseconds. */
  lemma BetweenMicrosecondsOneMore() returns (requests: seq<Request>)
    ensures DistinctMicros(requests)
    ensures CountIn(ServeAll(requests, 1).viaRedis, EPOCH + 5, EPOCH + 5 + WINDOW - 1) == 2
  {
    requests := TwoInDistinctMicros();
    CountTwo(EPOCH + 5, EPOCH + WINDOW + 4, EPOCH + 5, EPOCH + 5 + WINDOW - 1);
  }

  /**
    Distinct microseconds matter: calls in one and the same microsecond share a member of
    the set, so any number of them is admitted as soon as the limit is at least 2.
   */
  lemma {:induction false} SameMicrosecondBurst(now: int, n: nat, limit: int)
    requires limit >= 2
    ensures var t := ServeAll(seq(n, _ => Request(now, NoFault)), limit);
            && |t.viaRedis| == n && t.key.members <= {Micro(now)}
            && (t.key.deadline.Some? ==> t.key.deadline.value > Micro(now))
  {
    if n > 0 {
      var earlier := seq(n - 1, _ => Request(now, NoFault));
      SameMicrosecondBurst(now, n - 1, limit);
      ServeAllPush(earlier, Request(now, NoFault), limit);
      assert seq(n, _ => Request(now, NoFault)) == earlier + [Request(now, NoFault)];
      var t := ServeAll(earlier, limit);
      SubsetSize(Redis.RemoveUpTo(t.key, Micro(now - WINDOW)).members, {Micro(now)});
    }
  }

  // ---- The retry time after a refusal by Redis -----------------------------------------

  /** A window after a refusal nothing that was counted then is left, so the next call finds room. */
  lemma WindowAfterRefusalAdmits(k: Redis.Key, limit: int, now: int, t: int)
    requires limit > 0 && now + WINDOW <= t && forall m :: m in k.members ==> 0 <= m <= Micro(now)
    requires var verdict := RedisCall(k, limit, now, NoFault).1;
             verdict.Some? && !verdict.value.allowed
    ensures var verdict := RedisCall(RedisCall(k, limit, now, NoFault).0, limit, t, NoFault).1;
            verdict.Some? && verdict.value.allowed
  {
    var k' := RedisCall(k, limit, now, NoFault).0;
    assert k'.members <= k.members && Micro(now) <= Micro(t - WINDOW);
    assert Redis.RemoveUpTo(Redis.AsOf(k', Micro(t)), Micro(t - WINDOW)).members == {};
  }

  /**
    The advertised wait reaches that point exactly when the second clock reading is as far into
    its second as the first was into its own, or comes after the advertised reset; else it may
    end up to a second too soon.
   */
  lemma RedisRetryReaches(now: int, later: int)
    requires now <= later
    ensures var retry := FixedWindow.RetryAfter(FixedWindow.Unix(now + WINDOW), later);
            && (now + WINDOW <= later + retry * SECOND <==>
                  || later % 1_000_000_000 >= now % 1_000_000_000
                  || FixedWindow.Unix(now + WINDOW) <= FixedWindow.Unix(later))
            && now + WINDOW < later + (retry + 1) * SECOND
  {
    var a, b := now / 1_000_000_000, later / 1_000_000_000;
    assert now == 1_000_000_000 * a + now % 1_000_000_000 && later == 1_000_000_000 * b + later % 1_000_000_000;
    assert FixedWindow.Unix(now + WINDOW) == a + 60 - FixedWindow.UNIX_EPOCH;
  }

  /** Ending too soon, it can meet a second refusal. */
  lemma RedisRetryFallsShort()
    ensures var first, now, later := EPOCH + 700_000_000, EPOCH + 900_000_000, EPOCH + 1_000_000_000;
            var k := RedisCall(Redis.NO_KEY, 1, first, NoFault).0;
            var (k', refusal) := RedisCall(k, 1, now, NoFault);
            refusal.Some? && !refusal.value.allowed &&
            var retry := FixedWindow.RetryAfter(refusal.value.resetUnix, later);
            var again := RedisCall(k', 1, later + retry * SECOND, NoFault).1;
            again.Some? && !again.value.allowed
  {
    var k := Redis.Key({700_000}, Some(61_700_000));
    assert Redis.RemoveUpTo(Redis.NO_KEY, Micro(EPOCH + 700_000_000 - WINDOW)) == Redis.NO_KEY;
    assert {} + {700_000} == {700_000};
    assert RedisCall(Redis.NO_KEY, 1, EPOCH + 700_000_000, NoFault).0 == k;
    assert Redis.RemoveUpTo(k, Micro(EPOCH + 900_000_000 - WINDOW)) == k;
    assert FixedWindow.RetryAfter(FixedWindow.Unix(EPOCH + 900_000_000 + WINDOW), EPOCH + 1_000_000_000) == 59;
    assert Redis.RemoveUpTo(k, Micro(EPOCH + WINDOW - WINDOW)) == k;
  }

  // ---- The middleware -------------------------------------------------------------

  datatype Response = Response(allowed: bool, limitHeader: int, remaining: int, resetUnix: int,
                               retryAfterSecs: Option<int>)

  /** The verdict of one request: Redis's, or the fallback's when Redis fails or is absent. */
  function Answer(t: Trace, limit: int, redisConfigured: bool, r: Request): FixedWindow.Verdict {
    var viaRedis := if redisConfigured then RedisCall(t.key, limit, r.now, r.fault).1 else None;
    match viaRedis
    case Some(v) => v
    case None => FixedWindow.Decide(t.viaFallback, limit, r.now)
  }

  function Next(t: Trace, limit: int, redisConfigured: bool, r: Request): Trace {
    if redisConfigured then Serve(t, limit, r)
    else t.(viaFallback := FixedWindow.Record(t.viaFallback, limit, r.now))
  }

  /** The stamps of a key that are less than a minute old, unless its time to live is over. */
  function WindowStamps(k: Redis.Key, micro: int): set<int> {
    if k.deadline.Some? && k.deadline.value <= micro then {}
    else set m | m in k.members && !(0 <= m <= micro - 60_000_000)
  }

  /** Redis decides unless it is absent, its first pipeline fails, or its second would have to insert and fails. */
  predicate RedisAnswers(t: Trace, limit: int, redisConfigured: bool, r: Request) {
    redisConfigured && !r.fault.FirstPipelineFails?
    && (r.fault.SecondPipelineFails? ==> |WindowStamps(t.key, Micro(r.now))| >= limit)
  }

  lemma PrunedStamps(k: Redis.Key, now: int)
    ensures Redis.RemoveUpTo(Redis.AsOf(k, Micro(now)), Micro(now - WINDOW)).members == WindowStamps(k, Micro(now))
  {}

  /** What Redis answers: by the stamps of the last minute, with a reset a minute from now. */
  lemma RedisAnswerMeans(t: Trace, limit: int, redisConfigured: bool, r: Request)
    requires RedisAnswers(t, limit, redisConfigured, r)
    ensures var v, stamps := Answer(t, limit, redisConfigured, r), |WindowStamps(t.key, Micro(r.now))|;
            && (v.allowed <==> stamps < limit)
            && v.remaining == (if stamps < limit then limit - stamps - 1 else 0)
            && v.resetUnix == (r.now + 60_000_000_000) / 1_000_000_000 - 62_135_596_800
  {
    PrunedStamps(t.key, r.now);
  }

  /** What a failing call leaves behind: as much of its commands as took effect, and no verdict. */
  lemma FailedCallLeaves(k: Redis.Key, limit: int, now: int, fault: Fault)
    requires !fault.NoFault? && |WindowStamps(k, Micro(now))| < limit
    ensures var (left, verdict), stamps := RedisCall(k, limit, now, fault), WindowStamps(k, Micro(now));
            && verdict.None?
            && (fault == FirstPipelineFails(false) ==> left == Redis.AsOf(k, Micro(now)))
            && (fault == FirstPipelineFails(true) ==> left.members == stamps)
            && (fault.SecondPipelineFails? ==>
                  && left.members == (if fault.inserted then stamps + {Micro(now)} else stamps)
                  && (fault.renewed && left.members != {} ==> left.deadline == Some(Micro(now) + 61_000_000)))
  {
    PrunedStamps(k, now);
  }

  /** What the fallback answers: by its admissions in the minute of the clock, with a reset at its end. */
  lemma FallbackAnswerMeans(t: Trace, limit: int, redisConfigured: bool, r: Request)
    requires !RedisAnswers(t, limit, redisConfigured, r)
    ensures var v, start := Answer(t, limit, redisConfigured, r), r.now - r.now % 60_000_000_000;
            var used := CountIn(t.viaFallback, start, start + 59_999_999_999);
            && (v.allowed <==> used < limit)
            && v.remaining == (if used < limit then limit - used - 1 else 0)
            && v.resetUnix == (start + 60_000_000_000) / 1_000_000_000 - 62_135_596_800
  {
    PrunedStamps(t.key, r.now);
  }

  /** One of the two limiters has recorded the admission, or neither has. */
  predicate Gained(before: Trace, after: Trace, now: int) {
    || (after.viaRedis == before.viaRedis + [now] && after.viaFallback == before.viaFallback)
    || (after.viaRedis == before.viaRedis && after.viaFallback == before.viaFallback + [now])
  }

  predicate Unmoved(before: Trace, after: Trace) {
    after.viaRedis == before.viaRedis && after.viaFallback == before.viaFallback
  }

  /** A request is allowed exactly when one of the two limiters records it. */
  lemma AllowedIsRecorded(t: Trace, limit: int, redisConfigured: bool, r: Request)
    ensures var allowed, after := Answer(t, limit, redisConfigured, r).allowed, Next(t, limit, redisConfigured, r);
            (allowed <==> Gained(t, after, r.now)) && (!allowed <==> Unmoved(t, after))
  {}

  // ---- Whole runs of responses ------------------------------------------------------

  function TraceAfter(requests: seq<Request>, limit: int, redisConfigured: bool): Trace {
    if requests == [] then Trace(Redis.NO_KEY, [], [])
    else Next(TraceAfter(requests[..|requests| - 1], limit, redisConfigured), limit, redisConfigured,
              requests[|requests| - 1])
  }

  /** When the requests of a run came that were answered with permission. */
  function AllowedTimes(requests: seq<Request>, limit: int, redisConfigured: bool): seq<int> {
    if requests == [] then []
    else
      var n := |requests| - 1;
      var earlier := AllowedTimes(requests[..n], limit, redisConfigured);
      var t := TraceAfter(requests[..n], limit, redisConfigured);
      if Answer(t, limit, redisConfigured, requests[n]).allowed then earlier + [requests[n].now] else earlier
  }

  lemma {:induction false} TraceAfterServes(requests: seq<Request>, limit: int)
    ensures TraceAfter(requests, limit, true) == ServeAll(requests, limit)
  {
    if requests != [] {
      TraceAfterServes(requests[..|requests| - 1], limit);
    }
  }

  lemma GainCounts(t: Trace, t': Trace, now: int, lo: int, hi: int)
    requires Gained(t, t', now)
    ensures CountIn(t'.viaRedis, lo, hi) + CountIn(t'.viaFallback, lo, hi)
         == CountIn(t.viaRedis, lo, hi) + CountIn(t.viaFallback, lo, hi) + (if lo <= now <= hi then 1 else 0)
  {
    CountInPush(t.viaRedis, now, lo, hi);
    CountInPush(t.viaFallback, now, lo, hi);
  }

  /** The allowed responses of a run are the admissions of its two limiters. */
  lemma {:induction false} AllowedAreAdmitted(requests: seq<Request>, limit: int, redisConfigured: bool,
                                              lo: int, hi: int)
    ensures var t := TraceAfter(requests, limit, redisConfigured);
            CountIn(AllowedTimes(requests, limit, redisConfigured), lo, hi)
              == CountIn(t.viaRedis, lo, hi) + CountIn(t.viaFallback, lo, hi)
  {
    if requests != [] {
      var n := |requests| - 1;
      var t, t' := TraceAfter(requests[..n], limit, redisConfigured), TraceAfter(requests, limit, redisConfigured);
      AllowedAreAdmitted(requests[..n], limit, redisConfigured, lo, hi);
      AllowedIsRecorded(t, limit, redisConfigured, requests[n]);
      if Answer(t, limit, redisConfigured, requests[n]).allowed {
        GainCounts(t, t', requests[n].now, lo, hi);
        CountInPush(AllowedTimes(requests[..n], limit, redisConfigured), requests[n].now, lo, hi);
      }
    }
  }

  lemma {:induction false} FallbackAlone(requests: seq<Request>, limit: nat)
    ensures var t := TraceAfter(requests, limit, false);
            t.viaRedis == [] && FixedWindow.AlignedCap(t.viaFallback, limit)
  {
    if requests == [] {
      forall start ensures FixedWindow.Used([], start) == 0 {}
    } else {
      var n := |requests| - 1;
      FallbackAlone(requests[..n], limit);
      FixedWindow.RecordKeepsCap(TraceAfter(requests[..n], limit, false).viaFallback, limit, requests[n].now);
    }
  }

  /**
    With requests in distinct microseconds, however Redis fails, at most 3 * limit requests of a
    key are allowed in any minute that starts on a microsecond, and one more if it starts between
    two; without Redis at most 2 * limit, whenever the requests come.
   */
  lemma AllowedAtMost(requests: seq<Request>, limit: nat, a: int)
    requires limit > 0
    ensures DistinctMicros(requests) ==>
              CountIn(AllowedTimes(requests, limit, true), a, a + 59_999_999_999)
                <= if a % 1_000 == 0 then 3 * limit else 3 * limit + 1
    ensures CountIn(AllowedTimes(requests, limit, false), a, a + 59_999_999_999) <= 2 * limit
  {
    AllowedAreAdmitted(requests, limit, true, a, a + WINDOW - 1);
    TraceAfterServes(requests, limit);
    if DistinctMicros(requests) { AtMostThreeTimesTheLimit(requests, limit, a); }
    AllowedAreAdmitted(requests, limit, false, a, a + WINDOW - 1);
    FallbackAlone(requests, limit);
    FixedWindow.CapDoubles(TraceAfter(requests, limit, false).viaFallback, limit, a);
  }

  class RateLimiter {
    const limit: int
    const redisConfigured: bool
    const fallback: FixedWindow.MemLimiter
    /** The server's keys; one that is absent holds nothing. */
    var redis: map<string, Redis.Key>
    ghost var viaRedis: map<string, seq<int>>

    ghost predicate Valid()
      reads this, fallback
    {
      fallback.Valid() && fallback.limit == limit && limit > 0
    }

    /** The trace of a key, as the run model sees it. */
    ghost function TraceOf(key: string): Trace
      reads this, fallback
    {
      Trace(Lookup(redis, key), Get(viaRedis, key), Get(fallback.admitted, key))
    }

    constructor (requestsPerMinute: int, redisConfigured: bool)
      ensures Valid() && fresh(fallback) && this.redisConfigured == redisConfigured
      ensures limit == if requestsPerMinute <= 0 then 60 else requestsPerMinute
      ensures forall key :: TraceOf(key) == ServeAll([], limit)
    {
      this.limit := if requestsPerMinute <= 0 then 60 else requestsPerMinute;
      this.redisConfigured := redisConfigured;
      this.fallback := new FixedWindow.MemLimiter(if requestsPerMinute <= 0 then 60 else requestsPerMinute);
      redis, viaRedis := map[], map[];
    }

    /** One request: `now` is read by the limiter, `later` when the refusal is written. */
    method Handle(key: string, now: int, later: int, fault: Fault) returns (r: Response)
      requires Valid() && fallback.clock <= now <= later
      modifies this, fallback
      ensures Valid() && old(fallback.clock) <= fallback.clock <= now
      ensures TraceOf(key) == Next(old(TraceOf(key)), limit, redisConfigured, Request(now, fault))
      ensures forall other :: other != key ==> TraceOf(other) == old(TraceOf(other))
      ensures var v := Answer(old(TraceOf(key)), limit, redisConfigured, Request(now, fault));
              r == Response(v.allowed, limit, v.remaining, v.resetUnix,
                            if v.allowed then None else Some(FixedWindow.RetryAfter(v.resetUnix, later)))
      ensures r.allowed <==> Gained(old(TraceOf(key)), TraceOf(key), now)
      ensures !r.allowed <==> Unmoved(old(TraceOf(key)), TraceOf(key))
    {
      var v := Allow(key, now, fault);
      var retry := None;
      if !v.allowed {
        var secs := v.resetUnix - FixedWindow.Unix(later);
        if secs < 1 { secs := 1; }
        retry := Some(secs);
      }
      return Response(v.allowed, limit, v.remaining, v.resetUnix, retry);
    }

    /** Redis first, if configured; the fallback if it is not or if it fails. */
    method Allow(key: string, now: int, fault: Fault) returns (v: FixedWindow.Verdict)
      requires Valid() && fallback.clock <= now
      modifies this, fallback
      ensures Valid() && old(fallback.clock) <= fallback.clock <= now
      ensures TraceOf(key) == Next(old(TraceOf(key)), limit, redisConfigured, Request(now, fault))
      ensures forall other :: other != key ==> TraceOf(other) == old(TraceOf(other))
      ensures v == Answer(old(TraceOf(key)), limit, redisConfigured, Request(now, fault))
      ensures v.allowed <==> Gained(old(TraceOf(key)), TraceOf(key), now)
      ensures !v.allowed <==> Unmoved(old(TraceOf(key)), TraceOf(key))
    {
      AllowedIsRecorded(TraceOf(key), limit, redisConfigured, Request(now, fault));
      if redisConfigured {
        var verdict := RedisAllow(key, now, fault);
        if verdict.Some? {
          return verdict.value;
        }
      }
      v := fallback.Allow(key, now);
    }

    /** The commands of one call, in order; None stands for an error return. */
    method RedisAllow(key: string, now: int, fault: Fault) returns (verdict: Option<FixedWindow.Verdict>)
      modifies this
      ensures var (k, v) := RedisCall(Lookup(old(redis), key), limit, now, fault);
              redis == old(redis)[key := k] && verdict == v
      ensures var log := Get(old(viaRedis), key);
              viaRedis == old(viaRedis)[key := if verdict.Some? && verdict.value.allowed then log + [now] else log]
    {
      var k;
      k, verdict := SendCommands(Lookup(redis, key), limit, now, fault);
      redis := redis[key := k];
      var log := Get(viaRedis, key);
      viaRedis := viaRedis[key := if verdict.Some? && verdict.value.allowed then log + [now] else log];
    }
  }

  /** The commands of one call against its key. */
  method SendCommands(key: Redis.Key, limit: int, now: int, fault: Fault)
    returns (k: Redis.Key, verdict: Option<FixedWindow.Verdict>)
    ensures (k, verdict) == RedisCall(key, limit, now, fault)
  {
    var windowStart := now - WINDOW;
    var resetUnix := FixedWindow.Unix(now + WINDOW);
    k := Redis.AsOf(key, Micro(now));
    if fault.FirstPipelineFails? {
      if fault.pruned { k := Redis.RemoveUpTo(k, Micro(windowStart)); }
      return k, None;
    }
    k := Redis.RemoveUpTo(k, Micro(windowStart));
    var count := |k.members|;
    if count >= limit {
      return k, Some(FixedWindow.Verdict(false, 0, resetUnix));
    }
    if !fault.SecondPipelineFails? || fault.inserted { k := Redis.Add(k, Micro(now)); }
    if !fault.SecondPipelineFails? || fault.renewed {
      k := Redis.ExpireAt(k, Micro(now) + WINDOW_MICROS + SLACK_MICROS);
    }
    if fault.SecondPipelineFails? {
      return k, None;
    }
    return k, Some(FixedWindow.Verdict(true, limit - count - 1, resetUnix));
  }

  function Lookup(keys: map<string, Redis.Key>, key: string): Redis.Key {
    if key in keys then keys[key] else Redis.NO_KEY
  }
}
