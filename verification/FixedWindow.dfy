/**
  The process-local limiter (internal/middleware/ratelimit.go, memLimiter): one counter per
  key, started afresh at each aligned window. Instants are nanoseconds since Go's zero time,
  the origin that Time.Truncate aligns to.
 */
module FixedWindow {
  import opened Prelude
  import opened Timeline

  /** The middleware's only window. */
  const WINDOW: int := MINUTE

  /** Seconds from Go's zero time to the Unix epoch. */
  const UNIX_EPOCH: int := 62_135_596_800

  function Unix(t: int): int { t / 1_000_000_000 - UNIX_EPOCH }

  function WindowStart(t: int): int { t - t % 60_000_000_000 }

  lemma StartIs(start: int, t: int)
    requires start % 60_000_000_000 == 0 && start <= t < start + WINDOW
    ensures WindowStart(t) == start
  {}

  lemma StartAligned(t: int)
    ensures WindowStart(t) % 60_000_000_000 == 0 && WindowStart(t) <= t < WindowStart(t) + WINDOW
  {}

  /** A later aligned window starts no earlier than the end of this one. */
  lemma NextWindow(start: int, t: int)
    requires start % 60_000_000_000 == 0 && start + WINDOW <= t
    ensures start + WINDOW <= WindowStart(t)
  {}

  datatype Verdict = Verdict(allowed: bool, remaining: int, resetUnix: int)

  // ---- The specification: count the key's admissions in the aligned window ----

  function Used(log: seq<int>, start: int): nat { CountIn(log, start, start + WINDOW - 1) }

  function Decide(log: seq<int>, limit: int, now: int): Verdict {
    var used := Used(log, WindowStart(now));
    Verdict(used < limit, if used < limit then limit - used - 1 else 0, Unix(WindowStart(now) + WINDOW))
  }

  function Record(log: seq<int>, limit: int, now: int): seq<int> {
    if Decide(log, limit, now).allowed then log + [now] else log
  }

  lemma ResetMeans(now: int)
    ensures (Unix(WindowStart(now) + WINDOW) + 62_135_596_800) * 1_000_000_000
         == now - now % 60_000_000_000 + 60_000_000_000
  {
    var minutes := now / 60_000_000_000;
    assert WindowStart(now) == 60_000_000_000 * minutes;
    assert Unix(WindowStart(now) + WINDOW) == 60 * minutes + 60 - UNIX_EPOCH;
  }

  /**
    A request is admitted exactly while fewer than `limit` were admitted since the last full
    minute; what remains is what may still be admitted in it, and it ends at the reset.
   */
  lemma DecisionMeans(log: seq<int>, limit: int, now: int)
    ensures var v, start := Decide(log, limit, now), now - now % 60_000_000_000;
            var used := CountIn(log, start, start + 59_999_999_999);
            && (v.allowed <==> used < limit)
            && v.remaining == (if used < limit then limit - used - 1 else 0)
            && (v.resetUnix + 62_135_596_800) * 1_000_000_000 == start + 60_000_000_000
            && Record(log, limit, now) == (if used < limit then log + [now] else log)
  {
    ResetMeans(now);
    assert WindowStart(now) + WINDOW - 1 == now - now % 60_000_000_000 + 59_999_999_999;
  }

  // ---- The implementation -----------------------------------------------------

  datatype Entry = Entry(count: int, windowAt: int)

  /** The counter is the number of admissions in the entry's window; none lies beyond it. */
  ghost predicate EntryOk(e: Entry, log: seq<int>, clock: int) {
    && WindowStart(e.windowAt) == e.windowAt <= clock
    && UpTo(log, e.windowAt + WINDOW - 1)
    && e.count == Used(log, e.windowAt)
  }

  lemma FreshEntry(log: seq<int>, now: int, stale: Entry)
    requires log == [] || (EntryOk(stale, log, now) && stale.windowAt + WINDOW <= now)
    ensures EntryOk(Entry(0, WindowStart(now)), log, now) && now < WindowStart(now) + WINDOW
  {
    StartAligned(now);
    var start := WindowStart(now);
    StartIs(start, start);
    if log != [] {
      StartAligned(stale.windowAt);
      NextWindow(stale.windowAt, now);
    }
    CountInSkips(log, |log|, start, start + WINDOW - 1);
  }

  lemma EntryCounts(e: Entry, log: seq<int>, now: int)
    requires EntryOk(e, log, now) && now < e.windowAt + WINDOW
    ensures WindowStart(now) == e.windowAt
    ensures EntryOk(e.(count := e.count + 1), log + [now], now)
  {
    StartAligned(e.windowAt);
    StartIs(e.windowAt, now);
    CountInPush(log, now, e.windowAt, e.windowAt + WINDOW - 1);
  }

  class MemLimiter {
    const limit: int
    var entries: map<string, Entry>
    ghost var admitted: map<string, seq<int>>
    ghost var clock: int

    ghost predicate Valid()
      reads this
    {
      && admitted.Keys <= entries.Keys
      && forall key :: key in entries ==> EntryOk(entries[key], Get(admitted, key), clock)
    }

    constructor (limit: int)
      ensures Valid() && this.limit == limit && admitted == map[] && clock == 0
    {
      this.limit := limit;
      entries, admitted, clock := map[], map[], 0;
    }

    method Allow(key: string, now: int) returns (v: Verdict)
      requires Valid() && clock <= now
      modifies this
      ensures Valid() && clock == now
      ensures v == Decide(Get(old(admitted), key), limit, now)
      ensures admitted == old(admitted)[key := Record(Get(old(admitted), key), limit, now)]
    {
      ghost var log := Get(admitted, key);
      ClockAdvances(now);
      clock := now;
      var e;
      if key !in entries || now - entries[key].windowAt >= WINDOW {
        FreshEntry(log, now, if key in entries then entries[key] else Entry(0, 0));
        e := Entry(0, WindowStart(now));
      } else {
        e := entries[key];
      }
      e, v := Take(e, limit, now, log);
      entries := entries[key := e];
      admitted := admitted[key := Record(log, limit, now)];
    }

    lemma ClockAdvances(now: int)
      requires Valid() && clock <= now
      ensures forall key :: key in entries ==> EntryOk(entries[key], Get(admitted, key), now)
    {}
  }

  /** The part of the call that works on the current window's entry. */
  method Take(e: Entry, limit: int, now: int, ghost log: seq<int>) returns (e': Entry, v: Verdict)
    requires EntryOk(e, log, now) && now < e.windowAt + WINDOW
    ensures v == Decide(log, limit, now)
    ensures EntryOk(e', Record(log, limit, now), now)
  {
    EntryCounts(e, log, now);
    var resetAt := Unix(e.windowAt + WINDOW);
    if e.count >= limit {
      return e, Verdict(false, 0, resetAt);
    }
    e' := e.(count := e.count + 1);
    v := Verdict(true, limit - e'.count, resetAt);
  }

  // ---- Whole runs ---------------------------------------------------------------

  /** Admission times of one key whose requests arrive at the given times. */
  function Admissions(times: seq<int>, limit: int): seq<int> {
    if times == [] then []
    else Record(Admissions(times[..|times| - 1], limit), limit, times[|times| - 1])
  }

  ghost predicate AlignedCap(log: seq<int>, limit: nat) {
    forall start :: start % 60_000_000_000 == 0 ==> Used(log, start) <= limit
  }

  lemma RecordKeepsCap(log: seq<int>, limit: nat, now: int)
    requires AlignedCap(log, limit)
    ensures AlignedCap(Record(log, limit, now), limit)
  {
    forall start | start % 60_000_000_000 == 0 ensures Used(Record(log, limit, now), start) <= limit {
      CountInPush(log, now, start, start + WINDOW - 1);
      assert Used(log, start) <= limit;
      if start <= now < start + WINDOW { StartIs(start, now); }
    }
  }

  lemma {:induction false} AdmissionsCapped(times: seq<int>, limit: nat)
    ensures AlignedCap(Admissions(times, limit), limit)
  {
    if times != [] {
      AdmissionsCapped(times[..|times| - 1], limit);
      RecordKeepsCap(Admissions(times[..|times| - 1], limit), limit, times[|times| - 1]);
    }
  }

  /** An interval as long as the window meets at most two aligned windows. */
  lemma CapDoubles(log: seq<int>, limit: nat, a: int)
    requires AlignedCap(log, limit)
    ensures CountIn(log, a, a + WINDOW - 1) <= 2 * limit
  {
    var start := WindowStart(a);
    CountInWider(log, a, a + WINDOW - 1, start, start + 2 * WINDOW - 1);
    CountInAdjacent(log, start, start + WINDOW, start + 2 * WINDOW - 1);
    assert Used(log, start) <= limit && Used(log, start + WINDOW) <= limit;
  }

  /** Whenever the requests come, any interval of window length holds at most 2 * limit admissions. */
  lemma AtMostTwiceTheLimit(times: seq<int>, limit: nat, a: int)
    ensures CountIn(Admissions(times, limit), a, a + WINDOW - 1) <= 2 * limit
  {
    AdmissionsCapped(times, limit);
    CapDoubles(Admissions(times, limit), limit, a);
  }

  lemma AdmissionsPush(times: seq<int>, t: int, limit: int)
    ensures Admissions(times + [t], limit) == Record(Admissions(times, limit), limit, t)
  {
    assert (times + [t])[..|times|] == times;
  }

  lemma {:induction false} CountInBurst(s: seq<int>, burst: seq<int>, lo: int, hi: int)
    requires forall i :: 0 <= i < |burst| ==> lo <= burst[i] <= hi
    ensures CountIn(s + burst, lo, hi) == CountIn(s, lo, hi) + |burst|
  {
    if burst == [] {
      assert s + burst == s;
    } else {
      var n := |burst| - 1;
      CountInBurst(s, burst[..n], lo, hi);
      assert s + burst == (s + burst[..n]) + [burst[n]];
      CountInPush(s + burst[..n], burst[n], lo, hi);
    }
  }

  ghost predicate AllIn(burst: seq<int>, lo: int, hi: int) {
    forall i :: 0 <= i < |burst| ==> lo <= burst[i] <= hi
  }

  lemma RoomForOneMore(log: seq<int>, burst: seq<int>, limit: nat, start: int, t: int)
    requires start % 60_000_000_000 == 0 && start <= t < start + WINDOW
    requires Used(log, start) == 0 && AllIn(burst, start, start + WINDOW - 1) && |burst| < limit
    ensures Record(log + burst, limit, t) == log + burst + [t]
  {
    StartIs(start, t);
    CountInBurst(log, burst, start, start + WINDOW - 1);
  }

  /** A burst of up to `limit` requests inside an unused aligned window is admitted whole. */
  lemma {:induction false} BurstAdmitted(times: seq<int>, burst: seq<int>, limit: nat, start: int)
    requires start % 60_000_000_000 == 0 && Used(Admissions(times, limit), start) == 0
    requires AllIn(burst, start, start + WINDOW - 1) && |burst| <= limit
    ensures Admissions(times + burst, limit) == Admissions(times, limit) + burst
    decreases |burst|
  {
    if burst == [] {
      assert times + burst == times;
    } else {
      var n := |burst| - 1;
      var log := Admissions(times, limit);
      calc {
        Admissions(times + burst, limit);
        { assert times + burst == (times + burst[..n]) + [burst[n]]; }
        Admissions((times + burst[..n]) + [burst[n]], limit);
        { AdmissionsPush(times + burst[..n], burst[n], limit); }
        Record(Admissions(times + burst[..n], limit), limit, burst[n]);
        { BurstAdmitted(times, burst[..n], limit, start); }
        Record(log + burst[..n], limit, burst[n]);
        { RoomForOneMore(log, burst[..n], limit, start, burst[n]); }
        log + burst[..n] + [burst[n]];
        { assert burst == burst[..n] + [burst[n]]; }
        log + burst;
      }
    }
  }

  lemma FirstBurstAdmitted(first: seq<int>, limit: nat, start: int)
    requires start % 60_000_000_000 == 0 && |first| <= limit && AllIn(first, start, start + WINDOW - 1)
    ensures Admissions(first, limit) == first
  {
    assert [] + first == first;
    BurstAdmitted([], first, limit, start);
  }

  lemma NextWindowUnused(first: seq<int>, start: int)
    requires start % 60_000_000_000 == 0 && AllIn(first, start, start + WINDOW - 1)
    ensures (start + WINDOW) % 60_000_000_000 == 0 && Used(first, start + WINDOW) == 0
  {
    CountInSkips(first, |first|, start + WINDOW, start + 2 * WINDOW - 1);
  }

  lemma TwoBurstsAdmitted(first: seq<int>, second: seq<int>, limit: nat, start: int)
    requires start % 60_000_000_000 == 0
    requires |first| <= limit && AllIn(first, start, start + WINDOW - 1)
    requires |second| <= limit && AllIn(second, start + WINDOW, start + 2 * WINDOW - 1)
    ensures Admissions(first + second, limit) == first + second
  {
    FirstBurstAdmitted(first, limit, start);
    NextWindowUnused(first, start);
    BurstAdmitted(first, second, limit, start + WINDOW);
  }

  lemma CountInTwoBursts(first: seq<int>, second: seq<int>, lo: int, hi: int)
    requires AllIn(first, lo, hi) && AllIn(second, lo, hi)
    ensures CountIn(first + second, lo, hi) == |first| + |second|
  {
    assert [] + first == first;
    CountInBurst([], first, lo, hi);
    CountInBurst(first, second, lo, hi);
  }

  /**
    The bound is reached: `limit` requests late in one window and `limit` early in the
    next, all within the length of a window, are every one admitted.
   */
  lemma TwiceTheLimitReached(first: seq<int>, second: seq<int>, limit: nat, start: int, a: int)
    requires start % 60_000_000_000 == 0 && start <= a < start + WINDOW
    requires |first| == limit && AllIn(first, a, start + WINDOW - 1)
    requires |second| == limit && AllIn(second, start + WINDOW, a + WINDOW - 1)
    ensures CountIn(Admissions(first + second, limit), a, a + WINDOW - 1) == 2 * limit
  {
    TwoBurstsAdmitted(first, second, limit, start);
    CountInTwoBursts(first, second, a, a + WINDOW - 1);
  }

  // ---- The advertised retry time ------------------------------------------------

  /** retry_after_secs, computed from a second clock reading. */
  function RetryAfter(resetUnix: int, later: int): int {
    var secs := resetUnix - Unix(later);
    if secs < 1 then 1 else secs
  }

  /** It is the least whole number of seconds that is positive and reaches the reset. */
  lemma RetryIsLeast(resetUnix: int, later: int, secs: int)
    ensures var retry := RetryAfter(resetUnix, later);
            && retry >= 1 && retry + Unix(later) >= resetUnix
            && (secs >= 1 && secs + Unix(later) >= resetUnix ==> retry <= secs)
  {}

  lemma RetrySpansWindow(now: int, later: int)
    requires now <= later
    ensures var end := WindowStart(now) + WINDOW;
            var retry := RetryAfter(Unix(end), later);
            && end <= later + retry * SECOND
            && (later < end ==> later + (retry - 1) * SECOND < end)
  {
    var minutes := now / 60_000_000_000 + 1;
    var end := WindowStart(now) + WINDOW;
    assert end == 60_000_000_000 * minutes;
    assert Unix(end) == 60 * minutes - UNIX_EPOCH;
    var secs := later / 1_000_000_000;
    assert 1_000_000_000 * secs <= later < 1_000_000_000 * secs + 1_000_000_000;
  }

  lemma FreshWindowAdmits(log: seq<int>, limit: int, now: int, t: int)
    requires limit > 0 && UpTo(log, now) && WindowStart(now) + WINDOW <= t
    ensures Decide(log, limit, t).allowed
  {
    StartAligned(now);
    NextWindow(WindowStart(now), t);
    CountInSkips(log, |log|, WindowStart(t), WindowStart(t) + WINDOW - 1);
  }

  /**
    After the advertised wait the key's next request is judged in a fresh window, so it is
    admitted; and unless the refusing window was already over at the second reading, one
    second less would still fall in it.
   */
  lemma RetryReachesFreshWindow(log: seq<int>, limit: int, now: int, later: int, t: int)
    requires limit > 0 && UpTo(log, now) && now <= later
    requires var v := Decide(log, limit, now);
             !v.allowed && later + RetryAfter(v.resetUnix, later) * SECOND <= t
    ensures Decide(log, limit, t).allowed
    ensures var retry := RetryAfter(Decide(log, limit, now).resetUnix, later);
            later < WindowStart(now) + WINDOW ==>
              later + (retry - 1) * SECOND < WindowStart(now) + WINDOW
  {
    RetrySpansWindow(now, later);
    FreshWindowAdmits(log, limit, now, t);
  }
}
