/**
  SMS admission (internal/service/sms/protection.go). The protector keeps three maps of
  timestamp logs and prunes a log only when its key comes up again. It is proved to
  decide exactly as if every admission ever made were still on record.
 */
module SmsProtection {
  import opened Prelude
  import opened Timeline

  const MIN_GAP: int := 60 * SECOND

  datatype Kind = Phone | IP | Fingerprint {
    function Limit(): (n: nat)
      ensures n > 0
    {
      match this case Phone => 5 case IP => 10 case Fingerprint => 20
    }
  }

  datatype Request = Request(phone: string, ip: string, fingerprint: string) {
    function Key(kind: Kind): string {
      match kind case Phone => phone case IP => ip case Fingerprint => fingerprint
    }
  }

  datatype Reason =
    | InvalidNumber | DisposableNumber
    | TooSoon | HourlyLimit(kind: Kind)
    | Accepted

  datatype CheckResult = CheckResult(allowed: bool, reason: Reason, waitSeconds: int)

  datatype Admission = Admission(request: Request, at: int)

  // ---- Number format ------------------------------------------------------

  predicate IsDigit(c: char) { '0' <= c <= '9' }

  /** The pattern ^\+[1-9]\d{1,14}$ */
  predicate IsE164(s: string) {
    && 3 <= |s| <= 16
    && s[0] == '+' && '1' <= s[1] <= '9'
    && forall i :: 2 <= i < |s| ==> IsDigit(s[i])
  }

  const DISPOSABLE_PREFIXES: seq<string> := ["+1900", "+44700", "+44870", "+44871", "+33891", "+1555"]

  predicate IsDisposable(s: string) {
    exists i :: 0 <= i < |DISPOSABLE_PREFIXES| && DISPOSABLE_PREFIXES[i] <= s
  }

  // ---- The specification: decisions over the full history -------------------

  /** Every admission time recorded under a key, oldest first, never forgotten. */
  function Times(h: seq<Admission>, kind: Kind, key: string): seq<int> {
    if h == [] then []
    else
      var earlier := Times(h[..|h| - 1], kind, key);
      var last := h[|h| - 1];
      if last.request.Key(kind) == key then earlier + [last.at] else earlier
  }

  predicate SentWithinGap(log: seq<int>, now: int) {
    log != [] && now - log[|log| - 1] < MIN_GAP
  }

  /** The limit-th most recent admission is no more than an hour old. */
  predicate OverLimit(log: seq<int>, limit: nat, now: int)
    requires limit > 0
  {
    |log| >= limit && now - log[|log| - limit] <= HOUR
  }

  predicate LimitHit(h: seq<Admission>, request: Request, kind: Kind, now: int) {
    request.Key(kind) != "" && OverLimit(Times(h, kind, request.Key(kind)), kind.Limit(), now)
  }

  function Refuse(reason: Reason, remaining: int): CheckResult {
    CheckResult(false, reason, remaining / 1_000_000_000 + 1)
  }

  function GapRule(h: seq<Admission>, request: Request, now: int): Option<CheckResult> {
    var sent := Times(h, Phone, request.phone);
    if SentWithinGap(sent, now) then Some(Refuse(TooSoon, MIN_GAP - (now - sent[|sent| - 1]))) else None
  }

  function HourlyRule(h: seq<Admission>, request: Request, kind: Kind, now: int): Option<CheckResult> {
    if LimitHit(h, request, kind, now) then
      var log := Times(h, kind, request.Key(kind));
      Some(Refuse(HourlyLimit(kind), HOUR - (now - log[|log| - kind.Limit()])))
    else None
  }

  function FirstOf(a: Option<CheckResult>, b: Option<CheckResult>): Option<CheckResult> {
    if a.Some? then a else b
  }

  function RateRefusal(h: seq<Admission>, request: Request, now: int): Option<CheckResult> {
    FirstOf(GapRule(h, request, now),
      FirstOf(HourlyRule(h, request, Phone, now),
        FirstOf(HourlyRule(h, request, IP, now), HourlyRule(h, request, Fingerprint, now))))
  }

  function Decide(h: seq<Admission>, request: Request, now: int): CheckResult {
    if !IsE164(request.phone) then CheckResult(false, InvalidNumber, 0)
    else if IsDisposable(request.phone) then CheckResult(false, DisposableNumber, 0)
    else match RateRefusal(h, request, now)
      case Some(refusal) => refusal
      case None => CheckResult(true, Accepted, 0)
  }

  function Record(h: seq<Admission>, request: Request, now: int): seq<Admission> {
    if Decide(h, request, now).allowed then h + [Admission(request, now)] else h
  }

  /** Admissions are in clock order and none lies after `now`. */
  ghost predicate Chronicle(h: seq<Admission>, now: int) {
    && (forall i, j :: 0 <= i < j < |h| ==> h[i].at <= h[j].at)
    && (forall i :: 0 <= i < |h| ==> h[i].at <= now)
  }

  lemma {:induction false} TimesSorted(h: seq<Admission>, now: int, kind: Kind, key: string)
    requires Chronicle(h, now)
    ensures Sorted(Times(h, kind, key)) && UpTo(Times(h, kind, key), now)
  {
    if h != [] {
      TimesSorted(h[..|h| - 1], h[|h| - 1].at, kind, key);
    }
  }

  lemma TimesPush(h: seq<Admission>, a: Admission, kind: Kind, key: string)
    ensures Times(h + [a], kind, key)
         == if a.request.Key(kind) == key then Times(h, kind, key) + [a.at] else Times(h, kind, key)
  {
    assert (h + [a])[..|h|] == h;
  }

  lemma ChroniclePush(h: seq<Admission>, a: Admission)
    requires Chronicle(h, a.at)
    ensures Chronicle(h + [a], a.at)
  {}

  // ---- The implementation ---------------------------------------------------

  /** Each stored log agrees with the full one for every prune from `from` on. */
  ghost predicate Tracks(logs: map<string, seq<int>>, h: seq<Admission>, kind: Kind, from: int) {
    forall key :: key != "" ==> Agree(Get(logs, key), Times(h, kind, key), from)
  }

  lemma TracksLater(logs: map<string, seq<int>>, h: seq<Admission>, kind: Kind, from: int, from': int)
    requires Tracks(logs, h, kind, from) && from <= from'
    ensures Tracks(logs, h, kind, from')
  {}

  lemma TracksPruned(logs: map<string, seq<int>>, h: seq<Admission>, kind: Kind, key: string, c: int)
    requires Tracks(logs, h, kind, c) && key != ""
    ensures Tracks(logs[key := DropBefore(Get(logs, key), c)], h, kind, c)
    ensures DropBefore(Get(logs, key), c) == DropBefore(Times(h, kind, key), c)
  {
    var logs' := logs[key := DropBefore(Get(logs, key), c)];
    forall k | k != "" ensures Agree(Get(logs', k), Times(h, kind, k), c) {
      assert Agree(Get(logs, k), Times(h, kind, k), c);
      if k == key { AgreeAfterPrune(Get(logs, k), Times(h, kind, k), c, c); }
    }
  }

  lemma TracksPushed(logs: map<string, seq<int>>, h: seq<Admission>, kind: Kind, a: Admission, from: int)
    requires Tracks(logs, h, kind, from)
    ensures var key := a.request.Key(kind);
            Tracks(if key != "" then logs[key := Get(logs, key) + [a.at]] else logs, h + [a], kind, from)
  {
    var key := a.request.Key(kind);
    var logs' := if key != "" then logs[key := Get(logs, key) + [a.at]] else logs;
    forall k | k != "" ensures Agree(Get(logs', k), Times(h + [a], kind, k), from) {
      assert Agree(Get(logs, k), Times(h, kind, k), from);
      TimesPush(h, a, kind, k);
      if k == key { AgreeAfterPush(Get(logs, k), Times(h, kind, k), from, a.at); }
    }
  }

  /** What the code asks of a pruned log is what the rules ask of the full one. */
  lemma PrunedDecides(full: seq<int>, now: int, limit: nat)
    requires Sorted(full) && UpTo(full, now) && limit > 0
    ensures var kept := DropBefore(full, now - HOUR);
            && (SentWithinGap(kept, now) <==> SentWithinGap(full, now))
            && (kept != [] ==> kept[|kept| - 1] == full[|full| - 1])
            && (|kept| >= limit <==> OverLimit(full, limit, now))
            && (|kept| >= limit ==> kept[|kept| - limit] == full[|full| - limit])
  {
    DropSorted(full, now - HOUR);
  }

  /** Go's int(float64): truncation toward zero. */
  function WholeSeconds(ns: int): int {
    if ns >= 0 then ns / 1_000_000_000 else -(-ns / 1_000_000_000)
  }

  /** The check for a disposable prefix, entry by entry. */
  method HasDisposablePrefix(phoneNumber: string) returns (found: bool)
    ensures found <==> IsDisposable(phoneNumber)
  {
    for i := 0 to |DISPOSABLE_PREFIXES|
      invariant forall j :: 0 <= j < i ==> !(DISPOSABLE_PREFIXES[j] <= phoneNumber)
    {
      if DISPOSABLE_PREFIXES[i] <= phoneNumber {
        return true;
      }
    }
    return false;
  }

  /** One key's log, pruned for a look at the last hour, and what the look tells. */
  method Consult(logs: map<string, seq<int>>, kind: Kind, key: string, now: int, ghost h: seq<Admission>)
    returns (logs': map<string, seq<int>>, times: seq<int>)
    requires Chronicle(h, now) && key != "" && Tracks(logs, h, kind, now - HOUR)
    ensures Tracks(logs', h, kind, now - HOUR)
    ensures var full := Times(h, kind, key);
            && (SentWithinGap(times, now) <==> SentWithinGap(full, now))
            && (times != [] ==> full != [] && times[|times| - 1] == full[|full| - 1])
            && (|times| >= kind.Limit() <==> OverLimit(full, kind.Limit(), now))
            && (|times| >= kind.Limit() ==> times[|times| - kind.Limit()] == full[|full| - kind.Limit()])
  {
    TimesSorted(h, now, kind, key);
    PrunedDecides(Times(h, kind, key), now, kind.Limit());
    TracksPruned(logs, h, kind, key, now - HOUR);
    times := PruneOld(Get(logs, key), now, HOUR);
    logs' := logs[key := times];
  }

  /** All checks passed: record the admission under its key, unless the key is empty. */
  method Append(logs: map<string, seq<int>>, kind: Kind, key: string, now: int,
                ghost h: seq<Admission>, ghost a: Admission)
    returns (logs': map<string, seq<int>>)
    requires a.at == now && a.request.Key(kind) == key
    requires Tracks(logs, h, kind, now - HOUR)
    ensures Tracks(logs', h + [a], kind, now - HOUR)
  {
    TracksPushed(logs, h, kind, a, now - HOUR);
    logs' := if key != "" then logs[key := Get(logs, key) + [now]] else logs;
  }

  /** The clamp `wait < 1` is kept from the source; it never fires. */
  method HourlyWait(times: seq<int>, limit: nat, now: int) returns (wait: int)
    requires 0 < limit <= |times| && now - times[|times| - limit] <= HOUR
    ensures wait == (HOUR - (now - times[|times| - limit])) / 1_000_000_000 + 1
  {
    var oldest := times[|times| - limit];
    wait := WholeSeconds(HOUR - (now - oldest)) + 1;
    if wait < 1 { wait := 1; }
  }

  class SMSProtector {
    var phoneCounters: map<string, seq<int>>
    var ipCounters: map<string, seq<int>>
    var fpCounters: map<string, seq<int>>
    ghost var history: seq<Admission>
    ghost var clock: int

    ghost predicate Valid()
      reads this
    {
      && Chronicle(history, clock)
      && Tracks(phoneCounters, history, Phone, clock - HOUR)
      && Tracks(ipCounters, history, IP, clock - HOUR)
      && Tracks(fpCounters, history, Fingerprint, clock - HOUR)
    }

    constructor ()
      ensures Valid() && history == []
    {
      phoneCounters, ipCounters, fpCounters := map[], map[], map[];
      history, clock := [], 0;
    }

    method CheckSMSRequest(phoneNumber: string, ip: string, fingerprint: string, now: int)
      returns (r: CheckResult)
      requires Valid() && clock <= now
      modifies this
      ensures Valid() && clock == now
      ensures r == Decide(old(history), Request(phoneNumber, ip, fingerprint), now)
      ensures history == Record(old(history), Request(phoneNumber, ip, fingerprint), now)
      ensures history == if r.allowed then old(history) + [Admission(Request(phoneNumber, ip, fingerprint), now)]
                         else old(history)
    {
      AdvanceTo(now);
      if !IsE164(phoneNumber) {
        return CheckResult(false, InvalidNumber, 0);
      }
      var disposable := HasDisposablePrefix(phoneNumber);
      if disposable {
        return CheckResult(false, DisposableNumber, 0);
      }
      ghost var request := Request(phoneNumber, ip, fingerprint);
      var refusal := CheckPhone(phoneNumber, now, request);
      if refusal.None? {
        refusal := CheckIP(ip, now, request);
      }
      if refusal.None? {
        refusal := CheckFingerprint(fingerprint, now, request);
      }
      if refusal.Some? {
        return refusal.value;
      }
      Admit(phoneNumber, ip, fingerprint, now);
      return CheckResult(true, Accepted, 0);
    }

    ghost method AdvanceTo(now: int)
      requires Valid() && clock <= now
      modifies `clock
      ensures Valid() && clock == now
    {
      TracksLater(phoneCounters, history, Phone, clock - HOUR, now - HOUR);
      TracksLater(ipCounters, history, IP, clock - HOUR, now - HOUR);
      TracksLater(fpCounters, history, Fingerprint, clock - HOUR, now - HOUR);
      clock := now;
    }

    /** The two per-phone rules. */
    method CheckPhone(phoneNumber: string, now: int, ghost request: Request)
      returns (refusal: Option<CheckResult>)
      requires Valid() && clock == now && phoneNumber != "" && request.phone == phoneNumber
      modifies `phoneCounters
      ensures Valid()
      ensures refusal == FirstOf(GapRule(history, request, now), HourlyRule(history, request, Phone, now))
    {
      var times;
      phoneCounters, times := Consult(phoneCounters, Phone, phoneNumber, now, history);
      if |times| > 0 {
        var elapsed := now - times[|times| - 1];
        if elapsed < 60 * SECOND {
          return Some(CheckResult(false, TooSoon, WholeSeconds(60 * SECOND - elapsed) + 1));
        }
      }
      if |times| >= 5 {
        var wait := HourlyWait(times, 5, now);
        return Some(CheckResult(false, HourlyLimit(Phone), wait));
      }
      return None;
    }

    method CheckIP(ip: string, now: int, ghost request: Request) returns (refusal: Option<CheckResult>)
      requires Valid() && clock == now && request.ip == ip
      modifies `ipCounters
      ensures Valid() && refusal == HourlyRule(history, request, IP, now)
    {
      if ip != "" {
        var times;
        ipCounters, times := Consult(ipCounters, IP, ip, now, history);
        if |times| >= 10 {
          var wait := HourlyWait(times, 10, now);
          return Some(CheckResult(false, HourlyLimit(IP), wait));
        }
      }
      return None;
    }

    method CheckFingerprint(fingerprint: string, now: int, ghost request: Request)
      returns (refusal: Option<CheckResult>)
      requires Valid() && clock == now && request.fingerprint == fingerprint
      modifies `fpCounters
      ensures Valid() && refusal == HourlyRule(history, request, Fingerprint, now)
    {
      if fingerprint != "" {
        var times;
        fpCounters, times := Consult(fpCounters, Fingerprint, fingerprint, now, history);
        if |times| >= 20 {
          var wait := HourlyWait(times, 20, now);
          return Some(CheckResult(false, HourlyLimit(Fingerprint), wait));
        }
      }
      return None;
    }

    /** All checks passed: the admission goes into every log it has a key for. */
    method Admit(phoneNumber: string, ip: string, fingerprint: string, now: int)
      requires Valid() && clock == now
      modifies this
      ensures Valid() && clock == now
      ensures history == old(history) + [Admission(Request(phoneNumber, ip, fingerprint), now)]
    {
      ghost var a := Admission(Request(phoneNumber, ip, fingerprint), now);
      ChroniclePush(history, a);
      phoneCounters := Append(phoneCounters, Phone, phoneNumber, now, history, a);
      ipCounters := Append(ipCounters, IP, ip, now, history, a);
      fpCounters := Append(fpCounters, Fingerprint, fingerprint, now, history, a);
      history := history + [a];
    }
  }

  // ---- What the rules guarantee over whole runs -----------------------------

  datatype Timed = Timed(request: Request, now: int)

  ghost predicate ClockOrder(run: seq<Timed>) {
    forall i, j :: 0 <= i < j < |run| ==> run[i].now <= run[j].now
  }

  function Run(run: seq<Timed>): seq<Admission> {
    if run == [] then []
    else Record(Run(run[..|run| - 1]), run[|run| - 1].request, run[|run| - 1].now)
  }

  /** A run records what it admits, and nothing else. */
  lemma RunRecords(run: seq<Timed>, request: Request, now: int)
    ensures var h, after := Run(run), Run(run + [Timed(request, now)]);
            if Decide(h, request, now).allowed then after == h + [Admission(request, now)] else after == h
  {
    assert (run + [Timed(request, now)])[..|run|] == run;
  }

  ghost predicate Capped(h: seq<Admission>) {
    && (forall kind: Kind, key :: key != "" ==> Spaced(Times(h, kind, key), kind.Limit(), HOUR))
    && (forall key :: Spaced(Times(h, Phone, key), 1, MIN_GAP - 1))
  }

  lemma PushKeepsSpacing(log: seq<int>, x: int, limit: nat, width: int)
    requires limit > 0 && Spaced(log, limit, width)
    requires |log| >= limit ==> x - log[|log| - limit] > width
    ensures Spaced(log + [x], limit, width)
  {}

  lemma PushKeepsHourly(h: seq<Admission>, a: Admission, kind: Kind, key: string)
    requires key != "" && Spaced(Times(h, kind, key), kind.Limit(), HOUR)
    requires !LimitHit(h, a.request, kind, a.at)
    ensures Spaced(Times(h + [a], kind, key), kind.Limit(), HOUR)
  {
    TimesPush(h, a, kind, key);
    if a.request.Key(kind) == key {
      PushKeepsSpacing(Times(h, kind, key), a.at, kind.Limit(), HOUR);
    }
  }

  lemma PushKeepsGap(h: seq<Admission>, a: Admission, key: string)
    requires Spaced(Times(h, Phone, key), 1, MIN_GAP - 1)
    requires !SentWithinGap(Times(h, Phone, a.request.phone), a.at)
    ensures Spaced(Times(h + [a], Phone, key), 1, MIN_GAP - 1)
  {
    TimesPush(h, a, Phone, key);
    if a.request.phone == key {
      PushKeepsSpacing(Times(h, Phone, key), a.at, 1, MIN_GAP - 1);
    }
  }

  lemma AllowedMeans(h: seq<Admission>, request: Request, now: int)
    requires Decide(h, request, now).allowed
    ensures !SentWithinGap(Times(h, Phone, request.phone), now)
    ensures forall kind :: !LimitHit(h, request, kind, now)
  {
    forall kind: Kind ensures !LimitHit(h, request, kind, now) {
      match kind case Phone => case IP => case Fingerprint =>
    }
  }

  lemma RecordKeepsCaps(h: seq<Admission>, request: Request, now: int)
    requires Chronicle(h, now) && Capped(h)
    ensures Chronicle(Record(h, request, now), now) && Capped(Record(h, request, now))
  {
    if Decide(h, request, now).allowed {
      var a := Admission(request, now);
      AllowedMeans(h, request, now);
      ChroniclePush(h, a);
      forall kind: Kind, key | key != "" ensures Spaced(Times(h + [a], kind, key), kind.Limit(), HOUR) {
        PushKeepsHourly(h, a, kind, key);
      }
      forall key ensures Spaced(Times(h + [a], Phone, key), 1, MIN_GAP - 1) {
        PushKeepsGap(h, a, key);
      }
    }
  }

  lemma {:induction false} RunKeepsCaps(run: seq<Timed>, now: int)
    requires ClockOrder(run) && forall i :: 0 <= i < |run| ==> run[i].now <= now
    ensures Chronicle(Run(run), now) && Capped(Run(run))
  {
    if run != [] {
      var last := run[|run| - 1];
      RunKeepsCaps(run[..|run| - 1], last.now);
      RecordKeepsCaps(Run(run[..|run| - 1]), last.request, last.now);
    }
  }

  // ---- What the rules mean for the admissions themselves -------------------------------

  /** The admissions of one phone, IP or fingerprint in the closed interval [lo, hi]. */
  function PhoneHits(h: seq<Admission>, phone: string, lo: int, hi: int): set<int> {
    set i | 0 <= i < |h| && h[i].request.phone == phone && lo <= h[i].at <= hi
  }

  function IpHits(h: seq<Admission>, ip: string, lo: int, hi: int): set<int> {
    set i | 0 <= i < |h| && h[i].request.ip == ip && lo <= h[i].at <= hi
  }

  function FingerprintHits(h: seq<Admission>, fingerprint: string, lo: int, hi: int): set<int> {
    set i | 0 <= i < |h| && h[i].request.fingerprint == fingerprint && lo <= h[i].at <= hi
  }

  function Hits(h: seq<Admission>, kind: Kind, key: string, lo: int, hi: int): set<int> {
    set i | 0 <= i < |h| && h[i].request.Key(kind) == key && lo <= h[i].at <= hi
  }

  lemma HitsByKind(h: seq<Admission>, key: string, lo: int, hi: int)
    ensures Hits(h, Phone, key, lo, hi) == PhoneHits(h, key, lo, hi)
    ensures Hits(h, IP, key, lo, hi) == IpHits(h, key, lo, hi)
    ensures Hits(h, Fingerprint, key, lo, hi) == FingerprintHits(h, key, lo, hi)
  {}

  lemma HitsOfPrefix(h: seq<Admission>, kind: Kind, key: string, lo: int, hi: int, i: int)
    requires h != []
    ensures var n := |h| - 1;
            && n !in Hits(h[..n], kind, key, lo, hi)
            && (i in Hits(h, kind, key, lo, hi) <==>
                  i in Hits(h[..n], kind, key, lo, hi)
                  || (i == n && h[n].request.Key(kind) == key && lo <= h[n].at <= hi))
  {
    var n := |h| - 1;
    if 0 <= i < n { assert h[..n][i] == h[i]; }
  }

  lemma HitsLast(h: seq<Admission>, kind: Kind, key: string, lo: int, hi: int)
    requires h != []
    ensures var n := |h| - 1;
            |Hits(h, kind, key, lo, hi)| == |Hits(h[..n], kind, key, lo, hi)|
                                            + (if h[n].request.Key(kind) == key && lo <= h[n].at <= hi then 1 else 0)
  {
    var n := |h| - 1;
    var all, earlier := Hits(h, kind, key, lo, hi), Hits(h[..n], kind, key, lo, hi);
    var hit := h[n].request.Key(kind) == key && lo <= h[n].at <= hi;
    forall i ensures n !in earlier && (i in all <==> i in earlier || (i == n && hit)) {
      HitsOfPrefix(h, kind, key, lo, hi, i);
    }
    OneMore(all, earlier, n, hit);
  }

  lemma {:induction false} TimesCountHits(h: seq<Admission>, kind: Kind, key: string, lo: int, hi: int)
    ensures CountIn(Times(h, kind, key), lo, hi) == |Hits(h, kind, key, lo, hi)|
  {
    if h == [] {
      assert Hits(h, kind, key, lo, hi) == {};
    } else {
      var n := |h| - 1;
      TimesCountHits(h[..n], kind, key, lo, hi);
      HitsLast(h, kind, key, lo, hi);
      CountInPush(Times(h[..n], kind, key), h[n].at, lo, hi);
    }
  }

  lemma RunHits(run: seq<Timed>, kind: Kind, key: string, a: int)
    requires ClockOrder(run) && key != ""
    ensures |Hits(Run(run), kind, key, a, a + HOUR)| <= kind.Limit()
  {
    var now := if run == [] then 0 else run[|run| - 1].now;
    RunKeepsCaps(run, now);
    TimesSorted(Run(run), now, kind, key);
    SpacedCap(Times(Run(run), kind, key), kind.Limit(), HOUR, a);
    TimesCountHits(Run(run), kind, key, a, a + HOUR);
  }

  /** Every closed hour holds at most 5, 10 and 20 admissions per phone, IP and fingerprint. */
  lemma HourlyCaps(run: seq<Timed>, key: string, a: int)
    requires ClockOrder(run) && key != ""
    ensures |PhoneHits(Run(run), key, a, a + 3_600_000_000_000)| <= 5
    ensures |IpHits(Run(run), key, a, a + 3_600_000_000_000)| <= 10
    ensures |FingerprintHits(Run(run), key, a, a + 3_600_000_000_000)| <= 20
  {
    HitsByKind(Run(run), key, a, a + HOUR);
    RunHits(run, Phone, key, a);
    RunHits(run, IP, key, a);
    RunHits(run, Fingerprint, key, a);
  }

  /** In a sorted log the limit-th reading from the end tells whether an interval up to its end holds that many. */
  lemma CountFromEnd(log: seq<int>, limit: nat, lo: int, hi: int)
    requires Sorted(log) && UpTo(log, hi) && limit > 0
    ensures CountIn(log, lo, hi) >= limit <==> |log| >= limit && log[|log| - limit] >= lo
  {
    if |log| >= limit && log[|log| - limit] >= lo {
      CountInSuffix(log, |log| - limit, lo, hi);
    } else if |log| >= limit {
      CountInSkips(log, |log| - limit + 1, lo, hi);
    } else {
      CountInSkips(log, 0, lo, hi);
    }
  }

  lemma {:induction false} CountInSuffix(log: seq<int>, k: nat, lo: int, hi: int)
    requires k <= |log| && forall i :: k <= i < |log| ==> lo <= log[i] <= hi
    ensures CountIn(log, lo, hi) >= |log| - k
  {
    if k < |log| {
      CountInSuffix(log[..|log| - 1], k, lo, hi);
    }
  }

  lemma LimitMeans(h: seq<Admission>, request: Request, kind: Kind, now: int)
    requires Chronicle(h, now)
    ensures LimitHit(h, request, kind, now) <==>
              request.Key(kind) != "" && |Hits(h, kind, request.Key(kind), now - HOUR, now)| >= kind.Limit()
  {
    TimesSorted(h, now, kind, request.Key(kind));
    CountFromEnd(Times(h, kind, request.Key(kind)), kind.Limit(), now - HOUR, now);
    TimesCountHits(h, kind, request.Key(kind), now - HOUR, now);
  }

  lemma GapMeans(h: seq<Admission>, phone: string, now: int)
    requires Chronicle(h, now)
    ensures SentWithinGap(Times(h, Phone, phone), now) <==> PhoneHits(h, phone, now - MIN_GAP + 1, now) != {}
  {
    TimesSorted(h, now, Phone, phone);
    CountFromEnd(Times(h, Phone, phone), 1, now - MIN_GAP + 1, now);
    TimesCountHits(h, Phone, phone, now - MIN_GAP + 1, now);
    HitsByKind(h, phone, now - MIN_GAP + 1, now);
  }

  /**
    The decision in full, and the order of its reasons: a well-formed, non-disposable request is
    admitted exactly if its phone had no admission in the last 60 seconds, and the hour up to now
    holds fewer than 5, 10 and 20 of its phone, its IP and its fingerprint, empty ones exempt.
   */
  lemma DecisionMeans(h: seq<Admission>, request: Request, now: int)
    requires Chronicle(h, now)
    ensures var hour, r := now - 3_600_000_000_000, Decide(h, request, now);
            && r.reason ==
               (if !IsE164(request.phone) then InvalidNumber
                else if IsDisposable(request.phone) then DisposableNumber
                else if PhoneHits(h, request.phone, now - 60_000_000_000 + 1, now) != {} then TooSoon
                else if |PhoneHits(h, request.phone, hour, now)| >= 5 then HourlyLimit(Phone)
                else if request.ip != "" && |IpHits(h, request.ip, hour, now)| >= 10 then HourlyLimit(IP)
                else if request.fingerprint != "" && |FingerprintHits(h, request.fingerprint, hour, now)| >= 20
                then HourlyLimit(Fingerprint)
                else Accepted)
            && (r.allowed <==> r.reason == Accepted) && (!ByRateRule(r) ==> r.waitSeconds == 0)
  {
    GapMeans(h, request.phone, now);
    LimitMeans(h, request, Phone, now);
    LimitMeans(h, request, IP, now);
    LimitMeans(h, request, Fingerprint, now);
    HitsByKind(h, request.phone, now - HOUR, now);
    HitsByKind(h, request.ip, now - HOUR, now);
    HitsByKind(h, request.fingerprint, now - HOUR, now);
  }

  lemma DigitIn(c: char)
    ensures IsDigit(c) <==> c in "0123456789"
    ensures '1' <= c <= '9' <==> c in "123456789"
  {
    if c == '0' || c == '1' || c == '2' || c == '3' || c == '4' {
    } else if c == '5' || c == '6' || c == '7' || c == '8' || c == '9' {
    }
  }

  /** A well-formed number is a plus, a digit that is not zero, and 1 to 14 further digits. */
  ghost predicate PlusAndDigits(s: string, first: char, rest: string) {
    && s == ['+', first] + rest && first in "123456789" && 1 <= |rest| <= 14
    && forall i :: 0 <= i < |rest| ==> rest[i] in "0123456789"
  }

  lemma NumberFormat(s: string)
    ensures IsE164(s) <==> exists first, rest :: PlusAndDigits(s, first, rest)
  {
    if IsE164(s) {
      DigitIn(s[1]);
      forall i | 0 <= i < |s[2..]| ensures s[2..][i] in "0123456789" { DigitIn(s[i + 2]); }
      assert PlusAndDigits(s, s[1], s[2..]);
    }
    if first, rest :| PlusAndDigits(s, first, rest) {
      DigitIn(first);
      forall i | 2 <= i < |s| ensures IsDigit(s[i]) { DigitIn(rest[i - 2]); }
    }
  }

  lemma DisposablePrefixes(s: string)
    ensures IsDisposable(s) <==> "+1900" <= s || "+44700" <= s || "+44870" <= s || "+44871" <= s
                                 || "+33891" <= s || "+1555" <= s
  {
    var d := DISPOSABLE_PREFIXES;
    assert d[0] == "+1900" && d[1] == "+44700" && d[2] == "+44870";
    assert d[3] == "+44871" && d[4] == "+33891" && d[5] == "+1555";
  }

  /** Any two admissions to one phone are at least a minute apart. */
  lemma PhoneGap(run: seq<Timed>, key: string, i: nat, j: nat)
    requires ClockOrder(run)
    requires i < j < |Times(Run(run), Phone, key)|
    ensures Times(Run(run), Phone, key)[j] - Times(Run(run), Phone, key)[i] >= 60_000_000_000
  {
    var now := if run == [] then 0 else run[|run| - 1].now;
    RunKeepsCaps(run, now);
    TimesSorted(Run(run), now, Phone, key);
    var log := Times(Run(run), Phone, key);
    assert log[j] - log[j - 1] > MIN_GAP - 1;
  }

  // ---- The advertised wait --------------------------------------------------

  predicate ByRateRule(r: CheckResult) { r.reason.TooSoon? || r.reason.HourlyLimit? }

  /** The key whose log the refusing rule looked at. */
  function RefusingKind(reason: Reason): Kind
    requires reason.TooSoon? || reason.HourlyLimit?
  {
    if reason.TooSoon? then Phone else reason.kind
  }

  /** Every refusal by a rate rule advertises at least a second, so no clamp can fire. */
  lemma WaitPositive(h: seq<Admission>, request: Request, now: int)
    requires Chronicle(h, now)
    requires ByRateRule(Decide(h, request, now))
    ensures 1 <= Decide(h, request, now).waitSeconds <= 3601
    ensures Decide(h, request, now).reason.TooSoon? ==> Decide(h, request, now).waitSeconds <= 61
  {
    forall kind: Kind ensures UpTo(Times(h, kind, request.Key(kind)), now) {
      TimesSorted(h, now, kind, request.Key(kind));
    }
  }

  /** A rate refusal comes from the rule it names. */
  lemma ReasonNamesRule(h: seq<Admission>, request: Request, now: int)
    requires ByRateRule(Decide(h, request, now))
    ensures var r := Decide(h, request, now);
            && (r.reason.TooSoon? ==> GapRule(h, request, now) == Some(r))
            && (r.reason.HourlyLimit? ==> HourlyRule(h, request, r.reason.kind, now) == Some(r))
  {}

  lemma GapSuffices(h: seq<Admission>, request: Request, now: int, later: seq<Admission>)
    requires GapRule(h, request, now).Some?
    requires Times(later, Phone, request.phone) == Times(h, Phone, request.phone)
    ensures GapRule(later, request, now + GapRule(h, request, now).value.waitSeconds * SECOND).None?
  {}

  lemma HourlySuffices(h: seq<Admission>, request: Request, kind: Kind, now: int, later: seq<Admission>)
    requires HourlyRule(h, request, kind, now).Some?
    requires Times(later, kind, request.Key(kind)) == Times(h, kind, request.Key(kind))
    ensures HourlyRule(later, request, kind,
              now + HourlyRule(h, request, kind, now).value.waitSeconds * SECOND).None?
  {}

  /**
    Sufficient: whatever else was admitted meanwhile, if the refusing rule's own log has
    not grown, that rule no longer refuses once the advertised wait is over.
   */
  lemma WaitSuffices(h: seq<Admission>, request: Request, now: int, later: seq<Admission>)
    requires ByRateRule(Decide(h, request, now))
    requires var kind := RefusingKind(Decide(h, request, now).reason);
             Times(later, kind, request.Key(kind)) == Times(h, kind, request.Key(kind))
    ensures var r := Decide(h, request, now);
            Decide(later, request, now + r.waitSeconds * SECOND).reason != r.reason
  {
    var r := Decide(h, request, now);
    var after := now + r.waitSeconds * SECOND;
    assert r.reason.TooSoon? ==> GapRule(later, request, after).None? by {
      if r.reason.TooSoon? {
        ReasonNamesRule(h, request, now);
        GapSuffices(h, request, now, later);
      }
    }
    assert r.reason.HourlyLimit? ==> HourlyRule(later, request, r.reason.kind, after).None? by {
      if r.reason.HourlyLimit? {
        ReasonNamesRule(h, request, now);
        HourlySuffices(h, request, r.reason.kind, now, later);
      }
    }
    DifferentRule(later, request, after, r.reason);
  }

  lemma DifferentRule(h: seq<Admission>, request: Request, now: int, reason: Reason)
    requires reason.TooSoon? || reason.HourlyLimit?
    requires reason.TooSoon? ==> GapRule(h, request, now).None?
    requires reason.HourlyLimit? ==> HourlyRule(h, request, reason.kind, now).None?
    ensures Decide(h, request, now).reason != reason
  {
    if Decide(h, request, now).reason == reason {
      ReasonNamesRule(h, request, now);
    }
  }

  /** On an unchanged history a rule that does not refuse now will not refuse later. */
  lemma RulesFade(h: seq<Admission>, request: Request, now: int, later: int)
    requires now <= later
    ensures SentWithinGap(Times(h, Phone, request.phone), later) ==> SentWithinGap(Times(h, Phone, request.phone), now)
    ensures forall kind :: LimitHit(h, request, kind, later) ==> LimitHit(h, request, kind, now)
  {}

  lemma HourlyTight(h: seq<Admission>, request: Request, kind: Kind, now: int)
    requires LimitHit(h, request, kind, now)
    ensures var wait := HourlyRule(h, request, kind, now).value.waitSeconds;
            LimitHit(h, request, kind, now + (wait - 1) * SECOND)
  {}

  lemma SameReason(h: seq<Admission>, request: Request, now: int, later: int)
    requires now <= later
    requires var r := Decide(h, request, now);
             r.reason.HourlyLimit? && LimitHit(h, request, r.reason.kind, later)
    ensures Decide(h, request, later).reason == Decide(h, request, now).reason
  {
    RulesFade(h, request, now, later);
  }

  lemma GapArithmetic(last: int, now: int, wait: int)
    requires now - last < MIN_GAP && wait == (MIN_GAP - (now - last)) / 1_000_000_000 + 1
    ensures now + (wait - 1) * SECOND - last < MIN_GAP <==> (now - last) % 1_000_000_000 != 0
  {}

  /** For a request that got as far as the gap rule, that rule alone decides on TooSoon. */
  lemma TooSoonMeans(h: seq<Admission>, request: Request, now: int, t: int)
    requires Decide(h, request, now).reason == TooSoon
    ensures SentWithinGap(Times(h, Phone, request.phone), now)
    ensures Decide(h, request, t).reason == TooSoon <==> SentWithinGap(Times(h, Phone, request.phone), t)
  {}

  lemma GapTight(h: seq<Admission>, request: Request, now: int)
    requires Decide(h, request, now).reason == TooSoon
    ensures var early := now + (Decide(h, request, now).waitSeconds - 1) * SECOND;
            var log := Times(h, Phone, request.phone);
            log != [] && (Decide(h, request, early).reason == TooSoon
                          <==> (now - log[|log| - 1]) % 1_000_000_000 != 0)
  {
    var log := Times(h, Phone, request.phone);
    var early := now + (Decide(h, request, now).waitSeconds - 1) * SECOND;
    TooSoonMeans(h, request, now, early);
    assert Decide(h, request, now).waitSeconds == (MIN_GAP - (now - log[|log| - 1])) / 1_000_000_000 + 1 by {
      ReasonNamesRule(h, request, now);
    }
    GapArithmetic(log[|log| - 1], now, Decide(h, request, now).waitSeconds);
  }

  lemma HourlyWaitTight(h: seq<Admission>, request: Request, now: int)
    requires Chronicle(h, now) && Decide(h, request, now).reason.HourlyLimit?
    ensures var r := Decide(h, request, now);
            Decide(h, request, now + (r.waitSeconds - 1) * SECOND).reason == r.reason
  {
    var r := Decide(h, request, now);
    WaitPositive(h, request, now);
    ReasonNamesRule(h, request, now);
    HourlyTight(h, request, r.reason.kind, now);
    SameReason(h, request, now, now + (r.waitSeconds - 1) * SECOND);
  }

  /**
    Tight: one second sooner, on the same history, the hourly rules give the same refusal.
    The minimum-gap rule does so except when the elapsed time is a whole number of
    seconds: then its advertised wait is one second longer than needed.
   */
  lemma WaitTight(h: seq<Admission>, request: Request, now: int)
    requires Chronicle(h, now)
    requires ByRateRule(Decide(h, request, now))
    ensures var r := Decide(h, request, now);
            var early := Decide(h, request, now + (r.waitSeconds - 1) * SECOND);
            && (r.reason.HourlyLimit? ==> early.reason == r.reason)
            && (r.reason.TooSoon? ==>
                 var log := Times(h, Phone, request.phone);
                 log != [] && (early.reason == TooSoon <==> (now - log[|log| - 1]) % 1_000_000_000 != 0))
  {
    if Decide(h, request, now).reason.HourlyLimit? {
      HourlyWaitTight(h, request, now);
    } else {
      GapTight(h, request, now);
    }
  }
}
