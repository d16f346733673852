/**
  Cross-tenant threat intelligence (internal/service/threat_intel/network.go): reports are
  accumulated per IP and per fingerprint, and weigh less as they age. The exponential decay
  2^(-age/halfLife) is abstracted to a function with the laws below; floats are reals.
 */
module ThreatIntel {
  import opened Prelude

  type Decay = int -> real

  const HALF_LIFE: int := 24 * HOUR

  ghost predicate Splits(decay: Decay, a: int, b: int) {
    decay(a + b) == decay(a) * decay(b)
  }

  ghost predicate Lawful(decay: Decay) {
    && (forall a, b :: 0 <= a && 0 <= b ==> Splits(decay, a, b))
    && (forall a :: 0 <= a ==> 0.0 < decay(a) <= 1.0)
    && decay(HALF_LIFE) == 0.5
  }

  datatype Report = Report(threatType: string, severity: int, at: int, source: string)

  datatype Record = Record(reports: seq<Report>, firstSeen: int, lastSeen: int,
                           threatTypes: set<string>, sources: set<string>)

  datatype Profile = Profile(seenCount: nat, threatTypes: set<string>, firstSeen: int, lastSeen: int, riskBoost: real)

  const NO_PROFILE := Profile(0, {}, 0, 0, 0.0)

  function ClampSeverity(s: int): (r: int)
    ensures 1 <= r <= 10 && (1 <= s <= 10 ==> r == s) && (s < 1 ==> r == 1) && (s > 10 ==> r == 10)
  {
    if s < 1 then 1 else if s > 10 then 10 else s
  }

  // ---- Scoring ------------------------------------------------------------------------

  /** The severities of the reports, each decayed by its age. */
  function Score(decay: Decay, reports: seq<Report>, now: int): real {
    if reports == [] then 0.0
    else
      var last := reports[|reports| - 1];
      Score(decay, reports[..|reports| - 1], now) + last.severity as real * decay(now - last.at)
  }

  function Multiplier(sources: int): real {
    var m := 1.0 + (sources - 1) as real * 0.25;
    if m < 1.0 then 1.0 else m
  }

  function Uncapped(decay: Decay, rec: Record, now: int): real {
    Weighed(Score(decay, rec.reports, now), |rec.sources|)
  }

  function Weighed(score: real, sources: int): real { Scaled(score, Multiplier(sources)) }

  function Scaled(score: real, multiplier: real): real { score * multiplier }

  function Cap(x: real): real { if x > 50.0 then 50.0 else x }

  /** What is published for a decayed score and a number of reporters. */
  function Published(score: real, sources: int): real { Capped(score, Multiplier(sources)) }

  function Capped(score: real, multiplier: real): real { Round2(Cap(score * multiplier)) }

  function Boost(decay: Decay, rec: Record, now: int): real {
    Published(Score(decay, rec.reports, now), |rec.sources|)
  }

  function ProfileOf(decay: Decay, rec: Record, now: int): Profile {
    Profile(|rec.reports|, rec.threatTypes, rec.firstSeen, rec.lastSeen, Boost(decay, rec, now))
  }

  // ---- Reporting -----------------------------------------------------------------------

  function Extend(rec: Record, r: Report): Record {
    Record(rec.reports + [r], rec.firstSeen, r.at, rec.threatTypes + {r.threatType}, rec.sources + {r.source})
  }

  function Fresh(now: int): Record { Record([], now, now, {}, {}) }

  function Reported(records: map<string, Record>, key: string, r: Report): map<string, Record> {
    if key == "" then records
    else records[key := Extend(if key in records then records[key] else Fresh(r.at), r)]
  }

  /** What a stored record always satisfies: its summary fields are those of its reports. */
  ghost predicate RecordOk(rec: Record, clock: int) {
    && rec.reports != []
    && (forall i :: 0 <= i < |rec.reports| ==> 1 <= rec.reports[i].severity <= 10 && rec.reports[i].at <= clock)
    && (forall i, j :: 0 <= i < j < |rec.reports| ==> rec.reports[i].at <= rec.reports[j].at)
    && rec.firstSeen == rec.reports[0].at && rec.lastSeen == rec.reports[|rec.reports| - 1].at
    && rec.threatTypes == TypesOf(rec.reports) && rec.sources == SourcesOf(rec.reports)
  }

  ghost function TypesOf(reports: seq<Report>): set<string> {
    set i | 0 <= i < |reports| :: reports[i].threatType
  }

  ghost function SourcesOf(reports: seq<Report>): set<string> {
    set i | 0 <= i < |reports| :: reports[i].source
  }

  lemma TypesPush(reports: seq<Report>, r: Report)
    ensures TypesOf(reports + [r]) == TypesOf(reports) + {r.threatType}
  {
    var all := reports + [r];
    assert all[|reports|] == r && forall i :: 0 <= i < |reports| ==> all[i] == reports[i];
  }

  lemma SourcesPush(reports: seq<Report>, r: Report)
    ensures SourcesOf(reports + [r]) == SourcesOf(reports) + {r.source}
  {
    var all := reports + [r];
    assert all[|reports|] == r && forall i :: 0 <= i < |reports| ==> all[i] == reports[i];
  }

  ghost predicate RecordsOk(records: map<string, Record>, clock: int) {
    forall key :: key in records ==> RecordOk(records[key], clock)
  }

  lemma ExtendOk(rec: Record, r: Report, clock: int)
    requires RecordOk(rec, clock) || rec == Fresh(r.at)
    requires clock <= r.at && 1 <= r.severity <= 10
    ensures RecordOk(Extend(rec, r), r.at)
  {
    TypesPush(rec.reports, r);
    SourcesPush(rec.reports, r);
  }

  datatype TopThreat = TopThreat(key: string, seenCount: nat, riskBoost: real, threatTypes: set<string>)

  function Entry(decay: Decay, key: string, rec: Record, now: int): TopThreat {
    var p := ProfileOf(decay, rec, now);
    TopThreat(key, p.seenCount, p.riskBoost, p.threatTypes)
  }

  class ThreatIntelNetwork {
    const decay: Decay
    var ipRecords: map<string, Record>
    var fpRecords: map<string, Record>
    ghost var clock: int

    ghost predicate Valid()
      reads this
    {
      RecordsOk(ipRecords, clock) && RecordsOk(fpRecords, clock)
    }

    constructor (decay: Decay)
      ensures Valid() && this.decay == decay && ipRecords == map[] && fpRecords == map[] && clock == 0
    {
      this.decay := decay;
      ipRecords, fpRecords, clock := map[], map[], 0;
    }

    method ReportThreat(ip: string, fingerprint: string, threatType: string, severity: int, source: string, now: int)
      requires Valid() && clock <= now
      modifies this
      ensures Valid() && clock == now
      ensures ipRecords == Reported(old(ipRecords), ip, Report(threatType, ClampSeverity(severity), now, source))
      ensures fpRecords
           == Reported(old(fpRecords), fingerprint, Report(threatType, ClampSeverity(severity), now, source))
    {
      var report := Report(threatType, ClampSeverity(severity), now, source);
      ipRecords := AddReport(ipRecords, ip, report, clock);
      fpRecords := AddReport(fpRecords, fingerprint, report, clock);
      clock := now;
    }

    method QueryIP(ip: string, now: int) returns (p: Profile)
      ensures p == if ip in ipRecords then ProfileOf(decay, ipRecords[ip], now) else Profile(0, {}, 0, 0, 0.0)
    {
      if ip !in ipRecords {
        return NO_PROFILE;
      }
      p := BuildProfile(decay, ipRecords[ip], now);
    }

    method QueryFingerprint(fp: string, now: int) returns (p: Profile)
      ensures p == if fp in fpRecords then ProfileOf(decay, fpRecords[fp], now) else Profile(0, {}, 0, 0, 0.0)
    {
      if fp !in fpRecords {
        return NO_PROFILE;
      }
      p := BuildProfile(decay, fpRecords[fp], now);
    }

    /**
      The most threatening IPs, worst first: as many as asked for, each key once, and none
      left out that threatens more than one listed.
     */
    method TopThreats(limit: int, now: int) returns (top: seq<TopThreat>)
      ensures |top| == if limit > 0 && |ipRecords| > limit then limit else |ipRecords|
      ensures ListsWorst(top, Board(decay, ipRecords, now))
    {
      var threats := AllThreats(decay, ipRecords, now);
      top := Worst(threats, limit, Board(decay, ipRecords, now));
    }
  }

  /** The entry of every stored record. */
  ghost function Board(decay: Decay, records: map<string, Record>, now: int): map<string, TopThreat> {
    map key | key in records :: Entry(decay, key, records[key], now)
  }

  /** Entries of the board, each once and worst first, and none left out is worse than one listed. */
  ghost predicate ListsWorst(top: seq<TopThreat>, board: map<string, TopThreat>) {
    && OnBoard(top, board) && WorstFirst(top) && DistinctKeys(top)
    && (forall key :: key in board && Unlisted(top, key) ==> AtLeast(top, board[key].riskBoost))
  }

  ghost predicate Unlisted(top: seq<TopThreat>, key: string) { forall t :: t in top ==> t.key != key }

  ghost predicate AtLeast(top: seq<TopThreat>, boost: real) { forall t :: t in top ==> t.riskBoost >= boost }

  ghost predicate OnBoard(top: seq<TopThreat>, board: map<string, TopThreat>) {
    forall t :: t in top ==> t.key in board && board[t.key] == t
  }

  ghost predicate AllListed(all: seq<TopThreat>, board: map<string, TopThreat>) {
    OnBoard(all, board) && forall key :: key in board ==> board[key] in all && board[key].key == key
  }

  lemma Dominates(sorted: seq<TopThreat>, n: nat, t: TopThreat)
    requires WorstFirst(sorted) && n <= |sorted| && t in sorted && Unlisted(sorted[..n], t.key)
    ensures AtLeast(sorted[..n], t.riskBoost)
  {
    var k :| 0 <= k < |sorted| && sorted[k] == t;
    assert t !in sorted[..n];
    assert n <= k;
  }

  lemma TopOfSorted(sorted: seq<TopThreat>, n: nat, board: map<string, TopThreat>)
    requires n <= |sorted| && WorstFirst(sorted) && DistinctKeys(sorted) && AllListed(sorted, board)
    ensures ListsWorst(sorted[..n], board)
  {
    forall key | key in board && Unlisted(sorted[..n], key) ensures AtLeast(sorted[..n], board[key].riskBoost) {
      Dominates(sorted, n, board[key]);
    }
  }

  method Worst(threats: seq<TopThreat>, limit: int, ghost board: map<string, TopThreat>) returns (top: seq<TopThreat>)
    requires DistinctKeys(threats) && AllListed(threats, board)
    ensures |top| == if limit > 0 && |threats| > limit then limit else |threats|
    ensures ListsWorst(top, board)
  {
    var sorted := SortByBoost(threats);
    top := sorted;
    if limit > 0 && |top| > limit {
      top := top[..limit];
    }
    TopOfSorted(sorted, |top|, board);
    assert sorted[..|top|] == top;
  }

  /** One entry for every key, in whatever order the map is walked. */
  method AllThreats(decay: Decay, records: map<string, Record>, now: int) returns (threats: seq<TopThreat>)
    ensures |threats| == |records| && DistinctKeys(threats) && AllListed(threats, Board(decay, records, now))
  {
    threats := [];
    var todo := records.Keys;
    while todo != {}
      invariant todo <= records.Keys && |threats| + |todo| == |records|
      invariant forall key :: key in records && key !in todo ==> Entry(decay, key, records[key], now) in threats
      invariant forall t :: t in threats ==>
                  t.key in records && t.key !in todo && t == Entry(decay, t.key, records[t.key], now)
      invariant DistinctKeys(threats)
      decreases |todo|
    {
      var key :| key in todo;
      var profile := BuildProfile(decay, records[key], now);
      threats := threats + [TopThreat(key, profile.seenCount, profile.riskBoost, profile.threatTypes)];
      todo := todo - {key};
    }
  }

  /** One of the two halves of ReportThreat: under a nonempty key, find or create the record and extend it. */
  method AddReport(records: map<string, Record>, key: string, r: Report, ghost clock: int)
    returns (records': map<string, Record>)
    requires RecordsOk(records, clock) && clock <= r.at && 1 <= r.severity <= 10
    ensures records' == Reported(records, key, r) && RecordsOk(records', r.at)
  {
    records' := records;
    if key != "" {
      var rec := if key in records then records[key] else Fresh(r.at);
      ExtendOk(rec, r, clock);
      records' := records[key := Record(rec.reports + [r], rec.firstSeen, r.at,
                                        rec.threatTypes + {r.threatType}, rec.sources + {r.source})];
    }
    assert forall k :: k in records ==> RecordOk(records[k], r.at);
  }

  method BuildProfile(decay: Decay, rec: Record, now: int) returns (p: Profile)
    ensures p == ProfileOf(decay, rec, now)
  {
    var total := 0.0;
    for i := 0 to |rec.reports|
      invariant total == Score(decay, rec.reports[..i], now)
    {
      assert rec.reports[..i + 1][..i] == rec.reports[..i];
      total := total + rec.reports[i].severity as real * decay(now - rec.reports[i].at);
    }
    assert rec.reports[..|rec.reports|] == rec.reports;
    var riskBoost := PublishedBoost(total, |rec.sources|);
    p := Profile(|rec.reports|, rec.threatTypes, rec.firstSeen, rec.lastSeen, riskBoost);
  }

  method PublishedBoost(total: real, sources: int) returns (boost: real)
    ensures boost == Published(total, sources)
  {
    var multiplier := 1.0 + (sources - 1) as real * 0.25;
    if multiplier < 1.0 { multiplier := 1.0; }
    assert multiplier == Multiplier(sources);
    boost := CappedBoost(total, multiplier);
  }

  method CappedBoost(total: real, multiplier: real) returns (boost: real)
    ensures boost == Capped(total, multiplier)
  {
    var riskBoost := total * multiplier;
    if riskBoost > 50.0 { riskBoost := 50.0; }
    boost := Round2(riskBoost);
  }

  ghost predicate DistinctKeys(s: seq<TopThreat>) {
    forall i, j :: 0 <= i < j < |s| ==> s[i].key != s[j].key
  }

  ghost predicate WorstFirst(s: seq<TopThreat>) {
    forall i, j :: 0 <= i < j < |s| ==> s[i].riskBoost >= s[j].riskBoost
  }

  method Insert(s: seq<TopThreat>, x: TopThreat) returns (r: seq<TopThreat>)
    requires WorstFirst(s) && DistinctKeys(s) && forall y :: y in s ==> y.key != x.key
    ensures WorstFirst(r) && DistinctKeys(r) && |r| == |s| + 1
    ensures forall y :: y in r <==> y in s || y == x
  {
    var k := 0;
    while k < |s| && s[k].riskBoost >= x.riskBoost
      invariant 0 <= k <= |s| && forall j :: 0 <= j < k ==> s[j].riskBoost >= x.riskBoost
    {
      k := k + 1;
    }
    r := s[..k] + [x] + s[k..];
    InsertedAt(s, x, k);
  }

  lemma InsertedAt(s: seq<TopThreat>, x: TopThreat, k: nat)
    requires k <= |s| && WorstFirst(s) && DistinctKeys(s) && forall y :: y in s ==> y.key != x.key
    requires forall j :: 0 <= j < k ==> s[j].riskBoost >= x.riskBoost
    requires k < |s| ==> s[k].riskBoost < x.riskBoost
    ensures WorstFirst(s[..k] + [x] + s[k..]) && DistinctKeys(s[..k] + [x] + s[k..])
    ensures forall y :: y in s[..k] + [x] + s[k..] <==> y in s || y == x
  {
    var r := s[..k] + [x] + s[k..];
    assert s == s[..k] + s[k..];
    forall i, j | 0 <= i < j < |r| ensures r[i].riskBoost >= r[j].riskBoost && r[i].key != r[j].key {
      InsertedPair(s, x, k, i, j);
    }
  }

  lemma InsertedPair(s: seq<TopThreat>, x: TopThreat, k: nat, i: nat, j: nat)
    requires k <= |s| && WorstFirst(s) && DistinctKeys(s) && forall y :: y in s ==> y.key != x.key
    requires forall j :: 0 <= j < k ==> s[j].riskBoost >= x.riskBoost
    requires k < |s| ==> s[k].riskBoost < x.riskBoost
    requires i < j <= |s|
    ensures var r := s[..k] + [x] + s[k..]; r[i].riskBoost >= r[j].riskBoost && r[i].key != r[j].key
  {
    var r := s[..k] + [x] + s[k..];
    assert i < k ==> r[i] == s[i];
    assert i > k ==> r[i] == s[i - 1];
    assert j < k ==> r[j] == s[j];
    assert j > k ==> r[j] == s[j - 1];
  }

  /** Stands for sort.Slice: the same threats, by falling boost. */
  method SortByBoost(s: seq<TopThreat>) returns (r: seq<TopThreat>)
    requires DistinctKeys(s)
    ensures WorstFirst(r) && DistinctKeys(r) && |r| == |s|
    ensures forall y :: y in r <==> y in s
  {
    r := [];
    for n := 0 to |s|
      invariant WorstFirst(r) && DistinctKeys(r) && |r| == n
      invariant forall y :: y in r <==> y in s[..n]
    {
      assert s[..n + 1] == s[..n] + [s[n]];
      r := Insert(r, s[n]);
    }
    assert s[..|s|] == s;
  }

  // ---- Decay ------------------------------------------------------------------------------

  lemma Idempotent(d: real)
    requires 0.0 < d && d == d * d
    ensures d == 1.0
  {
    assert d * (d - 1.0) == 0.0;
  }

  lemma DecayNow(decay: Decay, age: int)
    requires Lawful(decay) && age == 0
    ensures decay(age) == 1.0
  {
    var d := decay(age);
    assert decay(age + age) == d * d by { assert Splits(decay, age, age); }
    assert age + age == age;
    Idempotent(d);
  }

  lemma {:induction false} ScoreDecays(decay: Decay, reports: seq<Report>, now: int, delay: int)
    requires Lawful(decay) && 0 <= delay
    requires forall i :: 0 <= i < |reports| ==> reports[i].at <= now
    ensures Score(decay, reports, now + delay) == decay(delay) * Score(decay, reports, now)
  {
    if reports != [] {
      var n := |reports| - 1;
      ScoreDecays(decay, reports[..n], now, delay);
      assert Splits(decay, now - reports[n].at, delay);
      TermDecays(Score(decay, reports[..n], now), reports[n].severity as real, decay(now - reports[n].at),
                 decay(delay));
    }
  }

  lemma TermDecays(earlier: real, severity: real, old_: real, factor: real)
    ensures factor * earlier + severity * (old_ * factor) == factor * (earlier + severity * old_)
  {}

  /** Without new reports the uncapped score after a delay is the decay of that delay times the old one. */
  lemma UncappedDecays(decay: Decay, rec: Record, clock: int, now: int, delay: int)
    requires Lawful(decay) && RecordOk(rec, clock) && clock <= now && 0 <= delay
    ensures Uncapped(decay, rec, now + delay) == decay(delay) * Uncapped(decay, rec, now)
  {
    var score, score' := Score(decay, rec.reports, now), Score(decay, rec.reports, now + delay);
    assert score' == decay(delay) * score by {
      ScoreDecays(decay, rec.reports, now, delay);
    }
    ScaledDecays(decay(delay), score, score', Multiplier(|rec.sources|));
  }

  lemma ScaledDecays(factor: real, score: real, score': real, multiplier: real)
    requires score' == factor * score
    ensures Scaled(score', multiplier) == factor * Scaled(score, multiplier)
  {
    Regroup(factor, score, multiplier);
  }

  lemma Regroup(a: real, b: real, c: real)
    ensures (a * b) * c == a * (b * c)
  {}

  function Pow2(k: nat): real { if k == 0 then 1.0 else 2.0 * Pow2(k - 1) }

  lemma DoubleHalf(p: real, u: real, v: real)
    requires v == 0.5 * u
    ensures (2.0 * p) * v == p * u
  {}

  lemma OneHalfLife(decay: Decay, rec: Record, clock: int, now: int, p: real)
    requires Lawful(decay) && RecordOk(rec, clock) && clock <= now
    ensures (2.0 * p) * Uncapped(decay, rec, now + HALF_LIFE) == p * Uncapped(decay, rec, now)
  {
    UncappedDecays(decay, rec, clock, now, HALF_LIFE);
    DoubleHalf(p, Uncapped(decay, rec, now), Uncapped(decay, rec, now + HALF_LIFE));
  }

  /** After k half-lives the score is divided by 2^k. */
  lemma {:induction false} HalvesEveryHalfLife(decay: Decay, rec: Record, clock: int, now: int, k: nat)
    requires Lawful(decay) && RecordOk(rec, clock) && clock <= now
    ensures Pow2(k) * Uncapped(decay, rec, now + k * 86_400_000_000_000) == Uncapped(decay, rec, now)
  {
    if k > 0 {
      HalvesEveryHalfLife(decay, rec, clock, now, k - 1);
      OneHalfLife(decay, rec, clock, now + (k - 1) * HALF_LIFE, Pow2(k - 1));
      assert now + (k - 1) * HALF_LIFE + HALF_LIFE == now + k * HALF_LIFE;
    }
  }

  // ---- Bounds and monotonicity ----------------------------------------------------------------

  lemma {:induction false} ScoreNonNegative(decay: Decay, reports: seq<Report>, now: int)
    requires Lawful(decay)
    requires forall i :: 0 <= i < |reports| ==> reports[i].at <= now && 0 <= reports[i].severity
    ensures 0.0 <= Score(decay, reports, now)
  {
    if reports != [] {
      ScoreNonNegative(decay, reports[..|reports| - 1], now);
      Product(reports[|reports| - 1].severity as real, decay(now - reports[|reports| - 1].at));
    }
  }

  lemma Product(a: real, b: real)
    requires 0.0 <= a && 0.0 <= b
    ensures 0.0 <= a * b
  {}

  lemma ProductMonotone(a: real, b: real, c: real, d: real)
    requires 0.0 <= a <= c && 0.0 <= b <= d
    ensures a * b <= c * d
  {
    assert a * b <= c * b;
    assert c * b <= c * d;
  }

  lemma FloorMonotone(x: real, y: real)
    requires x <= y
    ensures x.Floor <= y.Floor
  {}

  lemma Round2Monotone(x: real, y: real)
    requires x <= y
    ensures Round2(x) <= Round2(y)
  {
    FloorMonotone(x * 100.0 + 0.5, y * 100.0 + 0.5);
  }

  lemma MultiplierMonotone(m: int, n: int)
    requires m <= n
    ensures 1.0 <= Multiplier(m) <= Multiplier(n)
  {}

  lemma PublishedMonotone(score: real, sources: int, score': real, sources': int)
    requires 0.0 <= score <= score' && sources <= sources'
    ensures Published(score, sources) <= Published(score', sources')
  {
    MultiplierMonotone(sources, sources');
    ProductMonotone(score, Multiplier(sources), score', Multiplier(sources'));
    Round2Monotone(Cap(score * Multiplier(sources)), Cap(score' * Multiplier(sources')));
  }

  lemma PublishedBounded(score: real, sources: int)
    requires 0.0 <= score
    ensures 0.0 <= Published(score, sources) <= 50.0
  {
    MultiplierMonotone(sources, sources);
    Product(score, Multiplier(sources));
    Round2Monotone(0.0, Cap(score * Multiplier(sources)));
    Round2Monotone(Cap(score * Multiplier(sources)), 50.0);
  }

  /** The published boost lies between 0 and 50. */
  lemma BoostBounded(decay: Decay, rec: Record, clock: int, now: int)
    requires Lawful(decay) && RecordOk(rec, clock) && clock <= now
    ensures 0.0 <= Boost(decay, rec, now) <= 50.0
  {
    ScoreNonNegative(decay, rec.reports, now);
    PublishedBounded(Score(decay, rec.reports, now), |rec.sources|);
  }

  lemma FactorShrinks(d: real, s: real)
    requires 0.0 < d <= 1.0 && 0.0 <= s
    ensures 0.0 <= d * s <= s
  {
    Product(d, s);
    ProductMonotone(d, s, 1.0, s);
  }

  lemma PublishedFades(factor: real, score: real, score': real, sources: int)
    requires 0.0 < factor <= 1.0 && 0.0 <= score && score' == factor * score
    ensures Published(score', sources) <= Published(score, sources)
  {
    FactorShrinks(factor, score);
    PublishedMonotone(score', sources, score, sources);
  }

  /** Left alone, a threat's boost never rises. */
  lemma BoostFades(decay: Decay, rec: Record, clock: int, now: int, delay: int)
    requires Lawful(decay) && RecordOk(rec, clock) && clock <= now && 0 <= delay
    ensures Boost(decay, rec, now + delay) <= Boost(decay, rec, now)
  {
    ScoreDecays(decay, rec.reports, now, delay);
    ScoreNonNegative(decay, rec.reports, now);
    PublishedFades(decay(delay), Score(decay, rec.reports, now), Score(decay, rec.reports, now + delay), |rec.sources|);
  }

  lemma ReportAddsSeverity(decay: Decay, reports: seq<Report>, r: Report)
    requires Lawful(decay)
    ensures Score(decay, reports + [r], r.at) == Score(decay, reports, r.at) + r.severity as real
  {
    DecayNow(decay, r.at - r.at);
    assert (reports + [r])[..|reports|] == reports;
  }

  /** A new report, from whomever and of whatever kind, never lowers the boost at that instant. */
  lemma ReportNeverLowers(decay: Decay, rec: Record, clock: int, r: Report)
    requires Lawful(decay) && RecordOk(rec, clock) && clock <= r.at && 1 <= r.severity <= 10
    ensures Boost(decay, rec, r.at) <= Boost(decay, Extend(rec, r), r.at)
  {
    ReportAddsSeverity(decay, rec.reports, r);
    ScoreNonNegative(decay, rec.reports, r.at);
    SubsetSize(rec.sources, rec.sources + {r.source});
    PublishedMonotone(Score(decay, rec.reports, r.at), |rec.sources|,
                      Score(decay, rec.reports + [r], r.at), |rec.sources + {r.source}|);
  }

  /** A stored record has a reporter, so the multiplier's lower clamp never fires. */
  lemma MultiplierUnclamped(rec: Record, clock: int)
    requires RecordOk(rec, clock)
    ensures Multiplier(|rec.sources|) == 1.0 + (|rec.sources| - 1) as real * 0.25
    ensures 1 <= |rec.sources| <= |rec.reports|
  {
    assert rec.reports[0].source in rec.sources;
    assert rec.sources != {};
    SourcesAtMost(rec.reports);
  }

  lemma {:induction false} SourcesAtMost(reports: seq<Report>)
    ensures |SourcesOf(reports)| <= |reports|
  {
    if reports != [] {
      var n := |reports| - 1;
      SourcesAtMost(reports[..n]);
      SourcesPush(reports[..n], reports[n]);
      assert reports[..n] + [reports[n]] == reports;
    }
  }

  // ---- What is published ------------------------------------------------------------------------

  lemma Round2Nearest(x: real)
    ensures -0.005 <= Round2(x) - x <= 0.005
    ensures (Round2(x) * 100.0).Floor as real == Round2(x) * 100.0
  {
    assert Round2(x) * 100.0 == (x * 100.0 + 0.5).Floor as real;
  }

  lemma CappedMeans(score: real)
    ensures var boost := Round2(Cap(score));
            && (score > 50.0 ==> boost == 50.0) && (score <= 50.0 ==> -0.005 <= boost - score <= 0.005)
            && (boost * 100.0).Floor as real == boost * 100.0
  {
    Round2Nearest(Cap(score));
    if score > 50.0 { assert (50.0 * 100.0 + 0.5).Floor == 5000; }
  }

  /** The boost is the uncapped score, or 50 if that is less, to the nearest hundredth. */
  lemma BoostMeans(decay: Decay, rec: Record, now: int)
    ensures var boost, score := Boost(decay, rec, now), Uncapped(decay, rec, now);
            && (score > 50.0 ==> boost == 50.0)
            && (score <= 50.0 ==> -0.005 <= boost - score <= 0.005)
            && (boost * 100.0).Floor as real == boost * 100.0
  {
    CappedMeans(Uncapped(decay, rec, now));
    UncappedIsCapped(Score(decay, rec.reports, now), Multiplier(|rec.sources|));
  }

  lemma UncappedIsCapped(score: real, multiplier: real)
    ensures Capped(score, multiplier) == Round2(Cap(Scaled(score, multiplier)))
  {}

  /** No reports score nothing, and the score of one more report at its own instant grows by its severity. */
  lemma ScoreMeans(decay: Decay, rec: Record, r: Report)
    requires Lawful(decay)
    ensures Score(decay, [], r.at) == 0.0
    ensures Score(decay, Extend(rec, r).reports, r.at) == Score(decay, rec.reports, r.at) + r.severity as real
  {
    ReportAddsSeverity(decay, rec.reports, r);
  }

  /** The uncapped score is the decayed one, a quarter more for every source beyond the first. */
  lemma SourcesWeigh(decay: Decay, rec: Record, clock: int, now: int)
    requires RecordOk(rec, clock)
    ensures Uncapped(decay, rec, now)
         == Score(decay, rec.reports, now) * (1.0 + (|rec.sources| - 1) as real * 0.25)
  {
    MultiplierUnclamped(rec, clock);
  }

  /** The profile of a stored record counts its reports and spans from the first to the last. */
  lemma ProfileMeans(decay: Decay, rec: Record, clock: int, now: int)
    requires RecordOk(rec, clock)
    ensures var p, n := ProfileOf(decay, rec, now), |rec.reports|;
            && p.seenCount == n && p.firstSeen == rec.reports[0].at && p.lastSeen == rec.reports[n - 1].at
            && p.threatTypes == (set i | 0 <= i < n :: rec.reports[i].threatType)
            && p.riskBoost == Boost(decay, rec, now)
  {}

  /** A listed threat shows the count, the boost and the types of its record's profile, under its key. */
  lemma EntryMeans(decay: Decay, key: string, rec: Record, now: int)
    ensures var e, p := Entry(decay, key, rec, now), ProfileOf(decay, rec, now);
            e.key == key && e.seenCount == p.seenCount && e.riskBoost == p.riskBoost && e.threatTypes == p.threatTypes
  {}

  /** A report is appended under its own key alone, and under none if the key is empty. */
  lemma ReportedMeans(records: map<string, Record>, key: string, r: Report, other: string)
    ensures key == "" ==> Reported(records, key, r) == records
    ensures key != "" ==>
              && key in Reported(records, key, r)
              && Reported(records, key, r)[key].reports == (if key in records then records[key].reports else []) + [r]
    ensures other != key ==>
              && (other in Reported(records, key, r) <==> other in records)
              && (other in records ==> Reported(records, key, r)[other] == records[other])
  {}
}
