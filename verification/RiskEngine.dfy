/**
  Risk scoring (internal/service/risk/engine.go, proxy_detector.go): request rates from
  hour-pruned logs, and the sum of six layers of points. Parsing addresses, searching user
  agents for tokens, and hashing fingerprints are left abstract.
 */
module RiskEngine {
  import opened Prelude
  import opened Timeline
  import opened Scoring
  import opened Addresses
  import opened Policy

  // ---- Rates: what is counted ------------------------------------------------------------

  datatype Evaluation = Evaluation(ip: string, fingerprint: string, at: int)

  /** Times of every evaluation of an address so far. */
  function IpTimes(history: seq<Evaluation>, ip: string): seq<int> {
    if history == [] then []
    else
      var last, earlier := history[|history| - 1], IpTimes(history[..|history| - 1], ip);
      if last.ip == ip then earlier + [last.at] else earlier
  }

  /** Times of every evaluation whose fingerprint hashes to a key. */
  function FpTimes(hash: string -> string, history: seq<Evaluation>, key: string): seq<int> {
    if history == [] then []
    else
      var last, earlier := history[|history| - 1], FpTimes(hash, history[..|history| - 1], key);
      if last.fingerprint != "" && hash(last.fingerprint) == key then earlier + [last.at] else earlier
  }

  function LastMinute(times: seq<int>, now: int): nat { CountIn(times, now - MINUTE, now) }

  function IpRate(n: nat): Scored {
    if n > 30 then Scored(30, ["ip_rate_extreme"])
    else if n > 15 then Scored(20, ["ip_rate_high"])
    else if n > 5 then Scored(8, ["ip_rate_elevated"])
    else NOTHING
  }

  function FpRate(n: nat): Scored {
    if n > 20 then Scored(25, ["fp_rate_extreme"])
    else if n > 10 then Scored(15, ["fp_rate_high"])
    else if n > 3 then Scored(5, ["fp_rate_elevated"])
    else NOTHING
  }

  function IpRateIn(history: seq<Evaluation>, ip: string, now: int): Scored {
    if ip == "" then NOTHING else IpRate(LastMinute(IpTimes(history, ip), now))
  }

  function FpRateIn(hash: string -> string, history: seq<Evaluation>, fp: string, now: int): Scored {
    if fp == "" then Scored(5, ["missing_fingerprint"])
    else FpRate(LastMinute(FpTimes(hash, history, hash(fp)), now))
  }

  /** The rate layer, from the complete record of evaluations up to and including this one. */
  function RateScore(hash: string -> string, history: seq<Evaluation>, ip: string, fp: string, now: int): Scored {
    Plus(IpRateIn(history, ip, now), FpRateIn(hash, history, fp, now))
  }

  lemma TimesPush(hash: string -> string, history: seq<Evaluation>, e: Evaluation, ip: string, key: string)
    ensures IpTimes(history + [e], ip) == if e.ip == ip then IpTimes(history, ip) + [e.at] else IpTimes(history, ip)
    ensures FpTimes(hash, history + [e], key)
         == if e.fingerprint != "" && hash(e.fingerprint) == key then FpTimes(hash, history, key) + [e.at]
            else FpTimes(hash, history, key)
  {
    assert (history + [e])[..|history|] == history;
  }

  // ---- Rates: pruned logs ----------------------------------------------------------------

  /** A log that was pruned by the hour still counts every minute from now on correctly. */
  ghost predicate LogOk(log: seq<int>, full: seq<int>, clock: int) {
    Agree(log, full, clock - HOUR) && UpTo(log, clock)
  }

  ghost predicate IpLogOk(ipCounters: map<string, seq<int>>, history: seq<Evaluation>, clock: int, ip: string) {
    LogOk(Get(ipCounters, ip), IpTimes(history, ip), clock)
  }

  ghost predicate FpLogOk(hash: string -> string, fpCounters: map<string, seq<int>>, history: seq<Evaluation>,
                          clock: int, key: string) {
    LogOk(Get(fpCounters, key), FpTimes(hash, history, key), clock)
  }

  ghost predicate IpLogsOk(ipCounters: map<string, seq<int>>, history: seq<Evaluation>, clock: int) {
    forall ip :: ip != "" ==> IpLogOk(ipCounters, history, clock, ip)
  }

  ghost predicate FpLogsOk(hash: string -> string, fpCounters: map<string, seq<int>>, history: seq<Evaluation>,
                           clock: int) {
    forall key :: FpLogOk(hash, fpCounters, history, clock, key)
  }

  lemma LogLater(log: seq<int>, full: seq<int>, clock: int, now: int)
    requires LogOk(log, full, clock) && clock <= now
    ensures LogOk(log, full, now)
  {}

  lemma {:induction false} CountAfterDrop(s: seq<int>, cutoff: int, lo: int, hi: int)
    requires cutoff <= lo
    ensures CountIn(DropBefore(s, cutoff), lo, hi) == CountIn(s, lo, hi)
  {
    if s != [] && s[0] < cutoff {
      CountAfterDrop(s[1..], cutoff, lo, hi);
      CountHead(s, lo, hi);
    }
  }

  lemma {:induction false} CountHead(s: seq<int>, lo: int, hi: int)
    requires s != []
    ensures CountIn(s, lo, hi) == (if lo <= s[0] <= hi then 1 else 0) + CountIn(s[1..], lo, hi)
  {
    if |s| > 1 {
      CountHead(s[..|s| - 1], lo, hi);
      assert s[..|s| - 1][1..] == s[1..][..|s| - 2];
    }
  }

  lemma {:induction false} DropKeepsUpTo(s: seq<int>, cutoff: int, bound: int)
    requires UpTo(s, bound)
    ensures UpTo(DropBefore(s, cutoff), bound)
  {
    if s != [] && s[0] < cutoff {
      assert forall i :: 0 <= i < |s[1..]| ==> s[1..][i] == s[i + 1];
      DropKeepsUpTo(s[1..], cutoff, bound);
    }
  }

  method CountSince(timestamps: seq<int>, since: int, ghost now: int) returns (count: nat)
    requires UpTo(timestamps, now)
    ensures count == CountIn(timestamps, since, now)
  {
    count := 0;
    for i := 0 to |timestamps|
      invariant count == CountIn(timestamps[..i], since, now)
    {
      assert timestamps[..i + 1] == timestamps[..i] + [timestamps[i]];
      CountInPush(timestamps[..i], timestamps[i], since, now);
      if timestamps[i] > since || timestamps[i] == since {
        count := count + 1;
      }
    }
    assert timestamps[..|timestamps|] == timestamps;
  }

  lemma HitOk(log: seq<int>, full: seq<int>, clock: int, now: int)
    requires LogOk(log, full, clock) && clock <= now
    ensures LogOk(DropBefore(log + [now], now - HOUR), full + [now], now)
    ensures CountIn(DropBefore(log + [now], now - HOUR), now - MINUTE, now) == LastMinute(full + [now], now)
  {
    AgreeAfterPush(log, full, clock - HOUR, now);
    assert DropBefore(log + [now], now - HOUR) == DropBefore(full + [now], now - HOUR);
    AgreeAfterPrune(log + [now], full + [now], clock - HOUR, now - HOUR);
    assert UpTo(log + [now], now);
    DropKeepsUpTo(log + [now], now - HOUR, now);
    CountAfterDrop(full + [now], now - HOUR, now - MINUTE, now);
  }

  /** Append, prune by the hour, count the last minute: the count is that of the full record. */
  method Hit(log: seq<int>, now: int, ghost full: seq<int>, ghost clock: int) returns (kept: seq<int>, recentCount: nat)
    requires LogOk(log, full, clock) && clock <= now
    ensures LogOk(kept, full + [now], now) && recentCount == LastMinute(full + [now], now)
  {
    kept := PruneOld(log + [now], now, HOUR);
    HitOk(log, full, clock, now);
    recentCount := CountSince(kept, now - MINUTE, now);
  }

  /** The address half of evaluateRates. */
  method EvaluateIpRate(hash: string -> string, ipCounters: map<string, seq<int>>, ip: string, now: int,
                        ghost history: seq<Evaluation>, ghost clock: int, ghost fp: string)
    returns (ipCounters': map<string, seq<int>>, s: Scored)
    requires IpLogsOk(ipCounters, history, clock) && clock <= now
    ensures IpLogsOk(ipCounters', history + [Evaluation(ip, fp, now)], now)
    ensures s == IpRateIn(history + [Evaluation(ip, fp, now)], ip, now)
  {
    ghost var e := Evaluation(ip, fp, now);
    ipCounters', s := ipCounters, NOTHING;
    TimesPush(hash, history, e, ip, "");
    if ip != "" {
      assert IpLogOk(ipCounters, history, clock, ip);
      var kept, recentCount := Hit(Get(ipCounters, ip), now, IpTimes(history, ip), clock);
      ipCounters' := ipCounters[ip := kept];
      if recentCount > 30 {
        s := Scored(30, ["ip_rate_extreme"]);
      } else if recentCount > 15 {
        s := Scored(20, ["ip_rate_high"]);
      } else if recentCount > 5 {
        s := Scored(8, ["ip_rate_elevated"]);
      }
    }
    IpLogsAfter(hash, ipCounters, history, clock, e, ipCounters');
  }

  lemma IpLogsAfter(hash: string -> string, ipCounters: map<string, seq<int>>, history: seq<Evaluation>, clock: int,
                    e: Evaluation, ipCounters': map<string, seq<int>>)
    requires IpLogsOk(ipCounters, history, clock) && clock <= e.at
    requires forall ip :: ip != e.ip ==> Get(ipCounters', ip) == Get(ipCounters, ip)
    requires e.ip != "" ==> LogOk(Get(ipCounters', e.ip), IpTimes(history, e.ip) + [e.at], e.at)
    ensures IpLogsOk(ipCounters', history + [e], e.at)
  {
    var history' := history + [e];
    forall ip | ip != "" ensures IpLogOk(ipCounters', history', e.at, ip) {
      assert IpLogOk(ipCounters, history, clock, ip);
      TimesPush(hash, history, e, ip, "");
      LogLater(Get(ipCounters, ip), IpTimes(history, ip), clock, e.at);
    }
  }

  /** The fingerprint half. */
  method EvaluateFpRate(hash: string -> string, fpCounters: map<string, seq<int>>, fp: string, now: int,
                        ghost history: seq<Evaluation>, ghost clock: int, ghost ip: string)
    returns (fpCounters': map<string, seq<int>>, s: Scored)
    requires FpLogsOk(hash, fpCounters, history, clock) && clock <= now
    ensures FpLogsOk(hash, fpCounters', history + [Evaluation(ip, fp, now)], now)
    ensures s == FpRateIn(hash, history + [Evaluation(ip, fp, now)], fp, now)
  {
    ghost var e := Evaluation(ip, fp, now);
    fpCounters', s := fpCounters, NOTHING;
    if fp != "" {
      var fpKey := hash(fp);
      TimesPush(hash, history, e, ip, fpKey);
      assert FpLogOk(hash, fpCounters, history, clock, fpKey);
      var kept, recentCount := Hit(Get(fpCounters, fpKey), now, FpTimes(hash, history, fpKey), clock);
      fpCounters' := fpCounters[fpKey := kept];
      if recentCount > 20 {
        s := Scored(25, ["fp_rate_extreme"]);
      } else if recentCount > 10 {
        s := Scored(15, ["fp_rate_high"]);
      } else if recentCount > 3 {
        s := Scored(5, ["fp_rate_elevated"]);
      }
    } else {
      s := Scored(5, ["missing_fingerprint"]);
    }
    FpLogsAfter(hash, fpCounters, history, clock, e, fpCounters');
  }

  lemma FpLogsAfter(hash: string -> string, fpCounters: map<string, seq<int>>, history: seq<Evaluation>, clock: int,
                    e: Evaluation, fpCounters': map<string, seq<int>>)
    requires FpLogsOk(hash, fpCounters, history, clock) && clock <= e.at
    requires forall key :: e.fingerprint == "" || key != hash(e.fingerprint) ==>
               Get(fpCounters', key) == Get(fpCounters, key)
    requires e.fingerprint != "" ==>
               LogOk(Get(fpCounters', hash(e.fingerprint)), FpTimes(hash, history, hash(e.fingerprint)) + [e.at], e.at)
    ensures FpLogsOk(hash, fpCounters', history + [e], e.at)
  {
    var history' := history + [e];
    forall key ensures FpLogOk(hash, fpCounters', history', e.at, key) {
      assert FpLogOk(hash, fpCounters, history, clock, key);
      TimesPush(hash, history, e, "", key);
      LogLater(Get(fpCounters, key), FpTimes(hash, history, key), clock, e.at);
    }
  }

  // ---- Layers that read one request --------------------------------------------------------

  /** A user agent: its length and whether it holds a known bot token or headless indicator. */
  datatype Agent = NoAgent | Agent(length: nat, botToken: bool, headless: bool)

  function AgentScore(ua: Agent): Scored {
    if ua.NoAgent? then Scored(12, ["missing_ua"])
    else if ua.botToken then Scored(15, ["bot_ua"])
    else When(ua.length < 20, 5, ["short_ua"])
  }

  /** Behaviour data: a number that is absent or not numeric is None. */
  datatype Behavior = NoData | Data(
    mouseEntropy: Option<real>, timeOnPage: Option<real>, keyCount: Option<real>, scrollCount: Option<real>,
    devtoolsOpen: bool, webdriver: bool, automationKey: bool, duration: Option<real>, mouseMoves: Option<real>,
    mouseJitter: Option<real>, pluginCount: Option<real>)

  function Graded(x: Option<real>, low: real, high: real, lowPoints: int, lowLabel: string,
                  highPoints: int, highLabel: string): Scored
  {
    if x.Some? && x.value < low then Scored(lowPoints, [lowLabel])
    else When(x.Some? && x.value < high, highPoints, [highLabel])
  }

  function BehaviorScore(b: Behavior): Scored {
    if b.NoData? then Scored(10, ["no_behavior_data"])
    else
      Plus(Plus(Plus(Plus(
        Graded(b.mouseEntropy, 0.5, 1.5, 15, "low_mouse_entropy", 5, "moderate_mouse_entropy"),
        Graded(b.timeOnPage, 500.0, 2000.0, 15, "instant_interaction", 5, "fast_interaction")),
        When(b.keyCount == Some(0.0), 5, ["no_keystrokes"])),
        When(b.scrollCount == Some(0.0), 3, ["no_scroll"])),
        When(b.devtoolsOpen, 8, ["devtools_open"]))
  }

  predicate ImpossibleRate(duration: Option<real>, moves: Option<real>) {
    duration.Some? && moves.Some? && duration.value > 0.0 && moves.value > 0.0
    && moves.value / (duration.value / 1000.0) > 100.0
  }

  function BotSigns(headless: bool, webdriver: bool, automation: bool, impossible: bool, jitterless: bool,
                    pluginless: bool): Scored
  {
    Plus(Plus(Plus(Plus(Plus(
      When(headless, 20, ["headless_browser"]),
      When(webdriver, 25, ["webdriver_detected"])),
      When(automation, 20, ["automation_framework"])),
      When(impossible, 15, ["impossible_mouse_rate"])),
      When(jitterless, 10, ["zero_jitter"])),
      When(pluginless, 5, ["no_plugins"]))
  }

  function BotScore(ua: Agent, b: Behavior): Scored {
    var headless := ua.Agent? && ua.headless;
    if b.NoData? then BotSigns(headless, false, false, false, false, false)
    else
      BotSigns(headless, b.webdriver, b.automationKey, ImpossibleRate(b.duration, b.mouseMoves),
               b.mouseJitter == Some(0.0), b.pluginCount == Some(0.0))
  }

  // ---- The verdict -----------------------------------------------------------------------------

  datatype Result = Result(score: real, riskLabel: string, action: RiskAction)

  /** strings.Join(labels, ","). */
  function Join(labels: seq<string>): string {
    if labels == [] then ""
    else if |labels| == 1 then labels[0]
    else labels[0] + "," + Join(labels[1..])
  }

  function RiskLabel(level: string, labels: seq<string>): string {
    level + "|" + Join(if labels == [] then ["clean"] else labels)
  }

  function ClassifyRisk(score: real): string {
    if score <= 15.0 then "low"
    else if score <= 40.0 then "medium"
    else if score <= 70.0 then "high"
    else "critical"
  }

  function RecommendAction(score: real): RiskAction {
    if score <= 15.0 then Pass
    else if score <= 30.0 then Invisible
    else if score <= 70.0 then Challenge
    else Deny
  }

  lemma WholeRoundsToItself(n: int)
    ensures Round2(n as real) == n as real
  {
    assert (n as real * 100.0 + 0.5).Floor == n * 100;
  }

  function Clamp(n: int): int { if n > 100 then 100 else if n < 0 then 0 else n }

  function Total(parse: Parser, ip: string, rates: Scored, ua: Agent, b: Behavior): Scored {
    Sum(IpScore(parse, ip), rates, AgentScore(ua), BehaviorScore(b), ProxyScore(parse, ip), BotScore(ua, b))
  }

  class Engine {
    const parse: Parser
    const hash: string -> string
    var ipCounters: map<string, seq<int>>
    var fpCounters: map<string, seq<int>>
    ghost var history: seq<Evaluation>
    ghost var clock: int

    ghost predicate Valid()
      reads this
    {
      IpLogsOk(ipCounters, history, clock) && FpLogsOk(hash, fpCounters, history, clock)
    }

    constructor (parse: Parser, hash: string -> string)
      ensures Valid() && this.parse == parse && this.hash == hash && history == [] && clock == 0
    {
      this.parse, this.hash := parse, hash;
      ipCounters, fpCounters, history, clock := map[], map[], [], 0;
    }

    method EvaluateRates(ip: string, fingerprint: string, now: int) returns (rates: Scored)
      requires Valid() && clock <= now
      modifies this
      ensures Valid() && clock == now && history == old(history) + [Evaluation(ip, fingerprint, now)]
      ensures rates == RateScore(hash, history, ip, fingerprint, now)
    {
      var ips, ofIp := EvaluateIpRate(hash, ipCounters, ip, now, history, clock, fingerprint);
      var fps, ofFp := EvaluateFpRate(hash, fpCounters, fingerprint, now, history, clock, ip);
      ghost var grown := history + [Evaluation(ip, fingerprint, now)];
      assert ofIp == IpRateIn(grown, ip, now) && ofFp == FpRateIn(hash, grown, fingerprint, now);
      rates := Plus(ofIp, ofFp);
      assert rates == RateScore(hash, grown, ip, fingerprint, now);
      ipCounters, fpCounters, history, clock := ips, fps, grown, now;
    }

    method Evaluate(ip: string, ua: Agent, fingerprint: string, behavior: Behavior, now: int) returns (r: Result)
      requires Valid() && clock <= now
      modifies this
      ensures Valid() && clock == now && history == old(history) + [Evaluation(ip, fingerprint, now)]
      ensures var total := Total(parse, ip, RateScore(hash, history, ip, fingerprint, now), ua, behavior);
              && r.score == Clamp(total.points) as real
              && r.riskLabel == RiskLabel(ClassifyRisk(r.score), total.labels) && r.action == RecommendAction(r.score)
    {
      var rates := EvaluateRates(ip, fingerprint, now);
      r := Verdict(IpScore(parse, ip), rates, AgentScore(ua), BehaviorScore(behavior), ProxyScore(parse, ip),
                   BotScore(ua, behavior));
    }
  }

  /** The sum of the six layers. */
  function Sum(ip: Scored, rates: Scored, agent: Scored, behavior: Scored, proxy: Scored, bot: Scored): Scored {
    Plus(Plus(Plus(Plus(Plus(ip, rates), agent), behavior), proxy), bot)
  }

  /** Adds up the layers, clamps, classifies, and only then rounds. */
  method Verdict(ip: Scored, rates: Scored, agent: Scored, behavior: Scored, proxy: Scored, bot: Scored)
    returns (r: Result)
    ensures var total := Sum(ip, rates, agent, behavior, proxy, bot);
            && r.score == Clamp(total.points) as real
            && r.riskLabel == RiskLabel(ClassifyRisk(r.score), total.labels) && r.action == RecommendAction(r.score)
  {
    var totalScore := 0.0;
    totalScore := totalScore + ip.points as real;
    totalScore := totalScore + rates.points as real;
    totalScore := totalScore + agent.points as real;
    totalScore := totalScore + behavior.points as real;
    totalScore := totalScore + proxy.points as real;
    totalScore := totalScore + bot.points as real;
    var labels := ip.labels + rates.labels + agent.labels + behavior.labels + proxy.labels + bot.labels;
    if totalScore > 100.0 {
      totalScore := 100.0;
    }
    if totalScore < 0.0 {
      totalScore := 0.0;
    }
    if |labels| == 0 {
      labels := ["clean"];
    }
    WholeRoundsToItself(Clamp(Sum(ip, rates, agent, behavior, proxy, bot).points));
    r := Result(Round2(totalScore), ClassifyRisk(totalScore) + "|" + Join(labels), RecommendAction(totalScore));
  }

  // ---- Consequences ---------------------------------------------------------------------------

  /** How many of the readings lie in [a, a + a minute] and saw at most `limit` in their own last minute. */
  function Escapes(times: seq<int>, limit: nat, a: int): nat {
    if times == [] then 0
    else
      var n := |times| - 1;
      Escapes(times[..n], limit, a)
      + (if a <= times[n] <= a + MINUTE && LastMinute(times, times[n]) <= limit then 1 else 0)
  }

  lemma {:induction false} FewEscape(times: seq<int>, limit: nat, a: int)
    requires Sorted(times)
    ensures Escapes(times, limit, a) <= limit && Escapes(times, limit, a) <= CountIn(times, a, a + MINUTE)
  {
    if times != [] {
      var n := |times| - 1;
      FewEscape(times[..n], limit, a);
      if a <= times[n] <= a + MINUTE {
        CountInUpTo(times, a, times[n], a + MINUTE);
        CountInWider(times, a, times[n], times[n] - MINUTE, times[n]);
      }
    }
  }

  lemma {:induction false} CountInUpTo(s: seq<int>, lo: int, mid: int, hi: int)
    requires UpTo(s, mid) && mid <= hi
    ensures CountIn(s, lo, mid) == CountIn(s, lo, hi)
  {
    if s != [] {
      CountInUpTo(s[..|s| - 1], lo, mid, hi);
    }
  }

  /** How many evaluations of an address in [a, a + a minute] scored fewer than `points` for its rate. */
  function Milder(history: seq<Evaluation>, ip: string, points: int, a: int): nat {
    if history == [] then 0
    else
      var n := |history| - 1;
      var at := history[n].at;
      Milder(history[..n], ip, points, a)
      + (if history[n].ip == ip && a <= at <= a + MINUTE && IpRateIn(history, ip, at).points < points then 1 else 0)
  }

  lemma {:induction false} MilderEscape(history: seq<Evaluation>, ip: string, points: int, limit: nat, a: int)
    requires ip != "" && ((points == 8 && limit == 5) || (points == 20 && limit == 15) || (points == 30 && limit == 30))
    ensures Milder(history, ip, points, a) == Escapes(IpTimes(history, ip), limit, a)
  {
    if history != [] {
      var n := |history| - 1;
      MilderEscape(history[..n], ip, points, limit, a);
      if history[n].ip == ip {
        assert IpTimes(history, ip)[..|IpTimes(history, ip)| - 1] == IpTimes(history[..n], ip);
      }
    }
  }

  ghost predicate InOrder(history: seq<Evaluation>) {
    forall i, j :: 0 <= i < j < |history| ==> history[i].at <= history[j].at
  }

  lemma {:induction false} IpTimesSorted(history: seq<Evaluation>, ip: string, bound: int)
    requires InOrder(history) && (history != [] ==> history[|history| - 1].at <= bound)
    ensures Sorted(IpTimes(history, ip)) && UpTo(IpTimes(history, ip), bound)
  {
    if history != [] {
      var n := |history| - 1;
      IpTimesSorted(history[..n], ip, history[n].at);
    }
  }

  /**
    Over any run and in any closed minute, at most 5 evaluations of one address go without rate
    points, at most 15 with fewer than 20, and at most 30 with fewer than 30.
   */
  lemma FewMild(history: seq<Evaluation>, ip: string, a: int)
    requires InOrder(history) && ip != ""
    ensures Milder(history, ip, 8, a) <= 5 && Milder(history, ip, 20, a) <= 15 && Milder(history, ip, 30, a) <= 30
  {
    IpTimesSorted(history, ip, if history == [] then 0 else history[|history| - 1].at);
    MilderEscape(history, ip, 8, 5, a);
    MilderEscape(history, ip, 20, 15, a);
    MilderEscape(history, ip, 30, 30, a);
    FewEscape(IpTimes(history, ip), 5, a);
    FewEscape(IpTimes(history, ip), 15, a);
    FewEscape(IpTimes(history, ip), 30, a);
  }

  function Burst(e: Evaluation, n: nat): seq<Evaluation> { if n == 0 then [] else Burst(e, n - 1) + [e] }

  lemma {:induction false} BurstTimes(hash: string -> string, e: Evaluation, n: nat)
    requires e.fingerprint != ""
    ensures IpTimes(Burst(e, n), e.ip) == seq(n, _ => e.at)
    ensures FpTimes(hash, Burst(e, n), hash(e.fingerprint)) == seq(n, _ => e.at)
  {
    if n > 0 {
      BurstTimes(hash, e, n - 1);
      TimesPush(hash, Burst(e, n - 1), e, e.ip, hash(e.fingerprint));
      assert seq(n, _ => e.at) == seq(n - 1, _ => e.at) + [e.at];
    }
  }

  lemma {:induction false} AllInLastMinute(at: int, n: nat)
    ensures LastMinute(seq(n, _ => at), at) == n
  {
    if n > 0 {
      AllInLastMinute(at, n - 1);
      CountInPush(seq(n - 1, _ => at), at, at - MINUTE, at);
      assert seq(n, _ => at) == seq(n - 1, _ => at) + [at];
    }
  }

  /** The rate layer adds at most 55 points, and a burst of 31 evaluations brings them all. */
  lemma RateLayerMaximum(hash: string -> string, history: seq<Evaluation>, ip: string, fp: string, now: int,
                         e: Evaluation)
    requires e.ip != "" && e.fingerprint != ""
    ensures 0 <= RateScore(hash, history, ip, fp, now).points <= 55
    ensures RateScore(hash, Burst(e, 31), e.ip, e.fingerprint, e.at).points == 55
  {
    BurstTimes(hash, e, 31);
    AllInLastMinute(e.at, 31);
  }

  /** Nothing heard of an address in the minute before: no rate points for it. */
  lemma QuietMinuteForgives(times: seq<int>, now: int)
    requires CountIn(times, now - MINUTE, now) == 0
    ensures IpRate(LastMinute(times + [now], now)) == NOTHING && FpRate(LastMinute(times + [now], now)) == NOTHING
  {
    CountInPush(times, now, now - MINUTE, now);
  }

  // ---- What the layers add ------------------------------------------------------------------

  /** The evaluations of an address in the closed interval [lo, hi]. */
  function IpHits(history: seq<Evaluation>, ip: string, lo: int, hi: int): set<int> {
    set i | 0 <= i < |history| && history[i].ip == ip && lo <= history[i].at <= hi
  }

  /** The evaluations, in the interval, of fingerprints with the same hash. */
  function FpHits(hash: string -> string, history: seq<Evaluation>, fp: string, lo: int, hi: int): set<int> {
    set i | 0 <= i < |history| && history[i].fingerprint != "" && hash(history[i].fingerprint) == hash(fp)
            && lo <= history[i].at <= hi
  }

  lemma IpHitsLast(history: seq<Evaluation>, ip: string, lo: int, hi: int)
    requires history != []
    ensures var n := |history| - 1;
            |IpHits(history, ip, lo, hi)| == |IpHits(history[..n], ip, lo, hi)|
                                             + (if history[n].ip == ip && lo <= history[n].at <= hi then 1 else 0)
  {
    var n := |history| - 1;
    var all, earlier := IpHits(history, ip, lo, hi), IpHits(history[..n], ip, lo, hi);
    var hit := history[n].ip == ip && lo <= history[n].at <= hi;
    forall i ensures n !in earlier && (i in all <==> i in earlier || (i == n && hit)) {
      if 0 <= i < n { assert history[..n][i] == history[i]; }
    }
    OneMore(all, earlier, n, hit);
  }

  lemma FpHitsLast(hash: string -> string, history: seq<Evaluation>, fp: string, lo: int, hi: int)
    requires history != []
    ensures var n := |history| - 1;
            var last := history[n];
            |FpHits(hash, history, fp, lo, hi)| == |FpHits(hash, history[..n], fp, lo, hi)|
              + (if last.fingerprint != "" && hash(last.fingerprint) == hash(fp) && lo <= last.at <= hi then 1 else 0)
  {
    var n := |history| - 1;
    var last := history[n];
    var all, earlier := FpHits(hash, history, fp, lo, hi), FpHits(hash, history[..n], fp, lo, hi);
    var hit := last.fingerprint != "" && hash(last.fingerprint) == hash(fp) && lo <= last.at <= hi;
    forall i ensures n !in earlier && (i in all <==> i in earlier || (i == n && hit)) {
      if 0 <= i < n { assert history[..n][i] == history[i]; }
    }
    OneMore(all, earlier, n, hit);
  }

  lemma {:induction false} IpTimesCountHits(history: seq<Evaluation>, ip: string, lo: int, hi: int)
    ensures CountIn(IpTimes(history, ip), lo, hi) == |IpHits(history, ip, lo, hi)|
  {
    if history == [] {
      assert IpHits(history, ip, lo, hi) == {};
    } else {
      var n := |history| - 1;
      IpTimesCountHits(history[..n], ip, lo, hi);
      IpHitsLast(history, ip, lo, hi);
      CountInPush(IpTimes(history[..n], ip), history[n].at, lo, hi);
    }
  }

  lemma {:induction false} FpTimesCountHits(hash: string -> string, history: seq<Evaluation>, fp: string,
                                            lo: int, hi: int)
    ensures CountIn(FpTimes(hash, history, hash(fp)), lo, hi) == |FpHits(hash, history, fp, lo, hi)|
  {
    if history == [] {
      assert FpHits(hash, history, fp, lo, hi) == {};
    } else {
      var n := |history| - 1;
      FpTimesCountHits(hash, history[..n], fp, lo, hi);
      FpHitsLast(hash, history, fp, lo, hi);
      CountInPush(FpTimes(hash, history[..n], hash(fp)), history[n].at, lo, hi);
    }
  }

  /** The rate of an address, by its evaluations of the last minute. */
  lemma IpRateMeans(history: seq<Evaluation>, ip: string, now: int)
    ensures var hits, rate := |IpHits(history, ip, now - 60_000_000_000, now)|, IpRateIn(history, ip, now);
            rate == if ip == "" || hits <= 5 then Scored(0, [])
                    else if hits <= 15 then Scored(8, ["ip_rate_elevated"])
                    else if hits <= 30 then Scored(20, ["ip_rate_high"])
                    else Scored(30, ["ip_rate_extreme"])
  {
    IpTimesCountHits(history, ip, now - MINUTE, now);
  }

  /** The rate of a fingerprint, by the evaluations of the last minute that share its hash. */
  lemma FpRateMeans(hash: string -> string, history: seq<Evaluation>, fp: string, now: int)
    ensures var hits := |FpHits(hash, history, fp, now - 60_000_000_000, now)|;
            FpRateIn(hash, history, fp, now) ==
              if fp == "" then Scored(5, ["missing_fingerprint"])
              else if hits <= 3 then Scored(0, [])
              else if hits <= 10 then Scored(5, ["fp_rate_elevated"])
              else if hits <= 20 then Scored(15, ["fp_rate_high"])
              else Scored(25, ["fp_rate_extreme"])
  {
    FpTimesCountHits(hash, history, fp, now - MINUTE, now);
  }

  /** The user agent's layer: a bot token outweighs a short name. */
  lemma AgentMeans(ua: Agent)
    ensures ua.NoAgent? ==> AgentScore(ua) == Scored(12, ["missing_ua"])
    ensures ua.Agent? && ua.botToken ==> AgentScore(ua) == Scored(15, ["bot_ua"])
    ensures ua.Agent? && !ua.botToken && ua.length < 20 ==> AgentScore(ua) == Scored(5, ["short_ua"])
    ensures ua.Agent? && !ua.botToken && ua.length >= 20 ==> AgentScore(ua) == Scored(0, [])
  {}

  /** Nothing suspicious: no points, unless there is no data at all. */
  lemma CleanBehavior(b: Behavior)
    ensures b.NoData? ==> BehaviorScore(b) == Scored(10, ["no_behavior_data"])
    ensures (b.Data? && b.mouseEntropy.None? && b.timeOnPage.None?
             && b.keyCount.None? && b.scrollCount.None? && !b.devtoolsOpen)
            ==> BehaviorScore(b) == Scored(0, [])
  {
    if b.Data? && b.mouseEntropy.None? && b.timeOnPage.None? {
      assert Plus(NOTHING, NOTHING) == NOTHING;
    }
  }

  /** Each behaviour signal adds its own points, whatever else was observed. */
  lemma BehaviorSignalsAdd(b: Behavior, x: real)
    requires b.Data?
    ensures var with := BehaviorScore(b.(mouseEntropy := Some(x))).points;
            var without := BehaviorScore(b.(mouseEntropy := None)).points;
            with == without + (if x < 0.5 then 15 else if x < 1.5 then 5 else 0)
    ensures var with := BehaviorScore(b.(timeOnPage := Some(x))).points;
            var without := BehaviorScore(b.(timeOnPage := None)).points;
            with == without + (if x < 500.0 then 15 else if x < 2000.0 then 5 else 0)
    ensures var with := BehaviorScore(b.(keyCount := Some(x))).points;
            var without := BehaviorScore(b.(keyCount := None)).points;
            with == without + (if x == 0.0 then 5 else 0)
    ensures var with := BehaviorScore(b.(scrollCount := Some(x))).points;
            var without := BehaviorScore(b.(scrollCount := None)).points;
            with == without + (if x == 0.0 then 3 else 0)
    ensures BehaviorScore(b.(devtoolsOpen := true)).points == BehaviorScore(b.(devtoolsOpen := false)).points + 8
  {}

  /** And its own label, in this order. */
  lemma BehaviorLabels(b: Behavior)
    requires b.Data?
    ensures BehaviorScore(b).labels ==
              GradeLabels(b.mouseEntropy, 0.5, "low_mouse_entropy", 1.5, "moderate_mouse_entropy")
              + GradeLabels(b.timeOnPage, 500.0, "instant_interaction", 2000.0, "fast_interaction")
              + (if b.keyCount == Some(0.0) then ["no_keystrokes"] else [])
              + (if b.scrollCount == Some(0.0) then ["no_scroll"] else [])
              + (if b.devtoolsOpen then ["devtools_open"] else [])
  {}

  function GradeLabels(x: Option<real>, low: real, below: string, high: real, between: string): seq<string> {
    if x.None? || x.value >= high then []
    else if x.value < low then [below]
    else [between]
  }

  /** Each sign of a bot adds its own points and label, whatever the others. */
  lemma BotSignsAdd(headless: bool, webdriver: bool, automation: bool, impossible: bool, jitterless: bool,
                    pluginless: bool)
    ensures var signs := BotSigns(headless, webdriver, automation, impossible, jitterless, pluginless);
            && signs.points == (if headless then 20 else 0) + (if webdriver then 25 else 0)
                 + (if automation then 20 else 0) + (if impossible then 15 else 0)
                 + (if jitterless then 10 else 0) + (if pluginless then 5 else 0)
            && signs.labels == (if headless then ["headless_browser"] else [])
                 + (if webdriver then ["webdriver_detected"] else [])
                 + (if automation then ["automation_framework"] else [])
                 + (if impossible then ["impossible_mouse_rate"] else [])
                 + (if jitterless then ["zero_jitter"] else []) + (if pluginless then ["no_plugins"] else [])
  {}

  /** What counts as a sign: a headless agent always, the others if there is behaviour data. */
  lemma BotSignsAre(ua: Agent, b: Behavior)
    ensures b.NoData? ==> BotScore(ua, b) == BotSigns(ua.Agent? && ua.headless, false, false, false, false, false)
    ensures b.Data? ==>
              BotScore(ua, b) == BotSigns(ua.Agent? && ua.headless, b.webdriver, b.automationKey,
                                          ImpossibleRate(b.duration, b.mouseMoves),
                                          b.mouseJitter == Some(0.0), b.pluginCount == Some(0.0))
  {}

  lemma MoreThanHundredPerSecond(duration: real, moves: real)
    requires duration > 0.0
    ensures moves / (duration / 1000.0) > 100.0 <==> 10.0 * moves > duration
  {
    var seconds := duration / 1000.0;
    assert seconds > 0.0 && moves / seconds * seconds == moves;
    if 10.0 * moves > duration { assert moves > 100.0 * seconds; }
  }

  /** A mouse rate is impossible if both numbers are there, positive, and make more than a hundred events a second. */
  lemma ImpossibleMeans(duration: Option<real>, moves: Option<real>)
    ensures ImpossibleRate(duration, moves) <==>
              duration.Some? && moves.Some? && duration.value > 0.0 && moves.value > 0.0
              && 10.0 * moves.value > duration.value
  {
    if duration.Some? && moves.Some? && duration.value > 0.0 {
      MoreThanHundredPerSecond(duration.value, moves.value);
    }
  }

  /** The total is the sum of the six layers, and its labels are theirs in the same order. */
  lemma TotalMeans(parse: Parser, ip: string, rates: Scored, ua: Agent, b: Behavior)
    ensures var t := Total(parse, ip, rates, ua, b);
            && t.points == IpScore(parse, ip).points + rates.points + AgentScore(ua).points + BehaviorScore(b).points
                           + ProxyScore(parse, ip).points + BotScore(ua, b).points
            && t.labels == IpScore(parse, ip).labels + rates.labels + AgentScore(ua).labels + BehaviorScore(b).labels
                           + ProxyScore(parse, ip).labels + BotScore(ua, b).labels
  {}

  /** Levels and actions by the final score: the bands end at 15, 40 and 70, and at 15, 30 and 70. */
  lemma BandsMean(points: int, score: real)
    ensures var whole := Clamp(points);
            0 <= whole <= 100 && (0 <= points <= 100 ==> whole == points)
            && (points < 0 ==> whole == 0) && (points > 100 ==> whole == 100)
    ensures (ClassifyRisk(score) == "low" <==> score <= 15.0)
            && (ClassifyRisk(score) == "medium" <==> 15.0 < score <= 40.0)
            && (ClassifyRisk(score) == "high" <==> 40.0 < score <= 70.0)
            && (ClassifyRisk(score) == "critical" <==> score > 70.0)
    ensures (RecommendAction(score) == Pass <==> score <= 15.0)
            && (RecommendAction(score) == Invisible <==> 15.0 < score <= 30.0)
            && (RecommendAction(score) == Challenge <==> 30.0 < score <= 70.0)
            && (RecommendAction(score) == Deny <==> score > 70.0)
  {}

  /** The label is the level, a bar, and the labels with commas between them; "clean" if there are none. */
  lemma {:induction false} LabelMeans(level: string, labels: seq<string>, x: string)
    ensures RiskLabel(level, []) == level + "|clean"
    ensures RiskLabel(level, [x]) == level + "|" + x
    ensures labels != [] ==> RiskLabel(level, labels + [x]) == RiskLabel(level, labels) + "," + x
  {
    assert Join(["clean"]) == "clean";
    if labels != [] {
      JoinPush(labels, x);
      assert level + "|" + (Join(labels) + "," + x) == (level + "|" + Join(labels)) + "," + x;
    }
  }

  lemma {:induction false} JoinPush(labels: seq<string>, x: string)
    requires labels != []
    ensures Join(labels + [x]) == Join(labels) + "," + x
  {
    if |labels| == 1 {
      assert (labels + [x])[1..] == [x];
    } else {
      assert (labels + [x])[1..] == labels[1..] + [x];
      JoinPush(labels[1..], x);
    }
  }
}
