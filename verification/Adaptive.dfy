/**
  Adaptive thresholds (internal/service/policy/adaptive.go): outcomes are counted per scene,
  and the counts shift the thresholds by at most 20. Rates are exact fractions.
 */
module Adaptive {
  import opened Prelude
  import opened Policy

  datatype Outcome = Outcome(scene: string, wasBot: bool, wasChallenged: bool, passed: bool)

  datatype Metrics = Metrics(totalChallenges: nat, totalPassed: nat, botsChallenged: nat, botsPassed: nat,
                             humansChallenged: nat, humansFailed: nat)

  const NO_METRICS := Metrics(0, 0, 0, 0, 0, 0)

  const MAX_ADJUSTMENT: int := 20

  // ---- What the counters mean ----------------------------------------------------------

  datatype Kind = Challenged | Passed | BotSeen | BotPassed | HumanChallenged | HumanFailed

  predicate Is(o: Outcome, kind: Kind) {
    match kind
    case Challenged => o.wasChallenged
    case Passed => o.wasChallenged && o.passed
    case BotSeen => o.wasBot
    case BotPassed => o.wasBot && (o.passed || !o.wasChallenged)
    case HumanChallenged => !o.wasBot && o.wasChallenged
    case HumanFailed => !o.wasBot && o.wasChallenged && !o.passed
  }

  function Count(history: seq<Outcome>, scene: string, kind: Kind): nat {
    if history == [] then 0
    else
      var last := history[|history| - 1];
      Count(history[..|history| - 1], scene, kind) + (if last.scene == scene && Is(last, kind) then 1 else 0)
  }

  function MetricsOf(history: seq<Outcome>, scene: string): Metrics {
    Metrics(Count(history, scene, Challenged), Count(history, scene, Passed),
            Count(history, scene, BotSeen), Count(history, scene, BotPassed),
            Count(history, scene, HumanChallenged), Count(history, scene, HumanFailed))
  }

  lemma CountPush(history: seq<Outcome>, o: Outcome, scene: string, kind: Kind)
    ensures Count(history + [o], scene, kind)
         == Count(history, scene, kind) + (if o.scene == scene && Is(o, kind) then 1 else 0)
  {
    assert (history + [o])[..|history|] == history;
  }

  // ---- What the adjustment is ------------------------------------------------------------

  /** More than 5% of the challenged humans failed. */
  predicate HumansHot(m: Metrics) { m.humansChallenged > 0 && 20 * m.humansFailed > m.humansChallenged }

  /** More than 10% of the bots passed. */
  predicate BotsHot(m: Metrics) { m.botsChallenged > 0 && 10 * m.botsPassed > m.botsChallenged }

  /**
    One tuning step. When both rates are hot the bots' rule prevails, except at the floor,
    where it has nothing to store and the humans' rule is left standing.
   */
  function Shift(humansHot: bool, botsHot: bool, adj: int): int {
    if humansHot && botsHot then (if adj == -20 then -15 else adj - 5)
    else if humansHot then (if adj == 20 then 20 else adj + 5)
    else if botsHot then (if adj == -20 then -20 else adj - 5)
    else adj
  }

  function Tuned(m: Metrics, adj: int): int {
    if m.totalChallenges < 20 then adj else Shift(HumansHot(m), BotsHot(m), adj)
  }

  function AdjustmentAfter(history: seq<Outcome>, scene: string): int {
    if history == [] then 0
    else
      var n := |history| - 1;
      var before := AdjustmentAfter(history[..n], scene);
      if history[n].scene == scene then Tuned(MetricsOf(history, scene), before) else before
  }

  lemma AdjustmentPush(history: seq<Outcome>, o: Outcome, scene: string)
    ensures AdjustmentAfter(history + [o], scene)
         == (if o.scene == scene then Tuned(MetricsOf(history + [o], scene), AdjustmentAfter(history, scene))
             else AdjustmentAfter(history, scene))
  {
    assert (history + [o])[..|history|] == history;
  }

  predicate Level(adj: int) { -20 <= adj <= 20 && adj % 5 == 0 }

  /** Over any run the adjustment is a multiple of 5 between -20 and 20. */
  lemma {:induction false} AdjustmentIsLevel(history: seq<Outcome>, scene: string)
    ensures Level(AdjustmentAfter(history, scene))
  {
    if history != [] {
      AdjustmentIsLevel(history[..|history| - 1], scene);
    }
  }

  /** One outcome moves one scene's adjustment, by at most 5, even when both rates are hot. */
  lemma OneStepAtATime(history: seq<Outcome>, o: Outcome, scene: string)
    ensures -5 <= AdjustmentAfter(history + [o], scene) - AdjustmentAfter(history, scene) <= 5
    ensures o.scene != scene ==> AdjustmentAfter(history + [o], scene) == AdjustmentAfter(history, scene)
  {
    AdjustmentPush(history, o, scene);
    AdjustmentIsLevel(history, scene);
  }

  /** Nothing is adjusted before a scene's twentieth challenge. */
  lemma {:induction false} NoAdjustmentYet(history: seq<Outcome>, scene: string)
    requires Count(history, scene, Challenged) < 20
    ensures AdjustmentAfter(history, scene) == 0
  {
    if history != [] {
      NoAdjustmentYet(history[..|history| - 1], scene);
    }
  }

  /** Every challenge is passed, failed by a human, or failed by a bot; so no rate exceeds 100%. */
  lemma {:induction false} EveryChallengeAccounted(history: seq<Outcome>, scene: string)
    ensures var m := MetricsOf(history, scene);
            && m.totalPassed + m.humansFailed + (m.botsChallenged - m.botsPassed) == m.totalChallenges
            && m.humansFailed <= m.humansChallenged <= m.totalChallenges && m.botsPassed <= m.botsChallenged
  {
    if history != [] {
      EveryChallengeAccounted(history[..|history| - 1], scene);
    }
  }

  // ---- The engine ------------------------------------------------------------------------

  ghost predicate Reflects(scenes: map<string, Metrics>, adjustments: map<string, int>, history: seq<Outcome>) {
    forall scene :: ReflectsAt(scenes, adjustments, history, scene)
  }

  ghost predicate ReflectsAt(scenes: map<string, Metrics>, adjustments: map<string, int>,
                             history: seq<Outcome>, scene: string) {
    && (if scene in scenes then scenes[scene] else NO_METRICS) == MetricsOf(history, scene)
    && (if scene in adjustments then adjustments[scene] else 0) == AdjustmentAfter(history, scene)
  }

  class AdaptiveEngine {
    var scenes: map<string, Metrics>
    var adjustments: map<string, int>
    ghost var history: seq<Outcome>

    ghost predicate Valid()
      reads this
    {
      Reflects(scenes, adjustments, history)
    }

    constructor ()
      ensures Valid() && history == []
    {
      scenes, adjustments, history := map[], map[], [];
    }

    method RecordOutcome(scene: string, wasBot: bool, wasChallenged: bool, passed: bool)
      requires Valid()
      modifies this
      ensures Valid() && history == old(history) + [Outcome(scene, wasBot, wasChallenged, passed)]
    {
      ghost var o := Outcome(scene, wasBot, wasChallenged, passed);
      assert ReflectsAt(scenes, adjustments, history, scene);
      var m := if scene in scenes then scenes[scene] else NO_METRICS;
      m := Counted(m, scene, wasBot, wasChallenged, passed);
      MetricsPush(history, o, scene);
      var adj := if scene in adjustments then adjustments[scene] else 0;
      AdjustmentIsLevel(history, scene);
      adj := MaybeAdjust(m, adj);
      RecordedReflects(scenes, adjustments, history, o, m, adj);
      scenes := scenes[scene := m];
      if adj != (if scene in adjustments then adjustments[scene] else 0) {
        adjustments := adjustments[scene := adj];
      }
      history := history + [o];
    }

    method GetAdjustment(scene: string) returns (adj: int)
      requires Valid()
      ensures adj == AdjustmentAfter(history, scene) && Level(adj)
    {
      assert ReflectsAt(scenes, adjustments, history, scene);
      adj := if scene in adjustments then adjustments[scene] else 0;
      AdjustmentIsLevel(history, scene);
    }

    method GetAdaptedPolicy(scene: string, original: Option<Policy>) returns (adapted: Option<Policy>)
      requires Valid()
      ensures adapted == if original.None? then None else Some(Adapted(original.value, AdjustmentAfter(history, scene)))
    {
      if original.None? {
        return None;
      }
      var adj := GetAdjustment(scene);
      if adj == 0 {
        return original;
      }
      var low := original.value.thresholdLow + adj as real;
      var high := original.value.thresholdHigh + adj as real;
      if low < 0.0 {
        low := 0.0;
      }
      if high < low + 1.0 {
        high := low + 1.0;
      }
      if high > 100.0 {
        high := 100.0;
      }
      adapted := Some(original.value.(thresholdLow := low, thresholdHigh := high));
    }
  }

  /** One more outcome, in every counter whose kind it is. */
  function Bumped(m: Metrics, o: Outcome): Metrics {
    Metrics(m.totalChallenges + (if Is(o, Challenged) then 1 else 0), m.totalPassed + (if Is(o, Passed) then 1 else 0),
            m.botsChallenged + (if Is(o, BotSeen) then 1 else 0), m.botsPassed + (if Is(o, BotPassed) then 1 else 0),
            m.humansChallenged + (if Is(o, HumanChallenged) then 1 else 0),
            m.humansFailed + (if Is(o, HumanFailed) then 1 else 0))
  }

  lemma MetricsPush(history: seq<Outcome>, o: Outcome, scene: string)
    ensures MetricsOf(history + [o], scene)
         == if o.scene == scene then Bumped(MetricsOf(history, scene), o) else MetricsOf(history, scene)
  {
    CountPush(history, o, scene, Challenged);
    CountPush(history, o, scene, Passed);
    CountPush(history, o, scene, BotSeen);
    CountPush(history, o, scene, BotPassed);
    CountPush(history, o, scene, HumanChallenged);
    CountPush(history, o, scene, HumanFailed);
  }

  /** The counting part of RecordOutcome. */
  method Counted(m: Metrics, scene: string, wasBot: bool, wasChallenged: bool, passed: bool) returns (m': Metrics)
    ensures m' == Bumped(m, Outcome(scene, wasBot, wasChallenged, passed))
  {
    m' := m;
    if wasChallenged {
      m' := m'.(totalChallenges := m'.totalChallenges + 1);
      if passed {
        m' := m'.(totalPassed := m'.totalPassed + 1);
      }
      if wasBot {
        m' := m'.(botsChallenged := m'.botsChallenged + 1);
        if passed {
          m' := m'.(botsPassed := m'.botsPassed + 1);
        }
      } else {
        m' := m'.(humansChallenged := m'.humansChallenged + 1);
        if !passed {
          m' := m'.(humansFailed := m'.humansFailed + 1);
        }
      }
    } else if wasBot && !wasChallenged {
      m' := m'.(botsPassed := m'.botsPassed + 1, botsChallenged := m'.botsChallenged + 1);
    }
  }

  lemma RecordedReflects(scenes: map<string, Metrics>, adjustments: map<string, int>, history: seq<Outcome>,
                         o: Outcome, m: Metrics, adj: int)
    requires Reflects(scenes, adjustments, history)
    requires m == MetricsOf(history + [o], o.scene) && adj == Tuned(m, AdjustmentAfter(history, o.scene))
    ensures Reflects(scenes[o.scene := m], adjustments[o.scene := adj], history + [o])
    ensures adj == (if o.scene in adjustments then adjustments[o.scene] else 0) ==>
              Reflects(scenes[o.scene := m], adjustments, history + [o])
  {
    var scenes', adjustments', history' := scenes[o.scene := m], adjustments[o.scene := adj], history + [o];
    forall scene ensures ReflectsAt(scenes', adjustments', history', scene) {
      RecordedReflectsAt(scenes, adjustments, history, o, m, adj, scene);
    }
    if adj == (if o.scene in adjustments then adjustments[o.scene] else 0) {
      forall scene ensures ReflectsAt(scenes', adjustments, history', scene) {
        RecordedReflectsAt(scenes, adjustments, history, o, m, adj, scene);
      }
    }
  }

  lemma RecordedReflectsAt(scenes: map<string, Metrics>, adjustments: map<string, int>, history: seq<Outcome>,
                           o: Outcome, m: Metrics, adj: int, scene: string)
    requires ReflectsAt(scenes, adjustments, history, scene)
    requires m == MetricsOf(history + [o], o.scene) && adj == Tuned(m, AdjustmentAfter(history, o.scene))
    ensures ReflectsAt(scenes[o.scene := m], adjustments[o.scene := adj], history + [o], scene)
    ensures adj == (if o.scene in adjustments then adjustments[o.scene] else 0) ==>
              ReflectsAt(scenes[o.scene := m], adjustments, history + [o], scene)
  {
    AdjustmentPush(history, o, scene);
    MetricsPush(history, o, scene);
  }

  function FalsePositiveRate(m: Metrics): (rate: real)
    ensures rate > 5.0 <==> HumansHot(m)
    ensures rate * m.humansChallenged as real == if m.humansChallenged == 0 then 0.0 else 100.0 * m.humansFailed as real
    ensures m.humansChallenged == 0 ==> rate == 0.0
  {
    if m.humansChallenged == 0 then 0.0
    else
      Percentage(m.humansFailed, m.humansChallenged, 5);
      m.humansFailed as real / m.humansChallenged as real * 100.0
  }

  function BotPassRate(m: Metrics): (rate: real)
    ensures rate > 10.0 <==> BotsHot(m)
    ensures rate * m.botsChallenged as real == if m.botsChallenged == 0 then 0.0 else 100.0 * m.botsPassed as real
    ensures m.botsChallenged == 0 ==> rate == 0.0
  {
    if m.botsChallenged == 0 then 0.0
    else
      Percentage(m.botsPassed, m.botsChallenged, 10);
      m.botsPassed as real / m.botsChallenged as real * 100.0
  }

  lemma Percentage(part: nat, whole: nat, percent: nat)
    requires whole > 0
    ensures part as real / whole as real * 100.0 > percent as real <==> 100 * part > percent * whole
  {}

  /** Both rules compare with the adjustment read before either wrote. */
  method ApplyRules(humansHot: bool, botsHot: bool, currentAdj: int) returns (adj: int)
    requires Level(currentAdj)
    ensures adj == Shift(humansHot, botsHot, currentAdj) && Level(adj)
  {
    adj := currentAdj;
    if humansHot {
      var newAdj := currentAdj + 5;
      if newAdj > MAX_ADJUSTMENT {
        newAdj := MAX_ADJUSTMENT;
      }
      if newAdj != currentAdj {
        adj := newAdj;
      }
    }
    if botsHot {
      var newAdj := currentAdj - 5;
      if newAdj < -MAX_ADJUSTMENT {
        newAdj := -MAX_ADJUSTMENT;
      }
      if newAdj != currentAdj {
        adj := newAdj;
      }
    }
  }

  method MaybeAdjust(m: Metrics, adj: int) returns (adj': int)
    requires Level(adj)
    ensures adj' == Tuned(m, adj) && Level(adj')
  {
    if m.totalChallenges < 20 {
      return adj;
    }
    var fpr := FalsePositiveRate(m);
    var bpr := BotPassRate(m);
    adj' := ApplyRules(fpr > 5.0, bpr > 10.0, adj);
  }

  // ---- Runs that reach the extremes ---------------------------------------------------------

  /** A run followed by n times the same outcome. */
  function Then(earlier: seq<Outcome>, o: Outcome, n: nat): seq<Outcome> {
    if n == 0 then earlier else Then(earlier, o, n - 1) + [o]
  }

  function HumanFails(scene: string): Outcome { Outcome(scene, false, true, false) }

  function BotPasses(scene: string): Outcome { Outcome(scene, true, true, true) }

  lemma {:induction false} ThenCounts(earlier: seq<Outcome>, o: Outcome, n: nat, kind: Kind)
    ensures Count(Then(earlier, o, n), o.scene, kind) == Count(earlier, o.scene, kind) + (if Is(o, kind) then n else 0)
  {
    if n > 0 {
      ThenCounts(earlier, o, n - 1, kind);
      CountPush(Then(earlier, o, n - 1), o, o.scene, kind);
    }
  }

  lemma ThenMetrics(earlier: seq<Outcome>, o: Outcome, n: nat)
    ensures MetricsOf(Then(earlier, o, n), o.scene)
         == var m := MetricsOf(earlier, o.scene);
            Metrics(m.totalChallenges + (if Is(o, Challenged) then n else 0),
                    m.totalPassed + (if Is(o, Passed) then n else 0),
                    m.botsChallenged + (if Is(o, BotSeen) then n else 0),
                    m.botsPassed + (if Is(o, BotPassed) then n else 0),
                    m.humansChallenged + (if Is(o, HumanChallenged) then n else 0),
                    m.humansFailed + (if Is(o, HumanFailed) then n else 0))
  {
    ThenCounts(earlier, o, n, Challenged);
    ThenCounts(earlier, o, n, Passed);
    ThenCounts(earlier, o, n, BotSeen);
    ThenCounts(earlier, o, n, BotPassed);
    ThenCounts(earlier, o, n, HumanChallenged);
    ThenCounts(earlier, o, n, HumanFailed);
  }

  /** Humans who always fail raise the thresholds by 5 an outcome from the twentieth on, up to 20. */
  lemma {:induction false} HumansRaise(scene: string, n: nat)
    ensures AdjustmentAfter(Then([], HumanFails(scene), n), scene)
         == if n < 20 then 0 else if n < 23 then 5 * (n - 19) else 20
  {
    if n > 0 {
      HumansRaise(scene, n - 1);
      ThenMetrics([], HumanFails(scene), n);
      AdjustmentPush(Then([], HumanFails(scene), n - 1), HumanFails(scene), scene);
    }
  }

  /** Bots that always pass lower them the same way, down to -20. */
  lemma {:induction false} BotsLower(scene: string, n: nat)
    ensures AdjustmentAfter(Then([], BotPasses(scene), n), scene)
         == if n < 20 then 0 else if n < 23 then -5 * (n - 19) else -20
  {
    if n > 0 {
      BotsLower(scene, n - 1);
      ThenMetrics([], BotPasses(scene), n);
      AdjustmentPush(Then([], BotPasses(scene), n - 1), BotPasses(scene), scene);
    }
  }

  function BotsThenHumans(scene: string, bots: nat, humans: nat): seq<Outcome> {
    Then(Then([], BotPasses(scene), bots), HumanFails(scene), humans)
  }

  lemma BothHot(scene: string, bots: nat, humans: nat)
    requires bots >= 23 && humans > 0
    ensures var m := MetricsOf(BotsThenHumans(scene, bots, humans), scene);
            m.totalChallenges >= 20 && HumansHot(m) && BotsHot(m)
  {
    ThenMetrics([], BotPasses(scene), bots);
    ThenMetrics(Then([], BotPasses(scene), bots), HumanFails(scene), humans);
  }

  lemma BothHotStep(scene: string, bots: nat, humans: nat)
    requires bots >= 23 && humans > 0
    ensures AdjustmentAfter(BotsThenHumans(scene, bots, humans), scene)
         == Shift(true, true, AdjustmentAfter(BotsThenHumans(scene, bots, humans - 1), scene))
  {
    BothHot(scene, bots, humans);
    AdjustmentPush(BotsThenHumans(scene, bots, humans - 1), HumanFails(scene), scene);
  }

  /** Once both rates are hot at the floor, the adjustment never settles: it alternates between -15 and -20. */
  lemma {:induction false} BothHotAlternates(scene: string, bots: nat, humans: nat)
    requires bots >= 23
    ensures AdjustmentAfter(BotsThenHumans(scene, bots, humans), scene) == if humans % 2 == 1 then -15 else -20
  {
    if humans == 0 {
      BotsLower(scene, bots);
    } else {
      BothHotAlternates(scene, bots, humans - 1);
      BothHotStep(scene, bots, humans);
    }
  }

  // ---- Adapted policies -------------------------------------------------------------------------

  function Max(x: real, y: real): real { if x < y then y else x }
  function Min(x: real, y: real): real { if x < y then x else y }

  /** The policy handed out under an adjustment: shifted into range, except that no adjustment changes nothing. */
  function Adapted(p: Policy, adj: int): Policy {
    if adj == 0 then p
    else
      var low := Max(0.0, p.thresholdLow + adj as real);
      p.(thresholdLow := low, thresholdHigh := Min(100.0, Max(low + 1.0, p.thresholdHigh + adj as real)))
  }

  ghost predicate Proper(p: Policy) {
    0.0 <= p.thresholdLow && p.thresholdLow + 1.0 <= p.thresholdHigh <= 100.0
  }

  /** A proper policy stays proper exactly when its low threshold is not pushed above 99. */
  lemma ProperWhenLowFits(p: Policy, adj: int)
    requires Proper(p)
    ensures Proper(Adapted(p, adj)) <==> p.thresholdLow + adj as real <= 99.0
  {}

  ghost predicate AlwaysProper(p: Policy) {
    forall history, scene :: Proper(Adapted(p, AdjustmentAfter(history, scene)))
  }

  /** Every run of outcomes keeps a proper policy proper if and only if its low threshold is at most 79. */
  lemma ProperInEveryRun(p: Policy)
    requires Proper(p)
    ensures AlwaysProper(p) <==> p.thresholdLow <= 79.0
  {
    if p.thresholdLow <= 79.0 {
      forall history, scene ensures Proper(Adapted(p, AdjustmentAfter(history, scene))) {
        AdjustmentIsLevel(history, scene);
        ProperWhenLowFits(p, AdjustmentAfter(history, scene));
      }
    } else {
      HumansRaise("login", 23);
      ProperWhenLowFits(p, 20);
      assert !Proper(Adapted(p, AdjustmentAfter(Then([], HumanFails("login"), 23), "login")));
    }
  }

  /** For one score and address, a larger adjustment of a proper policy never gives a more severe action. */
  lemma LargerAdjustmentSoftens(net: Net, rank: Ranking, p: Policy, adj: int, adj': int, score: real, ip: string)
    requires Proper(p) && adj <= adj' && RanksDefaults(rank) && Ordered(rank, p)
    ensures rank(Evaluate(net, score, Some(Adapted(p, adj')), ip))
         <= rank(Evaluate(net, score, Some(Adapted(p, adj)), ip))
  {
    ThresholdsRise(p, adj, adj');
    HigherScoreNoLenienter(net, rank, score, score, Adapted(p, adj'), Adapted(p, adj), ip);
  }

  lemma ThresholdsRise(p: Policy, adj: int, adj': int)
    requires Proper(p) && adj <= adj'
    ensures Adapted(p, adj).thresholdLow <= Adapted(p, adj').thresholdLow
    ensures Adapted(p, adj).thresholdHigh <= Adapted(p, adj').thresholdHigh
  {}

  /**
    The adapted thresholds are the shifted ones, each moved as little as its range asks: the low
    one not below 0, the high one at least 1 above it and at most 100.
   */
  lemma AdaptedIsClosest(p: Policy, adj: int, x: real, y: real)
    ensures Adapted(p, 0) == p
    ensures adj == 0 ||
            var q, low, high := Adapted(p, adj), p.thresholdLow + adj as real, p.thresholdHigh + adj as real;
            && q == p.(thresholdLow := q.thresholdLow, thresholdHigh := q.thresholdHigh)
            && 0.0 <= q.thresholdLow && q.thresholdHigh <= 100.0
            && (0.0 <= x ==> Distance(q.thresholdLow, low) <= Distance(x, low))
            && (q.thresholdLow <= 99.0 ==> q.thresholdLow + 1.0 <= q.thresholdHigh)
            && (q.thresholdLow > 99.0 ==> q.thresholdHigh == 100.0)
            && (q.thresholdLow + 1.0 <= y <= 100.0 ==> Distance(q.thresholdHigh, high) <= Distance(y, high))
  {}

  function Distance(x: real, y: real): real { if x < y then y - x else x - y }

  /** One tuning step, by the counts: 5% of the challenged humans and 10% of the bots are the marks. */
  lemma TuningMeans(m: Metrics, adj: int)
    requires Level(adj)
    ensures var humans := m.humansChallenged > 0 && 100 * m.humansFailed > 5 * m.humansChallenged;
            var bots := m.botsChallenged > 0 && 100 * m.botsPassed > 10 * m.botsChallenged;
            Tuned(m, adj) ==
              if m.totalChallenges < 20 || (!humans && !bots) then adj
              else if !bots then (if adj == 20 then adj else adj + 5)
              else if adj == -20 then (if humans then -15 else -20)
              else adj - 5
  {}

  /** What each of the five kinds of outcome adds to the counters. */
  lemma OutcomesCount(m: Metrics, scene: string, passed: bool)
    ensures Bumped(m, Outcome(scene, false, false, passed)) == m
    ensures Bumped(m, Outcome(scene, true, false, passed))
         == m.(botsChallenged := m.botsChallenged + 1, botsPassed := m.botsPassed + 1)
    ensures Bumped(m, Outcome(scene, true, true, passed))
         == m.(totalChallenges := m.totalChallenges + 1, totalPassed := m.totalPassed + (if passed then 1 else 0),
               botsChallenged := m.botsChallenged + 1, botsPassed := m.botsPassed + (if passed then 1 else 0))
    ensures Bumped(m, Outcome(scene, false, true, passed))
         == m.(totalChallenges := m.totalChallenges + 1, totalPassed := m.totalPassed + (if passed then 1 else 0),
               humansChallenged := m.humansChallenged + 1, humansFailed := m.humansFailed + (if passed then 0 else 1))
  {}
}
