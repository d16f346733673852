/**
  Policy evaluation (internal/service/policy/engine.go): the action for a risk score.
  Parsing an address and matching it against one list entry are left abstract.
 */
module Policy {
  import opened Prelude

  /** An action is a string in the repository: empty, one of four known ones, or anything else. */
  datatype RiskAction = Unset | Pass | Invisible | Challenge | Deny | Other(name: string)

  datatype Policy = Policy(thresholdLow: real, thresholdHigh: real,
                           actionLow: RiskAction, actionMid: RiskAction, actionHigh: RiskAction,
                           ipWhitelist: seq<string>, ipBlacklist: seq<string>, enabled: bool)

  datatype Net = Net(parses: string -> bool, covers: (string, string) -> bool)

  predicate MatchesIPList(net: Net, clientIP: string, list: seq<string>) {
    clientIP != "" && net.parses(clientIP) && exists i :: 0 <= i < |list| && net.covers(clientIP, list[i])
  }

  function DefaultAction(score: real): RiskAction {
    if score <= 20.0 then Pass
    else if score <= 50.0 then Invisible
    else if score <= 75.0 then Challenge
    else Deny
  }

  function Coalesce(action: RiskAction, fallback: RiskAction): RiskAction {
    if action == Unset then fallback else action
  }

  function Evaluate(net: Net, riskScore: real, policy: Option<Policy>, clientIP: string): RiskAction {
    if policy.None? || !policy.value.enabled then DefaultAction(riskScore)
    else
      var p := policy.value;
      if |p.ipWhitelist| > 0 && MatchesIPList(net, clientIP, p.ipWhitelist) then Pass
      else if |p.ipBlacklist| > 0 && MatchesIPList(net, clientIP, p.ipBlacklist) then Deny
      else if riskScore <= p.thresholdLow then Coalesce(p.actionLow, Pass)
      else if riskScore <= p.thresholdHigh then Coalesce(p.actionMid, Challenge)
      else Coalesce(p.actionHigh, Deny)
  }

  // ---- Severity -------------------------------------------------------------------

  /** Any way of saying how severe an action is. */
  type Ranking = RiskAction -> int

  ghost predicate RanksDefaults(rank: Ranking) {
    rank(Pass) <= rank(Invisible) <= rank(Challenge) <= rank(Deny)
  }

  /** The three bands of a policy are in order, once missing actions are filled in. */
  ghost predicate Ordered(rank: Ranking, p: Policy) {
    rank(Coalesce(p.actionLow, Pass)) <= rank(Coalesce(p.actionMid, Challenge)) <= rank(Coalesce(p.actionHigh, Deny))
  }

  /** Two policies that differ at most in their thresholds. */
  ghost predicate SameBands(p: Policy, q: Policy) {
    q == p.(thresholdLow := q.thresholdLow, thresholdHigh := q.thresholdHigh)
  }

  /** A higher score under lower thresholds is never treated more leniently. */
  lemma HigherScoreNoLenienter(net: Net, rank: Ranking, score: real, score': real, p: Policy, p': Policy, ip: string)
    requires score <= score' && SameBands(p, p') && RanksDefaults(rank) && Ordered(rank, p)
    requires p'.thresholdLow <= p.thresholdLow && p'.thresholdHigh <= p.thresholdHigh
    ensures rank(Evaluate(net, score, Some(p), ip)) <= rank(Evaluate(net, score', Some(p'), ip))
    ensures rank(Evaluate(net, score, None, ip)) <= rank(Evaluate(net, score', None, ip))
  {}

  predicate Listed(net: Net, p: Policy, ip: string) {
    MatchesIPList(net, ip, p.ipWhitelist) || MatchesIPList(net, ip, p.ipBlacklist)
  }

  /** Neither the score nor the bands matter: any enabled policy with the same lists decides alike. */
  ghost predicate DecidedByLists(net: Net, p: Policy, ip: string) {
    forall score, q: Policy :: q.enabled && q.ipWhitelist == p.ipWhitelist && q.ipBlacklist == p.ipBlacklist ==>
      Evaluate(net, score, Some(q), ip) == Evaluate(net, 0.0, Some(p), ip)
  }

  /** The address lists alone decide exactly for the addresses they hold; for every other, score or bands matter. */
  lemma ListsDecideExactly(net: Net, p: Policy, ip: string)
    requires p.enabled
    ensures DecidedByLists(net, p, ip) <==> Listed(net, p, ip)
    ensures Listed(net, p, ip) ==>
              (Evaluate(net, 0.0, Some(p), ip) == if MatchesIPList(net, ip, p.ipWhitelist) then Pass else Deny)
  {
    if !Listed(net, p, ip) {
      var lenient := p.(thresholdLow := 0.0, actionLow := Pass);
      var strict := p.(thresholdLow := 0.0, actionLow := Deny);
      assert Evaluate(net, 0.0, Some(lenient), ip) == Pass && Evaluate(net, 0.0, Some(strict), ip) == Deny;
      assert !DecidedByLists(net, p, ip);
    }
  }

  /** Without an active policy the score alone decides, at 20, 50 and 75. */
  lemma DefaultBands(net: Net, score: real, policy: Option<Policy>, ip: string)
    requires policy.None? || !policy.value.enabled
    ensures var action := Evaluate(net, score, policy, ip);
            && (action == Pass <==> score <= 20.0) && (action == Invisible <==> 20.0 < score <= 50.0)
            && (action == Challenge <==> 50.0 < score <= 75.0) && (action == Deny <==> score > 75.0)
  {}

  /** For an unlisted address an active policy's bands decide, and a missing action has the default of its band. */
  lemma PolicyBands(net: Net, score: real, p: Policy, ip: string)
    requires p.enabled && !Listed(net, p, ip)
    ensures var action := Evaluate(net, score, Some(p), ip);
            && (score <= p.thresholdLow ==> action == if p.actionLow == Unset then Pass else p.actionLow)
            && (p.thresholdLow < score <= p.thresholdHigh ==>
                  action == if p.actionMid == Unset then Challenge else p.actionMid)
            && (score > p.thresholdLow && score > p.thresholdHigh ==>
                  action == if p.actionHigh == Unset then Deny else p.actionHigh)
  {}

  /** An address matches a list if it can be parsed and some entry covers it. */
  lemma MatchMeans(net: Net, ip: string, list: seq<string>)
    ensures MatchesIPList(net, ip, list)
            <==> (ip != "" && net.parses(ip) && exists entry :: entry in list && net.covers(ip, entry))
  {
    if entry :| entry in list && net.covers(ip, entry) {
      var i :| 0 <= i < |list| && list[i] == entry;
    }
  }
}
