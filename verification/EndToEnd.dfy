/**
  A challenge from generation to server-side verification. The challenge engine and the
  verification service share the signing key and one clock but no other state; any number
  of clients answer challenges and present tokens, in any interleaving, while both sweepers
  run. The one assumption is that signatures are not forged: a token that carries the MAC of its
  own payload was issued by the engine.
 */
module EndToEnd {
  import opened Prelude
  import opened Tokens
  import Engine = ChallengeEngine
  import Verify

  datatype Event = AtEngine(e: Engine.Event) | AtService(v: Verify.Event) {
    function Now(): int { if AtEngine? then e.now else v.now }
  }

  function EngineEvents(events: seq<Event>): seq<Engine.Event> {
    if events == [] then []
    else
      var rest := EngineEvents(events[..|events| - 1]);
      var last := events[|events| - 1];
      if last.AtEngine? then rest + [last.e] else rest
  }

  function ServiceEvents(events: seq<Event>): seq<Verify.Event> {
    if events == [] then []
    else
      var rest := ServiceEvents(events[..|events| - 1]);
      var last := events[|events| - 1];
      if last.AtService? then rest + [last.v] else rest
  }

  function EngineState(events: seq<Event>): Engine.State { Engine.Run(EngineEvents(events)) }

  function Wins(codec: Codec, events: seq<Event>): map<nat, string> {
    Verify.Run(codec, ServiceEvents(events)).wins
  }

  /** A token is signed for an ID at an instant: at once for an invisible challenge, else on passing. */
  function IssuedBy(s: Engine.State, e: Event): set<(string, int)> {
    match e
    case AtEngine(Generate(id, rec, now)) => if rec.challengeType.Invisible? then {(id, now)} else {}
    case AtEngine(Validate(id, answer, now)) => if Engine.Passes(s.answers, id, answer, now) then {(id, now)} else {}
    case _ => {}
  }

  function Issued(events: seq<Event>): set<(string, int)> {
    if events == [] then {}
    else
      var n := |events| - 1;
      Issued(events[..n]) + IssuedBy(EngineState(events[..n]), events[n])
  }

  ghost predicate IssuedToken(codec: Codec, events: seq<Event>, token: string) {
    exists p :: p in Issued(events) && Sign(codec, p.0, p.1) == token
  }

  /** What a single event may do after the events before it. */
  ghost predicate Permitted(codec: Codec, before: seq<Event>, e: Event) {
    match e
    case AtEngine(g) =>
      && Engine.Fresh(EngineState(before), g)
      && Expressible(g.now) && (g.Generate? ==> PlainID(g.id))
    case AtService(v) =>
      v.Mark? && Verify.Genuine(codec, v.token) ==> IssuedToken(codec, before, v.token)
  }

  ghost predicate Honest(codec: Codec, events: seq<Event>) {
    && (forall i :: 0 <= i < |events| ==> Permitted(codec, events[..i], events[i]))
    && (forall i, j :: 0 <= i < j < |events| ==> events[i].Now() <= events[j].Now())
    && (events != [] ==> 0 <= events[0].Now())
  }

  lemma HonestPrefix(codec: Codec, events: seq<Event>, n: nat)
    requires Honest(codec, events) && n <= |events|
    ensures Honest(codec, events[..n])
  {
    forall i | 0 <= i < n ensures Permitted(codec, events[..n][..i], events[..n][i]) {
      assert events[..n][..i] == events[..i];
    }
  }

  lemma HonestLast(codec: Codec, events: seq<Event>)
    requires Honest(codec, events) && events != []
    ensures var n := |events| - 1;
            && events[..n] + [events[n]] == events && Permitted(codec, events[..n], events[n])
            && 0 <= events[n].Now() && (events[..n] != [] ==> events[..n][n - 1].Now() <= events[n].Now())
  {}

  lemma PresentedIsIssued(codec: Codec, before: seq<Event>, e: Event, token: string)
    requires Permitted(codec, before, e) && e.AtService? && Verify.Presents(codec, e.v, token)
    ensures IssuedToken(codec, before, token)
  {
    Verify.ScreenMeans(codec, e.v.secretOk, token);
  }

  // ---- The engine issues few tokens -------------------------------------------------

  function IssuedFor(events: seq<Event>, id: string): set<(string, int)> {
    set p | p in Issued(events) && p.0 == id
  }

  /** One token per challenge, and one more for an invisible one, which is signed twice. */
  function Quota(s: Engine.State, invisible: set<string>, id: string): nat {
    if id !in s.born then 0 else if id in invisible then 2 else 1
  }

  function InvisibleIDs(events: seq<Event>): set<string> {
    if events == [] then {}
    else
      var rest := InvisibleIDs(events[..|events| - 1]);
      match events[|events| - 1]
      case AtEngine(Generate(id, rec, _)) => if rec.challengeType.Invisible? then rest + {id} else rest
      case _ => rest
  }

  /** An unanswered challenge still has one token to come. */
  ghost predicate WithinQuota(events: seq<Event>, id: string) {
    var s := EngineState(events);
    && |IssuedFor(events, id)| + (if id in s.answers then 1 else 0) <= Quota(s, InvisibleIDs(events), id)
    && (id in s.answers ==> id in s.born)
    && (id in InvisibleIDs(events) ==> id in s.born)
  }

  lemma Push(events: seq<Event>, e: Event)
    ensures EngineState(events + [e])
         == if e.AtEngine? then Engine.Step(EngineState(events), e.e) else EngineState(events)
    ensures Issued(events + [e]) == Issued(events) + IssuedBy(EngineState(events), e)
    ensures ServiceEvents(events + [e]) == if e.AtService? then ServiceEvents(events) + [e.v] else ServiceEvents(events)
  {
    assert (events + [e])[..|events|] == events;
    if e.AtEngine? {
      var g := EngineEvents(events);
      assert (g + [e.e])[..|g|] == g;
    }
  }

  /** What an event adds to the tokens issued for one ID: one at most. */
  function AddedFor(events: seq<Event>, e: Event, id: string): set<(string, int)> {
    set p | p in IssuedBy(EngineState(events), e) && p.0 == id
  }

  lemma AtMostOneAdded(events: seq<Event>, e: Event, id: string)
    ensures |AddedFor(events, e, id)| <= 1
  {
    SubsetSize(AddedFor(events, e, id), IssuedBy(EngineState(events), e));
  }

  lemma IssuedForPush(events: seq<Event>, e: Event, id: string)
    ensures |IssuedFor(events + [e], id)| <= |IssuedFor(events, id)| + |AddedFor(events, e, id)|
    ensures |AddedFor(events, e, id)| <= 1
  {
    assert IssuedFor(events + [e], id) == IssuedFor(events, id) + AddedFor(events, e, id) by {
      Push(events, e);
    }
    AtMostOneAdded(events, e, id);
  }

  lemma InvisiblePush(events: seq<Event>, e: Event)
    ensures InvisibleIDs(events + [e])
         == if e.AtEngine? && e.e.Generate? && e.e.rec.challengeType.Invisible? then InvisibleIDs(events) + {e.e.id}
            else InvisibleIDs(events)
  {
    assert (events + [e])[..|events|] == events;
  }

  lemma StepQuota(events: seq<Event>, e: Event, id: string, codec: Codec)
    requires WithinQuota(events, id) && Permitted(codec, events, e)
    ensures WithinQuota(events + [e], id)
  {
    IssuedForPush(events, e, id);
    InvisiblePush(events, e);
    Push(events, e);
    var s := EngineState(events);
    var added := AddedFor(events, e, id);
    if e.AtEngine? && e.e.Generate? && e.e.id == id {
      assert added <= {(id, e.e.now)};
      if !e.e.rec.challengeType.Invisible? { assert added == {}; }
    } else if e.AtEngine? && e.e.Validate? && e.e.id == id {
      if id !in s.answers { assert added == {}; }
    } else {
      assert added == {};
    }
  }

  lemma NoneIssued(id: string)
    ensures WithinQuota([], id)
  {
    assert IssuedFor([], id) == {};
  }

  lemma {:induction false} RunQuota(codec: Codec, events: seq<Event>, id: string)
    requires Honest(codec, events)
    ensures WithinQuota(events, id)
  {
    if events == [] {
      NoneIssued(id);
    } else {
      var n := |events| - 1;
      HonestPrefix(codec, events, n);
      RunQuota(codec, events[..n], id);
      HonestLast(codec, events);
      assert WithinQuota(events[..n] + [events[n]], id) by {
        StepQuota(events[..n], events[n], id, codec);
      }
    }
  }

  // ---- Issued tokens are plain, and signed before they are presented ---------------------

  ghost predicate BornPlain(s: Engine.State) {
    && (forall id :: id in s.born ==> PlainID(id))
    && (forall id :: id in s.answers ==> id in s.born)
  }

  ghost predicate IssuedOk(events: seq<Event>) {
    && BornPlain(EngineState(events))
    && (forall p :: p in Issued(events) ==>
          PlainID(p.0) && Expressible(p.1) && events != [] && p.1 <= events[|events| - 1].Now())
  }

  lemma StepIssuedOk(codec: Codec, events: seq<Event>, e: Event)
    requires IssuedOk(events) && Permitted(codec, events, e)
    requires events != [] ==> events[|events| - 1].Now() <= e.Now()
    ensures IssuedOk(events + [e])
  {
    Push(events, e);
    assert BornPlain(EngineState(events + [e]));
    forall p | p in IssuedBy(EngineState(events), e)
      ensures PlainID(p.0) && Expressible(p.1) && p.1 <= e.Now() {}
  }

  lemma {:induction false} RunIssuedOk(codec: Codec, events: seq<Event>)
    requires Honest(codec, events)
    ensures IssuedOk(events)
  {
    if events != [] {
      var n := |events| - 1;
      HonestPrefix(codec, events, n);
      RunIssuedOk(codec, events[..n]);
      HonestLast(codec, events);
      assert IssuedOk(events[..n] + [events[n]]) by {
        StepIssuedOk(codec, events[..n], events[n]);
      }
    }
  }

  /** Seen from the service, the clock runs forward and every genuine token comes in time. */
  ghost predicate ServiceSound(codec: Codec, events: seq<Event>) {
    var vs := ServiceEvents(events);
    && Verify.ClockOrder(vs)
    && (forall v :: v in vs ==> events != [] && v.now <= events[|events| - 1].Now())
    && (forall v, token :: v in vs && Verify.Presents(codec, v, token) ==>
          ClaimOf(codec, token).Some? && ClaimOf(codec, token).value.1 <= v.now)
  }

  lemma IssuedClaims(codec: Codec, events: seq<Event>, token: string, p: (string, int))
    requires Lawful(codec) && IssuedOk(events) && p in Issued(events) && Sign(codec, p.0, p.1) == token
    ensures ClaimOf(codec, token) == Some((p.0, Stamped(p.1))) && Stamped(p.1) <= events[|events| - 1].Now()
  {
    SignedTokenParses(codec, p.0, p.1);
  }

  lemma PresentedInTime(codec: Codec, events: seq<Event>, e: Event, token: string)
    requires Lawful(codec) && IssuedOk(events) && Permitted(codec, events, e)
    requires events != [] ==> events[|events| - 1].Now() <= e.Now()
    requires e.AtService? && Verify.Presents(codec, e.v, token)
    ensures ClaimOf(codec, token).Some? && ClaimOf(codec, token).value.1 <= e.Now()
  {
    PresentedIsIssued(codec, events, e, token);
    var p :| p in Issued(events) && Sign(codec, p.0, p.1) == token;
    IssuedClaims(codec, events, token, p);
  }

  lemma StepServiceSound(codec: Codec, events: seq<Event>, e: Event)
    requires Lawful(codec) && ServiceSound(codec, events) && IssuedOk(events) && Permitted(codec, events, e)
    requires 0 <= e.Now() && (events != [] ==> events[|events| - 1].Now() <= e.Now())
    ensures ServiceSound(codec, events + [e])
  {
    assert ServiceEvents(events + [e])
        == if e.AtService? then ServiceEvents(events) + [e.v] else ServiceEvents(events) by {
      Push(events, e);
    }
    if e.AtService? {
      forall token | Verify.Presents(codec, e.v, token)
        ensures ClaimOf(codec, token).Some? && ClaimOf(codec, token).value.1 <= e.v.now
      {
        PresentedInTime(codec, events, e, token);
      }
    }
  }

  lemma {:induction false} RunServiceSound(codec: Codec, events: seq<Event>)
    requires Lawful(codec) && Honest(codec, events)
    ensures ServiceSound(codec, events)
  {
    if events != [] {
      var n := |events| - 1;
      HonestPrefix(codec, events, n);
      RunServiceSound(codec, events[..n]);
      RunIssuedOk(codec, events[..n]);
      HonestLast(codec, events);
      assert ServiceSound(codec, events[..n] + [events[n]]) by {
        StepServiceSound(codec, events[..n], events[n]);
      }
    }
  }

  // ---- Whoever succeeds holds an issued token ----------------------------------------------

  ghost predicate OnlyIssued(codec: Codec, events: seq<Event>) {
    var s := Verify.Run(codec, ServiceEvents(events));
    && (forall c :: c in s.pending ==> IssuedToken(codec, events, s.pending[c]))
    && (forall c :: c in s.wins ==> IssuedToken(codec, events, s.wins[c]))
  }

  lemma IssuedTokenPush(codec: Codec, events: seq<Event>, e: Event, token: string)
    requires IssuedToken(codec, events, token)
    ensures IssuedToken(codec, events + [e], token)
  {
    Push(events, e);
    var p :| p in Issued(events) && Sign(codec, p.0, p.1) == token;
    assert p in Issued(events + [e]);
  }

  /** A call's token comes from its own marking, and a win from a pending call. */
  lemma Provenance(codec: Codec, s: Verify.State, v: Verify.Event)
    ensures var s' := Verify.Step(codec, s, v);
            && (forall c :: c in s'.pending ==>
                  (c in s.pending && s.pending[c] == s'.pending[c]) || Verify.Presents(codec, v, s'.pending[c]))
            && (forall c :: c in s'.wins ==>
                  (c in s.wins && s.wins[c] == s'.wins[c]) || (c in s.pending && s.pending[c] == s'.wins[c]))
  {}

  /** The token of a call that is pending after the event. */
  lemma PendingIssued(codec: Codec, events: seq<Event>, e: Event, c: nat)
    requires OnlyIssued(codec, events) && Permitted(codec, events, e) && e.AtService?
    requires c in Verify.Step(codec, Verify.Run(codec, ServiceEvents(events)), e.v).pending
    ensures IssuedToken(codec, events, Verify.Step(codec, Verify.Run(codec, ServiceEvents(events)), e.v).pending[c])
  {
    var s := Verify.Run(codec, ServiceEvents(events));
    var token := Verify.Step(codec, s, e.v).pending[c];
    Provenance(codec, s, e.v);
    if Verify.Presents(codec, e.v, token) {
      PresentedIsIssued(codec, events, e, token);
    }
  }

  lemma WonIssued(codec: Codec, events: seq<Event>, e: Event, c: nat)
    requires OnlyIssued(codec, events) && e.AtService?
    requires c in Verify.Step(codec, Verify.Run(codec, ServiceEvents(events)), e.v).wins
    ensures IssuedToken(codec, events, Verify.Step(codec, Verify.Run(codec, ServiceEvents(events)), e.v).wins[c])
  {
    Provenance(codec, Verify.Run(codec, ServiceEvents(events)), e.v);
  }

  lemma StepOnlyIssued(codec: Codec, events: seq<Event>, e: Event)
    requires OnlyIssued(codec, events) && Permitted(codec, events, e)
    ensures OnlyIssued(codec, events + [e])
  {
    var s' := Verify.Run(codec, ServiceEvents(events + [e]));
    Push(events, e);
    if e.AtService? { Verify.RunPush(codec, ServiceEvents(events), e.v); }
    forall c | c in s'.pending ensures IssuedToken(codec, events + [e], s'.pending[c]) {
      if e.AtService? { PendingIssued(codec, events, e, c); }
      IssuedTokenPush(codec, events, e, s'.pending[c]);
    }
    forall c | c in s'.wins ensures IssuedToken(codec, events + [e], s'.wins[c]) {
      if e.AtService? { WonIssued(codec, events, e, c); }
      IssuedTokenPush(codec, events, e, s'.wins[c]);
    }
  }

  lemma {:induction false} RunOnlyIssued(codec: Codec, events: seq<Event>)
    requires Honest(codec, events)
    ensures OnlyIssued(codec, events)
  {
    if events != [] {
      var n := |events| - 1;
      HonestPrefix(codec, events, n);
      RunOnlyIssued(codec, events[..n]);
      HonestLast(codec, events);
      assert OnlyIssued(codec, events[..n] + [events[n]]) by {
        StepOnlyIssued(codec, events[..n], events[n]);
      }
    }
  }

  // ---- The theorem -------------------------------------------------------------------------

  /** The calls of SiteVerify that succeeded with a token of this challenge. */
  function WinnersFor(codec: Codec, events: seq<Event>, id: string): set<nat> {
    var wins := Wins(codec, events);
    set c | c in wins && ClaimOf(codec, wins[c]).Some? && ClaimOf(codec, wins[c]).value.0 == id
  }

  lemma {:induction false} DistinctTokens(codec: Codec, calls: set<nat>, wins: map<nat, string>,
                                          issued: set<(string, int)>)
    requires calls <= wins.Keys
    requires forall c :: c in calls ==> exists p :: p in issued && Sign(codec, p.0, p.1) == wins[c]
    requires forall c, d :: c in calls && d in calls && c != d ==> wins[c] != wins[d]
    ensures |calls| <= |issued|
    decreases calls
  {
    if calls != {} {
      var c :| c in calls;
      var p :| p in issued && Sign(codec, p.0, p.1) == wins[c];
      forall d | d in calls - {c} ensures exists q :: q in issued - {p} && Sign(codec, q.0, q.1) == wins[d] {
        var q :| q in issued && Sign(codec, q.0, q.1) == wins[d];
        assert q in issued - {p};
      }
      DistinctTokens(codec, calls - {c}, wins, issued - {p});
    }
  }

  lemma WinnersHoldTokens(codec: Codec, events: seq<Event>, id: string, c: nat)
    requires Lawful(codec) && Honest(codec, events) && c in WinnersFor(codec, events, id)
    ensures exists p :: p in IssuedFor(events, id) && Sign(codec, p.0, p.1) == Wins(codec, events)[c]
  {
    RunOnlyIssued(codec, events);
    RunIssuedOk(codec, events);
    var token := Wins(codec, events)[c];
    var p :| p in Issued(events) && Sign(codec, p.0, p.1) == token;
    IssuedClaims(codec, events, token, p);
    assert p in IssuedFor(events, id);
  }

  lemma WinnersDiffer(codec: Codec, events: seq<Event>, c: nat, d: nat)
    requires Lawful(codec) && Honest(codec, events)
    requires c in Wins(codec, events) && d in Wins(codec, events) && c != d
    ensures Wins(codec, events)[c] != Wins(codec, events)[d]
  {
    var token := Wins(codec, events)[c];
    RunServiceSound(codec, events);
    var vs := ServiceEvents(events);
    if Wins(codec, events)[d] == token {
      Verify.NoDoubleSuccess(codec, vs, token);
      assert Verify.Won(Verify.Run(codec, vs), token, c) && Verify.Won(Verify.Run(codec, vs), token, d);
      assert false;
    }
  }

  /**
    However clients interleave, a challenge leads to at most one successful verification,
    or two if it is invisible: such a challenge is signed when generated and again when
    validated.
   */
  lemma ChallengeSucceedsOnce(codec: Codec, events: seq<Event>, id: string)
    requires Lawful(codec) && Honest(codec, events)
    ensures |WinnersFor(codec, events, id)| <= if id in InvisibleIDs(events) then 2 else 1
  {
    var calls := WinnersFor(codec, events, id);
    forall c | c in calls
      ensures exists p :: p in IssuedFor(events, id) && Sign(codec, p.0, p.1) == Wins(codec, events)[c]
    {
      WinnersHoldTokens(codec, events, id, c);
    }
    forall c, d | c in calls && d in calls && c != d ensures Wins(codec, events)[c] != Wins(codec, events)[d] {
      WinnersDiffer(codec, events, c, d);
    }
    DistinctTokens(codec, calls, Wins(codec, events), IssuedFor(events, id));
    RunQuota(codec, events, id);
  }

  // ---- Two successes are possible for an invisible challenge ---------------------------------

  lemma OrderPush(codec: Codec, events: seq<Event>, e: Event)
    requires Honest(codec, events) && 0 <= e.Now()
    requires events != [] ==> events[|events| - 1].Now() <= e.Now()
    ensures var after := events + [e];
            (forall i, j :: 0 <= i < j < |after| ==> after[i].Now() <= after[j].Now()) && 0 <= after[0].Now()
  {}

  lemma HonestPush(codec: Codec, events: seq<Event>, e: Event)
    requires Honest(codec, events) && Permitted(codec, events, e) && 0 <= e.Now()
    requires events != [] ==> events[|events| - 1].Now() <= e.Now()
    ensures Honest(codec, events + [e])
  {
    var after := events + [e];
    OrderPush(codec, events, e);
    forall i | 0 <= i < |after| ensures Permitted(codec, after[..i], after[i]) {
      assert after[..i] == if i < |events| then events[..i] else events;
    }
  }

  /** The challenge is generated and, a second later, validated. */
  lemma InvisibleIssued(codec: Codec, id: string, t: int) returns (issue: seq<Event>)
    requires PlainID(id) && 0 <= t && Expressible(t + SECOND)
    ensures Honest(codec, issue) && Issued(issue) == {(id, t), (id, t + SECOND)}
    ensures issue != [] && issue[|issue| - 1].Now() == t + SECOND
    ensures Verify.Run(codec, ServiceEvents(issue)) == Verify.INITIAL
  {
    var rec := Engine.Record(Engine.Invisible, Engine.NoAnswer, t + Engine.LIFETIME);
    var generate := AtEngine(Engine.Generate(id, rec, t));
    var validate := AtEngine(Engine.Validate(id, Engine.Unsupported, t + SECOND));
    HonestPush(codec, [], generate);
    Push([], generate);
    HonestPush(codec, [] + [generate], validate);
    Push([] + [generate], validate);
    issue := [] + [generate] + [validate];
  }

  /** Marking and then checking a token, as the next call of the service. */
  function Present(codec: Codec, events: seq<Event>, token: string, now: int): seq<Event> {
    events + [AtService(Verify.Mark(true, token, now))]
           + [AtService(Verify.Check(Verify.Run(codec, ServiceEvents(events)).calls, now))]
  }

  lemma PresentHonest(codec: Codec, events: seq<Event>, token: string, now: int)
    requires Honest(codec, events) && IssuedToken(codec, events, token)
    requires events != [] && 0 <= events[|events| - 1].Now() <= now
    ensures var after := Present(codec, events, token, now);
            && Honest(codec, after) && Issued(after) == Issued(events)
            && after != [] && after[|after| - 1].Now() == now
  {
    var mark := AtService(Verify.Mark(true, token, now));
    var check := AtService(Verify.Check(Verify.Run(codec, ServiceEvents(events)).calls, now));
    HonestPush(codec, events, mark);
    HonestPush(codec, events + [mark], check);
    Push(events, mark);
    Push(events + [mark], check);
  }

  lemma PresentSucceeds(codec: Codec, events: seq<Event>, p: (string, int), now: int)
    requires Lawful(codec) && PlainID(p.0) && Expressible(p.1) && now - Stamped(p.1) <= Verify.LIFETIME
    requires Sign(codec, p.0, p.1) !in Verify.Run(codec, ServiceEvents(events)).used
    requires Verify.CallsOk(Verify.Run(codec, ServiceEvents(events)))
    ensures var s := Verify.Run(codec, ServiceEvents(events));
            var token := Sign(codec, p.0, p.1);
            Verify.Run(codec, ServiceEvents(Present(codec, events, token, now)))
              == Verify.State(s.used[token := now], s.pending, s.wins[s.calls := token], s.calls + 1, now)
  {
    var s := Verify.Run(codec, ServiceEvents(events));
    var token := Sign(codec, p.0, p.1);
    var mark, check := AtService(Verify.Mark(true, token, now)), AtService(Verify.Check(s.calls, now));
    calc {
      Verify.Run(codec, ServiceEvents(events + [mark] + [check]));
      { Push(events + [mark], check); }
      Verify.Run(codec, ServiceEvents(events + [mark]) + [check.v]);
      { Verify.RunPush(codec, ServiceEvents(events + [mark]), check.v); }
      Verify.Step(codec, Verify.Run(codec, ServiceEvents(events + [mark])), check.v);
      { Push(events, mark); }
      Verify.Step(codec, Verify.Run(codec, ServiceEvents(events) + [mark.v]), check.v);
      { Verify.RunPush(codec, ServiceEvents(events), mark.v); }
      Verify.Step(codec, Verify.Step(codec, s, mark.v), check.v);
      { Verify.FreshTokenSucceeds(codec, p.0, p.1, now); Verify.MarkThenCheck(codec, s, token, now); }
      Verify.State(s.used[token := now], s.pending, s.wins[s.calls := token], s.calls + 1, now);
    }
  }

  lemma TwoWinners(codec: Codec, events: seq<Event>, id: string, first: string, second: string)
    requires Wins(codec, events) == map[0 := first, 1 := second]
    requires ClaimOf(codec, first).Some? && ClaimOf(codec, first).value.0 == id
    requires ClaimOf(codec, second).Some? && ClaimOf(codec, second).value.0 == id
    ensures |WinnersFor(codec, events, id)| == 2
  {
    assert WinnersFor(codec, events, id) == {0, 1};
  }

  lemma SecondsApart(codec: Codec, id: string, t: int)
    requires Lawful(codec) && PlainID(id) && Expressible(t) && Expressible(t + SECOND)
    ensures Sign(codec, id, t) != Sign(codec, id, t + SECOND)
  {
    SignedTokenParses(codec, id, t);
    SignedTokenParses(codec, id, t + SECOND);
    assert Stamped(t + SECOND) == Stamped(t) + SECOND;
  }

  lemma PresentIssuedHonest(codec: Codec, events: seq<Event>, p: (string, int), now: int)
    requires Honest(codec, events) && p in Issued(events)
    requires events != [] && 0 <= events[|events| - 1].Now() <= now
    ensures var after := Present(codec, events, Sign(codec, p.0, p.1), now);
            && Honest(codec, after) && Issued(after) == Issued(events)
            && after != [] && after[|after| - 1].Now() == now
  {
    var token := Sign(codec, p.0, p.1);
    assert IssuedToken(codec, events, token);
    PresentHonest(codec, events, token, now);
  }

  /** Presenting an issued token that is neither used nor old succeeds. */
  lemma PresentIssued(codec: Codec, events: seq<Event>, p: (string, int), now: int, s: Verify.State)
    returns (after: seq<Event>)
    requires Lawful(codec) && Honest(codec, events) && p in Issued(events)
    requires events != [] && 0 <= events[|events| - 1].Now() <= now
    requires PlainID(p.0) && Expressible(p.1) && now - Stamped(p.1) <= Verify.LIFETIME
    requires s == Verify.Run(codec, ServiceEvents(events)) && Verify.CallsOk(s)
    requires Sign(codec, p.0, p.1) !in s.used
    ensures Honest(codec, after) && Issued(after) == Issued(events)
    ensures after != [] && after[|after| - 1].Now() == now
    ensures var token := Sign(codec, p.0, p.1);
            Verify.Run(codec, ServiceEvents(after))
              == Verify.State(s.used[token := now], s.pending, s.wins[s.calls := token], s.calls + 1, now)
  {
    after := Present(codec, events, Sign(codec, p.0, p.1), now);
    PresentIssuedHonest(codec, events, p, now);
    PresentSucceeds(codec, events, p, now);
  }

  lemma OneSecondOld(t: int)
    ensures 0 <= t + SECOND - Stamped(t) <= Verify.LIFETIME && t + SECOND - Stamped(t + SECOND) <= Verify.LIFETIME
  {}

  /** The token of the first signing, presented once the second is issued, succeeds as call 0. */
  lemma FirstSucceeds(codec: Codec, id: string, t: int) returns (once: seq<Event>)
    requires Lawful(codec) && PlainID(id) && 0 <= t && Expressible(t) && Expressible(t + SECOND)
    ensures Honest(codec, once) && once != [] && once[|once| - 1].Now() == t + SECOND
    ensures (id, t + SECOND) in Issued(once)
    ensures var token := Sign(codec, id, t);
            Verify.Run(codec, ServiceEvents(once))
              == Verify.State(map[token := t + SECOND], map[], map[0 := token], 1, t + SECOND)
  {
    var issue := InvisibleIssued(codec, id, t);
    OneSecondOld(t);
    once := PresentIssued(codec, issue, (id, t), t + SECOND, Verify.INITIAL);
  }

  lemma SecondSucceeds(codec: Codec, id: string, t: int) returns (twice: seq<Event>)
    requires Lawful(codec) && PlainID(id) && 0 <= t && Expressible(t) && Expressible(t + SECOND)
    ensures Honest(codec, twice)
    ensures Wins(codec, twice) == map[0 := Sign(codec, id, t), 1 := Sign(codec, id, t + SECOND)]
  {
    var once := FirstSucceeds(codec, id, t);
    SecondsApart(codec, id, t);
    OneSecondOld(t);
    twice := PresentIssued(codec, once, (id, t + SECOND), t + SECOND, Verify.Run(codec, ServiceEvents(once)));
  }

  /** Both tokens of an invisible challenge succeed, so its quota is reached. */
  lemma InvisibleSucceedsTwice(codec: Codec, id: string, t: int) returns (events: seq<Event>)
    requires Lawful(codec) && PlainID(id) && 0 <= t && Expressible(t) && Expressible(t + SECOND)
    ensures Honest(codec, events) && |WinnersFor(codec, events, id)| == 2
  {
    events := SecondSucceeds(codec, id, t);
    SignedTokenParses(codec, id, t);
    SignedTokenParses(codec, id, t + SECOND);
    TwoWinners(codec, events, id, Sign(codec, id, t), Sign(codec, id, t + SECOND));
  }

  // ---- A solved challenge does succeed ----------------------------------------------------

  /** The challenge is generated, and answered within five minutes to the engine's satisfaction. */
  lemma SolvedIssued(codec: Codec, id: string, rec: Engine.Record, answer: Engine.Answer, t: int, solved: int)
    returns (issue: seq<Event>)
    requires PlainID(id) && 0 <= t <= solved <= t + 300_000_000_000 && Expressible(solved)
    requires Engine.Generated(rec, t) && !rec.challengeType.Invisible? && Engine.Accepts(rec, answer)
    ensures Honest(codec, issue) && Issued(issue) == {(id, solved)} && id !in InvisibleIDs(issue)
    ensures issue != [] && issue[|issue| - 1].Now() == solved
    ensures Verify.Run(codec, ServiceEvents(issue)) == Verify.INITIAL
  {
    var generate := AtEngine(Engine.Generate(id, rec, t));
    var validate := AtEngine(Engine.Validate(id, answer, solved));
    HonestPush(codec, [], generate);
    Push([], generate);
    InvisiblePush([], generate);
    HonestPush(codec, [] + [generate], validate);
    Push([] + [generate], validate);
    InvisiblePush([] + [generate], validate);
    issue := [] + [generate] + [validate];
  }

  lemma OneWinner(codec: Codec, events: seq<Event>, id: string, token: string)
    requires Wins(codec, events) == map[0 := token]
    requires ClaimOf(codec, token).Some? && ClaimOf(codec, token).value.0 == id
    ensures |WinnersFor(codec, events, id)| == 1
  {
    assert WinnersFor(codec, events, id) == {0};
  }

  /** Solved in time and presented within ten minutes of that, a challenge succeeds: its quota of one is reached. */
  lemma SolvedSucceeds(codec: Codec, id: string, rec: Engine.Record, answer: Engine.Answer,
                       t: int, solved: int, now: int)
    returns (events: seq<Event>)
    requires Lawful(codec) && PlainID(id) && Expressible(solved)
    requires 0 <= t <= solved <= t + 300_000_000_000 && solved <= now && now - Stamped(solved) <= 600_000_000_000
    requires Engine.Generated(rec, t) && !rec.challengeType.Invisible? && Engine.Accepts(rec, answer)
    ensures Honest(codec, events) && |WinnersFor(codec, events, id)| == 1
  {
    var issue := SolvedIssued(codec, id, rec, answer, t, solved);
    events := PresentIssued(codec, issue, (id, solved), now, Verify.INITIAL);
    SignedTokenParses(codec, id, solved);
    OneWinner(codec, events, id, Sign(codec, id, solved));
  }
}
